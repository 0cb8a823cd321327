/** The error codes: each tells in which part of a message the parser stopped. */
module HttpErrors {
  import opened HttpStep
  import opened HttpTypes

  predicate InVersionDigits(s: State) {
    s.ResHttpMajor? || s.ResHttpDot? || s.ResHttpMinor? || s.ResHttpEnd?
    || s.ReqHttpMajor? || s.ReqHttpDot? || s.ReqHttpMinor? || s.ReqHttpEnd?
  }

  /** The error for the byte `ch`, if the record `p` does not take it. */
  function Blame(lenient: bool, p: Rec, ch: char): Errno {
    var s := p.state;
    if s.Dead? then ClosedConnection
    else if s.StartRes? || s.ResOrRespH? || s.ReqHttpStart? then InvalidConstant
    else if s.StartReq? || s.ReqMethod? then InvalidMethod
    else if s.ReqSpacesBeforeUrl? || InUrl(s) then InvalidUrl
    else if InVersionDigits(s) then InvalidVersion
    else if s.ResFirstStatusCode? || s.ResStatusCode? then InvalidStatus
    else if s.HeaderFieldStart? || s.HeaderField? then InvalidHeaderToken
    else if s.HeaderValueDiscardWs? || s.HeaderValueStart? then
      // a first byte can only be wrong in a length, or be that of a second length
      if '0' <= ch <= '9' then UnexpectedContentLength else InvalidContentLength
    else if s.HeaderValue? then
      if !lenient && !IsHeaderChar(ch) then InvalidHeaderToken else InvalidContentLength
    else if s.HeadersAlmostDone? then
      if ch != LF then Strict
      else if p.flags.chunked && p.flags.hasLength then UnexpectedContentLength
      else CallbackFailed
    else if s.ReqLineAlmostDone? || s.HeaderAlmostDone? then LfExpected
    // a size that grows too large is reported as a length
    else if s.ChunkSize? && Unhex(ch).Some? then InvalidContentLength
    else if s.ChunkSizeStart? || s.ChunkSize? then InvalidChunkSize
    else Strict
  }

  predicate Blamed(lenient: bool, p: Rec, ch: char, o: Out) {
    o.ctl.Fail? ==> o.ctl.errno == Blame(lenient, p, ch) && o.p.state == p.state
  }

  lemma ResLineErrors(env: Env, p: Rec, ch: char)
    requires GroupOf(p.state).ResLineGroup?
    ensures Blamed(env.lenient, p, ch, StepResLine(p, ch))
  {
    hide InUrl;
    NotElsewhere(p.state);
  }

  lemma NotElsewhere(s: State)
    ensures InUrl(s) ==> GroupOf(s).UrlGroup?
    ensures s.ReqSpacesBeforeUrl? || s.ReqMethod? || s.StartReq? ==> !GroupOf(s).ResLineGroup?
  {}

  lemma ReqLineErrors(env: Env, p: Rec, ch: char)
    requires GroupOf(p.state).ReqLineGroup?
    ensures Blamed(env.lenient, p, ch, StepReqLine(p, ch))
  {
    hide InUrl, FirstMethod;
    NotElsewhere(p.state);
  }

  lemma MethodErrors(env: Env, p: Rec, ch: char)
    requires GroupOf(p.state).MethodGroup?
    ensures Blamed(env.lenient, p, ch, StepMethod(p, ch))
  {
    hide MethodString, OtherMethod;
  }

  lemma UrlErrors(env: Env, p: Rec, ch: char)
    requires GroupOf(p.state).UrlGroup?
    ensures Blamed(env.lenient, p, ch, StepUrl(p, ch))
  {
    hide ParseUrlChar, AcceptsUrlEnd;
  }

  lemma StartErrors(p: Rec, ch: char)
    ensures var o := StepValueStart(p, ch);
      o.ctl.Fail? ==> o.p == p && o.ctl.errno == if '0' <= ch <= '9' then UnexpectedContentLength
                                                 else InvalidContentLength
  {}

  lemma ValueErrors(p: Rec, ch: char)
    ensures var o := ValueStep(p, ch); o.ctl.Fail? ==> o.ctl.errno == InvalidContentLength && o.p == p
  {
    hide MatchWord, Token;
  }

  lemma HeaderErrors(env: Env, p: Rec, ch: char)
    requires GroupOf(p.state).HeaderGroup?
    ensures Blamed(env.lenient, p, ch, StepHeader(env.lenient, p, ch))
  {
    hide InUrl, StepValueStart, ValueStep, NameStep, IsHeaderChar, Token, TokenFlag;
    NotElsewhere(p.state);
    StartErrors(p, ch);
    ValueErrors(p, ch);
  }

  lemma BodyErrors(env: Env, p: Rec, ch: char)
    requires GroupOf(p.state).BodyGroup?
    ensures Blamed(env.lenient, p, ch, StepBody(p, ch))
  {
    hide InUrl, NewMessage, Unhex;
    NotElsewhere(p.state);
  }

  lemma EndErrors(env: Env, p: Rec, ch: char)
    ensures p.state.HeadersAlmostDone? ==> StepHeadersAlmostDone(env, p, ch).ctl.Fail? ==>
              StepHeadersAlmostDone(env, p, ch).ctl.errno == Blame(env.lenient, p, ch)
    ensures p.state.HeadersDone? ==> StepHeadersDone(p, ch).ctl.Fail? ==>
              StepHeadersDone(p, ch).ctl.errno == Blame(env.lenient, p, ch)
  {
    hide NewMessage;
  }

  /** The error of a failing step is determined by the state and the byte. */
  lemma ErrorTellsPlace(env: Env, p: Rec, ch: char)
    ensures var o := Step(env, p, ch); o.ctl.Fail? ==> o.ctl.errno == Blame(env.lenient, p, ch)
  {
    hide StepResLine, StepReqLine, StepMethod, StepUrl, StepHeader, StepHeadersAlmostDone, StepHeadersDone, StepBody;
    hide Blame;
    match GroupOf(p.state) {
      case ResLineGroup => ResLineErrors(env, p, ch);
      case ReqLineGroup => ReqLineErrors(env, p, ch);
      case MethodGroup => MethodErrors(env, p, ch);
      case UrlGroup => UrlErrors(env, p, ch);
      case HeaderGroup => HeaderErrors(env, p, ch);
      case AlmostDoneGroup => EndErrors(env, p, ch);
      case DoneGroup => EndErrors(env, p, ch);
      case BodyGroup => BodyErrors(env, p, ch);
    }
    hide GroupOf;
  }
}
