/** The parser's own assertions cannot fail: every state implies what the C code
    asserts in it, and every step keeps what the states imply. */
module HttpInvariant {
  import opened HttpTypes
  import opened HttpStep

  /** The conditions that `http_parser_execute` asserts at the head of a case,
      but for the one on `nread`, and the bounds of its string accesses. */
  predicate Asserted(p: Rec) {
    // "Unknown header_state"
    && (p.state.HeaderField? ==>
          !p.hstate.MatchingChunked? && !p.hstate.MatchingTokenStart? && !p.hstate.MatchingKeepAlive?
          && !p.hstate.MatchingClose? && !p.hstate.MatchingTokenUpgrade? && !p.hstate.MatchingToken?
          && !p.hstate.Chunked? && !p.hstate.KeepAlive? && !p.hstate.Close? && !p.hstate.TokenUpgrade?)
    // "Shouldn't get here."
    && (p.state.HeaderValue? ==> !p.hstate.Connection? && !p.hstate.TransferEncoding?)
    && (p.state.BodyIdentity? || p.state.ChunkData? ==> p.contentLength != 0 && p.contentLength != ULLONG_MAX)
    && (InChunk(p.state) ==> p.flags.chunked)
    && (p.state.ChunkDataAlmostDone? ==> p.contentLength == 0)
    // matcher[parser->index] stays inside the string and its terminator
    && (p.state.ReqMethod? ==> p.index <= |MethodString(p.meth)|)
    // the 7-bit, 16-bit and 64-bit fields hold what was stored in them
    && p.index < 128 && p.status < 65536 && 0 <= p.contentLength <= ULLONG_MAX
  }

  predicate InChunk(s: State) {
    s.ChunkSizeStart? || s.ChunkSize? || s.ChunkParameters? || s.ChunkSizeAlmostDone?
    || s.ChunkData? || s.ChunkDataAlmostDone? || s.ChunkDataDone?
  }

  lemma AssertionsHold(p: Rec)
    requires Inv(p)
    ensures Asserted(p)
  {}

  lemma StepRank(env: Env, p: Rec, ch: char)
    ensures Step(env, p, ch).ctl.Again? ==> Rank(Step(env, p, ch).p.state) < Rank(p.state)
  {
    hide StepResLine, StepReqLine, StepMethod, StepUrl, StepHeader, StepHeadersAlmostDone, StepHeadersDone, StepBody;
    hide Rank;
    match GroupOf(p.state)
    case ResLineGroup => ResLineRank(p, ch);
    case ReqLineGroup => ReqLineRank(p, ch);
    case MethodGroup => MethodRank(p, ch);
    case UrlGroup => UrlRank(p, ch);
    case HeaderGroup => HeaderRank(env.lenient, p, ch);
    case AlmostDoneGroup => AlmostDoneRank(env, p, ch);
    case DoneGroup => DoneRank(p, ch);
    case BodyGroup => BodyRank(p, ch);
  }

  lemma ReqLineRank(p: Rec, ch: char)
    requires GroupOf(p.state).ReqLineGroup?
    ensures StepReqLine(p, ch).ctl.Again? ==> Rank(StepReqLine(p, ch).p.state) < Rank(p.state)
  {
    hide FirstMethod;
  }

  lemma MethodRank(p: Rec, ch: char)
    ensures !StepMethod(p, ch).ctl.Again?
  {
    hide MethodString, OtherMethod;
  }

  lemma UrlRank(p: Rec, ch: char)
    requires GroupOf(p.state).UrlGroup?
    ensures StepUrl(p, ch).ctl.Again? ==> Rank(StepUrl(p, ch).p.state) < Rank(p.state)
  {
    hide ParseUrlChar;
  }

  lemma AlmostDoneRank(env: Env, p: Rec, ch: char)
    requires p.state.HeadersAlmostDone?
    ensures StepHeadersAlmostDone(env, p, ch).ctl.Again? ==>
              Rank(StepHeadersAlmostDone(env, p, ch).p.state) < Rank(p.state)
  {}

  lemma DoneRank(p: Rec, ch: char)
    ensures !StepHeadersDone(p, ch).ctl.Again?
  {
    hide NewMessage, NeedsEof;
  }

  lemma ResLineRank(p: Rec, ch: char)
    requires GroupOf(p.state).ResLineGroup?
    ensures StepResLine(p, ch).ctl.Again? ==> Rank(StepResLine(p, ch).p.state) < Rank(p.state)
  {}

  lemma HeaderRank(lenient: bool, p: Rec, ch: char)
    requires GroupOf(p.state).HeaderGroup?
    ensures StepHeader(lenient, p, ch).ctl.Again? ==> Rank(StepHeader(lenient, p, ch).p.state) < Rank(p.state)
  {
    hide MethodString, NameStep, Token, IsHeaderChar;
  }

  lemma BodyRank(p: Rec, ch: char)
    requires GroupOf(p.state).BodyGroup?
    ensures StepBody(p, ch).ctl.Again? ==> Rank(StepBody(p, ch).p.state) < Rank(p.state)
  {
    hide Unhex, NewMessage;
  }

  lemma StepInv(env: Env, p: Rec, ch: char)
    requires Inv(p)
    ensures !Step(env, p, ch).ctl.Fail? ==> Inv(Step(env, p, ch).p)
  {
    hide StepResLine, StepReqLine, StepMethod, StepUrl, StepHeader, StepHeadersAlmostDone, StepHeadersDone, StepBody;
    hide Inv;
    match GroupOf(p.state)
    case ResLineGroup => ResLineInv(p, ch);
    case ReqLineGroup => ReqLineInv(p, ch);
    case MethodGroup => MethodInv(p, ch);
    case UrlGroup => UrlInv(p, ch);
    case HeaderGroup => HeaderInv(env.lenient, p, ch);
    case AlmostDoneGroup => AlmostDoneInv(env, p, ch);
    case DoneGroup => DoneInv(p, ch);
    case BodyGroup => BodyInv(p, ch);
  }

  lemma AlmostDoneInv(env: Env, p: Rec, ch: char)
    requires Inv(p) && p.state.HeadersAlmostDone?
    ensures !StepHeadersAlmostDone(env, p, ch).ctl.Fail? ==> Inv(StepHeadersAlmostDone(env, p, ch).p)
  {
    hide MethodString;
  }

  lemma DoneInv(p: Rec, ch: char)
    requires Inv(p) && p.state.HeadersDone?
    ensures !StepHeadersDone(p, ch).ctl.Fail? ==> Inv(StepHeadersDone(p, ch).p)
  {
    hide MethodString, ShouldKeepAlive, NeedsEof;
  }

  lemma ResLineInv(p: Rec, ch: char)
    requires Inv(p) && GroupOf(p.state).ResLineGroup?
    ensures !StepResLine(p, ch).ctl.Fail? ==> Inv(StepResLine(p, ch).p)
  {
    hide StepResLine, Inv;
    if p.state.Dead? || p.state.StartReqOrRes? || p.state.ResOrRespH? || p.state.StartRes? {
      FirstByteInv(p, ch);
    } else {
      StatusLineInv(p, ch);
    }
  }

  lemma FirstByteInv(p: Rec, ch: char)
    requires Inv(p) && (p.state.Dead? || p.state.StartReqOrRes? || p.state.ResOrRespH? || p.state.StartRes?)
    ensures !StepResLine(p, ch).ctl.Fail? ==> Inv(StepResLine(p, ch).p)
  {
    hide MethodString, NameStateOk, ValueStateOk;
    MethodLength(HEAD);
  }

  lemma StatusLineInv(p: Rec, ch: char)
    requires Inv(p) && GroupOf(p.state).ResLineGroup?
    requires !p.state.Dead? && !p.state.StartReqOrRes? && !p.state.ResOrRespH? && !p.state.StartRes?
    ensures !StepResLine(p, ch).ctl.Fail? ==> Inv(StepResLine(p, ch).p)
  {
    hide StateInv;
    if !StepResLine(p, ch).ctl.Fail? { StatusLineFree(StepResLine(p, ch).p); }
  }

  predicate InStatusLine(s: State) {
    s.ResH? || s.ResHT? || s.ResHTT? || s.ResHTTP? || s.ResHttpMajor? || s.ResHttpDot? || s.ResHttpMinor?
    || s.ResHttpEnd? || s.ResFirstStatusCode? || s.ResStatusCode? || s.ResStatusStart? || s.ResStatus?
    || s.ResLineAlmostDone? || s.HeaderFieldStart?
  }

  lemma StatusLineFree(p: Rec)
    requires InStatusLine(p.state)
    ensures StateInv(p)
  {
    hide MethodString, NameStateOk, ValueStateOk;
  }

  lemma ReqLineInv(p: Rec, ch: char)
    requires Inv(p) && GroupOf(p.state).ReqLineGroup?
    ensures !StepReqLine(p, ch).ctl.Fail? ==> Inv(StepReqLine(p, ch).p)
  {
    hide StepReqLine, Inv;
    if p.state.StartReq? { StartReqInv(p, ch); } else { VersionInv(p, ch); }
  }

  lemma StartReqInv(p: Rec, ch: char)
    requires Inv(p) && p.state.StartReq?
    ensures !StepReqLine(p, ch).ctl.Fail? ==> Inv(StepReqLine(p, ch).p)
  {
    hide MethodString, FirstMethod, NameStateOk, ValueStateOk;
    if FirstMethod(ch).Some? { MethodLength(FirstMethod(ch).value); }
  }

  predicate InVersion(s: State) {
    s.ReqHttpStart? || s.ReqHttpH? || s.ReqHttpHT? || s.ReqHttpHTT? || s.ReqHttpHTTP?
    || s.ReqHttpMajor? || s.ReqHttpDot? || s.ReqHttpMinor? || s.ReqHttpEnd? || s.ReqLineAlmostDone?
  }

  lemma AfterUrlFree(p: Rec)
    requires InVersion(p.state) || p.state.HeaderFieldStart? || p.state.HeadersAlmostDone?
    ensures StateInv(p)
  {
    hide MethodString, NameStateOk, ValueStateOk;
  }

  lemma VersionInv(p: Rec, ch: char)
    requires Inv(p) && GroupOf(p.state).ReqLineGroup? && !p.state.StartReq?
    ensures !StepReqLine(p, ch).ctl.Fail? ==> Inv(StepReqLine(p, ch).p)
  {
    hide StateInv, FirstMethod;
    if !StepReqLine(p, ch).ctl.Fail? { AfterUrlFree(StepReqLine(p, ch).p); }
  }

  lemma MethodLength(m: Method)
    ensures 3 <= |MethodString(m)| <= 11
  {}

  lemma MethodInv(p: Rec, ch: char)
    requires Inv(p) && p.state.ReqMethod?
    ensures !StepMethod(p, ch).ctl.Fail? ==> Inv(StepMethod(p, ch).p)
  {
    hide MethodString, OtherMethod;
    MethodLength(p.meth);
    if OtherMethod(p.meth, p.index, ch).Some? {
      OtherMethodLonger(p.meth, p.index, ch);
    }
  }

  lemma OtherMethodLonger(m: Method, index: nat, ch: char)
    requires OtherMethod(m, index, ch).Some?
    ensures index < |MethodString(OtherMethod(m, index, ch).value)|
  {}

  lemma UrlInv(p: Rec, ch: char)
    requires Inv(p) && GroupOf(p.state).UrlGroup?
    ensures !StepUrl(p, ch).ctl.Fail? ==> Inv(StepUrl(p, ch).p)
  {
    hide MethodString, ParseUrlChar;
    UrlStates(p.state, ch);
    UrlStates(ReqServerStart, ch);
  }

  lemma UrlStates(s: State, ch: char)
    ensures ParseUrlChar(s, ch).Dead? || InUrl(ParseUrlChar(s, ch))
  {}

  lemma NameStepOk(h: HeaderState, index: nat, c: char)
    requires NameStateOk(h, index) && index <= 17
    ensures NameStateOk(NameStep(h, index, c).0, NameStep(h, index, c).1) && NameStep(h, index, c).1 <= 17
  {}

  lemma ValueInv(p: Rec, ch: char)
    requires Inv(p) && p.state.HeaderValue?
    ensures !ValueStep(p, ch).ctl.Fail? ==> Inv(ValueStep(p, ch).p)
  {
    hide StateInv;
    assert ValueStateOk(p.hstate, p.index) by { ValueInvState(p); }
    ValueStepOk(p, ch);
    hide ValueStep;
    if !ValueStep(p, ch).ctl.Fail? { ValueInvState(ValueStep(p, ch).p); }
  }

  lemma ValueInvState(p: Rec)
    requires p.state.HeaderValue?
    ensures StateInv(p) <==> ValueStateOk(p.hstate, p.index)
  {
    hide NameStateOk, ValueStateOk, MethodString;
  }

  /** What a byte of a value may do to the record. */
  predicate ValueGoes(p: Rec, o: Out) {
    !o.ctl.Fail? ==>
      && o.p == p.(hstate := o.p.hstate, index := o.p.index, flags := o.p.flags, contentLength := o.p.contentLength)
      && o.p.index <= 17 && 0 <= o.p.contentLength <= ULLONG_MAX
      && ValueStateOk(o.p.hstate, o.p.index)
  }

  lemma ValueStepOk(p: Rec, ch: char)
    requires p.index <= 17 && 0 <= p.contentLength <= ULLONG_MAX && ValueStateOk(p.hstate, p.index)
    ensures ValueGoes(p, ValueStep(p, ch))
  {
    hide ValueStep, ValueGoes, ValueStateOk;
    if p.hstate.ContentLength? || p.hstate.MatchingTokenStart? || p.hstate.MatchingToken? {
      PlainValueOk(p, ch);
    } else if p.hstate.MatchingChunked? || p.hstate.MatchingKeepAlive? || p.hstate.MatchingClose?
              || p.hstate.MatchingTokenUpgrade? {
      MatcherOk(p, ch);
    } else {
      AfterMatchOk(p, ch);
    }
  }

  lemma PlainValueOk(p: Rec, ch: char)
    requires p.index <= 17 && 0 <= p.contentLength <= ULLONG_MAX && ValueStateOk(p.hstate, p.index)
    requires p.hstate.ContentLength? || p.hstate.MatchingTokenStart? || p.hstate.MatchingToken?
    ensures ValueGoes(p, ValueStep(p, ch))
  {
    hide MatchWord, Token, AfterToken;
  }

  lemma MatcherOk(p: Rec, ch: char)
    requires p.index <= 17 && 0 <= p.contentLength <= ULLONG_MAX && ValueStateOk(p.hstate, p.index)
    requires p.hstate.MatchingChunked? || p.hstate.MatchingKeepAlive? || p.hstate.MatchingClose?
             || p.hstate.MatchingTokenUpgrade?
    ensures ValueGoes(p, ValueStep(p, ch))
  {
    hide Token, AfterToken;
  }

  lemma AfterMatchOk(p: Rec, ch: char)
    requires p.index <= 17 && 0 <= p.contentLength <= ULLONG_MAX && ValueStateOk(p.hstate, p.index)
    requires !p.hstate.ContentLength? && !p.hstate.MatchingTokenStart? && !p.hstate.MatchingToken?
    requires !p.hstate.MatchingChunked? && !p.hstate.MatchingKeepAlive? && !p.hstate.MatchingClose?
    requires !p.hstate.MatchingTokenUpgrade?
    ensures ValueGoes(p, ValueStep(p, ch))
  {
    hide MatchWord, Token;
  }

  lemma ValueStartInv(p: Rec, ch: char)
    requires Inv(p)
    ensures !StepValueStart(p, ch).ctl.Fail? ==> Inv(StepValueStart(p, ch).p)
  {
    hide MethodString;
  }

  lemma HeaderInv(lenient: bool, p: Rec, ch: char)
    requires Inv(p) && GroupOf(p.state).HeaderGroup?
    ensures !StepHeader(lenient, p, ch).ctl.Fail? ==> Inv(StepHeader(lenient, p, ch).p)
  {
    hide StepHeader, StateInv;
    if p.state.HeaderFieldStart? || p.state.HeaderField? {
      NameInv(lenient, p, ch);
    } else if p.state.HeaderValue? {
      InsideValueInv(lenient, p, ch);
    } else {
      AroundValueInv(lenient, p, ch);
    }
  }

  lemma NameInv(lenient: bool, p: Rec, ch: char)
    requires Inv(p) && (p.state.HeaderFieldStart? || p.state.HeaderField?)
    ensures !StepHeader(lenient, p, ch).ctl.Fail? ==> Inv(StepHeader(lenient, p, ch).p)
  {
    hide MethodString, NameStep, Token, ValueStateOk;
    if p.state.HeaderField? && Token(ch).Some? {
      NameStepOk(p.hstate, p.index, Token(ch).value);
    }
  }

  lemma InsideValueInv(lenient: bool, p: Rec, ch: char)
    requires Inv(p) && p.state.HeaderValue?
    ensures !StepHeader(lenient, p, ch).ctl.Fail? ==> Inv(StepHeader(lenient, p, ch).p)
  {
    hide MethodString, ValueStep, IsHeaderChar, NameStateOk, ValueStateOk;
    ValueInv(p, ch);
  }

  lemma AroundValueInv(lenient: bool, p: Rec, ch: char)
    requires Inv(p) && GroupOf(p.state).HeaderGroup?
    requires !p.state.HeaderFieldStart? && !p.state.HeaderField? && !p.state.HeaderValue?
    ensures !StepHeader(lenient, p, ch).ctl.Fail? ==> Inv(StepHeader(lenient, p, ch).p)
  {
    hide MethodString, StepValueStart, TokenFlag, NameStateOk, ValueStateOk;
    if p.state.HeaderValueStart? || p.state.HeaderValueDiscardWs? {
      ValueStartInv(p, ch);
    }
  }

  lemma ChunkSizeInv(p: Rec, ch: char)
    requires Inv(p) && (p.state.ChunkSize? || p.state.ChunkSizeStart?)
    ensures !StepBody(p, ch).ctl.Fail? ==> Inv(StepBody(p, ch).p)
  {
    hide MethodString;
  }

  lemma BodyInv(p: Rec, ch: char)
    requires Inv(p) && GroupOf(p.state).BodyGroup?
    ensures !StepBody(p, ch).ctl.Fail? ==> Inv(StepBody(p, ch).p)
  {
    hide StepBody, Inv;
    if p.state.ChunkSize? || p.state.ChunkSizeStart? {
      ChunkSizeInv(p, ch);
    } else {
      OtherBodyInv(p, ch);
    }
  }

  lemma OtherBodyInv(p: Rec, ch: char)
    requires Inv(p) && GroupOf(p.state).BodyGroup? && !p.state.ChunkSize? && !p.state.ChunkSizeStart?
    ensures !StepBody(p, ch).ctl.Fail? ==> Inv(StepBody(p, ch).p)
  {
    hide MethodString, Unhex, ShouldKeepAlive, NameStateOk, ValueStateOk;
  }
}
