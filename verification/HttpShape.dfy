/** How single steps treat the marks: which step sets one, which reports it, and
    what is left of the lenient switch. */
module HttpShape {
  import opened HttpFeed
  import opened HttpInvariant
  import opened HttpStep
  import opened HttpTypes
  import opened Options

  /** The parser that accepts any byte in a header value. */
  function Lax(env: Env): Env { env.(lenient := true) }

  /** The mark that is set between two bytes. Body marks are looked after
      separately: a call that begins inside a body sets none. */
  function KindOf(s: State): Option<Kind> {
    if InUrl(s) then Some(Url)
    else if s.ResStatus? then Some(Status)
    else if s.HeaderField? then Some(Field)
    else if s.HeaderValue? then Some(Value)
    else None
  }

  predicate InBody(s: State) {
    s.BodyIdentity? || s.BodyIdentityEof? || s.ChunkData? || s.ChunkDataAlmostDone?
  }

  /** The `MARK` statement that is executed when `ch` is met in state `s`. */
  function MarkOf(s: State, ch: char): Option<Kind> {
    if s.ResStatusStart? then Some(Status)
    else if s.ReqSpacesBeforeUrl? && ch != ' ' then Some(Url)
    else if s.HeaderFieldStart? && ch != CR && ch != LF then Some(Field)
    else if s.HeaderValueStart? then Some(Value)
    else if s.HeaderValueDiscardWs? && ch != ' ' && ch != '\t' && ch != CR && ch != LF then Some(Value)
    else if s.HeaderValueDiscardLws? && ch != ' ' && ch != '\t' then Some(Value)
    else None
  }

  function Marked(s: State, ch: char): Option<Kind> {
    if KindOf(s).Some? then KindOf(s) else MarkOf(s, ch)
  }

  /** States that the loop runs one byte at a time: not a body, and inside a
      header name or value only at its end. */
  predicate Single(s: State, ch: char) {
    && !InBody(s)
    && (s.HeaderField? ==> Token(ch).None?)
    && (s.HeaderValue? ==> ch == CR || ch == LF)
  }

  /** The codes that the switch itself sets. */
  predicate ParseError(e: Errno) {
    !e.Ok? && !e.CallbackFailed? && !e.Paused? && !e.HeaderOverflow? && !e.InvalidEofState?
  }

  predicate ShapeOk(s: State, ch: char, o: Out) {
    && |o.ev| <= 1
    && (o.ctl.Fail? ==> ParseError(o.ctl.errno) || (s.HeadersAlmostDone? && o.ctl.errno == CallbackFailed))
    && (o.ctl.Again? ==> Single(o.p.state, ch) && !o.reset)
    && (!o.ctl.Fail? ==>
          if o.ev != [] && o.ev[0].Data? then
            && Marked(s, ch) == Some(o.ev[0].kind)
            && (if o.ev[0].bytes == [] then KindOf(o.p.state).None? && !o.ctl.Exit?
                else o.ev[0].bytes == [ch] && o.ctl.Consume? && KindOf(o.p.state) == Some(o.ev[0].kind))
          else
            && KindOf(o.p.state) == Marked(s, ch)
            && (o.ctl.Consume? || o.ctl.Exit? || o.ev != [] ==> KindOf(o.p.state).None?)
            && (o.ctl.Again? ==> !KindOf(s).Some?))
    && (!o.ctl.Fail? && o.p.state.ChunkSizeStart? ==> o.reset)
    && (!o.ctl.Fail? ==> !o.p.state.ChunkDataAlmostDone?)
  }

  lemma Shape(env: Env, p: Rec, ch: char)
    requires Single(p.state, ch)
    ensures Step(env, p, ch) == Step(Lax(env), p, ch)
    ensures ShapeOk(p.state, ch, Step(env, p, ch))
  {
    hide StepResLine, StepReqLine, StepMethod, StepUrl, StepHeader, StepHeadersAlmostDone, StepHeadersDone, StepBody;
    hide ShapeOk;
    match GroupOf(p.state)
    case ResLineGroup => ResLineShape(p, ch);
    case ReqLineGroup => ReqLineShape(p, ch);
    case MethodGroup => MethodShape(p, ch);
    case UrlGroup => UrlShape(p, ch);
    case HeaderGroup => HeaderShape(env.lenient, p, ch);
    case AlmostDoneGroup => AlmostDoneShape(env, p, ch);
    case DoneGroup => DoneShape(p, ch);
    case BodyGroup => BodyShape(p, ch);
  }

  lemma MethodShape(p: Rec, ch: char)
    requires p.state.ReqMethod?
    ensures ShapeOk(p.state, ch, StepMethod(p, ch))
  {
    hide MethodString, OtherMethod;
  }

  lemma ResLineShape(p: Rec, ch: char)
    requires GroupOf(p.state).ResLineGroup?
    ensures ShapeOk(p.state, ch, StepResLine(p, ch))
  {
    hide ShapeOk, StepResLine;
    if p.state.ResStatusCode? || p.state.ResStatusStart? || p.state.ResStatus? || p.state.ResFirstStatusCode? {
      StatusShape(p, ch);
    } else {
      VersionShape(p, ch);
    }
  }

  lemma StatusShape(p: Rec, ch: char)
    requires p.state.ResStatusCode? || p.state.ResStatusStart? || p.state.ResStatus? || p.state.ResFirstStatusCode?
    ensures ShapeOk(p.state, ch, StepResLine(p, ch))
  {}

  lemma VersionShape(p: Rec, ch: char)
    requires GroupOf(p.state).ResLineGroup?
    requires !p.state.ResStatusCode? && !p.state.ResStatusStart? && !p.state.ResStatus?
    requires !p.state.ResFirstStatusCode?
    ensures ShapeOk(p.state, ch, StepResLine(p, ch))
  {}

  lemma ReqLineShape(p: Rec, ch: char)
    requires GroupOf(p.state).ReqLineGroup?
    ensures ShapeOk(p.state, ch, StepReqLine(p, ch))
  {
    hide FirstMethod;
  }

  lemma UrlShape(p: Rec, ch: char)
    requires GroupOf(p.state).UrlGroup?
    ensures ShapeOk(p.state, ch, StepUrl(p, ch))
  {
    hide ParseUrlChar;
    UrlStates(p.state, ch);
    UrlStates(ReqServerStart, ch);
  }

  lemma HeaderShape(lenient: bool, p: Rec, ch: char)
    requires GroupOf(p.state).HeaderGroup? && Single(p.state, ch)
    ensures StepHeader(lenient, p, ch) == StepHeader(true, p, ch)
    ensures ShapeOk(p.state, ch, StepHeader(lenient, p, ch))
  {
    if p.state.HeaderFieldStart? || p.state.HeaderField? || p.state.HeaderValue? {
      hide IsHeaderChar, NameStep, ValueStep, TokenFlag, StepValueStart, FirstNameState, Token;
    } else {
      ValueShape(lenient, p, ch);
      hide StepHeader, ShapeOk;
    }
  }

  lemma ValueShape(lenient: bool, p: Rec, ch: char)
    requires GroupOf(p.state).HeaderGroup?
    requires !p.state.HeaderFieldStart? && !p.state.HeaderField? && !p.state.HeaderValue?
    ensures StepHeader(lenient, p, ch) == StepHeader(true, p, ch)
    ensures ShapeOk(p.state, ch, StepHeader(lenient, p, ch))
  {
    hide Token, IsHeaderChar, NameStep, ValueStep, TokenFlag, StepValueStart, FirstNameState;
    ValueStartShape(p, ch);
  }

  lemma ValueStartShape(p: Rec, ch: char)
    ensures var o := StepValueStart(p, ch);
      && (o.ctl.Consume? || o.ctl.Fail?)
      && !o.reset
      && (o.ctl.Consume? ==> o.ev == [Data(Value, [ch])] && o.p.state.HeaderValue?)
      && (o.ctl.Fail? ==> ParseError(o.ctl.errno))
      && |o.ev| <= 1
  {}

  lemma AlmostDoneShape(env: Env, p: Rec, ch: char)
    requires p.state.HeadersAlmostDone?
    ensures StepHeadersAlmostDone(env, p, ch) == StepHeadersAlmostDone(Lax(env), p, ch)
    ensures ShapeOk(p.state, ch, StepHeadersAlmostDone(env, p, ch))
  {}

  lemma DoneShape(p: Rec, ch: char)
    requires p.state.HeadersDone?
    ensures ShapeOk(p.state, ch, StepHeadersDone(p, ch))
  {
    hide ShouldKeepAlive, NeedsEof;
  }

  lemma BodyShape(p: Rec, ch: char)
    requires GroupOf(p.state).BodyGroup? && Single(p.state, ch)
    ensures ShapeOk(p.state, ch, StepBody(p, ch))
  {
    hide ShouldKeepAlive, Unhex;
  }

  /** The strict parser either refuses a byte or does what the lenient one does. */
  lemma {:induction false} StrictByte(env: Env, p: Rec, ch: char)
    ensures Byte(env, p, ch).ctl.Fail? || Byte(env, p, ch) == Byte(Lax(env), p, ch)
    decreases Rank(p.state)
  {
    hide Step;
    StrictStep(env, p, ch);
    StepRank(env, p, ch);
    if Step(env, p, ch).ctl.Again? { StrictByte(env, Step(env, p, ch).p, ch); }
  }

  lemma StrictStep(env: Env, p: Rec, ch: char)
    ensures Step(env, p, ch).ctl.Fail? || Step(env, p, ch) == Step(Lax(env), p, ch)
  {
    hide StepUrl, StepResLine, StepReqLine, StepMethod, StepHeadersDone, StepBody, StepValueStart, ValueStep;
    hide NameStep, Token, IsHeaderChar;
  }

  /** Over a whole input, too. */
  lemma {:induction false} StrictFeed(env: Env, r: Run, s: string)
    ensures FeedOn(env, r, s).verdict.Failed? || FeedOn(env, r, s) == FeedOn(Lax(env), r, s)
  {
    hide Byte;
    if s != [] {
      StrictFeed(env, r, s[..|s| - 1]);
      StrictByte(env, FeedOn(env, r, s[..|s| - 1]).p, s[|s| - 1]);
    }
  }
}
