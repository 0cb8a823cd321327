/** The order of callbacks of a request parser. */
module HttpGrammar {
  import opened HttpTypes
  import opened HttpStep
  import opened HttpInvariant
  import opened HttpTrace
  import opened HttpFeed
  import opened HttpShape
  import opened HttpSync
  import opened HttpParser
  import opened HttpSplit

  /** Where in the grammar of requests a trace stands:

        message_begin url (field value+)* headers_complete body message_complete

      where `body` is empty, identity data, or chunks followed by a last chunk
      with trailer fields. `Chunk(left)` has `left` bytes of the chunk to come. */
  datatype Phase =
    | Between | Line | UrlPart | FieldPart(trailer: bool) | ValuePart(trailer: bool)
    | Headed | Identity | Chunk(left: int) | Gap | LastChunk | ChunksDone | Wrong

  function Next(ph: Phase, e: Event): Phase {
    match ph
    case Between => if e.MessageBegin? then Line else Wrong
    case Line => if e.Data? && e.kind == Url then UrlPart else Wrong
    case UrlPart =>
      if e.Data? && e.kind == Url then UrlPart
      else if e.Data? && e.kind == Field then FieldPart(false)
      else if e.HeadersComplete? then Headed
      else Wrong
    case FieldPart(t) =>
      if e.Data? && e.kind == Field then FieldPart(t)
      else if e.Data? && e.kind == Value then ValuePart(t)
      else Wrong
    case ValuePart(t) =>
      if e.Data? && e.kind == Value then ValuePart(t)
      else if e.Data? && e.kind == Field then FieldPart(t)
      else if e.HeadersComplete? && !t then Headed
      else if e.ChunkComplete? && t then ChunksDone
      else Wrong
    case Headed =>
      if e.Data? && e.kind == Body then Identity
      else if e.MessageComplete? then Between
      else AtChunkHeader(e)
    case Identity =>
      if e.Data? && e.kind == Body then Identity
      else if e.MessageComplete? then Between
      else Wrong
    case Chunk(left) =>
      if e.Data? && e.kind == Body && |e.bytes| <= left then Chunk(left - |e.bytes|)
      else if e.ChunkComplete? && left == 0 then Gap
      else Wrong
    case Gap => AtChunkHeader(e)
    case LastChunk =>
      if e.Data? && e.kind == Field then FieldPart(true)
      else if e.ChunkComplete? then ChunksDone
      else Wrong
    case ChunksDone => if e.MessageComplete? then Between else Wrong
    case Wrong => Wrong
  }

  function AtChunkHeader(e: Event): Phase {
    if !e.ChunkHeader? then Wrong
    else if e.size == 0 then LastChunk
    else if e.size > 0 then Chunk(e.size)
    else Wrong
  }

  function Phases(ph: Phase, t: seq<Event>): Phase {
    if t == [] then ph else Next(Phases(ph, t[..|t| - 1]), t[|t| - 1])
  }

  lemma PhasesSnoc(ph: Phase, t: seq<Event>, e: Event)
    ensures Phases(ph, t + [e]) == Next(Phases(ph, t), e)
  {
    assert (t + [e])[..|t|] == t;
  }

  lemma {:induction false} PhasesConcat(ph: Phase, t: seq<Event>, u: seq<Event>)
    ensures Phases(ph, t + u) == Phases(Phases(ph, t), u)
    decreases |u|
  {
    hide Next;
    if u == [] {
      assert t + u == t;
    } else {
      PhasesConcat(ph, t, u[..|u| - 1]);
      assert t + u == t + u[..|u| - 1] + [u[|u| - 1]];
      PhasesSnoc(ph, t + u[..|u| - 1], u[|u| - 1]);
    }
  }

  lemma NextTwice(ph: Phase, k: Kind, x: string, y: string)
    ensures Next(Next(ph, Data(k, x)), Data(k, y)) == Next(ph, Data(k, x + y))
  {}

  /** The grammar cannot tell a trace from the joined trace. */
  lemma {:induction false} PhasesJoin(ph: Phase, t: seq<Event>)
    ensures Phases(ph, Join(t)) == Phases(ph, t)
  {
    hide Next;
    if t != [] {
      var u, e := t[..|t| - 1], t[|t| - 1];
      var j := Join(u);
      PhasesJoin(ph, u);
      PhasesSnoc(ph, j, e);
      if |j| > 0 && e.Data? && j[|j| - 1].Data? && j[|j| - 1].kind == e.kind {
        var i, l := j[..|j| - 1], j[|j| - 1];
        PhasesSnoc(ph, i, Data(e.kind, l.bytes + e.bytes));
        NextTwice(Phases(ph, i), e.kind, l.bytes, e.bytes);
      }
    }
  }

  lemma {:induction false} WrongStays(t: seq<Event>)
    ensures Phases(Wrong, t) == Wrong
  {
    if t != [] { WrongStays(t[..|t| - 1]); }
  }

  /** Whatever is told of a grammatical trace is grammatical. */
  lemma ToldGrammar(ph: Phase, t: seq<Event>, ev: seq<Event>)
    requires Told(t, ev) && !Phases(ph, ev).Wrong?
    ensures !Phases(ph, t).Wrong?
  {
    hide Join, Next;
    var x: seq<Event>, m: nat :| ToldAt(t, ev, x, m);
    assert ev == ev[..m] + ev[m..];
    PhasesConcat(ph, ev[..m], ev[m..]);
    if Phases(ph, ev[..m]).Wrong? { WrongStays(ev[m..]); }
    PhasesJoin(ph, t + x);
    PhasesJoin(ph, ev[..m]);
    PhasesConcat(ph, t, x);
    if Phases(ph, t).Wrong? { WrongStays(x); }
  }

  // ----- the phase that belongs to a state -----

  /** Before a header field: after the request line, another field, or the last
      chunk header. */
  predicate FieldsOk(p: Rec, ph: Phase) {
    if p.flags.trailing then ph == LastChunk || ph == ValuePart(true)
    else ph == UrlPart || ph == ValuePart(false)
  }

  predicate InValue(s: State) {
    s.HeaderValueStart? || s.HeaderValue? || s.HeaderAlmostDone? || s.HeaderValueLws?
  }

  predicate PhaseOk(p: Rec, ph: Phase) {
    && p.ptype.Request?
    && var s := p.state;
       if s.Dead? || s.StartReq? then ph == Between
       else if s.ReqMethod? || s.ReqSpacesBeforeUrl? then ph == Line && !p.flags.trailing
       else if InUrl(s) || InVersion(s) then ph == UrlPart && !p.flags.trailing
       else if s.HeaderFieldStart? || s.HeadersAlmostDone? then FieldsOk(p, ph)
       else if s.HeaderField? || s.HeaderValueDiscardWs? || s.HeaderValueDiscardWsAlmostDone?
               || s.HeaderValueDiscardLws? then ph == FieldPart(p.flags.trailing)
       else if InValue(s) then ph == ValuePart(p.flags.trailing)
       else if s.HeadersDone? then ph == Headed
       else if s.BodyIdentity? then ph == Headed || ph == Identity
       else if s.MessageDone? then ph == Identity || ph == ChunksDone
       else if s.ChunkSizeStart? || s.ChunkSize? || s.ChunkParameters? || s.ChunkSizeAlmostDone? then
         ph == Headed || ph == Gap
       // delivered bytes and content_length add up to the declared size
       else if s.ChunkData? then ph == Chunk(p.contentLength)
       else if s.ChunkDataAlmostDone? || s.ChunkDataDone? then ph == Chunk(0)
       else false
  }

  /** One step of a request parser. */
  predicate StepKeeps(ph: Phase, o: Out) {
    && |o.ev| <= 1
    && var qh := if o.ev == [] then ph else Next(ph, o.ev[0]);
       && !qh.Wrong?
       && (!o.ctl.Fail? ==> PhaseOk(o.p, qh))
  }

  lemma StepGrammar(env: Env, p: Rec, ph: Phase, ch: char)
    requires Inv(p) && PhaseOk(p, ph)
    ensures StepKeeps(ph, Step(env, p, ch))
  {
    hide StepResLine, StepReqLine, StepMethod, StepUrl, StepHeader, StepHeadersAlmostDone, StepHeadersDone, StepBody;
    hide Inv, StepKeeps;
    match GroupOf(p.state)
    case ResLineGroup => DeadGrammar(p, ph, ch);
    case ReqLineGroup => ReqLineGrammar(p, ph, ch);
    case MethodGroup => MethodGrammar(p, ph, ch);
    case UrlGroup => UrlGrammar(p, ph, ch);
    case HeaderGroup => HeaderGrammar(env.lenient, p, ph, ch);
    case AlmostDoneGroup => AlmostDoneGrammar(env, p, ph, ch);
    case DoneGroup => DoneGrammar(p, ph, ch);
    case BodyGroup => BodyGrammar(p, ph, ch);
  }

  lemma DeadGrammar(p: Rec, ph: Phase, ch: char)
    requires PhaseOk(p, ph) && GroupOf(p.state).ResLineGroup?
    ensures StepKeeps(ph, StepResLine(p, ch))
  {}

  lemma ReqLineGrammar(p: Rec, ph: Phase, ch: char)
    requires PhaseOk(p, ph) && GroupOf(p.state).ReqLineGroup?
    ensures StepKeeps(ph, StepReqLine(p, ch))
  {
    hide FirstMethod;
  }

  lemma MethodGrammar(p: Rec, ph: Phase, ch: char)
    requires PhaseOk(p, ph) && p.state.ReqMethod?
    ensures StepKeeps(ph, StepMethod(p, ch))
  {
    hide MethodString, OtherMethod;
  }

  lemma UrlGrammar(p: Rec, ph: Phase, ch: char)
    requires PhaseOk(p, ph) && GroupOf(p.state).UrlGroup?
    ensures StepKeeps(ph, StepUrl(p, ch))
  {
    hide ParseUrlChar;
    UrlStates(p.state, ch);
    UrlStates(ReqServerStart, ch);
  }

  lemma HeaderGrammar(lenient: bool, p: Rec, ph: Phase, ch: char)
    requires PhaseOk(p, ph) && GroupOf(p.state).HeaderGroup?
    ensures StepKeeps(ph, StepHeader(lenient, p, ch))
  {
    hide StepHeader, StepKeeps, PhaseOk;
    if p.state.HeaderFieldStart? || p.state.HeaderField? {
      NameGrammar(lenient, p, ph, ch);
    } else if InValue(p.state) {
      ValueGrammar(lenient, p, ph, ch);
    } else {
      DiscardGrammar(lenient, p, ph, ch);
    }
  }

  lemma NameGrammar(lenient: bool, p: Rec, ph: Phase, ch: char)
    requires PhaseOk(p, ph) && (p.state.HeaderFieldStart? || p.state.HeaderField?)
    ensures StepKeeps(ph, StepHeader(lenient, p, ch))
  {
    hide Token, NameStep, FirstNameState, StepValueStart, ValueStep, TokenFlag, IsHeaderChar;
  }

  lemma ValueGrammar(lenient: bool, p: Rec, ph: Phase, ch: char)
    requires PhaseOk(p, ph) && InValue(p.state)
    ensures StepKeeps(ph, StepHeader(lenient, p, ch))
  {
    hide StepHeader, StepKeeps, PhaseOk;
    if p.state.HeaderValue? {
      InsideValueGrammar(lenient, p, ph, ch);
    } else {
      AroundValueGrammar(lenient, p, ph, ch);
    }
  }

  lemma InsideValueGrammar(lenient: bool, p: Rec, ph: Phase, ch: char)
    requires PhaseOk(p, ph) && p.state.HeaderValue?
    ensures StepKeeps(ph, StepHeader(lenient, p, ch))
  {
    hide IsHeaderChar, ValueStep;
    ValueKeeps(p, ch);
  }

  lemma AroundValueGrammar(lenient: bool, p: Rec, ph: Phase, ch: char)
    requires PhaseOk(p, ph) && InValue(p.state) && !p.state.HeaderValue?
    ensures StepKeeps(ph, StepHeader(lenient, p, ch))
  {
    hide StepHeader, StepKeeps, PhaseOk;
    if p.state.HeaderValueStart? {
      ValueStartGrammar(lenient, p, ph, ch);
    } else {
      ValueEndGrammar(lenient, p, ph, ch);
    }
  }

  lemma ValueStartGrammar(lenient: bool, p: Rec, ph: Phase, ch: char)
    requires PhaseOk(p, ph) && p.state.HeaderValueStart?
    ensures StepKeeps(ph, StepHeader(lenient, p, ch))
  {
    hide TokenFlag, StepValueStart;
    ValueStartKeeps(p, ch);
  }

  lemma ValueEndGrammar(lenient: bool, p: Rec, ph: Phase, ch: char)
    requires PhaseOk(p, ph) && (p.state.HeaderAlmostDone? || p.state.HeaderValueLws?)
    ensures StepKeeps(ph, StepHeader(lenient, p, ch))
  {
    hide TokenFlag, StepValueStart;
    TokenFlagKeeps(p);
  }

  lemma DiscardGrammar(lenient: bool, p: Rec, ph: Phase, ch: char)
    requires PhaseOk(p, ph)
    requires p.state.HeaderValueDiscardWs? || p.state.HeaderValueDiscardWsAlmostDone? || p.state.HeaderValueDiscardLws?
    ensures StepKeeps(ph, StepHeader(lenient, p, ch))
  {
    hide StepHeader, StepKeeps, PhaseOk;
    if p.state.HeaderValueDiscardLws? {
      DiscardLwsGrammar(lenient, p, ph, ch);
    } else {
      DiscardWsGrammar(lenient, p, ph, ch);
    }
  }

  lemma DiscardLwsGrammar(lenient: bool, p: Rec, ph: Phase, ch: char)
    requires PhaseOk(p, ph) && p.state.HeaderValueDiscardLws?
    ensures StepKeeps(ph, StepHeader(lenient, p, ch))
  {
    hide TokenFlag, StepValueStart;
    TokenFlagKeeps(p);
  }

  lemma DiscardWsGrammar(lenient: bool, p: Rec, ph: Phase, ch: char)
    requires PhaseOk(p, ph) && (p.state.HeaderValueDiscardWs? || p.state.HeaderValueDiscardWsAlmostDone?)
    ensures StepKeeps(ph, StepHeader(lenient, p, ch))
  {
    hide StepHeader, StepKeeps, PhaseOk;
    if p.state.HeaderValueDiscardWs? {
      DiscardBlankGrammar(lenient, p, ph, ch);
    } else {
      DiscardEndGrammar(lenient, p, ph, ch);
    }
  }

  predicate InField(s: State) {
    s.HeaderField? || s.HeaderValueDiscardWs? || s.HeaderValueDiscardWsAlmostDone? || s.HeaderValueDiscardLws?
  }

  lemma BlankStep(lenient: bool, p: Rec, ch: char)
    requires p.state.HeaderValueDiscardWs?
    ensures StepHeader(lenient, p, ch) ==
            if ch == ' ' || ch == '\t' then Go(p)
            else if ch == CR then Go(p.(state := HeaderValueDiscardWsAlmostDone))
            else if ch == LF then Go(p.(state := HeaderValueDiscardLws))
            else StepValueStart(p, ch)
  {
    hide StepValueStart;
  }

  lemma FieldPhase(p: Rec, ph: Phase)
    requires InField(p.state)
    ensures PhaseOk(p, ph) <==> p.ptype.Request? && ph == FieldPart(p.flags.trailing)
  {}

  lemma ValuePhase(p: Rec, ph: Phase)
    requires InValue(p.state)
    ensures PhaseOk(p, ph) <==> p.ptype.Request? && ph == ValuePart(p.flags.trailing)
  {}

  lemma DiscardBlankGrammar(lenient: bool, p: Rec, ph: Phase, ch: char)
    requires PhaseOk(p, ph) && p.state.HeaderValueDiscardWs?
    ensures StepKeeps(ph, StepHeader(lenient, p, ch))
  {
    hide StepHeader, StepValueStart, PhaseOk;
    BlankStep(lenient, p, ch);
    FieldPhase(p, ph);
    ValueStartKeeps(p, ch);
    var o := StepHeader(lenient, p, ch);
    if InField(o.p.state) {
      FieldPhase(o.p, ph);
    } else if o.p.state.HeaderValue? {
      ValuePhase(o.p, ValuePart(o.p.flags.trailing));
    }
  }

  lemma DiscardEndGrammar(lenient: bool, p: Rec, ph: Phase, ch: char)
    requires PhaseOk(p, ph) && p.state.HeaderValueDiscardWsAlmostDone?
    ensures StepKeeps(ph, StepHeader(lenient, p, ch))
  {
    hide TokenFlag, StepValueStart;
  }

  lemma ValueStartKeeps(p: Rec, ch: char)
    ensures var o := StepValueStart(p, ch);
      && |o.ev| <= 1
      && (o.ctl.Consume? ==>
            o.ev == [Data(Value, [ch])] && o.p.state.HeaderValue? && o.p.ptype == p.ptype
            && o.p.flags.trailing == p.flags.trailing)
      && (o.ctl.Fail? ==> o.ev == [])
      && (o.ctl.Fail? || o.ctl.Consume?)
  {}

  lemma TokenFlagKeeps(p: Rec)
    ensures TokenFlag(p.hstate, p.flags).trailing == p.flags.trailing
  {}

  /** A byte inside a value stays inside it. */
  predicate StaysInValue(p: Rec, ch: char, o: Out) {
    && (o.ctl.Fail? || o.ctl.Consume?)
    && (o.ctl.Consume? ==>
          o.ev == [Data(Value, [ch])] && o.p.state.HeaderValue? && o.p.ptype == p.ptype
          && o.p.flags.trailing == p.flags.trailing)
    && (o.ctl.Fail? ==> o.ev == [])
  }

  predicate MatchesWord(h: HeaderState) {
    h.MatchingChunked? || h.MatchingKeepAlive? || h.MatchingClose? || h.MatchingTokenUpgrade?
  }

  lemma ValueKeeps(p: Rec, ch: char)
    requires p.state.HeaderValue?
    ensures StaysInValue(p, ch, ValueStep(p, ch))
  {
    hide ValueStep, StaysInValue;
    if MatchesWord(p.hstate) { MatcherKeeps(p, ch); } else { OtherValueKeeps(p, ch); }
  }

  lemma MatcherKeeps(p: Rec, ch: char)
    requires p.state.HeaderValue? && MatchesWord(p.hstate)
    ensures StaysInValue(p, ch, ValueStep(p, ch))
  {
    hide MatchWord, Token, AfterToken;
  }

  lemma OtherValueKeeps(p: Rec, ch: char)
    requires p.state.HeaderValue? && !MatchesWord(p.hstate)
    ensures StaysInValue(p, ch, ValueStep(p, ch))
  {
    hide MatchWord, Token, AfterToken;
    AfterTokenKeeps(p, ch);
  }

  lemma AfterTokenKeeps(p: Rec, ch: char)
    requires p.state.HeaderValue?
    ensures StaysInValue(p, ch, AfterToken(p, ch))
  {
    hide TokenFlag;
    TokenFlagKeeps(p);
  }

  lemma AlmostDoneGrammar(env: Env, p: Rec, ph: Phase, ch: char)
    requires PhaseOk(p, ph) && p.state.HeadersAlmostDone?
    ensures StepKeeps(ph, StepHeadersAlmostDone(env, p, ch))
  {
    hide StepHeadersAlmostDone, StepKeeps, PhaseOk;
    if p.flags.trailing { TrailerEndGrammar(env, p, ph, ch); } else { HeadEndGrammar(env, p, ph, ch); }
  }

  lemma TrailerEndGrammar(env: Env, p: Rec, ph: Phase, ch: char)
    requires PhaseOk(p, ph) && p.state.HeadersAlmostDone? && p.flags.trailing
    ensures StepKeeps(ph, StepHeadersAlmostDone(env, p, ch))
  {
    hide BeforeHeadersComplete;
  }

  lemma HeadEndGrammar(env: Env, p: Rec, ph: Phase, ch: char)
    requires PhaseOk(p, ph) && p.state.HeadersAlmostDone? && !p.flags.trailing
    ensures StepKeeps(ph, StepHeadersAlmostDone(env, p, ch))
  {
    hide BeforeHeadersComplete;
    var q := BeforeHeadersComplete(p);
    assert q.state.HeadersDone? && q.ptype == p.ptype && q.flags == p.flags by { BeforeKeeps(p); }
  }

  lemma BeforeKeeps(p: Rec)
    ensures var q := BeforeHeadersComplete(p); q.state.HeadersDone? && q.ptype == p.ptype && q.flags == p.flags
  {}

  lemma DoneGrammar(p: Rec, ph: Phase, ch: char)
    requires PhaseOk(p, ph) && p.state.HeadersDone?
    ensures StepKeeps(ph, StepHeadersDone(p, ch))
  {
    hide ShouldKeepAlive;
  }

  lemma BodyGrammar(p: Rec, ph: Phase, ch: char)
    requires Inv(p) && PhaseOk(p, ph) && GroupOf(p.state).BodyGroup?
    ensures StepKeeps(ph, StepBody(p, ch))
  {
    hide StepBody, StepKeeps, PhaseOk, StateInv;
    if p.state.ChunkSizeStart? || p.state.ChunkSize? || p.state.ChunkParameters? || p.state.ChunkSizeAlmostDone? {
      ChunkSizeGrammar(p, ph, ch);
    } else {
      BytesGrammar(p, ph, ch);
    }
  }

  lemma ChunkSizeGrammar(p: Rec, ph: Phase, ch: char)
    requires Inv(p) && PhaseOk(p, ph)
    requires p.state.ChunkSizeStart? || p.state.ChunkSize? || p.state.ChunkParameters? || p.state.ChunkSizeAlmostDone?
    ensures StepKeeps(ph, StepBody(p, ch))
  {
    hide StepKeeps, PhaseOk, StepBody;
    if p.state.ChunkSizeAlmostDone? {
      ChunkHeaderGrammar(p, ph, ch);
    } else {
      ChunkDigitGrammar(p, ph, ch);
    }
  }

  lemma ChunkHeaderGrammar(p: Rec, ph: Phase, ch: char)
    requires Inv(p) && PhaseOk(p, ph) && p.state.ChunkSizeAlmostDone?
    ensures StepKeeps(ph, StepBody(p, ch))
  {
    hide Unhex, Inv, NewMessage, PhaseOk;
    ChunkInv(p);
    ChunkSizePhase(p, ph);
    var o := StepBody(p, ch);
    if !o.ctl.Fail? { AfterSizePhase(o.p, if p.contentLength == 0 then LastChunk else Chunk(p.contentLength)); }
  }

  lemma ChunkSizePhase(p: Rec, ph: Phase)
    requires p.state.ChunkSizeAlmostDone?
    ensures PhaseOk(p, ph) <==> p.ptype.Request? && (ph == Headed || ph == Gap)
  {}

  lemma AfterSizePhase(p: Rec, ph: Phase)
    requires p.ptype.Request?
    requires (p.state.ChunkData? && ph == Chunk(p.contentLength))
             || (p.state.HeaderFieldStart? && p.flags.trailing && ph == LastChunk)
    ensures PhaseOk(p, ph)
  {}

  lemma ChunkInv(p: Rec)
    requires Inv(p) && (p.state.ChunkSizeAlmostDone? || p.state.ChunkData?)
    ensures p.contentLength >= 0 && !p.flags.trailing
    ensures p.state.ChunkData? ==> p.contentLength > 0
  {
    hide MethodString, NameStateOk, ValueStateOk;
  }

  lemma ChunkDigitGrammar(p: Rec, ph: Phase, ch: char)
    requires PhaseOk(p, ph) && (p.state.ChunkSizeStart? || p.state.ChunkSize? || p.state.ChunkParameters?)
    ensures StepKeeps(ph, StepBody(p, ch))
  {
    hide Unhex, NewMessage;
  }

  lemma BytesGrammar(p: Rec, ph: Phase, ch: char)
    requires Inv(p) && PhaseOk(p, ph) && GroupOf(p.state).BodyGroup?
    requires !p.state.ChunkSizeStart? && !p.state.ChunkSize? && !p.state.ChunkParameters?
    requires !p.state.ChunkSizeAlmostDone?
    ensures StepKeeps(ph, StepBody(p, ch))
  {
    hide StepBody, StepKeeps, PhaseOk, StateInv;
    if p.state.ChunkData? || p.state.ChunkDataAlmostDone? || p.state.ChunkDataDone? {
      ChunkBytesGrammar(p, ph, ch);
    } else {
      IdentityGrammar(p, ph, ch);
    }
  }

  lemma ChunkBytesGrammar(p: Rec, ph: Phase, ch: char)
    requires Inv(p) && PhaseOk(p, ph)
    requires p.state.ChunkData? || p.state.ChunkDataAlmostDone? || p.state.ChunkDataDone?
    ensures StepKeeps(ph, StepBody(p, ch))
  {
    hide StepBody, StepKeeps, PhaseOk, StateInv;
    if p.state.ChunkData? { ChunkDataGrammar(p, ph, ch); } else { ChunkEndGrammar(p, ph, ch); }
  }

  lemma ChunkDataGrammar(p: Rec, ph: Phase, ch: char)
    requires Inv(p) && PhaseOk(p, ph) && p.state.ChunkData?
    ensures StepKeeps(ph, StepBody(p, ch))
  {
    hide Unhex, Inv, NewMessage;
    ChunkInv(p);
  }

  lemma ChunkEndGrammar(p: Rec, ph: Phase, ch: char)
    requires PhaseOk(p, ph) && (p.state.ChunkDataAlmostDone? || p.state.ChunkDataDone?)
    ensures StepKeeps(ph, StepBody(p, ch))
  {
    hide Unhex, NewMessage;
  }

  lemma IdentityGrammar(p: Rec, ph: Phase, ch: char)
    requires PhaseOk(p, ph) && (p.state.BodyIdentity? || p.state.BodyIdentityEof? || p.state.MessageDone?)
    ensures StepKeeps(ph, StepBody(p, ch))
  {
    hide StepBody, StepKeeps, PhaseOk;
    if p.state.MessageDone? { MessageDoneGrammar(p, ph, ch); } else { IdentityBytesGrammar(p, ph, ch); }
  }

  lemma MessageDoneGrammar(p: Rec, ph: Phase, ch: char)
    requires PhaseOk(p, ph) && p.state.MessageDone?
    ensures StepKeeps(ph, StepBody(p, ch))
  {
    hide ShouldKeepAlive, Unhex;
  }

  lemma IdentityBytesGrammar(p: Rec, ph: Phase, ch: char)
    requires PhaseOk(p, ph) && (p.state.BodyIdentity? || p.state.BodyIdentityEof?)
    ensures StepKeeps(ph, StepBody(p, ch))
  {
    hide ShouldKeepAlive, Unhex;
  }

  // ----- bytes, buffers and runs -----

  lemma PhasesStep(env: Env, p: Rec, ph: Phase, ch: char)
    requires Inv(p) && PhaseOk(p, ph)
    ensures var o := Step(env, p, ch);
      && !Phases(ph, o.ev).Wrong?
      && (!o.ctl.Fail? ==> Inv(o.p) && PhaseOk(o.p, Phases(ph, o.ev)))
  {
    hide Step, Inv, PhaseOk, Next, Phases;
    StepGrammar(env, p, ph, ch);
    StepInv(env, p, ch);
    PhasesOne(ph, Step(env, p, ch).ev);
  }

  lemma PhasesOne(ph: Phase, t: seq<Event>)
    requires |t| <= 1
    ensures Phases(ph, t) == if t == [] then ph else Next(ph, t[0])
  {
    hide Next;
    if t != [] {
      PhasesSnoc(ph, [], t[0]);
      assert [] + [t[0]] == t;
    }
  }

  lemma {:induction false} ByteGrammar(env: Env, p: Rec, ph: Phase, ch: char)
    requires Inv(p) && PhaseOk(p, ph)
    ensures var o := Byte(env, p, ch);
      !Phases(ph, o.ev).Wrong? && (!o.ctl.Fail? ==> PhaseOk(o.p, Phases(ph, o.ev)))
    decreases Rank(p.state)
  {
    hide Step, Inv, PhaseOk, Phases, Rank;
    PhasesStep(env, p, ph, ch);
    StepRank(env, p, ch);
    var o := Step(env, p, ch);
    if o.ctl.Again? {
      ByteGrammar(env, o.p, Phases(ph, o.ev), ch);
      PhasesConcat(ph, o.ev, Byte(env, o.p, ch).ev);
    }
  }

  lemma {:induction false} FeedGrammar(env: Env, p: Rec, h: nat, ph: Phase, s: string)
    requires Inv(p) && PhaseOk(p, ph) && !ph.Wrong?
    ensures var f := Feed(env, p, h, s);
      !Phases(ph, f.ev).Wrong? && (!f.verdict.Failed? ==> PhaseOk(f.p, Phases(ph, f.ev)))
    decreases |s|
  {
    hide Byte, Inv, PhaseOk, Next;
    if s != [] {
      FeedGrammar(env, p, h, ph, s[..|s| - 1]);
      var f := Feed(env, p, h, s[..|s| - 1]);
      if f.verdict.Running? {
        FeedInv(env, Start(p, h), s[..|s| - 1]);
        ByteGrammar(env, f.p, Phases(ph, f.ev), s[|s| - 1]);
        PhasesConcat(ph, f.ev, Byte(env, f.p, s[|s| - 1]).ev);
      }
    }
  }

  /** The grammar holds between the passes of a byte, too. */
  lemma {:induction false} PassesGrammar(env: Env, p: Rec, ph: Phase, ch: char, k: nat)
    requires Inv(p) && PhaseOk(p, ph) && !ph.Wrong?
    ensures var o := Passes(env, p, ch, k);
      && !Phases(ph, o.ev).Wrong?
      && (!o.ctl.Fail? ==> Inv(o.p) && PhaseOk(o.p, Phases(ph, o.ev)))
  {
    hide Step, Inv, PhaseOk, Next;
    if k > 0 {
      PassesGrammar(env, p, ph, ch, k - 1);
      var o := Passes(env, p, ch, k - 1);
      if o.ctl.Again? {
        PhasesStep(env, o.p, Phases(ph, o.ev), ch);
        PhasesConcat(ph, o.ev, Step(env, o.p, ch).ev);
      }
    }
  }

  /** A callback that pauses leaves the parser where the grammar stands. */
  lemma HaltedGrammar(env: Env, b: Call, ph: Phase, data: string, c: Call)
    requires Halted(env, b.p, b.h, data, Paused, c.n, c.p, c.t, c.h)
    requires Inv(b.p) && PhaseOk(b.p, ph) && !ph.Wrong?
    ensures PhaseOk(c.p, Phases(ph, c.t)) && Inv(c.p)
  {
    hide FeedOn, PhaseOk, Inv, Next, Join, Passes, HaltCount;
    var i: nat, k: nat :| HaltedAt(env, b.p, b.h, data, i, k, Paused, c.n, c.p, c.t);
    var r := Upto(env, b.p, b.h, data, i);
    FeedGrammar(Lax(env), b.p, b.h, ph, data[..i]);
    FeedInv(Lax(env), Start(b.p, b.h), data[..i]);
    PhasesJoin(ph, c.t);
    if i == |data| {
      PhasesJoin(ph, r.ev);
    } else if k == 0 {
      PhasesJoin(ph, r.ev + [Data(Url, [])]);
      PhasesSnoc(ph, r.ev, Data(Url, []));
      CutGrammar(r.p, Phases(ph, r.ev));
    } else {
      var s := Passes(Lax(env), r.p, data[i], k);
      PassesGrammar(Lax(env), r.p, Phases(ph, r.ev), data[i], k);
      PhasesJoin(ph, r.ev + s.ev);
      PhasesConcat(ph, r.ev, s.ev);
    }
  }

  /** `on_url` at a line end, with the state not yet updated. */
  lemma CutGrammar(p: Rec, ph: Phase)
    requires Inv(p) && PhaseOk(p, ph) && AcceptsUrlEnd(p.state)
    ensures var q := p.(major := 0, minor := 9);
      Inv(q) && PhaseOk(q, Next(ph, Data(Url, [])))
  {}

  /** A call keeps the grammar: whatever its outcome, its callbacks go on with the
      grammar; and if it succeeds or is paused, the parser stands where the
      grammar does. */
  lemma CallGrammar(env: Env, b: Call, ph: Phase, data: string, c: Call)
    requires Allowed(env, b, data, c) && Inv(b.p) && PhaseOk(b.p, ph) && !ph.Wrong?
    ensures !Phases(ph, c.t).Wrong?
    ensures GoesOn(c.errno) ==> PhaseOk(c.p, Phases(ph, c.t)) && Inv(c.p)
  {
    hide FeedOn, Inv, PhaseOk, Next, Join, Told, Halted;
    FeedGrammar(Lax(env), b.p, b.h, ph, data);
    FeedInv(Lax(env), Start(b.p, b.h), data);
    var f := Feed(Lax(env), b.p, b.h, data);
    ToldGrammar(ph, c.t, f.ev);
    if c.errno.Ok? {
      PhasesJoin(ph, c.t);
      PhasesJoin(ph, f.ev);
    } else if c.errno.Paused? {
      HaltedGrammar(env, b, ph, data, c);
    }
  }

  /** Successive calls, each on what the one before left; the last may have any
      outcome, the others succeed or are paused by a callback, after which the
      parser was resumed. */
  ghost predicate Session(env: Env, b0: Call, parts: seq<string>, calls: seq<Call>) {
    && |calls| == |parts|
    && forall i :: 0 <= i < |calls| ==>
         && Allowed(env, Last(b0, calls[..i]), parts[i], calls[i])
         && (i + 1 < |calls| ==> GoesOn(calls[i].errno))
  }

  /** Event grammar: in every run of a request parser from `http_parser_init`, with
      any pauses, up to and including a call that fails, the callbacks are a
      prefix of what the grammar allows. */
  lemma {:induction false} RequestGrammar(env: Env, parts: seq<string>, calls: seq<Call>)
    requires Session(env, Call(0, InitRec(Request), 0, 0, Ok, []), parts, calls)
    ensures var b0 := Call(0, InitRec(Request), 0, 0, Ok, []);
      && !Phases(Between, Trace(b0, calls)).Wrong?
      && (GoesOn(Last(b0, calls).errno) ==>
            Inv(Last(b0, calls).p) && PhaseOk(Last(b0, calls).p, Phases(Between, Trace(b0, calls))))
    decreases |calls|
  {
    hide CallSpec, Next;
    var b0 := Call(0, InitRec(Request), 0, 0, Ok, []);
    if calls != [] {
      var k := |calls| - 1;
      SessionFront(env, b0, parts, calls);
      RequestGrammar(env, parts[..k], calls[..k]);
      CallGrammar(env, Last(b0, calls[..k]), Phases(Between, Trace(b0, calls[..k])), parts[k], calls[k]);
      PhasesConcat(Between, Trace(b0, calls[..k]), calls[k].t);
    }
  }

  lemma SessionFront(env: Env, b0: Call, parts: seq<string>, calls: seq<Call>)
    requires Session(env, b0, parts, calls) && calls != [] && b0.errno.Ok?
    ensures var k := |calls| - 1;
      && Session(env, b0, parts[..k], calls[..k])
      && Allowed(env, Last(b0, calls[..k]), parts[k], calls[k])
      && GoesOn(Last(b0, calls[..k]).errno)
  {
    hide Allowed;
    var k := |calls| - 1;
    forall i | 0 <= i < k
      ensures Allowed(env, Last(b0, calls[..k][..i]), parts[..k][i], calls[..k][i])
    {
      assert calls[..k][..i] == calls[..i];
    }
  }
}
