/** Whole messages: what is printed is what is parsed, for any number of messages on
    one connection; and what the text of a message says about what comes after it. */
module HttpMessage {
  import opened Decimals
  import opened HttpChunked
  import opened HttpExecute
  import opened HttpFeed
  import opened HttpFields
  import opened HttpFraming
  import opened HttpHeaders
  import opened HttpInvariant
  import opened HttpLines
  import opened HttpMarks
  import opened HttpReads
  import opened HttpStep
  import opened HttpTrace
  import opened HttpTypes

  // ----- messages -----

  datatype Message = Message(start: StartLine, version: Version, head: Head)

  predicate IsRequest(m: Message) { m.start.RequestLine? }

  predicate IsConnect(m: Message) { m.start.RequestLine? && m.start.meth == CONNECT }

  /** `on_headers_complete` answers `a`: zero, or that there is no body (1), or
      that the rest is another protocol (2). */
  ghost predicate Answers(env: Env, a: int) { 0 <= a <= 2 && forall p: Rec :: env.onHeadersComplete(p) == a }

  /** A response with one of these codes has no body unless a field frames one. */
  predicate NoBodyStatus(status: nat) { 100 <= status <= 199 || status == 204 || status == 304 }

  /** What follows the headers is read as the body of this message. */
  predicate Delivered(m: Message, a: int) { a == 0 && !IsConnect(m) }

  /** The end of the message shows in the message. */
  predicate Bounded(m: Message, a: int) {
    IsRequest(m) || a != 0 || NoBodyStatus(Decimal(m.start.status)) || HasField(m.head.body)
  }

  /** What follows the message is another protocol. */
  predicate Upgrades(m: Message, a: int) {
    || a == 2
    || (if OffersUpgrade(Spoken(m.head)) && Asks(Spoken(m.head), "upgrade")
        then IsRequest(m) || Decimal(m.start.status) == 101
        else IsConnect(m))
  }

  /** What follows the message is another message: since HTTP/1.1 unless `close` is
      asked for, before only if `keep-alive` is. */
  predicate Persists(m: Message, a: int) {
    && (if m.version.major > 0 && m.version.minor > 0 then !Asks(Spoken(m.head), "close")
        else Asks(Spoken(m.head), "keep-alive"))
    && Bounded(m, a)
  }

  predicate MessageOk(env: Env, m: Message, a: int) {
    && VersionOk(m.version)
    && (match m.start
        case RequestLine(meth, url) => UrlOk(meth, url) && m.version.major > 0
        case StatusLine(status, reason) => StatusOk(status) && ReasonOk(reason))
    && HeadOk(env, m.head)
    && (m.head.body.ToTheEnd? ==> !Bounded(m, a))
  }

  function StartText(m: Message): string {
    match m.start
    case RequestLine(meth, url) => RequestText(meth, url, m.version)
    case StatusLine(status, reason) => StatusText(status, reason, m.version)
  }

  function BodyText(m: Message, a: int): string {
    if !Delivered(m, a) then ""
    else
      match m.head.body
      case NoBody => ""
      case Sized(_, _, bytes) => bytes
      case InChunks(_, _, body) => PrintBody(body)
      case ToTheEnd(bytes) => bytes
  }

  function Print(m: Message, a: int): string {
    StartText(m) + (PrintHead(m.head) + ("\n" + BodyText(m, a)))
  }

  function StartEvents(m: Message): seq<Event> {
    match m.start
    case RequestLine(_, url) => [MessageBegin, Data(Url, url)]
    case StatusLine(_, reason) => [MessageBegin, Data(Status, reason)]
  }

  function BodyBytesEvents(bytes: string): seq<Event> { if bytes == [] then [] else [Data(Body, bytes)] }

  function EndEvents(m: Message, a: int): seq<Event> {
    if !Delivered(m, a) then [MessageComplete]
    else
      match m.head.body
      case NoBody => if Bounded(m, a) then [MessageComplete] else []
      case Sized(_, _, bytes) => BodyBytesEvents(bytes) + [MessageComplete]
      case InChunks(_, _, body) => BodyEvents(body)
      case ToTheEnd(bytes) => BodyBytesEvents(bytes)
  }

  /** The callbacks that tell the message. */
  function Events(m: Message, a: int): seq<Event> {
    StartEvents(m) + (HeadEvents(m.head) + ([HeadersComplete] + EndEvents(m, a)))
  }

  /** A parser that waits for such a message. */
  predicate AtStart(p: Rec, m: Message) {
    && Inv(p)
    && if IsRequest(m) then p.state.StartReq? && p.ptype.Request?
       else p.state.StartRes? && p.ptype.Response? && p.meth != CONNECT
  }

  // ----- the end of the headers -----

  predicate RecBounded(p: Rec) {
    p.ptype.Request? || p.flags.skipBody || NoBodyStatus(p.status) || p.flags.chunked || p.contentLength != ULLONG_MAX
  }

  /** The state in which the record waits for what comes next. */
  function Rests(p: Rec): State {
    if !((if p.major > 0 && p.minor > 0 then !p.flags.close else p.flags.keepAlive) && RecBounded(p)) then Dead
    else if p.ptype.Request? then StartReq
    else StartRes
  }

  lemma RestsIs(p: Rec)
    ensures NewMessage(p) == Rests(p)
  {}

  predicate RecUpgrades(p: Rec, a: int) {
    a == 2 || (if p.flags.upgrade && p.flags.connectionUpgrade then p.ptype.Request? || p.status == 101
               else p.meth == CONNECT)
  }

  /** The record behind the headers. */
  function BehindHead(p: Rec, a: int): Rec {
    p.(state := HeadersDone, upgrade := RecUpgrades(p, a), flags := p.flags.(skipBody := a != 0))
  }

  predicate NoBytes(p: Rec) { !p.flags.chunked && (p.contentLength == 0 || p.contentLength == ULLONG_MAX) }

  /** Whether the message ends with its headers. */
  predicate EndsThere(p: Rec, a: int) {
    || a != 0
    || (RecUpgrades(p, a) && (p.meth == CONNECT || NoBytes(p)))
    || (!p.flags.chunked && (p.contentLength == 0 || (p.contentLength == ULLONG_MAX && RecBounded(p))))
  }

  function HeadOut(p: Rec, a: int): Out {
    var d := BehindHead(p, a);
    if EndsThere(p, a) then
      Out(d.(state := Rests(d)), [HeadersComplete, MessageComplete], if d.upgrade then Exit else Consume, true)
    else if p.flags.chunked then Out(d.(state := ChunkSizeStart), [HeadersComplete], Consume, true)
    else if p.contentLength == ULLONG_MAX then Out(d.(state := BodyIdentityEof), [HeadersComplete], Consume, true)
    else Out(d.(state := BodyIdentity), [HeadersComplete], Consume, true)
  }

  lemma DoneOut(p: Rec, a: int)
    requires 0 <= a <= 2 && !p.flags.skipBody && 0 <= p.contentLength
    ensures var o := StepHeadersDone(BehindHead(p, a), LF);
      o.(ev := [HeadersComplete] + o.ev) == HeadOut(p, a)
  {
    hide NewMessage, Rests;
    RestsIs(BehindHead(p, a));
    var none: seq<Event> := [];
    assert [HeadersComplete] + [MessageComplete] == [HeadersComplete, MessageComplete];
    assert [HeadersComplete] + none == [HeadersComplete];
  }

  lemma HeadStep(env: Env, p: Rec, a: int)
    requires p.state.HeadersAlmostDone? && !p.flags.trailing && !p.flags.skipBody
    requires !(p.flags.chunked && p.flags.hasLength) && Answers(env, a)
    ensures Step(env, p, LF) == RedoWith(BehindHead(p, a), HeadersComplete)
  {
    hide StepUrl, StepResLine, StepReqLine, StepMethod, StepHeader, StepHeadersDone, StepBody;
  }

  /** The empty line. */
  lemma HeadByte(env: Env, p: Rec, a: int)
    requires p.state.HeadersAlmostDone? && !p.flags.trailing && !p.flags.skipBody && 0 <= p.contentLength
    requires !(p.flags.chunked && p.flags.hasLength) && Answers(env, a)
    ensures Byte(env, p, LF) == HeadOut(p, a)
  {
    hide StepUrl, StepResLine, StepReqLine, StepMethod, StepHeader, StepBody, HeadOut, StepHeadersDone;
    HeadStep(env, p, a);
    DoneOut(p, a);
    var d := BehindHead(p, a);
    assert Step(env, d, LF) == StepHeadersDone(d, LF);
    assert !StepHeadersDone(d, LF).ctl.Again? by { DoneRank(d, LF); }
    assert Byte(env, d, LF) == Step(env, d, LF);
  }

  /** A chunked message must not have a Content-Length; the message is refused. */
  lemma BothFramings(env: Env, p: Rec)
    requires p.state.HeadersAlmostDone? && !p.flags.trailing && p.flags.chunked && p.flags.hasLength
    ensures Byte(env, p, LF).ctl == Fail(UnexpectedContentLength)
  {
    hide StepUrl, StepResLine, StepReqLine, StepMethod, StepHeader, StepHeadersDone, StepBody;
  }

  /** The answer of `on_headers_complete` that is neither of the three ends the call. */
  lemma OtherAnswer(env: Env, p: Rec)
    requires p.state.HeadersAlmostDone? && !p.flags.trailing && !(p.flags.chunked && p.flags.hasLength)
    requires !(0 <= env.onHeadersComplete(BeforeHeadersComplete(p)) <= 2)
    ensures Byte(env, p, LF).ctl == Fail(CallbackFailed) && Byte(env, p, LF).ev == [HeadersComplete]
  {
    hide StepUrl, StepResLine, StepReqLine, StepMethod, StepHeader, StepHeadersDone, StepBody;
  }

  // ----- bodies -----

  lemma IdentityStep(env: Env, p: Rec, ch: char)
    requires p.state.BodyIdentity? && p.contentLength == 1
    ensures Step(env, p, ch) == RedoWith(p.(contentLength := 0, state := MessageDone), Data(Body, [ch]))
  {
    hide StepUrl, StepResLine, StepReqLine, StepMethod, StepHeadersAlmostDone, StepHeadersDone, StepHeader;
  }

  lemma CompleteStep(env: Env, p: Rec, ch: char)
    requires p.state.MessageDone?
    ensures Step(env, p, ch) == Out(p.(state := NewMessage(p)), [MessageComplete],
                                    if p.upgrade then Exit else Consume, false)
  {
    hide StepUrl, StepResLine, StepReqLine, StepMethod, StepHeadersAlmostDone, StepHeadersDone, StepHeader, NewMessage;
  }

  lemma IdentityLastByte(env: Env, p: Rec, ch: char)
    requires p.state.BodyIdentity? && p.contentLength == 1
    ensures var q := p.(contentLength := 0);
      Byte(env, p, ch) == Out(q.(state := Rests(q)), [Data(Body, [ch]), MessageComplete],
                              if p.upgrade then Exit else Consume, false)
  {
    hide Step, NewMessage, Rests;
    var q := p.(contentLength := 0, state := MessageDone);
    IdentityStep(env, p, ch);
    CompleteStep(env, q, ch);
    RestsIs(q);
    SameRests(q, BodyIdentity);
    assert Byte(env, q, ch) == Step(env, q, ch);
    assert [Data(Body, [ch])] + [MessageComplete] == [Data(Body, [ch]), MessageComplete];
  }

  lemma SameRests(p: Rec, s: State)
    ensures Rests(p.(state := s)) == Rests(p)
  {}

  lemma IdentityFront(env: Env, p: Rec, front: string)
    requires Inv(p) && p.state.BodyIdentity? && p.contentLength == |front| + 1
    ensures Reads(env, p, front, p.(contentLength := 1), Letters(Body, front))
  {
    hide Byte, Inv, Letters, Join;
    BodyRun(env, Start(p, 0), front);
    var none: seq<Event> := [];
    assert none + Letters(Body, front) + none == Letters(Body, front);
  }

  lemma RetellEnd(env: Env, p: Rec, s: string, q: Rec, t: seq<Event>, u: seq<Event>, exit: bool)
    requires Ends(env, p, s, q, t, exit) && Same(t, u)
    ensures Ends(env, p, s, q, u, exit)
  {
    hide Feed, Join;
  }

  /** An identity body is delivered whole, and ends the message. */
  lemma IdentityReads(env: Env, p: Rec, bytes: string)
    requires Inv(p) && p.state.BodyIdentity? && p.contentLength == |bytes| > 0
    ensures var q := p.(contentLength := 0);
      Ends(env, p, bytes, q.(state := Rests(q)), [Data(Body, bytes), MessageComplete], p.upgrade)
  {
    hide Byte, Inv, Letters, Reads, Ends, Join, Rests;
    var front, ch := bytes[..|bytes| - 1], bytes[|bytes| - 1];
    var l := p.(contentLength := 1);
    IdentityFront(env, p, front);
    IdentityLastByte(env, l, ch);
    EndsBy(env, p, front, l, Letters(Body, front), ch, Byte(env, l, ch));
    assert front + [ch] == bytes;
    LettersSnoc(Body, front, ch);
    var t := Letters(Body, front) + [Data(Body, [ch]), MessageComplete];
    assert t == Letters(Body, bytes) + [MessageComplete];
    JoinClosed(Body, bytes);
    SameAfter(Letters(Body, bytes), [Data(Body, bytes)], [MessageComplete]);
    assert [Data(Body, bytes)] + [MessageComplete] == [Data(Body, bytes), MessageComplete];
    var q := p.(contentLength := 0);
    RetellEnd(env, p, bytes, q.(state := Rests(q)), t, [Data(Body, bytes), MessageComplete], p.upgrade);
  }

  /** A body that only the end of the connection ends. */
  lemma EofReads(env: Env, p: Rec, bytes: string)
    requires Inv(p) && p.state.BodyIdentityEof?
    ensures Reads(env, p, bytes, p, BodyBytesEvents(bytes))
  {
    hide Byte, Inv, Letters, Join;
    var none: seq<Event> := [];
    EofRun(env, Start(p, 0), bytes);
    assert none + Letters(Body, bytes) + none == Letters(Body, bytes);
    if bytes != [] { JoinClosed(Body, bytes); } else { LettersNone(Body); }
  }

  lemma LettersNone(k: Kind)
    ensures Letters(k, []) == []
  {}

  // ----- the parts of a message -----

  lemma ReadsInv(env: Env, p: Rec, s: string, q: Rec, t: seq<Event>)
    requires Reads(env, p, s, q, t) && Inv(p)
    ensures Inv(q)
  {
    hide FeedOn, Join, MethodString;
    FeedInv(env, Start(p, 0), s);
  }

  lemma EndsInv(env: Env, p: Rec, s: string, q: Rec, t: seq<Event>, exit: bool)
    requires Ends(env, p, s, q, t, exit) && Inv(p)
    ensures Inv(q)
  {
    hide FeedOn, Join, MethodString;
    FeedInv(env, Start(p, 0), s);
  }

  /** The record behind the start line. */
  predicate Started(p: Rec, m: Message) {
    && p.state.HeaderFieldStart? && p.flags == NO_FLAGS && p.contentLength == ULLONG_MAX
    && p.major == m.version.major && p.minor == m.version.minor
    && match m.start
       case RequestLine(meth, _) => p.ptype.Request? && p.meth == meth
       case StatusLine(status, _) => p.ptype.Response? && p.meth != CONNECT && p.status == Decimal(status)
  }

  lemma StartReads(env: Env, p: Rec, m: Message, a: int) returns (q: Rec)
    requires AtStart(p, m) && MessageOk(env, m, a)
    ensures Reads(env, p, StartText(m), q, StartEvents(m)) && Inv(q)
    ensures Started(q, m) && (!IsRequest(m) ==> q.meth == p.meth)
  {
    hide Reads, HeadOk, UrlOk, StatusOk, ReasonOk, Inv, MethodString, RequestText, StatusText;
    match m.start {
      case RequestLine(meth, url) => q := RequestReads(env, p, meth, url, m.version);
      case StatusLine(status, reason) => q := ResponseReads(env, p, status, reason, m.version);
    }
    ReadsInv(env, p, StartText(m), q, StartEvents(m));
  }

  /** What the record before the last byte of the headers knows of the message. */
  predicate Knows(p: Rec, m: Message) {
    && p.state.HeadersAlmostDone?
    && p.major == m.version.major && p.minor == m.version.minor
    && p.contentLength == (if m.head.body.Sized? then |m.head.body.bytes| else ULLONG_MAX)
    && Says(NO_FLAGS.(hasLength := m.head.body.Sized?, chunked := m.head.body.InChunks?), p.flags, Spoken(m.head))
    && match m.start
       case RequestLine(meth, _) => p.ptype.Request? && p.meth == meth
       case StatusLine(status, _) => p.ptype.Response? && p.meth != CONNECT && p.status == Decimal(status)
  }

  lemma KnownReads(env: Env, p: Rec, m: Message) returns (q: Rec)
    requires Started(p, m) && HeadOk(env, m.head) && Inv(p)
    ensures Reads(env, p, PrintHead(m.head), q, HeadEvents(m.head)) && Inv(q)
    ensures Knows(q, m) && q.meth == p.meth
  {
    hide Reads, HeadOk, Inv, Says;
    q := HeadReads(env, p, m.head);
    ReadsInv(env, p, PrintHead(m.head), q, HeadEvents(m.head));
  }

  /** So the record and the text agree on what comes next. */
  lemma KnownNext(p: Rec, m: Message, a: int)
    requires Knows(p, m) && 0 <= a <= 2 && SizeOk(m)
    ensures RecUpgrades(p, a) == Upgrades(m, a)
    ensures var d := BehindHead(p, a);
      && RecBounded(d) == Bounded(m, a)
      && Rests(d) == RestsAt(m, a)
      && (HasField(m.head.body) ==>
            forall s: State, f: Flags :: f == d.flags || f == d.flags.(trailing := true) ==>
              Rests(d.(contentLength := 0, state := s, flags := f)) == RestsAt(m, a))
    ensures !p.flags.trailing && !p.flags.skipBody
    ensures p.flags.hasLength == m.head.body.Sized? && p.flags.chunked == m.head.body.InChunks?
  {
    hide Asks, OffersUpgrade, Decimal;
  }

  predicate SizeOk(m: Message) { m.head.body.Sized? ==> |m.head.body.bytes| <= MAX_LENGTH }

  lemma SizeIsOk(env: Env, h: Head)
    requires HeadOk(env, h)
    ensures h.body.Sized? ==> |h.body.bytes| <= MAX_LENGTH
  {}

  function RestsAt(m: Message, a: int): State {
    if !Persists(m, a) then Dead else if IsRequest(m) then StartReq else StartRes
  }

  // ----- the end of a message -----

  /** From the LF of the empty line to the end of the message. */
  lemma EndReads(env: Env, p: Rec, m: Message, a: int) returns (q: Rec)
    requires Inv(p) && Knows(p, m) && MessageOk(env, m, a) && Answers(env, a) && Bounded(m, a)
    ensures Ends(env, p, "\n" + BodyText(m, a), q, [HeadersComplete] + EndEvents(m, a), Upgrades(m, a))
    ensures q.state == RestsAt(m, a) && q.meth == p.meth && q.ptype == p.ptype
  {
    hide Inv, Ends, Reads, Byte, HeadOk, BodyOk, Rests, Asks, OffersUpgrade, Says, PrintBody, BodyEvents, UrlOk;
    SizeIsOk(env, m.head);
    KnownNext(p, m, a);
    HeadByte(env, p, a);
    var none: string := [];
    ReadsNothing(env, p);
    var o := HeadOut(p, a);
    assert none + [LF] == "\n";
    ByteInv(env, p, LF);
    if EndsThere(p, a) {
      EndsBy(env, p, none, p, [], LF, o);
      q := o.p;
      EndsAtHead(env, p, m, a);
    } else if m.head.body.Sized? {
      ReadsByte(env, p, LF, o.p);
      SameRests(o.p.(contentLength := 0), HeadersDone);
      IdentityReads(env, o.p, m.head.body.bytes);
      q := o.p.(contentLength := 0, state := Rests(o.p.(contentLength := 0)));
      assert [HeadersComplete] + [] == [HeadersComplete];
      ThenEnds(env, p, "\n", o.p, [HeadersComplete], m.head.body.bytes, q,
               [Data(Body, m.head.body.bytes), MessageComplete], Upgrades(m, a));
      assert EndEvents(m, a) == [Data(Body, m.head.body.bytes), MessageComplete];
    } else {
      ReadsByte(env, p, LF, o.p);
      assert [HeadersComplete] + [] == [HeadersComplete];
      q := ChunkedEnd(env, p, m, a);
    }
  }

  lemma EndsAtHead(env: Env, p: Rec, m: Message, a: int)
    requires Knows(p, m) && MessageOk(env, m, a) && 0 <= a <= 2 && Bounded(m, a) && EndsThere(p, a)
    ensures BodyText(m, a) == [] && [] + HeadOut(p, a).ev == [HeadersComplete] + EndEvents(m, a)
    ensures "\n" + BodyText(m, a) == "\n"
    ensures HeadOut(p, a).ctl == if Upgrades(m, a) then Exit else Consume
    ensures HeadOut(p, a).p.state == RestsAt(m, a)
  {
    hide HeadOk, Says, Asks, OffersUpgrade, Rests, PrintBody, BodyEvents, UrlOk;
    SizeIsOk(env, m.head);
    KnownNext(p, m, a);
    assert [HeadersComplete] + [MessageComplete] == [HeadersComplete, MessageComplete];
    if m.head.body.InChunks? || (m.head.body.Sized? && m.head.body.bytes != []) {
      assert !Delivered(m, a);
    }
  }

  lemma ChunkedEnd(env: Env, p: Rec, m: Message, a: int) returns (q: Rec)
    requires Inv(p) && Knows(p, m) && MessageOk(env, m, a) && 0 <= a <= 2 && !EndsThere(p, a) && Bounded(m, a)
    requires !m.head.body.Sized?
    requires Reads(env, p, "\n", HeadOut(p, a).p, [HeadersComplete]) && Inv(HeadOut(p, a).p)
    ensures Ends(env, p, "\n" + BodyText(m, a), q, [HeadersComplete] + EndEvents(m, a), Upgrades(m, a))
    ensures q.state == RestsAt(m, a) && q.meth == p.meth && q.ptype == p.ptype
  {
    hide Ends, Reads, BodyOk, Rests, Asks, OffersUpgrade, Says, PrintBody, BodyEvents, UrlOk, StateInv;
    SizeIsOk(env, m.head);
    KnownNext(p, m, a);
    assert m.head.body.InChunks?;
    var c := HeadOut(p, a).p;
    assert c.state.ChunkSizeStart?;
    q := ChunkedRoundTrip(env, c, m.head.body.body);
    var e := c.(flags := c.flags.(trailing := true), contentLength := 0);
    LikeRests(q, e.(state := NewMessage(e)));
    SameRests(e, NewMessage(e));
    RestsIs(q);
    ThenEnds(env, p, "\n", c, [HeadersComplete], PrintBody(m.head.body.body), q, BodyEvents(m.head.body.body),
             Upgrades(m, a));
  }

  lemma LikeRests(p: Rec, q: Rec)
    requires Like(p, q)
    ensures Rests(p) == Rests(q)
  {}

  // ----- round trips -----

  /** Parsing undoes printing: the parser reads the whole message, tells exactly the
      message, and waits for what its text says comes next: another message, or
      the end of the connection. If it is another protocol, the call ends. */
  lemma MessageRoundTrip(env: Env, p: Rec, m: Message, a: int) returns (q: Rec)
    requires AtStart(p, m) && Answers(env, a) && MessageOk(env, m, a) && Bounded(m, a)
    ensures Ends(env, p, Print(m, a), q, Events(m, a), Upgrades(m, a))
    ensures Inv(q) && q.state == if !Persists(m, a) then Dead else if IsRequest(m) then StartReq else StartRes
    ensures q.ptype == p.ptype && (!IsRequest(m) ==> q.meth == p.meth)
  {
    hide Inv, Ends, Reads, HeadOk, Persists, Upgrades, StartText, StartEvents, PrintHead, HeadEvents, EndEvents;
    hide BodyText;
    var s := StartReads(env, p, m, a);
    var h := KnownReads(env, s, m);
    q := EndReads(env, h, m, a);
    HeadFirst(env, m.head);
    ThenEnds(env, s, PrintHead(m.head), h, HeadEvents(m.head), "\n" + BodyText(m, a), q,
             [HeadersComplete] + EndEvents(m, a), Upgrades(m, a));
    HeadThere(PrintHead(m.head), "\n" + BodyText(m, a));
    LineThenEnds(env, p, StartText(m), s, StartEvents(m), PrintHead(m.head) + ("\n" + BodyText(m, a)), q,
                 HeadEvents(m.head) + ([HeadersComplete] + EndEvents(m, a)), Upgrades(m, a));
    EndsInv(env, p, Print(m, a), q, Events(m, a), Upgrades(m, a));
    StartedType(s, p, m);
  }

  lemma HeadThere(s: string, t: string)
    requires s != []
    ensures s + t != [] && (s + t)[0] == s[0]
  {}

  lemma StartedType(s: Rec, p: Rec, m: Message)
    requires Started(s, m) && AtStart(p, m)
    ensures s.ptype == p.ptype
  {}

  /** A response that only the end of the connection ends: its bytes are delivered,
      and the parser goes on reading its body. */
  lemma UnboundedRoundTrip(env: Env, p: Rec, m: Message) returns (q: Rec)
    requires AtStart(p, m) && Answers(env, 0) && MessageOk(env, m, 0) && !Bounded(m, 0)
    ensures Reads(env, p, Print(m, 0), q, Events(m, 0))
    ensures Inv(q) && q.state.BodyIdentityEof?
  {
    hide Inv, Reads, HeadOk, StartText, StartEvents, PrintHead, HeadEvents, Says, Byte, UrlOk;
    var s := StartReads(env, p, m, 0);
    var h := KnownReads(env, s, m);
    SizeIsOk(env, m.head);
    KnownNext(h, m, 0);
    HeadByte(env, h, 0);
    var o := HeadOut(h, 0);
    ByteInv(env, h, LF);
    ReadsByte(env, h, LF, o.p);
    q := o.p;
    assert q.state.BodyIdentityEof?;
    var bytes := BodyText(m, 0);
    EofReads(env, q, bytes);
    assert [LF] == "\n" && [HeadersComplete] + [] == [HeadersComplete];
    ThenAny(env, h, "\n", q, [HeadersComplete], bytes, q, BodyBytesEvents(bytes));
    assert EndEvents(m, 0) == BodyBytesEvents(bytes);
    HeadFirst(env, m.head);
    ThenAny(env, s, PrintHead(m.head), h, HeadEvents(m.head), "\n" + bytes, q,
            [HeadersComplete] + BodyBytesEvents(bytes));
    HeadThere(PrintHead(m.head), "\n" + bytes);
    Then(env, p, StartText(m), s, StartEvents(m), PrintHead(m.head) + ("\n" + bytes), q,
         HeadEvents(m.head) + ([HeadersComplete] + BodyBytesEvents(bytes)));
  }

  function PrintAll(ms: seq<Message>): string {
    if ms == [] then [] else PrintAll(ms[..|ms| - 1]) + Print(ms[|ms| - 1], 0)
  }

  function AllEvents(ms: seq<Message>): seq<Event> {
    if ms == [] then [] else AllEvents(ms[..|ms| - 1]) + Events(ms[|ms| - 1], 0)
  }

  /** A message after which another one follows. */
  predicate Followed(env: Env, m: Message) { MessageOk(env, m, 0) && Persists(m, 0) && !Upgrades(m, 0) }

  /** Any number of messages in a row on one connection, all requests or all
      responses like `k`. */
  lemma {:induction false} PipelineRoundTrip(env: Env, p: Rec, ms: seq<Message>, k: Message) returns (q: Rec)
    requires AtStart(p, k) && Answers(env, 0)
    requires forall m :: m in ms ==> Followed(env, m) && IsRequest(m) == IsRequest(k)
    ensures Reads(env, p, PrintAll(ms), q, AllEvents(ms))
    ensures AtStart(q, k)
    decreases |ms|
  {
    hide Reads, Ends, Inv, MessageOk, Persists, Upgrades, Print, Events, AfterLine;
    if ms == [] {
      StartWaits(p);
      ReadsNothing(env, p);
      q := p;
    } else {
      var n := |ms| - 1;
      var m := ms[n];
      var r := PipelineRoundTrip(env, p, ms[..n], k);
      assert Followed(env, m);
      assert Bounded(m, 0) by { PersistsBounded(m); }
      q := MessageRoundTrip(env, r, m, 0);
      StartWaits(q);
      EndsReads(env, r, Print(m, 0), q, Events(m, 0));
      ThenAny(env, p, PrintAll(ms[..n]), r, AllEvents(ms[..n]), Print(m, 0), q, Events(m, 0));
    }
  }

  lemma PersistsBounded(m: Message)
    requires Persists(m, 0)
    ensures Bounded(m, 0)
  {
    hide Asks, Decimal;
  }

  lemma StartWaits(p: Rec)
    requires p.state.StartReq? || p.state.StartRes?
    ensures AfterLine(p) == (p, [])
  {}

  /** A message after which the connection is to be closed: of what follows it, only
      line ends are accepted. */
  lemma NothingFollows(env: Env, p: Rec, m: Message, a: int, ch: char, rest: string)
    requires AtStart(p, m) && Answers(env, a) && MessageOk(env, m, a) && Bounded(m, a)
    requires !Persists(m, a) && !Upgrades(m, a) && ch != CR && ch != LF
    ensures Feed(env, p, 0, Print(m, a) + ([ch] + rest)).verdict == Failed(ClosedConnection)
  {
    hide Inv, MessageOk, Persists, Upgrades, Print, Events, Bounded, FeedOn, Byte, Join;
    var q := MessageRoundTrip(env, p, m, a);
    var s := Print(m, a);
    FeedConcat(env, Start(p, 0), s, [ch] + rest);
    FeedConcat(env, Feed(env, p, 0, s), [ch], rest);
    FeedOne(env, Feed(env, p, 0, s), ch);
    DeadRefuses(env, q, ch);
    FeedStopped(env, Extend(env, Feed(env, p, 0, s), ch), rest);
  }

  lemma DeadRefuses(env: Env, p: Rec, ch: char)
    requires p.state.Dead? && ch != CR && ch != LF
    ensures Byte(env, p, ch) == Refuse(p, ClosedConnection)
  {}

  /** And behind any number of messages before it. */
  lemma NothingFollowsAll(env: Env, p: Rec, ms: seq<Message>, m: Message, a: int, ch: char, rest: string)
    requires AtStart(p, m) && Answers(env, 0) && a == 0 && MessageOk(env, m, 0) && Bounded(m, 0)
    requires forall k :: k in ms ==> Followed(env, k) && IsRequest(k) == IsRequest(m)
    requires !Persists(m, 0) && !Upgrades(m, 0) && ch != CR && ch != LF
    ensures Feed(env, p, 0, PrintAll(ms) + (Print(m, 0) + ([ch] + rest))).verdict == Failed(ClosedConnection)
  {
    hide Inv, MessageOk, Persists, Upgrades, Print, Events, Bounded, FeedOn, Byte, Join, PrintAll, AllEvents, AtStart;
    var q := PipelineRoundTrip(env, p, ms, m);
    NothingFollows(env, q, m, 0, ch, rest);
    var s, t := PrintAll(ms), Print(m, 0) + ([ch] + rest);
    assert Reads(env, p, s, q, AllEvents(ms));
    ReadsRuns(env, p, s, q, AllEvents(ms), m);
    var f := Feed(env, p, 0, s);
    FeedConcat(env, Start(p, 0), s, t);
    FeedCount(env, Start(p, 0), s);
    FeedShift(env, f, t);
    CounterApart(env, q, f.h, 0, t);
  }

  lemma ReadsRuns(env: Env, p: Rec, s: string, q: Rec, t: seq<Event>, m: Message)
    requires Reads(env, p, s, q, t) && AtStart(q, m)
    ensures Feed(env, p, 0, s).verdict.Running? && Feed(env, p, 0, s).p == q
  {
    hide Feed, Join;
  }
}
