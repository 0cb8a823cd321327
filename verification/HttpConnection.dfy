/** A connection from end to end: messages printed one after the other, cut into calls
    of `http_parser_execute` in any way, are told to the application as the messages
    they are, however the callbacks pause. */
module HttpConnection {
  import opened HttpFeed
  import opened HttpMessage
  import opened HttpParser
  import opened HttpPause
  import opened HttpReads
  import opened HttpResume
  import opened HttpShape
  import opened HttpSplit
  import opened HttpTrace
  import opened HttpTypes

  /** A parser that was just made for messages like `k`. */
  function NewParser(k: Message): Call { Call(0, InitRec(if IsRequest(k) then Request else Response), 0, 0, Ok, []) }

  /** Messages after each of which another one follows, all of them like `k`. */
  predicate Conversation(env: Env, ms: seq<Message>, k: Message) {
    forall m :: m in ms ==> Followed(env, m) && IsRequest(m) == IsRequest(k)
  }

  lemma ReadsFeed(env: Env, p: Rec, s: string, q: Rec, t: seq<Event>, k: Message)
    requires Reads(env, p, s, q, t) && AtStart(q, k)
    ensures var f := Feed(env, p, 0, s);
      f.verdict.Running? && f.n == |s| && f.p == q && Same(f.ev, t)
  {
    hide FeedOn, Join;
    FeedCount(env, Start(p, 0), s);
    var f := Feed(env, p, 0, s);
    assert f.ev + [] == f.ev;
  }

  /** Messages reach the application unchanged, however the network cuts them. */
  lemma MessagesInAnyCut(env: Env, ms: seq<Message>, k: Message, parts: seq<string>, calls: seq<Call>)
    returns (q: Rec)
    requires Answers(env, 0) && Conversation(env, ms, k)
    requires parts != [] && (forall i :: 0 <= i < |parts| ==> parts[i] != []) && Concat(parts) == PrintAll(ms)
    requires Feed(env, NewParser(k).p, 0, PrintAll(ms)).peak + |parts| <= HTTP_MAX_HEADER_SIZE
    requires Chain(env, NewParser(k), parts, calls)
    ensures |calls| == |parts|
    ensures forall i :: 0 <= i < |calls| ==> calls[i].errno.Ok? && calls[i].n == |parts[i]|
    ensures Same(Trace(NewParser(k), calls), AllEvents(ms))
    ensures Last(NewParser(k), calls).p == q && AtStart(q, k)
  {
    hide Feed, Join, Chain, MessageOk, AtStart, Reads, Persists, Upgrades, PrintAll, AllEvents;
    var b0 := NewParser(k);
    assert AtStart(b0.p, k) by { NewParserWaits(k); }
    q := PipelineRoundTrip(env, b0.p, ms, k);
    ReadsFeed(env, b0.p, PrintAll(ms), q, AllEvents(ms), k);
    ChainLength(env, b0, parts, calls);
    forall i | 0 <= i < |calls| ensures calls[i].errno.Ok? && calls[i].n == |parts[i]| {
      ChainTracks(env, b0, parts, calls, i);
      ChainLink(env, b0, parts, calls, i);
    }
    ChainTracks(env, b0, parts, calls, |parts| - 1);
    ChainLink(env, b0, parts, calls, |parts| - 1);
  }

  /** And however the callbacks pause: the run goes well, and tells the messages. */
  lemma MessagesInAnyRun(env: Env, ms: seq<Message>, k: Message, sizes: seq<nat>, calls: seq<Call>)
    returns (q: Rec)
    requires Answers(env, 0) && Conversation(env, ms, k)
    requires Feed(env, NewParser(k).p, 0, PrintAll(ms)).peak + 2 * |calls| + 1 <= HTTP_MAX_HEADER_SIZE
    requires Resumed(env, NewParser(k), PrintAll(ms), sizes, calls)
    ensures GoesOn(Last(NewParser(k), calls).errno)
    ensures Same(Trace(NewParser(k), calls), AllEvents(ms))
    ensures Last(NewParser(k), calls).p == q && AtStart(q, k)
  {
    hide Feed, Join, MessageOk, AtStart, Reads, Resumed, PrintAll, AllEvents, Persists, Upgrades, CutRest, Agrees;
    var b := NewParser(k);
    assert AtStart(b.p, k) by { NewParserWaits(k); }
    q := PipelineRoundTrip(env, b.p, ms, k);
    var x := PrintAll(ms);
    ReadsFeed(env, b.p, x, q, AllEvents(ms), k);
    assert !q.state.Dead? && !q.state.ReqLineAlmostDone? by { Waits(q, k); }
    LaxToo(env, b.p, x);
    NeverCut(env, b, x, sizes, calls);
    PausedRun(env, b, x, sizes, calls);
  }

  lemma LaxToo(env: Env, p: Rec, s: string)
    requires !Feed(env, p, 0, s).verdict.Failed?
    ensures Feed(Lax(env), p, 0, s) == Feed(env, p, 0, s) && Agrees(env, p, 0, s)
  {
    hide FeedOn;
    StrictFeed(env, Start(p, 0), s);
  }

  lemma NewParserWaits(k: Message)
    ensures AtStart(NewParser(k).p, k)
  {}

  lemma Waits(q: Rec, k: Message)
    requires AtStart(q, k)
    ensures !q.state.Dead? && !q.state.ReqLineAlmostDone?
  {}
}
