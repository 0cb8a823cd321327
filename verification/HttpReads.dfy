/** Reading an input piece by piece: a small calculus over the byte-wise parser. */
module HttpReads {
  import opened HttpTypes
  import opened HttpStep
  import opened HttpTrace
  import opened HttpFeed
  import opened HttpMarks

  /** The counter does not influence what is read. */
  predicate SameBut(a: Run, b: Run) { a.p == b.p && a.ev == b.ev && a.n == b.n && a.verdict == b.verdict }

  lemma CounterApart(env: Env, p: Rec, h: nat, k: nat, s: string)
    ensures SameBut(Feed(env, p, h, s), Feed(env, p, k, s))
  {
    hide FeedOn;
    FeedCounts(env, Start(p, h), Start(p, k), h, s);
  }

  /** A header line is known to be over only when the next line begins. For a
      record in between: the record, and the callbacks to come, when a byte that
      is neither space nor tab arrives. */
  function AfterLine(p: Rec): (Rec, seq<Event>) {
    if p.state.HeaderValueLws? then
      (p.(flags := TokenFlag(p.hstate, p.flags), state := HeaderFieldStart), [])
    else if p.state.HeaderValueDiscardLws? then
      (p.(flags := TokenFlag(p.hstate, p.flags), state := HeaderFieldStart), [Data(Value, [])])
    else (p, [])
  }

  /** From `p`, the input `s` is read to its end, leads to `q`, and makes the
      callbacks `t`, up to joining. */
  predicate Reads(env: Env, p: Rec, s: string, q: Rec, t: seq<Event>) {
    var f := Feed(env, p, 0, s);
    f.verdict.Running? && AfterLine(f.p).0 == q && Same(f.ev + AfterLine(f.p).1, t)
  }

  predicate Blank(c: char) { c == ' ' || c == '\t' }

  lemma LineEnds(env: Env, p: Rec, ch: char)
    requires !Blank(ch)
    ensures var a := AfterLine(p); var o := Byte(env, a.0, ch);
      Byte(env, p, ch) == o.(ev := a.1 + o.ev)
  {
    hide StepUrl, StepResLine, StepReqLine, StepMethod, StepHeadersDone, StepBody, StepValueStart, ValueStep;
    hide NameStep, Token, TokenFlag, StepHeadersAlmostDone;
    var a := AfterLine(p);
    assert [] + Byte(env, a.0, ch).ev == Byte(env, a.0, ch).ev;
  }

  /** A pending line end can be dealt with at once. */
  lemma {:induction false} AfterLineFeed(env: Env, p: Rec, h: nat, s: string)
    requires s != [] && !Blank(s[0])
    ensures var a := AfterLine(p); var f := Feed(env, a.0, h, s); var g := Feed(env, p, h, s);
      !f.verdict.Failed? ==> g.p == f.p && g.verdict == f.verdict && g.ev == a.1 + f.ev
    decreases |s|
  {
    hide Byte, AfterLine;
    var a := AfterLine(p);
    var t, ch := s[..|s| - 1], s[|s| - 1];
    if t == [] {
      LineEnds(env, p, ch);
      assert s == [ch];
      FeedOne(env, Start(p, h), ch);
      FeedOne(env, Start(a.0, h), ch);
      assert [] + Byte(env, p, ch).ev == Byte(env, p, ch).ev;
      assert [] + Byte(env, a.0, ch).ev == Byte(env, a.0, ch).ev;
    } else {
      AfterLineFeed(env, p, h, t);
      var f := Feed(env, a.0, h, t);
      if f.verdict.Running? {
        var o := Byte(env, f.p, ch);
        assert a.1 + (f.ev + o.ev) == a.1 + f.ev + o.ev;
      }
    }
  }

  lemma Then(env: Env, p: Rec, s: string, q: Rec, t: seq<Event>, u: string, r: Rec, w: seq<Event>)
    requires Reads(env, p, s, q, t) && Reads(env, q, u, r, w)
    requires u != [] && !Blank(u[0])
    ensures Reads(env, p, s + u, r, t + w)
  {
    hide Extend, AfterLine, Join;
    var f := Feed(env, p, 0, s);
    var g := Feed(env, q, 0, u);
    FeedConcat(env, Start(p, 0), s, u);
    FeedCount(env, Start(p, 0), s);
    FeedShift(env, f, u);
    CounterApart(env, f.p, f.h, 0, u);
    AfterLineFeed(env, f.p, 0, u);
    var a := AfterLine(f.p);
    var b := AfterLine(g.p);
    var all := Feed(env, p, 0, s + u);
    assert all.ev == f.ev + (a.1 + g.ev);
    assert all.ev + b.1 == (f.ev + a.1) + (g.ev + b.1);
    SameAfter(f.ev + a.1, t, g.ev + b.1);
    SameBefore(t, g.ev + b.1, w);
    hide FeedOn;
  }

  /** Inside a line, where nothing is pending, any byte may follow. */
  lemma ThenAny(env: Env, p: Rec, s: string, q: Rec, t: seq<Event>, u: string, r: Rec, w: seq<Event>)
    requires Reads(env, p, s, q, t) && Reads(env, q, u, r, w)
    requires !q.state.HeaderFieldStart?
    ensures Reads(env, p, s + u, r, t + w)
  {
    hide Extend, Join;
    var f := Feed(env, p, 0, s);
    var g := Feed(env, q, 0, u);
    FeedConcat(env, Start(p, 0), s, u);
    FeedCount(env, Start(p, 0), s);
    FeedShift(env, f, u);
    CounterApart(env, f.p, f.h, 0, u);
    var b := AfterLine(g.p);
    var all := Feed(env, p, 0, s + u);
    assert f.p == q && f.ev + [] == f.ev;
    assert all.ev + b.1 == f.ev + (g.ev + b.1);
    SameAfter(f.ev, t, g.ev + b.1);
    SameBefore(t, g.ev + b.1, w);
    hide FeedOn;
  }

  /** From `p`, the input `s` is read to its end, which ends a message at `q`. The
      call ends as well if the rest is another protocol. */
  predicate Ends(env: Env, p: Rec, s: string, q: Rec, t: seq<Event>, exit: bool) {
    var f := Feed(env, p, 0, s);
    && f.verdict == (if exit then Exited else Running)
    && f.n == |s| && f.p == q && Same(f.ev, t)
  }

  /** The last byte of a message. */
  lemma EndsBy(env: Env, p: Rec, s: string, q: Rec, t: seq<Event>, ch: char, o: Out)
    requires Reads(env, p, s, q, t) && !q.state.HeaderFieldStart?
    requires Byte(env, q, ch) == o && (o.ctl.Consume? || o.ctl.Exit?)
    ensures Ends(env, p, s + [ch], o.p, t + o.ev, o.ctl.Exit?)
  {
    hide Byte, Join;
    var f := Feed(env, p, 0, s);
    assert f.ev + [] == f.ev;
    FeedSnoc(env, Start(p, 0), s, ch);
    FeedCount(env, Start(p, 0), s);
    SameAfter(f.ev, t, o.ev);
    hide FeedOn;
  }

  /** A message that ends behind something else. */
  lemma ThenEnds(env: Env, p: Rec, s: string, q: Rec, t: seq<Event>, u: string, r: Rec, w: seq<Event>, exit: bool)
    requires Reads(env, p, s, q, t) && Ends(env, q, u, r, w, exit) && !q.state.HeaderFieldStart?
    ensures Ends(env, p, s + u, r, t + w, exit)
  {
    hide Extend, Join;
    var f := Feed(env, p, 0, s);
    assert f.ev + [] == f.ev;
    FeedConcat(env, Start(p, 0), s, u);
    FeedCount(env, Start(p, 0), s);
    FeedShift(env, f, u);
    CounterApart(env, f.p, f.h, 0, u);
    var g := Feed(env, q, 0, u);
    SameAfter(f.ev, t, g.ev);
    SameBefore(t, g.ev, w);
    hide FeedOn;
  }

  /** The same where a header line may be pending. */
  lemma LineThenEnds(env: Env, p: Rec, s: string, q: Rec, t: seq<Event>, u: string, r: Rec, w: seq<Event>, exit: bool)
    requires Reads(env, p, s, q, t) && Ends(env, q, u, r, w, exit) && u != [] && !Blank(u[0])
    ensures Ends(env, p, s + u, r, t + w, exit)
  {
    hide Extend, AfterLine, Join;
    var f := Feed(env, p, 0, s);
    var g := Feed(env, q, 0, u);
    FeedConcat(env, Start(p, 0), s, u);
    FeedCount(env, Start(p, 0), s);
    FeedCount(env, Start(q, 0), u);
    FeedShift(env, f, u);
    CounterApart(env, f.p, f.h, 0, u);
    AfterLineFeed(env, f.p, 0, u);
    FeedCount(env, Start(f.p, 0), u);
    AfterLineCount(env, f.p, u);
    var a := AfterLine(f.p);
    assert f.ev + (a.1 + g.ev) == (f.ev + a.1) + g.ev;
    SameAfter(f.ev + a.1, t, g.ev);
    SameBefore(t, g.ev, w);
    hide FeedOn;
  }

  lemma {:induction false} AfterLineCount(env: Env, p: Rec, s: string)
    requires s != [] && !Blank(s[0])
    ensures var a := AfterLine(p); var f := Feed(env, a.0, 0, s); var g := Feed(env, p, 0, s);
      !f.verdict.Failed? ==> g.n == f.n
    decreases |s|
  {
    hide Byte, AfterLine;
    var a := AfterLine(p);
    var t, ch := s[..|s| - 1], s[|s| - 1];
    if t == [] {
      LineEnds(env, p, ch);
      assert s == [ch];
      FeedOne(env, Start(p, 0), ch);
      FeedOne(env, Start(a.0, 0), ch);
    } else {
      AfterLineCount(env, p, t);
      AfterLineFeed(env, p, 0, t);
    }
  }

  /** A message after which the call goes on. */
  lemma EndsReads(env: Env, p: Rec, s: string, q: Rec, t: seq<Event>)
    requires Ends(env, p, s, q, t, false) && AfterLine(q) == (q, [])
    ensures Reads(env, p, s, q, t)
  {
    hide FeedOn, Join;
    assert Feed(env, p, 0, s).ev + [] == Feed(env, p, 0, s).ev;
  }

  lemma ReadsNothing(env: Env, p: Rec)
    requires AfterLine(p) == (p, [])
    ensures Reads(env, p, [], p, [])
  {}

  /** One byte. */
  lemma ReadsByte(env: Env, p: Rec, ch: char, q: Rec)
    requires Byte(env, p, ch).ctl.Consume? && AfterLine(Byte(env, p, ch).p).0 == q
    ensures Reads(env, p, [ch], q, Byte(env, p, ch).ev + AfterLine(Byte(env, p, ch).p).1)
  {
    hide Byte, AfterLine, Join;
    var o := Byte(env, p, ch);
    FeedOne(env, Start(p, 0), ch);
    assert [] + o.ev == o.ev;
  }

  /** The callbacks may be given in any joined form. */
  lemma Retell(env: Env, p: Rec, s: string, q: Rec, t: seq<Event>, u: seq<Event>)
    requires Reads(env, p, s, q, t) && Same(t, u)
    ensures Reads(env, p, s, q, u)
  {
    hide Feed, Join, AfterLine;
  }

  /** Letters of one kind, closed or not, make up one data callback. */
  lemma JoinClosed(k: Kind, s: string)
    requires s != []
    ensures Same(Letters(k, s) + [Data(k, [])], [Data(k, s)])
    ensures Same(Letters(k, s), [Data(k, s)])
  {
    hide Join, Letters;
    JoinLetters([], k, s);
    assert [] + Letters(k, s) == Letters(k, s) && [] + [Data(k, s)] == [Data(k, s)];
    SameAfter(Letters(k, s), [Data(k, s)], [Data(k, [])]);
    Absorb([Data(k, s)], k);
  }
}
