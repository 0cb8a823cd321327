/** `struct http_parser` and `http_parser_execute`. */
module HttpParser {
  import opened HttpCall
  import opened HttpExecute
  import opened HttpFeed
  import opened HttpMarks
  import opened HttpShape
  import opened HttpStep
  import opened HttpSync
  import opened HttpTrace
  import opened HttpTypes

  /** Longer calls would wrap the 32-bit `nread`. */
  const MAX_CALL: nat := 0x1_0000_0000 - 2 * HTTP_MAX_HEADER_SIZE

  /** What a call on a non-empty buffer promises, in terms of the byte-wise
      reading of the buffer: `(p0, h0, nread0)` before, `(p, h, nread, errno)`
      after, `n` bytes taken, callbacks `t`. */
  ghost predicate CallSpec(env: Env, p0: Rec, h0: nat, nread0: nat, data: string,
                     n: nat, p: Rec, h: nat, nread: nat, errno: Errno, t: seq<Event>)
    requires h0 <= nread0
  {
    var lax := Feed(Lax(env), p0, h0, data);
    var strict := Feed(env, p0, h0, data);
    var off := nread0 - h0;
    && Told(t, lax.ev)
    && match errno
    case Ok =>
      && !lax.verdict.Failed? && n == lax.n && p == lax.p && Same(t, lax.ev)
      && h == lax.h && h <= nread <= h + off + 1 && nread <= HTTP_MAX_HEADER_SIZE
      && lax.peak <= HTTP_MAX_HEADER_SIZE
    case HeaderOverflow => lax.peak + off + 1 > HTTP_MAX_HEADER_SIZE
    case CallbackFailed => Halted(env, p0, h0, data, errno, n, p, t, 0)
    case Paused =>
      && Halted(env, p0, h0, data, errno, n, p, t, h)
      && h <= nread <= h + off + 1 && nread <= HTTP_MAX_HEADER_SIZE
    case _ =>
      && ParseError(errno)
      && strict.verdict.Failed? && strict.n <= n < |data|
      && (env.lenient ==> strict.verdict == Failed(errno) && strict.n == n)
  }

  /** Parsing can go on: the call succeeded, or a callback paused it. */
  predicate GoesOn(e: Errno) { e.Ok? || e.Paused? }

  function InitMarks(s: State): Marks {
    match KindOf(s)
    case Some(k) => Set(NO_MARKS, k, 0)
    case None => NO_MARKS
  }

  lemma AtCallStart(env: Env, p0: Rec, h0: nat, data: string)
    requires Inv(p0)
    ensures Boundary(env, p0, h0, data, Cur(p0, 0, InitMarks(p0.state), []))
    ensures Upto(env, p0, h0, data, 0) == Start(p0, h0)
  {
    hide Inv;
    assert data[..0] == [];
    assert Leftover(InitMarks(p0.state), data, 0) == [];
  }

  /** At most one mark is left when the buffer ends. */
  predicate AtMostOne(m: Marks) {
    (if m.field >= 0 then 1 else 0) + (if m.value >= 0 then 1 else 0) + (if m.url >= 0 then 1 else 0)
    + (if m.body >= 0 then 1 else 0) + (if m.status >= 0 then 1 else 0) <= 1
  }

  lemma OneMark(env: Env, p0: Rec, h0: nat, data: string, c: Cur)
    requires Boundary(env, p0, h0, data, c) && c.i == |data| > 0
    ensures AtMostOne(c.marks)
    ensures forall k {:trigger Get(c.marks, k)} :: Get(c.marks, k) < |data|
  {
    hide Upto, Inv, Leftover, Same;
    forall k ensures Get(c.marks, k) < |data| {
      if c.marks != NO_MARKS && !InBody(c.p.state) {
        assert KindOf(c.p.state).Some?;
      }
    }
  }

  const FLUSH_ORDER := [Field, Value, Url, Body, Status]

  /** What the first `j` of the five callbacks at the buffer's end report. */
  function LeftoverUpto(m: Marks, data: string, j: nat): seq<Event>
    requires j <= 5
  {
    if j == 0 then []
    else LeftoverUpto(m, data, j - 1) + Left(Get(m, FLUSH_ORDER[j - 1]), FLUSH_ORDER[j - 1], data, |data|)
  }

  /** After the one callback there is nothing left. */
  lemma {:induction false} LeftoverStays(m: Marks, data: string, j: nat)
    requires AtMostOne(m) && 0 < j <= 5
    requires exists i :: 0 <= i < j && Get(m, FLUSH_ORDER[i]) >= 0
    ensures LeftoverUpto(m, data, j) == LeftoverUpto(m, data, 5)
    decreases 5 - j
  {
    if j < 5 {
      assert Get(m, FLUSH_ORDER[j]) < 0;
      hide AtMostOne, Get;
      LeftoverStays(m, data, j + 1);
      assert LeftoverUpto(m, data, j) + [] == LeftoverUpto(m, data, j);
    }
  }

  lemma LeftoverAll(m: Marks, data: string)
    ensures LeftoverUpto(m, data, 5) == Leftover(m, data, |data|)
  {
    hide Left;
    var n := |data|;
    assert LeftoverUpto(m, data, 1) == Left(m.field, Field, data, n);
    assert LeftoverUpto(m, data, 2) == LeftoverUpto(m, data, 1) + Left(m.value, Value, data, n);
    assert LeftoverUpto(m, data, 3) == LeftoverUpto(m, data, 2) + Left(m.url, Url, data, n);
    assert LeftoverUpto(m, data, 4) == LeftoverUpto(m, data, 3) + Left(m.body, Body, data, n);
  }

  /** The callbacks for the marks left over, in the order of the source. */
  method Flush(m: Marks, data: string) returns (log: seq<Event>, a: Errno)
    requires AtMostOne(m)
    requires forall k {:trigger Get(m, k)} :: Get(m, k) < |data|
    ensures a.Ok? || a.CallbackFailed? || a.Paused?
    ensures log == Leftover(m, data, |data|)
  {
    hide Leftover, Get, AtMostOne;
    log, a := [], Ok;
    var j := 0;
    while j < 5 && a.Ok?
      invariant 0 <= j <= 5
      invariant a.Ok? || a.CallbackFailed? || a.Paused?
      invariant log == LeftoverUpto(m, data, j)
      invariant a.Ok? || (j > 0 && Get(m, FLUSH_ORDER[j - 1]) >= 0)
    {
      var k := FLUSH_ORDER[j];
      if Get(m, k) >= 0 {
        var e := Data(k, data[Get(m, k)..|data|]);
        log := log + [e];
        a := Answer(e);
      } else {
        assert log + [] == log;
      }
      j := j + 1;
    }
    if !a.Ok? { LeftoverStays(m, data, j); }
    LeftoverAll(m, data);
  }

  class HttpParser {
    var rec: Rec
    var nread: nat
    var errno: Errno
    /** The header bytes read since `nread` was last reset, counted one by one.
        A byte that is read again after a pause, and a stretch of header value
        at whose end the callback pauses, are not counted. */
    ghost var hdr: nat
    /** Every callback made so far. */
    ghost var log: seq<Event>

    /** What holds between calls, as long as parsing can go on. */
    predicate Valid()
      reads this
    {
      GoesOn(errno) ==>
        && Inv(rec)
        && nread <= HTTP_MAX_HEADER_SIZE
        && (rec.state.ChunkSizeStart? ==> nread == 0)
    }

    ghost predicate Counted()
      reads this
    {
      GoesOn(errno) ==> hdr <= nread
    }

    /** `http_parser_init` */
    constructor (t: ParserType)
      ensures Valid() && Counted() && errno == Ok && log == [] && hdr == nread == 0
      ensures rec == InitRec(t) && rec.ptype == t && rec.flags == NO_FLAGS
      ensures rec.state == if t == Request then StartReq else if t == Response then StartRes else StartReqOrRes
    {
      rec := InitRec(t);
      nread := 0;
      errno := Ok;
      hdr := 0;
      log := [];
    }

    /** `http_parser_pause` on a parser that is not in error. */
    method Pause(paused: bool)
      requires Valid() && Counted() && GoesOn(errno)
      modifies this`errno
      ensures Valid() && Counted() && errno == if paused then Paused else Ok
    {
      errno := if paused then Paused else Ok;
    }

    method Execute(env: Env, data: string) returns (n: nat)
      requires Valid() && Counted() && |data| <= MAX_CALL
      modifies this
      ensures Valid() && Counted()
      ensures old(errno) != Ok ==>
                n == 0 && rec == old(rec) && nread == old(nread) && errno == old(errno) && log == old(log)
      ensures old(errno) == Ok && data == [] ==>
                && rec == old(rec) && nread == old(nread)
                && (if old(rec).state.BodyIdentityEof? then
                      n == 0 && log == old(log) + [MessageComplete]
                      && (errno.Ok? || errno.CallbackFailed? || errno.Paused?)
                    else if old(rec).state in {Dead, StartReqOrRes, StartRes, StartReq} then
                      n == 0 && errno == Ok && log == old(log)
                    else n == 1 && errno == InvalidEofState && log == old(log))
      ensures old(errno) == Ok && data != [] ==>
                && old(log) <= log
                && CallSpec(env, old(rec), old(hdr), old(nread), data, n, rec, hdr, nread, errno, log[|old(log)|..])
    {
      if errno != Ok { return 0; }
      if data == [] {
        if rec.state.BodyIdentityEof? {
          log := log + [MessageComplete];
          errno := Answer(MessageComplete);
          return 0;
        }
        if AtRest(rec.state) { return 0; }
        errno := InvalidEofState;
        return 1;
      }
      var m, c, nr;
      ghost var h;
      m, c, nr, h := ReadAll(env, data, rec, nread, hdr);
      rec, nread, n, log, hdr := c.p, nr, c.i, log + c.log, h;
      assert log[|old(log)|..] == c.log;
      match m
      case Stopped(e) => errno := e;
      case _ =>
    }
  }

  /** The states in which the input may end. */
  predicate AtRest(s: State) { s.Dead? || s.StartReqOrRes? || s.StartRes? || s.StartReq? }

  function InitRec(t: ParserType): Rec {
    var s := match t case Request => StartReq case Response => StartRes case Both => StartReqOrRes;
    Rec(t, NO_FLAGS, s, General, 0, 0, 0, 0, 0, DELETE, false)
  }

  /** The loop over the buffer and the callbacks after it. */
  method ReadAll(env: Env, data: string, p0: Rec, nread0: nat, ghost h0: nat)
    returns (m: Move, c: Cur, nread: nat, ghost h: nat)
    requires Inv(p0) && data != []
    requires h0 <= nread0 <= HTTP_MAX_HEADER_SIZE && (p0.state.ChunkSizeStart? ==> nread0 == 0)
    ensures m.Stopped? ==> !m.errno.Ok?
    ensures c.i <= |data|
    ensures !m.Stopped? || m.errno.Paused? ==>
              Inv(c.p) && nread <= HTTP_MAX_HEADER_SIZE && (c.p.state.ChunkSizeStart? ==> nread == 0)
    ensures CallSpec(env, p0, h0, nread0, data, c.i, c.p, h, nread, if m.Stopped? then m.errno else Ok, c.log)
  {
    hide Upto, Boundary, Inv, Feed, Within, Leftover, Same, CallSpec, Moved;
    ghost var off := nread0 - h0;
    m, c, nread, h := Consumed, Cur(p0, 0, InitMarks(p0.state), []), nread0, h0;
    AtCallStart(env, p0, h0, data);
    assert Within(Start(p0, h0), nread0, off, p0.state) by { FirstCount(p0, h0, nread0); }
    assert Upto(env, p0, h0, data, 0).h == h0;
    while c.i < |data|
      invariant Boundary(env, p0, h0, data, c) && c.i <= |data| && m.Consumed?
      invariant Within(Upto(env, p0, h0, data, c.i), nread, Slack(off, c.i, |data|), c.p.state)
      decreases |data| - c.i
    {
      ghost var i := c.i;
      m, c, nread := OnByte(env, data, c, nread, p0, h0, off);
      if !m.Consumed? {
        h := MovedSpec(env, p0, h0, nread0, data, i, m, c, nread);
        return;
      }
      MovedConsumed(env, p0, h0, data, i, off, c, nread);
    }
    OneMark(env, p0, h0, data, c);
    assert AtMostOne(c.marks);
    var left, a := Flush(c.marks, data);
    AtEnd(env, p0, h0, nread0, data, c, nread, a);
    h := Upto(env, p0, h0, data, c.i).h;
    c := c.(log := c.log + left);
    if !a.Ok? { m := Stopped(a); }
  }

  lemma FirstCount(p0: Rec, h0: nat, nread0: nat)
    requires h0 <= nread0 <= HTTP_MAX_HEADER_SIZE && (p0.state.ChunkSizeStart? ==> nread0 == 0)
    ensures Within(Start(p0, h0), nread0, nread0 - h0, p0.state)
    ensures Within(Start(p0, h0), nread0, nread0 - h0 + 1, p0.state)
  {}

  lemma MovedConsumed(env: Env, p0: Rec, h0: nat, data: string, i: nat, off: nat, d: Cur, nread: nat)
    requires Moved(env, p0, h0, data, i, off, Consumed, d, nread)
    ensures i < d.i <= |data| && Boundary(env, p0, h0, data, d)
    ensures Within(Upto(env, p0, h0, data, d.i), nread, Slack(off, d.i, |data|), d.p.state)
  {
    hide Upto, Boundary, Within;
  }

  /** An input whose first part is refused, or ends the call, is as good as that part. */
  lemma FeedPart(env: Env, p0: Rec, h0: nat, data: string, i: nat)
    requires i <= |data| && !Feed(env, p0, h0, data[..i]).verdict.Running?
    ensures Feed(env, p0, h0, data) == Feed(env, p0, h0, data[..i])
    ensures Feed(env, p0, h0, data).n <= i
    ensures Feed(env, p0, h0, data).verdict.Failed? ==> Feed(env, p0, h0, data).n < i
  {
    hide Extend;
    assert data[..i] + data[i..] == data;
    FeedConcat(env, Start(p0, h0), data[..i], data[i..]);
    FeedStopped(env, Feed(env, p0, h0, data[..i]), data[i..]);
    FeedCount(env, Start(p0, h0), data[..i]);
    hide FeedOn;
  }

  lemma MovedSpec(env: Env, p0: Rec, h0: nat, nread0: nat, data: string, i: nat, m: Move, d: Cur, nread: nat)
    returns (h: nat)
    requires h0 <= nread0 && !m.Consumed?
    requires Moved(env, p0, h0, data, i, nread0 - h0, m, d, nread)
    ensures CallSpec(env, p0, h0, nread0, data, d.i, d.p, h, nread, if m.Stopped? then m.errno else Ok, d.log)
    ensures h <= nread || (m.Stopped? && !m.errno.Paused?)
    ensures m.Stopped? ==> !m.errno.Ok?
    ensures d.i <= |data|
    ensures !m.Stopped? || m.errno.Paused? ==>
              Inv(d.p) && nread <= HTTP_MAX_HEADER_SIZE && (d.p.state.ChunkSizeStart? ==> nread == 0)
  {
    hide Feed, Inv, Join, Boundary, Told, Halted;
    assert d.log + [] == d.log;
    h := 0;
    match m
    case Ended =>
      h := Upto(env, p0, h0, data, d.i).h;
      ToldBy(d.log, [], Upto(env, p0, h0, data, d.i).ev, Upto(env, p0, h0, data, d.i).ev);
      FeedPart(Lax(env), p0, h0, data, d.i);
    case Stopped(e) =>
      if ParseError(e) {
        FeedPart(env, p0, h0, data, d.i + 1);
      } else if e.CallbackFailed? || e.Paused? {
        h := HaltedSpec(env, p0, h0, nread0 - h0, data, e, d, nread);
      }
  }

  lemma HaltedSpec(env: Env, p0: Rec, h0: nat, off: nat, data: string, e: Errno, d: Cur, nread: nat)
    returns (h: nat)
    requires Halted(env, p0, h0, data, e, d.i, d.p, d.log, nread - off - 1)
    ensures Halted(env, p0, h0, data, e, d.i, d.p, d.log, h) && Halted(env, p0, h0, data, e, d.i, d.p, d.log, 0)
    ensures h <= nread <= h + off + 1
  {
    hide Upto, Same, Passes;
    var i: nat, k: nat :| HaltedAt(env, p0, h0, data, i, k, e, d.i, d.p, d.log)
                          && nread - off - 1 <= HaltCount(env, p0, h0, data, i, k);
    var count := HaltCount(env, p0, h0, data, i, k);
    hide HaltedAt, HaltCount;
    h := if nread < count then nread else count;
  }

  lemma AtEnd(env: Env, p0: Rec, h0: nat, nread0: nat, data: string, c: Cur, nread: nat, a: Errno)
    requires h0 <= nread0 && (a.Ok? || a.CallbackFailed? || a.Paused?)
    requires Boundary(env, p0, h0, data, c) && c.i == |data|
    requires Within(Upto(env, p0, h0, data, c.i), nread, nread0 - h0 + 1, c.p.state)
    ensures CallSpec(env, p0, h0, nread0, data, c.i, c.p, Upto(env, p0, h0, data, c.i).h, nread, a,
                     c.log + Leftover(c.marks, data, |data|))
    ensures Inv(c.p) && nread <= HTTP_MAX_HEADER_SIZE && (c.p.state.ChunkSizeStart? ==> nread == 0)
  {
    hide Feed, Inv, Join, Leftover, MarksOk, MarkedBefore, Told;
    UptoLength(env, p0, h0, data, c.i);
    var t := c.log + Leftover(c.marks, data, |data|);
    assert t + [] == t;
    ToldBy(t, [], Upto(env, p0, h0, data, c.i).ev, Upto(env, p0, h0, data, c.i).ev);
    assert data[..|data|] == data;
    assert HaltedAt(env, p0, h0, data, |data|, 0, a, |data|, c.p, t);
  }
}
