/** The passes of the loop of `http_parser_execute`, with the header counter, and
    the call as a whole. */
module HttpCall {
  import opened HttpTypes
  import opened HttpStep
  import opened HttpInvariant
  import opened HttpTrace
  import opened HttpFeed
  import opened HttpMarks
  import opened HttpShape
  import opened HttpSync
  import opened HttpExecute

  /** `nread` is at least the number `h` of header bytes since the last reset, at
      most `off` above it, and within the limit; and zero before a chunk size. */
  predicate CountOk(h: nat, nread: nat, off: nat, s: State) {
    && h <= nread <= h + off
    && nread <= HTTP_MAX_HEADER_SIZE
    && (s.ChunkSizeStart? ==> nread == 0)
  }

  /** And it has never been above the limit. */
  predicate Within(r: Run, nread: nat, off: nat, s: State) {
    CountOk(r.h, nread, off, s) && r.peak <= HTTP_MAX_HEADER_SIZE
  }

  /** The buffer's end inside a header name or value is counted twice. */
  function Slack(off: nat, i: nat, n: nat): nat { if i == n then off + 1 else off }

  /** The outcome of a pass that began at `i`. */
  ghost predicate Moved(env: Env, p0: Rec, h0: nat, data: string, i: nat, off: nat, m: Move, d: Cur, nread: nat) {
    && d.i <= |data|
    && match m
       case Consumed =>
         i < d.i && Boundary(env, p0, h0, data, d)
         && Within(Upto(env, p0, h0, data, d.i), nread, Slack(off, d.i, |data|), d.p.state)
       case Ended =>
         var q := Upto(env, p0, h0, data, d.i);
         q.verdict.Exited? && q.n == d.i && q.p == d.p && Inv(d.p) && Same(d.log, q.ev)
         && Within(q, nread, Slack(off, d.i, |data|), d.p.state)
       case Stopped(e) =>
         && Told(d.log, Feed(Lax(env), p0, h0, data).ev)
         && if e.CallbackFailed? || e.Paused? then
           && Inv(d.p) && nread <= HTTP_MAX_HEADER_SIZE && (d.p.state.ChunkSizeStart? ==> nread == 0)
           && Halted(env, p0, h0, data, e, d.i, d.p, d.log, nread - off - 1)
         else if e.HeaderOverflow? then
           Feed(Lax(env), p0, h0, data).peak + off + 1 > HTTP_MAX_HEADER_SIZE
         else
           && ParseError(e) && d.i < |data|
           && Feed(env, p0, h0, data[..d.i + 1]).verdict.Failed?
           && (env.lenient ==> var q := Upto(env, p0, h0, data, d.i + 1); q.verdict == Failed(e) && q.n == d.i)
  }

  lemma SettledMoved(env: Env, p0: Rec, h0: nat, data: string, i: nat, j: nat, off: nat, m: Move, d: Cur,
                     reset: bool, nr: nat)
    requires i <= j && Settled(env, p0, h0, data, j, m, d, reset)
    requires var r := Upto(env, p0, h0, data, j);
      nr <= Count(r.h, r.p.state) + off && (m.Stopped? || Count(r.h, r.p.state) <= nr)
    requires nr <= HTTP_MAX_HEADER_SIZE
    requires m.Stopped? || Upto(env, p0, h0, data, j).peak <= HTTP_MAX_HEADER_SIZE
    ensures Moved(env, p0, h0, data, i, off, m, d, if reset then 0 else nr)
  {
    hide Upto, Boundary, Inv, Same, Count, Feed, Told, Halted;
    if !m.Stopped? { SettledPeak(env, p0, h0, data, j, m, d, reset); }
    SettledTold(env, p0, h0, data, j, m, d, reset);
    var r := Upto(env, p0, h0, data, j);
    var nread := if reset then 0 else nr;
    if m.Stopped? && (m.errno.CallbackFailed? || m.errno.Paused?) {
      var low := (if reset then 0 else Count(r.h, r.p.state)) - 1;
      HaltedLess(env, p0, h0, data, m.errno, d.i, d.p, d.log, low, nread - off - 1);
      HaltedInside(env, p0, h0, data, m.errno, d.i, d.p, d.log, low);
    }
    if m.Stopped? && !m.errno.CallbackFailed? && !m.errno.Paused? {
      StrictUpto(env, p0, h0, data, j);
    }
  }

  lemma SettledPeak(env: Env, p0: Rec, h0: nat, data: string, j: nat, m: Move, d: Cur, reset: bool)
    requires Settled(env, p0, h0, data, j, m, d, reset) && !m.Stopped?
    ensures var r, q := Upto(env, p0, h0, data, j), Upto(env, p0, h0, data, d.i);
      q.peak <= Max(r.peak, Count(r.h, r.p.state))
  {
    hide Upto, Boundary, Inv, Same, Byte, Count;
    UptoNext(env, p0, h0, data, j);
  }

  lemma HaltedInside(env: Env, p0: Rec, h0: nat, data: string, e: Errno, n: nat, p: Rec, t: seq<Event>, low: int)
    requires Halted(env, p0, h0, data, e, n, p, t, low)
    ensures n <= |data|
  {
    hide Upto, Passes, Same;
  }

  lemma SettledTold(env: Env, p0: Rec, h0: nat, data: string, j: nat, m: Move, d: Cur, reset: bool)
    requires Settled(env, p0, h0, data, j, m, d, reset)
    ensures Told(d.log, Feed(Lax(env), p0, h0, data).ev)
  {
    hide Boundary, Inv, FeedOn, Join, Told;
    UptoGrows(env, p0, h0, data, j + 1);
    match m
    case Consumed => BoundaryTold(env, p0, h0, data, d);
    case Ended =>
      assert d.log + [] == d.log;
      ToldBy(d.log, [], Upto(env, p0, h0, data, j + 1).ev, Feed(Lax(env), p0, h0, data).ev);
    case Stopped(e) => ToldMore(d.log, Upto(env, p0, h0, data, j + 1).ev, Feed(Lax(env), p0, h0, data).ev);
  }

  lemma StrictUpto(env: Env, p0: Rec, h0: nat, data: string, j: nat)
    requires j < |data| && Upto(env, p0, h0, data, j + 1).verdict.Failed?
    ensures Feed(env, p0, h0, data[..j + 1]).verdict.Failed?
  {
    hide FeedOn;
    StrictFeed(env, Start(p0, h0), data[..j + 1]);
  }

  lemma Overflow(env: Env, p0: Rec, h0: nat, data: string, i: nat, nread: nat, off: nat)
    requires i <= |data| && nread > HTTP_MAX_HEADER_SIZE && nread <= Upto(env, p0, h0, data, i).h + 1 + off
    ensures Feed(Lax(env), p0, h0, data).peak + off + 1 > HTTP_MAX_HEADER_SIZE
  {
    hide FeedOn;
    UptoPeak(env, p0, h0, data, i);
  }

  /** A state that takes single bytes; `nr` counts the current byte. */
  method OnSingle(env: Env, data: string, c: Cur, nr: nat, ghost p0: Rec, ghost h0: nat, ghost off: nat)
    returns (m: Move, d: Cur, nread: nat)
    requires Boundary(env, p0, h0, data, c) && c.i < |data| && Single(c.p.state, data[c.i])
    requires var h := Count(Upto(env, p0, h0, data, c.i).h, c.p.state); h <= nr <= h + off
    requires nr <= HTTP_MAX_HEADER_SIZE && Upto(env, p0, h0, data, c.i).peak <= HTTP_MAX_HEADER_SIZE
    ensures Moved(env, p0, h0, data, c.i, off, m, d, nread)
  {
    hide Told, Upto, Inv, Same, Count, Feed, Mid, Settled, Moved, MarksOk, Leftover, Single;
    Begin(env, p0, h0, data, c);
    var reset;
    m, d, reset := Settle(env, data, c, p0, h0, []);
    SettledMoved(env, p0, h0, data, c.i, c.i, off, m, d, reset, nr);
    nread := if reset then 0 else nr;
  }

  /** `case s_header_field` */
  method OnHeaderField(env: Env, data: string, c: Cur, nr: nat, ghost p0: Rec, ghost h0: nat, ghost off: nat)
    returns (m: Move, d: Cur, nread: nat)
    requires Boundary(env, p0, h0, data, c) && c.i < |data| && c.p.state.HeaderField?
    requires var h := Upto(env, p0, h0, data, c.i).h + 1; h <= nr <= h + off
    requires nr <= HTTP_MAX_HEADER_SIZE && Upto(env, p0, h0, data, c.i).peak <= HTTP_MAX_HEADER_SIZE
    ensures Moved(env, p0, h0, data, c.i, off, m, d, nread)
  {
    hide Told, Upto, Inv, Same, Feed, FeedOn, Mid, Settled, MarksOk, Leftover, Letters, Byte, Token;
    ghost var r := Upto(env, p0, h0, data, c.i);
    UptoPeak(env, p0, h0, data, c.i);
    BoundaryTold(env, p0, h0, data, c);
    var q, j := FieldLoop(env, c.p, data, c.i, r);
    m, d, nread := Consumed, Cur(q, j, c.marks, c.log), nr + (j - c.i);
    if j > c.i {
      SpreadBoundary(env, p0, h0, data, c, j, q, Field, c.marks);
    } else {
      FeedNothing(Lax(env), r);
      assert data[c.i..j] == [];
      SpreadNone(r, Field);
      d := c;
    }
    if nread > HTTP_MAX_HEADER_SIZE {
      Overflow(env, p0, h0, data, j, nread, off);
      m := Stopped(HeaderOverflow);
      return;
    }
    if j < |data| {
      m, d, nread := OnSingle(env, data, d, nread, p0, h0, off);
      MovedFrom(env, p0, h0, data, c.i, j, off, m, d, nread);
    }
  }

  lemma MovedFrom(env: Env, p0: Rec, h0: nat, data: string, i: nat, j: nat, off: nat, m: Move, d: Cur, nread: nat)
    requires i <= j && Moved(env, p0, h0, data, j, off, m, d, nread)
    ensures Moved(env, p0, h0, data, i, off, m, d, nread)
  {
    hide Upto, Boundary, Inv, Same, Feed;
  }

  lemma RefusedValue(env: Env, p0: Rec, h0: nat, data: string, q: Rec, j: nat, e: Errno)
    requires j < |data| && data[j] != CR && data[j] != LF && q.state.HeaderValue? && Inv(q)
    requires var r := Upto(env, p0, h0, data, j); r.verdict.Running? && r.p == q
    requires || (e == InvalidHeaderToken && !env.lenient && !IsHeaderChar(data[j]))
             || ValueStep(q, data[j]).ctl == Fail(e)
    ensures Feed(env, p0, h0, data[..j + 1]).verdict.Failed?
    ensures env.lenient ==> Upto(env, p0, h0, data, j + 1).verdict == Failed(e)
    ensures env.lenient ==> Upto(env, p0, h0, data, j + 1).n == j
  {
    hide Inv, ValueStep, FeedOn;
    var s := data[..j];
    assert data[..j + 1] == s + [data[j]];
    FeedSnoc(env, Start(p0, h0), s, data[j]);
    StrictFeed(env, Start(p0, h0), s);
    ValueByte(env, q, data[j]);
    RefusedByte(env, q, data[j], e);
    if env.lenient {
      UptoNext(env, p0, h0, data, j);
      UptoLength(env, p0, h0, data, j);
    }
  }

  lemma RefusedByte(env: Env, q: Rec, ch: char, e: Errno)
    requires ch != CR && ch != LF && q.state.HeaderValue?
    requires || (e == InvalidHeaderToken && !env.lenient && !IsHeaderChar(ch))
             || ValueStep(q, ch).ctl == Fail(e)
    ensures Byte(env, q, ch).ctl.Fail?
    ensures env.lenient ==> Byte(env, q, ch).ctl == Fail(e)
  {
    hide ValueStep, StepUrl, StepResLine, StepReqLine, StepMethod, StepHeadersDone, StepBody, MethodString;
    hide IsHeaderChar;
  }

  lemma BoundaryFacts(env: Env, p0: Rec, h0: nat, data: string, c: Cur)
    requires Boundary(env, p0, h0, data, c)
    ensures Inv(c.p) && Upto(env, p0, h0, data, c.i).verdict.Running? && Upto(env, p0, h0, data, c.i).p == c.p
  {
    hide Inv, Upto, Same, MarksOk, Leftover;
  }

  /** When the search gives up, more than the limit was read already. */
  lemma FarOverflow(env: Env, p0: Rec, h0: nat, data: string, far: nat, off: nat)
    requires far < |data|
    requires var r := Upto(env, p0, h0, data, far);
      r.verdict.Running? && r.p.state.HeaderValue? && r.h >= HTTP_MAX_HEADER_SIZE
    ensures Feed(Lax(env), p0, h0, data).peak + off + 1 > HTTP_MAX_HEADER_SIZE
  {
    hide Byte, Feed;
    UptoNext(env, p0, h0, data, far);
    UptoPeak(env, p0, h0, data, far + 1);
    hide Upto;
  }

  /** `case s_header_value` */
  method OnHeaderValue(env: Env, data: string, c: Cur, nr: nat, ghost p0: Rec, ghost h0: nat, ghost off: nat)
    returns (m: Move, d: Cur, nread: nat)
    requires Boundary(env, p0, h0, data, c) && c.i < |data| && c.p.state.HeaderValue?
    requires var h := Upto(env, p0, h0, data, c.i).h + 1; h <= nr <= h + off
    requires nr <= HTTP_MAX_HEADER_SIZE && Upto(env, p0, h0, data, c.i).peak <= HTTP_MAX_HEADER_SIZE
    ensures Moved(env, p0, h0, data, c.i, off, m, d, nread)
  {
    hide Told, Upto, Inv, Same, Feed, FeedOn, Mid, MarksOk, Leftover, Letters, Byte, IsHeaderChar, ValueStep;
    hide Boundary, Settled;
    ghost var r := Upto(env, p0, h0, data, c.i);
    assert r.verdict.Running? && r.p == c.p && Inv(c.p) by { BoundaryFacts(env, p0, h0, data, c); }
    UptoPeak(env, p0, h0, data, c.i);
    BoundaryTold(env, p0, h0, data, c);
    ghost var far;
    var q, j, bad;
    q, j, bad, far := ValueLoop(env, c.p, data, c.i, r);
    m, d, nread := Consumed, Cur(q, j, c.marks, c.log), nr;
    if far > c.i {
      SpreadBoundary(env, p0, h0, data, c, far, q, Value, c.marks);
      BoundaryFacts(env, p0, h0, data, Cur(q, far, c.marks, c.log));
    } else {
      FeedNothing(Lax(env), r);
      assert data[c.i..far] == [];
      SpreadNone(r, Value);
      assert q == r.p;
    }
    if bad.Some? {
      RefusedValue(env, p0, h0, data, q, j, bad.value);
      m := Stopped(bad.value);
      return;
    }
    assert j == c.i ==> d == c;
    if j < |data| && data[j] == CR {
      // the callback is made before the stretch is counted
      Begin(env, p0, h0, data, d);
      var reset;
      m, d, reset := Settle(env, data, d, p0, h0, []);
      if !m.Stopped? {
        nread := nr + (j - c.i);
        if nread > HTTP_MAX_HEADER_SIZE {
          Overflow(env, p0, h0, data, j, nread, off);
          SettledTold(env, p0, h0, data, j, m, d, reset);
          m, d := Stopped(HeaderOverflow), d.(i := j);
          return;
        }
      }
      SettledMoved(env, p0, h0, data, c.i, j, off, m, d, reset, nread);
      nread := if reset then 0 else nread;
    } else {
      nread := nr + (j - c.i);
      if nread > HTTP_MAX_HEADER_SIZE {
        if far < j {
          FarOverflow(env, p0, h0, data, far, off);
        } else {
          Overflow(env, p0, h0, data, j, nread, off);
        }
        m := Stopped(HeaderOverflow);
        return;
      }
      if j < |data| {
        m, d, nread := OnSingle(env, data, d, nread, p0, h0, off);
        MovedFrom(env, p0, h0, data, c.i, j, off, m, d, nread);
      }
    }
  }

  // ----- bodies -----

  /** The last byte of an identity body is seen again once it was delivered. */
  lemma LastBodyByte(env: Env, p0: Rec, h0: nat, data: string, c: Cur, marks: Marks)
    requires Boundary(env, p0, h0, data, c) && c.i < |data|
    requires c.p.state.BodyIdentity? && c.p.contentLength == 1 && MarksFor(c, Body, marks)
    ensures 0 <= marks.body <= c.i
    ensures var q := c.p.(contentLength := 0, state := MessageDone);
      var log := c.log + [Data(Body, data[marks.body..c.i + 1])];
      Mid(env, p0, h0, data, Cur(q, c.i, NO_MARKS, log), [Data(Body, [data[c.i]])])
  {
    hide Upto, Leftover, Join, Letters, Inv, Byte, KindOf;
    var ch := data[c.i];
    var r := Upto(env, p0, h0, data, c.i);
    LastByteStep(Lax(env), c.p, ch);
    StretchTrace(c, Body, marks, data, r.ev, c.i + 1);
    LeftoverBefore(c, Body, marks, data);
    LeftoverOne(marks, Body, data, c.i + 1);
    assert data[c.i..c.i + 1] == [ch];
    LettersOne(Body, ch);
    var q := c.p.(contentLength := 0, state := MessageDone);
    var log := c.log + [Data(Body, data[marks.body..c.i + 1])];
    var d := Cur(q, c.i, NO_MARKS, log);
    LeftoverNone(d.marks, data, d.i);
    assert log + [] == log;
    DoneMarks(d);
  }

  lemma DoneMarks(d: Cur)
    requires d.marks == NO_MARKS && (d.p.state.MessageDone? || d.p.state.ChunkDataDone?)
    ensures MarksOk(d) && MarkedBefore(d)
  {}

  lemma LastStep(env: Env, p: Rec, ch: char)
    requires p.state.BodyIdentity? && p.contentLength == 1 && Inv(p)
    ensures var q := p.(contentLength := 0, state := MessageDone);
      Step(env, p, ch) == RedoWith(q, Data(Body, [ch])) && Inv(q)
  {
    hide StepUrl, StepResLine, StepReqLine, StepMethod, StepHeadersDone, StepHeadersAlmostDone, StepHeader;
    hide MethodString, NameStateOk, ValueStateOk;
  }

  lemma LastByteStep(env: Env, p: Rec, ch: char)
    requires p.state.BodyIdentity? && p.contentLength == 1 && Inv(p)
    ensures var q := p.(contentLength := 0, state := MessageDone);
      && Byte(env, p, ch) == Prefixed([Data(Body, [ch])], Byte(env, q, ch))
      && Passes(env, p, ch, 1) == Out(q, [Data(Body, [ch])], Again, false)
      && Inv(q)
  {
    hide Step, Inv;
    var q := p.(contentLength := 0, state := MessageDone);
    LastStep(env, p, ch);
    ByteAgain(env, p, ch, []);
    PassesOne(env, p, ch);
    var o := Byte(env, q, ch);
    assert [] + Byte(env, p, ch).ev == Byte(env, p, ch).ev;
    assert [] + [Data(Body, [ch])] == [Data(Body, [ch])];
  }

  /** A stretch of body bytes from `c.i` to `j` after which the body goes on. */
  lemma BodyStretch(env: Env, p0: Rec, h0: nat, data: string, c: Cur, j: nat)
    requires Boundary(env, p0, h0, data, c) && c.i < j <= |data|
    requires c.p.state.BodyIdentity? || c.p.state.ChunkData?
    requires j - c.i < c.p.contentLength
    ensures var q := c.p.(contentLength := c.p.contentLength - (j - c.i));
      && Boundary(env, p0, h0, data, Cur(q, j, MarkAt(c.marks, Body, c.i), c.log))
      && Upto(env, p0, h0, data, j).h == Upto(env, p0, h0, data, c.i).h
      && Upto(env, p0, h0, data, j).peak == Upto(env, p0, h0, data, c.i).peak
  {
    hide Upto, Boundary, Leftover, Join, Letters, Inv, Byte, KindOf, FeedOn;
    BoundaryFacts(env, p0, h0, data, c);
    UptoPeak(env, p0, h0, data, c.i);
    var r := Upto(env, p0, h0, data, c.i);
    BodyRun(Lax(env), r, data[c.i..j]);
    var q := c.p.(contentLength := c.p.contentLength - (j - c.i));
    SpreadBoundary(env, p0, h0, data, c, j, q, Body, MarkAt(c.marks, Body, c.i));
  }

  /** The last byte of the body: it is delivered with all that is marked, and
      re-executed. */
  method OnLastBodyByte(env: Env, data: string, c: Cur, nr: nat, ghost p0: Rec, ghost h0: nat, ghost off: nat)
    returns (m: Move, d: Cur, nread: nat)
    requires Boundary(env, p0, h0, data, c) && c.i < |data|
    requires c.p.state.BodyIdentity? && c.p.contentLength == 1
    requires Within(Upto(env, p0, h0, data, c.i), nr, off, c.p.state)
    ensures Moved(env, p0, h0, data, c.i, off, m, d, nread)
  {
    hide Told, Upto, Boundary, Leftover, Inv, Byte, KindOf, Settled, Mid, Same, Feed, Only, MarksOk;
    BoundaryFacts(env, p0, h0, data, c);
    var marks := MarkAt(c.marks, Body, c.i);
    LastBodyByte(env, p0, h0, data, c, marks);
    m, nread := Consumed, nr;
    d := Cur(c.p.(contentLength := 0, state := MessageDone), c.i, NO_MARKS,
             c.log + [Data(Body, data[marks.body..c.i + 1])]);
    var answer := Answer(d.log[|c.log|]);
    if !answer.Ok? {
      m := Stopped(answer);
      MidInv(env, p0, h0, data, d, [Data(Body, [data[c.i]])]);
      MidTold(env, p0, h0, data, d, [Data(Body, [data[c.i]])]);
      UptoGrows(env, p0, h0, data, c.i + 1);
      ToldMore(d.log, Upto(env, p0, h0, data, c.i + 1).ev, Feed(Lax(env), p0, h0, data).ev);
      LastByteHalts(env, p0, h0, data, c, d, answer, nr - off);
      return;
    }
    var reset;
    m, d, reset := Settle(env, data, d, p0, h0, [Data(Body, [data[c.i]])]);
    SettledMoved(env, p0, h0, data, c.i, c.i, off, m, d, reset, nr);
    nread := if reset then 0 else nr;
  }

  lemma LastByteHalts(env: Env, p0: Rec, h0: nat, data: string, c: Cur, d: Cur, e: Errno, low: int)
    requires Boundary(env, p0, h0, data, c) && c.i < |data|
    requires c.p.state.BodyIdentity? && c.p.contentLength == 1 && low <= Upto(env, p0, h0, data, c.i).h
    requires Mid(env, p0, h0, data, d, [Data(Body, [data[c.i]])]) && d.i == c.i && d.marks == NO_MARKS
    requires d.p == c.p.(contentLength := 0, state := MessageDone)
    ensures Halted(env, p0, h0, data, e, d.i, d.p, d.log, low)
  {
    hide Upto, Leftover, Inv, Byte, Same, Passes;
    LeftoverNone(d.marks, data, d.i);
    assert d.log + [] == d.log;
    LastByteStep(Lax(env), c.p, data[c.i]);
    assert HaltedAt(env, p0, h0, data, c.i, 1, e, d.i, d.p, d.log);
  }

  /** `case s_body_identity` */
  method OnBodyIdentity(env: Env, data: string, c: Cur, nr: nat, ghost p0: Rec, ghost h0: nat, ghost off: nat)
    returns (m: Move, d: Cur, nread: nat)
    requires Boundary(env, p0, h0, data, c) && c.i < |data| && c.p.state.BodyIdentity?
    requires Within(Upto(env, p0, h0, data, c.i), nr, off, c.p.state)
    ensures Moved(env, p0, h0, data, c.i, off, m, d, nread)
  {
    hide Told, Upto, Boundary, Inv, Feed, Moved, KindOf;
    assert 0 < c.p.contentLength by { BoundaryFacts(env, p0, h0, data, c); IdentityInv(c.p); }
    var toRead := if c.p.contentLength < |data| - c.i then c.p.contentLength else |data| - c.i;
    m, d, nread := Consumed, c, nr;
    if c.p.contentLength - toRead != 0 {
      BodyStretch(env, p0, h0, data, c, c.i + toRead);
      d := Cur(c.p.(contentLength := c.p.contentLength - toRead), c.i + toRead, MarkAt(c.marks, Body, c.i), c.log);
      BodyMoved(env, p0, h0, data, c.i, off, d, nread);
    } else {
      if toRead > 1 {
        BodyStretch(env, p0, h0, data, c, c.i + toRead - 1);
        d := Cur(c.p.(contentLength := 1), c.i + toRead - 1, MarkAt(c.marks, Body, c.i), c.log);
      }
      m, d, nread := OnLastBodyByte(env, data, d, nr, p0, h0, off);
      MovedFrom(env, p0, h0, data, c.i, c.i + toRead - 1, off, m, d, nread);
    }
  }

  lemma BodyMoved(env: Env, p0: Rec, h0: nat, data: string, i: nat, off: nat, d: Cur, nread: nat)
    requires i < d.i && Boundary(env, p0, h0, data, d)
    requires Within(Upto(env, p0, h0, data, d.i), nread, off, d.p.state)
    ensures Moved(env, p0, h0, data, i, off, Consumed, d, nread)
  {
    hide Upto, Inv, Same, MarksOk, Leftover;
  }

  lemma IdentityInv(p: Rec)
    requires Inv(p) && (p.state.BodyIdentity? || p.state.ChunkData?)
    ensures 0 < p.contentLength < ULLONG_MAX
  {}

  lemma MidInv(env: Env, p0: Rec, h0: nat, data: string, c: Cur, ev: seq<Event>)
    requires Mid(env, p0, h0, data, c, ev)
    ensures Inv(c.p)
  {
    hide Upto, Same, MarksOk, Leftover, Byte;
  }

  /** `case s_chunk_data` */
  method OnChunkData(env: Env, data: string, c: Cur, nr: nat, ghost p0: Rec, ghost h0: nat, ghost off: nat)
    returns (m: Move, d: Cur, nread: nat)
    requires Boundary(env, p0, h0, data, c) && c.i < |data| && c.p.state.ChunkData?
    requires Within(Upto(env, p0, h0, data, c.i), nr, off, c.p.state)
    ensures Moved(env, p0, h0, data, c.i, off, m, d, nread)
  {
    hide Told, Upto, Boundary, Leftover, Join, Letters, Inv, Byte, KindOf, FeedOn, Settled, Mid, Same, Feed;
    BoundaryFacts(env, p0, h0, data, c);
    assert 0 < c.p.contentLength by { IdentityInv(c.p); }
    var toRead := if c.p.contentLength < |data| - c.i then c.p.contentLength else |data| - c.i;
    var j := c.i + toRead;
    var marks := MarkAt(c.marks, Body, c.i);
    m, nread := Consumed, nr;
    var q := c.p.(contentLength := c.p.contentLength - toRead);
    if q.contentLength != 0 {
      BodyStretch(env, p0, h0, data, c, j);
    } else {
      q := q.(state := ChunkDataAlmostDone);
      UptoPeak(env, p0, h0, data, c.i);
      ChunkRun(Lax(env), Upto(env, p0, h0, data, c.i), data[c.i..j]);
      SpreadBoundary(env, p0, h0, data, c, j, q, Body, marks);
    }
    d := Cur(q, j, marks, c.log);
  }

  /** `case s_body_identity_eof` */
  method OnBodyEof(env: Env, data: string, c: Cur, nr: nat, ghost p0: Rec, ghost h0: nat, ghost off: nat)
    returns (m: Move, d: Cur, nread: nat)
    requires Boundary(env, p0, h0, data, c) && c.i < |data| && c.p.state.BodyIdentityEof?
    requires Within(Upto(env, p0, h0, data, c.i), nr, off, c.p.state)
    ensures Moved(env, p0, h0, data, c.i, off, m, d, nread)
  {
    hide Told, Upto, Boundary, Leftover, Join, Letters, Inv, Byte, KindOf, FeedOn, Settled, Mid, Same, Feed;
    BoundaryFacts(env, p0, h0, data, c);
    UptoPeak(env, p0, h0, data, c.i);
    m, nread := Consumed, nr;
    d := Cur(c.p, |data|, MarkAt(c.marks, Body, c.i), c.log);
    EofRun(Lax(env), Upto(env, p0, h0, data, c.i), data[c.i..|data|]);
    SpreadBoundary(env, p0, h0, data, c, |data|, c.p, Body, d.marks);
  }

  lemma ChunkEndByte(env: Env, p: Rec, ch: char)
    requires p.state.ChunkDataAlmostDone? && Inv(p)
    ensures ch != CR ==> Byte(env, p, ch).ctl == Fail(Strict)
    ensures ch == CR ==> Byte(env, p, ch) == Go(p.(state := ChunkDataDone)) && Inv(p.(state := ChunkDataDone))
  {
    hide StepUrl, StepResLine, StepReqLine, StepMethod, StepHeadersDone, StepHeader, MethodString;
  }

  lemma ChunkEndHalts(env: Env, p0: Rec, h0: nat, data: string, c: Cur, d: Cur, e: Errno, low: int)
    requires Boundary(env, p0, h0, data, c) && c.i < |data|
    requires c.p.state.ChunkDataAlmostDone? && data[c.i] == CR && low <= Upto(env, p0, h0, data, c.i).h
    requires d.i == c.i + 1 && d.p == c.p.(state := ChunkDataDone)
    requires Same(d.log, Upto(env, p0, h0, data, c.i).ev)
    ensures Halted(env, p0, h0, data, e, d.i, d.p, d.log, low)
  {
    hide Upto, Leftover, Inv, Byte, Same, StepUrl, StepResLine, StepReqLine, StepMethod, StepHeadersDone, StepHeader;
    hide StepHeadersAlmostDone, NewMessage;
    var r := Upto(env, p0, h0, data, c.i);
    assert r.ev + [] == r.ev;
    PassesOne(Lax(env), c.p, CR);
    assert Step(Lax(env), c.p, CR) == Go(d.p);
    hide Passes, Step;
    assert HaltedAt(env, p0, h0, data, c.i, 1, e, d.i, d.p, d.log);
  }

  /** `case s_chunk_data_almost_done` */
  method OnChunkDataAlmostDone(env: Env, data: string, c: Cur, nr: nat, ghost p0: Rec, ghost h0: nat, ghost off: nat)
    returns (m: Move, d: Cur, nread: nat)
    requires Boundary(env, p0, h0, data, c) && c.i < |data| && c.p.state.ChunkDataAlmostDone?
    requires Within(Upto(env, p0, h0, data, c.i), nr, off, c.p.state)
    ensures Moved(env, p0, h0, data, c.i, off, m, d, nread)
  {
    hide Told, Upto, Join, Letters, Inv, Byte, KindOf, FeedOn, Settled, Feed, Leftover;
    m, d, nread := Consumed, c, nr;
    var q := c.p.(state := ChunkDataDone);
    ChunkEndByte(Lax(env), c.p, data[c.i]);
    UptoNext(env, p0, h0, data, c.i);
    UptoLength(env, p0, h0, data, c.i);
    if data[c.i] != CR {
      m := Stopped(Strict);
      BoundaryTold(env, p0, h0, data, c);
      StrictUpto(env, p0, h0, data, c.i);
      return;
    }
    ghost var r := Upto(env, p0, h0, data, c.i);
    assert r.ev + [] == r.ev;
    var log := c.log;
    if c.marks.body >= 0 {
      LeftoverOne(c.marks, Body, data, c.i);
      log := c.log + [Data(Body, data[c.marks.body..c.i])];
    } else {
      LeftoverNone(c.marks, data, c.i);
      assert c.log + [] == c.log;
    }
    d := Cur(q, c.i + 1, NO_MARKS, log);
    DoneMarks(d);
    LeftoverNone(d.marks, data, d.i);
    assert log + [] == log;
    if c.marks.body >= 0 {
      var answer := Answer(log[|c.log|]);
      if !answer.Ok? {
        m := Stopped(answer);
        BoundaryTold(env, p0, h0, data, d);
        ChunkEndHalts(env, p0, h0, data, c, d, answer, nread - off);
      }
    }
  }

  // ----- one iteration, and the loop -----

  /** The body of the `for` loop. */
  method OnByte(env: Env, data: string, c: Cur, nread0: nat, ghost p0: Rec, ghost h0: nat, ghost off: nat)
    returns (m: Move, d: Cur, nread: nat)
    requires Boundary(env, p0, h0, data, c) && c.i < |data|
    requires Within(Upto(env, p0, h0, data, c.i), nread0, off, c.p.state)
    ensures Moved(env, p0, h0, data, c.i, off, m, d, nread)
  {
    hide Told, Upto, Boundary, Inv, Feed, Token, Moved;
    m, d, nread := Consumed, c, nread0;
    if ParsingHeader(c.p.state) {
      nread := nread + 1;
      if nread > HTTP_MAX_HEADER_SIZE {
        Overflow(env, p0, h0, data, c.i, nread, off);
        BoundaryTold(env, p0, h0, data, c);
        m := Stopped(HeaderOverflow);
        assert Moved(env, p0, h0, data, c.i, off, m, d, nread) by {
          OverflowMoved(env, p0, h0, data, c.i, off, d, nread);
        }
        return;
      }
    }
    // assert(parser->nread == 1) at the start of a chunk size, and the other assertions
    assert c.p.state.ChunkSizeStart? ==> nread == 1;
    assert Asserted(c.p) by { BoundaryFacts(env, p0, h0, data, c); AssertionsHold(c.p); }
    match c.p.state
    case HeaderField => m, d, nread := OnHeaderField(env, data, c, nread, p0, h0, off);
    case HeaderValue => m, d, nread := OnHeaderValue(env, data, c, nread, p0, h0, off);
    case BodyIdentity => m, d, nread := OnBodyIdentity(env, data, c, nread, p0, h0, off);
    case BodyIdentityEof => m, d, nread := OnBodyEof(env, data, c, nread, p0, h0, off);
    case ChunkData => m, d, nread := OnChunkData(env, data, c, nread, p0, h0, off);
    case ChunkDataAlmostDone => m, d, nread := OnChunkDataAlmostDone(env, data, c, nread, p0, h0, off);
    case _ => m, d, nread := OnSingle(env, data, c, nread, p0, h0, off);
  }

  lemma OverflowMoved(env: Env, p0: Rec, h0: nat, data: string, i: nat, off: nat, d: Cur, nread: nat)
    requires d.i <= |data| && Feed(Lax(env), p0, h0, data).peak + off + 1 > HTTP_MAX_HEADER_SIZE
    requires Told(d.log, Feed(Lax(env), p0, h0, data).ev)
    ensures Moved(env, p0, h0, data, i, off, Stopped(HeaderOverflow), d, nread)
  {
    hide Upto, Feed;
  }
}
