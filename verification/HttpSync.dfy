/** What ties a call of `http_parser_execute`, with its marks, to the byte-wise
    reading of the same buffer; and the lemmas that keep the tie. */
module HttpSync {
  import opened HttpFeed
  import opened HttpInvariant
  import opened HttpMarks
  import opened HttpShape
  import opened HttpStep
  import opened HttpTrace
  import opened HttpTypes
  import opened Options

  /** The locals of a call: the record with `p_state`, the position, the marks,
      and the callbacks made so far. */
  datatype Cur = Cur(p: Rec, i: nat, marks: Marks, log: seq<Event>)

  predicate MarksOk(c: Cur) {
    if InBody(c.p.state) then
      Only(c.marks, None, c.i) || (Only(c.marks, Some(Body), c.i) && c.marks.body < c.i)
    else Only(c.marks, KindOf(c.p.state), c.i)
  }

  /** The mark was set at an earlier byte. */
  predicate MarkedBefore(c: Cur) {
    KindOf(c.p.state).Some? ==> Get(c.marks, KindOf(c.p.state).value) < c.i
  }

  /** The byte-wise run over the first `i` bytes. */
  function Upto(env: Env, p0: Rec, h0: nat, data: string, i: nat): Run
    requires i <= |data|
  {
    Feed(Lax(env), p0, h0, data[..i])
  }

  /** Between two bytes: the record is the one of the byte-wise run, and the
      callbacks made plus those the marks stand for tell what its trace tells. */
  predicate Boundary(env: Env, p0: Rec, h0: nat, data: string, c: Cur) {
    && c.i <= |data|
    && Inv(c.p)
    && MarksOk(c)
    && (c.i > 0 ==> MarkedBefore(c))
    && var r := Upto(env, p0, h0, data, c.i);
       r.verdict.Running? && r.p == c.p && Same(c.log + Leftover(c.marks, data, c.i), r.ev)
  }

  /** What re-executions have done to the current byte so far. */
  function Prefixed(ev: seq<Event>, o: Out): Out { o.(ev := ev + o.ev) }

  /** At the label `reexecute`: part of the byte at `c.i` was dealt with, which
      added `ev` to the byte-wise trace. */
  ghost predicate Mid(env: Env, p0: Rec, h0: nat, data: string, c: Cur, ev: seq<Event>) {
    && c.i < |data|
    && Inv(c.p)
    && MarksOk(c)
    && var r := Upto(env, p0, h0, data, c.i);
       && r.verdict.Running?
       && Byte(Lax(env), r.p, data[c.i]) == Prefixed(ev, Byte(Lax(env), c.p, data[c.i]))
       && Same(c.log + Leftover(c.marks, data, c.i), r.ev + ev)
       && exists k: nat :: Passes(Lax(env), r.p, data[c.i], k) == Out(c.p, ev, Again, false)
  }

  lemma Begin(env: Env, p0: Rec, h0: nat, data: string, c: Cur)
    requires Boundary(env, p0, h0, data, c) && c.i < |data|
    ensures Mid(env, p0, h0, data, c, [])
  {
    hide Byte, Feed, Leftover, Join;
    var r := Upto(env, p0, h0, data, c.i);
    assert r.ev + [] == r.ev;
    var o := Byte(Lax(env), c.p, data[c.i]);
    assert [] + o.ev == o.ev;
    assert Passes(Lax(env), r.p, data[c.i], 0) == Out(c.p, [], Again, false);
  }

  lemma UptoNext(env: Env, p0: Rec, h0: nat, data: string, i: nat)
    requires i < |data|
    ensures Upto(env, p0, h0, data, i + 1) == Extend(Lax(env), Upto(env, p0, h0, data, i), data[i])
  {
    assert data[..i + 1] == data[..i] + [data[i]];
    FeedSnoc(Lax(env), Start(p0, h0), data[..i], data[i]);
  }

  lemma UptoFrom(env: Env, p0: Rec, h0: nat, data: string, i: nat, j: nat)
    requires i <= j <= |data|
    ensures Upto(env, p0, h0, data, j) == FeedOn(Lax(env), Upto(env, p0, h0, data, i), data[i..j])
  {
    assert data[..j] == data[..i] + data[i..j];
    FeedConcat(Lax(env), Start(p0, h0), data[..i], data[i..j]);
  }

  lemma UptoPeak(env: Env, p0: Rec, h0: nat, data: string, i: nat)
    requires i <= |data|
    ensures Upto(env, p0, h0, data, i).h <= Upto(env, p0, h0, data, i).peak
    ensures Upto(env, p0, h0, data, i).peak <= Feed(Lax(env), p0, h0, data).peak
  {
    hide FeedOn;
    UptoFrom(env, p0, h0, data, i, |data|);
    assert data[..|data|] == data;
    var r := Upto(env, p0, h0, data, i);
    FeedCount(Lax(env), Start(p0, h0), data[..i]);
    if r.verdict.Running? {
      FeedCount(Lax(env), r, data[i..]);
    } else {
      FeedStopped(Lax(env), r, data[i..]);
    }
  }

  /** The stretch `s` was data of kind `k`, all of it consumed. */
  function Spread(r: Run, q: Rec, k: Kind, s: string): Run {
    var h := if k.Body? then r.h else r.h + |s|;
    Run(q, h, Max(r.peak, h), r.ev + Letters(k, s), r.n + |s|, Running)
  }

  lemma SpreadNone(r: Run, k: Kind)
    requires r.verdict.Running? && r.h <= r.peak
    ensures Spread(r, r.p, k, []) == r
  {
    assert r.ev + [] == r.ev;
  }

  /** Extends a stretch by a byte that is consumed as data of kind `k`. */
  lemma SpreadNext(env: Env, r: Run, p: Rec, q: Rec, k: Kind, s: string, ch: char)
    requires r.verdict.Running? && r.h <= r.peak
    requires ParsingHeader(p.state) <==> !k.Body?
    requires Byte(env, p, ch) == GoWith(q, Data(k, [ch]))
    ensures Extend(env, Spread(r, p, k, s), ch) == Spread(r, q, k, s + [ch])
  {
    hide Byte, Letters;
    LettersSnoc(k, s, ch);
    assert r.ev + Letters(k, s) + [Data(k, [ch])] == r.ev + (Letters(k, s) + [Data(k, [ch])]);
  }

  /** `marks` is what the marks are after `MARK(k)` in the state of `c`. */
  predicate MarksFor(c: Cur, k: Kind, marks: Marks) {
    if k == Body then InBody(c.p.state) && marks == MarkAt(c.marks, Body, c.i)
    else !InBody(c.p.state) && KindOf(c.p.state) == Some(k) && marks == c.marks
  }

  /** A stretch of data read under a mark adds its letters to the trace. */
  lemma StretchTrace(c: Cur, k: Kind, marks: Marks, data: string, ev: seq<Event>, j: nat)
    requires MarksOk(c) && MarksFor(c, k, marks) && c.i < j <= |data|
    requires Same(c.log + Leftover(c.marks, data, c.i), ev)
    ensures Same(c.log + Leftover(marks, data, j), ev + Letters(k, data[c.i..j]))
    ensures Only(marks, Some(k), j) && Get(marks, k) < j
  {
    hide Leftover, Left, Join, Letters, KindOf, InBody;
    LeftoverBefore(c, k, marks, data);
    LeftoverOne(marks, k, data, j);
    LeftGrows(c.log, ev, Get(marks, k), k, data, c.i, j);
  }

  /** Setting the body mark at the current position leaves nothing more to report. */
  lemma LeftoverBefore(c: Cur, k: Kind, marks: Marks, data: string)
    requires MarksOk(c) && c.i <= |data| && MarksFor(c, k, marks)
    ensures Only(marks, Some(k), c.i)
    ensures Leftover(c.marks, data, c.i) == Left(Get(marks, k), k, data, c.i)
  {}

  /** So it moves a boundary from `c.i` to `j`. */
  lemma SpreadBoundary(env: Env, p0: Rec, h0: nat, data: string, c: Cur, j: nat, q: Rec, k: Kind, marks: Marks)
    requires Boundary(env, p0, h0, data, c) && c.i < j <= |data| && Inv(q) && MarksFor(c, k, marks)
    requires FeedOn(Lax(env), Upto(env, p0, h0, data, c.i), data[c.i..j])
             == Spread(Upto(env, p0, h0, data, c.i), q, k, data[c.i..j])
    requires if k == Body then InBody(q.state) else !InBody(q.state) && KindOf(q.state) == Some(k)
    ensures Boundary(env, p0, h0, data, Cur(q, j, marks, c.log))
    ensures Upto(env, p0, h0, data, j) == Spread(Upto(env, p0, h0, data, c.i), q, k, data[c.i..j])
  {
    hide Upto, FeedOn, Leftover, Same, Letters, Inv, MarksFor, InBody, KindOf;
    UptoFrom(env, p0, h0, data, c.i, j);
    StretchTrace(c, k, marks, data, Upto(env, p0, h0, data, c.i).ev, j);
  }

  // ----- one pass through the switch -----

  /** The marks after the `MARK` statement of the current case. */
  function MarksAfterMark(c: Cur, ch: char): Marks {
    match MarkOf(c.p.state, ch)
    case Some(k) => MarkAt(c.marks, k, c.i)
    case None => c.marks
  }

  /** The data that `CALLBACK_DATA(k)` passes on at position `i`. */
  function Pending(marks: Marks, k: Kind, data: string, i: nat): string {
    var m := Get(marks, k);
    if 0 <= m <= i <= |data| then data[m..i] else []
  }

  /** The callback that the step `o` makes, given the marks. */
  function Performed(data: string, c: Cur, ch: char, o: Out): Cur {
    var marks := MarksAfterMark(c, ch);
    var i := if o.ctl.Again? then c.i else c.i + 1;
    if o.ev == [] then Cur(o.p, i, marks, c.log)
    else
      match o.ev[0]
      case Data(k, bytes) =>
        if bytes == [] then
          Cur(o.p, i, Set(marks, k, -1), c.log + [Data(k, Pending(marks, k, data, c.i))])
        else Cur(o.p, i, marks, c.log)
      case e => Cur(o.p, i, marks, c.log + [e])
  }

  lemma PerformedTrace(data: string, c: Cur, ch: char, o: Out, ev: seq<Event>)
    requires c.i < |data| && data[c.i] == ch
    requires MarksOk(c) && Single(c.p.state, ch) && ShapeOk(c.p.state, ch, o) && !o.ctl.Fail?
    requires Same(c.log + Leftover(c.marks, data, c.i), ev)
    ensures var d := Performed(data, c, ch, o);
      && Only(d.marks, KindOf(o.p.state), d.i)
      && (!o.ctl.Again? ==> MarkedBefore(d))
      && Same(d.log + Leftover(d.marks, data, d.i), ev + o.ev)
  {
    hide Join, Leftover, Left, MarkOf, KindOf, InUrl, Same, Only, MarkedBefore;
    if o.ev != [] && o.ev[0].Data? {
      assert o.ev == [Data(o.ev[0].kind, o.ev[0].bytes)];
      PerformedData(data, c, ch, o, o.ev[0].kind, ev);
      hide Performed;
    } else {
      PerformedQuiet(data, c, ch, o, ev);
      hide Performed;
    }
  }

  lemma PerformedData(data: string, c: Cur, ch: char, o: Out, k: Kind, ev: seq<Event>)
    requires c.i < |data| && data[c.i] == ch
    requires MarksOk(c) && !InBody(c.p.state) && Marked(c.p.state, ch) == Some(k)
    requires Same(c.log + Leftover(c.marks, data, c.i), ev)
    requires || (o.ev == [Data(k, [])] && KindOf(o.p.state) == None)
             || (o.ev == [Data(k, [ch])] && o.ctl.Consume? && KindOf(o.p.state) == Some(k))
    ensures var d := Performed(data, c, ch, o);
      && Only(d.marks, KindOf(o.p.state), d.i)
      && (!o.ctl.Again? ==> MarkedBefore(d))
      && Same(d.log + Leftover(d.marks, data, d.i), ev + o.ev)
  {
    hide Join, Leftover, Left, Letters, MarkOf, KindOf, InUrl, MarksAfterMark;
    var d := Performed(data, c, ch, o);
    var marks := MarksAfterMark(c, ch);
    MarkedOnly(c, ch, k, data);
    if o.ev[0].bytes == [] {
      LeftCloses(c.log, ev, Get(marks, k), k, data, c.i);
      ReportedNone(marks, k, c.i, data, d.i);
      assert d.log + [] == d.log;
    } else {
      LeftGrows(c.log, ev, Get(marks, k), k, data, c.i, c.i + 1);
      assert data[c.i..c.i + 1] == [ch];
      LeftoverOne(marks, k, data, c.i + 1);
      LettersOne(k, ch);
    }
  }

  lemma PerformedQuiet(data: string, c: Cur, ch: char, o: Out, ev: seq<Event>)
    requires c.i < |data| && data[c.i] == ch
    requires MarksOk(c) && Single(c.p.state, ch) && ShapeOk(c.p.state, ch, o) && !o.ctl.Fail?
    requires Same(c.log + Leftover(c.marks, data, c.i), ev)
    requires o.ev == [] || !o.ev[0].Data?
    ensures var d := Performed(data, c, ch, o);
      && Only(d.marks, KindOf(o.p.state), d.i)
      && (!o.ctl.Again? ==> MarkedBefore(d))
      && Same(d.log + Leftover(d.marks, data, d.i), ev + o.ev)
  {
    hide Join, Leftover, Left, MarkOf, KindOf, InUrl;
    var d := Performed(data, c, ch, o);
    if Marked(c.p.state, ch).Some? {
      MarkedOnly(c, ch, Marked(c.p.state, ch).value, data);
      assert ev + [] == ev;
    } else {
      LeftoverNone(c.marks, data, c.i);
      LeftoverNone(c.marks, data, d.i);
      if o.ev == [] {
        assert ev + [] == ev;
      } else {
        SameAfter(c.log + [], ev, o.ev);
        assert c.log + [] + o.ev == d.log + [];
      }
    }
  }

  lemma MarkedOnly(c: Cur, ch: char, k: Kind, data: string)
    requires MarksOk(c) && c.i < |data| && !InBody(c.p.state) && Marked(c.p.state, ch) == Some(k)
    ensures var marks := MarksAfterMark(c, ch);
      && Only(marks, Some(k), c.i)
      && Leftover(c.marks, data, c.i) == Left(Get(marks, k), k, data, c.i)
      && Leftover(marks, data, c.i) == Left(Get(marks, k), k, data, c.i)
      && (KindOf(c.p.state).None? ==> Left(Get(marks, k), k, data, c.i) == [])
  {}

  lemma ReportedNone(marks: Marks, k: Kind, i: nat, data: string, j: nat)
    requires Only(marks, Some(k), i)
    ensures Only(Set(marks, k, -1), None, j) && Leftover(Set(marks, k, -1), data, j) == []
  {}

  lemma MarksOkAfter(d: Cur)
    requires Only(d.marks, KindOf(d.p.state), d.i)
    ensures MarksOk(d)
  {}

  lemma ByteAgain(env: Env, p: Rec, ch: char, ev: seq<Event>)
    requires Step(env, p, ch).ctl.Again? && !Step(env, p, ch).reset
    ensures Prefixed(ev, Byte(env, p, ch)) == Prefixed(ev + Step(env, p, ch).ev, Byte(env, Step(env, p, ch).p, ch))
  {
    hide Step;
    var o := Step(env, p, ch);
    assert ev + (o.ev + Byte(env, o.p, ch).ev) == ev + o.ev + Byte(env, o.p, ch).ev;
  }

  // ----- a callback that is not answered by zero -----

  predicate IsLineEnd(ch: char) { ch == CR || ch == LF }

  /** Where a call stands that a callback brought to a halt with error code `e`:
      `n` bytes taken, the record `p`, the callbacks `t`. The halt is at the end of
      the buffer, or after `k` passes of the byte at `i`. `k == 0` is for `on_url`
      at a line end: there the callback comes before the state is updated, but
      the byte is taken. */
  predicate HaltedAt(env: Env, p0: Rec, h0: nat, data: string, i: nat, k: nat, e: Errno,
                     n: nat, p: Rec, t: seq<Event>) {
    && i <= |data|
    && var r := Upto(env, p0, h0, data, i);
    && r.verdict.Running?
    && if i == |data| then n == i && p == r.p && Same(t, r.ev)
       else if k == 0 then
         && AcceptsUrlEnd(r.p.state) && IsLineEnd(data[i])
         && n == i + 1 && p == r.p.(major := 0, minor := 9) && Same(t, r.ev + [Data(Url, [])])
       else
         var s := Passes(Lax(env), r.p, data[i], k);
         && (s.ctl.Fail? ==> s.ctl.errno == e == CallbackFailed)
         && n == (if s.ctl.Consume? || s.ctl.Exit? then i + 1 else i)
         && p == s.p && Same(t, r.ev + s.ev)
  }

  /** The header bytes counted at the halt, but for a byte that is read again. */
  function HaltCount(env: Env, p0: Rec, h0: nat, data: string, i: nat, k: nat): nat
    requires i <= |data|
  {
    var r := Upto(env, p0, h0, data, i);
    if i == |data| then r.h
    else
      var s := Passes(Lax(env), r.p, data[i], k);
      if s.ctl.Again? then r.h else if s.reset then 0 else Count(r.h, r.p.state)
  }

  /** The call was halted where at least `low` header bytes are counted. */
  ghost predicate Halted(env: Env, p0: Rec, h0: nat, data: string, e: Errno, n: nat, p: Rec, t: seq<Event>,
                         low: int) {
    exists i: nat, k: nat :: HaltedAt(env, p0, h0, data, i, k, e, n, p, t)
                             && low <= HaltCount(env, p0, h0, data, i, k)
  }

  lemma HaltedLess(env: Env, p0: Rec, h0: nat, data: string, e: Errno, n: nat, p: Rec, t: seq<Event>,
                   low: int, less: int)
    requires Halted(env, p0, h0, data, e, n, p, t, low) && less <= low
    ensures Halted(env, p0, h0, data, e, n, p, t, less)
  {
    hide HaltedAt, HaltCount;
  }

  /** In a pass of the switch: the callback was made, and no mark is left. */
  lemma StepHalts(env: Env, p0: Rec, h0: nat, data: string, c: Cur, ev: seq<Event>, e: Errno)
    requires Mid(env, p0, h0, data, c, ev) && Single(c.p.state, data[c.i])
    requires !Step(Lax(env), c.p, data[c.i]).ctl.Fail?
    requires var o := Step(Lax(env), c.p, data[c.i]); |Performed(data, c, data[c.i], o).log| > |c.log|
    ensures var o := Step(Lax(env), c.p, data[c.i]);
      var d := Performed(data, c, data[c.i], o);
      var r := Upto(env, p0, h0, data, c.i);
      && Same(d.log, r.ev + (ev + o.ev))
      && Halted(env, p0, h0, data, e, d.i, d.p, d.log, (if o.reset then 0 else Count(r.h, r.p.state)) - 1)
  {
    hide Step, Inv, Upto, Same, Leftover, ShapeOk, Single, MarksOk, Only, MarkedBefore, Performed, Byte;
    var ch := data[c.i];
    var o := Step(Lax(env), c.p, ch);
    var d := Performed(data, c, ch, o);
    var r := Upto(env, p0, h0, data, c.i);
    Shape(Lax(env), c.p, ch);
    PerformedTrace(data, c, ch, o, r.ev + ev);
    Reported(data, c, ch, o);
    LeftoverNone(d.marks, data, d.i);
    assert d.log + [] == d.log;
    assert r.ev + ev + o.ev == r.ev + (ev + o.ev);
    var k: nat :| Passes(Lax(env), r.p, ch, k) == Out(c.p, ev, Again, false);
    assert Passes(Lax(env), r.p, ch, k + 1) == Out(o.p, ev + o.ev, o.ctl, o.reset);
    assert HaltedAt(env, p0, h0, data, c.i, k + 1, e, d.i, d.p, d.log);
  }

  /** A step that makes a callback ends where nothing is marked. */
  lemma Reported(data: string, c: Cur, ch: char, o: Out)
    requires ShapeOk(c.p.state, ch, o) && !o.ctl.Fail?
    requires |Performed(data, c, ch, o).log| > |c.log|
    ensures KindOf(o.p.state).None?
    ensures Performed(data, c, ch, o).p == o.p
    ensures Performed(data, c, ch, o).i == if o.ctl.Again? then c.i else c.i + 1
  {
    hide KindOf, Marked, Single, MarksAfterMark;
  }

  /** `on_url` at a line end, with the state not yet updated. */
  lemma UrlHalts(env: Env, p0: Rec, h0: nat, data: string, c: Cur, ev: seq<Event>, e: Errno, t: seq<Event>)
    requires Mid(env, p0, h0, data, c, ev) && InUrl(c.p.state) && IsLineEnd(data[c.i])
    requires !Step(Lax(env), c.p, data[c.i]).ctl.Fail?
    requires Same(t, Upto(env, p0, h0, data, c.i).ev + (ev + Step(Lax(env), c.p, data[c.i]).ev))
    ensures !Step(Lax(env), c.p, data[c.i]).reset
    ensures var r := Upto(env, p0, h0, data, c.i);
      Halted(env, p0, h0, data, e, c.i + 1, c.p.(major := 0, minor := 9), t, Count(r.h, r.p.state) - 1)
  {
    hide Step, Inv, Upto, Same, Leftover, MarksOk, Byte;
    var r := Upto(env, p0, h0, data, c.i);
    var k: nat :| Passes(Lax(env), r.p, data[c.i], k) == Out(c.p, ev, Again, false);
    if k > 0 { PassesRank(Lax(env), r.p, data[c.i], k); }
    assert k == 0;
    UrlEndStep(Lax(env), c.p, data[c.i]);
    assert [] + [Data(Url, [])] == [Data(Url, [])];
    assert HaltedAt(env, p0, h0, data, c.i, 0, e, c.i + 1, c.p.(major := 0, minor := 9), t);
  }

  lemma UrlEndStep(env: Env, p: Rec, ch: char)
    requires InUrl(p.state) && IsLineEnd(ch) && !Step(env, p, ch).ctl.Fail?
    ensures AcceptsUrlEnd(p.state) && Step(env, p, ch).ev == [Data(Url, [])]
    ensures ParsingHeader(p.state) && !Step(env, p, ch).reset
  {
    hide StepResLine, StepReqLine, StepMethod, StepHeader, StepHeadersAlmostDone, StepHeadersDone, StepBody;
  }

  /** `REEXECUTE()` */
  lemma MidAgain(env: Env, p0: Rec, h0: nat, data: string, c: Cur, ev: seq<Event>)
    requires Mid(env, p0, h0, data, c, ev) && Single(c.p.state, data[c.i])
    requires Step(Lax(env), c.p, data[c.i]).ctl.Again?
    ensures var o := Step(Lax(env), c.p, data[c.i]);
      Mid(env, p0, h0, data, Performed(data, c, data[c.i], o), ev + o.ev)
  {
    hide Step, Byte, Inv, Upto, Same, Leftover, ShapeOk, Single, MarksOk, Only, KindOf;
    var ch := data[c.i];
    Shape(Lax(env), c.p, ch);
    AgainShape(c.p.state, ch, Step(Lax(env), c.p, ch));
    StepInv(Lax(env), c.p, ch);
    ByteAgain(Lax(env), c.p, ch, ev);
    var r := Upto(env, p0, h0, data, c.i);
    PerformedTrace(data, c, ch, Step(Lax(env), c.p, ch), r.ev + ev);
    MarksOkAfter(Performed(data, c, ch, Step(Lax(env), c.p, ch)));
    assert r.ev + ev + Step(Lax(env), c.p, ch).ev == r.ev + (ev + Step(Lax(env), c.p, ch).ev);
    var k: nat :| Passes(Lax(env), r.p, ch, k) == Out(c.p, ev, Again, false);
    var o := Step(Lax(env), c.p, ch);
    assert Passes(Lax(env), r.p, ch, k + 1) == Out(o.p, ev + o.ev, Again, false);
  }

  lemma AgainShape(s: State, ch: char, o: Out)
    requires ShapeOk(s, ch, o) && o.ctl.Again?
    ensures Single(o.p.state, ch) && !o.reset
  {
    hide Single, Marked, KindOf;
  }

  /** The byte is consumed, and the loop goes on or the call ends. */
  lemma MidNext(env: Env, p0: Rec, h0: nat, data: string, c: Cur, ev: seq<Event>)
    requires Mid(env, p0, h0, data, c, ev) && Single(c.p.state, data[c.i])
    requires Step(Lax(env), c.p, data[c.i]).ctl.Consume? || Step(Lax(env), c.p, data[c.i]).ctl.Exit?
    ensures var o := Step(Lax(env), c.p, data[c.i]);
      var d := Performed(data, c, data[c.i], o);
      var r := Upto(env, p0, h0, data, c.i);
      var q := Upto(env, p0, h0, data, c.i + 1);
      && q.h == (if o.reset then 0 else Count(r.h, r.p.state))
      && (o.ctl.Consume? ==> Boundary(env, p0, h0, data, d))
      && (o.ctl.Exit? ==> q.verdict.Exited? && q.n == c.i + 1 && q.p == d.p && Inv(d.p) && Same(d.log, q.ev))
  {
    hide Step, Inv, Upto, Same, Leftover, ShapeOk, Single, MarksOk, Only, KindOf, Count, MarkedBefore;
    var ch := data[c.i];
    var o := Step(Lax(env), c.p, ch);
    var d := Performed(data, c, ch, o);
    var r := Upto(env, p0, h0, data, c.i);
    Shape(Lax(env), c.p, ch);
    StepInv(Lax(env), c.p, ch);
    PerformedTrace(data, c, ch, o, r.ev + ev);
    MarksOkAfter(d);
    assert r.ev + ev + o.ev == r.ev + (ev + o.ev);
    UptoNext(env, p0, h0, data, c.i);
    UptoLength(env, p0, h0, data, c.i);
    if o.ctl.Exit? {
      ExitShape(c.p.state, ch, o);
      LeftoverNone(d.marks, data, d.i);
      assert d.log + [] == d.log;
    }
  }

  /** At the label `reexecute`, and after one more step of the byte. */
  lemma MidTold(env: Env, p0: Rec, h0: nat, data: string, c: Cur, ev: seq<Event>)
    requires Mid(env, p0, h0, data, c, ev)
    ensures Told(c.log, Upto(env, p0, h0, data, c.i + 1).ev)
  {
    hide Step, Inv, Upto, Leftover, MarksOk, Join, Byte, Told;
    UptoNext(env, p0, h0, data, c.i);
    var r := Upto(env, p0, h0, data, c.i);
    var o := Byte(Lax(env), c.p, data[c.i]);
    assert r.ev + (ev + o.ev) == r.ev + ev + o.ev;
    ToldBy(c.log, Leftover(c.marks, data, c.i), r.ev + ev, Upto(env, p0, h0, data, c.i + 1).ev);
  }

  lemma StepTold(env: Env, p0: Rec, h0: nat, data: string, c: Cur, ev: seq<Event>)
    requires Mid(env, p0, h0, data, c, ev) && Single(c.p.state, data[c.i])
    requires !Step(Lax(env), c.p, data[c.i]).ctl.Fail?
    ensures Told(Performed(data, c, data[c.i], Step(Lax(env), c.p, data[c.i])).log,
                 Upto(env, p0, h0, data, c.i + 1).ev)
  {
    hide Step, Inv, Upto, Leftover, MarksOk, Join, Told, ShapeOk, Single, Performed, Only, MarkedBefore;
    var ch := data[c.i];
    var o := Step(Lax(env), c.p, ch);
    var d := Performed(data, c, ch, o);
    var r := Upto(env, p0, h0, data, c.i);
    Shape(Lax(env), c.p, ch);
    PerformedTrace(data, c, ch, o, r.ev + ev);
    UptoNext(env, p0, h0, data, c.i);
    ByteGrows(Lax(env), c.p, ch);
    var b := Byte(Lax(env), c.p, ch);
    assert r.ev + (ev + b.ev) == r.ev + ev + b.ev;
    assert r.ev + ev + o.ev <= r.ev + ev + b.ev;
    ToldBy(d.log, Leftover(d.marks, data, d.i), r.ev + ev + o.ev, Upto(env, p0, h0, data, c.i + 1).ev);
  }

  lemma ByteGrows(env: Env, p: Rec, ch: char)
    ensures Step(env, p, ch).ev <= Byte(env, p, ch).ev
  {
    hide Step;
  }

  lemma RefusedTold(env: Env, p0: Rec, h0: nat, data: string, c: Cur, ev: seq<Event>)
    requires Mid(env, p0, h0, data, c, ev) && Single(c.p.state, data[c.i])
    requires Step(Lax(env), c.p, data[c.i]).ctl == Fail(CallbackFailed)
    ensures Told(c.log + [HeadersComplete], Upto(env, p0, h0, data, c.i + 1).ev)
    ensures var r := Upto(env, p0, h0, data, c.i);
      Halted(env, p0, h0, data, CallbackFailed, c.i, BeforeHeadersComplete(c.p), c.log + [HeadersComplete],
             Count(r.h, r.p.state) - 1)
  {
    hide Inv, Upto, Leftover, Join, Told, StepUrl, StepResLine, StepReqLine, StepMethod, StepHeader;
    hide StepHeadersDone, StepBody, StepHeadersAlmostDone;
    var r := Upto(env, p0, h0, data, c.i);
    RefusedStep(Lax(env), c.p, data[c.i]);
    LeftoverNone(c.marks, data, c.i);
    SameAfter(c.log + [], r.ev + ev, [HeadersComplete]);
    assert c.log + [] + [HeadersComplete] == c.log + [HeadersComplete] + [];
    UptoNext(env, p0, h0, data, c.i);
    assert r.ev + (ev + [HeadersComplete]) == r.ev + ev + [HeadersComplete];
    ToldBy(c.log + [HeadersComplete], [], r.ev + ev + [HeadersComplete], Upto(env, p0, h0, data, c.i + 1).ev);
    hide Byte, Leftover, MarksOk, Step;
    var s := Step(Lax(env), c.p, data[c.i]);
    assert !s.reset && s.ev == [HeadersComplete];
    assert c.log + [HeadersComplete] + [] == c.log + [HeadersComplete];
    var k: nat :| Passes(Lax(env), r.p, data[c.i], k) == Out(c.p, ev, Again, false);
    assert Passes(Lax(env), r.p, data[c.i], k + 1) == Out(s.p, ev + s.ev, s.ctl, false);
    assert HaltedAt(env, p0, h0, data, c.i, k + 1, CallbackFailed, c.i, s.p, c.log + [HeadersComplete]);
  }

  lemma RefusedStep(env: Env, p: Rec, ch: char)
    requires Single(p.state, ch) && Step(env, p, ch).ctl == Fail(CallbackFailed)
    ensures p.state.HeadersAlmostDone? && Step(env, p, ch).ev == [HeadersComplete]
    ensures Step(env, p, ch).p == BeforeHeadersComplete(p) && ch == LF && !Step(env, p, ch).reset
  {
    hide StepUrl, StepResLine, StepReqLine, StepMethod, StepHeader, StepHeadersDone, StepBody, BeforeHeadersComplete;
    Shape(env, p, ch);
  }

  lemma BoundaryTold(env: Env, p0: Rec, h0: nat, data: string, c: Cur)
    requires Boundary(env, p0, h0, data, c)
    ensures Told(c.log, Feed(Lax(env), p0, h0, data).ev)
  {
    hide Inv, FeedOn, MarksOk, MarkedBefore, Leftover, Told, Join;
    UptoGrows(env, p0, h0, data, c.i);
    ToldBy(c.log, Leftover(c.marks, data, c.i), Upto(env, p0, h0, data, c.i).ev, Feed(Lax(env), p0, h0, data).ev);
  }

  lemma UptoGrows(env: Env, p0: Rec, h0: nat, data: string, i: nat)
    requires i <= |data|
    ensures Upto(env, p0, h0, data, i).ev <= Feed(Lax(env), p0, h0, data).ev
  {
    hide Extend;
    UptoFrom(env, p0, h0, data, i, |data|);
    assert data[..|data|] == data;
    FeedGrows(Lax(env), Upto(env, p0, h0, data, i), data[i..|data|]);
    hide FeedOn;
  }

  lemma UptoLength(env: Env, p0: Rec, h0: nat, data: string, i: nat)
    requires i <= |data| && Upto(env, p0, h0, data, i).verdict.Running?
    ensures Upto(env, p0, h0, data, i).n == i
  {
    hide FeedOn;
    FeedCount(Lax(env), Start(p0, h0), data[..i]);
  }

  lemma ExitShape(s: State, ch: char, o: Out)
    requires ShapeOk(s, ch, o) && o.ctl.Exit?
    ensures KindOf(o.p.state).None?
  {
    hide Single, Marked, KindOf;
  }

  /** The byte is refused. */
  lemma MidFail(env: Env, p0: Rec, h0: nat, data: string, c: Cur, ev: seq<Event>, e: Errno)
    requires Mid(env, p0, h0, data, c, ev)
    requires Step(Lax(env), c.p, data[c.i]).ctl == Fail(e)
    ensures Upto(env, p0, h0, data, c.i + 1).verdict == Failed(e)
    ensures Upto(env, p0, h0, data, c.i + 1).n == c.i
  {
    hide Step, Inv, Upto, Same, Leftover, MarksOk, Count;
    UptoNext(env, p0, h0, data, c.i);
    UptoLength(env, p0, h0, data, c.i);
  }
}
