/** `http_parser_execute` as it is written: one loop over the buffer with marks,
    inner loops for header names and values, a search for the end of a header
    value, and body bytes taken in bulk. Every part is proved against the
    byte-wise reading of the same buffer. */
module HttpExecute {
  import opened Decimals
  import opened HttpFeed
  import opened HttpInvariant
  import opened HttpMarks
  import opened HttpShape
  import opened HttpStep
  import opened HttpSync
  import opened HttpTrace
  import opened HttpTypes
  import opened Options

  /** How a pass of the loop ends: the byte is consumed, the call is over because
      the rest is another protocol, or it is over because of an error, a failed
      callback or a pause. */
  datatype Move = Consumed | Ended | Stopped(errno: Errno)

  /** The application's answer to a callback: zero, non-zero, or it paused the
      parser. What `on_headers_complete` returns is given by the environment. */
  method Answer(e: Event) returns (a: Errno)
    ensures a.Ok? || a.CallbackFailed? || a.Paused?
    ensures e.HeadersComplete? ==> !a.CallbackFailed?
  {
    a :| a.Ok? || a.Paused? || (a.CallbackFailed? && !e.HeadersComplete?);
  }

  /** The outcome of the byte at `i`, in terms of the byte-wise run. */
  ghost predicate Settled(env: Env, p0: Rec, h0: nat, data: string, i: nat, m: Move, d: Cur, reset: bool) {
    && i < |data|
    && var r := Upto(env, p0, h0, data, i);
    && var q := Upto(env, p0, h0, data, i + 1);
    && (m.Stopped? || q.h == (if reset then 0 else Count(r.h, r.p.state)))
    && match m
       case Consumed => d.i == i + 1 && Boundary(env, p0, h0, data, d) && (d.p.state.ChunkSizeStart? ==> reset)
       case Ended =>
         d.i == i + 1 && q.verdict.Exited? && q.n == i + 1 && q.p == d.p && Inv(d.p) && Same(d.log, q.ev)
         && (d.p.state.ChunkSizeStart? ==> reset)
       case Stopped(e) =>
         && Told(d.log, q.ev)
         && if e.CallbackFailed? || e.Paused? then
           && Inv(d.p) && (d.p.state.ChunkSizeStart? ==> reset)
           && Halted(env, p0, h0, data, e, d.i, d.p, d.log, (if reset then 0 else Count(r.h, r.p.state)) - 1)
         else ParseError(e) && d.i == i && q.verdict == Failed(e) && q.n == i
  }

  /** One pass through the switch for a state that takes one byte at a time. */
  method Pass(env: Env, data: string, c: Cur, ghost p0: Rec, ghost h0: nat, ghost ev: seq<Event>)
    returns (again: bool, m: Move, d: Cur, reset: bool)
    requires Mid(env, p0, h0, data, c, ev) && Single(c.p.state, data[c.i])
    ensures again ==>
              && d.i == c.i
              && Mid(env, p0, h0, data, d, ev + Step(Lax(env), c.p, data[c.i]).ev)
              && Single(d.p.state, data[c.i]) && Rank(d.p.state) < Rank(c.p.state)
    ensures !again ==> Settled(env, p0, h0, data, c.i, m, d, reset)
  {
    hide Step, Upto, Inv, Leftover, Same, Byte, Single, MarksOk, Only, Boundary, KindOf, InBody, Told;
    var ch := data[c.i];
    var o := Step(env, c.p, ch);
    Shape(env, c.p, ch);
    StepInv(env, c.p, ch);
    again, m, d, reset := false, Consumed, c, o.reset;
    match o.ctl
    case Fail(e) =>
      m := Stopped(e);
      if e.CallbackFailed? {
        // on_headers_complete was called, and refused
        RefusedHeaders(env, c.p, ch);
        d := Cur(BeforeHeadersComplete(c.p), c.i, c.marks, c.log + [HeadersComplete]);
        RefusedTold(env, p0, h0, data, c, ev);
      } else {
        MidTold(env, p0, h0, data, c, ev);
        MidFail(env, p0, h0, data, c, ev, e);
      }
    case _ =>
      d := Performed(data, c, ch, o);
      var answer := Ok;
      if |d.log| > |c.log| {
        answer := Answer(d.log[|c.log|]);
      }
      if !answer.Ok? {
        m := Stopped(answer);
        if InUrl(c.p.state) && IsLineEnd(ch) {
          // the callback comes before the state is updated
          d := d.(p := c.p.(major := 0, minor := 9), i := c.i + 1);
          UrlPauseSettles(env, p0, h0, data, c, ev, answer);
        } else {
          PauseSettles(env, p0, h0, data, c, ev, answer);
        }
      } else if o.ctl.Again? {
        again := true;
        MidAgain(env, p0, h0, data, c, ev);
        AgainShape(c.p.state, ch, o);
        StepRank(env, c.p, ch);
      } else {
        MidNext(env, p0, h0, data, c, ev);
        m := if o.ctl.Exit? then Ended else Consumed;
        ResetShape(c.p.state, ch, o);
      }
  }

  lemma PauseSettles(env: Env, p0: Rec, h0: nat, data: string, c: Cur, ev: seq<Event>, e: Errno)
    requires Mid(env, p0, h0, data, c, ev) && Single(c.p.state, data[c.i])
    requires !Step(env, c.p, data[c.i]).ctl.Fail? && (e.CallbackFailed? || e.Paused?)
    requires var o := Step(env, c.p, data[c.i]); |Performed(data, c, data[c.i], o).log| > |c.log|
    ensures var o := Step(env, c.p, data[c.i]);
      Settled(env, p0, h0, data, c.i, Stopped(e), Performed(data, c, data[c.i], o), o.reset)
  {
    hide Step, Upto, Inv, Leftover, Same, Byte, Single, MarksOk, Halted, Told, Performed, ShapeOk;
    var o := Step(env, c.p, data[c.i]);
    Shape(env, c.p, data[c.i]);
    StepInv(env, c.p, data[c.i]);
    StepTold(env, p0, h0, data, c, ev);
    StepHalts(env, p0, h0, data, c, ev, e);
    ResetShape(c.p.state, data[c.i], o);
    Reported(data, c, data[c.i], o);
  }

  lemma UrlPauseSettles(env: Env, p0: Rec, h0: nat, data: string, c: Cur, ev: seq<Event>, e: Errno)
    requires Mid(env, p0, h0, data, c, ev) && Single(c.p.state, data[c.i])
    requires !Step(env, c.p, data[c.i]).ctl.Fail? && (e.CallbackFailed? || e.Paused?)
    requires var o := Step(env, c.p, data[c.i]); |Performed(data, c, data[c.i], o).log| > |c.log|
    requires InUrl(c.p.state) && IsLineEnd(data[c.i])
    ensures var o := Step(env, c.p, data[c.i]);
      var d := Performed(data, c, data[c.i], o).(p := c.p.(major := 0, minor := 9), i := c.i + 1);
      Settled(env, p0, h0, data, c.i, Stopped(e), d, o.reset)
  {
    hide Step, Upto, Inv, Leftover, Same, Byte, Single, MarksOk, Halted, Told, Performed, ShapeOk, InUrl;
    var o := Step(env, c.p, data[c.i]);
    Shape(env, c.p, data[c.i]);
    StepTold(env, p0, h0, data, c, ev);
    StepHalts(env, p0, h0, data, c, ev, e);
    UrlHalts(env, p0, h0, data, c, ev, e, Performed(data, c, data[c.i], o).log);
    UrlPaused(c.p);
  }

  lemma RefusedHeaders(env: Env, p: Rec, ch: char)
    requires Inv(p) && Single(p.state, ch) && Step(env, p, ch).ctl == Fail(CallbackFailed)
    ensures Inv(BeforeHeadersComplete(p)) && !BeforeHeadersComplete(p).state.ChunkSizeStart?
  {
    hide StepUrl, StepResLine, StepReqLine, StepMethod, StepHeader, StepHeadersDone, StepBody, MethodString;
    Shape(env, p, ch);
  }

  lemma UrlPaused(p: Rec)
    requires Inv(p) && InUrl(p.state)
    ensures Inv(p.(major := 0, minor := 9)) && !p.state.ChunkSizeStart?
  {}

  lemma ResetShape(s: State, ch: char, o: Out)
    requires ShapeOk(s, ch, o) && !o.ctl.Fail?
    ensures o.p.state.ChunkSizeStart? ==> o.reset
  {
    hide Single, Marked, KindOf;
  }

  /** The current byte with all its re-executions. */
  method Settle(env: Env, data: string, c0: Cur, ghost p0: Rec, ghost h0: nat, ghost ev0: seq<Event>)
    returns (m: Move, d: Cur, reset: bool)
    requires Mid(env, p0, h0, data, c0, ev0) && Single(c0.p.state, data[c0.i])
    ensures Settled(env, p0, h0, data, c0.i, m, d, reset)
  {
    hide Step, Upto, Inv, Leftover, Same, Byte, Single, MarksOk, Only, Boundary, KindOf, InBody, Settled, Rank;
    var c := c0;
    ghost var ev := ev0;
    while true
      invariant c.i == c0.i && Mid(env, p0, h0, data, c, ev) && Single(c.p.state, data[c.i])
      decreases Rank(c.p.state)
    {
      var again;
      ghost var step := Step(Lax(env), c.p, data[c.i]).ev;
      again, m, d, reset := Pass(env, data, c, p0, h0, ev);
      if !again { return; }
      c := d;
      ev := ev + step;
    }
  }

  // ----- the inner loops -----

  lemma FieldByte(env: Env, p: Rec, ch: char)
    requires p.state.HeaderField? && Token(ch).Some? && Inv(p)
    ensures var r := NameStep(p.hstate, p.index, Token(ch).value);
      var q := p.(hstate := r.0, index := r.1);
      && Byte(env, p, ch) == GoWith(q, Data(Field, [ch]))
      && Inv(q) && q.state.HeaderField?
  {
    hide StepUrl, StepResLine, StepReqLine, StepMethod, StepHeadersDone, StepBody, MethodString, NameStep, Token;
    NameStepOk(p.hstate, p.index, Token(ch).value);
  }

  /** Reads a header name up to the first byte that is not a token character. */
  method FieldLoop(env: Env, p: Rec, data: string, i: nat, ghost r: Run) returns (q: Rec, j: nat)
    requires i <= |data| && Inv(p) && p.state.HeaderField?
    requires r.verdict.Running? && r.h <= r.peak && r.p == p
    ensures i <= j <= |data| && (j < |data| ==> Token(data[j]).None?)
    ensures i < |data| && Token(data[i]).Some? ==> i < j
    ensures Inv(q) && q.state.HeaderField?
    ensures FeedOn(Lax(env), r, data[i..j]) == Spread(r, q, Field, data[i..j])
  {
    hide Step, Inv, NameStep, Byte, Extend, Spread, Letters, FeedOn;
    q, j := p, i;
    SpreadNone(r, Field);
    FeedNothing(Lax(env), r);
    assert data[i..i] == [];
    while j < |data|
      invariant i <= j <= |data| && Inv(q) && q.state.HeaderField?
      invariant i < j || q == p
      invariant FeedOn(Lax(env), r, data[i..j]) == Spread(r, q, Field, data[i..j])
    {
      match Token(data[j])
      case None => break;
      case Some(c) =>
        FieldByte(Lax(env), q, data[j]);
        var s := NameStep(q.hstate, q.index, c);
        var q' := q.(hstate := s.0, index := s.1);
        SpreadNext(Lax(env), r, q, q', Field, data[i..j], data[j]);
        assert data[i..j + 1] == data[i..j] + [data[j]];
        FeedSnoc(Lax(env), r, data[i..j], data[j]);
        q := q';
        j := j + 1;
    }
  }

  lemma ValueByte(env: Env, p: Rec, ch: char)
    requires p.state.HeaderValue? && ch != CR && ch != LF && Inv(p)
    ensures Byte(Lax(env), p, ch) == ValueStep(p, ch)
    ensures var o := ValueStep(p, ch);
      && (o.ctl.Fail? || o.ctl.Consume?)
      && (o.ctl.Fail? ==> ParseError(o.ctl.errno))
      && (o.ctl.Consume? ==>
            Inv(o.p) && o.p.state.HeaderValue? && o == GoWith(o.p, Data(Value, [ch])))
      && (p.hstate.General? ==> o == GoWith(p, Data(Value, [ch])))
  {
    hide StepUrl, StepResLine, StepReqLine, StepMethod, StepHeadersDone, StepBody, MethodString, MatchWord;
    hide Token, IsHeaderChar, IsNum;
    ValueInv(p, ch);
  }

  /** `memchr`: the first `c` among the `limit` bytes from `from`, or -1. */
  method MemChr(data: string, from: nat, limit: nat, c: char) returns (r: int)
    requires from + limit <= |data|
    ensures r == -1 || from <= r < from + limit
    ensures r >= 0 ==> data[r] == c && forall k :: from <= k < r ==> data[k] != c
    ensures r < 0 ==> forall k :: from <= k < from + limit ==> data[k] != c
  {
    r := from;
    while r < from + limit
      invariant from <= r <= from + limit
      invariant forall k :: from <= k < r ==> data[k] != c
    {
      if data[r] == c { return; }
      r := r + 1;
    }
    r := -1;
  }

  /** How far the search below has looked when it ends at `j`. */
  function Searched(data: string, from: nat, j: nat): (k: nat)
    requires from < |data| && from <= j <= |data|
    ensures from <= k <= j
  {
    if j == |data| && from + HTTP_MAX_HEADER_SIZE < |data| then from + HTTP_MAX_HEADER_SIZE else j
  }

  /** The fast path of `h_general`: the next CR or LF, searched for among at most
      HTTP_MAX_HEADER_SIZE bytes, or else the end of the buffer. */
  method NextLineEnd(data: string, from: nat) returns (j: nat)
    requires from < |data|
    ensures from <= j <= |data|
    ensures forall k :: from <= k < Searched(data, from, j) ==> data[k] != CR && data[k] != LF
    ensures j < |data| ==> j < from + HTTP_MAX_HEADER_SIZE && (data[j] == CR || data[j] == LF)
  {
    var limit := |data| - from;
    if limit > HTTP_MAX_HEADER_SIZE { limit := HTTP_MAX_HEADER_SIZE; }
    var cr := MemChr(data, from, limit, CR);
    var lf := MemChr(data, from, limit, LF);
    if cr >= 0 {
      j := if lf >= 0 && cr >= lf then lf else cr;
    } else if lf >= 0 {
      j := lf;
    } else {
      j := |data|;
    }
  }

  /** Bytes other than CR and LF leave an unmatched header value as it is. */
  lemma {:induction false} GeneralRun(env: Env, r: Run, p: Rec, s: string, t: string)
    requires Inv(p) && p.state.HeaderValue? && p.hstate.General?
    requires r.verdict.Running? && r.h <= r.peak
    requires FeedOn(Lax(env), r, s) == Spread(r, p, Value, s)
    requires forall k :: 0 <= k < |t| ==> t[k] != CR && t[k] != LF
    ensures FeedOn(Lax(env), r, s + t) == Spread(r, p, Value, s + t)
    decreases |t|
  {
    hide Step, Inv, Byte, Extend, Spread, Letters, ValueStep, FeedOn;
    if t == [] {
      assert s + t == s;
    } else {
      var u, ch := t[..|t| - 1], t[|t| - 1];
      GeneralRun(env, r, p, s, u);
      ValueByte(env, p, ch);
      SpreadNext(Lax(env), r, p, p, Value, s + u, ch);
      FeedSnoc(Lax(env), r, s + u, ch);
      assert s + t == s + u + [ch];
    }
  }

  /** Whether the loop below looks at the byte at `k`, after it has begun at `i`: it
      looks at the first byte, and at those behind a byte that was not read in the
      general state. */
  predicate LookedAt(env: Env, r: Run, data: string, i: nat, k: nat)
    requires i <= k <= |data|
  {
    k == i || !FeedOn(Lax(env), r, data[i..k - 1]).p.hstate.General?
  }

  /** A strict parser found only header characters where it looked. */
  predicate Checked(env: Env, r: Run, data: string, i: nat, far: nat)
    requires i <= far <= |data|
  {
    env.lenient || forall k :: i <= k < far && LookedAt(env, r, data, i, k) ==> IsHeaderChar(data[k])
  }

  /** Behind a byte read in the general state the search looks at none. */
  lemma SkippedBytes(env: Env, r: Run, p: Rec, data: string, i: nat, j: nat, seen: nat)
    requires i <= j <= seen <= |data|
    requires Inv(p) && p.state.HeaderValue? && p.hstate.General?
    requires r.verdict.Running? && r.h <= r.peak
    requires FeedOn(Lax(env), r, data[i..j]) == Spread(r, p, Value, data[i..j])
    requires forall k :: j <= k < seen ==> data[k] != CR && data[k] != LF
    ensures forall k :: j < k < seen ==> !LookedAt(env, r, data, i, k)
  {
    hide FeedOn, Inv, Spread, LookedAt;
    forall k | j < k < seen ensures !LookedAt(env, r, data, i, k) {
      SkippedByte(env, r, p, data, i, j, k);
    }
  }

  lemma SkippedByte(env: Env, r: Run, p: Rec, data: string, i: nat, j: nat, k: nat)
    requires i <= j < k <= |data|
    requires Inv(p) && p.state.HeaderValue? && p.hstate.General?
    requires r.verdict.Running? && r.h <= r.peak
    requires FeedOn(Lax(env), r, data[i..j]) == Spread(r, p, Value, data[i..j])
    requires forall l :: j <= l < k ==> data[l] != CR && data[l] != LF
    ensures !LookedAt(env, r, data, i, k)
  {
    hide FeedOn, Inv, Letters;
    GeneralRun(env, r, p, data[i..j], data[j..k - 1]);
    assert data[i..j] + data[j..k - 1] == data[i..k - 1];
  }

  /** A control byte behind one that is read in the general state: the byte-wise
      strict run refuses it, the loop does not look at it. */
  lemma ControlByteSkipped(env: Env, p: Rec, h: nat)
    requires Inv(p) && p.state.HeaderValue? && p.hstate.General? && !env.lenient
    ensures var data := ['a', 1 as char];
      && Feed(env, p, h, data).verdict == Failed(InvalidHeaderToken)
      && Checked(env, Start(p, h), data, 0, |data|)
      && Feed(Lax(env), p, h, data).verdict.Running?
  {
    hide Inv, Byte;
    var data := ['a', 1 as char];
    var r := Start(p, h);
    ValueByte(env, p, 'a');
    ValueByte(env, p, data[1]);
    GeneralBytes(env, p);
    assert data[..1] == ['a'] && data[..1] + [data[1]] == data;
    FeedOne(env, r, 'a');
    FeedSnoc(env, r, ['a'], data[1]);
    FeedOne(Lax(env), r, 'a');
    FeedSnoc(Lax(env), r, ['a'], data[1]);
    assert data[0..0] == [];
    FeedNothing(Lax(env), r);
    hide FeedOn;
  }

  lemma GeneralBytes(env: Env, p: Rec)
    requires p.state.HeaderValue? && p.hstate.General? && !env.lenient
    ensures Byte(env, p, 'a') == GoWith(p, Data(Value, "a"))
    ensures Byte(env, p, 1 as char) == Refuse(p, InvalidHeaderToken)
  {
    hide StepUrl, StepResLine, StepReqLine, StepMethod, StepHeadersDone, StepHeadersAlmostDone, StepBody, MatchWord;
  }

  /** Reads a header value up to CR, LF, the end of the buffer or a byte that is
      refused (`bad`). `far` bytes of it were looked at; they are all of them
      unless the search above gave up. */
  method ValueLoop(env: Env, p: Rec, data: string, i: nat, ghost r: Run)
    returns (q: Rec, j: nat, bad: Option<Errno>, ghost far: nat)
    requires i < |data| && Inv(p) && p.state.HeaderValue?
    requires r.verdict.Running? && r.h <= r.peak && r.p == p
    ensures i <= far <= j <= |data|
    ensures Inv(q) && q.state.HeaderValue?
    ensures FeedOn(Lax(env), r, data[i..far]) == Spread(r, q, Value, data[i..far])
    ensures far < j ==> j == |data| && i + HTTP_MAX_HEADER_SIZE <= far && bad.None?
    ensures bad.None? && j < |data| ==> far == j && (data[j] == CR || data[j] == LF)
    ensures bad.Some? ==>
              && far == j < |data| && ParseError(bad.value)
              && data[j] != CR && data[j] != LF
              && (|| (bad.value == InvalidHeaderToken && !env.lenient && !IsHeaderChar(data[j]))
                  || ValueStep(q, data[j]).ctl == Fail(bad.value))
    ensures j == i ==> bad.Some? || data[i] == CR || data[i] == LF
    ensures Checked(env, r, data, i, far)
    ensures bad.Some? ==> LookedAt(env, r, data, i, j)
  {
    hide Step, Inv, Byte, Extend, Spread, Letters, ValueStep, FeedOn, IsHeaderChar, LookedAt;
    assert LookedAt(env, r, data, i, i) by { FirstLook(env, r, data, i); }
    q, j, bad, far := p, i, None, i;
    SpreadNone(r, Value);
    FeedNothing(Lax(env), r);
    assert data[i..i] == [];
    while j < |data|
      invariant i <= j <= |data| && (j == i || j > i)
      invariant far == j || (far < j == |data| && i + HTTP_MAX_HEADER_SIZE <= far)
      invariant i <= far && bad.None?
      invariant Inv(q) && q.state.HeaderValue?
      invariant FeedOn(Lax(env), r, data[i..far]) == Spread(r, q, Value, data[i..far])
      invariant Checked(env, r, data, i, far)
      invariant j < |data| ==> data[j] == CR || data[j] == LF || LookedAt(env, r, data, i, j)
    {
      var ch := data[j];
      if ch == CR || ch == LF { return; }
      if !env.lenient && !IsHeaderChar(ch) {
        bad := Some(InvalidHeaderToken);
        return;
      }
      ValueByte(env, q, ch);
      if q.hstate.General? {
        var e := NextLineEnd(data, j);
        ghost var seen := Searched(data, j, e);
        GeneralRun(env, r, q, data[i..j], data[j..seen]);
        assert data[i..j] + data[j..seen] == data[i..seen];
        SkippedBytes(env, r, q, data, i, j, seen);
        far := seen;
        j := e;
      } else {
        var o := ValueStep(q, ch);
        if o.ctl.Fail? {
          bad := Some(o.ctl.errno);
          return;
        }
        SpreadNext(Lax(env), r, q, o.p, Value, data[i..j], ch);
        assert data[i..j + 1] == data[i..j] + [ch];
        FeedSnoc(Lax(env), r, data[i..j], ch);
        NextLook(env, r, q, data, i, j);
        q := o.p;
        j := j + 1;
        far := j;
      }
    }
  }

  lemma FirstLook(env: Env, r: Run, data: string, i: nat)
    requires i <= |data|
    ensures LookedAt(env, r, data, i, i)
  {}

  lemma NextLook(env: Env, r: Run, q: Rec, data: string, i: nat, j: nat)
    requires i <= j < |data| && !q.hstate.General?
    requires FeedOn(Lax(env), r, data[i..j]) == Spread(r, q, Value, data[i..j])
    ensures LookedAt(env, r, data, i, j + 1)
  {
    hide FeedOn, Letters;
  }

  lemma FeedNothing(env: Env, r: Run)
    ensures FeedOn(env, r, []) == r
  {}

  // ----- bodies -----

  lemma BodyByte(env: Env, p: Rec, ch: char)
    requires Inv(p) && (p.state.BodyIdentity? || p.state.ChunkData?) && p.contentLength > 1
    ensures var q := p.(contentLength := p.contentLength - 1);
      Byte(env, p, ch) == GoWith(q, Data(Body, [ch])) && Inv(q)
  {
    hide StepUrl, StepResLine, StepReqLine, StepMethod, StepHeadersDone, StepHeader, MethodString;
  }

  lemma LastChunkByte(env: Env, p: Rec, ch: char)
    requires Inv(p) && p.state.ChunkData? && p.contentLength == 1
    ensures var q := p.(contentLength := 0, state := ChunkDataAlmostDone);
      Byte(env, p, ch) == GoWith(q, Data(Body, [ch])) && Inv(q)
  {
    hide StepUrl, StepResLine, StepReqLine, StepMethod, StepHeadersDone, StepHeader, MethodString;
  }

  lemma EofByte(env: Env, p: Rec, ch: char)
    requires Inv(p) && p.state.BodyIdentityEof?
    ensures Byte(env, p, ch) == GoWith(p, Data(Body, [ch]))
  {
    hide StepUrl, StepResLine, StepReqLine, StepMethod, StepHeadersDone, StepHeader, MethodString;
  }

  /** As long as a body does not end, its bytes only lower `content_length`. */
  lemma {:induction false} BodyRun(env: Env, r: Run, s: string)
    requires r.verdict.Running? && r.h <= r.peak && Inv(r.p)
    requires r.p.state.BodyIdentity? || r.p.state.ChunkData?
    requires |s| < r.p.contentLength
    ensures var q := r.p.(contentLength := r.p.contentLength - |s|);
      FeedOn(env, r, s) == Spread(r, q, Body, s) && Inv(q)
  {
    hide Step, Byte, Extend, Spread, Letters, Inv;
    if s == [] {
      SpreadNone(r, Body);
    } else {
      var t, ch := s[..|s| - 1], s[|s| - 1];
      BodyRun(env, r, t);
      var q := r.p.(contentLength := r.p.contentLength - |t|);
      BodyByte(env, q, ch);
      SpreadNext(env, r, q, q.(contentLength := q.contentLength - 1), Body, t, ch);
      assert s == t + [ch];
    }
  }

  lemma {:induction false} EofRun(env: Env, r: Run, s: string)
    requires r.verdict.Running? && r.h <= r.peak && Inv(r.p) && r.p.state.BodyIdentityEof?
    ensures FeedOn(env, r, s) == Spread(r, r.p, Body, s)
  {
    hide Step, Byte, Extend, Spread, Letters, Inv;
    if s == [] {
      SpreadNone(r, Body);
    } else {
      var t, ch := s[..|s| - 1], s[|s| - 1];
      EofRun(env, r, t);
      EofByte(env, r.p, ch);
      SpreadNext(env, r, r.p, r.p, Body, t, ch);
      assert s == t + [ch];
    }
  }

  /** The whole rest of a chunk. */
  lemma ChunkRun(env: Env, r: Run, s: string)
    requires r.verdict.Running? && r.h <= r.peak && Inv(r.p) && r.p.state.ChunkData?
    requires |s| == r.p.contentLength
    ensures var q := r.p.(contentLength := 0, state := ChunkDataAlmostDone);
      FeedOn(env, r, s) == Spread(r, q, Body, s) && Inv(q)
  {
    hide Step, Byte, Extend, Spread, Letters;
    var t, ch := s[..|s| - 1], s[|s| - 1];
    BodyRun(env, r, t);
    var q := r.p.(contentLength := 1);
    LastChunkByte(env, q, ch);
    SpreadNext(env, r, q, q.(contentLength := 0, state := ChunkDataAlmostDone), Body, t, ch);
    assert s == t + [ch];
  }
}
