/** The byte-at-a-time reading of `http_parser_execute`: every byte goes through
    the switch on its own, with no marks, no inner loops and no fast paths. */
module HttpFeed {
  import opened HttpTypes
  import opened HttpStep
  import opened HttpInvariant

  /** One byte, with its re-executions. */
  function Byte(env: Env, p: Rec, ch: char): Out
    decreases Rank(p.state)
  {
    var o := Step(env, p, ch);
    if o.ctl.Again? then
      StepRank(env, p, ch);
      var r := Byte(env, o.p, ch);
      Out(r.p, o.ev + r.ev, r.ctl, o.reset || r.reset)
    else o
  }

  /** The first `k` passes of a byte, as far as there are so many. */
  function Passes(env: Env, p: Rec, ch: char, k: nat): Out {
    if k == 0 then Out(p, [], Again, false)
    else
      var o := Passes(env, p, ch, k - 1);
      if !o.ctl.Again? then o
      else
        var s := Step(env, o.p, ch);
        Out(s.p, o.ev + s.ev, s.ctl, o.reset || s.reset)
  }

  /** A byte is its passes: those made and those to come. */
  lemma {:induction false} PassesByte(env: Env, p: Rec, ch: char, k: nat)
    ensures var o := Passes(env, p, ch, k);
      var r := Byte(env, o.p, ch);
      if o.ctl.Again? then Byte(env, p, ch) == Out(r.p, o.ev + r.ev, r.ctl, o.reset || r.reset)
      else Byte(env, p, ch) == o
  {
    hide Step;
    if k == 0 {
      var o := Byte(env, p, ch);
      assert [] + o.ev == o.ev;
    } else {
      PassesByte(env, p, ch, k - 1);
      var o := Passes(env, p, ch, k - 1);
      var s := Step(env, o.p, ch);
      if o.ctl.Again? && s.ctl.Again? {
        var r := Byte(env, s.p, ch);
        assert o.ev + s.ev + r.ev == o.ev + (s.ev + r.ev);
      }
    }
  }

  /** Each pass but the last lowers the rank. */
  lemma {:induction false} PassesRank(env: Env, p: Rec, ch: char, k: nat)
    requires k > 0 && Passes(env, p, ch, k).ctl.Again?
    ensures Rank(Passes(env, p, ch, k).p.state) < Rank(p.state)
  {
    hide Step, Rank;
    StepRank(env, Passes(env, p, ch, k - 1).p, ch);
    if k > 1 { PassesRank(env, p, ch, k - 1); }
  }

  lemma PassesOne(env: Env, p: Rec, ch: char)
    ensures Passes(env, p, ch, 1) == Step(env, p, ch)
  {
    hide Step;
    var o := Step(env, p, ch);
    assert Passes(env, p, ch, 0) == Out(p, [], Again, false);
    assert [] + o.ev == o.ev;
  }

  datatype Verdict = Running | Exited | Failed(errno: Errno)

  /** `h` counts the header bytes since the last reset, one by one; `peak` is the
      most it has reached; `n` bytes were consumed. */
  datatype Run = Run(p: Rec, h: nat, peak: nat, ev: seq<Event>, n: nat, verdict: Verdict)

  function Start(p: Rec, h: nat): Run { Run(p, h, h, [], 0, Running) }

  function Max(a: nat, b: nat): nat { if a < b then b else a }

  function Count(h: nat, s: State): nat { if ParsingHeader(s) then h + 1 else h }

  function Extend(env: Env, r: Run, ch: char): Run {
    if !r.verdict.Running? then r
    else
      var o := Byte(env, r.p, ch);
      var c := Count(r.h, r.p.state);
      var k := Max(r.peak, c);
      match o.ctl
      case Fail(e) => r.(peak := k, ev := r.ev + o.ev, verdict := Failed(e))
      case Exit => Run(o.p, if o.reset then 0 else c, k, r.ev + o.ev, r.n + 1, Exited)
      case _ => Run(o.p, if o.reset then 0 else c, k, r.ev + o.ev, r.n + 1, Running)
  }

  function FeedOn(env: Env, r: Run, s: string): Run {
    if s == [] then r else Extend(env, FeedOn(env, r, s[..|s| - 1]), s[|s| - 1])
  }

  function Feed(env: Env, p: Rec, h: nat, s: string): Run { FeedOn(env, Start(p, h), s) }

  lemma FeedSnoc(env: Env, r: Run, s: string, ch: char)
    ensures FeedOn(env, r, s + [ch]) == Extend(env, FeedOn(env, r, s), ch)
  {
    assert (s + [ch])[..|s|] == s;
  }

  lemma FeedOne(env: Env, r: Run, ch: char)
    ensures FeedOn(env, r, [ch]) == Extend(env, r, ch)
  {
    FeedSnoc(env, r, [], ch);
    assert [] + [ch] == [ch];
  }

  /** Feeding a concatenation is feeding its parts one after the other. */
  lemma {:induction false} FeedConcat(env: Env, r: Run, s: string, t: string)
    ensures FeedOn(env, r, s + t) == FeedOn(env, FeedOn(env, r, s), t)
    decreases |t|
  {
    if t == [] {
      assert s + t == s;
    } else {
      FeedConcat(env, r, s, t[..|t| - 1]);
      assert s + t == s + t[..|t| - 1] + [t[|t| - 1]];
      FeedSnoc(env, r, s + t[..|t| - 1], t[|t| - 1]);
    }
  }

  /** What happened before only shows in what is carried along. */
  function After(a: Run, b: Run): Run {
    b.(ev := a.ev + b.ev, n := a.n + b.n, peak := Max(a.peak, b.peak))
  }

  lemma ExtendShift(env: Env, a: Run, b: Run, ch: char)
    ensures Extend(env, After(a, b), ch) == After(a, Extend(env, b, ch))
  {
    hide Byte;
    if b.verdict.Running? {
      assert a.ev + b.ev + Byte(env, b.p, ch).ev == a.ev + (b.ev + Byte(env, b.p, ch).ev);
    }
  }

  lemma {:induction false} FeedShift(env: Env, r: Run, s: string)
    requires r.verdict.Running? && r.h <= r.peak
    ensures FeedOn(env, r, s) == After(r, Feed(env, r.p, r.h, s))
  {
    hide Extend;
    if s == [] {
      assert r.ev + [] == r.ev;
    } else {
      FeedShift(env, r, s[..|s| - 1]);
      ExtendShift(env, r, Feed(env, r.p, r.h, s[..|s| - 1]), s[|s| - 1]);
    }
  }

  /** The same run, with a count that may be up to `d` higher. */
  predicate Counts(a: Run, b: Run, d: nat) {
    && a.p == b.p && a.ev == b.ev && a.n == b.n && a.verdict == b.verdict
    && a.h <= b.h + d && a.peak <= b.peak + d
  }

  lemma {:induction false} FeedCounts(env: Env, a: Run, b: Run, d: nat, s: string)
    requires Counts(a, b, d)
    ensures Counts(FeedOn(env, a, s), FeedOn(env, b, s), d)
  {
    hide Extend, Counts;
    if s != [] {
      FeedCounts(env, a, b, d, s[..|s| - 1]);
      ExtendCounts(env, FeedOn(env, a, s[..|s| - 1]), FeedOn(env, b, s[..|s| - 1]), d, s[|s| - 1]);
    }
  }

  lemma ExtendCounts(env: Env, a: Run, b: Run, d: nat, ch: char)
    requires Counts(a, b, d)
    ensures Counts(Extend(env, a, ch), Extend(env, b, ch), d)
  {
    hide Byte;
  }

  lemma {:induction false} FeedCount(env: Env, r: Run, s: string)
    requires r.verdict.Running? && r.h <= r.peak
    ensures var f := FeedOn(env, r, s);
      && r.n <= f.n <= r.n + |s|
      && (f.verdict.Running? <==> f.n == r.n + |s| && !f.verdict.Exited?)
      && (f.verdict.Exited? ==> r.n < f.n)
      && f.h <= f.peak && r.peak <= f.peak
  {
    hide Byte;
    if s != [] { FeedCount(env, r, s[..|s| - 1]); }
  }

  /** The trace only grows. */
  lemma {:induction false} FeedGrows(env: Env, r: Run, s: string)
    ensures r.ev <= FeedOn(env, r, s).ev
  {
    hide Byte;
    if s != [] { FeedGrows(env, r, s[..|s| - 1]); }
  }

  /** Once stopped, nothing more is read. */
  lemma {:induction false} FeedStopped(env: Env, r: Run, s: string)
    requires !r.verdict.Running?
    ensures FeedOn(env, r, s) == r
  {
    if s != [] { FeedStopped(env, r, s[..|s| - 1]); }
  }

  lemma {:induction false} ByteInv(env: Env, p: Rec, ch: char)
    requires Inv(p)
    ensures !Byte(env, p, ch).ctl.Fail? ==> Inv(Byte(env, p, ch).p)
    ensures !Byte(env, p, ch).ctl.Again?
    decreases Rank(p.state)
  {
    hide Step, Inv;
    StepRank(env, p, ch);
    StepInv(env, p, ch);
    if Step(env, p, ch).ctl.Again? { ByteInv(env, Step(env, p, ch).p, ch); }
  }

  lemma {:induction false} PassesInv(env: Env, p: Rec, ch: char, k: nat)
    requires Inv(p)
    ensures var o := Passes(env, p, ch, k); !o.ctl.Fail? ==> Inv(o.p)
  {
    hide Step, Inv;
    if k > 0 {
      PassesInv(env, p, ch, k - 1);
      var o := Passes(env, p, ch, k - 1);
      if o.ctl.Again? { StepInv(env, o.p, ch); }
    }
  }

  lemma {:induction false} FeedInv(env: Env, r: Run, s: string)
    requires Inv(r.p)
    ensures Inv(FeedOn(env, r, s).p)
  {
    if s != [] {
      FeedInv(env, r, s[..|s| - 1]);
      var f := FeedOn(env, r, s[..|s| - 1]);
      ByteInv(env, f.p, s[|s| - 1]);
      hide Byte;
      hide Inv;
    }
  }
}
