/** What a call that succeeds or is paused leaves behind, and how the byte-wise run
    of the whole input goes on from there. */
module HttpResume {
  import opened HttpFeed
  import opened HttpInvariant
  import opened HttpParser
  import opened HttpShape
  import opened HttpSplit
  import opened HttpStep
  import opened HttpSync
  import opened HttpTrace
  import opened HttpTypes

  /** From `p` on the run tells `pre`, and then what it tells from `q` on. */
  predicate Resumes(f: Run, n: nat, t: seq<Event>, g: Run) {
    && f.n == n + g.n
    && Same(f.ev, t + g.ev)
    && (f.verdict.Failed? <==> g.verdict.Failed?)
    && (!f.verdict.Failed? ==> f.p == g.p)
    && (g.verdict.Exited? ==> f.verdict.Exited?)
    && g.peak <= f.peak + 1
  }

  /** A run, cut after the prefix `x[..i]`. */
  lemma FeedRest(env: Env, p: Rec, h: nat, x: string, i: nat, q: Rec, l: nat, t: seq<Event>)
    requires i <= |x| && Feed(env, p, h, x[..i]).verdict.Running?
    requires var r := Feed(env, p, h, x[..i]); q == r.p && l <= r.h && Same(t, r.ev)
    ensures Resumes(Feed(env, p, h, x), i, t, Feed(env, q, l, x[i..]))
  {
    hide FeedOn, Join;
    assert x == x[..i] + x[i..];
    FeedParts(env, p, h, x[..i], x[i..]);
    var r := Feed(env, p, h, x[..i]);
    FeedCounts(env, Start(q, l), Start(q, r.h), 0, x[i..]);
    SameAfter(t, r.ev, Feed(env, q, r.h, x[i..]).ev);
  }

  lemma FeedHead(env: Env, p: Rec, h: nat, x: string)
    requires x != []
    ensures Feed(env, p, h, x) == FeedOn(env, Extend(env, Start(p, h), x[0]), x[1..])
  {
    hide Extend;
    assert x == [x[0]] + x[1..];
    FeedConcat(env, Start(p, h), [x[0]], x[1..]);
    FeedOne(env, Start(p, h), x[0]);
  }

  lemma StepReset(env: Env, p: Rec, ch: char)
    ensures Step(env, p, ch).ctl.Again? ==> !Step(env, p, ch).reset
  {
    hide FirstMethod, OtherMethod, ParseUrlChar, NameStep, Token, IsHeaderChar, Unhex, NeedsEof;
    hide NewMessage, TokenFlag, MethodString, MatchWord, Lower;
  }

  lemma {:induction false} PassesReset(env: Env, p: Rec, ch: char, k: nat)
    ensures Passes(env, p, ch, k).ctl.Again? ==> !Passes(env, p, ch, k).reset
  {
    hide Step;
    if k > 0 {
      PassesReset(env, p, ch, k - 1);
      StepReset(env, Passes(env, p, ch, k - 1).p, ch);
    }
  }

  /** What was told before shows in the trace only. */
  lemma {:induction false} FeedAfter(env: Env, a: Run, b: Run, s: string)
    ensures FeedOn(env, After(a, b), s) == After(a, FeedOn(env, b, s))
  {
    hide Extend;
    if s != [] {
      FeedAfter(env, a, b, s[..|s| - 1]);
      ExtendShift(env, a, FeedOn(env, b, s[..|s| - 1]), s[|s| - 1]);
    }
  }

  /** The first byte was left after `k` passes, and is read again. */
  lemma HalfByte(env: Env, p: Rec, h: nat, x: string, k: nat, l: nat)
    requires x != [] && Passes(env, p, x[0], k).ctl.Again? && l <= h
    ensures var o := Passes(env, p, x[0], k);
      Resumes(Feed(env, p, h, x), 0, o.ev, Feed(env, o.p, l, x))
  {
    hide Passes, Byte, FeedOn, Join;
    var o := Passes(env, p, x[0], k);
    PassesByte(env, p, x[0], k);
    PassesReset(env, p, x[0], k);
    FeedHead(env, p, h, x);
    FeedHead(env, o.p, l, x);
    var a, b := Extend(env, Start(p, h), x[0]), Extend(env, Start(o.p, l), x[0]);
    var told := Run(p, 0, 0, o.ev, 0, Running);
    var none: seq<Event> := [];
    assert none + Byte(env, p, x[0]).ev == Byte(env, p, x[0]).ev;
    assert none + Byte(env, o.p, x[0]).ev == Byte(env, o.p, x[0]).ev;
    FeedAfter(env, told, b, x[1..]);
    if a.verdict.Failed? {
      FeedStopped(env, a, x[1..]);
      FeedStopped(env, b, x[1..]);
    } else {
      assert Counts(After(told, b), a, 1);
      FeedCounts(env, After(told, b), a, 1, x[1..]);
    }
  }

  /** The first byte was taken in `k` passes. */
  lemma WholeByte(env: Env, p: Rec, h: nat, x: string, k: nat, l: nat)
    requires x != []
    requires var o := Passes(env, p, x[0], k);
      && (o.ctl.Consume? || (o.ctl.Exit? && |x| == 1))
      && l <= (if o.reset then 0 else Count(h, p.state))
    ensures var o := Passes(env, p, x[0], k);
      Resumes(Feed(env, p, h, x), 1, o.ev, Feed(env, o.p, l, x[1..]))
  {
    hide Passes, Byte, FeedOn, Join;
    var o := Passes(env, p, x[0], k);
    PassesByte(env, p, x[0], k);
    FeedHead(env, p, h, x);
    var none: seq<Event> := [];
    assert none + o.ev == o.ev;
    var a := Extend(env, Start(p, h), x[0]);
    if o.ctl.Consume? {
      FeedShift(env, a, x[1..]);
      FeedCounts(env, Start(o.p, l), Start(o.p, a.h), 0, x[1..]);
    } else {
      FeedStopped(env, a, x[1..]);
      assert x[1..] == [];
      FeedEmpty(env, o.p, l);
      assert o.ev + none == o.ev;
    }
  }

  lemma FeedEmpty(env: Env, p: Rec, h: nat)
    ensures Feed(env, p, h, []) == Start(p, h)
  {}

  lemma ResumesAfter(r: Run, f: Run, n: nat, t: seq<Event>, g: Run, u: seq<Event>)
    requires Resumes(f, n, t, g) && Same(u, r.ev + t)
    ensures Resumes(After(r, f), r.n + n, u, g)
  {
    hide Join;
    SameBefore(r.ev, f.ev, t + g.ev);
    SameAfter(u, r.ev + t, g.ev);
    assert r.ev + (t + g.ev) == r.ev + t + g.ev;
  }

  // ----- one call -----

  /** `on_url` was paused at a line end. */
  predicate UrlCut(x: string, c: Call) {
    c.errno.Paused? && InUrl(c.p.state) && 0 < c.n <= |x| && IsLineEnd(x[c.n - 1])
  }

  /** After any other pause the parser goes on as if it had not been paused. */
  lemma HaltResumes(env: Env, b: Call, x: string, e: nat, c: Call, i: nat, k: nat)
    requires 0 < e <= |x| && !UrlCut(x, c) && c.errno.Paused?
    requires HaltedAt(env, b.p, b.h, x[..e], i, k, Paused, c.n, c.p, c.t)
    requires c.h <= HaltCount(env, b.p, b.h, x[..e], i, k)
    requires var f := Feed(Lax(env), b.p, b.h, x); f.verdict.Exited? ==> f.n == |x|
    ensures c.n <= e && Resumes(Feed(Lax(env), b.p, b.h, x), c.n, c.t, Feed(Lax(env), c.p, c.h, x[c.n..]))
  {
    hide FeedOn, Join, Passes, Count, Resumes;
    assert x[..e][..i] == x[..i];
    var r := Feed(Lax(env), b.p, b.h, x[..i]);
    if i == e {
      FeedRest(Lax(env), b.p, b.h, x, i, c.p, c.h, c.t);
    } else if k > 0 {
      var y := x[i..];
      assert x == x[..i] + y;
      FeedParts(Lax(env), b.p, b.h, x[..i], y);
      var s := Passes(Lax(env), r.p, x[i], k);
      var f := Feed(Lax(env), r.p, r.h, y);
      if s.ctl.Again? {
        HalfByte(Lax(env), r.p, r.h, y, k, c.h);
        ResumesAfter(r, f, 0, s.ev, Feed(Lax(env), s.p, c.h, y), c.t);
      } else {
        if s.ctl.Exit? { ExitsAt(env, b.p, b.h, x, i, k); }
        WholeByte(Lax(env), r.p, r.h, y, k, c.h);
        assert y[1..] == x[i + 1..];
        ResumesAfter(r, f, 1, s.ev, Feed(Lax(env), s.p, c.h, y[1..]), c.t);
      }
    }
  }

  lemma ExitsAt(env: Env, p: Rec, h: nat, x: string, i: nat, k: nat)
    requires i < |x| && Feed(Lax(env), p, h, x[..i]).verdict.Running?
    requires Passes(Lax(env), Feed(Lax(env), p, h, x[..i]).p, x[i], k).ctl.Exit?
    requires var f := Feed(Lax(env), p, h, x); f.verdict.Exited? ==> f.n == |x|
    ensures i + 1 == |x|
  {
    hide FeedOn, Passes, Byte;
    var r := Feed(Lax(env), p, h, x[..i]);
    PassesByte(Lax(env), r.p, x[i], k);
    UptoNext(env, p, h, x, i);
    UptoLength(env, p, h, x, i);
    UptoFrom(env, p, h, x, i + 1, |x|);
    FeedStopped(Lax(env), Upto(env, p, h, x, i + 1), x[i + 1..|x|]);
    assert x[..|x|] == x;
  }

  /** A call that succeeds or is paused, but not at the end of a URL line. */
  lemma CallResumes(env: Env, b: Call, x: string, e: nat, c: Call)
    requires 0 < e <= |x| && Allowed(env, b, x[..e], c) && GoesOn(c.errno) && !UrlCut(x, c) && Inv(b.p)
    requires var f := Feed(Lax(env), b.p, b.h, x); f.verdict.Exited? ==> f.n == |x|
    ensures c.n <= e && Resumes(Feed(Lax(env), b.p, b.h, x), c.n, c.t, Feed(Lax(env), c.p, c.h, x[c.n..]))
    ensures Inv(c.p) && c.h <= c.nread <= c.h + (b.nread - b.h) + 1
  {
    hide FeedOn, Join, Resumes, Inv, Told;
    if c.errno.Paused? {
      hide Feed, HaltedAt, HaltCount;
      var i: nat, k: nat :| HaltedAt(env, b.p, b.h, x[..e], i, k, Paused, c.n, c.p, c.t)
                            && c.h <= HaltCount(env, b.p, b.h, x[..e], i, k);
      HaltResumes(env, b, x, e, c, i, k);
      HaltedInv(env, b, x[..e], c, i, k);
    } else {
      var r := Feed(Lax(env), b.p, b.h, x[..e]);
      FeedCount(Lax(env), Start(b.p, b.h), x[..e]);
      FeedInv(Lax(env), Start(b.p, b.h), x[..e]);
      if r.verdict.Running? {
        FeedRest(Lax(env), b.p, b.h, x, e, c.p, c.h, c.t);
      } else {
        FeedPart(Lax(env), b.p, b.h, x, e);
        ExitResumes(Lax(env), r, x, c);
      }
    }
  }

  lemma ExitResumes(env: Env, r: Run, x: string, c: Call)
    requires r.verdict.Exited? && r.n == |x| == c.n && r.p == c.p && r.h == c.h <= r.peak && Same(c.t, r.ev)
    ensures Resumes(r, c.n, c.t, Feed(env, c.p, c.h, x[c.n..]))
  {
    hide FeedOn, Join;
    assert x[c.n..] == [];
    FeedEmpty(env, c.p, c.h);
    assert c.t + [] == c.t;
  }

  lemma HaltedInv(env: Env, b: Call, data: string, c: Call, i: nat, k: nat)
    requires Inv(b.p) && HaltedAt(env, b.p, b.h, data, i, k, Paused, c.n, c.p, c.t)
    ensures Inv(c.p)
  {
    hide FeedOn, Join, Passes, StateInv;
    FeedInv(Lax(env), Start(b.p, b.h), data[..i]);
    var r := Upto(env, b.p, b.h, data, i);
    if i < |data| {
      PassesInv(Lax(env), r.p, data[i], k);
      if k == 0 { UrlPauseInv(r.p); }
    }
  }

  lemma UrlPauseInv(p: Rec)
    requires Inv(p) && AcceptsUrlEnd(p.state)
    ensures Inv(p.(major := 0, minor := 9))
  {}

  // ----- the strict run -----

  /** A strict parser refuses the input only where a lenient one does, too. */
  predicate Agrees(env: Env, p: Rec, h: nat, x: string) {
    Feed(env, p, h, x).verdict.Failed? ==> Feed(Lax(env), p, h, x).verdict.Failed?
  }

  /** Where a strict byte is not refused, its passes are the lenient ones. */
  lemma {:induction false} StrictPasses(env: Env, p: Rec, ch: char, k: nat)
    requires !Byte(env, p, ch).ctl.Fail?
    ensures Passes(env, p, ch, k) == Passes(Lax(env), p, ch, k)
  {
    hide Step, Byte;
    if k > 0 {
      StrictPasses(env, p, ch, k - 1);
      PassesByte(env, p, ch, k - 1);
      PassesByte(env, p, ch, k);
      var o := Passes(env, p, ch, k - 1);
      if o.ctl.Again? {
        StrictStep(env, o.p, ch);
        FailedPass(env, p, ch, k);
      }
    }
  }

  lemma FailedPass(env: Env, p: Rec, ch: char, k: nat)
    requires k > 0 && !Byte(env, p, ch).ctl.Fail? && Passes(env, p, ch, k - 1).ctl.Again?
    ensures !Step(env, Passes(env, p, ch, k - 1).p, ch).ctl.Fail?
  {
    hide Step, Byte;
    PassesByte(env, p, ch, k);
  }

  /** The strict run over a prefix of what the strict run accepts. */
  lemma StrictPrefix(env: Env, p: Rec, h: nat, x: string, i: nat)
    requires i <= |x| && !Feed(env, p, h, x).verdict.Failed?
    requires Feed(Lax(env), p, h, x[..i]).verdict.Running?
    ensures Feed(env, p, h, x[..i]) == Feed(Lax(env), p, h, x[..i])
    ensures var r := Feed(env, p, h, x[..i]); Feed(env, p, h, x) == After(r, Feed(env, r.p, r.h, x[i..]))
  {
    hide FeedOn;
    StrictFeed(env, Start(p, h), x[..i]);
    assert x == x[..i] + x[i..];
    if Feed(env, p, h, x[..i]).verdict.Failed? {
      StoppedAlready(env, p, h, x[..i], x[i..]);
    } else {
      FeedParts(env, p, h, x[..i], x[i..]);
    }
  }

  /** What is left of an input on which the two agree is one on which they agree. */
  lemma CallAgrees(env: Env, b: Call, x: string, e: nat, c: Call)
    requires 0 < e <= |x| && Allowed(env, b, x[..e], c) && GoesOn(c.errno) && !UrlCut(x, c) && Inv(b.p)
    requires var f := Feed(Lax(env), b.p, b.h, x); f.verdict.Exited? ==> f.n == |x|
    requires Agrees(env, b.p, b.h, x)
    ensures c.n <= e && Agrees(env, c.p, c.h, x[c.n..])
  {
    hide FeedOn, Join, Inv, Told, Resumes, Passes, Byte;
    CallResumes(env, b, x, e, c);
    assert Resumes(Feed(Lax(env), b.p, b.h, x), c.n, c.t, Feed(Lax(env), c.p, c.h, x[c.n..]));
    assert Feed(Lax(env), b.p, b.h, x).verdict.Failed? <==> Feed(Lax(env), c.p, c.h, x[c.n..]).verdict.Failed? by {
      ResumesFailed(Feed(Lax(env), b.p, b.h, x), c.n, c.t, Feed(Lax(env), c.p, c.h, x[c.n..]));
    }
    if !Feed(env, b.p, b.h, x).verdict.Failed? {
      if c.errno.Paused? {
        var i: nat, k: nat :| HaltedAt(env, b.p, b.h, x[..e], i, k, Paused, c.n, c.p, c.t)
                              && c.h <= HaltCount(env, b.p, b.h, x[..e], i, k);
        HaltAgrees(env, b, x, e, c, i, k);
      } else {
        OkAgrees(env, b, x, e, c);
      }
    }
  }

  lemma ResumesFailed(f: Run, n: nat, t: seq<Event>, g: Run)
    requires Resumes(f, n, t, g)
    ensures f.verdict.Failed? <==> g.verdict.Failed?
  {
    hide Join;
  }

  lemma OkAgrees(env: Env, b: Call, x: string, e: nat, c: Call)
    requires 0 < e <= |x| && Allowed(env, b, x[..e], c) && c.errno.Ok?
    requires !Feed(env, b.p, b.h, x).verdict.Failed?
    requires var f := Feed(Lax(env), b.p, b.h, x); f.verdict.Exited? ==> f.n == |x|
    ensures c.n <= e && !Feed(env, c.p, c.h, x[c.n..]).verdict.Failed?
  {
    hide FeedOn, Join, Told;
    var r := Feed(Lax(env), b.p, b.h, x[..e]);
    FeedCount(Lax(env), Start(b.p, b.h), x[..e]);
    if r.verdict.Running? {
      StrictPrefix(env, b.p, b.h, x, e);
    } else {
      FeedPart(Lax(env), b.p, b.h, x, e);
      assert x[c.n..] == [];
      FeedEmpty(env, c.p, c.h);
    }
  }

  lemma HaltAgrees(env: Env, b: Call, x: string, e: nat, c: Call, i: nat, k: nat)
    requires 0 < e <= |x| && !UrlCut(x, c) && c.errno.Paused?
    requires HaltedAt(env, b.p, b.h, x[..e], i, k, Paused, c.n, c.p, c.t)
    requires c.h <= HaltCount(env, b.p, b.h, x[..e], i, k)
    requires var f := Feed(Lax(env), b.p, b.h, x); f.verdict.Exited? ==> f.n == |x|
    requires !Feed(env, b.p, b.h, x).verdict.Failed?
    ensures c.n <= e && !Feed(env, c.p, c.h, x[c.n..]).verdict.Failed?
  {
    hide FeedOn, Join, Passes, Count, Byte, Resumes;
    assert x[..e][..i] == x[..i];
    var r := Feed(Lax(env), b.p, b.h, x[..i]);
    StrictPrefix(env, b.p, b.h, x, i);
    var y := x[i..];
    var f := Feed(env, r.p, r.h, y);
    if i == e {
      FeedCounts(env, Start(c.p, c.h), Start(c.p, r.h), 0, y);
    } else if k > 0 {
      var s := Passes(Lax(env), r.p, x[i], k);
      assert !Byte(env, r.p, x[i]).ctl.Fail? by { FirstRefused(env, r.p, r.h, y); }
      StrictPasses(env, r.p, x[i], k);
      if s.ctl.Again? {
        HalfByte(env, r.p, r.h, y, k, c.h);
        ResumesFailed(f, 0, s.ev, Feed(env, s.p, c.h, y));
      } else {
        if s.ctl.Exit? { ExitsAt(env, b.p, b.h, x, i, k); }
        WholeByte(env, r.p, r.h, y, k, c.h);
        assert y[1..] == x[i + 1..];
        ResumesFailed(f, 1, s.ev, Feed(env, s.p, c.h, y[1..]));
      }
    }
  }

  lemma FirstRefused(env: Env, p: Rec, h: nat, x: string)
    requires x != [] && !Feed(env, p, h, x).verdict.Failed?
    ensures !Byte(env, p, x[0]).ctl.Fail?
  {
    hide Byte, FeedOn;
    FeedHead(env, p, h, x);
    var a := Extend(env, Start(p, h), x[0]);
    if a.verdict.Failed? { FeedStopped(env, a, x[1..]); }
  }

  // ----- line ends -----

  lemma StepLeavesUrl(env: Env, p: Rec, ch: char)
    requires IsLineEnd(ch)
    ensures !Step(env, p, ch).ctl.Fail? ==> !InUrl(Step(env, p, ch).p.state)
  {
    hide StepResLine, StepReqLine, StepMethod, StepUrl, StepHeader, StepHeadersAlmostDone, StepHeadersDone, StepBody;
    hide InUrl;
    match GroupOf(p.state)
    case ResLineGroup => ResLineLeaves(p, ch);
    case ReqLineGroup => ReqLineLeaves(p, ch);
    case MethodGroup => MethodLeaves(p, ch);
    case UrlGroup => UrlLeaves(p, ch);
    case HeaderGroup => HeaderLeaves(env.lenient, p, ch);
    case AlmostDoneGroup => AlmostDoneLeaves(env, p, ch);
    case DoneGroup => DoneLeaves(p, ch);
    case BodyGroup => BodyLeaves(p, ch);
  }

  lemma ResLineLeaves(p: Rec, ch: char)
    requires GroupOf(p.state).ResLineGroup?
    ensures !InUrl(StepResLine(p, ch).p.state)
  {}

  lemma ReqLineLeaves(p: Rec, ch: char)
    requires GroupOf(p.state).ReqLineGroup?
    ensures !InUrl(StepReqLine(p, ch).p.state)
  {
    hide FirstMethod;
  }

  lemma MethodLeaves(p: Rec, ch: char)
    requires p.state.ReqMethod?
    ensures !InUrl(StepMethod(p, ch).p.state)
  {
    hide OtherMethod, MethodString;
  }

  lemma UrlLeaves(p: Rec, ch: char)
    requires GroupOf(p.state).UrlGroup? && IsLineEnd(ch)
    ensures !StepUrl(p, ch).ctl.Fail? ==> !InUrl(StepUrl(p, ch).p.state)
  {}

  lemma HeaderLeaves(lenient: bool, p: Rec, ch: char)
    requires GroupOf(p.state).HeaderGroup? && IsLineEnd(ch)
    ensures var o := StepHeader(lenient, p, ch); !o.ctl.Fail? ==> !InUrl(o.p.state)
  {
    hide NameStep, Token, IsHeaderChar, TokenFlag, StepValueStart, ValueStep;
    ValueStartShape(p, ch);
  }

  lemma AlmostDoneLeaves(env: Env, p: Rec, ch: char)
    requires p.state.HeadersAlmostDone?
    ensures !InUrl(StepHeadersAlmostDone(env, p, ch).p.state)
  {}

  lemma DoneLeaves(p: Rec, ch: char)
    requires p.state.HeadersDone?
    ensures !InUrl(StepHeadersDone(p, ch).p.state)
  {
    hide NeedsEof, ShouldKeepAlive;
  }

  lemma BodyLeaves(p: Rec, ch: char)
    requires GroupOf(p.state).BodyGroup?
    ensures !InUrl(StepBody(p, ch).p.state)
  {
    hide Unhex, ShouldKeepAlive;
  }

  lemma {:induction false} PassesLeaveUrl(env: Env, p: Rec, ch: char, k: nat)
    requires k > 0 && IsLineEnd(ch)
    ensures var o := Passes(env, p, ch, k); !o.ctl.Fail? ==> !InUrl(o.p.state)
  {
    hide Step;
    StepLeavesUrl(env, Passes(env, p, ch, k - 1).p, ch);
    if k > 1 { PassesLeaveUrl(env, p, ch, k - 1); }
  }

  lemma {:induction false} ByteLeavesUrl(env: Env, p: Rec, ch: char)
    requires IsLineEnd(ch)
    ensures var o := Byte(env, p, ch); !o.ctl.Fail? ==> !InUrl(o.p.state)
    decreases Rank(p.state)
  {
    hide Step, Rank;
    StepRank(env, p, ch);
    StepLeavesUrl(env, p, ch);
    if Step(env, p, ch).ctl.Again? { ByteLeavesUrl(env, Step(env, p, ch).p, ch); }
  }

  /** After a line end the parser is not in a URL. */
  lemma FeedLeavesUrl(env: Env, p: Rec, h: nat, x: string)
    requires x != [] && IsLineEnd(x[|x| - 1]) && !Feed(env, p, h, x).verdict.Failed?
    requires Feed(env, p, h, x[..|x| - 1]).verdict.Running?
    ensures !InUrl(Feed(env, p, h, x).p.state)
  {
    hide Byte;
    ByteLeavesUrl(env, Feed(env, p, h, x[..|x| - 1]).p, x[|x| - 1]);
  }

  lemma RunningPrefix(env: Env, p: Rec, h: nat, x: string)
    requires x != [] && Feed(env, p, h, x).verdict.Running?
    ensures Feed(env, p, h, x[..|x| - 1]).verdict.Running?
  {}

  /** What a pause of `on_url` at a line end leaves. */
  lemma CallCut(env: Env, b: Call, x: string, e: nat, c: Call) returns (i: nat)
    requires 0 < e <= |x| && Allowed(env, b, x[..e], c) && UrlCut(x, c)
    ensures i < e && c.n == i + 1 && IsLineEnd(x[i])
    ensures var r := Feed(Lax(env), b.p, b.h, x[..i]);
      && r.verdict.Running? && AcceptsUrlEnd(r.p.state)
      && c.p == r.p.(major := 0, minor := 9) && c.h <= r.h && Same(c.t, r.ev + [Data(Url, [])])
    ensures c.h <= c.nread <= c.h + (b.nread - b.h) + 1
  {
    hide Feed, Join, Told, Passes, InUrl;
    var k: nat;
    i, k :| HaltedAt(env, b.p, b.h, x[..e], i, k, Paused, c.n, c.p, c.t)
            && c.h <= HaltCount(env, b.p, b.h, x[..e], i, k);
    assert x[..e][..i] == x[..i];
    var r := Feed(Lax(env), b.p, b.h, x[..i]);
    if i == e {
      RunningPrefix(Lax(env), b.p, b.h, x[..e]);
      FeedLeavesUrl(Lax(env), b.p, b.h, x[..e]);
    } else if k > 0 {
      CutPasses(Lax(env), r.p, x[i], k);
    } else {
      PassesNone(Lax(env), r.p, x[i]);
    }
  }

  lemma PassesNone(env: Env, p: Rec, ch: char)
    ensures Passes(env, p, ch, 0) == Out(p, [], Again, false)
  {}

  /** No state between two passes of a byte is inside a URL, and a line end that
      is taken ends the URL. */
  lemma CutPasses(env: Env, p: Rec, ch: char, k: nat)
    requires k > 0
    ensures var o := Passes(env, p, ch, k);
      && (o.ctl.Again? ==> !InUrl(o.p.state))
      && (!o.ctl.Fail? && IsLineEnd(ch) ==> !InUrl(o.p.state))
  {
    hide Passes;
    var o := Passes(env, p, ch, k);
    if o.ctl.Again? { PassesRank(env, p, ch, k); }
    if IsLineEnd(ch) { PassesLeaveUrl(env, p, ch, k); }
  }
}
