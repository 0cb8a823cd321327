/** Pausing is not seen in the result: callbacks may pause the parser anywhere, and
    calls go on with the bytes that were not taken, as a whole or in pieces. The
    one exception is `on_url` paused at a line end, where the byte is taken before
    the state is updated. */
module HttpPause {
  import opened HttpFeed
  import opened HttpMethods
  import opened HttpParser
  import opened HttpResume
  import opened HttpShape
  import opened HttpSplit
  import opened HttpStep
  import opened HttpSync
  import opened HttpTrace
  import opened HttpTypes
  import opened Options

  // ----- a URL that was cut at its line end -----

  /** In a URL that may end, of a request of version 0.9. */
  predicate ShortLine(v: Rec) { Inv(v) && AcceptsUrlEnd(v.state) && v.major == 0 && v.minor == 9 }

  predicate OnlyLineEnds(s: string) { forall i :: 0 <= i < |s| ==> IsLineEnd(s[i]) }

  /** The input begins with LF or with CR LF. */
  predicate LineEndAhead(s: string) {
    |s| > 0 && (s[0] == LF || (|s| > 1 && s[0] == CR && s[1] == LF))
  }

  function LineEndLength(s: string): (n: nat)
    ensures n <= |s|
  {
    if !LineEndAhead(s) then 0 else if s[0] == LF then 1 else 2
  }

  /** The end of a request of version 0.9: its headers are complete, and so is it. */
  function ShortEnd(env: Env, v: Rec): Out { Byte(Lax(env), v.(state := HeadersAlmostDone), LF) }

  /** There is no second request on the connection. */
  lemma ShortEndDead(env: Env, v: Rec)
    requires ShortLine(v)
    ensures var o := ShortEnd(env, v); o.ctl.Fail? || (!o.ctl.Again? && o.p.state.Dead? && o.reset)
  {
    hide Step, Inv;
    var w := v.(state := HeadersAlmostDone);
    assert NothingSet(w) by { ShortSetsNothing(v); }
    HeadersStep(Lax(env), w);
    var o := Step(Lax(env), w, LF);
    if o.ctl.Again? {
      DoneStep(Lax(env), o.p);
      assert Byte(Lax(env), o.p, LF) == Step(Lax(env), o.p, LF);
    }
  }

  /** A request of version 0.9 without header fields. */
  predicate NothingSet(p: Rec) {
    p.flags.(skipBody := false) == NO_FLAGS && p.contentLength == ULLONG_MAX && p.ptype.Request? && p.major == 0
  }

  lemma ShortSetsNothing(v: Rec)
    requires ShortLine(v)
    ensures NothingSet(v.(state := HeadersAlmostDone))
  {
    hide MethodString, NameStateOk, ValueStateOk;
  }

  lemma HeadersStep(env: Env, p: Rec)
    requires p.state.HeadersAlmostDone? && NothingSet(p)
    ensures var o := Step(env, p, LF); o.ctl.Fail? || (o.ctl.Again? && o.p.state.HeadersDone? && NothingSet(o.p))
  {
    hide StepResLine, StepReqLine, StepMethod, StepUrl, StepHeader, StepHeadersDone, StepBody;
  }

  lemma DoneStep(env: Env, p: Rec)
    requires p.state.HeadersDone? && NothingSet(p)
    ensures var o := Step(env, p, LF); !o.ctl.Fail? && !o.ctl.Again? && o.p.state.Dead? && o.reset
  {
    hide StepResLine, StepReqLine, StepMethod, StepUrl, StepHeader, StepHeadersAlmostDone, StepBody;
  }

  lemma ShortBytes(env: Env, v: Rec)
    requires ShortLine(v)
    ensures var b := ShortEnd(env, v);
      var z := v.(state := ReqLineAlmostDone);
      && Byte(Lax(env), v, LF) == Prefixed([Data(Url, [])], b)
      && Byte(Lax(env), v, CR) == GoWith(z, Data(Url, []))
      && Byte(Lax(env), z, LF) == b
  {
    hide Step, Inv;
    UrlSteps(env, v, LF);
    UrlSteps(env, v, CR);
    LineStep(env, v);
    var b := ShortEnd(env, v);
    assert [] + b.ev == b.ev;
  }

  lemma UrlSteps(env: Env, v: Rec, ch: char)
    requires AcceptsUrlEnd(v.state) && v.major == 0 && v.minor == 9 && IsLineEnd(ch)
    ensures Step(Lax(env), v, ch) ==
            if ch == LF then RedoWith(v.(state := HeadersAlmostDone), Data(Url, []))
            else GoWith(v.(state := ReqLineAlmostDone), Data(Url, []))
  {
    hide StepResLine, StepReqLine, StepMethod, StepHeader, StepHeadersAlmostDone, StepHeadersDone, StepBody;
    hide ParseUrlChar;
  }

  lemma LineStep(env: Env, v: Rec)
    requires v.major == 0
    ensures Step(Lax(env), v.(state := ReqLineAlmostDone), LF) == Redo(v.(state := HeadersAlmostDone))
  {
    hide StepResLine, StepUrl, StepMethod, StepHeader, StepHeadersAlmostDone, StepHeadersDone, StepBody;
  }

  lemma DeadByte(env: Env, p: Rec, ch: char)
    requires p.state.Dead?
    ensures Byte(env, p, ch) == if IsLineEnd(ch) then Go(p) else Refuse(p, ClosedConnection)
  {}

  /** After the last message only line ends are accepted. */
  lemma {:induction false} DeadRun(env: Env, p: Rec, h: nat, s: string)
    requires p.state.Dead?
    ensures var f := Feed(env, p, h, s);
      if OnlyLineEnds(s) then f == Run(p, h + |s|, h + |s|, [], |s|, Running) else f.verdict.Failed?
  {
    hide Byte;
    if s != [] {
      var t, ch := s[..|s| - 1], s[|s| - 1];
      DeadRun(env, p, h, t);
      DeadByte(env, p, ch);
      assert OnlyLineEnds(s) <==> OnlyLineEnds(t) && IsLineEnd(ch);
    }
  }

  /** The line end that ends the request. */
  lemma ShortHead(env: Env, v: Rec, h: nat, s: string)
    requires ShortLine(v) && LineEndAhead(s)
    ensures var n := LineEndLength(s);
      var f := Feed(Lax(env), v, h, s[..n]);
      var b := ShortEnd(env, v);
      && (b.ctl.Fail? ==> f.verdict.Failed?)
      && (!b.ctl.Fail? ==> f == Run(b.p, 0, h + n, [Data(Url, [])] + b.ev, n,
                                    if b.ctl.Exit? then Exited else Running))
  {
    hide Byte, ShortEnd, FeedOn, Inv;
    ShortEndDead(env, v);
    ShortBytes(env, v);
    var none: seq<Event> := [];
    var b := ShortEnd(env, v);
    assert none + [Data(Url, [])] == [Data(Url, [])];
    assert none + ([Data(Url, [])] + b.ev) == [Data(Url, [])] + b.ev;
    if s[0] == LF {
      assert s[..1] == [LF];
      FeedOne(Lax(env), Start(v, h), LF);
    } else {
      assert s[..2] == [CR] + [LF];
      FeedOne(Lax(env), Start(v, h), CR);
      FeedSnoc(Lax(env), Start(v, h), [CR], LF);
    }
  }

  /** All of the input, from the end of the URL on. */
  lemma ShortRun(env: Env, v: Rec, h: nat, s: string)
    requires ShortLine(v) && LineEndAhead(s)
    ensures var n := LineEndLength(s);
      var f := Feed(Lax(env), v, h, s);
      var b := ShortEnd(env, v);
      if b.ctl.Fail? then f.verdict.Failed?
      else if b.ctl.Exit? then f == Run(b.p, 0, h + n, [Data(Url, [])] + b.ev, n, Exited)
      else if !OnlyLineEnds(s[n..]) then f.verdict.Failed?
      else f == Run(b.p, |s| - n, Max(h + n, |s| - n), [Data(Url, [])] + b.ev, |s|, Running)
  {
    hide Byte, ShortEnd, FeedOn, Inv, Extend;
    var n := LineEndLength(s);
    var b := ShortEnd(env, v);
    ShortHead(env, v, h, s);
    ShortEndDead(env, v);
    assert s == s[..n] + s[n..];
    var f := Feed(Lax(env), v, h, s[..n]);
    FeedConcat(Lax(env), Start(v, h), s[..n], s[n..]);
    if f.verdict.Running? {
      FeedShift(Lax(env), f, s[n..]);
      DeadRun(Lax(env), b.p, 0, s[n..]);
      assert f.ev + [] == f.ev;
    } else {
      FeedStopped(Lax(env), f, s[n..]);
    }
  }

  /** Without a line end ahead the request does not end, or is refused. */
  lemma NoShortRun(env: Env, v: Rec, h: nat, s: string)
    requires ShortLine(v) && !LineEndAhead(s) && (s == [] || IsLineEnd(s[0]))
    ensures var f := Feed(Lax(env), v, h, s);
      && (s == [] ==> f == Start(v, h))
      && (s == [CR] ==> f.verdict.Running? && f.n == 1 && f.p == v.(state := ReqLineAlmostDone) && f.peak == h + 1)
      && (|s| > 1 ==> f.verdict.Failed?)
  {
    hide Byte, ShortEnd, Inv;
    ShortBytes(env, v);
    if s != [] {
      FeedOne(Lax(env), Start(v, h), CR);
      assert s == [CR] + s[1..];
      if |s| == 1 {
        assert s == [CR];
      } else {
        LfNeeded(env, v, h, s);
      }
    }
  }

  lemma LfNeeded(env: Env, v: Rec, h: nat, s: string)
    requires ShortLine(v) && |s| > 1 && s[0] == CR && s[1] != LF
    ensures Feed(Lax(env), v, h, s).verdict.Failed?
  {
    hide Byte, ShortEnd, Inv, FeedOn;
    ShortBytes(env, v);
    var z := v.(state := ReqLineAlmostDone);
    FeedOne(Lax(env), Start(v, h), CR);
    FeedSnoc(Lax(env), Start(v, h), [CR], s[1]);
    LfByte(Lax(env), z, s[1]);
    assert s == ([CR] + [s[1]]) + s[2..];
    FeedConcat(Lax(env), Start(v, h), [CR] + [s[1]], s[2..]);
    FeedStopped(Lax(env), Feed(Lax(env), v, h, [CR] + [s[1]]), s[2..]);
  }

  lemma LfByte(env: Env, z: Rec, ch: char)
    requires z.state.ReqLineAlmostDone? && ch != LF
    ensures Byte(env, z, ch).ctl == Fail(LfExpected)
  {
    hide StepResLine, StepMethod, StepUrl, StepHeader, StepHeadersAlmostDone, StepHeadersDone, StepBody;
  }

  /** From a URL that was cut at a line end, with `x` still to come of `s`, the run
      of `s` is met if and only if `x` begins with a line end, too. */
  lemma CutExact(env: Env, v: Rec, h: nat, s: string, l: nat, x: string)
    requires ShortLine(v) && s != [] && IsLineEnd(s[0]) && l <= h
    requires var f := Feed(Lax(env), v, h, s); !f.verdict.Failed? && f.n == |s|
    requires |x| < |s| && x == s[|s| - |x|..]
    ensures OnlyLineEnds(s)
    ensures var f := Feed(Lax(env), v, h, s);
      var g := Feed(Lax(env), v, l, x);
      && (LineEndAhead(x) ==>
            && g.p == f.p && Same([Data(Url, [])] + g.ev, f.ev)
            && !g.verdict.Failed? && g.n == |x|)
      && (!LineEndAhead(x) ==> g.verdict.Failed? || g.p != f.p)
      && (!g.verdict.Failed? ==> g.peak <= f.peak + 1 && (g.verdict.Exited? ==> g.n == |x|))
  {
    hide FeedOn, Byte, ShortEnd, Inv, Join;
    ShortEndDead(env, v);
    var b := ShortEnd(env, v);
    var m := LineEndLength(s);
    if LineEndAhead(s) { ShortRun(env, v, h, s); } else { NoShortRun(env, v, h, s); }
    assert OnlyLineEnds(s) by { ShortLineEnds(s, m); }
    if LineEndAhead(x) {
      ShortRun(env, v, l, x);
      var u := [Data(Url, [])];
      Absorb(u, Url);
      SameAfter(u + u, u, b.ev);
      assert u + u + b.ev == u + (u + b.ev);
    } else {
      NoShortRun(env, v, l, x);
    }
  }

  lemma ShortLineEnds(s: string, n: nat)
    requires n == LineEndLength(s) && OnlyLineEnds(s[n..]) && (n == 0 ==> s == [CR])
    ensures OnlyLineEnds(s)
  {
    forall i | 0 <= i < |s| ensures IsLineEnd(s[i]) {
      if i >= n { assert s[i] == s[n..][i - n]; }
    }
  }

  // ----- runs -----

  /** A run over `x`: each call is given some of what is left of the input, of the
      sizes in `sizes`; after a success or a pause the next call begins with the
      first byte that was not taken. The run ends when all is read or a call
      fails. No callback answers with an error. */
  ghost predicate Resumed(env: Env, b: Call, x: string, sizes: seq<nat>, calls: seq<Call>)
    decreases |calls|
  {
    && |sizes| == |calls|
    && if x == [] || !GoesOn(b.errno) then calls == []
       else
         && calls != [] && 0 < sizes[0] <= |x|
         && !calls[0].errno.CallbackFailed? && !calls[0].errno.InvalidEofState?
         && Allowed(env, b, x[..sizes[0]], calls[0])
         && calls[0].n <= |x|
         && Resumed(env, calls[0], x[calls[0].n..], sizes[1..], calls[1..])
  }

  /** What was left of the input when `on_url` was last paused at a line end. */
  function CutRest(x: string, calls: seq<Call>): Option<string>
    decreases |calls|
  {
    if calls == [] || calls[0].n > |x| then None
    else
      var rest := x[calls[0].n..];
      var later := CutRest(rest, calls[1..]);
      if later.Some? then later else if UrlCut(x, calls[0]) then Some(rest) else None
  }

  lemma {:induction false} TraceFront(b: Call, c: Call, calls: seq<Call>)
    requires calls != []
    ensures Trace(b, calls) == calls[0].t + Trace(c, calls[1..])
    ensures Last(b, calls) == Last(calls[0], calls[1..])
    decreases |calls|
  {
    var k := |calls| - 1;
    if k == 0 {
      assert calls[..0] == [] && calls[1..] == [];
      assert [] + calls[0].t == calls[0].t + [];
    } else {
      TraceFront(b, c, calls[..k]);
      assert calls[..k][1..] == calls[1..][..k - 1];
      assert calls[1..][k - 1] == calls[k];
      var u := Trace(c, calls[1..][..k - 1]);
      assert calls[0].t + u + calls[k].t == calls[0].t + (u + calls[k].t);
    }
  }

  /** A parse error is one of the byte-wise run, too; and the header limit is met
      only if it is in reach. */
  lemma CallFails(env: Env, b: Call, x: string, e: nat, c: Call)
    requires 0 < e <= |x| && Allowed(env, b, x[..e], c) && !GoesOn(c.errno)
    requires !c.errno.CallbackFailed? && !c.errno.InvalidEofState?
    requires Agrees(env, b.p, b.h, x)
    ensures var f := Feed(Lax(env), b.p, b.h, x);
      f.verdict.Failed? || f.peak + (b.nread - b.h) + 1 > HTTP_MAX_HEADER_SIZE
  {
    hide FeedOn, Told, Halted;
    UptoPeak(env, b.p, b.h, x, e);
    if !c.errno.HeaderOverflow? {
      FeedPart(env, b.p, b.h, x, e);
    }
  }

  /** What a run does that is not cut at the end of a URL: it is the byte-wise
      run. */
  lemma {:induction false} UncutRun(env: Env, b: Call, x: string, sizes: seq<nat>, calls: seq<Call>)
    requires GoesOn(b.errno) && Inv(b.p) && b.h <= b.nread && Resumed(env, b, x, sizes, calls)
    requires CutRest(x, calls).None?
    requires Agrees(env, b.p, b.h, x)
    requires var f := Feed(Lax(env), b.p, b.h, x);
      && (f.verdict.Exited? ==> f.n == |x|)
      && (f.verdict.Failed? || f.peak + (b.nread - b.h) + 2 * |calls| <= HTTP_MAX_HEADER_SIZE)
    ensures var f := Feed(Lax(env), b.p, b.h, x);
      var l := Last(b, calls);
      && (GoesOn(l.errno) <==> !f.verdict.Failed?)
      && (!f.verdict.Failed? ==> l.p == f.p && Same(Trace(b, calls), f.ev))
    decreases |calls|
  {
    hide FeedOn, Join, CallSpec, Inv;
    if x == [] {
      FeedEmpty(Lax(env), b.p, b.h);
    } else {
      var c := calls[0];
      var f := Feed(Lax(env), b.p, b.h, x);
      TraceFront(b, c, calls);
      if GoesOn(c.errno) {
        CallResumes(env, b, x, sizes[0], c);
        CallAgrees(env, b, x, sizes[0], c);
        UncutRun(env, c, x[c.n..], sizes[1..], calls[1..]);
        if !f.verdict.Failed? {
          SameBefore(c.t, Trace(c, calls[1..]), Feed(Lax(env), c.p, c.h, x[c.n..]).ev);
        }
      } else {
        CallFails(env, b, x, sizes[0], c);
        assert calls[1..] == [];
      }
    }
  }

  /** Outside a URL there is no such cut, as long as only line ends are read. */
  lemma {:induction false} StaysOut(env: Env, b: Call, x: string, sizes: seq<nat>, calls: seq<Call>)
    requires Resumed(env, b, x, sizes, calls) && OnlyLineEnds(x) && !InUrl(b.p.state)
    ensures CutRest(x, calls).None?
    decreases |calls|
  {
    hide FeedOn, CallSpec, InUrl, IsLineEnd;
    if calls != [] {
      var c := calls[0];
      if GoesOn(c.errno) {
        OutOfUrl(env, b, x, sizes[0], c);
        StaysOut(env, c, x[c.n..], sizes[1..], calls[1..]);
      }
    }
  }

  lemma OutOfUrl(env: Env, b: Call, x: string, e: nat, c: Call)
    requires 0 < e <= |x| && Allowed(env, b, x[..e], c) && GoesOn(c.errno) && OnlyLineEnds(x)
    requires !UrlCut(x, c) || !InUrl(b.p.state)
    ensures !InUrl(c.p.state)
  {
    hide FeedOn, InUrl, Join, Told, Passes;
    if c.errno.Ok? {
      LineEndsLeave(Lax(env), b.p, b.h, x[..e]);
    } else {
      var i: nat, k: nat :| HaltedAt(env, b.p, b.h, x[..e], i, k, Paused, c.n, c.p, c.t)
                            && c.h <= HaltCount(env, b.p, b.h, x[..e], i, k);
      LineEndsLeave(Lax(env), b.p, b.h, x[..e][..i]);
      if i < e && k > 0 { CutPasses(Lax(env), Upto(env, b.p, b.h, x[..e], i).p, x[i], k); }
      if i < e && k == 0 { UrlMayEnd(Upto(env, b.p, b.h, x[..e], i).p); }
    }
  }

  lemma UrlMayEnd(p: Rec)
    requires AcceptsUrlEnd(p.state)
    ensures InUrl(p.state) && InUrl(p.(major := 0, minor := 9).state)
  {}

  lemma {:induction false} LineEndsLeave(env: Env, p: Rec, h: nat, x: string)
    requires OnlyLineEnds(x) && !Feed(env, p, h, x).verdict.Failed?
    ensures x == [] || !InUrl(Feed(env, p, h, x).p.state)
    ensures x == [] ==> Feed(env, p, h, x).p == p
  {
    hide InUrl, Byte;
    if x != [] {
      var y := x[..|x| - 1];
      if Feed(env, p, h, y).verdict.Running? {
        ByteLeavesUrl(env, Feed(env, p, h, y).p, x[|x| - 1]);
      } else {
        LineEndsLeave(env, p, h, y);
      }
    }
  }

  /** From the input that was left at the last cut on, a line end must follow. */
  predicate CutMended(rest: Option<string>) { rest.None? || LineEndAhead(rest.value) }

  /** A run that begins where a URL was cut, with `x` still to come of `s`. */
  lemma {:induction false} CutRun(env: Env, v: Rec, h: nat, s: string, b: Call, x: string,
                                  sizes: seq<nat>, calls: seq<Call>)
    requires ShortLine(v) && s != [] && IsLineEnd(s[0])
    requires var f := Feed(Lax(env), v, h, s);
      && !f.verdict.Failed? && f.n == |s|
      && f.peak + (b.nread - b.h) + 2 * |calls| + 1 <= HTTP_MAX_HEADER_SIZE
    requires |x| < |s| && x == s[|s| - |x|..]
    requires b.p == v && b.h <= h && b.h <= b.nread && GoesOn(b.errno)
    requires Resumed(env, b, x, sizes, calls)
    ensures var f := Feed(Lax(env), v, h, s);
      var rest := CutRest(x, calls);
      var mended := LineEndAhead(if rest.Some? then rest.value else x);
      && (mended <==> GoesOn(Last(b, calls).errno) && Last(b, calls).p == f.p)
      && (mended ==> Same([Data(Url, [])] + Trace(b, calls), f.ev))
    decreases |calls|
  {
    hide FeedOn, Join, CallSpec, StateInv, InUrl;
    var u := [Data(Url, [])];
    CutExact(env, v, h, s, b.h, x);
    if CutRest(x, calls).None? {
      LineEndsAgree(env, v, b.h, s, x);
      UncutRun(env, b, x, sizes, calls);
      var g := Feed(Lax(env), v, b.h, x);
      if !g.verdict.Failed? { SameBefore(u, Trace(b, calls), g.ev); }
    } else {
      var c := calls[0];
      TraceFront(b, c, calls);
      assert OnlyLineEnds(x) by { assert forall i :: 0 <= i < |x| ==> x[i] == s[|s| - |x| + i]; }
      FirstIsCut(env, b, x, sizes, calls);
      var i := CallCut(env, b, x, sizes[0], c);
      CutAgain(env, v, b.h, x, i);
      CutRun(env, v, h, s, c, x[1..], sizes[1..], calls[1..]);
      UrlTwice(c.t, Trace(c, calls[1..]));
    }
  }

  /** Where only line ends are left, a call that is not cut is followed by none that is. */
  lemma FirstIsCut(env: Env, b: Call, x: string, sizes: seq<nat>, calls: seq<Call>)
    requires Resumed(env, b, x, sizes, calls) && OnlyLineEnds(x) && CutRest(x, calls).Some?
    ensures UrlCut(x, calls[0])
  {
    hide CallSpec, UrlCut, IsLineEnd, InUrl;
    var c := calls[0];
    if !UrlCut(x, c) && GoesOn(c.errno) {
      OutOfUrl(env, b, x, sizes[0], c);
      StaysOut(env, c, x[c.n..], sizes[1..], calls[1..]);
    }
  }

  lemma LineEndsAgree(env: Env, p: Rec, h: nat, s: string, x: string)
    requires OnlyLineEnds(s) && |x| <= |s| && x == s[|s| - |x|..]
    ensures Agrees(env, p, h, x)
  {
    hide FeedOn;
    assert forall i :: 0 <= i < |x| ==> x[i] == s[|s| - |x| + i];
    ValidBytes(env, Start(p, h), x);
  }

  /** A second cut comes at the very next byte. */
  lemma CutAgain(env: Env, v: Rec, h: nat, x: string, i: nat)
    requires i < |x| && OnlyLineEnds(x)
    requires var r := Feed(Lax(env), v, h, x[..i]); !r.verdict.Failed? && AcceptsUrlEnd(r.p.state)
    ensures i == 0 && Feed(Lax(env), v, h, x[..i]) == Start(v, h)
  {
    hide FeedOn, InUrl;
    LineEndsLeave(Lax(env), v, h, x[..i]);
    UrlMayEnd(Feed(Lax(env), v, h, x[..i]).p);
    FeedEmpty(Lax(env), v, h);
  }

  lemma UrlTwice(t: seq<Event>, later: seq<Event>)
    requires Same(t, [] + [Data(Url, [])])
    ensures Same([Data(Url, [])] + (t + later), [Data(Url, [])] + later)
  {
    hide Join;
    var u := [Data(Url, [])];
    assert [] + u == u;
    SameBefore(u, t, u);
    Absorb(u, Url);
    SameAfter(u + t, u, later);
    assert u + t + later == u + (t + later);
  }

  /** The version does not matter where a line end follows: it is set there. */
  lemma VersionSet(env: Env, p: Rec, h: nat, s: string)
    requires AcceptsUrlEnd(p.state) && s != [] && IsLineEnd(s[0])
    ensures var f, g := Feed(env, p, h, s), Feed(env, p.(major := 0, minor := 9), h, s);
      f == g || (f.verdict.Failed? && g.verdict.Failed?)
  {
    hide Byte, FeedOn;
    var v := p.(major := 0, minor := 9);
    FeedHead(env, p, h, s);
    FeedHead(env, v, h, s);
    VersionByte(env, p, s[0]);
    if Byte(env, p, s[0]).ctl.Fail? {
      FeedStopped(env, Extend(env, Start(p, h), s[0]), s[1..]);
      FeedStopped(env, Extend(env, Start(v, h), s[0]), s[1..]);
    }
  }

  lemma VersionByte(env: Env, p: Rec, ch: char)
    requires AcceptsUrlEnd(p.state) && IsLineEnd(ch)
    ensures Byte(env, p.(major := 0, minor := 9), ch) == Byte(env, p, ch)
    ensures ParsingHeader(p.state)
  {
    hide StepResLine, StepReqLine, StepMethod, StepHeader, StepHeadersAlmostDone, StepHeadersDone, StepBody;
    hide ParseUrlChar;
  }

  /** The first cut of a run, and what comes after it. */
  lemma FirstCut(env: Env, b: Call, x: string, sizes: seq<nat>, calls: seq<Call>)
    requires calls != [] && Resumed(env, b, x, sizes, calls) && UrlCut(x, calls[0])
    requires x != [] && GoesOn(b.errno) && Inv(b.p) && b.h <= b.nread
    requires var f := Feed(Lax(env), b.p, b.h, x);
      && !f.verdict.Failed? && f.n == |x|
      && f.peak + (b.nread - b.h) + 2 * |calls| + 1 <= HTTP_MAX_HEADER_SIZE
    ensures var f := Feed(Lax(env), b.p, b.h, x);
      var l := Last(b, calls);
      && (CutMended(CutRest(x, calls)) <==> GoesOn(l.errno) && l.p == f.p)
      && (CutMended(CutRest(x, calls)) ==> Same(Trace(b, calls), f.ev))
  {
    hide FeedOn, Join, CallSpec, StateInv, InUrl, LineEndAhead;
    var c := calls[0];
    TraceFront(b, c, calls);
    var i := CallCut(env, b, x, sizes[0], c);
    var r := Feed(Lax(env), b.p, b.h, x[..i]);
    var s := x[i..];
    assert x == x[..i] + s;
    FeedParts(Lax(env), b.p, b.h, x[..i], s);
    var f := Feed(Lax(env), r.p, r.h, s);
    VersionSet(Lax(env), r.p, r.h, s);
    FeedInv(Lax(env), Start(b.p, b.h), x[..i]);
    UrlPauseInv(r.p);
    CutRun(env, c.p, r.h, s, c, x[c.n..], sizes[1..], calls[1..]);
    if CutMended(CutRest(x, calls)) {
      var later := Trace(c, calls[1..]);
      var u := [Data(Url, [])];
      SameAfter(c.t, r.ev + u, later);
      SameBefore(r.ev, u + later, f.ev);
      assert r.ev + u + later == r.ev + (u + later);
    }
  }

  lemma {:induction false} PausedRun(env: Env, b: Call, x: string, sizes: seq<nat>, calls: seq<Call>)
    requires Resumed(env, b, x, sizes, calls)
    requires GoesOn(b.errno) && Inv(b.p) && b.h <= b.nread
    requires Agrees(env, b.p, b.h, x)
    requires var f := Feed(Lax(env), b.p, b.h, x);
      && !f.verdict.Failed? && f.n == |x|
      && f.peak + (b.nread - b.h) + 2 * |calls| + 1 <= HTTP_MAX_HEADER_SIZE
    ensures var f := Feed(Lax(env), b.p, b.h, x);
      var l := Last(b, calls);
      && (CutMended(CutRest(x, calls)) <==> GoesOn(l.errno) && l.p == f.p)
      && (CutMended(CutRest(x, calls)) ==> Same(Trace(b, calls), f.ev))
    decreases |calls|
  {
    hide FeedOn, Join, CallSpec, StateInv, InUrl, LineEndAhead;
    if x == [] {
      FeedEmpty(Lax(env), b.p, b.h);
    } else {
      var c := calls[0];
      if !GoesOn(c.errno) {
        CallFails(env, b, x, sizes[0], c);
        assert false;
      } else if UrlCut(x, c) {
        FirstCut(env, b, x, sizes, calls);
      } else {
        TraceFront(b, c, calls);
        CallResumes(env, b, x, sizes[0], c);
        CallAgrees(env, b, x, sizes[0], c);
        PausedRun(env, c, x[c.n..], sizes[1..], calls[1..]);
        if CutMended(CutRest(x, calls)) {
          SameBefore(c.t, Trace(c, calls[1..]), Feed(Lax(env), c.p, c.h, x[c.n..]).ev);
        }
      }
    }
  }

  /** Pauses are not seen in the result. One call reads all of the input without
      an error; its header values are valid, or not checked, so that the
      byte-wise run does not refuse it either; the limit is not in reach. Then a
      run over the same input in which callbacks pause anywhere, cut into calls in
      any way, goes well and ends in the same record and with the same joined
      callbacks, if and only if `on_url` was not paused at a line end, or another
      line end followed the last time it was. */
  lemma PausesUnseen(env: Env, b0: Call, x: string, sizes: seq<nat>, calls: seq<Call>, whole: Call)
    requires b0.errno.Ok? && Inv(b0.p) && b0.h <= b0.nread && x != []
    requires Allowed(env, b0, x, whole) && whole.errno.Ok? && whole.n == |x|
    requires !Feed(env, b0.p, b0.h, x).verdict.Failed?
    requires b0.nread + |x| + 2 * |calls| + 1 <= HTTP_MAX_HEADER_SIZE
             || Feed(Lax(env), b0.p, b0.h, x).peak + (b0.nread - b0.h) + 2 * |calls| + 1 <= HTTP_MAX_HEADER_SIZE
    requires Resumed(env, b0, x, sizes, calls)
    ensures CutMended(CutRest(x, calls)) <==>
            GoesOn(Last(b0, calls).errno) && Last(b0, calls).p == whole.p && Same(Trace(b0, calls), whole.t)
  {
    hide FeedOn, Join, Inv, Resumed, CutMended, Told;
    PeakBound(Lax(env), Start(b0.p, b0.h), x);
    PausedRun(env, b0, x, sizes, calls);
  }

  /** An input with such a cut is read to the end of its only request of version
      0.9, or not to the end of its request line. */
  lemma CutEnds(env: Env, b: Call, x: string, e: nat, c: Call)
    requires 0 < e <= |x| && Allowed(env, b, x[..e], c) && UrlCut(x, c) && Inv(b.p)
    requires !Feed(Lax(env), b.p, b.h, x).verdict.Failed?
    ensures var s := Feed(Lax(env), b.p, b.h, x).p.state; s.Dead? || s.ReqLineAlmostDone?
  {
    hide FeedOn, Join, StateInv, InUrl, CallSpec, ShortEnd;
    var i := CallCut(env, b, x, e, c);
    var r := Feed(Lax(env), b.p, b.h, x[..i]);
    var s := x[i..];
    assert x == x[..i] + s;
    FeedParts(Lax(env), b.p, b.h, x[..i], s);
    VersionSet(Lax(env), r.p, r.h, s);
    FeedInv(Lax(env), Start(b.p, b.h), x[..i]);
    UrlPauseInv(r.p);
    ShortEndDead(env, c.p);
    assert s == [s[0]] + s[1..];
    if LineEndAhead(s) { ShortRun(env, c.p, r.h, s); } else { NoShortRun(env, c.p, r.h, s); }
  }

  /** So there is none in a run that ends between two requests. */
  lemma {:induction false} NeverCut(env: Env, b: Call, x: string, sizes: seq<nat>, calls: seq<Call>)
    requires Resumed(env, b, x, sizes, calls) && Inv(b.p) && b.h <= b.nread
    requires var f := Feed(Lax(env), b.p, b.h, x);
      !f.verdict.Failed? && f.n == |x| && !f.p.state.Dead? && !f.p.state.ReqLineAlmostDone?
    ensures CutRest(x, calls).None?
    decreases |calls|
  {
    hide FeedOn, Join, CallSpec, Inv, UrlCut;
    if calls != [] {
      var c := calls[0];
      if UrlCut(x, c) {
        CutEnds(env, b, x, sizes[0], c);
      } else if GoesOn(c.errno) {
        CallResumes(env, b, x, sizes[0], c);
        NeverCut(env, c, x[c.n..], sizes[1..], calls[1..]);
      }
    }
  }

  // ----- a request line that shows the difference -----

  const GET_PATH := InitRec(Request).(contentLength := ULLONG_MAX, meth := GET, index := 4, state := ReqPath)

  /** One more byte of a request line. */
  lemma OneMore(env: Env, s: string, p: Rec, t: seq<Event>, x: string, q: Rec, e: seq<Event>)
    requires Feed(env, InitRec(Request), 0, s) == Run(p, |s|, |s|, t, |s|, Running)
    requires |x| == |s| + 1 && x[..|s|] == s
    requires ParsingHeader(p.state) && Byte(env, p, x[|s|]) == Out(q, e, Consume, false)
    ensures Feed(env, InitRec(Request), 0, x) == Run(q, |x|, |x|, t + e, |x|, Running)
  {
    hide Byte, FeedOn, ParsingHeader;
    assert x == s + [x[|s|]];
    FeedSnoc(env, Start(InitRec(Request), 0), s, x[|s|]);
  }

  lemma SlashBytes(env: Env, p: Rec)
    requires p.state.ReqSpacesBeforeUrl? && p.meth.GET?
    ensures Byte(env, p, '/') == GoWith(p.(state := ReqPath), Data(Url, "/"))
  {
    hide StepResLine, StepReqLine, StepMethod, StepHeader, StepHeadersAlmostDone, StepHeadersDone, StepBody;
  }

  lemma GetName(env: Env)
    ensures Feed(env, InitRec(Request), 0, "GET")
            == Run(MethodRec(InitRec(Request), GET, 3), 3, 3, [MessageBegin], 3, Running)
  {
    hide Byte, FeedOn;
    var b := InitRec(Request);
    var none: seq<Event> := [];
    var e := [MessageBegin];
    assert MethodString(GET) == "GET";
    assert forall k: nat :: MethodRec(b, GET, k).state.ReqMethod?;
    hide MethodRec, MethodString;
    assert e + none == e && none + e == e;
    FeedEmpty(env, b, 0);
    MethodFirstByte(env, b, GET);
    OneMore(env, "", b, none, "G", MethodRec(b, GET, 1), e);
    MethodByte(env, b, GET, 1);
    OneMore(env, "G", MethodRec(b, GET, 1), e, "GE", MethodRec(b, GET, 2), none);
    MethodByte(env, b, GET, 2);
    OneMore(env, "GE", MethodRec(b, GET, 2), e, "GET", MethodRec(b, GET, 3), none);
  }

  lemma GetBytes(env: Env)
    ensures Feed(env, InitRec(Request), 0, "GET /") == Run(GET_PATH, 5, 5, [MessageBegin, Data(Url, "/")], 5, Running)
  {
    hide Byte, FeedOn;
    var b := InitRec(Request);
    var none: seq<Event> := [];
    var e := [MessageBegin];
    assert e + none == e;
    var name, space := MethodRec(b, GET, 3), GET_PATH.(state := ReqSpacesBeforeUrl);
    assert name.(state := ReqSpacesBeforeUrl, index := 4) == space && |MethodString(GET)| == 3;
    assert name.state.ReqMethod?;
    GetName(env);
    MethodLastByte(env, b, GET);
    SlashBytes(env, space);
    hide MethodRec, MethodString;
    OneMore(env, "GET", name, e, "GET ", space, none);
    OneMore(env, "GET ", space, e, "GET /", GET_PATH, [Data(Url, "/")]);
    assert e + [Data(Url, "/")] == [MessageBegin, Data(Url, "/")];
  }

  lemma GetEnds(env: Env, v: Rec)
    requires v == GET_PATH.(major := 0, minor := 9) && env.onHeadersComplete(BeforeHeadersComplete(v)) == 0
    ensures ShortLine(v)
    ensures ShortEnd(env, v) == Out(v.(state := Dead), [HeadersComplete, MessageComplete], Consume, true)
  {
    hide StepResLine, StepReqLine, StepMethod, StepUrl, StepHeader, StepBody;
    var w := v.(state := HeadersAlmostDone);
    var q := BeforeHeadersComplete(w);
    assert Step(Lax(env), w, LF) == RedoWith(q, HeadersComplete);
    assert Step(Lax(env), q, LF) == Out(v.(state := Dead), [MessageComplete], Consume, true);
    assert Byte(Lax(env), q, LF) == Step(Lax(env), q, LF);
    assert [HeadersComplete] + [MessageComplete] == [HeadersComplete, MessageComplete];
  }

  /** The request `GET /` and a line feed: one call completes it. When `on_url`
      pauses, the same bytes are taken, but the request is not complete. */
  lemma ShortRequestPaused(env: Env)
    requires env.onHeadersComplete(BeforeHeadersComplete(GET_PATH.(major := 0, minor := 9))) == 0
    ensures var b0 := Call(0, InitRec(Request), 0, 0, Ok, []);
      var t := [MessageBegin, Data(Url, "/")];
      var p := GET_PATH.(major := 0, minor := 9);
      var whole := Call(6, p.(state := Dead), 0, 0, Ok, t + [HeadersComplete, MessageComplete]);
      var paused := Call(6, p, 5, 6, Paused, t);
      && Allowed(env, b0, "GET /\n", whole)
      && Allowed(env, b0, "GET /\n", paused)
      && Resumed(env, b0, "GET /\n", [6], [paused])
      && !CutMended(CutRest("GET /\n", [paused]))
  {
    hide FeedOn, Byte, Join, StateInv, StepUrl, ShortEnd, MethodString;
    var x := "GET /\n";
    var t := [MessageBegin, Data(Url, "/")];
    var p := GET_PATH.(major := 0, minor := 9);
    var b0 := Call(0, InitRec(Request), 0, 0, Ok, []);
    assert x[..5] == "GET /" && x[5..] == [LF];
    assert x == x[..5] + x[5..];
    GetBytes(Lax(env));
    FeedParts(Lax(env), InitRec(Request), 0, x[..5], x[5..]);
    GetEnds(env, p);
    ShortRun(env, p, 5, [LF]);
    VersionSet(Lax(env), GET_PATH, 5, [LF]);
    var f := Feed(Lax(env), InitRec(Request), 0, x);
    var u := [Data(Url, [])];
    var done := [HeadersComplete, MessageComplete];
    assert f.ev == t + (u + done);
    Absorb(t, Url);
    SameAfter(t + u, t, done);
    assert t + u + done == t + (u + done);
    assert t + done + [] == t + done;
    ToldBy(t + done, [], f.ev, f.ev);
    GetAllowed(env);
    assert x[..6] == x && x[6..] == [];
  }

  lemma GetAllowed(env: Env)
    ensures var b0 := Call(0, InitRec(Request), 0, 0, Ok, []);
      var t := [MessageBegin, Data(Url, "/")];
      Allowed(env, b0, "GET /\n", Call(6, GET_PATH.(major := 0, minor := 9), 5, 6, Paused, t))
  {
    hide FeedOn, Byte, Join, StateInv, StepUrl, MethodString;
    var x := "GET /\n";
    var t := [MessageBegin, Data(Url, "/")];
    assert x[..5] == "GET /";
    GetBytes(Lax(env));
    Absorb(t, Url);
    PassesNone(Lax(env), GET_PATH, LF);
    assert HaltedAt(env, InitRec(Request), 0, x, 5, 0, Paused, 6, GET_PATH.(major := 0, minor := 9), t);
    assert t + [] == t;
    UptoGrows(env, InitRec(Request), 0, x, 5);
    ToldBy(t, [], t, Feed(Lax(env), InitRec(Request), 0, x).ev);
  }
}
