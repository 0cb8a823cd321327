/** Split invariance: how the input is cut into calls makes no difference. */
module HttpSplit {
  import opened HttpTypes
  import opened HttpStep
  import opened HttpInvariant
  import opened HttpTrace
  import opened HttpFeed
  import opened HttpShape
  import opened HttpParser

  /** What a call leaves behind. */
  datatype Call = Call(n: nat, p: Rec, h: nat, nread: nat, errno: Errno, t: seq<Event>)

  /** `c` is an outcome of the call on `data` that `HttpParser.Execute` allows. */
  ghost predicate Allowed(env: Env, b: Call, data: string, c: Call) {
    b.h <= b.nread && CallSpec(env, b.p, b.h, b.nread, data, c.n, c.p, c.h, c.nread, c.errno, c.t)
  }

  predicate AllHeaderChars(s: string) { forall k :: 0 <= k < |s| ==> IsHeaderChar(s[k]) }

  /** The strict parser refuses nothing but bytes that are no header characters. */
  lemma {:induction false} ValidBytes(env: Env, r: Run, s: string)
    requires env.lenient || AllHeaderChars(s)
    ensures FeedOn(env, r, s) == FeedOn(Lax(env), r, s)
  {
    hide Byte, IsHeaderChar;
    if env.lenient {
      assert env == Lax(env);
    } else if s != [] {
      ValidBytes(env, r, s[..|s| - 1]);
      ValidByte(env, FeedOn(env, r, s[..|s| - 1]).p, s[|s| - 1]);
    }
  }

  lemma {:induction false} ValidByte(env: Env, p: Rec, ch: char)
    requires IsHeaderChar(ch)
    ensures Byte(env, p, ch) == Byte(Lax(env), p, ch)
    decreases Rank(p.state)
  {
    hide StepUrl, StepResLine, StepReqLine, StepMethod, StepHeadersDone, StepBody, IsHeaderChar;
    hide StepValueStart, ValueStep, NameStep, Token, Rank;
    StepRank(env, p, ch);
    if Step(env, p, ch).ctl.Again? { ValidByte(env, Step(env, p, ch).p, ch); }
  }

  /** The header count never exceeds the number of bytes read. */
  lemma {:induction false} PeakBound(env: Env, r: Run, s: string)
    requires r.h <= r.peak
    ensures FeedOn(env, r, s).peak <= r.peak + |s| && FeedOn(env, r, s).h <= FeedOn(env, r, s).peak
  {
    hide Byte;
    if s != [] { PeakBound(env, r, s[..|s| - 1]); }
  }

  /** After `k` calls that read `done`: the record, the counter and the joined
      trace are those of the byte-wise run over `done`. */
  predicate Tracks(env: Env, b0: Call, done: string, k: nat, b: Call, t: seq<Event>) {
    && b0.h <= b0.nread
    && (var f := Feed(Lax(env), b0.p, b0.h, done);
        f.verdict.Running? && f.p == b.p && f.h == b.h && Same(t, f.ev))
    && b.h <= b.nread <= b.h + (b0.nread - b0.h) + k
  }

  lemma FeedParts(env: Env, p: Rec, h: nat, s: string, t: string)
    requires Feed(env, p, h, s).verdict.Running?
    ensures var f := Feed(env, p, h, s);
      && Feed(env, p, h, s + t) == After(f, Feed(env, f.p, f.h, t))
      && f.n == |s|
  {
    hide Extend;
    FeedConcat(env, Start(p, h), s, t);
    FeedCount(env, Start(p, h), s);
    FeedShift(env, Feed(env, p, h, s), t);
    hide FeedOn;
  }

  /** One more call. */
  lemma NextCall(env: Env, b0: Call, done: string, k: nat, b: Call, t: seq<Event>, part: string, c: Call)
    requires Tracks(env, b0, done, k, b, t) && Allowed(env, b, part, c)
    ensures var g := Feed(Lax(env), b0.p, b0.h, done + part);
      && (c.errno.Ok? ==> !g.verdict.Failed? && g.n == |done| + c.n && g.p == c.p && g.h == c.h && Same(t + c.t, g.ev))
      && (c.errno.Ok? && g.verdict.Running? ==> Tracks(env, b0, done + part, k + 1, c, t + c.t) && c.n == |part|)
      && (c.errno.HeaderOverflow? ==> g.peak + (b0.nread - b0.h) + k + 1 > HTTP_MAX_HEADER_SIZE)
    ensures ParseError(c.errno) ==> Feed(env, b0.p, b0.h, done + part).verdict.Failed?
  {
    hide FeedOn, Join;
    FeedParts(Lax(env), b0.p, b0.h, done, part);
    var f := Feed(Lax(env), b0.p, b0.h, done);
    var l := Feed(Lax(env), b.p, b.h, part);
    FeedCount(Lax(env), Start(b.p, b.h), part);
    if c.errno.Ok? {
      SameAfter(t, f.ev, c.t);
      SameBefore(f.ev, c.t, l.ev);
    } else if ParseError(c.errno) {
      StrictFeed(env, Start(b0.p, b0.h), done);
      if Feed(env, b0.p, b0.h, done).verdict.Running? {
        FeedParts(env, b0.p, b0.h, done, part);
      } else {
        StoppedAlready(env, b0.p, b0.h, done, part);
      }
    }
  }

  lemma StoppedAlready(env: Env, p: Rec, h: nat, s: string, t: string)
    requires !Feed(env, p, h, s).verdict.Running?
    ensures Feed(env, p, h, s + t) == Feed(env, p, h, s)
  {
    hide Extend;
    FeedConcat(env, Start(p, h), s, t);
    FeedStopped(env, Feed(env, p, h, s), t);
    hide FeedOn;
  }

  function Concat(parts: seq<string>): string {
    if parts == [] then [] else Concat(parts[..|parts| - 1]) + parts[|parts| - 1]
  }

  function Trace(b0: Call, calls: seq<Call>): seq<Event> {
    if calls == [] then [] else Trace(b0, calls[..|calls| - 1]) + calls[|calls| - 1].t
  }

  /** The parser after `calls`. */
  function Last(b0: Call, calls: seq<Call>): Call { if calls == [] then b0 else calls[|calls| - 1] }

  /** `calls` are outcomes of successive calls on `parts`, with callbacks that
      all return zero and do not pause. */
  ghost predicate Chain(env: Env, b0: Call, parts: seq<string>, calls: seq<Call>) {
    && |calls| == |parts|
    && forall i :: 0 <= i < |calls| ==>
         && !calls[i].errno.CallbackFailed? && !calls[i].errno.Paused? && !calls[i].errno.InvalidEofState?
         && (Last(b0, calls[..i]).errno.Ok? ==> Allowed(env, Last(b0, calls[..i]), parts[i], calls[i]))
  }

  /** All goes well up to `k` calls, if the byte-wise strict run over the whole
      input accepts it and the header limit is not in reach. */
  lemma {:induction false} ChainTracks(env: Env, b0: Call, parts: seq<string>, calls: seq<Call>, k: nat)
    requires b0.errno.Ok? && b0.h <= b0.nread
    requires Chain(env, b0, parts, calls) && k < |parts|
    requires forall i :: 0 <= i < |parts| ==> parts[i] != []
    requires var f := Feed(env, b0.p, b0.h, Concat(parts));
      !f.verdict.Failed? && f.n == |Concat(parts)| && f.peak + (b0.nread - b0.h) + |parts| <= HTTP_MAX_HEADER_SIZE
    ensures var b := Last(b0, calls[..k]);
      b.errno.Ok? && Tracks(env, b0, Concat(parts[..k]), k, b, Trace(b0, calls[..k]))
    ensures calls[k].errno.Ok?
    decreases k
  {
    hide Feed, CallSpec;
    if k == 0 {
      assert calls[..0] == [] && parts[..0] == [];
      StartTracks(env, b0);
    } else {
      ChainTracks(env, b0, parts, calls, k - 1);
      ChainLink(env, b0, parts, calls, k - 1);
      assert calls[..k][..k - 1] == calls[..k - 1] && parts[..k][..k - 1] == parts[..k - 1];
    }
    ChainLink(env, b0, parts, calls, k);
  }

  lemma StartTracks(env: Env, b0: Call)
    requires b0.errno.Ok? && b0.h <= b0.nread
    ensures Tracks(env, b0, [], 0, b0, [])
  {}

  /** One link: the next call succeeds, and goes on unless it is the last. */
  lemma ChainLink(env: Env, b0: Call, parts: seq<string>, calls: seq<Call>, k: nat)
    requires b0.h <= b0.nread
    requires Chain(env, b0, parts, calls) && k < |parts|
    requires forall i :: 0 <= i < |parts| ==> parts[i] != []
    requires var f := Feed(env, b0.p, b0.h, Concat(parts));
      !f.verdict.Failed? && f.n == |Concat(parts)| && f.peak + (b0.nread - b0.h) + |parts| <= HTTP_MAX_HEADER_SIZE
    requires var b := Last(b0, calls[..k]);
      b.errno.Ok? && Tracks(env, b0, Concat(parts[..k]), k, b, Trace(b0, calls[..k]))
    ensures calls[k].errno.Ok?
    ensures k + 1 < |parts| ==>
              Tracks(env, b0, Concat(parts[..k]) + parts[k], k + 1, calls[k], Trace(b0, calls[..k]) + calls[k].t)
    ensures k + 1 == |parts| ==>
              var f := Feed(env, b0.p, b0.h, Concat(parts));
              calls[k].p == f.p && calls[k].h == f.h && Same(Trace(b0, calls[..k]) + calls[k].t, f.ev)
    ensures calls[k].n == |parts[k]|
  {
    hide Feed, CallSpec, Tracks, Join;
    var done := Concat(parts[..k]);
    var all := Concat(parts);
    var b := Last(b0, calls[..k]);
    NextCall(env, b0, done, k, b, Trace(b0, calls[..k]), parts[k], calls[k]);
    ConcatPrefix(parts, k);
    PrefixAccepted(env, b0.p, b0.h, all, |done + parts[k]|);
    assert all[..|done + parts[k]|] == done + parts[k];
    if k + 1 == |parts| {
      assert parts[..k + 1] == parts;
    }
    assert !ParseError(calls[k].errno);
  }

  /** What holds of an accepted input holds of its prefixes; and a proper prefix
      does not end the call. */
  lemma PrefixAccepted(env: Env, p: Rec, h: nat, s: string, i: nat)
    requires i <= |s| && !Feed(env, p, h, s).verdict.Failed? && Feed(env, p, h, s).n == |s|
    ensures Feed(env, p, h, s[..i]) == Feed(Lax(env), p, h, s[..i])
    ensures !Feed(env, p, h, s[..i]).verdict.Failed?
    ensures i < |s| ==> Feed(env, p, h, s[..i]).verdict.Running?
    ensures Feed(env, p, h, s[..i]).peak <= Feed(env, p, h, s).peak
  {
    hide Extend;
    var f := Feed(env, p, h, s[..i]);
    assert s[..i] + s[i..] == s;
    FeedConcat(env, Start(p, h), s[..i], s[i..]);
    StrictFeed(env, Start(p, h), s[..i]);
    FeedCount(env, Start(p, h), s[..i]);
    if !f.verdict.Running? {
      FeedStopped(env, f, s[i..]);
    } else {
      FeedCount(env, f, s[i..]);
    }
    hide FeedOn;
  }

  lemma {:induction false} ConcatPrefix(parts: seq<string>, k: nat)
    requires k < |parts| && forall i :: 0 <= i < |parts| ==> parts[i] != []
    ensures Concat(parts[..k]) + parts[k] <= Concat(parts)
    ensures k + 1 == |parts| ==> Concat(parts[..k]) + parts[k] == Concat(parts)
    ensures k + 1 < |parts| ==> |Concat(parts[..k]) + parts[k]| < |Concat(parts)|
    decreases |parts|
  {
    var front := parts[..|parts| - 1];
    if k + 1 < |parts| {
      ConcatPrefix(front, k);
      assert front[..k] == parts[..k];
    }
  }

  /** Split invariance. One call reads all of the input without an error; its
      header values are valid (`ValidBytes`), or not checked, so that the
      byte-wise run does not refuse it either; the limit is not in reach. Then
      however the input is cut into non-empty calls, each of them succeeds and
      reads all it is given, the parser ends in the same record, and the
      callbacks are the same once adjacent data callbacks of one kind are joined. */
  lemma SplitInvariance(env: Env, b0: Call, parts: seq<string>, calls: seq<Call>, whole: Call)
    requires b0.errno.Ok? && b0.h <= b0.nread
    requires parts != [] && forall i :: 0 <= i < |parts| ==> parts[i] != []
    requires Allowed(env, b0, Concat(parts), whole) && whole.errno.Ok? && whole.n == |Concat(parts)|
    requires !Feed(env, b0.p, b0.h, Concat(parts)).verdict.Failed?
    requires b0.nread + |Concat(parts)| + |parts| <= HTTP_MAX_HEADER_SIZE
             || Feed(env, b0.p, b0.h, Concat(parts)).peak + (b0.nread - b0.h) + |parts| <= HTTP_MAX_HEADER_SIZE
    requires Chain(env, b0, parts, calls)
    ensures forall i :: 0 <= i < |calls| ==> calls[i].errno.Ok? && calls[i].n == |parts[i]|
    ensures Last(b0, calls).p == whole.p && Last(b0, calls).h == whole.h
    ensures Same(Trace(b0, calls), whole.t)
  {
    hide FeedOn, Join, Chain;
    var all := Concat(parts);
    StrictFeed(env, Start(b0.p, b0.h), all);
    PeakBound(env, Start(b0.p, b0.h), all);
    var k := |parts| - 1;
    assert |calls| == |parts| by { ChainLength(env, b0, parts, calls); }
    forall i | 0 <= i < |calls| ensures calls[i].errno.Ok? && calls[i].n == |parts[i]| {
      ChainTracks(env, b0, parts, calls, i);
      ChainLink(env, b0, parts, calls, i);
    }
    ChainTracks(env, b0, parts, calls, k);
    ChainLink(env, b0, parts, calls, k);
  }

  lemma ChainLength(env: Env, b0: Call, parts: seq<string>, calls: seq<Call>)
    requires Chain(env, b0, parts, calls)
    ensures |calls| == |parts|
  {
    hide Allowed;
  }
}
