/** A parser that waits for a request or a response: two bytes tell it which. */
module HttpEither {
  import opened HttpFeed
  import opened HttpStep
  import opened HttpTypes

  function ForRequest(p: Rec): Rec { p.(ptype := Request, state := StartReq) }

  function ForResponse(p: Rec): Rec { p.(ptype := Response, state := StartRes) }

  lemma OtherByte(env: Env, p: Rec, ch: char)
    requires p.state.StartReqOrRes? && ch != CR && ch != LF && ch != 'H'
    ensures var a, b := Byte(env, p, ch), Byte(env, ForRequest(p), ch);
      a.ev == b.ev && a.ctl == b.ctl && a.reset == b.reset && (!b.ctl.Fail? ==> a.p == b.p)
  {
    hide StepUrl, StepMethod, StepHeader, StepHeadersAlmostDone, StepHeadersDone, StepBody, FirstMethod;
    var q := Fresh(p).(ptype := Request, state := StartReq);
    assert Step(env, p, ch) == Redo(q);
    assert Byte(env, q, ch) == Step(env, q, ch);
    assert [] + Step(env, q, ch).ev == Step(env, q, ch).ev;
  }

  lemma HBytes(env: Env, p: Rec)
    requires p.state.StartReqOrRes?
    ensures Byte(env, p, 'H') == GoWith(Fresh(p).(state := ResOrRespH), MessageBegin)
    ensures Byte(env, ForRequest(p), 'H')
            == GoWith(Fresh(ForRequest(p)).(meth := HEAD, index := 1, state := ReqMethod), MessageBegin)
    ensures Byte(env, ForResponse(p), 'H') == GoWith(Fresh(ForResponse(p)).(state := ResH), MessageBegin)
  {
    hide StepUrl, StepMethod, StepHeader, StepHeadersAlmostDone, StepHeadersDone, StepBody;
  }

  lemma SecondByte(env: Env, p: Rec, ch: char)
    requires p.state.StartReqOrRes?
    ensures var a := Byte(env, Fresh(p).(state := ResOrRespH), ch);
      && (ch == 'E' ==> a == Go(Fresh(ForRequest(p)).(meth := HEAD, index := 2, state := ReqMethod)))
      && (ch == 'T' ==> a == Go(Fresh(ForResponse(p)).(state := ResHT)))
      && (ch != 'E' && ch != 'T' ==> a.ctl == Fail(InvalidConstant))
    ensures Byte(env, Fresh(ForRequest(p)).(meth := HEAD, index := 1, state := ReqMethod), 'E')
            == Go(Fresh(ForRequest(p)).(meth := HEAD, index := 2, state := ReqMethod))
    ensures Byte(env, Fresh(ForResponse(p)).(state := ResH), 'T') == Go(Fresh(ForResponse(p)).(state := ResHT))
  {
    hide StepUrl, StepHeader, StepHeadersAlmostDone, StepHeadersDone, StepBody, OtherMethod;
    assert MethodString(HEAD) == "HEAD";
  }

  lemma TwoBytes(env: Env, p: Rec, h: nat, ch: char)
    ensures Feed(env, p, h, ['H', ch]) == Extend(env, Extend(env, Start(p, h), 'H'), ch)
  {
    FeedOne(env, Start(p, h), 'H');
    FeedSnoc(env, Start(p, h), ['H'], ch);
    assert ['H'] + [ch] == ['H', ch];
  }

  lemma BeginsWithH(env: Env, p: Rec, h: nat, ch: char)
    requires p.state.StartReqOrRes?
    ensures var f := Feed(env, p, h, ['H', ch]);
      if ch == 'T' then f == Feed(env, ForResponse(p), h, ['H', ch])
      else if ch == 'E' then f == Feed(env, ForRequest(p), h, ['H', ch])
      else f.verdict == Failed(InvalidConstant)
  {
    hide Byte, FeedOn, ParsingHeader;
    TwoBytes(env, p, h, ch);
    TwoBytes(env, ForRequest(p), h, ch);
    TwoBytes(env, ForResponse(p), h, ch);
    HBytes(env, p);
    SecondByte(env, p, ch);
    SameCounts(p);
  }

  /** What begins with `HT` is read as a response; what begins with `HE`, or not with
      `H`, as a request; nothing else is accepted. */
  lemma EitherKind(env: Env, p: Rec, h: nat, w: string)
    requires p.state.StartReqOrRes? && |w| >= 2 && w[0] != CR && w[0] != LF
    ensures var f := Feed(env, p, h, w);
      if w[0] == 'H' && w[1] == 'T' then f == Feed(env, ForResponse(p), h, w)
      else if w[0] == 'H' && w[1] == 'E' then f == Feed(env, ForRequest(p), h, w)
      else if w[0] == 'H' then f.verdict == Failed(InvalidConstant)
      else
        var g := Feed(env, ForRequest(p), h, w);
        f.verdict == g.verdict && f.ev == g.ev && f.n == g.n && f.h == g.h && (!g.verdict.Failed? ==> f.p == g.p)
  {
    hide Byte, FeedOn, Extend;
    var k := if w[0] == 'H' then 2 else 1;
    var u, t := w[..k], w[k..];
    assert w == u + t;
    FeedConcat(env, Start(p, h), u, t);
    FeedConcat(env, Start(ForRequest(p), h), u, t);
    FeedConcat(env, Start(ForResponse(p), h), u, t);
    if w[0] == 'H' {
      assert u == ['H', w[1]];
      BeginsWithH(env, p, h, w[1]);
      if w[1] != 'T' && w[1] != 'E' { FeedStopped(env, Feed(env, p, h, u), t); }
    } else {
      assert u == [w[0]];
      BeginsOtherwise(env, p, h, w[0]);
      var a, b := Feed(env, p, h, u), Feed(env, ForRequest(p), h, u);
      if a.verdict.Failed? { FeedStopped(env, a, t); FeedStopped(env, b, t); }
    }
  }

  lemma BeginsOtherwise(env: Env, p: Rec, h: nat, ch: char)
    requires p.state.StartReqOrRes? && ch != CR && ch != LF && ch != 'H'
    ensures var f, g := Feed(env, p, h, [ch]), Feed(env, ForRequest(p), h, [ch]);
      && f.verdict == g.verdict && f.ev == g.ev && f.n == g.n && f.h == g.h
      && (if f.verdict.Failed? then true else f == g)
  {
    hide Byte, FeedOn, ParsingHeader;
    FeedOne(env, Start(p, h), ch);
    FeedOne(env, Start(ForRequest(p), h), ch);
    OtherByte(env, p, ch);
    SameCounts(p);
  }

  lemma SameCounts(p: Rec)
    requires p.state.StartReqOrRes?
    ensures ParsingHeader(p.state) && ParsingHeader(StartReq) && ParsingHeader(StartRes)
    ensures ParsingHeader(ResOrRespH) && ParsingHeader(ReqMethod) && ParsingHeader(ResH)
  {}

  /** Line ends before the message are passed over. */
  lemma {:induction false} EitherLineEnds(env: Env, p: Rec, w: string)
    requires p.state.StartReqOrRes? && forall i :: 0 <= i < |w| ==> w[i] == CR || w[i] == LF
    ensures Feed(env, p, 0, w).verdict.Running? && Feed(env, p, 0, w).p == p && Feed(env, p, 0, w).ev == []
  {
    hide Byte;
    if w != [] {
      EitherLineEnds(env, p, w[..|w| - 1]);
      EitherEndByte(env, p, w[|w| - 1]);
    }
  }

  lemma EitherEndByte(env: Env, p: Rec, ch: char)
    requires p.state.StartReqOrRes? && (ch == CR || ch == LF)
    ensures Byte(env, p, ch) == Go(p)
  {
    hide StepUrl, StepMethod, StepHeader, StepHeadersAlmostDone, StepHeadersDone, StepBody;
  }
}
