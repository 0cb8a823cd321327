/** Every method name is recognised, although the parser guesses the method from
    its first letter and changes its mind while it reads on. */
module HttpMethods {
  import opened HttpFeed
  import opened HttpFields
  import opened HttpInvariant
  import opened HttpReads
  import opened HttpStep
  import opened HttpTypes
  import opened Options

  /** What the parser takes the method to be after `k` characters of the name of `m`. */
  function Guess(m: Method, k: nat): Method {
    match m
    case PUT => if k <= 1 then POST else PUT
    case PATCH => if k <= 1 then POST else PATCH
    case PROPFIND => if k <= 1 then POST else PROPFIND
    case PROPPATCH => if k <= 1 then POST else if k <= 4 then PROPFIND else PROPPATCH
    case PURGE => if k <= 1 then POST else if k <= 2 then PUT else PURGE
    case CHECKOUT => if k <= 1 then CONNECT else CHECKOUT
    case COPY => if k <= 2 then CONNECT else COPY
    case MOVE => if k <= 1 then MKCOL else MOVE
    case MERGE => if k <= 1 then MKCOL else MERGE
    case MSEARCH => if k <= 1 then MKCOL else MSEARCH
    case MKACTIVITY => if k <= 2 then MKCOL else MKACTIVITY
    case MKCALENDAR => if k <= 3 then MKCOL else MKCALENDAR
    case SEARCH => if k <= 1 then SUBSCRIBE else SEARCH
    case REBIND => if k <= 2 then REPORT else REBIND
    case LINK => if k <= 1 then LOCK else LINK
    case UNSUBSCRIBE => if k <= 2 then UNLOCK else UNSUBSCRIBE
    case UNBIND => if k <= 2 then UNLOCK else UNBIND
    case UNLINK => if k <= 3 then UNLOCK else UNLINK
    case _ => m
  }

  /** The names of two methods agree at `k`, or the table says how to go on. */
  predicate GuessStep(m: Method, k: nat) {
    && k < |MethodString(m)|
    && var g := Guess(m, k); var ch := MethodString(m)[k];
       if k < |MethodString(g)| && MethodString(g)[k] == ch then Guess(m, k + 1) == g
       else ('A' <= ch <= 'Z' || ch == '-') && OtherMethod(g, k, ch) == Some(Guess(m, k + 1))
  }

  predicate Unchanging(m: Method) {
    m.DELETE? || m.GET? || m.HEAD? || m.POST? || m.CONNECT? || m.OPTIONS? || m.TRACE? || m.LOCK? || m.MKCOL?
    || m.UNLOCK? || m.BIND? || m.ACL? || m.REPORT? || m.NOTIFY? || m.SUBSCRIBE?
  }

  lemma UnchangingSteps(m: Method, k: nat)
    requires Unchanging(m) && 1 <= k < |MethodString(m)|
    ensures GuessStep(m, k)
  {
    hide MethodString, OtherMethod;
  }

  lemma PutStep(k: nat)
    requires 1 <= k < |MethodString(PUT)|
    ensures GuessStep(PUT, k)
  {}

  lemma PatchStep(k: nat)
    requires 1 <= k < |MethodString(PATCH)|
    ensures GuessStep(PATCH, k)
  {}

  lemma PropfindStep(k: nat)
    requires 1 <= k < |MethodString(PROPFIND)|
    ensures GuessStep(PROPFIND, k)
  {}

  lemma PurgeStep(k: nat)
    requires 1 <= k < |MethodString(PURGE)|
    ensures GuessStep(PURGE, k)
  {}

  lemma ProppatchStep(k: nat)
    requires 1 <= k < |MethodString(PROPPATCH)|
    ensures GuessStep(PROPPATCH, k)
  {}

  lemma CheckoutStep(k: nat)
    requires 1 <= k < |MethodString(CHECKOUT)|
    ensures GuessStep(CHECKOUT, k)
  {}

  lemma CopyStep(k: nat)
    requires 1 <= k < |MethodString(COPY)|
    ensures GuessStep(COPY, k)
  {}

  lemma MoveStep(k: nat)
    requires 1 <= k < |MethodString(MOVE)|
    ensures GuessStep(MOVE, k)
  {}

  lemma MergeStep(k: nat)
    requires 1 <= k < |MethodString(MERGE)|
    ensures GuessStep(MERGE, k)
  {}

  lemma MsearchStep(k: nat)
    requires 1 <= k < |MethodString(MSEARCH)|
    ensures GuessStep(MSEARCH, k)
  {}

  lemma MkactivityStep(k: nat)
    requires 1 <= k < |MethodString(MKACTIVITY)|
    ensures GuessStep(MKACTIVITY, k)
  {}

  lemma MkcalendarStep(k: nat)
    requires 1 <= k < |MethodString(MKCALENDAR)|
    ensures GuessStep(MKCALENDAR, k)
  {}

  lemma SearchStep(k: nat)
    requires 1 <= k < |MethodString(SEARCH)|
    ensures GuessStep(SEARCH, k)
  {}

  lemma RebindStep(k: nat)
    requires 1 <= k < |MethodString(REBIND)|
    ensures GuessStep(REBIND, k)
  {}

  lemma LinkStep(k: nat)
    requires 1 <= k < |MethodString(LINK)|
    ensures GuessStep(LINK, k)
  {}

  lemma UnsubscribeStep(k: nat)
    requires 1 <= k < |MethodString(UNSUBSCRIBE)|
    ensures GuessStep(UNSUBSCRIBE, k)
  {}

  lemma UnbindStep(k: nat)
    requires 1 <= k < |MethodString(UNBIND)|
    ensures GuessStep(UNBIND, k)
  {}

  lemma UnlinkStep(k: nat)
    requires 1 <= k < |MethodString(UNLINK)|
    ensures GuessStep(UNLINK, k)
  {}

  lemma GuessSteps(m: Method, k: nat)
    requires 1 <= k < |MethodString(m)|
    ensures GuessStep(m, k)
  {
    hide MethodString, OtherMethod, Guess, GuessStep;
    if Unchanging(m) { UnchangingSteps(m, k); }
    else if m.PUT? { PutStep(k); }
    else if m.PATCH? { PatchStep(k); }
    else if m.PROPFIND? { PropfindStep(k); }
    else if m.PURGE? { PurgeStep(k); }
    else if m.PROPPATCH? { ProppatchStep(k); }
    else if m.CHECKOUT? { CheckoutStep(k); }
    else if m.COPY? { CopyStep(k); }
    else if m.MOVE? { MoveStep(k); }
    else if m.MERGE? { MergeStep(k); }
    else if m.MSEARCH? { MsearchStep(k); }
    else if m.MKACTIVITY? { MkactivityStep(k); }
    else if m.MKCALENDAR? { MkcalendarStep(k); }
    else if m.SEARCH? { SearchStep(k); }
    else if m.REBIND? { RebindStep(k); }
    else if m.LINK? { LinkStep(k); }
    else if m.UNSUBSCRIBE? { UnsubscribeStep(k); }
    else if m.UNBIND? { UnbindStep(k); }
    else { UnlinkStep(k); }
  }

  lemma GuessEnds(m: Method)
    ensures FirstMethod(MethodString(m)[0]) == Some(Guess(m, 1))
    ensures Guess(m, |MethodString(m)|) == m
  {}

  function MethodRec(p: Rec, m: Method, k: nat): Rec {
    Fresh(p).(meth := Guess(m, k), index := k, state := ReqMethod)
  }

  lemma MethodFirstByte(env: Env, p: Rec, m: Method)
    requires p.state.StartReq?
    ensures MethodString(m) != []
    ensures Byte(env, p, MethodString(m)[0]) == GoWith(MethodRec(p, m, 1), MessageBegin)
  {
    hide StepUrl, StepResLine, StepMethod, StepHeader, StepHeadersDone, StepBody, MethodString, Guess, FirstMethod;
    MethodLength(m);
    GuessEnds(m);
    NotLineEnd(MethodString(m)[0]);
  }

  lemma NotLineEnd(ch: char)
    requires FirstMethod(ch).Some?
    ensures ch != CR && ch != LF
  {}

  lemma MethodByte(env: Env, p: Rec, m: Method, k: nat)
    requires 1 <= k < |MethodString(m)|
    ensures Byte(env, MethodRec(p, m, k), MethodString(m)[k]) == Go(MethodRec(p, m, k + 1))
  {
    hide StepUrl, StepResLine, StepReqLine, StepHeader, StepHeadersDone, StepBody, MethodString, Guess, OtherMethod;
    GuessSteps(m, k);
    NoSpace(m, k);
  }

  lemma NoSpace(m: Method, k: nat)
    requires k < |MethodString(m)|
    ensures 'A' <= MethodString(m)[k] <= 'Z' || MethodString(m)[k] == '-'
  {}

  lemma MethodLastByte(env: Env, p: Rec, m: Method)
    ensures var n := |MethodString(m)|;
      Byte(env, MethodRec(p, m, n), ' ') == Go(MethodRec(p, m, n).(state := ReqSpacesBeforeUrl, index := n + 1))
  {
    hide StepUrl, StepResLine, StepReqLine, StepHeader, StepHeadersDone, StepBody, MethodString, Guess, OtherMethod;
    GuessEnds(m);
  }

  lemma {:induction false} MethodPrefix(env: Env, p: Rec, m: Method, k: nat)
    requires p.state.StartReq? && 1 <= k <= |MethodString(m)|
    ensures Reads(env, p, MethodString(m)[..k], MethodRec(p, m, k), [MessageBegin])
  {
    hide Reads, Byte, MethodString, Guess;
    var s := MethodString(m);
    var none: seq<Event> := [];
    if k == 1 {
      MethodFirstByte(env, p, m);
      ReadsByte(env, p, s[0], MethodRec(p, m, 1));
      assert s[..1] == [s[0]];
      assert [MessageBegin] + none == [MessageBegin];
    } else {
      MethodPrefix(env, p, m, k - 1);
      MethodByte(env, p, m, k - 1);
      Next(env, p, s[..k - 1], MethodRec(p, m, k - 1), [MessageBegin], s[k - 1]);
      assert s[..k - 1] + [s[k - 1]] == s[..k];
      assert [MessageBegin] + (none + none) == [MessageBegin];
    }
  }

  /** The name of each of the 33 methods, and a space, are read as that method. */
  lemma MethodReads(env: Env, p: Rec, m: Method) returns (q: Rec)
    requires p.state.StartReq?
    ensures Reads(env, p, MethodString(m) + " ", q, [MessageBegin])
    ensures q == Fresh(p).(meth := m, index := q.index, state := ReqSpacesBeforeUrl) && q.index <= 17
  {
    hide Reads, Byte, MethodString, Guess;
    var s := MethodString(m);
    var n := |s|;
    var none: seq<Event> := [];
    MethodLength(m);
    MethodPrefix(env, p, m, n);
    assert s[..n] == s;
    MethodLastByte(env, p, m);
    Next(env, p, s, MethodRec(p, m, n), [MessageBegin], ' ');
    assert s + [' '] == s + " ";
    assert [MessageBegin] + (none + none) == [MessageBegin];
    GuessEnds(m);
    q := MethodRec(p, m, n).(state := ReqSpacesBeforeUrl, index := n + 1);
  }
}
