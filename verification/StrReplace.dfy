/** `str_replace` of src/abr/utils.c: replacing every occurrence in two passes. */
module StrReplace {
  import opened Options

  /** A C string, without its terminator. */
  type CString = s: string | '\0' !in s

  predicate OccursAt(s: string, p: string, k: nat) { k + |p| <= |s| && s[k..k + |p|] == p }

  /** `strstr` */
  function Find(s: string, p: string): (r: Option<nat>)
    ensures r.Some? ==> r.value + |p| <= |s|
  {
    if |p| <= |s| && s[..|p|] == p then Some(0)
    else if s == [] then None
    else
      match Find(s[1..], p)
      case None => None
      case Some(k) => Some(k + 1)
  }

  /** It finds the first occurrence, if there is one. */
  lemma {:induction false} FindFirst(s: string, p: string, k: nat)
    ensures Find(s, p).Some? && k == Find(s, p).value ==> OccursAt(s, p, k)
    ensures Find(s, p).None? || k < Find(s, p).value ==> !OccursAt(s, p, k)
  {
    if s != [] && k > 0 {
      FindFirst(s[1..], p, k - 1);
      if k + |p| <= |s| { SliceOfTail(s, k, k + |p|); }
    }
  }

  lemma SliceOfTail(s: string, i: nat, j: nat)
    requires 0 < i <= j <= |s|
    ensures s[1..][i - 1..j - 1] == s[i..j]
  {}

  // ----- the specification -----

  /** The pieces of `s` between the occurrences of `p`, found leftmost first. */
  function Split(s: string, p: string): (r: seq<string>)
    requires p != []
    ensures r != []
    decreases |s|
  {
    match Find(s, p)
    case None => [s]
    case Some(k) => [s[..k]] + Split(s[k + |p|..], p)
  }

  function Join(pieces: seq<string>, sep: string): string
    requires pieces != []
  {
    if |pieces| == 1 then pieces[0] else pieces[0] + sep + Join(pieces[1..], sep)
  }

  /** Every occurrence of `p`, leftmost first and without overlap, replaced by `w`. */
  function ReplaceAll(s: string, p: string, w: string): string
    requires p != []
    decreases |s|
  {
    match Find(s, p)
    case None => s
    case Some(k) => s[..k] + w + ReplaceAll(s[k + |p|..], p, w)
  }

  function Count(s: string, p: string): nat
    requires p != []
    decreases |s|
  {
    match Find(s, p)
    case None => 0
    case Some(k) => 1 + Count(s[k + |p|..], p)
  }

  /** Cutting `s` at every `p` loses nothing, and replacing is joining with `w`
      instead. */
  lemma {:induction false} ReplaceIsJoin(s: string, p: string, w: string)
    requires p != []
    ensures Join(Split(s, p), p) == s
    ensures ReplaceAll(s, p, w) == Join(Split(s, p), w)
    ensures |Split(s, p)| == Count(s, p) + 1
    decreases |s|
  {
    hide Find, OccursAt;
    var f := Find(s, p);
    if f.Some? {
      var k := f.value;
      var rest := s[k + |p|..];
      FindFirst(s, p, k);
      ReplaceIsJoin(rest, p, w);
      assert Split(s, p)[1..] == Split(rest, p);
      assert s[..k] + p + rest == s by { SliceAt(s, p, k); }
    }
  }

  lemma SliceAt(s: string, p: string, k: nat)
    requires OccursAt(s, p, k)
    ensures s[..k] + p + s[k + |p|..] == s
  {}

  /** In each piece, with the `p` behind it, `p` does not occur any earlier; in the
      last it does not occur at all. */
  lemma {:induction false} SplitLeftmost(s: string, p: string, i: nat, k: nat)
    requires p != [] && i <= Count(s, p)
    ensures i < |Split(s, p)|
    ensures i < Count(s, p) && k < |Split(s, p)[i]| ==> !OccursAt(Split(s, p)[i] + p, p, k)
    ensures i == Count(s, p) ==> !OccursAt(Split(s, p)[i], p, k)
    decreases |s|
  {
    hide Find, OccursAt;
    FindFirst(s, p, k);
    var f := Find(s, p);
    if f.Some? {
      FindFirst(s, p, f.value);
      if i > 0 {
        SplitLeftmost(s[f.value + |p|..], p, i - 1, k);
      } else if k < f.value {
        Earlier(s, p, f.value, k);
      }
    }
  }

  lemma Earlier(s: string, p: string, f: nat, k: nat)
    requires OccursAt(s, p, f) && !OccursAt(s, p, k) && k < f
    ensures !OccursAt(s[..f] + p, p, k)
  {
    var v := s[..f] + p;
    assert v == s[..f + |p|];
    assert v[k..k + |p|] == s[k..k + |p|];
  }

  lemma {:induction false} ReplaceLength(s: string, p: string, w: string)
    requires p != []
    ensures |ReplaceAll(s, p, w)| == |s| + (|w| - |p|) * Count(s, p)
    decreases |s|
  {
    hide Find;
    var f := Find(s, p);
    if f.Some? {
      ReplaceLength(s[f.value + |p|..], p, w);
      var n := Count(s[f.value + |p|..], p);
      assert (|w| - |p|) * (n + 1) == (|w| - |p|) * n + |w| - |p|;
    }
  }

  // ----- the C library -----

  /** `strncpy` of a front that has no terminator in it. */
  method StrNCpy(a: array<char>, at: nat, src: string)
    requires at + |src| <= a.Length
    modifies a
    ensures a[..at] == old(a[..at]) && a[at..at + |src|] == src
    ensures forall k :: at + |src| <= k < a.Length ==> a[k] == old(a[k])
  {
    forall k | 0 <= k < |src| { a[at + k] := src[k]; }
  }

  /** `strcpy`: the terminator is copied as well. */
  method StrCpy(a: array<char>, at: nat, src: string)
    requires at + |src| < a.Length
    modifies a
    ensures a[..at] == old(a[..at]) && a[at..at + |src|] == src && a[at + |src|] == '\0'
    ensures forall k :: at + |src| < k < a.Length ==> a[k] == old(a[k])
  {
    forall k | 0 <= k < |src| { a[at + k] := src[k]; }
    a[at + |src|] := '\0';
  }

  // ----- the two passes -----

  /** The first pass: how often `rep` occurs in `s`. */
  method CountOccurrences(s: string, rep: string) returns (count: nat)
    requires rep != []
    ensures count == Count(s, rep)
  {
    hide Find;
    var ins := s;
    var tmp := Find(ins, rep);
    count := 0;
    while tmp.Some?
      invariant tmp == Find(ins, rep) && count + Count(ins, rep) == Count(s, rep)
      decreases |ins|
    {
      count := count + 1;
      ins := ins[tmp.value + |rep|..];
      tmp := Find(ins, rep);
    }
  }

  lemma NextReplaced(s: string, p: string, w: string)
    requires p != []
    ensures Count(s, p) > 0 <==> Find(s, p).Some?
    ensures Count(s, p) == 0 ==> ReplaceAll(s, p, w) == s
    ensures Count(s, p) > 0 ==>
              && Find(s, p).Some?
              && (var k := Find(s, p).value;
                  && Count(s[k + |p|..], p) == Count(s, p) - 1
                  && ReplaceAll(s, p, w) == s[..k] + w + ReplaceAll(s[k + |p|..], p, w))
  {}

  /** One turn of the second pass: the text before an occurrence, and the
      replacement. */
  method CopyPiece(a: array<char>, at: nat, front: string, w: string) returns (tmp: nat)
    requires at + |front| + |w| < a.Length
    modifies a
    ensures tmp == at + |front| + |w| && a[..tmp] == old(a[..at]) + front + w
  {
    StrNCpy(a, at, front);
    assert a[..at + |front|] == a[..at] + a[at..at + |front|];
    tmp := at + |front|;
    StrCpy(a, tmp, w);
    assert a[..tmp + |w|] == a[..tmp] + a[tmp..tmp + |w|];
    tmp := tmp + |w|;
  }

  /** The second pass: `a` has exactly the room that is needed. */
  method CopyReplaced(a: array<char>, s: string, rep: string, w: string, n: nat)
    requires rep != [] && n == Count(s, rep)
    requires a.Length == |ReplaceAll(s, rep, w)| + 1
    modifies a
    ensures a[..] == ReplaceAll(s, rep, w) + ['\0']
  {
    hide Find, ReplaceAll, Count;
    var orig, tmp, count := s, 0, n;
    ghost var done: string := [];
    while count > 0
      invariant count == Count(orig, rep) && tmp == |done| <= a.Length && a[..tmp] == done
      invariant done + ReplaceAll(orig, rep, w) == ReplaceAll(s, rep, w)
      decreases count
    {
      NextReplaced(orig, rep, w);
      var front := Find(orig, rep).value;
      ghost var rest := ReplaceAll(orig[front + |rep|..], rep, w);
      assert done + (orig[..front] + w + rest) == (done + orig[..front] + w) + rest;
      tmp := CopyPiece(a, tmp, orig[..front], w);
      done := done + orig[..front] + w;
      orig := orig[front + |rep|..];
      count := count - 1;
    }
    NextReplaced(orig, rep, w);
    StrCpy(a, tmp, orig);
    assert a[..] == a[..tmp] + a[tmp..tmp + |orig|] + [a[tmp + |orig|]];
  }

  /** `str_replace`; None stands for a null pointer. The result is null exactly when
      there is nothing to replace, or no memory. */
  method StrReplace(orig: Option<CString>, rep: Option<CString>, with: CString, memory: bool)
    returns (result: array?<char>)
    ensures result == null
            <==> orig.None? || rep.None? || rep.value == [] || Find(orig.value, rep.value).None? || !memory
    ensures result != null ==>
              && fresh(result)
              && result[..] == ReplaceAll(orig.value, rep.value, with) + ['\0']
              && result.Length == |orig.value| + (|with| - |rep.value|) * Count(orig.value, rep.value) + 1
              // a C string again, of which `strlen` finds the whole
              && forall k :: 0 <= k < result.Length ==> (result[k] == '\0' <==> k == result.Length - 1)
  {
    if orig.None? { return null; }
    if rep.None? || rep.value == [] { return null; }
    var ins := Find(orig.value, rep.value);
    if ins.None? { return null; }
    var s, p := orig.value, rep.value;
    var rest := CountOccurrences(s[ins.value..], p);
    FromFirst(s, p);
    ReplaceLength(s, p, with);
    if !memory { return null; }
    result := new char[|s| + (|with| - |p|) * rest + 1];
    CopyReplaced(result, s, p, with, rest);
    ReplacedIsCString(s, p, with);
    OneTerminator(ReplaceAll(s, p, with));
    assert forall k :: 0 <= k < result.Length ==> result[k] == result[..][k];
  }

  lemma OneTerminator(s: string)
    requires '\0' !in s
    ensures forall k :: 0 <= k <= |s| ==> ((s + ['\0'])[k] == '\0' <==> k == |s|)
  {}

  /** Counting from the first occurrence counts them all. */
  lemma FromFirst(s: string, p: string)
    requires p != [] && Find(s, p).Some?
    ensures Count(s[Find(s, p).value..], p) == Count(s, p)
  {
    hide Find;
    var k := Find(s, p).value;
    var t := s[k..];
    FindFirst(s, p, k);
    assert t[..|p|] == s[k..k + |p|];
    FindHere(t, p);
    assert t[|p|..] == s[k + |p|..];
  }

  lemma FindHere(s: string, p: string)
    requires |p| <= |s| && s[..|p|] == p
    ensures Find(s, p) == Some(0)
  {}

  /** Replacing brings in no terminator. */
  lemma {:induction false} ReplacedIsCString(s: CString, p: CString, w: CString)
    requires p != []
    ensures '\0' !in ReplaceAll(s, p, w)
    decreases |s|
  {
    hide Find;
    var f := Find(s, p);
    if f.Some? { ReplacedIsCString(s[f.value + |p|..], p, w); }
  }
}
