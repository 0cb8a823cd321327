/** Decimal digits and the numbers they spell. */
module Decimals {

  predicate IsNum(c: char) { '0' <= c <= '9' }

  function Digit(c: char): nat
    requires IsNum(c)
  { c as int - '0' as int }

  /** The decimal value of the digits of `v`; other characters are skipped. */
  function Decimal(v: string): nat {
    if v == [] then 0
    else if IsNum(v[|v| - 1]) then Decimal(v[..|v| - 1]) * 10 + Digit(v[|v| - 1])
    else Decimal(v[..|v| - 1])
  }

  predicate AllDigits(v: string) { forall k :: 0 <= k < |v| ==> IsNum(v[k]) }

  /** More digits, a larger number. */
  lemma {:induction false} DecimalPrefix(v: string, k: nat)
    requires AllDigits(v) && k <= |v|
    ensures Decimal(v[..k]) <= Decimal(v)
  {
    if k < |v| {
      DecimalPrefix(v[..|v| - 1], k);
      assert v[..|v| - 1][..k] == v[..k];
    } else {
      assert v[..k] == v;
    }
  }

  /** Where the leading digits of `s` end. */
  function DigitEnd(s: string): (k: nat)
    ensures k <= |s|
  {
    if s == [] || !IsNum(s[0]) then 0 else 1 + DigitEnd(s[1..])
  }

  lemma {:induction false} DigitEndIs(s: string, k: nat)
    requires k <= |s| && AllDigits(s[..k]) && (k < |s| ==> !IsNum(s[k]))
    ensures DigitEnd(s) == k
  {
    if k > 0 {
      assert s[..k][0] == s[0];
      assert s[1..][..k - 1] == s[..k][1..];
      DigitEndIs(s[1..], k - 1);
    }
  }

  lemma {:induction false} DigitEndSplits(s: string)
    ensures var k := DigitEnd(s); AllDigits(s[..k]) && (k < |s| ==> !IsNum(s[k]))
  {
    if s != [] && IsNum(s[0]) {
      DigitEndSplits(s[1..]);
      var k := DigitEnd(s);
      forall i | 0 <= i < k ensures IsNum(s[..k][i]) {
        if i > 0 { assert s[..k][i] == s[1..][..k - 1][i - 1]; }
      }
    }
  }
}
