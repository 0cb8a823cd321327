/** Printing and parsing of 64-bit numbers, sizes and durations (src/util.cc and
    include/quicsy/util.h). */
module Numbers {
  import opened Decimals
  import opened Options

  const UINT64_MAX: nat := 0xFFFF_FFFF_FFFF_FFFF

  const SECONDS: nat := 1_000_000_000
  const MILLISECONDS: nat := 1_000_000
  const MICROSECONDS: nat := 1_000

  // ----- printing -----

  function DigitChar(d: nat): char
    requires d < 10
  { ('0' as int + d) as char }

  /** The decimal digits of `n`, without leading zeros. */
  function Digits(n: nat): string {
    if n < 10 then [DigitChar(n)] else Digits(n / 10) + [DigitChar(n % 10)]
  }

  lemma {:induction false} DigitsSpell(n: nat)
    ensures Digits(n) != [] && AllDigits(Digits(n)) && Decimal(Digits(n)) == n
    ensures n > 0 ==> Digits(n)[0] != '0'
  {
    if n >= 10 {
      DigitsSpell(n / 10);
      assert Digits(n)[..|Digits(n)| - 1] == Digits(n / 10);
    } else {
      assert Digits(n)[..0] == [];
    }
  }

  /** What is still to be written for the quotient `t`. */
  function Rest(t: nat): string { if t == 0 then [] else Digits(t) }

  lemma RestStep(t: nat)
    requires t > 0
    ensures Rest(t) == Rest(t / 10) + [DigitChar(t % 10)]
  {}

  lemma RestEnds(n: nat)
    ensures Rest(0) == [] && Digits(0) == "0" && (n > 0 ==> Rest(n) == Digits(n))
  {}

  /** The first loop of `format_uint` counts the digits. */
  method CountDigits(n: nat) returns (nlen: nat)
    ensures nlen == |Rest(n)|
  {
    hide Digits, DigitChar, Rest;
    RestEnds(n);
    nlen := 0;
    var t := n;
    while t > 0
      invariant nlen + |Rest(t)| == |Rest(n)|
      decreases t
    {
      RestStep(t);
      t := t / 10;
      nlen := nlen + 1;
    }
  }

  lemma Regroup(a: string, b: string, c: string)
    ensures a + b + c == a + (b + c)
  {}

  /** The second one fills them in from the back. */
  method FillDigits(res: array<char>, n: nat)
    requires res.Length == |Rest(n)|
    modifies res
    ensures res[..] == Rest(n)
  {
    hide Digits, DigitChar, Rest;
    RestEnds(n);
    var nlen, t := res.Length, n;
    ghost var done: string := [];
    while t > 0
      invariant nlen == |Rest(t)| <= res.Length && res[nlen..] == done
      invariant Rest(t) + done == Rest(n)
      decreases t
    {
      RestStep(t);
      var c := DigitChar(t % 10);
      nlen := nlen - 1;
      res[nlen] := c;
      assert res[nlen..] == [c] + done;
      Regroup(Rest(t / 10), [c], done);
      done := [c] + done;
      t := t / 10;
    }
    assert res[0..] == res[..];
  }

  /** `format_uint` */
  method FormatUint(n: nat) returns (r: string)
    ensures r == Digits(n)
  {
    hide Digits, Rest;
    RestEnds(n);
    if n == 0 { return "0"; }
    var nlen := CountDigits(n);
    var res := new char[nlen];
    FillDigits(res, n);
    r := res[..];
  }

  /** `format_uint_iec`; a mask of low bits that is zero is a remainder of zero. */
  function FormatUintIec(n: nat): string {
    if n >= 0x4000_0000 && n % 0x4000_0000 == 0 then Digits(n / 0x4000_0000) + "G"
    else if n >= 0x10_0000 && n % 0x10_0000 == 0 then Digits(n / 0x10_0000) + "M"
    else if n >= 0x400 && n % 0x400 == 0 then Digits(n / 0x400) + "K"
    else Digits(n)
  }

  /** `format_duration` */
  function FormatDuration(n: nat): string {
    if n >= 3600 * SECONDS && n % (3600 * SECONDS) == 0 then Digits(n / (3600 * SECONDS)) + "h"
    else if n >= 60 * SECONDS && n % (60 * SECONDS) == 0 then Digits(n / (60 * SECONDS)) + "m"
    else if n >= SECONDS && n % SECONDS == 0 then Digits(n / SECONDS) + "s"
    else if n >= MILLISECONDS && n % MILLISECONDS == 0 then Digits(n / MILLISECONDS) + "ms"
    else if n >= MICROSECONDS && n % MICROSECONDS == 0 then Digits(n / MICROSECONDS) + "us"
    else Digits(n) + "ns"
  }

  // ----- parsing -----

  /** The value of the leading digits and where they end; None for an empty string
      and for a number above 64 bits. */
  function Parsed(s: string): Option<(nat, nat)> {
    var k := DigitEnd(s);
    if s == [] || Decimal(s[..k]) > UINT64_MAX then None else Some((Decimal(s[..k]), k))
  }

  /** `parse_uint_internal`; the guard keeps the arithmetic within 64 bits. */
  method ParseUintInternal(s: string) returns (res: nat, idx: nat, rv: int)
    ensures rv == 0 || rv == -1
    ensures rv == 0 <==> Parsed(s).Some?
    ensures rv == 0 ==> Parsed(s) == Some((res, idx))
  {
    res := 0;
    if s == [] { return 0, 0, -1; }
    ghost var k := DigitEnd(s);
    DigitEndSplits(s);
    var i := 0;
    assert s[..0] == [];
    while i < |s|
      invariant 0 <= i <= k && AllDigits(s[..i]) && res == Decimal(s[..i]) <= UINT64_MAX
    {
      if !IsNum(s[i]) {
        DigitEndIs(s, i);
        return res, i, 0;
      }
      assert i < k;
      var d := Digit(s[i]);
      assert s[..i + 1][..i] == s[..i] && s[..k][..i + 1] == s[..i + 1];
      DecimalPrefix(s[..k], i + 1);
      if res > (UINT64_MAX - d) / 10 { return 0, i, -1; }
      res := res * 10;
      res := res + d;
      i := i + 1;
    }
    assert s[..|s|] == s;
    return res, |s|, 0;
  }

  /** `parse_uint` */
  function ParseUint(s: string): Option<nat> {
    match Parsed(s)
    case None => None
    case Some((res, idx)) => if idx != |s| then None else Some(res)
  }

  function Scaled(res: nat, m: nat): Option<nat>
    requires m > 0
  {
    if res > UINT64_MAX / m then None else Some(res * m)
  }

  /** `parse_uint_iec` */
  function ParseUintIec(s: string): Option<nat> {
    match Parsed(s)
    case None => None
    case Some((res, idx)) =>
      if idx == |s| then Some(res)
      else if idx + 1 != |s| then None
      else if s[idx] == 'G' || s[idx] == 'g' then Scaled(res, 0x4000_0000)
      else if s[idx] == 'M' || s[idx] == 'm' then Scaled(res, 0x10_0000)
      else if s[idx] == 'K' || s[idx] == 'k' then Scaled(res, 0x400)
      else None
  }

  /** `parse_duration` */
  function ParseDuration(s: string): Option<nat> {
    match Parsed(s)
    case None => None
    case Some((res, idx)) =>
      if idx == |s| then Some(res)
      else if idx + 1 == |s| then
        if s[idx] == 'H' || s[idx] == 'h' then Scaled(res, 3600 * SECONDS)
        else if s[idx] == 'M' || s[idx] == 'm' then Scaled(res, 60 * SECONDS)
        else if s[idx] == 'S' || s[idx] == 's' then Scaled(res, SECONDS)
        else None
      else if idx + 2 == |s| && (s[idx + 1] == 's' || s[idx + 1] == 'S') then
        if s[idx] == 'M' || s[idx] == 'm' then Scaled(res, MILLISECONDS)
        else if s[idx] == 'U' || s[idx] == 'u' then Scaled(res, MICROSECONDS)
        else if s[idx] == 'N' || s[idx] == 'n' then Some(res)
        else None
      else None
  }

  // ----- what the parsers accept -----

  /** `parse_uint` accepts exactly the non-empty strings of digits that spell a
      64-bit number. */
  lemma ParseUintExact(s: string, v: nat)
    ensures ParseUint(s) == Some(v) <==> s != [] && AllDigits(s) && Decimal(s) == v && v <= UINT64_MAX
  {
    DigitEndSplits(s);
    assert s[..|s|] == s;
    if AllDigits(s) { DigitEndIs(s, |s|); }
  }

  function Fold(c: char): char { if 'A' <= c <= 'Z' then (c as int + 32) as char else c }

  /** A suffix of one letter, or of one letter and an s, in either case. */
  predicate Letter(suffix: string, c: char) { |suffix| == 1 && Fold(suffix[0]) == c }

  predicate LetterAndS(suffix: string, c: char) { |suffix| == 2 && Fold(suffix[0]) == c && Fold(suffix[1]) == 's' }

  /** The factor of a size suffix. */
  function IecUnit(suffix: string): Option<nat> {
    if suffix == [] then Some(1)
    else if Letter(suffix, 'k') then Some(0x400)
    else if Letter(suffix, 'm') then Some(0x10_0000)
    else if Letter(suffix, 'g') then Some(0x4000_0000)
    else None
  }

  /** The factor of a duration suffix, in nanoseconds. */
  function DurationUnit(suffix: string): Option<nat> {
    if suffix == [] || LetterAndS(suffix, 'n') then Some(1)
    else if LetterAndS(suffix, 'u') then Some(MICROSECONDS)
    else if LetterAndS(suffix, 'm') then Some(MILLISECONDS)
    else if Letter(suffix, 's') then Some(SECONDS)
    else if Letter(suffix, 'm') then Some(60 * SECONDS)
    else if Letter(suffix, 'h') then Some(3600 * SECONDS)
    else None
  }

  /** Digits, which may be missing before a unit, and a unit; their product is a
      64-bit number. */
  predicate Spells(s: string, unit: Option<nat>, v: nat) {
    s != [] && unit.Some? && v == Decimal(s[..DigitEnd(s)]) * unit.value && v <= UINT64_MAX
  }

  lemma ScaledExact(res: nat, m: nat, v: nat)
    requires m > 0
    ensures Scaled(res, m) == Some(v) <==> v == res * m && v <= UINT64_MAX
  {
    var q := UINT64_MAX / m;
    assert q * m <= UINT64_MAX < (q + 1) * m;
    if res > q { assert res * m >= (q + 1) * m; } else { assert res * m <= q * m; }
  }

  lemma ParseUintIecExact(s: string, v: nat)
    ensures ParseUintIec(s) == Some(v) <==> Spells(s, IecUnit(s[DigitEnd(s)..]), v)
  {
    hide Scaled, DigitEnd, Decimal;
    var res := Decimal(s[..DigitEnd(s)]);
    ScaledExact(res, 0x400, v);
    ScaledExact(res, 0x10_0000, v);
    ScaledExact(res, 0x4000_0000, v);
  }

  lemma ParseDurationExact(s: string, v: nat)
    ensures ParseDuration(s) == Some(v) <==> Spells(s, DurationUnit(s[DigitEnd(s)..]), v)
  {
    hide Scaled, DigitEnd, Decimal;
    var res := Decimal(s[..DigitEnd(s)]);
    ScaledExact(res, MICROSECONDS, v);
    ScaledExact(res, MILLISECONDS, v);
    ScaledExact(res, SECONDS, v);
    ScaledExact(res, 60 * SECONDS, v);
    ScaledExact(res, 3600 * SECONDS, v);
  }

  // ----- round trips -----

  lemma PrintedEnd(n: nat, suffix: string)
    requires suffix == [] || !IsNum(suffix[0])
    ensures var s := Digits(n) + suffix;
      s != [] && DigitEnd(s) == |Digits(n)| && s[..DigitEnd(s)] == Digits(n) && s[DigitEnd(s)..] == suffix
  {
    DigitsSpell(n);
    var s := Digits(n) + suffix;
    assert s[..|Digits(n)|] == Digits(n);
    DigitEndIs(s, |Digits(n)|);
  }

  lemma UintRoundTrip(n: nat)
    requires n <= UINT64_MAX
    ensures ParseUint(Digits(n)) == Some(n)
  {
    DigitsSpell(n);
    ParseUintExact(Digits(n), n);
  }

  lemma UnitRoundTrip(q: nat, suffix: string, unit: Option<nat>, n: nat)
    requires suffix == [] || !IsNum(suffix[0])
    requires unit.Some? && n == q * unit.value && n <= UINT64_MAX
    ensures Spells(Digits(q) + suffix, unit, n)
  {
    PrintedEnd(q, suffix);
    DigitsSpell(q);
  }

  lemma UintIecRoundTrip(n: nat)
    requires n <= UINT64_MAX
    ensures ParseUintIec(FormatUintIec(n)) == Some(n)
  {
    hide Digits, Spells, ParseUintIec, DigitEnd;
    var suffix, m :=
      if n >= 0x4000_0000 && n % 0x4000_0000 == 0 then "G" else if n >= 0x10_0000 && n % 0x10_0000 == 0 then "M"
      else if n >= 0x400 && n % 0x400 == 0 then "K" else "",
      if n >= 0x4000_0000 && n % 0x4000_0000 == 0 then 0x4000_0000
      else if n >= 0x10_0000 && n % 0x10_0000 == 0 then 0x10_0000
      else if n >= 0x400 && n % 0x400 == 0 then 0x400 else 1;
    assert FormatUintIec(n) == Digits(n / m) + suffix;
    PrintedEnd(n / m, suffix);
    UnitRoundTrip(n / m, suffix, IecUnit(suffix), n);
    ParseUintIecExact(FormatUintIec(n), n);
  }

  /** The unit that `format_duration` chooses. */
  function DurationSuffix(n: nat): (string, nat) {
    if n >= 3600 * SECONDS && n % (3600 * SECONDS) == 0 then ("h", 3600 * SECONDS)
    else if n >= 60 * SECONDS && n % (60 * SECONDS) == 0 then ("m", 60 * SECONDS)
    else if n >= SECONDS && n % SECONDS == 0 then ("s", SECONDS)
    else if n >= MILLISECONDS && n % MILLISECONDS == 0 then ("ms", MILLISECONDS)
    else if n >= MICROSECONDS && n % MICROSECONDS == 0 then ("us", MICROSECONDS)
    else ("ns", 1)
  }

  lemma DurationRoundTrip(n: nat)
    requires n <= UINT64_MAX
    ensures ParseDuration(FormatDuration(n)) == Some(n)
  {
    hide Digits, Spells, ParseDuration, DigitEnd;
    var (suffix, m) := DurationSuffix(n);
    assert FormatDuration(n) == Digits(n / m) + suffix;
    PrintedEnd(n / m, suffix);
    assert DurationUnit(suffix) == Some(m);
    UnitRoundTrip(n / m, suffix, DurationUnit(suffix), n);
    ParseDurationExact(FormatDuration(n), n);
  }

  predicate Divides(m: nat, n: nat) { m > 0 && n % m == 0 }

  /** `format_uint_iec` chooses the largest unit that divides the number, if it is
      not zero. */
  lemma LargestIecUnit(n: nat) returns (suffix: string, m: nat)
    ensures m > 0 && FormatUintIec(n) == Digits(n / m) + suffix && IecUnit(suffix) == Some(m) && n % m == 0
    ensures suffix in ["", "K", "M", "G"]
    ensures n > 0 ==> forall t: string :: IecUnit(t).Some? && Divides(IecUnit(t).value, n) ==> IecUnit(t).value <= m
    ensures n == 0 ==> suffix == ""
  {
    hide Digits;
    suffix, m := "", 1;
    if n >= 0x4000_0000 && n % 0x4000_0000 == 0 { suffix, m := "G", 0x4000_0000; }
    else if n >= 0x10_0000 && n % 0x10_0000 == 0 { suffix, m := "M", 0x10_0000; }
    else if n >= 0x400 && n % 0x400 == 0 { suffix, m := "K", 0x400; }
    assert FormatUintIec(n) == Digits(n / m) + suffix;
  }

  /** And so does `format_duration`; a number without one is in nanoseconds. */
  lemma LargestDurationUnit(n: nat) returns (suffix: string, m: nat)
    ensures m > 0 && FormatDuration(n) == Digits(n / m) + suffix && DurationUnit(suffix) == Some(m) && n % m == 0
    ensures suffix in ["ns", "us", "ms", "s", "m", "h"]
    ensures n > 0 ==>
              forall t: string :: DurationUnit(t).Some? && Divides(DurationUnit(t).value, n) ==>
                                    DurationUnit(t).value <= m
    ensures n == 0 ==> suffix == "ns"
  {
    hide Digits;
    var (s, u) := DurationSuffix(n);
    suffix, m := s, u;
    assert FormatDuration(n) == Digits(n / m) + suffix;
  }

  /** A unit without digits is accepted as zero, while no digits at all are not. */
  lemma UnitAlone()
    ensures ParseUintIec("K") == Some(0) && ParseDuration("s") == Some(0) && ParseUint("") == None
  {
    ParseUintIecExact("K", 0);
    ParseDurationExact("s", 0);
  }
}
