/** `hexdump` of src/util.cc, and what its lines mean. */
module Hexdump {
  import opened Octets
  import opened Options

  // ----- the text of a line -----

  function HexDigit(d: nat): char
    requires d < 16
  {
    if d < 10 then ('0' as int + d) as char else ('a' as int + d - 10) as char
  }

  function HexNumber(n: nat): string {
    if n < 16 then [HexDigit(n)] else HexNumber(n / 16) + [HexDigit(n % 16)]
  }

  function Spaces(n: nat): string { seq(n, i => ' ') }

  function Zeros(n: nat): string { seq(n, i => '0') }

  /** "%08lx" */
  function OffsetText(n: nat): string {
    var h := HexNumber(n);
    if |h| < 8 then Zeros(8 - |h|) + h else h
  }

  /** "%02x " */
  function Cell(b: Byte): string { [HexDigit(b / 16), HexDigit(b % 16), ' '] }

  function Cells(b: Bytes): string {
    if b == [] then [] else Cells(b[..|b| - 1]) + Cell(b[|b| - 1])
  }

  /** Up to eight bytes, padded to their full width. */
  function Group(b: Bytes): string
    requires |b| <= 8
  {
    Cells(b) + Spaces(3 * (8 - |b|)) + " "
  }

  function Printable(b: Byte): char { if 0x20 <= b <= 0x7e then b as char else '.' }

  function Ascii(b: Bytes): string { seq(|b|, i requires 0 <= i < |b| => Printable(b[i])) }

  function Front(b: Bytes): Bytes { if |b| <= 8 then b else b[..8] }

  function Back(b: Bytes): Bytes { if |b| <= 8 then [] else b[8..] }

  function BlockLine(off: nat, b: Bytes): string
    requires |b| <= 16
  {
    OffsetText(off) + "  " + Group(Front(b)) + Group(Back(b)) + "|" + Ascii(b) + "|"
  }

  // ----- reading a line -----

  datatype Line = Star | Block(off: nat, bytes: Bytes) | End(off: nat)

  predicate IsHex(c: char) { '0' <= c <= '9' || 'a' <= c <= 'f' }

  function HexValue(c: char): nat
    requires IsHex(c)
  {
    if c <= '9' then c as int - '0' as int else c as int - 'a' as int + 10
  }

  function HexEnd(s: string): (k: nat)
    ensures k <= |s|
  {
    if s == [] || !IsHex(s[0]) then 0 else 1 + HexEnd(s[1..])
  }

  function HexNat(s: string): nat {
    if s == [] then 0
    else if IsHex(s[|s| - 1]) then 16 * HexNat(s[..|s| - 1]) + HexValue(s[|s| - 1])
    else HexNat(s[..|s| - 1])
  }

  /** At most `n` cells; a blank cell ends them. */
  function ReadCells(s: string, n: nat): Bytes {
    if n == 0 || |s| < 3 || !IsHex(s[0]) || !IsHex(s[1]) then []
    else [16 * HexValue(s[0]) + HexValue(s[1])] + ReadCells(s[3..], n - 1)
  }

  /** The columns of a dump: an offset, two blanks, two groups of 25 characters. */
  function ReadLine(s: string): Line {
    var k := HexEnd(s);
    if s == "*" then Star
    else if |s| < k + 27 then End(HexNat(s[..k]))
    else Block(HexNat(s[..k]), ReadCells(s[k + 2..], 8) + ReadCells(s[k + 27..], 8))
  }

  lemma HexDigitValue(d: nat)
    requires d < 16
    ensures IsHex(HexDigit(d)) && HexValue(HexDigit(d)) == d
  {}

  predicate AllHex(s: string) { forall i :: 0 <= i < |s| ==> IsHex(s[i]) }

  lemma {:induction false} HexNumberReads(n: nat)
    ensures AllHex(HexNumber(n)) && HexNat(HexNumber(n)) == n && HexNumber(n) != []
  {
    hide HexDigit, HexValue, IsHex;
    HexDigitValue(n % 16);
    if n >= 16 {
      HexNumberReads(n / 16);
      assert HexNumber(n)[..|HexNumber(n)| - 1] == HexNumber(n / 16);
    } else {
      assert HexNumber(n)[..0] == [];
    }
  }

  lemma {:induction false} LeadingZeros(n: nat, s: string)
    ensures HexNat(Zeros(n) + s) == HexNat(s)
    ensures AllHex(s) ==> AllHex(Zeros(n) + s)
    decreases |s|, n
  {
    var z := Zeros(n) + s;
    if s != [] {
      LeadingZeros(n, s[..|s| - 1]);
      assert z[..|z| - 1] == Zeros(n) + s[..|s| - 1];
    } else if n > 0 {
      LeadingZeros(n - 1, []);
      assert z[..|z| - 1] == Zeros(n - 1) + [];
    }
  }

  lemma OffsetReads(n: nat)
    ensures AllHex(OffsetText(n)) && HexNat(OffsetText(n)) == n && |OffsetText(n)| >= 8
  {
    HexNumberReads(n);
    if |HexNumber(n)| < 8 { LeadingZeros(8 - |HexNumber(n)|, HexNumber(n)); }
  }

  lemma {:induction false} HexEndIs(s: string, rest: string)
    requires AllHex(s) && (rest == [] || !IsHex(rest[0]))
    ensures HexEnd(s + rest) == |s|
  {
    if s == [] {
      assert s + rest == rest;
    } else {
      assert (s + rest)[1..] == s[1..] + rest;
      HexEndIs(s[1..], rest);
    }
  }

  lemma {:induction false} CellsLength(b: Bytes)
    ensures |Cells(b)| == 3 * |b|
  {
    if b != [] { CellsLength(b[..|b| - 1]); }
  }

  lemma {:induction false} CellsFirst(b: Bytes)
    requires b != []
    ensures Cells(b) == Cell(b[0]) + Cells(b[1..])
  {
    hide Cell;
    var n := |b| - 1;
    if n == 0 {
      assert b[..0] == [] && b[1..] == [];
      assert Cells(b) == Cells(b[..0]) + Cell(b[0]);
    } else {
      CellsFirst(b[..n]);
      assert b[..n][1..] == b[1..][..n - 1];
      assert Cell(b[0]) + (Cells(b[1..][..n - 1]) + Cell(b[n])) == (Cell(b[0]) + Cells(b[1..][..n - 1])) + Cell(b[n]);
    }
  }

  lemma {:induction false} CellsRead(b: Bytes, rest: string, n: nat)
    requires |b| <= n && (|b| < n ==> rest == [] || !IsHex(rest[0]))
    ensures ReadCells(Cells(b) + rest, n) == b
    decreases n
  {
    hide HexDigit, HexValue, IsHex;
    if b == [] {
      assert Cells(b) + rest == rest;
    } else {
      CellsFirst(b);
      HexDigitValue(b[0] / 16);
      HexDigitValue(b[0] % 16);
      var s := Cells(b) + rest;
      assert s[3..] == Cells(b[1..]) + rest;
      CellsRead(b[1..], rest, n - 1);
    }
  }

  lemma GroupReads(b: Bytes, rest: string)
    requires |b| <= 8
    ensures |Group(b)| == 25 && ReadCells(Group(b) + rest, 8) == b
  {
    CellsLength(b);
    var pad := Spaces(3 * (8 - |b|)) + " " + rest;
    assert Group(b) + rest == Cells(b) + pad;
    CellsRead(b, pad, 8);
  }

  /** Every line that `hexdump` prints can be read back. */
  lemma BlockReads(off: nat, b: Bytes)
    requires |b| <= 16
    ensures ReadLine(BlockLine(off, b)) == Block(off, b)
  {
    hide OffsetText, Group, Ascii, HexNat, ReadCells, AllHex, HexEnd;
    OffsetReads(off);
    var o, f, g, t := OffsetText(off), Front(b), Back(b), "|" + Ascii(b) + "|";
    var s := BlockLine(off, b);
    GroupReads(f, Group(g) + t);
    GroupReads(g, t);
    var rest := "  " + Group(f) + Group(g) + t;
    assert s == o + rest;
    HexEndIs(o, rest);
    assert s[..|o|] == o;
    assert s[|o| + 2..] == Group(f) + (Group(g) + t);
    assert s[|o| + 27..] == Group(g) + t;
    assert f + g == b;
  }

  /** The offset has eight digits, or as many as it needs. */
  lemma OffsetWidth(n: nat)
    ensures n < 0x1_0000_0000 ==> |OffsetText(n)| == 8
  {
    if n < 0x1_0000_0000 { HexNumberWidth(n, 8); }
  }

  function Power16(k: nat): nat { if k == 0 then 1 else 16 * Power16(k - 1) }

  lemma {:induction false} HexNumberShort(n: nat, k: nat)
    requires n < Power16(k) && k > 0
    ensures |HexNumber(n)| <= k
  {
    if n >= 16 { HexNumberShort(n / 16, k - 1); }
  }

  lemma HexNumberWidth(n: nat, k: nat)
    requires k == 8 && n < 0x1_0000_0000
    ensures |HexNumber(n)| <= 8
  {
    assert Power16(4) == 0x1_0000;
    assert Power16(8) == 16 * (16 * (16 * (16 * Power16(4))));
    HexNumberShort(n, 8);
  }

  /** The last column shows each byte of the block: the character, if it is printable
      ASCII, and a full stop otherwise. */
  predicate Legible(line: string) {
    ReadLine(line).Block? ==>
      var b, n := ReadLine(line).bytes, |line|;
      && n >= |b| + 2 && line[n - |b| - 2] == '|' && line[n - 1] == '|'
      && forall i :: 0 <= i < |b| ==>
           line[n - |b| - 1 + i] == if 0x20 <= b[i] <= 0x7e then b[i] as char else '.'
  }

  lemma BlockLegible(off: nat, b: Bytes)
    requires |b| <= 16
    ensures Legible(BlockLine(off, b))
  {
    hide OffsetText, Group, ReadLine;
    BlockReads(off, b);
    var s, t := BlockLine(off, b), OffsetText(off) + "  " + Group(Front(b)) + Group(Back(b));
    var a := Ascii(b);
    assert s == t + "|" + a + "|";
    assert s[|t|] == '|' && s[|s| - 1] == '|';
    forall i | 0 <= i < |b| ensures s[|s| - |b| - 1 + i] == Printable(b[i]) { assert s[|t| + 1 + i] == a[i]; }
  }

  /** A group of `n` bytes in eight places: two characters and a blank for each byte,
      blanks for the places that are left. */
  predicate Spaced(group: string, n: nat) {
    |group| == 25 && forall p :: 0 <= p < 25 ==> (group[p] == ' ' <==> p % 3 == 2 || p >= 3 * n)
  }

  /** The columns of a block line are at fixed distances behind its offset. */
  predicate Aligned(line: string) {
    ReadLine(line).Block? ==>
      var b, k := ReadLine(line).bytes, HexEnd(line);
      && k >= 8 && (ReadLine(line).off < 0x1_0000_0000 ==> k == 8)
      && |line| == k + 54 + |b| && line[k..k + 2] == "  "
      && Spaced(line[k + 2..k + 27], if |b| < 8 then |b| else 8)
      && Spaced(line[k + 27..k + 52], if |b| < 8 then 0 else |b| - 8)
  }

  lemma {:induction false} CellsSpaced(b: Bytes, p: nat)
    requires p < 3 * |b|
    ensures |Cells(b)| == 3 * |b| && (Cells(b)[p] == ' ' <==> p % 3 == 2)
  {
    CellsLength(b);
    var n := |b| - 1;
    CellsLength(b[..n]);
    if p < 3 * n { CellsSpaced(b[..n], p); }
  }

  lemma GroupSpaced(b: Bytes)
    requires |b| <= 8
    ensures Spaced(Group(b), |b|)
  {
    hide Cells;
    CellsLength(b);
    forall p | 0 <= p < 3 * |b| ensures Group(b)[p] == ' ' <==> p % 3 == 2 {
      CellsSpaced(b, p);
      assert Group(b)[p] == Cells(b)[p];
    }
  }

  lemma BlockAligned(off: nat, b: Bytes)
    requires |b| <= 16
    ensures Aligned(BlockLine(off, b))
  {
    hide OffsetText, Group, BlockLine, ReadLine, HexEnd, AllHex, Spaced, HexNat;
    BlockReads(off, b);
    OffsetReads(off);
    OffsetWidth(off);
    var o, f, g, t := OffsetText(off), Group(Front(b)), Group(Back(b)), "|" + Ascii(b) + "|";
    GroupSpaced(Front(b));
    GroupSpaced(Back(b));
    GroupReads(Front(b), []);
    GroupReads(Back(b), []);
    Slices(o, f, g, t);
    LineIs(off, b, OffsetText(off) + "  " + f + g + t);
    assert BlockLine(off, b) == o + ("  " + f + g + t);
    HexEndIs(o, "  " + f + g + t);
  }

  lemma Slices(o: string, f: string, g: string, t: string)
    requires |f| == 25 && |g| == 25
    ensures var s := o + ("  " + f + g + t);
      s[|o|..|o| + 2] == "  " && s[|o| + 2..|o| + 27] == f && s[|o| + 27..|o| + 52] == g
  {}

  predicate Neat(line: string) { Legible(line) && Aligned(line) }

  lemma BlockNeat(off: nat, b: Bytes)
    requires |b| <= 16
    ensures Neat(BlockLine(off, b))
  {
    hide Legible, Aligned;
    BlockLegible(off, b);
    BlockAligned(off, b);
  }

  lemma OthersNeat(off: nat)
    ensures Neat("*") && Neat(OffsetText(off))
  {
    hide ReadLine, OffsetText;
    StarReads();
    EndReads(off);
  }

  lemma EndReads(off: nat)
    ensures ReadLine(OffsetText(off)) == End(off)
  {
    hide OffsetText, HexNat, AllHex, HexEnd;
    OffsetReads(off);
    var o := OffsetText(off);
    HexEndIs(o, []);
    assert o + [] == o && o[..|o|] == o;
  }

  // ----- the meaning of the lines -----

  /** What has been recovered: the bytes, the last block, and whether it repeats. */
  datatype Reader = Reader(bytes: Bytes, last: Bytes, star: bool)

  /** The repeated blocks up to `off`. */
  function CatchUp(r: Reader, off: nat): Option<Bytes>
    decreases if off > |r.bytes| then off - |r.bytes| else 0
  {
    if |r.bytes| == off then Some(r.bytes)
    else if r.star && r.last != [] && |r.bytes| < off then CatchUp(r.(bytes := r.bytes + r.last), off)
    else None
  }

  function ReadOn(r: Option<Reader>, line: Line): Option<Reader> {
    if r.None? then None
    else
      match line
      case Star => Some(r.value.(star := true))
      case Block(off, b) =>
        (match CatchUp(r.value, off) case None => None case Some(x) => Some(Reader(x + b, b, false)))
      case End(off) =>
        (match CatchUp(r.value, off) case None => None case Some(x) => Some(Reader(x, [], false)))
  }

  function ReadAll(lines: seq<string>): Option<Reader> {
    if lines == [] then Some(Reader([], [], false))
    else ReadOn(ReadAll(lines[..|lines| - 1]), ReadLine(lines[|lines| - 1]))
  }

  /** The source of a dump: blocks and repetitions; the last line gives the length. */
  function Undump(lines: seq<string>): Option<Bytes> {
    if lines == [] then Some([])
    else
      match ReadAll(lines)
      case Some(r) => if ReadLine(lines[|lines| - 1]).End? then Some(r.bytes) else None
      case None => None
  }

  lemma ReadAllSnoc(lines: seq<string>, line: string)
    ensures ReadAll(lines + [line]) == ReadOn(ReadAll(lines), ReadLine(line))
  {
    assert (lines + [line])[..|lines|] == lines;
  }

  lemma {:induction false} CatchUpMore(r: Reader, off: nat)
    requires CatchUp(r, off).Some? && r.last != []
    ensures CatchUp(r.(star := true), off + |r.last|) == Some(CatchUp(r, off).value + r.last)
    decreases if off > |r.bytes| then off - |r.bytes| else 0
  {
    if |r.bytes| == off {
      var s := r.(star := true, bytes := r.bytes + r.last);
      assert CatchUp(s, off + |r.last|) == Some(s.bytes);
    } else {
      CatchUpMore(r.(bytes := r.bytes + r.last), off);
    }
  }

  // ----- printing -----

  /** The bytes that `hexdump8` prints; past the end of `src` there are none. */
  function Eight(src: Bytes, first: nat, last: nat): (b: Bytes)
    requires first <= last && (first < last ==> last <= |src|)
    ensures |b| <= 8
  {
    if first == last then [] else src[first..if first + 8 < last then first + 8 else last]
  }

  lemma CellsSnoc(b: Bytes, k: nat)
    requires k < |b|
    ensures Cells(b[..k + 1]) == Cells(b[..k]) + Cell(b[k])
  {
    assert b[..k + 1][..k] == b[..k];
  }

  /** `hexdump8` */
  method Hexdump8(src: Bytes, first: nat, last: nat) returns (out: string)
    requires first <= last && (first < last ==> last <= |src|)
    ensures out == Group(Eight(src, first, last))
  {
    hide Cells, Cell;
    ghost var b := Eight(src, first, last);
    var stop := if first + 8 < last then first + 8 else last;
    out := [];
    var k := first;
    assert Cells(b[..0]) == [] by { NoCells(b); }
    while k < stop
      invariant first <= k <= stop && stop == first + |b| && out == Cells(b[..k - first])
    {
      CellsSnoc(b, k - first);
      out := out + Cell(src[k]);
      k := k + 1;
    }
    assert b[..|b|] == b;
    while stop < first + 8
      invariant first + |b| <= stop <= first + 8
      invariant out == Cells(b) + Spaces(3 * (stop - first - |b|))
    {
      Wider(3 * (stop - first - |b|));
      out := out + "   ";
      stop := stop + 1;
    }
    out := out + " ";
  }

  lemma NoCells(b: Bytes)
    ensures Cells(b[..0]) == []
  {}

  lemma Wider(n: nat)
    ensures Spaces(n) + "   " == Spaces(n + 3)
  {}

  /** The two groups of a line are the block. */
  lemma BothGroups(src: Bytes, i: nat)
    requires i <= |src|
    ensures var stop := if i + 16 < |src| then i + 16 else |src|;
      var end := if i + 8 > |src| then i + 8 else |src|;
      && Eight(src, i, |src|) == Front(src[i..stop]) && Eight(src, i + 8, end) == Back(src[i..stop])
  {}

  /** What has been printed when `hexdump` is at position `i`: the lines so far mean
      the bytes before `i`, and the last block is in `buf`. */
  predicate Printed(src: Bytes, lines: seq<string>, buf: Bytes, repeated: bool, i: nat)
    requires i <= |src|
  {
    var r := ReadAll(lines);
    && r.Some? && r.value.last == buf && r.value.star == repeated
    && CatchUp(r.value, i) == Some(src[..i])
  }

  /** Never two stars in a row, and a block is not printed if it is the same as the
      one before it. */
  predicate Compressed(lines: seq<string>) {
    && (forall k :: 0 <= k < |lines| - 1 ==> !(ReadLine(lines[k]).Star? && ReadLine(lines[k + 1]).Star?))
    && (forall k :: 0 <= k < |lines| - 1 && ReadLine(lines[k]).Block? && ReadLine(lines[k + 1]).Block? ==>
          ReadLine(lines[k]).bytes != ReadLine(lines[k + 1]).bytes)
    && (forall k :: 0 <= k < |lines| - 2 && ReadLine(lines[k + 1]).Star? ==>
          ReadLine(lines[k]).Block?
          && (ReadLine(lines[k + 2]).Block? ==> ReadLine(lines[k]).bytes != ReadLine(lines[k + 2]).bytes))
  }

  predicate IsBlock(line: string, b: Bytes) { ReadLine(line).Block? && ReadLine(line).bytes == b }

  /** What the last lines say about the state of the loop. */
  predicate Remembers(lines: seq<string>, buf: Bytes, repeated: bool) {
    && (lines == [] ==> buf == [] && !repeated)
    && (lines != [] && !repeated ==> IsBlock(lines[|lines| - 1], buf))
    && (repeated ==> |lines| > 1 && ReadLine(lines[|lines| - 1]).Star? && IsBlock(lines[|lines| - 2], buf))
  }

  predicate Kept(lines: seq<string>, buf: Bytes, repeated: bool) {
    Compressed(lines) && Remembers(lines, buf, repeated) && AllNeat(lines)
  }

  predicate AllNeat(lines: seq<string>) { forall k :: 0 <= k < |lines| ==> Neat(lines[k]) }

  /** The first `n` lines show sixteen bytes each, as far as they show any. */
  predicate FullRows(lines: seq<string>, n: int) {
    forall k :: 0 <= k < |lines| && k < n && ReadLine(lines[k]).Block? ==> |ReadLine(lines[k]).bytes| == 16
  }

  lemma FullMore(lines: seq<string>, line: string, n: int)
    requires FullRows(lines, n) && n <= |lines|
    ensures FullRows(lines, n - 1) && FullRows(lines + [line], n)
    ensures n == |lines| && (ReadLine(line).Block? ==> |ReadLine(line).bytes| == 16) ==> FullRows(lines + [line], n + 1)
  {
    hide ReadLine;
  }

  lemma KeepNothing()
    ensures Kept([], [], false) && AllNeat([]) && Compressed([]) && FullRows([], 0) && FullRows([], -2)
  {}

  lemma KeepStar(lines: seq<string>, buf: Bytes)
    requires Kept(lines, buf, false) && buf != []
    ensures Kept(lines + ["*"], buf, true)
  {
    hide ReadLine, Neat;
    StarReads();
    OthersNeat(0);
  }

  lemma KeepBlock(lines: seq<string>, buf: Bytes, repeated: bool, off: nat, b: Bytes)
    requires Kept(lines, buf, repeated) && b != buf && |b| <= 16
    ensures Kept(lines + [BlockLine(off, b)], b, false)
  {
    hide ReadLine, Neat, BlockLine;
    BlockReads(off, b);
    BlockNeat(off, b);
  }

  lemma KeepEnd(lines: seq<string>, buf: Bytes, repeated: bool, off: nat)
    requires Kept(lines, buf, repeated)
    ensures Compressed(lines + [OffsetText(off)]) && AllNeat(lines + [OffsetText(off)])
  {
    hide ReadLine, Neat, OffsetText;
    EndReads(off);
    OthersNeat(off);
  }

  lemma PrintStar(src: Bytes, lines: seq<string>, buf: Bytes, repeated: bool, i: nat)
    requires i + |buf| <= |src| && buf != [] && Printed(src, lines, buf, repeated, i) && src[i..i + |buf|] == buf
    ensures !repeated ==> Printed(src, lines + ["*"], buf, true, i + |buf|)
    ensures repeated ==> Printed(src, lines, buf, true, i + |buf|)
  {
    ReadAllSnoc(lines, "*");
    CatchUpMore(ReadAll(lines).value, i);
    assert src[..i + |buf|] == src[..i] + src[i..i + |buf|];
    assert ReadAll(lines).value.star ==> ReadAll(lines).value.(star := true) == ReadAll(lines).value;
  }

  lemma PrintBlock(src: Bytes, lines: seq<string>, buf: Bytes, repeated: bool, i: nat, b: Bytes)
    requires i + |b| <= |src| && |b| <= 16 && Printed(src, lines, buf, repeated, i) && src[i..i + |b|] == b
    ensures Printed(src, lines + [BlockLine(i, b)], b, false, i + |b|)
  {
    hide BlockLine, ReadLine;
    ReadAllSnoc(lines, BlockLine(i, b));
    BlockReads(i, b);
    assert src[..i + |b|] == src[..i] + src[i..i + |b|];
  }

  lemma PrintEnd(src: Bytes, lines: seq<string>, buf: Bytes, repeated: bool)
    requires Printed(src, lines, buf, repeated, |src|)
    ensures Undump(lines + [OffsetText(|src|)]) == Some(src)
  {
    hide OffsetText, ReadLine;
    ReadAllSnoc(lines, OffsetText(|src|));
    EndReads(|src|);
    assert src[..|src|] == src;
  }

  /** One line: offset, bytes, characters. */
  method PrintLine(src: Bytes, i: nat, stop: nat) returns (line: string)
    requires i < |src| && stop == if i + 16 < |src| then i + 16 else |src|
    ensures line == BlockLine(i, src[i..stop])
  {
    hide OffsetText, Group, Eight, Front, Back, Ascii, BlockLine;
    BothGroups(src, i);
    line := OffsetText(i) + "  ";
    var group := Hexdump8(src, i, |src|);
    line := line + group;
    group := Hexdump8(src, i + 8, if i + 8 > |src| then i + 8 else |src|);
    line := line + group + "|";
    var text := AsciiText(src[i..stop]);
    line := line + text + "|";
    LineIs(i, src[i..stop], line);
  }

  /** `hexdump`: its lines, read back, are the source, and the last one gives the
      length. */
  method Hexdump(src: Bytes) returns (lines: seq<string>)
    ensures Undump(lines) == Some(src)
    ensures src == [] ==> lines == []
    ensures src != [] ==> lines != [] && lines[|lines| - 1] == OffsetText(|src|)
    ensures Compressed(lines) && AllNeat(lines) && FullRows(lines, |lines| - 2)
  {
    hide AllNeat, FullRows, Compressed, Kept, Printed, BlockLine, OffsetText, Undump, ReadLine;
    KeepNothing();
    lines := [];
    if src == [] {
      NothingPrinted(src);
      return;
    }
    var buf: Bytes, repeated, i := [], false, 0;
    NothingPrinted(src);
    while true
      invariant 0 <= i <= |src| && Printed(src, lines, buf, repeated, i)
      invariant |buf| <= 16 && (i > 0 ==> buf != []) && (i < |src| && i > 0 ==> |buf| == 16)
      invariant Kept(lines, buf, repeated) && FullRows(lines, if i < |src| then |lines| else |lines| - 1)
      decreases |src| - i
    {
      var nextlen := if |src| - i < 16 then |src| - i else 16;
      if nextlen == |buf| && buf == src[i..i + nextlen] {
        PrintStar(src, lines, buf, repeated, i);
        FullMore(lines, "*", |lines|);
        if !repeated {
          KeepStar(lines, buf);
          StarReads();
          repeated := true;
          lines := lines + ["*"];
        }
        i := i + nextlen;
        continue;
      }
      if i == |src| {
        PrintEnd(src, lines, buf, repeated);
        KeepEnd(lines, buf, repeated, i);
        FullMore(lines, OffsetText(i), |lines| - 1);
        lines := lines + [OffsetText(i)];
        break;
      }
      var stop := if i + 16 < |src| then i + 16 else |src|;
      var line := PrintLine(src, i, stop);
      PrintBlock(src, lines, buf, repeated, i, src[i..stop]);
      KeepBlock(lines, buf, repeated, i, src[i..stop]);
      BlockReads(i, src[i..stop]);
      FullMore(lines, line, |lines|);
      lines := lines + [line];
      buf, repeated, i := src[i..stop], false, stop;
    }
  }

  lemma LineIs(off: nat, b: Bytes, line: string)
    requires |b| <= 16 && line == OffsetText(off) + "  " + Group(Front(b)) + Group(Back(b)) + "|" + Ascii(b) + "|"
    ensures line == BlockLine(off, b)
  {}

  lemma StarReads()
    ensures ReadLine("*") == Star
  {}

  lemma NothingPrinted(src: Bytes)
    ensures Printed(src, [], [], false, 0) && Undump([]) == Some([])
  {
    assert src[..0] == [];
  }

  /** The last column. */
  method AsciiText(b: Bytes) returns (text: string)
    ensures text == Ascii(b)
  {
    text := [];
    var k := 0;
    while k < |b|
      invariant 0 <= k <= |b| && text == Ascii(b[..k])
    {
      if 0x20 <= b[k] <= 0x7e {
        text := text + [b[k] as char];
      } else {
        text := text + ['.'];
      }
      k := k + 1;
    }
    assert b[..|b|] == b;
  }
}
