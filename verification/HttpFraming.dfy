/** The values that decide how a body is framed: Content-Length, Transfer-Encoding
    and the size of a chunk. Each reader is exact. */
module HttpFraming {
  import opened Decimals
  import opened HttpFeed
  import opened HttpFields
  import opened HttpNames
  import opened HttpReads
  import opened HttpStep
  import opened HttpTrace
  import opened HttpTypes
  import opened Options

  // ----- Content-Length -----

  /** Digits and spaces, beginning with a digit. */
  predicate LengthText(v: string) {
    v != [] && IsNum(v[0]) && forall k :: 0 <= k < |v| ==> IsNum(v[k]) || v[k] == ' '
  }

  /** The largest length that passes the overflow check. */
  const MAX_LENGTH: nat := ULLONG_MAX - 6

  function LengthRec(p: Rec, v: string): Rec {
    p.(state := HeaderValue, index := 0, contentLength := Decimal(v), flags := p.flags.(hasLength := true))
  }

  lemma LengthFirst(p: Rec, ch: char)
    requires p.hstate.ContentLength? && !p.flags.hasLength
    ensures IsNum(ch) ==> StepValueStart(p, ch) == GoWith(LengthRec(p, [ch]), Data(Value, [ch]))
    ensures !IsNum(ch) ==> StepValueStart(p, ch).ctl == Fail(InvalidContentLength)
  {
    if IsNum(ch) {
      assert [ch][..0] == [];
      assert Decimal([ch]) == Decimal([]) * 10 + Digit(ch);
    }
  }

  lemma LengthNext(p: Rec, v: string, ch: char)
    requires p.hstate.ContentLength? && Decimal(v) <= MAX_LENGTH
    ensures var o := ValueStep(LengthRec(p, v), ch); var w := v + [ch];
      if (IsNum(ch) || ch == ' ') && Decimal(w) <= MAX_LENGTH then o == GoWith(LengthRec(p, w), Data(Value, [ch]))
      else o.ctl == Fail(InvalidContentLength)
  {
    hide MatchWord, AfterToken, Token, Lower;
    assert (v + [ch])[..|v|] == v;
  }

  lemma LengthOne(env: Env, p: Rec, ch: char)
    requires p.state.HeaderValueDiscardWs? && p.hstate.ContentLength? && !p.flags.hasLength
    requires !Blank(ch) && IsValue(env, [ch])
    ensures IsNum(ch) ==>
              LengthText([ch]) && Decimal([ch]) <= MAX_LENGTH && ValueReads(env, p, [ch], LengthRec(p, [ch]))
    ensures !IsNum(ch) ==> !LengthText([ch]) && Feed(env, p, 0, [ch]).verdict == Failed(InvalidContentLength)
  {
    hide ValueReads, StepValueStart, ValueStep, IsHeaderChar, Byte;
    assert [ch][0] == ch;
    LengthFirst(p, ch);
    ValueStartByte(env, p, ch);
    FeedOne(env, Start(p, 0), ch);
    if IsNum(ch) {
      assert [ch][..0] == [];
      assert Decimal([ch]) == Decimal([]) * 10 + Digit(ch);
      ValueBegins(env, p, ch, LengthRec(p, [ch]));
    }
  }

  /** A length is accepted if and only if it is made of digits and spaces, begins
      with a digit, and its value does not exceed MAX_LENGTH; and then that value
      is what is stored. In particular it is never 2^64 - 1. */
  lemma {:induction false} LengthExact(env: Env, p: Rec, v: string)
    requires p.state.HeaderValueDiscardWs? && p.hstate.ContentLength? && !p.flags.hasLength
    requires v != [] && !Blank(v[0]) && IsValue(env, v)
    ensures LengthText(v) && Decimal(v) <= MAX_LENGTH ==> ValueReads(env, p, v, LengthRec(p, v))
    ensures !(LengthText(v) && Decimal(v) <= MAX_LENGTH) ==> Feed(env, p, 0, v).verdict == Failed(InvalidContentLength)
    decreases |v|
  {
    hide ValueReads, StepValueStart, ValueStep, IsHeaderChar, Byte;
    var front, ch := v[..|v| - 1], v[|v| - 1];
    assert v == front + [ch];
    if front == [] {
      assert v == [ch];
      LengthOne(env, p, ch);
    } else {
      LengthExact(env, p, front);
      FeedSnoc(env, Start(p, 0), front, ch);
      if LengthText(front) && Decimal(front) <= MAX_LENGTH {
        var q := LengthRec(p, front);
        LengthNext(p, front, ch);
        ValueReadsRun(env, p, front, q);
        InsideValueByte(env, q, ch);
        if (IsNum(ch) || ch == ' ') && Decimal(v) <= MAX_LENGTH {
          ValueGoesOn(env, p, front, q, ch, LengthRec(p, v));
        }
      }
    }
  }

  lemma ValueReadsRun(env: Env, p: Rec, v: string, q: Rec)
    requires ValueReads(env, p, v, q)
    ensures Feed(env, p, 0, v).verdict.Running? && Feed(env, p, 0, v).p == q
  {
    hide Feed, Join;
  }

  // ----- Transfer-Encoding -----

  /** `c | 0x20` on every character. */
  function LowerAll(s: string): string {
    if s == [] then [] else LowerAll(s[..|s| - 1]) + [Lower(s[|s| - 1])]
  }

  lemma {:induction false} LowerAllLength(s: string)
    ensures |LowerAll(s)| == |s|
  {
    if s != [] { LowerAllLength(s[..|s| - 1]); }
  }

  predicate Spaces(s: string) { forall k :: 0 <= k < |s| ==> s[k] == ' ' }

  /** The word in any mixture of cases, with spaces behind it. */
  predicate WordText(v: string, word: string) {
    |v| >= |word| && LowerAll(v[..|word|]) == word && Spaces(v[|word|..])
  }

  predicate ChunkedText(v: string) { WordText(v, "chunked") }

  /** What the matcher says about the value `v` read so far. */
  predicate ChunkedSoFar(v: string, h: HeaderState, index: nat) {
    && v != []
    && match h
       case MatchingChunked => |v| < 7 && index == |v| - 1 && Begins(LowerAll(v), CHUNKED)
       case Chunked => ChunkedText(v)
       case General => !ChunkedText(v) && (|v| < 7 ==> !Begins(LowerAll(v), CHUNKED))
       case _ => false
  }

  lemma ChunkedFirst(ch: char)
    ensures ChunkedSoFar([ch], if Lower(ch) == 'c' then MatchingChunked else General, 0)
  {
    assert LowerAll([ch]) == LowerAll([]) + [Lower(ch)];
    FirstLetter(Lower(ch), CHUNKED);
    assert [] + [Lower(ch)] == [Lower(ch)];
    assert CHUNKED[0] == 'c';
  }

  lemma WordTail(v: string, ch: char, word: string)
    requires |v| >= |word|
    ensures WordText(v + [ch], word) <==> WordText(v, word) && ch == ' '
  {
    hide LowerAll;
    var n, w := |word|, v + [ch];
    assert w[..n] == v[..n] && w[n..] == v[n..] + [ch];
    if Spaces(w[n..]) {
      assert w[n..][|v| - n] == ch;
      forall k | 0 <= k < |v[n..]| ensures v[n..][k] == ' ' { assert w[n..][k] == v[n..][k]; }
    }
  }

  lemma WordHead(v: string, ch: char, word: string)
    ensures Begins(LowerAll(v + [ch]), word) <==>
              Begins(LowerAll(v), word) && |v| < |word| && Lower(ch) == word[|v|]
  {
    hide Lower, Begins;
    assert (v + [ch])[..|v|] == v;
    LowerAllLength(v);
    BeginsSnoc(LowerAll(v), Lower(ch), word);
  }

  lemma WordWhole(w: string, word: string)
    ensures |w| == |word| ==> (WordText(w, word) <==> Begins(LowerAll(w), word))
    ensures |w| < |word| ==> !WordText(w, word)
  {
    if |w| == |word| {
      assert w[..|word|] == w && w[|word|..] == [];
      LowerAllLength(w);
      if Begins(LowerAll(w), word) { BeginsWhole(LowerAll(w), word); }
    }
  }

  /** One more character. */
  lemma WordSnoc(v: string, ch: char, word: string)
    ensures |v| >= |word| ==> (WordText(v + [ch], word) <==> WordText(v, word) && ch == ' ')
    ensures |v| + 1 == |word| ==>
              (WordText(v + [ch], word) <==> Begins(LowerAll(v), word) && Lower(ch) == word[|v|])
    ensures |v| + 1 < |word| ==> !WordText(v + [ch], word)
    ensures |v| < |word| ==> !WordText(v, word)
    ensures Begins(LowerAll(v + [ch]), word) <==>
              Begins(LowerAll(v), word) && |v| < |word| && Lower(ch) == word[|v|]
  {
    hide Lower, Begins, LowerAll, WordText;
    WordWhole(v, word);
    WordWhole(v + [ch], word);
    WordHead(v, ch, word);
    if |v| >= |word| { WordTail(v, ch, word); }
  }

  lemma ChunkedNext(p: Rec, v: string, ch: char)
    requires p.state.HeaderValue? && ChunkedSoFar(v, p.hstate, p.index)
    ensures var o := ValueStep(p, ch);
      && o == GoWith(o.p, Data(Value, [ch]))
      && o.p == p.(hstate := o.p.hstate, index := o.p.index)
      && ChunkedSoFar(v + [ch], o.p.hstate, o.p.index)
  {
    hide Begins, WordText, LowerAll, Token, AfterToken, IsNum;
    WordSnoc(v, ch, CHUNKED);
  }

  /** After a Transfer-Encoding value, the matcher is in the state that means
      `chunked` if and only if the value is `chunked`, in any mixture of cases,
      with nothing but spaces behind it. */
  lemma {:induction false} ChunkedExact(env: Env, p: Rec, v: string) returns (q: Rec)
    requires p.state.HeaderValueDiscardWs? && p.hstate.TransferEncoding?
    requires v != [] && !Blank(v[0]) && IsValue(env, v)
    ensures ValueReads(env, p, v, q)
    ensures q == p.(state := HeaderValue, hstate := q.hstate, index := q.index)
    ensures ChunkedSoFar(v, q.hstate, q.index)
    ensures q.hstate.Chunked? <==> ChunkedText(v)
    decreases |v|
  {
    hide ValueReads, StepValueStart, ValueStep, IsHeaderChar;
    var front, ch := v[..|v| - 1], v[|v| - 1];
    assert v == front + [ch];
    if front == [] {
      assert v == [ch];
      q := p.(state := HeaderValue, index := 0, hstate := if Lower(ch) == 'c' then MatchingChunked else General);
      ChunkedFirst(ch);
      assert StepValueStart(p, ch) == GoWith(q, Data(Value, [ch])) by { EncodingStart(p, ch); }
      ValueBegins(env, p, ch, q);
    } else {
      var r := ChunkedExact(env, p, front);
      ChunkedNext(r, front, ch);
      q := ValueStep(r, ch).p;
      ValueGoesOn(env, p, front, r, ch, q);
    }
  }

  lemma EncodingStart(p: Rec, ch: char)
    requires p.hstate.TransferEncoding?
    ensures StepValueStart(p, ch)
            == GoWith(p.(state := HeaderValue, index := 0,
                         hstate := if Lower(ch) == 'c' then MatchingChunked else General), Data(Value, [ch]))
  {}

  // ----- chunk size -----

  /** The value of a hexadecimal digit; other characters count as zero. */
  function HexDigit(c: char): nat {
    if IsNum(c) then Digit(c) else if IsHex(c) then Lower(c) as int - 'a' as int + 10 else 0
  }

  function HexValue(s: string): nat {
    if s == [] then 0 else HexValue(s[..|s| - 1]) * 16 + HexDigit(s[|s| - 1])
  }

  /** What is taken for a hexadecimal digit: the digits, and all bytes from 128 on. */
  predicate SizeChar(c: char) { IsHex(c) || c as int >= 128 }

  predicate HexText(s: string) { forall k :: 0 <= k < |s| ==> SizeChar(s[k]) }

  lemma UnhexExact(c: char)
    ensures Unhex(c) == if SizeChar(c) then Some(HexDigit(c)) else None
  {}

  /** The byte 128 is read as the size zero. */
  lemma HighByteIsZero(env: Env, p: Rec)
    requires p.state.ChunkSizeStart?
    ensures var s := [128 as char]; !IsHex(s[0]) && Reads(env, p, s, p.(state := ChunkSize, contentLength := 0), [])
  {
    hide Byte, Reads;
    UnhexExact(128 as char);
    SizeOne(env, p, 128 as char);
    assert HexValue([128 as char]) == HexDigit(128 as char);
  }

  const MAX_CHUNK: nat := ULLONG_MAX - 16

  lemma SizeByteStart(env: Env, p: Rec, ch: char)
    requires p.state.ChunkSizeStart?
    ensures Byte(env, p, ch) == (match Unhex(ch)
                                 case None => Refuse(p, InvalidChunkSize)
                                 case Some(d) => Go(p.(contentLength := d, state := ChunkSize)))
  {
    hide StepUrl, StepResLine, StepReqLine, StepMethod, StepHeadersDone, StepHeader, Unhex, NewMessage;
  }

  lemma SizeByte(env: Env, p: Rec, ch: char)
    requires p.state.ChunkSize?
    ensures Unhex(ch).Some? && 0 <= p.contentLength <= MAX_CHUNK ==>
              var t := p.contentLength * 16 + Unhex(ch).value;
              Byte(env, p, ch)
              == (if t <= MAX_CHUNK then Go(p.(contentLength := t)) else Refuse(p, InvalidContentLength))
    ensures Unhex(ch).None? && ch != CR && ch != ';' && ch != ' ' ==>
              Byte(env, p, ch) == Refuse(p, InvalidChunkSize)
  {
    hide StepUrl, StepResLine, StepReqLine, StepMethod, StepHeadersDone, StepHeader, Unhex, NewMessage;
    if Unhex(ch).Some? { UnhexRange(ch); }
  }

  lemma UnhexRange(c: char)
    requires Unhex(c).Some?
    ensures Unhex(c).value < 16 && c != CR
  {}

  function SizeRec(p: Rec, s: string): Rec { p.(state := ChunkSize, contentLength := HexValue(s)) }

  lemma SizeOne(env: Env, p: Rec, ch: char)
    requires p.state.ChunkSizeStart?
    ensures HexText([ch]) <==> SizeChar(ch)
    ensures Unhex(ch).Some? ==> HexValue([ch]) <= MAX_CHUNK && Reads(env, p, [ch], SizeRec(p, [ch]), [])
    ensures Unhex(ch).None? ==> Feed(env, p, 0, [ch]).verdict.Failed?
  {
    hide Byte, Reads, Unhex;
    var s := [ch];
    assert s[0] == ch && s[..0] == [];
    UnhexExact(ch);
    SizeByteStart(env, p, ch);
    FeedOne(env, Start(p, 0), ch);
    if Unhex(ch).Some? {
      UnhexRange(ch);
      assert HexValue([]) == 0 && s[..0] == [] && s[0] == ch;
      assert HexValue(s) == HexDigit(ch) == Unhex(ch).value;
      ReadsByte(env, p, ch, SizeRec(p, s));
    }
  }

  /** A chunk size is accepted if and only if it is made of hexadecimal digits and
      bytes from 128 on, which count as zero, and its value does not exceed MAX_CHUNK; and then it is what is stored. */
  lemma {:induction false} SizeExact(env: Env, p: Rec, s: string)
    requires p.state.ChunkSizeStart? && s != []
    requires forall k :: 0 <= k < |s| ==> s[k] != CR && s[k] != ';' && s[k] != ' '
    ensures HexText(s) && HexValue(s) <= MAX_CHUNK ==> Reads(env, p, s, SizeRec(p, s), [])
    ensures !(HexText(s) && HexValue(s) <= MAX_CHUNK) ==> Feed(env, p, 0, s).verdict.Failed?
    decreases |s|
  {
    hide Byte, Reads, Unhex, HexDigit, IsHex;
    var none: seq<Event> := [];
    var front, ch := s[..|s| - 1], s[|s| - 1];
    assert s == front + [ch];
    UnhexExact(ch);
    if front == [] {
      assert s == [ch];
      SizeOne(env, p, ch);
    } else {
      SizeExact(env, p, front);
      FeedSnoc(env, Start(p, 0), front, ch);
      if HexText(front) && HexValue(front) <= MAX_CHUNK {
        var q := SizeRec(p, front);
        SizeByte(env, q, ch);
        ReadsRun(env, p, front, q, []);
        if HexText(s) && HexValue(s) <= MAX_CHUNK {
          Next(env, p, front, q, [], ch);
          assert none + (none + none) == none;
        }
      }
    }
  }

  lemma ReadsRun(env: Env, p: Rec, s: string, q: Rec, t: seq<Event>)
    requires Reads(env, p, s, q, t) && q.state.ChunkSize?
    ensures Feed(env, p, 0, s).verdict.Running? && Feed(env, p, 0, s).p == q
  {
    hide Feed, Join;
  }
}
