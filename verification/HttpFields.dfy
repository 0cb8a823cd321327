/** Header fields, byte by byte: what a field line with a given name and value
    does to the parser. */
module HttpFields {
  import opened HttpTypes
  import opened HttpStep
  import opened HttpTrace
  import opened HttpFeed
  import opened HttpMarks
  import opened HttpReads
  import opened HttpNames

  /** One more byte of a piece that is not at the end of a line. */
  lemma Next(env: Env, p: Rec, s: string, q: Rec, t: seq<Event>, ch: char)
    requires Reads(env, p, s, q, t) && !q.state.HeaderFieldStart?
    requires Byte(env, q, ch).ctl.Consume?
    ensures var o := Byte(env, q, ch); var a := AfterLine(o.p);
      Reads(env, p, s + [ch], a.0, t + (o.ev + a.1))
  {
    hide Byte, AfterLine, Reads;
    ReadsByte(env, q, ch, AfterLine(Byte(env, q, ch).p).0);
    var o := Byte(env, q, ch);
    ThenAny(env, p, s, q, t, [ch], AfterLine(o.p).0, o.ev + AfterLine(o.p).1);
  }

  lemma FieldStartByte(env: Env, p: Rec, ch: char)
    requires p.state.HeaderFieldStart? && Token(ch).Some?
    ensures Byte(env, p, ch)
            == GoWith(p.(index := 0, state := HeaderField, hstate := FirstNameState(LowerToken(ch))), Data(Field, [ch]))
  {
    hide StepUrl, StepResLine, StepReqLine, StepMethod, StepHeadersDone, StepBody, FirstNameState;
    assert ch != CR && ch != LF;
  }

  lemma FieldBytes(env: Env, p: Rec, ch: char)
    requires p.state.HeaderField?
    ensures Token(ch).Some? ==>
              var r := NameStep(p.hstate, p.index, LowerToken(ch));
              Byte(env, p, ch) == GoWith(p.(hstate := r.0, index := r.1), Data(Field, [ch]))
    ensures ch == ':' ==> Byte(env, p, ch) == GoWith(p.(state := HeaderValueDiscardWs), Data(Field, []))
  {
    hide StepUrl, StepResLine, StepReqLine, StepMethod, StepHeadersDone, StepBody, NameStep;
  }

  /** The record after the name, before the colon. */
  function AfterName(p: Rec, name: string): Rec
    requires name != []
  {
    p.(state := HeaderField, hstate := NameRun(name).0, index := NameRun(name).1)
  }

  lemma {:induction false} NameReads(env: Env, p: Rec, name: string)
    requires p.state.HeaderFieldStart? && name != [] && IsToken(name)
    ensures Reads(env, p, name, AfterName(p, name), Letters(Field, name))
  {
    hide Reads, Byte, Join;
    var front, ch := name[..|name| - 1], name[|name| - 1];
    LettersSnoc(Field, front, ch);
    assert name == front + [ch];
    if front == [] {
      FieldStartByte(env, p, ch);
      assert [Data(Field, [ch])] + [] == [Data(Field, [ch])];
      assert [] + [Data(Field, [ch])] == [Data(Field, [ch])];
      ReadsByte(env, p, ch, AfterName(p, name));
    } else {
      NameReads(env, p, front);
      FieldBytes(env, AfterName(p, front), ch);
      assert [Data(Field, [ch])] + [] == [Data(Field, [ch])];
      Next(env, p, front, AfterName(p, front), Letters(Field, front), ch);
    }
  }

  lemma BlankByte(env: Env, p: Rec)
    requires p.state.HeaderValueDiscardWs?
    ensures Byte(env, p, ' ') == Go(p)
  {
    hide StepUrl, StepResLine, StepReqLine, StepMethod, StepHeadersDone, StepBody, StepValueStart;
  }

  /** `name: ` */
  lemma NameColonReads(env: Env, p: Rec, name: string)
    requires p.state.HeaderFieldStart? && name != [] && IsToken(name)
    ensures Reads(env, p, name + ": ", AfterName(p, name).(state := HeaderValueDiscardWs), [Data(Field, name)])
  {
    hide Reads, Byte, Letters, NameRun;
    var q := AfterName(p, name);
    var r := q.(state := HeaderValueDiscardWs);
    NameReads(env, p, name);
    FieldBytes(env, q, ':');
    Next(env, p, name, q, Letters(Field, name), ':');
    BlankByte(env, r);
    var t := Letters(Field, name) + ([Data(Field, [])] + []);
    Next(env, p, name + [':'], r, t, ' ');
    assert name + [':'] + [' '] == name + ": ";
    assert t + ([] + []) == Letters(Field, name) + [Data(Field, [])];
    JoinClosed(Field, name);
    hide Join;
    Retell(env, p, name + ": ", r, t + ([] + []), [Data(Field, name)]);
  }

  // ----- values -----

  /** Bytes a header value may hold. */
  predicate IsValue(env: Env, v: string) {
    forall k :: 0 <= k < |v| ==> v[k] != CR && v[k] != LF && (env.lenient || IsHeaderChar(v[k]))
  }

  /** The machine that reads values, without its callbacks. */
  predicate ValueReads(env: Env, p: Rec, v: string, q: Rec) {
    && q.state.HeaderValue?
    && Reads(env, p, v, q, Letters(Value, v))
  }

  lemma ValueStartByte(env: Env, p: Rec, ch: char)
    requires p.state.HeaderValueDiscardWs? && !Blank(ch) && ch != CR && ch != LF
    ensures Byte(env, p, ch) == StepValueStart(p, ch)
    ensures StepValueStart(p, ch).ctl.Consume? ==>
              var o := StepValueStart(p, ch);
              o.p.state.HeaderValue? && o == GoWith(o.p, Data(Value, [ch]))
  {
    hide StepUrl, StepResLine, StepReqLine, StepMethod, StepHeadersDone, StepBody;
  }

  lemma InsideValueByte(env: Env, p: Rec, ch: char)
    requires p.state.HeaderValue? && ch != CR && ch != LF && (env.lenient || IsHeaderChar(ch))
    ensures Byte(env, p, ch) == ValueStep(p, ch)
  {
    hide StepUrl, StepResLine, StepReqLine, StepMethod, StepHeadersDone, StepBody, ValueStep, IsHeaderChar;
    assert !ValueStep(p, ch).ctl.Again? by { ValueNotAgain(p, ch); }
  }

  lemma ValueNotAgain(p: Rec, ch: char)
    ensures !ValueStep(p, ch).ctl.Again?
  {
    hide MatchWord, Token;
  }

  /** The first byte of a value. */
  lemma ValueBegins(env: Env, p: Rec, ch: char, q: Rec)
    requires p.state.HeaderValueDiscardWs? && !Blank(ch) && ch != CR && ch != LF
    requires StepValueStart(p, ch) == GoWith(q, Data(Value, [ch])) && q.state.HeaderValue?
    ensures ValueReads(env, p, [ch], q)
  {
    hide Reads, Byte, StepValueStart, Join;
    ValueStartByte(env, p, ch);
    ReadsByte(env, p, ch, q);
    LettersOne(Value, ch);
    assert [Data(Value, [ch])] + [] == [Data(Value, [ch])];
  }

  /** A further byte. */
  lemma ValueGoesOn(env: Env, p: Rec, v: string, q: Rec, ch: char, r: Rec)
    requires ValueReads(env, p, v, q)
    requires ch != CR && ch != LF && (env.lenient || IsHeaderChar(ch))
    requires ValueStep(q, ch) == GoWith(r, Data(Value, [ch])) && r.state.HeaderValue?
    ensures ValueReads(env, p, v + [ch], r)
  {
    hide Reads, Byte, ValueStep, IsHeaderChar, Letters;
    InsideValueByte(env, q, ch);
    Next(env, p, v, q, Letters(Value, v), ch);
    LettersSnoc(Value, v, ch);
    assert [Data(Value, [ch])] + [] == [Data(Value, [ch])];
  }

  lemma ValueEndBytes(env: Env, p: Rec)
    ensures p.state.HeaderValue? ==> Byte(env, p, CR) == GoWith(p.(state := HeaderAlmostDone), Data(Value, []))
    ensures p.state.HeaderAlmostDone? ==> Byte(env, p, LF) == Go(p.(state := HeaderValueLws))
  {
    hide StepUrl, StepResLine, StepReqLine, StepMethod, StepHeadersDone, StepBody, ValueStep, IsHeaderChar;
    hide StepValueStart;
  }

  /** The end of the line: the value is complete, and its token sets a flag. */
  lemma ValueEnds(env: Env, p: Rec, v: string, q: Rec)
    requires ValueReads(env, p, v, q) && v != []
    ensures Reads(env, p, v + "\r\n", q.(flags := TokenFlag(q.hstate, q.flags), state := HeaderFieldStart),
                  [Data(Value, v)])
  {
    hide Reads, Byte, Letters, TokenFlag;
    ValueEndBytes(env, q);
    Next(env, p, v, q, Letters(Value, v), CR);
    var r := q.(state := HeaderAlmostDone);
    ValueEndBytes(env, r);
    var t := Letters(Value, v) + ([Data(Value, [])] + []);
    Next(env, p, v + [CR], r, t, LF);
    assert v + [CR] + [LF] == v + "\r\n";
    assert t + ([] + []) == Letters(Value, v) + [Data(Value, [])];
    JoinClosed(Value, v);
    hide Join;
    Retell(env, p, v + "\r\n", q.(flags := TokenFlag(q.hstate, q.flags), state := HeaderFieldStart),
           t + ([] + []), [Data(Value, v)]);
  }

  lemma EmptyValueBytes(env: Env, p: Rec)
    ensures p.state.HeaderValueDiscardWs? ==> Byte(env, p, CR) == Go(p.(state := HeaderValueDiscardWsAlmostDone))
    ensures p.state.HeaderValueDiscardWsAlmostDone? ==> Byte(env, p, LF) == Go(p.(state := HeaderValueDiscardLws))
  {
    hide StepUrl, StepResLine, StepReqLine, StepMethod, StepHeadersDone, StepBody, StepValueStart;
  }

  /** An empty value is still reported. */
  lemma EmptyValue(env: Env, p: Rec)
    requires p.state.HeaderValueDiscardWs?
    ensures Reads(env, p, "\r\n", p.(flags := TokenFlag(p.hstate, p.flags), state := HeaderFieldStart),
                  [Data(Value, [])])
  {
    hide Reads, Byte, Letters, TokenFlag, Join;
    EmptyValueBytes(env, p);
    var r := p.(state := HeaderValueDiscardWsAlmostDone);
    ReadsByte(env, p, CR, r);
    EmptyValueBytes(env, r);
    Next(env, p, [CR], r, [] + [], LF);
    assert [CR] + [LF] == "\r\n";
    assert [] + [] + ([] + [Data(Value, [])]) == [Data(Value, [])];
  }

  // ----- fields the parser does not interpret -----

  predicate Interpreted(h: HeaderState) {
    h.Connection? || h.ContentLength? || h.TransferEncoding? || h.Upgrade?
  }

  datatype HeaderLine = HeaderLine(name: string, value: string)

  /** A field whose name the parser does not act upon, with any legal value. */
  predicate Plain(env: Env, f: HeaderLine) {
    && f.name != [] && IsToken(f.name)
    && LowerName(f.name) !in [CONNECTION, PROXY_CONNECTION, CONTENT_LENGTH, TRANSFER_ENCODING, UPGRADE]
    && IsValue(env, f.value)
    && (f.value != [] ==> !Blank(f.value[0]))
  }

  function PrintLine(f: HeaderLine): string { f.name + ": " + f.value + "\r\n" }

  function LineEvents(f: HeaderLine): seq<Event> { [Data(Field, f.name), Data(Value, f.value)] }

  /** Equal but for the header matcher. */
  predicate Like(p: Rec, q: Rec) { p.(hstate := General, index := 0) == q.(hstate := General, index := 0) }

  lemma PlainState(env: Env, f: HeaderLine)
    requires Plain(env, f)
    ensures var h := NameRun(f.name).0;
      !Interpreted(h) && !h.MatchingTokenStart? && !h.KeepAlive? && !h.Close? && !h.TokenUpgrade? && !h.Chunked?
  {
    hide NameRun, Begins;
    NamesExact(f.name);
    RunRecognised(f.name);
  }

  lemma PlainStart(p: Rec, ch: char)
    requires !Interpreted(p.hstate) && !p.hstate.MatchingTokenStart?
    ensures StepValueStart(p, ch) == GoWith(p.(state := HeaderValue, index := 0, hstate := General), Data(Value, [ch]))
  {}

  lemma GeneralStep(p: Rec, ch: char)
    requires p.hstate.General?
    ensures ValueStep(p, ch) == GoWith(p, Data(Value, [ch]))
  {}

  lemma {:induction false} PlainValue(env: Env, p: Rec, v: string)
    requires p.state.HeaderValueDiscardWs? && !Interpreted(p.hstate) && !p.hstate.MatchingTokenStart?
    requires v != [] && IsValue(env, v) && !Blank(v[0])
    ensures ValueReads(env, p, v, p.(state := HeaderValue, index := 0, hstate := General))
  {
    hide ValueReads, StepValueStart, ValueStep, IsHeaderChar;
    var front, ch := v[..|v| - 1], v[|v| - 1];
    var q := p.(state := HeaderValue, index := 0, hstate := General);
    if front == [] {
      assert v == [ch];
      PlainStart(p, ch);
      ValueBegins(env, p, ch, q);
    } else {
      PlainValue(env, p, front);
      GeneralStep(q, ch);
      ValueGoesOn(env, p, front, q, ch, q);
      assert v == front + [ch];
    }
  }

  /** A plain field is reported and changes nothing else. */
  lemma PlainLine(env: Env, p: Rec, f: HeaderLine) returns (q: Rec)
    requires p.state.HeaderFieldStart? && Plain(env, f)
    ensures Reads(env, p, PrintLine(f), q, LineEvents(f))
    ensures Like(p, q) && q.state.HeaderFieldStart?
  {
    hide Reads, NameRun, IsValue, IsToken, ValueReads;
    var r := AfterName(p, f.name).(state := HeaderValueDiscardWs);
    NameColonReads(env, p, f.name);
    PlainState(env, f);
    var s := f.value + "\r\n";
    if f.value == [] {
      EmptyValue(env, r);
      q := r.(state := HeaderFieldStart);
      assert s == "\r\n";
    } else {
      PlainValue(env, r, f.value);
      var v := r.(state := HeaderValue, index := 0, hstate := General);
      ValueEnds(env, r, f.value, v);
      q := v.(state := HeaderFieldStart);
    }
    ThenAny(env, p, f.name + ": ", r, [Data(Field, f.name)], s, q, [Data(Value, f.value)]);
    assert f.name + ": " + s == PrintLine(f);
    assert [Data(Field, f.name)] + [Data(Value, f.value)] == LineEvents(f);
  }

  function PrintLines(fs: seq<HeaderLine>): string {
    if fs == [] then [] else PrintLines(fs[..|fs| - 1]) + PrintLine(fs[|fs| - 1])
  }

  function LinesEvents(fs: seq<HeaderLine>): seq<Event> {
    if fs == [] then [] else LinesEvents(fs[..|fs| - 1]) + LineEvents(fs[|fs| - 1])
  }

  lemma {:induction false} PlainLines(env: Env, p: Rec, fs: seq<HeaderLine>) returns (q: Rec)
    requires p.state.HeaderFieldStart? && forall f :: f in fs ==> Plain(env, f)
    ensures Reads(env, p, PrintLines(fs), q, LinesEvents(fs))
    ensures Like(p, q) && q.state.HeaderFieldStart?
  {
    hide Reads, Plain;
    if fs == [] {
      ReadsNothing(env, p);
      q := p;
    } else {
      var k := |fs| - 1;
      var r := PlainLines(env, p, fs[..k]);
      q := PlainLine(env, r, fs[k]);
      PlainFirst(env, fs[k]);
      Then(env, p, PrintLines(fs[..k]), r, LinesEvents(fs[..k]), PrintLine(fs[k]), q, LineEvents(fs[k]));
    }
  }

  lemma PlainFirst(env: Env, f: HeaderLine)
    requires Plain(env, f)
    ensures PrintLine(f) != [] && !Blank(PrintLine(f)[0])
  {
    assert PrintLine(f)[0] == f.name[0];
    assert Token(f.name[0]).Some?;
  }

  // ----- fields of any name -----

  /** A field with any name but Content-Length, and any legal value. */
  predicate Free(env: Env, f: HeaderLine) {
    && f.name != [] && IsToken(f.name) && LowerName(f.name) != CONTENT_LENGTH
    && IsValue(env, f.value)
    && (f.value != [] ==> !Blank(f.value[0]))
  }

  /** Equal but for the header matcher and the flags that a field may set. */
  predicate Alike(p: Rec, q: Rec) {
    && q == p.(state := q.state, hstate := q.hstate, index := q.index, flags := q.flags)
    && q.flags.trailing == p.flags.trailing && q.flags.hasLength == p.flags.hasLength
    && q.flags.skipBody == p.flags.skipBody && (p.flags.chunked ==> q.flags.chunked)
  }

  /** A byte of a value goes by, and the value goes on. */
  predicate GoesBy(p: Rec, ch: char, o: Out) {
    o == GoWith(o.p, Data(Value, [ch])) && Alike(p, o.p) && o.p.state.HeaderValue? && !o.p.hstate.ContentLength?
  }

  lemma FreeStart(p: Rec, ch: char)
    requires !p.hstate.ContentLength?
    ensures GoesBy(p, ch, StepValueStart(p, ch))
  {}

  lemma FlagAlike(p: Rec, s: State)
    ensures Alike(p, p.(flags := TokenFlag(p.hstate, p.flags), state := s))
  {
    hide TokenFlag;
    FlagKept(p.hstate, p.flags);
  }

  lemma FlagKept(h: HeaderState, f: Flags)
    ensures var g := TokenFlag(h, f);
      g.trailing == f.trailing && g.hasLength == f.hasLength && g.skipBody == f.skipBody && (f.chunked ==> g.chunked)
  {
    if !h.KeepAlive? && !h.Close? && !h.TokenUpgrade? && !h.Chunked? {
      assert TokenFlag(h, f) == f;
      hide TokenFlag;
    }
  }

  lemma FreeStep(p: Rec, ch: char)
    requires p.state.HeaderValue? && !p.hstate.ContentLength?
    ensures GoesBy(p, ch, ValueStep(p, ch))
  {
    hide ValueStep, GoesBy;
    if p.hstate.KeepAlive? || p.hstate.Close? || p.hstate.TokenUpgrade? {
      FreeAfterToken(p, ch);
    } else if p.hstate.MatchingChunked? || p.hstate.MatchingKeepAlive? || p.hstate.MatchingClose?
              || p.hstate.MatchingTokenUpgrade? {
      FreeMatch(p, ch);
    } else {
      FreeOther(p, ch);
    }
  }

  lemma FreeAfterToken(p: Rec, ch: char)
    requires p.state.HeaderValue? && (p.hstate.KeepAlive? || p.hstate.Close? || p.hstate.TokenUpgrade?)
    ensures GoesBy(p, ch, ValueStep(p, ch))
  {}

  lemma FreeOther(p: Rec, ch: char)
    requires p.state.HeaderValue? && !p.hstate.ContentLength?
    requires !p.hstate.KeepAlive? && !p.hstate.Close? && !p.hstate.TokenUpgrade? && !p.hstate.MatchingChunked?
    requires !p.hstate.MatchingKeepAlive? && !p.hstate.MatchingClose? && !p.hstate.MatchingTokenUpgrade?
    ensures GoesBy(p, ch, ValueStep(p, ch))
  {
    hide Token;
  }

  lemma FreeMatch(p: Rec, ch: char)
    requires p.state.HeaderValue?
    requires p.hstate.MatchingChunked? || p.hstate.MatchingKeepAlive? || p.hstate.MatchingClose?
             || p.hstate.MatchingTokenUpgrade?
    ensures GoesBy(p, ch, ValueStep(p, ch))
  {
    hide MatchWord;
    MatchWordEnds(MatchingChunked, p.index, Lower(ch), CHUNKED, General, Chunked);
    MatchWordEnds(MatchingKeepAlive, p.index, Lower(ch), KEEP_ALIVE, MatchingToken, KeepAlive);
    MatchWordEnds(MatchingClose, p.index, Lower(ch), CLOSE, MatchingToken, Close);
    MatchWordEnds(MatchingTokenUpgrade, p.index, Lower(ch), UPGRADE, MatchingToken, TokenUpgrade);
  }

  lemma MatchWordEnds(h: HeaderState, index: nat, c: char, word: string, miss: HeaderState, hit: HeaderState)
    requires |word| > 0
    ensures MatchWord(h, index, c, word, miss, hit).0 in {h, miss, hit}
  {}

  lemma {:induction false} FreeValue(env: Env, p: Rec, v: string) returns (q: Rec)
    requires p.state.HeaderValueDiscardWs? && !p.hstate.ContentLength?
    requires v != [] && !Blank(v[0]) && v[0] != CR && v[0] != LF && IsValue(env, v[1..])
    ensures ValueReads(env, p, v, q) && Alike(p, q)
    ensures q.state.HeaderValue? && !q.hstate.ContentLength?
  {
    hide ValueReads, StepValueStart, ValueStep, IsHeaderChar;
    var front, ch := v[..|v| - 1], v[|v| - 1];
    if front == [] {
      assert v == [ch];
      FreeStart(p, ch);
      q := StepValueStart(p, ch).p;
      ValueBegins(env, p, ch, q);
    } else {
      assert IsValue(env, front[1..]) && v[1..] == front[1..] + [ch] by { assert v[1..][..|front| - 1] == front[1..]; }
      var r := FreeValue(env, p, front);
      FreeStep(r, ch);
      q := ValueStep(r, ch).p;
      ValueGoesOn(env, p, front, r, ch, q);
      assert v == front + [ch];
    }
  }

  lemma ValueTail(env: Env, v: string)
    requires v != [] && IsValue(env, v)
    ensures IsValue(env, v[1..]) && v[0] != CR && v[0] != LF
  {
    hide IsHeaderChar;
  }

  lemma FreeName(env: Env, f: HeaderLine)
    requires Free(env, f)
    ensures !NameRun(f.name).0.ContentLength?
  {
    hide NameRun, LowerName, IsToken, IsValue;
    NamesExact(f.name);
  }

  /** Whatever its name, a field is reported as it stands; it may set flags. */
  lemma FreeLine(env: Env, p: Rec, f: HeaderLine) returns (q: Rec)
    requires p.state.HeaderFieldStart? && Free(env, f)
    ensures Reads(env, p, PrintLine(f), q, LineEvents(f))
    ensures Alike(p, q) && q.state.HeaderFieldStart?
  {
    hide Reads, NameRun, IsValue, IsToken, ValueReads, TokenFlag, LowerName;
    var r := AfterName(p, f.name).(state := HeaderValueDiscardWs);
    NameColonReads(env, p, f.name);
    FreeName(env, f);
    var s := f.value + "\r\n";
    if f.value == [] {
      EmptyValue(env, r);
      q := r.(flags := TokenFlag(r.hstate, r.flags), state := HeaderFieldStart);
      FlagAlike(r, HeaderFieldStart);
      assert s == "\r\n";
    } else {
      assert IsValue(env, f.value[1..]) && f.value[0] != CR && f.value[0] != LF by { ValueTail(env, f.value); }
      var v := FreeValue(env, r, f.value);
      ValueEnds(env, r, f.value, v);
      FlagAlike(v, HeaderFieldStart);
      q := v.(flags := TokenFlag(v.hstate, v.flags), state := HeaderFieldStart);
    }
    ThenAny(env, p, f.name + ": ", r, [Data(Field, f.name)], s, q, [Data(Value, f.value)]);
    assert f.name + ": " + s == PrintLine(f);
    assert [Data(Field, f.name)] + [Data(Value, f.value)] == LineEvents(f);
  }

  lemma {:induction false} FreeLines(env: Env, p: Rec, fs: seq<HeaderLine>) returns (q: Rec)
    requires p.state.HeaderFieldStart? && forall f :: f in fs ==> Free(env, f)
    ensures Reads(env, p, PrintLines(fs), q, LinesEvents(fs))
    ensures Alike(p, q) && q.state.HeaderFieldStart?
  {
    hide Reads, Free;
    if fs == [] {
      ReadsNothing(env, p);
      q := p;
    } else {
      var k := |fs| - 1;
      var r := FreeLines(env, p, fs[..k]);
      q := FreeLine(env, r, fs[k]);
      FreeFirst(env, fs[k]);
      Then(env, p, PrintLines(fs[..k]), r, LinesEvents(fs[..k]), PrintLine(fs[k]), q, LineEvents(fs[k]));
    }
  }

  lemma FreeFirst(env: Env, f: HeaderLine)
    requires Free(env, f)
    ensures PrintLine(f) != [] && !Blank(PrintLine(f)[0])
  {
    assert PrintLine(f)[0] == f.name[0];
    assert Token(f.name[0]).Some?;
  }

  /** What is read determines the record. */
  lemma ReadsOnce(env: Env, p: Rec, s: string, q: Rec, t: seq<Event>, r: Rec, u: seq<Event>)
    requires Reads(env, p, s, q, t) && Reads(env, p, s, r, u)
    ensures q == r
  {
    hide Feed, Join;
  }
}
