/** A header line, exactly: which lines are accepted; and values that go on in the
    next line. */
module HttpFieldLine {
  import opened Decimals
  import opened HttpFeed
  import opened HttpFields
  import opened HttpFraming
  import opened HttpLines
  import opened HttpMarks
  import opened HttpMessage
  import opened HttpNames
  import opened HttpReads
  import opened HttpRequestLine
  import opened HttpStep
  import opened HttpTrace
  import opened HttpTypes

  /** A header line without its LF. */
  datatype FieldLine = FieldLine(name: string, blanks: string, value: string, cr: bool)

  function FieldText(l: FieldLine): string {
    l.name + ":" + l.blanks + l.value + (if l.cr then "\r" else "")
  }

  predicate IsLength(name: string) { LowerName(name) == "content-length" }

  /** The first byte of a value is not checked, unless it is a length. */
  predicate ValueText(env: Env, v: string) {
    v != [] && !Blank(v[0]) && v[0] != CR && v[0] != LF && IsValue(env, v[1..])
  }

  predicate AllBlank(s: string) { forall i :: 0 <= i < |s| ==> s[i] == ' ' || s[i] == '\t' }

  predicate NameOk(name: string) { name != [] && IsToken(name) }

  /** `again`: there has been a Content-Length before. */
  predicate FieldOk(env: Env, again: bool, l: FieldLine) {
    && NameOk(l.name) && AllBlank(l.blanks)
    && (l.value != [] ==>
          && ValueText(env, l.value)
          && (IsLength(l.name) ==> !again && LengthText(l.value) && Decimal(l.value) <= MAX_LENGTH))
  }

  /** The tables `tokens` and IS_HEADER_CHAR: the characters of a token (section 3.2.6
      of RFC 7230), and the bytes that a value may hold. */
  lemma HeaderTables(c: char)
    ensures Token(c).Some? <==>
              'a' <= c <= 'z' || 'A' <= c <= 'Z' || '0' <= c <= '9'
              || c in ['!', '#', '$', '%', '&', '\'', '*', '+', '-', '.', '^', '_', '`', '|', '~']
    ensures Token(c).Some? ==> LowerToken(c) == if 'A' <= c <= 'Z' then (c as int + 32) as char else c
    ensures c != CR && c != LF ==> (IsHeaderChar(c) <==> c as int == 9 || 32 <= c as int <= 126 || c as int >= 128)
  {}

  // ----- one byte -----

  lemma NameByteIs(env: Env, p: Rec, ch: char)
    requires ch != CR && ch != LF && Token(ch).None?
    ensures p.state.HeaderFieldStart? ==> Byte(env, p, ch) == Refuse(p, InvalidHeaderToken)
    ensures p.state.HeaderField? && ch != ':' ==> Byte(env, p, ch) == Refuse(p, InvalidHeaderToken)
  {
    hide StepUrl, StepResLine, StepReqLine, StepMethod, StepHeadersDone, StepBody, NameStep, Token;
  }

  lemma NameCrIs(env: Env, p: Rec)
    ensures p.state.HeaderField? ==> Byte(env, p, CR).ctl.Fail? && Byte(env, p, LF).ctl.Fail?
  {
    hide StepUrl, StepResLine, StepReqLine, StepMethod, StepHeadersDone, StepBody, NameStep;
  }

  lemma DiscardBytes(env: Env, p: Rec, ch: char)
    requires p.state.HeaderValueDiscardWs?
    ensures Blank(ch) ==> Byte(env, p, ch) == Go(p)
    ensures ch == CR ==> Byte(env, p, ch) == Go(p.(state := HeaderValueDiscardWsAlmostDone))
    ensures ch == LF ==> Byte(env, p, ch) == Go(p.(state := HeaderValueDiscardLws))
    ensures !Blank(ch) && ch != CR && ch != LF ==> Byte(env, p, ch) == StepValueStart(p, ch)
  {
    hide StepUrl, StepResLine, StepReqLine, StepMethod, StepHeadersDone, StepBody, StepValueStart;
    assert !StepValueStart(p, ch).ctl.Again? by { StartNotAgain(p, ch); }
  }

  lemma StartNotAgain(p: Rec, ch: char)
    ensures !StepValueStart(p, ch).ctl.Again?
  {}

  lemma ValueBytes(env: Env, p: Rec, ch: char)
    requires p.state.HeaderValue?
    ensures ch == CR ==> Byte(env, p, ch) == GoWith(p.(state := HeaderAlmostDone), Data(Value, []))
    ensures ch == LF ==> Byte(env, p, ch) == GoWith(p.(state := HeaderValueLws), Data(Value, []))
    ensures ch != CR && ch != LF && !(env.lenient || IsHeaderChar(ch)) ==>
              Byte(env, p, ch) == Refuse(p, InvalidHeaderToken)
    ensures ch != CR && ch != LF && (env.lenient || IsHeaderChar(ch)) ==> Byte(env, p, ch) == ValueStep(p, ch)
  {
    hide StepUrl, StepResLine, StepReqLine, StepMethod, StepHeadersDone, StepBody, ValueStep, StepValueStart;
    hide IsHeaderChar;
    assert !ValueStep(p, ch).ctl.Again? by { ValueNotAgain(p, ch); }
    assert [Data(Value, [])] + [] == [Data(Value, [])];
  }

  lemma AlmostBytes(env: Env, p: Rec, ch: char)
    requires p.state.HeaderAlmostDone? || p.state.HeaderValueDiscardWsAlmostDone?
    ensures ch != LF ==> Byte(env, p, ch).ctl.Fail?
    ensures ch == LF ==> Byte(env, p, ch) == Go(p.(state := if p.state.HeaderAlmostDone? then HeaderValueLws
                                                             else HeaderValueDiscardLws))
  {
    hide StepUrl, StepResLine, StepReqLine, StepMethod, StepHeadersDone, StepBody, StepValueStart;
  }

  /** The empty line: a CR and a LF, or a LF alone. */
  lemma EmptyLine(env: Env, p: Rec, ch: char)
    ensures p.state.HeaderFieldStart? ==> Byte(env, p, CR) == Go(p.(state := HeadersAlmostDone))
    ensures p.state.HeaderFieldStart? ==> Byte(env, p, LF) == Byte(env, p.(state := HeadersAlmostDone), LF)
    ensures p.state.HeadersAlmostDone? && ch != LF ==> Byte(env, p, ch).ctl.Fail?
  {
    hide StepUrl, StepResLine, StepReqLine, StepMethod, StepHeadersDone, StepBody, StepHeadersAlmostDone, NameStep;
    EmptyLineStep(env, p, ch);
    var q := p.(state := HeadersAlmostDone);
    if p.state.HeaderFieldStart? {
      assert Step(env, p, LF) == Redo(q);
      hide Step;
      assert [] + Byte(env, q, LF).ev == Byte(env, q, LF).ev;
    }
  }

  lemma EmptyLineStep(env: Env, p: Rec, ch: char)
    ensures p.state.HeadersAlmostDone? && ch != LF ==> Step(env, p, ch).ctl.Fail?
  {
    hide StepUrl, StepResLine, StepReqLine, StepMethod, StepHeadersDone, StepBody, StepHeader;
  }

  // ----- what has been read inside the line -----

  /** What a state says about the line read so far, from the record `p` on. */
  predicate Tells(env: Env, p: Rec, q: Rec, l: FieldLine) {
    && NameOk(l.name) && AllBlank(l.blanks)
    && var r := AfterName(p, l.name);
       if q.state.HeaderField? then q == r && l.blanks == [] && l.value == [] && !l.cr
       else if q.state.HeaderValueDiscardWs? then q == r.(state := q.state) && l.value == [] && !l.cr
       else if q.state.HeaderValueDiscardWsAlmostDone? then q == r.(state := q.state) && l.value == [] && l.cr
       else
         && (if q.state.HeaderValue? then !l.cr else q.state.HeaderAlmostDone? && l.cr)
         && ValueText(env, l.value)
         && if IsLength(l.name) then
              !p.flags.hasLength && LengthText(l.value) && Decimal(l.value) <= MAX_LENGTH
              && q == LengthRec(r, l.value).(state := q.state)
            else !q.hstate.ContentLength?
  }

  function ReadOf(q: Rec, l: FieldLine): string { if q.state.HeaderField? then l.name else FieldText(l) }

  /** One more byte is one more of a part. */
  function MoreLine(q: Rec, l: FieldLine, ch: char): FieldLine {
    if q.state.HeaderField? && ch == ':' then l
    else if q.state.HeaderField? then l.(name := l.name + [ch])
    else if ch == CR then l.(cr := true)
    else if q.state.HeaderValueDiscardWs? && Blank(ch) then l.(blanks := l.blanks + [ch])
    else l.(value := l.value + [ch])
  }

  lemma NameStepOn(env: Env, p: Rec, q: Rec, l: FieldLine, ch: char)
    requires Tells(env, p, q, l) && q.state.HeaderField? && ch != LF && !Byte(env, q, ch).ctl.Fail?
    ensures var o := Byte(env, q, ch); var m := MoreLine(q, l, ch);
      o.ctl.Consume? && Tells(env, p, o.p, m) && ReadOf(o.p, m) == ReadOf(q, l) + [ch]
  {
    hide Byte, LowerName, Token, NameStep, FirstNameState;
    if ch == CR { NameCrIs(env, q); }
    if Token(ch).None? { NameByteIs(env, q, ch); }
    FieldBytes(env, q, ch);
    ColonNoToken();
    var w := l.name + [ch];
    assert w[..|w| - 1] == l.name;
    assert ch == ':' ==> l.name + [ch] == l.name + ":" + [] + [] + "";
  }

  lemma ColonNoToken()
    ensures Token(':').None?
  {}

  lemma DiscardOn(env: Env, p: Rec, q: Rec, l: FieldLine, ch: char)
    requires Tells(env, p, q, l) && q.state.HeaderValueDiscardWs? && ch != LF && !Byte(env, q, ch).ctl.Fail?
    ensures var o := Byte(env, q, ch); var m := MoreLine(q, l, ch);
      o.ctl.Consume? && Tells(env, p, o.p, m) && ReadOf(o.p, m) == ReadOf(q, l) + [ch]
  {
    hide Byte, LowerName, NameRun, StepValueStart, Decimal;
    DiscardBytes(env, q, ch);
    LineGlue(l, ch);
    NamesExact(l.name);
    assert [ch][0] == ch && [ch][1..] == [] && [] + [ch] == [ch];
    if !Blank(ch) && ch != CR {
      ValueStartByte(env, q, ch);
      if IsLength(l.name) { LengthStart(q, ch); SameLength(p, q, l.name, [ch]); } else { FreeStart(q, ch); }
    }
  }

  lemma SameLength(p: Rec, q: Rec, name: string, v: string)
    requires name != [] && q == AfterName(p, name).(state := q.state)
    ensures LengthRec(q, v) == LengthRec(AfterName(p, name), v)
  {
    hide NameRun, Decimal;
  }

  lemma LengthStart(q: Rec, ch: char)
    requires q.hstate.ContentLength? && !StepValueStart(q, ch).ctl.Fail?
    ensures !q.flags.hasLength && IsNum(ch) && StepValueStart(q, ch) == GoWith(LengthRec(q, [ch]), Data(Value, [ch]))
    ensures LengthText([ch]) && Decimal([ch]) <= MAX_LENGTH
  {
    assert [ch][..0] == [];
    assert Decimal([ch]) == Decimal([]) * 10 + Digit(ch);
  }

  lemma LineGlue(l: FieldLine, ch: char)
    requires !l.cr
    ensures l.value == [] ==> FieldText(l.(blanks := l.blanks + [ch])) == FieldText(l) + [ch]
    ensures FieldText(l.(value := l.value + [ch])) == FieldText(l) + [ch]
    ensures ch == CR ==> FieldText(l.(cr := true)) == FieldText(l) + [ch]
  {
    var a := l.name + ":" + l.blanks;
    assert a + (l.value + [ch]) + "" == a + l.value + "" + [ch];
    assert l.name + ":" + (l.blanks + [ch]) == a + [ch];
  }

  lemma ValueOn(env: Env, p: Rec, q: Rec, l: FieldLine, ch: char)
    requires Tells(env, p, q, l) && q.state.HeaderValue? && ch != LF && !Byte(env, q, ch).ctl.Fail?
    ensures var o := Byte(env, q, ch); var m := MoreLine(q, l, ch);
      o.ctl.Consume? && Tells(env, p, o.p, m) && ReadOf(o.p, m) == ReadOf(q, l) + [ch]
  {
    hide Byte, LowerName, NameRun, ValueStep, Decimal, IsHeaderChar;
    ValueBytes(env, q, ch);
    LineGlue(l, ch);
    var w := l.value + [ch];
    assert w[1..] == l.value[1..] + [ch];
    if ch != CR {
      if IsLength(l.name) {
        NamesExact(l.name);
        LengthNext(AfterName(p, l.name), l.value, ch);
      } else {
        FreeStep(q, ch);
      }
    }
  }

  predicate Running(env: Env, p: Rec, f: Run, w: string, l: FieldLine) {
    f.verdict.Running? && Tells(env, p, f.p, l) && w == ReadOf(f.p, l)
  }

  /** Whatever is accepted is a beginning of a header line. */
  lemma {:induction false} FieldSound(env: Env, p: Rec, w: string) returns (l: FieldLine)
    requires p.state.HeaderFieldStart? && w != [] && w[0] != CR && NoLineEnd(w)
    ensures var f := Feed(env, p, 0, w); f.verdict.Failed? || Running(env, p, f, w, l)
    decreases |w|
  {
    hide Byte, Tells, ReadOf, MoreLine;
    var front, ch := w[..|w| - 1], w[|w| - 1];
    assert w == front + [ch];
    l := FieldLine([ch], [], [], false);
    if front == [] {
      assert w == [ch];
      FeedOne(env, Start(p, 0), ch);
      if Token(ch).None? { NameByteIs(env, p, ch); } else { NameBegins(env, p, ch); }
    } else {
      l := FieldSound(env, p, front);
      var f := Feed(env, p, 0, front);
      FeedSnoc(env, Start(p, 0), front, ch);
      if f.verdict.Running? && !Byte(env, f.p, ch).ctl.Fail? {
        TellsWhere(env, p, f.p, l);
        if f.p.state.HeaderField? { NameStepOn(env, p, f.p, l, ch); }
        else if f.p.state.HeaderValueDiscardWs? { DiscardOn(env, p, f.p, l, ch); }
        else if f.p.state.HeaderValue? { ValueOn(env, p, f.p, l, ch); }
        else { AlmostBytes(env, f.p, ch); }
        l := MoreLine(f.p, l, ch);
      }
    }
  }

  lemma TellsWhere(env: Env, p: Rec, q: Rec, l: FieldLine)
    requires Tells(env, p, q, l)
    ensures q.state.HeaderField? || q.state.HeaderValueDiscardWs? || q.state.HeaderValue?
            || q.state.HeaderAlmostDone? || q.state.HeaderValueDiscardWsAlmostDone?
  {
    hide NameRun, LowerName;
  }

  lemma NameBegins(env: Env, p: Rec, ch: char)
    requires p.state.HeaderFieldStart? && Token(ch).Some?
    ensures var o := Byte(env, p, ch); var l := FieldLine([ch], [], [], false);
      o.ctl.Consume? && Tells(env, p, o.p, l) && ReadOf(o.p, l) == [ch]
  {
    hide Byte, Token, FirstNameState;
    FieldStartByte(env, p, ch);
    assert [ch][0] == ch;
  }

  // ----- every line of this form is read -----

  lemma {:induction false} BlanksPart(env: Env, p: Rec, b: string)
    requires p.state.HeaderValueDiscardWs? && AllBlank(b)
    ensures Reads(env, p, b, p, [])
  {
    hide Reads, Byte, AfterLine;
    NotPending(p);
    if b == [] {
      ReadsNothing(env, p);
    } else {
      var n := |b| - 1;
      BlanksPart(env, p, b[..n]);
      DiscardBytes(env, p, b[n]);
      NextGo(env, p, b[..n], p, [], b[n], p, b);
    }
  }

  /** The name, the colon and the blanks. */
  lemma UpToValueReads(env: Env, p: Rec, name: string, blanks: string)
    requires p.state.HeaderFieldStart? && NameOk(name) && AllBlank(blanks)
    ensures Reads(env, p, name + ":" + blanks, AfterName(p, name).(state := HeaderValueDiscardWs), [Data(Field, name)])
  {
    hide Reads, Byte, Letters, NameRun, IsToken, Join;
    var none: seq<Event> := [];
    var q := AfterName(p, name);
    var r := q.(state := HeaderValueDiscardWs);
    NameReads(env, p, name);
    FieldBytes(env, q, ':');
    Next(env, p, name, q, Letters(Field, name), ':');
    var t := Letters(Field, name) + ([Data(Field, [])] + none);
    assert t == Letters(Field, name) + [Data(Field, [])];
    JoinClosed(Field, name);
    Retell(env, p, name + [':'], r, t, [Data(Field, name)]);
    BlanksPart(env, r, blanks);
    ThenAny(env, p, name + [':'], r, [Data(Field, name)], blanks, r, none);
    assert [Data(Field, name)] + none == [Data(Field, name)] && [':'] == ":";
  }

  function LineEnd(cr: bool): string { (if cr then "\r" else "") + "\n" }

  function AtNextLine(q: Rec): Rec { q.(flags := TokenFlag(q.hstate, q.flags), state := HeaderFieldStart) }

  lemma ValueEndsWith(env: Env, p: Rec, v: string, q: Rec, cr: bool)
    requires ValueReads(env, p, v, q) && v != []
    ensures Reads(env, p, v + LineEnd(cr), AtNextLine(q), [Data(Value, v)])
  {
    hide Reads, Byte, Letters, TokenFlag, Join;
    if cr {
      ValueEnds(env, p, v, q);
      assert "\r" + "\n" == "\r\n";
    } else {
      ValueBytes(env, q, LF);
      Next(env, p, v, q, Letters(Value, v), LF);
      var t := Letters(Value, v) + ([Data(Value, [])] + []);
      assert t == Letters(Value, v) + [Data(Value, [])];
      JoinClosed(Value, v);
      Retell(env, p, v + [LF], AtNextLine(q), t, [Data(Value, v)]);
      assert "" + "\n" == [LF];
    }
  }

  lemma EmptyEndsWith(env: Env, p: Rec, cr: bool)
    requires p.state.HeaderValueDiscardWs?
    ensures Reads(env, p, LineEnd(cr), AtNextLine(p), [Data(Value, [])])
  {
    hide Reads, Byte, TokenFlag, Join;
    if cr {
      EmptyValue(env, p);
      assert "\r" + "\n" == "\r\n";
    } else {
      DiscardBytes(env, p, LF);
      ReadsByte(env, p, LF, AtNextLine(p));
      assert [] + [Data(Value, [])] == [Data(Value, [])] && "" + "\n" == [LF];
    }
  }

  lemma LengthIsValue(env: Env, v: string)
    requires LengthText(v)
    ensures IsValue(env, v) && !Blank(v[0])
  {}

  /** The value of a field. */
  lemma ValuePartReads(env: Env, p: Rec, l: FieldLine) returns (q: Rec)
    requires p.state.HeaderValueDiscardWs? && FieldOk(env, p.flags.hasLength, l) && l.value != []
    requires p.hstate == NameRun(l.name).0
    ensures ValueReads(env, p, l.value, q)
  {
    hide ValueReads, NameRun, LowerName, IsToken, IsValue, LengthText, Decimal;
    NamesExact(l.name);
    if IsLength(l.name) {
      LengthIsValue(env, l.value);
      LengthExact(env, p, l.value);
      q := LengthRec(p, l.value);
    } else {
      q := FreeValue(env, p, l.value);
    }
  }

  /** A field is reported with its value. */
  lemma FieldReads(env: Env, p: Rec, l: FieldLine) returns (q: Rec)
    requires p.state.HeaderFieldStart? && FieldOk(env, p.flags.hasLength, l)
    ensures Reads(env, p, FieldText(l) + "\n", q, [Data(Field, l.name), Data(Value, l.value)])
    ensures q.state.HeaderFieldStart?
  {
    hide Reads, ValueReads, NameRun, LowerName, IsToken, ValueText, LengthText, Decimal, TokenFlag;
    var r := AfterName(p, l.name).(state := HeaderValueDiscardWs);
    UpToValueReads(env, p, l.name, l.blanks);
    if l.value == [] {
      EmptyEndsWith(env, r, l.cr);
      q := AtNextLine(r);
    } else {
      var v := ValuePartReads(env, r, l);
      ValueEndsWith(env, r, l.value, v, l.cr);
      q := AtNextLine(v);
    }
    var e := l.value + LineEnd(l.cr);
    assert l.value == [] ==> e == LineEnd(l.cr);
    ThenAny(env, p, l.name + ":" + l.blanks, r, [Data(Field, l.name)], e, q, [Data(Value, l.value)]);
    assert l.name + ":" + l.blanks + e == FieldText(l) + "\n";
    assert [Data(Field, l.name)] + [Data(Value, l.value)] == [Data(Field, l.name), Data(Value, l.value)];
  }

  // ----- the header line, exactly -----

  predicate IsFieldLine(env: Env, again: bool, w: string, l: FieldLine) { FieldOk(env, again, l) && w == FieldText(l) }

  lemma LineThere(env: Env, p: Rec, q: Rec, l: FieldLine)
    requires Tells(env, p, q, l) && !q.state.HeaderField?
    ensures FieldOk(env, p.flags.hasLength, l) && ReadOf(q, l) == FieldText(l)
  {
    hide NameRun, LowerName, FieldText, ValueText, LengthText, Decimal;
  }

  /** A header line is accepted if and only if it has this form: a name made of
      token characters, a colon, blanks, and a value that is empty or whose bytes but
      the first are checked; a length is given once, in digits. */
  lemma FieldLineExact(env: Env, p: Rec, w: string)
    requires p.state.HeaderFieldStart? && w != [] && w[0] != CR && NoLineEnd(w)
    ensures !Feed(env, p, 0, w + "\n").verdict.Failed?
            <==> exists l :: IsFieldLine(env, p.flags.hasLength, w, l)
  {
    hide Byte, FeedOn, Tells, ReadOf, FieldText, FieldOk, Join;
    var x := FieldSound(env, p, w);
    var f := Feed(env, p, 0, w);
    FeedSnoc(env, Start(p, 0), w, LF);
    assert "\n" == [LF];
    if l :| IsFieldLine(env, p.flags.hasLength, w, l) {
      var q := FieldReads(env, p, l);
    } else if f.verdict.Running? {
      if f.p.state.HeaderField? {
        NameCrIs(env, f.p);
      } else {
        LineThere(env, p, f.p, x);
        assert IsFieldLine(env, p.flags.hasLength, w, x);
      }
    }
  }

  /** A second length is refused, whatever its value. */
  lemma SecondLength(env: Env, p: Rec, name: string, blanks: string, ch: char)
    requires p.state.HeaderFieldStart? && p.flags.hasLength
    requires NameOk(name) && IsLength(name) && AllBlank(blanks) && IsNum(ch)
    ensures Feed(env, p, 0, name + ":" + blanks + [ch]).verdict == Failed(UnexpectedContentLength)
  {
    hide NameRun, Byte, LowerName, IsToken, Join;
    UpToValueReads(env, p, name, blanks);
    var s := name + ":" + blanks;
    var r := AfterName(p, name).(state := HeaderValueDiscardWs);
    NamesExact(name);
    FeedSnoc(env, Start(p, 0), s, ch);
    DiscardBytes(env, r, ch);
    NotPending(r);
    hide FeedOn;
    DiscardIs(env, p, s, r, [Data(Field, name)]);
  }

  lemma DiscardIs(env: Env, p: Rec, s: string, q: Rec, t: seq<Event>)
    requires Reads(env, p, s, q, t) && q.state.HeaderValueDiscardWs?
    ensures Feed(env, p, 0, s).verdict.Running? && Feed(env, p, 0, s).p == q
  {
    hide Feed, Join;
  }

  // ----- values that go on in the next line -----

  /** The line is over, but the next one may continue it. */
  predicate Open(env: Env, p: Rec, s: string, q: Rec, t: seq<Event>) {
    var f := Feed(env, p, 0, s);
    && f.verdict.Running? && f.p == q && Same(f.ev, t)
    && (q.state.HeaderValueLws? || q.state.HeaderValueDiscardLws?)
  }

  lemma Opens(env: Env, p: Rec, s: string, q: Rec, t: seq<Event>, ch: char, o: Out)
    requires Reads(env, p, s, q, t) && (q.state.HeaderValue? || q.state.HeaderAlmostDone?
                                        || q.state.HeaderValueDiscardWs? || q.state.HeaderValueDiscardWsAlmostDone?)
    requires Byte(env, q, ch) == o && o.ctl.Consume?
    requires o.p.state.HeaderValueLws? || o.p.state.HeaderValueDiscardLws?
    ensures Open(env, p, s + [ch], o.p, t + o.ev)
  {
    hide Byte, Join;
    var f := Feed(env, p, 0, s);
    NotPending(f.p);
    assert f.ev + [] == f.ev;
    FeedSnoc(env, Start(p, 0), s, ch);
    SameAfter(f.ev, t, o.ev);
    hide FeedOn;
  }

  lemma ValueOpens(env: Env, p: Rec, s: string, q: Rec, t: seq<Event>, cr: bool)
    requires Reads(env, p, s, q, t) && q.state.HeaderValue?
    ensures Open(env, p, s + LineEnd(cr), q.(state := HeaderValueLws), t + [Data(Value, [])])
  {
    hide Reads, Open, Byte, Join;
    var none: seq<Event> := [];
    if cr {
      var r := q.(state := HeaderAlmostDone);
      ValueBytes(env, q, CR);
      Next(env, p, s, q, t, CR);
      assert [Data(Value, [])] + none == [Data(Value, [])];
      AlmostBytes(env, r, LF);
      Opens(env, p, s + [CR], r, t + [Data(Value, [])], LF, Go(q.(state := HeaderValueLws)));
      assert s + [CR] + [LF] == s + ("\r" + "\n");
      assert t + [Data(Value, [])] + none == t + [Data(Value, [])];
    } else {
      ValueBytes(env, q, LF);
      Opens(env, p, s, q, t, LF, GoWith(q.(state := HeaderValueLws), Data(Value, [])));
      assert s + [LF] == s + ("" + "\n");
    }
  }

  lemma EmptyOpens(env: Env, p: Rec, s: string, q: Rec, t: seq<Event>, cr: bool)
    requires Reads(env, p, s, q, t) && q.state.HeaderValueDiscardWs?
    ensures Open(env, p, s + LineEnd(cr), q.(state := HeaderValueDiscardLws), t)
  {
    hide Reads, Open, Byte, Join;
    var none: seq<Event> := [];
    assert t + none == t && none + none == none;
    if cr {
      var r := q.(state := HeaderValueDiscardWsAlmostDone);
      DiscardBytes(env, q, CR);
      Next(env, p, s, q, t, CR);
      AlmostBytes(env, r, LF);
      Opens(env, p, s + [CR], r, t, LF, Go(q.(state := HeaderValueDiscardLws)));
      assert s + [CR] + [LF] == s + ("\r" + "\n");
    } else {
      DiscardBytes(env, q, LF);
      Opens(env, p, s, q, t, LF, Go(q.(state := HeaderValueDiscardLws)));
      assert s + [LF] == s + ("" + "\n");
    }
  }

  lemma ContinueStep(env: Env, q: Rec, ch: char)
    requires Blank(ch)
    ensures q.state.HeaderValueLws? ==> Step(env, q, ch) == Redo(q.(state := HeaderValueStart))
    ensures q.state.HeaderValueStart? ==> Step(env, q, ch) == StepValueStart(q, ch)
    ensures q.state.HeaderValueDiscardLws? ==> Step(env, q, ch) == Go(q.(state := HeaderValueDiscardWs))
  {
    hide StepUrl, StepResLine, StepReqLine, StepMethod, StepHeadersDone, StepBody, StepValueStart;
  }

  predicate Started(h: HeaderState) {
    h.ContentLength? || h.Connection? || h.TransferEncoding? || h.Upgrade? || h.MatchingTokenStart?
  }

  /** A value that goes on: the blank belongs to it, and what was matched is forgotten. */
  lemma ContinueByte(env: Env, q: Rec, ch: char)
    requires Blank(ch)
    ensures q.state.HeaderValueLws? && !Started(q.hstate) ==>
              Byte(env, q, ch) == GoWith(q.(state := HeaderValue, index := 0, hstate := General), Data(Value, [ch]))
    ensures q.state.HeaderValueDiscardLws? ==> Byte(env, q, ch) == Go(q.(state := HeaderValueDiscardWs))
  {
    hide Step;
    ContinueStep(env, q, ch);
    var r := q.(state := HeaderValueStart);
    ContinueStep(env, r, ch);
    if q.state.HeaderValueLws? && !Started(q.hstate) {
      assert StepValueStart(r, ch)
             == GoWith(q.(state := HeaderValue, index := 0, hstate := General), Data(Value, [ch]));
      assert Byte(env, r, ch) == Step(env, r, ch);
      assert [] + [Data(Value, [ch])] == [Data(Value, [ch])];
    }
  }

  lemma OpenThen(env: Env, p: Rec, s: string, q: Rec, t: seq<Event>, ch: char, o: Out)
    requires Open(env, p, s, q, t) && Byte(env, q, ch) == o && o.ctl.Consume?
    requires o.p.state.HeaderValue? || o.p.state.HeaderValueDiscardWs?
    ensures Reads(env, p, s + [ch], o.p, t + o.ev)
  {
    hide Byte, Join;
    var f := Feed(env, p, 0, s);
    NotPending(o.p);
    FeedSnoc(env, Start(p, 0), s, ch);
    SameAfter(f.ev, t, o.ev);
    assert f.ev + o.ev + [] == f.ev + o.ev;
    hide FeedOn;
  }

  lemma OpenEnds(env: Env, p: Rec, s: string, q: Rec, t: seq<Event>)
    requires Open(env, p, s, q, t)
    ensures Reads(env, p, s, AtNextLine(q), t + if q.state.HeaderValueLws? then [] else [Data(Value, [])])
  {
    hide FeedOn, Join, TokenFlag;
    var f := Feed(env, p, 0, s);
    SameAfter(f.ev, t, if q.state.HeaderValueLws? then [] else [Data(Value, [])]);
  }

  lemma {:induction false} MoreValue(env: Env, p: Rec, s: string, q: Rec, t: seq<Event>, v: string)
    requires Reads(env, p, s, q, t) && q.state.HeaderValue? && q.hstate.General? && IsValue(env, v)
    ensures Reads(env, p, s + v, q, t + Letters(Value, v))
    decreases |v|
  {
    hide Reads, Byte, Letters, ValueStep, IsHeaderChar;
    LettersNone(Value);
    if v == [] {
      assert s + v == s && t + [] == t;
    } else {
      var n := |v| - 1;
      MoreValue(env, p, s, q, t, v[..n]);
      ValueBytes(env, q, v[n]);
      GeneralStep(q, v[n]);
      Next(env, p, s + v[..n], q, t + Letters(Value, v[..n]), v[n]);
      assert s + v[..n] + [v[n]] == s + v && v[..n] + [v[n]] == v;
      LettersSnoc(Value, v[..n], v[n]);
      assert t + Letters(Value, v[..n]) + ([Data(Value, [v[n]])] + []) == t + Letters(Value, v);
    }
  }

  /** The continuation of a value: a blank, and what follows. */
  predicate Continues(env: Env, more: seq<string>) {
    forall i :: 0 <= i < |more| ==> more[i] != [] && Blank(more[i][0]) && IsValue(env, more[i][1..])
  }

  function Lines(more: seq<string>, cr: bool): string {
    if more == [] then [] else Lines(more[..|more| - 1], cr) + (more[|more| - 1] + LineEnd(cr))
  }

  function Joined(more: seq<string>): string {
    if more == [] then [] else Joined(more[..|more| - 1]) + more[|more| - 1]
  }

  lemma DataJoin(t: seq<Event>, v: string, w: string)
    ensures Same(t + [Data(Value, v)] + [Data(Value, w)], t + [Data(Value, v + w)])
  {
    JoinPush(t + [Data(Value, v)], Data(Value, w));
    JoinPush(t, Data(Value, v));
    JoinPush(t, Data(Value, v + w));
    PushTwo(Join(t), v, w);
  }

  lemma PushTwo(t: seq<Event>, v: string, w: string)
    ensures Push(Push(t, Data(Value, v)), Data(Value, w)) == Push(t, Data(Value, v + w))
  {
    if t != [] && t[|t| - 1].Data? && t[|t| - 1].kind == Value {
      var b := t[|t| - 1].bytes;
      assert b + v + w == b + (v + w);
    }
  }

  /** One more line of a value. */
  lemma FoldOn(env: Env, p: Rec, s: string, q: Rec, t: seq<Event>, v: string, w: string, cr: bool)
    requires Open(env, p, s, q, t + [Data(Value, v)]) && q.state.HeaderValueLws? && !Started(q.hstate)
    requires w != [] && Blank(w[0]) && IsValue(env, w[1..])
    ensures Open(env, p, s + (w + LineEnd(cr)), q.(index := 0, hstate := General), t + [Data(Value, v + w)])
  {
    hide Byte, Letters, Join, LineEnd, IsValue, Reads, Started;
    var r := q.(state := HeaderValue, index := 0, hstate := General);
    var u := t + [Data(Value, v)];
    ContinueByte(env, q, w[0]);
    OpenThen(env, p, s, q, u, w[0], GoWith(r, Data(Value, [w[0]])));
    MoreValue(env, p, s + [w[0]], r, u + [Data(Value, [w[0]])], w[1..]);
    var x := u + [Data(Value, [w[0]])] + Letters(Value, w[1..]);
    ValueOpens(env, p, s + [w[0]] + w[1..], r, x, cr);
    assert s + [w[0]] + w[1..] + LineEnd(cr) == s + (w + LineEnd(cr));
    LettersOf(w);
    assert x + [Data(Value, [])] == u + (Letters(Value, w) + [Data(Value, [])]);
    JoinClosed(Value, w);
    SameBefore(u, Letters(Value, w) + [Data(Value, [])], [Data(Value, w)]);
    DataJoin(t, v, w);
    hide Feed;
  }

  lemma {:induction false} LettersOf(w: string)
    requires w != []
    ensures Letters(Value, w) == [Data(Value, [w[0]])] + Letters(Value, w[1..])
  {
    var n := |w| - 1;
    if n == 0 {
      assert w == [w[0]];
      LettersOne(Value, w[0]);
      LettersNone(Value);
      assert [Data(Value, [w[0]])] + [] == [Data(Value, [w[0]])];
    } else {
      LettersOf(w[..n]);
      assert w[..n][1..] == w[1..][..n - 1];
      assert w[1..][n - 1] == w[n];
    }
  }

  lemma {:induction false} FoldedOn(env: Env, p: Rec, s: string, q: Rec, t: seq<Event>, v: string, more: seq<string>,
                                    cr: bool)
    requires Open(env, p, s, q, t + [Data(Value, v)]) && q.state.HeaderValueLws? && !Started(q.hstate)
    requires Continues(env, more) && more != []
    ensures Open(env, p, s + Lines(more, cr), q.(index := 0, hstate := General), t + [Data(Value, v + Joined(more))])
    decreases |more|
  {
    hide Open, IsValue;
    var n := |more| - 1;
    var r := q.(index := 0, hstate := General);
    if n == 0 {
      FoldOn(env, p, s, q, t, v, more[0], cr);
      assert Lines(more[..0], cr) == [] && Joined(more[..0]) == [];
      assert Lines(more, cr) == more[0] + LineEnd(cr) && Joined(more) == more[0];
    } else {
      FoldedOn(env, p, s, q, t, v, more[..n], cr);
      FoldOn(env, p, s + Lines(more[..n], cr), r, t, v + Joined(more[..n]), more[n], cr);
      assert s + Lines(more[..n], cr) + (more[n] + LineEnd(cr)) == s + Lines(more, cr);
      assert v + Joined(more[..n]) + more[n] == v + Joined(more);
    }
  }

  /** A value that is continued in further lines is reported as one value, which
      keeps the blanks that begin each of them but not the line ends. */
  lemma FoldedReads(env: Env, p: Rec, name: string, blanks: string, v: string, more: seq<string>, cr: bool)
    returns (q: Rec)
    requires p.state.HeaderFieldStart? && NameOk(name) && AllBlank(blanks) && ValueText(env, v)
    requires LowerName(name) !in [CONNECTION, PROXY_CONNECTION, CONTENT_LENGTH, TRANSFER_ENCODING, UPGRADE]
    requires Continues(env, more)
    ensures Reads(env, p, name + ":" + blanks + v + LineEnd(cr) + Lines(more, cr), q,
                  [Data(Field, name), Data(Value, v + Joined(more))])
    ensures Like(p, q) && q.state.HeaderFieldStart?
  {
    hide Reads, NameRun, ValueReads, LowerName, IsToken, ValueText, Open, LineEnd, Letters, Join, Continues;
    var r := AfterName(p, name).(state := HeaderValueDiscardWs);
    UpToValueReads(env, p, name, blanks);
    NamesExact(name);
    NameNotStarted(name);
    var h := GeneralValue(env, r, v);
    ThenAny(env, p, name + ":" + blanks, r, [Data(Field, name)], v, h, Letters(Value, v));
    var s, e := name + ":" + blanks + v + LineEnd(cr), [Data(Field, name)];
    ValueOpens(env, p, name + ":" + blanks + v, h, e + Letters(Value, v), cr);
    NotEmpty(env, v);
    JoinClosed(Value, v);
    SameBefore(e, Letters(Value, v) + [Data(Value, [])], [Data(Value, v)]);
    assert e + Letters(Value, v) + [Data(Value, [])] == e + (Letters(Value, v) + [Data(Value, [])]);
    var o := h.(state := HeaderValueLws);
    OpenTold(env, p, s, o, e + Letters(Value, v) + [Data(Value, [])], e + [Data(Value, v)]);
    if more == [] {
      assert v + Joined(more) == v && s + Lines(more, cr) == s;
    } else {
      FoldedOn(env, p, s, o, e, v, more, cr);
    }
    var w := v + Joined(more);
    OpenEnds(env, p, s + Lines(more, cr), o, e + [Data(Value, w)]);
    assert e + [Data(Value, w)] + [] == [Data(Field, name), Data(Value, w)];
    q := AtNextLine(o);
  }

  lemma NotEmpty(env: Env, v: string)
    requires ValueText(env, v)
    ensures v != []
  {}

  lemma NameNotStarted(name: string)
    requires name != []
    ensures !NameRun(name).0.MatchingTokenStart?
  {
    hide NameRun, Begins;
    RunRecognised(name);
  }

  /** The value of a field that is not interpreted. */
  lemma {:induction false} GeneralValue(env: Env, p: Rec, v: string) returns (q: Rec)
    requires p.state.HeaderValueDiscardWs? && !Interpreted(p.hstate) && !p.hstate.MatchingTokenStart?
    requires ValueText(env, v)
    ensures Reads(env, p, v, q, Letters(Value, v))
    ensures q == p.(state := HeaderValue, index := 0, hstate := General)
  {
    hide Reads, Byte, Letters, StepValueStart;
    q := p.(state := HeaderValue, index := 0, hstate := General);
    var none: seq<Event> := [];
    PlainStart(p, v[0]);
    DiscardBytes(env, p, v[0]);
    ReadsByte(env, p, v[0], q);
    assert [Data(Value, [v[0]])] + none == [Data(Value, [v[0]])];
    MoreValue(env, p, [v[0]], q, [Data(Value, [v[0]])], v[1..]);
    assert [v[0]] + v[1..] == v;
    LettersOf(v);
  }

  lemma OpenTold(env: Env, p: Rec, s: string, q: Rec, t: seq<Event>, u: seq<Event>)
    requires Open(env, p, s, q, t) && Same(t, u)
    ensures Open(env, p, s, q, u)
  {
    hide Feed, Join;
  }

  /** Before a value has begun, a line end that blanks follow is passed over. */
  lemma EmptyFold(env: Env, p: Rec, name: string, blanks: string, b: string, cr: bool)
    requires p.state.HeaderFieldStart? && NameOk(name) && AllBlank(blanks) && AllBlank(b) && b != []
    ensures Reads(env, p, name + ":" + blanks + LineEnd(cr) + b, AfterName(p, name).(state := HeaderValueDiscardWs),
                  [Data(Field, name)])
  {
    hide Reads, NameRun, IsToken, Open, LineEnd, Join, Byte;
    var none: seq<Event> := [];
    var r := AfterName(p, name).(state := HeaderValueDiscardWs);
    var s, t := name + ":" + blanks, [Data(Field, name)];
    UpToValueReads(env, p, name, blanks);
    EmptyOpens(env, p, s, r, t, cr);
    var o := r.(state := HeaderValueDiscardLws);
    ContinueByte(env, o, b[0]);
    OpenThen(env, p, s + LineEnd(cr), o, t, b[0], Go(r));
    BlanksPart(env, r, b[1..]);
    ThenAny(env, p, s + LineEnd(cr) + [b[0]], r, t + none, b[1..], r, none);
    assert s + LineEnd(cr) + [b[0]] + b[1..] == s + LineEnd(cr) + b && t + none + none == t;
  }

  /** A line with a value, when the next line may continue it. */
  lemma LineOpens(env: Env, p: Rec, l: FieldLine) returns (q: Rec)
    requires p.state.HeaderFieldStart? && FieldOk(env, p.flags.hasLength, l) && l.value != []
    ensures Open(env, p, FieldText(l) + "\n", q, [Data(Field, l.name), Data(Value, l.value)])
    ensures q.state.HeaderValueLws?
    ensures IsLength(l.name) ==> q.hstate.ContentLength?
    ensures LowerName(l.name) == "transfer-encoding" && IsValue(env, l.value) ==>
              !Started(q.hstate) && q.flags == p.flags && (ChunkedText(l.value) <==> q.hstate.Chunked?)
  {
    hide Reads, ValueReads, NameRun, LowerName, IsToken, ValueText, LengthText, Decimal, Open, ChunkedText, IsValue;
    hide Join, Letters, Feed;
    var r := AfterName(p, l.name).(state := HeaderValueDiscardWs);
    UpToValueReads(env, p, l.name, l.blanks);
    NamesExact(l.name);
    NotEmpty(env, l.value);
    var v: Rec;
    if LowerName(l.name) == "transfer-encoding" && IsValue(env, l.value) {
      NotBlankFirst(env, l.value);
      v := ChunkedExact(env, r, l.value);
      CodingState(l.value, v);
    } else {
      v := ValuePartReads(env, r, l);
      if IsLength(l.name) { LengthValue(env, r, l, v); }
    }
    var e := [Data(Field, l.name)];
    ReadsOf(env, r, l.value, v);
    ThenAny(env, p, l.name + ":" + l.blanks, r, e, l.value, v, Letters(Value, l.value));
    ValueOpens(env, p, l.name + ":" + l.blanks + l.value, v, e + Letters(Value, l.value), l.cr);
    JoinClosed(Value, l.value);
    SameBefore(e, Letters(Value, l.value) + [Data(Value, [])], [Data(Value, l.value)]);
    assert e + Letters(Value, l.value) + [Data(Value, [])] == e + (Letters(Value, l.value) + [Data(Value, [])]);
    assert e + [Data(Value, l.value)] == [Data(Field, l.name), Data(Value, l.value)];
    q := v.(state := HeaderValueLws);
    assert l.name + ":" + l.blanks + l.value + LineEnd(l.cr) == FieldText(l) + "\n";
    OpenTold(env, p, FieldText(l) + "\n", q, e + Letters(Value, l.value) + [Data(Value, [])],
             [Data(Field, l.name), Data(Value, l.value)]);
  }

  lemma NotBlankFirst(env: Env, v: string)
    requires ValueText(env, v)
    ensures !Blank(v[0])
  {}

  lemma ReadsOf(env: Env, p: Rec, v: string, q: Rec)
    requires ValueReads(env, p, v, q)
    ensures Reads(env, p, v, q, Letters(Value, v)) && q.state.HeaderValue?
  {
    hide Reads;
  }

  lemma CodingState(v: string, q: Rec)
    requires ChunkedSoFar(v, q.hstate, q.index)
    ensures !Started(q.hstate)
  {
    hide ChunkedText, Begins;
  }

  lemma LengthValue(env: Env, p: Rec, l: FieldLine, q: Rec)
    requires p.state.HeaderValueDiscardWs? && p.hstate.ContentLength? && !p.flags.hasLength
    requires LengthText(l.value) && Decimal(l.value) <= MAX_LENGTH && ValueReads(env, p, l.value, q)
    ensures q.hstate.ContentLength?
  {
    hide ValueReads, LengthText, Decimal;
    LengthIsValue(env, l.value);
    LengthStarts(l.value);
    LengthExact(env, p, l.value);
    ReadsOf(env, p, l.value, q);
    ReadsOf(env, p, l.value, LengthRec(p, l.value));
    ReadsOnce(env, p, l.value, q, Letters(Value, l.value), LengthRec(p, l.value), Letters(Value, l.value));
  }

  lemma LengthStarts(v: string)
    requires LengthText(v)
    ensures v != []
  {}

  /** A length must not be continued. */
  lemma FoldedLength(env: Env, p: Rec, l: FieldLine, ch: char)
    requires p.state.HeaderFieldStart? && FieldOk(env, p.flags.hasLength, l) && l.value != []
    requires IsLength(l.name) && Blank(ch)
    ensures Feed(env, p, 0, FieldText(l) + "\n" + [ch]).verdict == Failed(InvalidContentLength)
  {
    hide FieldOk, FieldText, LowerName, Join, Byte;
    var q := LineOpens(env, p, l);
    FeedSnoc(env, Start(p, 0), FieldText(l) + "\n", ch);
    LengthContinues(env, q, ch);
    hide FeedOn;
  }

  lemma LengthContinues(env: Env, q: Rec, ch: char)
    requires q.state.HeaderValueLws? && q.hstate.ContentLength? && Blank(ch)
    ensures Byte(env, q, ch).ctl == Fail(InvalidContentLength)
  {
    hide Step;
    ContinueStep(env, q, ch);
    var r := q.(state := HeaderValueStart);
    ContinueStep(env, r, ch);
    assert StepValueStart(r, ch).ctl == Fail(InvalidContentLength);
    assert Byte(env, r, ch) == Step(env, r, ch);
  }

  /** A transfer coding whose line is continued is not acted upon, even if it is
      `chunked` and only blanks follow; on a line of its own, it is. */
  lemma FoldedCodingLost(env: Env, p: Rec, l: FieldLine, more: string, cr: bool) returns (q: Rec, r: Rec)
    requires p.state.HeaderFieldStart? && FieldOk(env, p.flags.hasLength, l) && l.value != []
    requires LowerName(l.name) == "transfer-encoding" && IsValue(env, l.value) && ChunkedText(l.value)
    requires more != [] && Blank(more[0]) && IsValue(env, more[1..])
    ensures Reads(env, p, FieldText(l) + "\n" + (more + LineEnd(cr)), q,
                  [Data(Field, l.name), Data(Value, l.value + more)]) && q.flags == p.flags
    ensures Reads(env, p, FieldText(l) + "\n", r, [Data(Field, l.name), Data(Value, l.value)])
            && r.flags == p.flags.(chunked := true)
  {
    hide FieldOk, FieldText, LowerName, Join, Open, IsValue, ChunkedText, Reads, LineEnd;
    var o := LineOpens(env, p, l);
    var s, e := FieldText(l) + "\n", [Data(Field, l.name)];
    assert e + [Data(Value, l.value)] == [Data(Field, l.name), Data(Value, l.value)];
    OpenEnds(env, p, s, o, e + [Data(Value, l.value)]);
    assert e + [Data(Value, l.value)] + [] == [Data(Field, l.name), Data(Value, l.value)];
    r := AtNextLine(o);
    FoldOn(env, p, s, o, e, l.value, more, cr);
    var f := o.(index := 0, hstate := General);
    OpenEnds(env, p, s + (more + LineEnd(cr)), f, e + [Data(Value, l.value + more)]);
    assert e + [Data(Value, l.value + more)] + [] == [Data(Field, l.name), Data(Value, l.value + more)];
    q := AtNextLine(f);
  }
}
