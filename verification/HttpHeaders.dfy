/** The header fields of a message: what they say about the connection and the body,
    in terms of the text of the fields. */
module HttpHeaders {
  import opened Decimals
  import opened HttpChunked
  import opened HttpFields
  import opened HttpFraming
  import opened HttpNames
  import opened HttpOptions
  import opened HttpReads
  import opened HttpStep
  import opened HttpTypes
  import opened Options

  // ----- fields that do not frame the body -----

  /** Any field but Content-Length and Transfer-Encoding, with any legal value. */
  predicate Unframing(env: Env, f: HeaderLine) {
    && f.name != [] && IsToken(f.name)
    && LowerName(f.name) != "content-length" && LowerName(f.name) != "transfer-encoding"
    && IsValue(env, f.value)
    && (f.value != [] ==> !Blank(f.value[0]))
  }

  predicate IsConnection(f: HeaderLine) {
    LowerName(f.name) == "connection" || LowerName(f.name) == "proxy-connection"
  }

  /** A Connection field whose value names the option `w`. */
  predicate FieldNames(f: HeaderLine, w: string) {
    IsConnection(f) && exists i :: 0 <= i <= |f.value| && Named(f.value + [','], i, w)
  }

  predicate Asks(fs: seq<HeaderLine>, w: string) { exists i :: 0 <= i < |fs| && FieldNames(fs[i], w) }

  /** An Upgrade field that is not empty. */
  predicate OffersUpgrade(fs: seq<HeaderLine>) {
    exists i :: 0 <= i < |fs| && LowerName(fs[i].name) == "upgrade" && fs[i].value != []
  }

  /** The flags of what the fields say, and nothing else. */
  predicate Says(f: Flags, g: Flags, fs: seq<HeaderLine>) {
    && (g.keepAlive <==> f.keepAlive || Asks(fs, KEEP_ALIVE))
    && (g.close <==> f.close || Asks(fs, CLOSE))
    && (g.connectionUpgrade <==> f.connectionUpgrade || Asks(fs, UPGRADE))
    && (g.upgrade <==> f.upgrade || OffersUpgrade(fs))
    && g == f.(keepAlive := g.keepAlive, close := g.close, connectionUpgrade := g.connectionUpgrade,
               upgrade := g.upgrade)
  }

  lemma UpgradeStart(p: Rec, ch: char)
    requires p.hstate.Upgrade?
    ensures StepValueStart(p, ch)
            == GoWith(p.(state := HeaderValue, index := 0, hstate := General, flags := p.flags.(upgrade := true)),
                      Data(Value, [ch]))
  {}

  lemma {:induction false} UpgradeValue(env: Env, p: Rec, v: string)
    requires p.state.HeaderValueDiscardWs? && p.hstate.Upgrade?
    requires v != [] && IsValue(env, v) && !Blank(v[0])
    ensures ValueReads(env, p, v,
                       p.(state := HeaderValue, index := 0, hstate := General, flags := p.flags.(upgrade := true)))
  {
    hide ValueReads, StepValueStart, ValueStep, IsHeaderChar;
    var front, ch := v[..|v| - 1], v[|v| - 1];
    var q := p.(state := HeaderValue, index := 0, hstate := General, flags := p.flags.(upgrade := true));
    if front == [] {
      assert v == [ch];
      UpgradeStart(p, ch);
      ValueBegins(env, p, ch, q);
    } else {
      UpgradeValue(env, p, front);
      GeneralStep(q, ch);
      ValueGoesOn(env, p, front, q, ch, q);
      assert v == front + [ch];
    }
  }

  predicate OptionsOnly(f: Flags, g: Flags) {
    g == f.(keepAlive := g.keepAlive, close := g.close, connectionUpgrade := g.connectionUpgrade)
  }

  lemma SetsOptionOnly(f: Flags, o: Option<string>)
    ensures OptionsOnly(f, SetOption(f, o))
  {}

  lemma {:induction false} SetsOptionsOnly(f: Flags, v: string)
    ensures OptionsOnly(f, SetOptions(f, v))
  {
    hide StandAt, OptionOf, Trimmed, SetOption;
    if v != [] {
      SetsOptionsOnly(f, v[..|v| - 1]);
      SetsOptionOnly(SetOptions(f, v[..|v| - 1]), OptionOf(Trimmed(v[..|v| - 1])));
    }
  }

  /** What the value of a field does to the record. */
  lemma UnframingValue(env: Env, p: Rec, f: HeaderLine) returns (q: Rec)
    requires p.state.HeaderValueDiscardWs? && Unframing(env, f) && p.hstate == NameRun(f.name).0
    ensures Reads(env, p, f.value + "\r\n", q, [Data(Value, f.value)])
    ensures q.state.HeaderFieldStart?
    ensures q == p.(state := q.state, hstate := q.hstate, index := q.index, flags := q.flags)
    ensures q.flags == (if IsConnection(f) then SetOptions(p.flags, f.value + [','])
                        else if LowerName(f.name) == "upgrade" && f.value != [] then p.flags.(upgrade := true)
                        else p.flags)
  {
    hide Reads, NameRun, ValueReads, SetOptions, LowerName, IsToken, IsValue;
    NamesExact(f.name);
    assert !p.hstate.MatchingTokenStart? && TokenFlag(p.hstate, p.flags) == p.flags by { NameNoToken(f.name, p.flags); }
    if f.value == [] {
      EmptyValue(env, p);
      q := p.(state := HeaderFieldStart);
      assert f.value + "\r\n" == "\r\n";
      EmptyOptions(p.flags);
      assert f.value + [','] == [','];
    } else if p.hstate.Connection? {
      q := ConnectionExact(env, p, f.value);
    } else if p.hstate.Upgrade? {
      UpgradeValue(env, p, f.value);
      var v := p.(state := HeaderValue, index := 0, hstate := General, flags := p.flags.(upgrade := true));
      ValueEnds(env, p, f.value, v);
      q := v.(state := HeaderFieldStart);
    } else {
      assert LowerName(f.name) !in [CONTENT_LENGTH, TRANSFER_ENCODING, UPGRADE];
      PlainValue(env, p, f.value);
      var v := p.(state := HeaderValue, index := 0, hstate := General);
      ValueEnds(env, p, f.value, v);
      q := v.(state := HeaderFieldStart);
    }
    DifferentNames();
  }

  lemma DifferentNames()
    ensures UPGRADE != CONNECTION && UPGRADE != PROXY_CONNECTION
  {}

  lemma EmptyOptions(f: Flags)
    ensures SetOptions(f, [',']) == f
  {
    hide StandAt;
    assert [','][..0] == [];
    ListStarts(f);
  }

  lemma NameNoToken(name: string, f: Flags)
    requires name != []
    ensures var h := NameRun(name).0; !h.MatchingTokenStart? && TokenFlag(h, f) == f
  {
    hide NameRun, Begins;
    RunRecognised(name);
  }

  /** A field is reported as it stands, and sets the flags of what it says. */
  lemma UnframingLine(env: Env, p: Rec, f: HeaderLine) returns (q: Rec)
    requires p.state.HeaderFieldStart? && Unframing(env, f)
    ensures Reads(env, p, PrintLine(f), q, LineEvents(f))
    ensures q == p.(hstate := q.hstate, index := q.index, flags := q.flags)
    ensures Says(p.flags, q.flags, [f])
  {
    hide Reads, NameRun, IsValue, IsToken, LowerName, SetOptions, Named;
    var r := AfterName(p, f.name).(state := HeaderValueDiscardWs);
    NameColonReads(env, p, f.name);
    var s := f.value + "\r\n";
    q := UnframingValue(env, r, f);
    ThenAny(env, p, f.name + ": ", r, [Data(Field, f.name)], s, q, [Data(Value, f.value)]);
    assert f.name + ": " + s == PrintLine(f);
    assert [Data(Field, f.name)] + [Data(Value, f.value)] == LineEvents(f);
    FieldSays(p.flags, q.flags, f);
  }

  lemma FieldSays(f: Flags, g: Flags, h: HeaderLine)
    requires g == (if IsConnection(h) then SetOptions(f, h.value + [','])
                   else if LowerName(h.name) == UPGRADE && h.value != [] then f.(upgrade := true)
                   else f)
    ensures Says(f, g, [h])
  {
    hide LowerName, SetOptions, FieldNames, Asks, OffersUpgrade;
    OneAsks(h, KEEP_ALIVE);
    OneAsks(h, CLOSE);
    OneAsks(h, UPGRADE);
    DifferentNames();
    if IsConnection(h) { ConnectionSays(f, h); } else { NothingNamed(h); }
  }

  lemma OneAsks(h: HeaderLine, w: string)
    ensures Asks([h], w) <==> FieldNames(h, w)
    ensures OffersUpgrade([h]) <==> LowerName(h.name) == UPGRADE && h.value != []
  {
    hide FieldNames, LowerName;
    assert [h][0] == h;
  }

  lemma NothingNamed(h: HeaderLine)
    requires !IsConnection(h)
    ensures forall w :: !FieldNames(h, w)
  {
    hide IsConnection, Named;
  }

  lemma ConnectionSays(f: Flags, h: HeaderLine)
    requires IsConnection(h)
    ensures var g := SetOptions(f, h.value + [',']);
      && (g.keepAlive <==> f.keepAlive || FieldNames(h, KEEP_ALIVE))
      && (g.close <==> f.close || FieldNames(h, CLOSE))
      && (g.connectionUpgrade <==> f.connectionUpgrade || FieldNames(h, UPGRADE))
      && OptionsOnly(f, g)
  {
    hide IsConnection, SetOptions;
    var v := h.value + [','];
    FlagsNamed(f, v);
    SetsOptionsOnly(f, v);
    NamedInside(h, KEEP_ALIVE);
    NamedInside(h, CLOSE);
    NamedInside(h, UPGRADE);
    hide FieldNames, Named;
  }

  lemma NamedInside(h: HeaderLine, w: string)
    requires IsConnection(h)
    ensures FieldNames(h, w) <==> exists i: nat :: Named(h.value + [','], i, w)
  {
    hide IsConnection, StandAt, OptionOf, Trimmed;
    var v := h.value + [','];
    if exists i: nat :: Named(v, i, w) {
      var i: nat :| Named(v, i, w);
      assert i <= |h.value|;
    }
  }

  lemma AsksMore(fs: seq<HeaderLine>, h: HeaderLine, w: string)
    ensures Asks(fs + [h], w) <==> Asks(fs, w) || FieldNames(h, w)
    ensures OffersUpgrade(fs + [h]) <==> OffersUpgrade(fs) || (LowerName(h.name) == UPGRADE && h.value != [])
  {
    hide FieldNames, LowerName;
    var gs := fs + [h];
    assert gs[|fs|] == h && forall i :: 0 <= i < |fs| ==> gs[i] == fs[i];
  }

  lemma SaysMore(f: Flags, g: Flags, k: Flags, fs: seq<HeaderLine>, h: HeaderLine)
    requires Says(f, g, fs) && Says(g, k, [h])
    ensures Says(f, k, fs + [h])
  {
    hide Asks, OffersUpgrade;
    AsksMore(fs, h, KEEP_ALIVE);
    AsksMore(fs, h, CLOSE);
    AsksMore(fs, h, UPGRADE);
    AsksMore([], h, KEEP_ALIVE);
    AsksMore([], h, CLOSE);
    AsksMore([], h, UPGRADE);
    NothingAsked();
    assert [] + [h] == [h];
  }

  lemma NothingAsked()
    ensures forall w :: !Asks([], w)
    ensures !OffersUpgrade([])
  {}

  lemma {:induction false} UnframingLines(env: Env, p: Rec, fs: seq<HeaderLine>) returns (q: Rec)
    requires p.state.HeaderFieldStart? && forall f :: f in fs ==> Unframing(env, f)
    ensures Reads(env, p, PrintLines(fs), q, LinesEvents(fs))
    ensures q == p.(hstate := q.hstate, index := q.index, flags := q.flags)
    ensures Says(p.flags, q.flags, fs)
  {
    hide Reads, Unframing, Says;
    if fs == [] {
      ReadsNothing(env, p);
      q := p;
      SaysNothing(p.flags);
    } else {
      var k := |fs| - 1;
      var r := UnframingLines(env, p, fs[..k]);
      q := UnframingLine(env, r, fs[k]);
      UnframingFirst(env, fs[k]);
      Then(env, p, PrintLines(fs[..k]), r, LinesEvents(fs[..k]), PrintLine(fs[k]), q, LineEvents(fs[k]));
      SaysMore(p.flags, r.flags, q.flags, fs[..k], fs[k]);
      assert fs[..k] + [fs[k]] == fs;
    }
  }

  lemma SaysNothing(f: Flags)
    ensures Says(f, f, [])
  {
    NothingAsked();
  }

  lemma UnframingFirst(env: Env, f: HeaderLine)
    requires Unframing(env, f)
    ensures PrintLine(f) != [] && !Blank(PrintLine(f)[0])
  {
    assert PrintLine(f)[0] == f.name[0];
    assert Token(f.name[0]).Some?;
  }

  lemma {:induction false} LinesFirst(env: Env, fs: seq<HeaderLine>, u: string)
    requires forall f :: f in fs ==> Unframing(env, f)
    requires u != [] && !Blank(u[0])
    ensures var w := PrintLines(fs) + u; w != [] && !Blank(w[0])
    decreases |fs|
  {
    hide Unframing, PrintLine;
    if fs == [] {
      assert PrintLines(fs) + u == u;
    } else {
      var f := fs[|fs| - 1];
      UnframingFirst(env, f);
      LinesFirst(env, fs[..|fs| - 1], PrintLine(f) + u);
      assert PrintLines(fs[..|fs| - 1]) + (PrintLine(f) + u) == PrintLines(fs) + u;
    }
  }

  // ----- the field that frames the body -----

  datatype MessageBody =
    | NoBody
    | Sized(name: string, digits: string, bytes: string)
    | InChunks(name: string, coding: string, body: ChunkedBody)
    | ToTheEnd(bytes: string)

  /** The framing field matches the body: any spelling of its name and value. */
  predicate FramingOk(env: Env, b: MessageBody) {
    match b
    case NoBody => true
    case Sized(name, digits, bytes) =>
      && name != [] && IsToken(name) && LowerName(name) == "content-length"
      && LengthText(digits) && IsValue(env, digits) && Decimal(digits) == |bytes| <= MAX_LENGTH
    case InChunks(name, coding, body) =>
      && name != [] && IsToken(name) && LowerName(name) == "transfer-encoding"
      && ChunkedText(coding) && IsValue(env, coding) && !Blank(coding[0])
      && BodyOk(env, body) && forall f :: f in body.trailer ==> Plain(env, f)
    case ToTheEnd(_) => true
  }

  predicate HasField(b: MessageBody) { b.Sized? || b.InChunks? }

  function FramingField(b: MessageBody): seq<HeaderLine> {
    match b
    case Sized(name, digits, _) => [HeaderLine(name, digits)]
    case InChunks(name, coding, _) => [HeaderLine(name, coding)]
    case _ => []
  }

  function PrintFraming(b: MessageBody): string { PrintLines(FramingField(b)) }

  function FramingEvents(b: MessageBody): seq<Event> { LinesEvents(FramingField(b)) }

  function FramedRec(p: Rec, b: MessageBody): Rec {
    match b
    case Sized(_, _, bytes) => p.(contentLength := |bytes|, flags := p.flags.(hasLength := true))
    case InChunks(_, _, _) => p.(flags := p.flags.(chunked := true))
    case _ => p
  }

  lemma NameState(name: string)
    requires name != []
    ensures LowerName(name) == CONTENT_LENGTH ==> NameRun(name).0.ContentLength?
    ensures LowerName(name) == TRANSFER_ENCODING ==> NameRun(name).0.TransferEncoding?
  {
    hide NameRun, LowerName;
    NamesExact(name);
  }

  lemma OneLine(f: HeaderLine)
    ensures PrintLines([f]) == PrintLine(f) && LinesEvents([f]) == LineEvents(f)
  {
    hide PrintLine, LineEvents;
    assert [f][..0] == [];
    assert [] + PrintLine(f) == PrintLine(f) && [] + LineEvents(f) == LineEvents(f);
  }

  /** A framing field sets what it says. */
  lemma FramingReads(env: Env, p: Rec, b: MessageBody) returns (q: Rec)
    requires p.state.HeaderFieldStart? && HasField(b) && FramingOk(env, b) && !p.flags.hasLength
    ensures Reads(env, p, PrintFraming(b), q, FramingEvents(b))
    ensures Like(FramedRec(p, b), q) && q.state.HeaderFieldStart?
  {
    hide Reads, NameRun, LowerName, IsToken, ValueReads, LengthText, Decimal, ChunkedText, IsValue, BodyOk;
    var value := if b.Sized? then b.digits else b.coding;
    NameColonReads(env, p, b.name);
    NameState(b.name);
    var r := AfterName(p, b.name).(state := HeaderValueDiscardWs);
    var v: Rec;
    assert value != [] && !Blank(value[0]) by { FramingValue(env, b); }
    if b.Sized? {
      LengthExact(env, r, value);
      v := LengthRec(r, value);
    } else {
      v := ChunkedExact(env, r, value);
    }
    ValueEnds(env, r, value, v);
    q := v.(flags := TokenFlag(v.hstate, v.flags), state := HeaderFieldStart);
    ThenAny(env, p, b.name + ": ", r, [Data(Field, b.name)], value + "\r\n", q, [Data(Value, value)]);
    OneLine(HeaderLine(b.name, value));
    assert b.name + ": " + (value + "\r\n") == PrintFraming(b);
    assert [Data(Field, b.name)] + [Data(Value, value)] == FramingEvents(b);
  }

  lemma FramingValue(env: Env, b: MessageBody)
    requires HasField(b) && FramingOk(env, b)
    ensures var value := if b.Sized? then b.digits else b.coding; value != [] && !Blank(value[0])
  {}

  // ----- all fields -----

  /** The fields of a message: those around the field that frames its body. */
  datatype Head = Head(before: seq<HeaderLine>, body: MessageBody, after: seq<HeaderLine>)

  predicate HeadOk(env: Env, h: Head) {
    && (forall f :: f in h.before ==> Unframing(env, f))
    && (forall f :: f in h.after ==> Unframing(env, f))
    && FramingOk(env, h.body)
  }

  /** Those that speak of the connection. */
  function Spoken(h: Head): seq<HeaderLine> { h.before + h.after }

  function PrintAfter(h: Head): string { PrintLines(h.after) + "\r" }
  function PrintFramed(h: Head): string { PrintFraming(h.body) + PrintAfter(h) }

  /** The fields, and the CR of the empty line. */
  function PrintHead(h: Head): string { PrintLines(h.before) + PrintFramed(h) }

  function HeadEvents(h: Head): seq<Event> { LinesEvents(h.before) + (FramingEvents(h.body) + LinesEvents(h.after)) }

  lemma SaysAll(f: Flags, g: Flags, k: Flags, l: Flags, b: MessageBody, fs: seq<HeaderLine>, gs: seq<HeaderLine>)
    requires f == NO_FLAGS && Says(f, g, fs) && Says(k, l, gs)
    requires k == (match b
                   case Sized(_, _, _) => g.(hasLength := true)
                   case InChunks(_, _, _) => g.(chunked := true)
                   case _ => g)
    ensures Says(NO_FLAGS.(hasLength := b.Sized?, chunked := b.InChunks?), l, fs + gs)
  {
    hide FieldNames, LowerName;
    AsksBoth(fs, gs, KEEP_ALIVE);
    AsksBoth(fs, gs, CLOSE);
    AsksBoth(fs, gs, UPGRADE);
    hide Asks, OffersUpgrade;
  }

  lemma AsksBoth(fs: seq<HeaderLine>, gs: seq<HeaderLine>, w: string)
    ensures Asks(fs + gs, w) <==> Asks(fs, w) || Asks(gs, w)
    ensures OffersUpgrade(fs + gs) <==> OffersUpgrade(fs) || OffersUpgrade(gs)
  {
    hide FieldNames, LowerName;
    var hs := fs + gs;
    assert forall i :: 0 <= i < |fs| ==> hs[i] == fs[i];
    assert forall i :: 0 <= i < |gs| ==> hs[|fs| + i] == gs[i];
    assert forall i :: |fs| <= i < |hs| ==> hs[i] == gs[i - |fs|];
  }

  lemma HeadFirst(env: Env, h: Head)
    requires HeadOk(env, h)
    ensures PrintAfter(h) != [] && !Blank(PrintAfter(h)[0])
    ensures PrintFramed(h) != [] && !Blank(PrintFramed(h)[0])
    ensures PrintHead(h) != [] && !Blank(PrintHead(h)[0])
  {
    hide Unframing, BodyOk, LowerName, LengthText, Decimal, ChunkedText, IsValue, Token;
    LinesFirst(env, h.after, "\r");
    if HasField(h.body) {
      OneLine(FramingField(h.body)[0]);
      assert PrintFraming(h.body)[0] == h.body.name[0];
      assert Token(h.body.name[0]).Some?;
      TokenNotBlank(h.body.name[0]);
    } else {
      assert PrintFramed(h) == PrintAfter(h);
    }
    LinesFirst(env, h.before, PrintFramed(h));
  }

  lemma TokenNotBlank(c: char)
    requires Token(c).Some?
    ensures !Blank(c)
  {}

  /** The fields up to the LF of the empty line: what they say is what is known. */
  lemma HeadReads(env: Env, p: Rec, h: Head) returns (q: Rec)
    requires p.state.HeaderFieldStart? && HeadOk(env, h)
    requires p.flags == NO_FLAGS && p.contentLength == ULLONG_MAX
    ensures Reads(env, p, PrintHead(h), q, HeadEvents(h))
    ensures q == p.(state := HeadersAlmostDone, hstate := q.hstate, index := q.index, flags := q.flags,
                    contentLength := if h.body.Sized? then |h.body.bytes| else ULLONG_MAX)
    ensures Says(NO_FLAGS.(hasLength := h.body.Sized?, chunked := h.body.InChunks?), q.flags, Spoken(h))
  {
    hide Reads, FramingOk, Unframing, Says;
    var none: seq<Event> := [];
    var a := UnframingLines(env, p, h.before);
    assert !a.flags.hasLength by { SaysLength(p.flags, a.flags, h.before); }
    var b := a;
    if HasField(h.body) { b := FramingReads(env, a, h.body); }
    var c := UnframingLines(env, b, h.after);
    LastCr(env, c);
    q := c.(state := HeadersAlmostDone);
    ReadsByte(env, c, CR, q);
    assert none + none == none && [CR] == "\r";
    HeadFirst(env, h);
    Then(env, b, PrintLines(h.after), c, LinesEvents(h.after), "\r", q, none);
    assert LinesEvents(h.after) + none == LinesEvents(h.after);
    if HasField(h.body) {
      Then(env, a, PrintFraming(h.body), b, FramingEvents(h.body), PrintAfter(h), q, LinesEvents(h.after));
    } else {
      assert PrintFramed(h) == PrintAfter(h);
      assert FramingEvents(h.body) + LinesEvents(h.after) == LinesEvents(h.after);
    }
    Then(env, p, PrintLines(h.before), a, LinesEvents(h.before), PrintFramed(h), q,
         FramingEvents(h.body) + LinesEvents(h.after));
    SaysAll(p.flags, a.flags, b.flags, c.flags, h.body, h.before, h.after);
  }

  lemma SaysLength(f: Flags, g: Flags, fs: seq<HeaderLine>)
    requires Says(f, g, fs)
    ensures g.hasLength == f.hasLength
  {}
}
