/** The status line of a response, exactly: which lines are accepted, and what is
    read from those that are. */
module HttpStatusLine {
  import opened Decimals
  import opened HttpFeed
  import opened HttpFields
  import opened HttpLines
  import opened HttpMarks
  import opened HttpMessage
  import opened HttpReads
  import opened HttpRequestLine
  import opened HttpStep
  import opened HttpTrace
  import opened HttpTypes
  import opened Options

  /** A status line without its LF: a version, a code behind one or more spaces, and
      perhaps a reason behind one space. */
  datatype CodeLine = CodeLine(version: Version, gap: nat, code: string, reason: Option<string>, cr: bool)

  function ReasonPart(reason: Option<string>): string { if reason.Some? then " " + reason.value else "" }

  function StatusLineText(l: CodeLine): string {
    VersionText(l.version) + Blanks(l.gap) + l.code + ReasonPart(l.reason) + (if l.cr then "\r" else "")
  }

  predicate StatusLineOk(l: CodeLine) {
    VersionOk(l.version) && l.gap > 0 && StatusOk(l.code) && (l.reason.Some? ==> ReasonOk(l.reason.value))
  }

  function Told(reason: Option<string>): string { if reason.Some? then reason.value else "" }

  // ----- one byte -----

  predicate InResVersion(s: State) {
    s.ResH? || s.ResHT? || s.ResHTT? || s.ResHTTP? || s.ResHttpMajor? || s.ResHttpDot? || s.ResHttpMinor?
    || s.ResHttpEnd?
  }

  /** What the states of the version have read of it. */
  function ResSoFar(p: Rec): string {
    match p.state
    case ResH => "H"
    case ResHT => "HT"
    case ResHTT => "HTT"
    case ResHTTP => "HTTP"
    case ResHttpMajor => "HTTP/"
    case ResHttpDot => "HTTP/" + [DigitOf(p.major)]
    case ResHttpMinor => "HTTP/" + [DigitOf(p.major)] + "."
    case _ => "HTTP/" + [DigitOf(p.major)] + "." + [DigitOf(p.minor)]
  }

  function ResVersionByte(p: Rec, ch: char): Out {
    match p.state
    case ResH => if ch == 'T' then Go(p.(state := ResHT)) else Refuse(p, Strict)
    case ResHT => if ch == 'T' then Go(p.(state := ResHTT)) else Refuse(p, Strict)
    case ResHTT => if ch == 'P' then Go(p.(state := ResHTTP)) else Refuse(p, Strict)
    case ResHTTP => if ch == '/' then Go(p.(state := ResHttpMajor)) else Refuse(p, Strict)
    case ResHttpMajor =>
      if IsNum(ch) then Go(p.(major := Digit(ch), state := ResHttpDot)) else Refuse(p, InvalidVersion)
    case ResHttpDot => if ch == '.' then Go(p.(state := ResHttpMinor)) else Refuse(p, InvalidVersion)
    case ResHttpMinor =>
      if IsNum(ch) then Go(p.(minor := Digit(ch), state := ResHttpEnd)) else Refuse(p, InvalidVersion)
    case _ => if ch == ' ' then Go(p.(state := ResFirstStatusCode)) else Refuse(p, InvalidVersion)
  }

  lemma ResVersionByteIs(env: Env, p: Rec, ch: char)
    requires InResVersion(p.state)
    ensures Byte(env, p, ch) == ResVersionByte(p, ch)
  {
    hide StepReqLine, StepUrl, StepMethod, StepHeader, StepHeadersAlmostDone, StepHeadersDone, StepBody;
  }

  lemma StartResByte(env: Env, p: Rec, ch: char)
    requires p.state.StartRes? && ch != CR && ch != LF
    ensures Byte(env, p, ch)
            == if ch == 'H' then GoWith(Fresh(p).(state := ResH), MessageBegin) else Refuse(p, InvalidConstant)
  {
    hide StepReqLine, StepUrl, StepMethod, StepHeader, StepHeadersAlmostDone, StepHeadersDone, StepBody;
  }

  function CodeByte(p: Rec, ch: char): Out {
    var q := p.(index := 0, state := ResLineAlmostDone);
    if p.state.ResFirstStatusCode? then
      if IsNum(ch) then Go(p.(status := Digit(ch), state := ResStatusCode))
      else if ch == ' ' then Go(p) else Refuse(p, InvalidStatus)
    else if IsNum(ch) then
      if p.status * 10 + Digit(ch) > 999 then Refuse(p, InvalidStatus)
      else Go(p.(status := p.status * 10 + Digit(ch)))
    else if ch == ' ' then Go(p.(state := ResStatusStart))
    else if ch == CR then GoWith(q, Data(Status, []))
    else Refuse(p, InvalidStatus)
  }

  lemma CodeByteIs(env: Env, p: Rec, ch: char)
    requires (p.state.ResFirstStatusCode? || p.state.ResStatusCode?) && ch != LF
    ensures Byte(env, p, ch) == CodeByte(p, ch)
  {
    hide StepReqLine, StepUrl, StepMethod, StepHeader, StepHeadersAlmostDone, StepHeadersDone, StepBody;
    if p.state.ResStatusCode? && ch == CR { CodeEndByte(env, p, CR); }
  }

  /** A code that ends the line is followed by an empty reason. */
  lemma CodeEndByte(env: Env, p: Rec, ch: char)
    requires p.state.ResStatusCode? && (ch == CR || ch == LF)
    ensures var s := if ch == CR then ResLineAlmostDone else HeaderFieldStart;
      Byte(env, p, ch) == GoWith(p.(index := 0, state := s), Data(Status, []))
  {
    hide StepReqLine, StepUrl, StepMethod, StepHeader, StepHeadersAlmostDone, StepHeadersDone, StepBody;
    var q := p.(state := ResStatusStart);
    ReasonByte(env, q, ch);
    assert Step(env, p, ch) == Redo(q);
    assert [] + [Data(Status, [])] == [Data(Status, [])];
    assert Byte(env, p, ch) == Byte(env, q, ch) by {
      hide Step;
      var r := Byte(env, q, ch);
      assert [] + r.ev == r.ev;
    }
  }

  lemma ResAlmostByte(env: Env, p: Rec, ch: char)
    requires p.state.ResLineAlmostDone? && ch != LF
    ensures Byte(env, p, ch).ctl.Fail?
  {
    hide StepReqLine, StepUrl, StepMethod, StepHeader, StepHeadersAlmostDone, StepHeadersDone, StepBody;
  }

  // ----- what has been read inside the line -----

  predicate InCode(s: State) { s.ResFirstStatusCode? || s.ResStatusCode? }

  predicate InReason(s: State) { s.ResStatusStart? || s.ResStatus? }

  /** What a state says about the part of the line read so far. */
  predicate Fitting(p: Rec, l: CodeLine) {
    if InResVersion(p.state) then true
    else
      && l.version == Version(p.major, p.minor)
      && if p.state.ResFirstStatusCode? then l.gap > 0 && l.code == [] && l.reason.None? && !l.cr
         else
           && l.gap > 0 && StatusOk(l.code) && p.status == Decimal(l.code)
           && if p.state.ResStatusCode? then l.reason.None? && !l.cr
              else if p.state.ResStatusStart? then l.reason == Some([]) && !l.cr
              else if p.state.ResStatus? then
                l.reason.Some? && l.reason.value != [] && ReasonOk(l.reason.value) && !l.cr
              else p.state.ResLineAlmostDone? && (l.reason.Some? ==> ReasonOk(l.reason.value)) && l.cr
  }

  predicate KnownDigits(p: Rec) {
    && (!p.state.ResH? && !p.state.ResHT? && !p.state.ResHTT? && !p.state.ResHTTP? && !p.state.ResHttpMajor? ==>
          p.major <= 9)
    && (!InResVersion(p.state) || p.state.ResHttpEnd? ==> p.minor <= 9)
  }

  function TextSoFar(p: Rec, l: CodeLine): string {
    if InResVersion(p.state) then ResSoFar(p) else StatusLineText(l)
  }

  function EventsSoFar(p: Rec, l: CodeLine): seq<Event> {
    if InResVersion(p.state) then [MessageBegin]
    else
      [MessageBegin] + Letters(Status, Told(l.reason))
      + (if p.state.ResLineAlmostDone? then [Data(Status, [])] else [])
  }

  /** One more byte is one more of a part. */
  function MoreOf(p: Rec, l: CodeLine, ch: char): CodeLine {
    if InResVersion(p.state) then CodeLine(Version(p.major, p.minor), 1, [], None, false)
    else if p.state.ResFirstStatusCode? && ch == ' ' then l.(gap := l.gap + 1)
    else if InCode(p.state) && IsNum(ch) then l.(code := l.code + [ch])
    else if ch == CR then l.(cr := true)
    else if InCode(p.state) then l.(reason := Some([]))
    else l.(reason := Some(Told(l.reason) + [ch]))
  }

  predicate StaysOn(p: Rec, o: Out) {
    o.ctl.Consume?
    && o.p == p.(state := o.p.state, major := o.p.major, minor := o.p.minor, status := o.p.status, index := o.p.index)
  }

  predicate InLine(s: State) { InResVersion(s) || InCode(s) || InReason(s) || s.ResLineAlmostDone? }

  lemma VersionOn(env: Env, p: Rec, l: CodeLine, ch: char)
    requires InResVersion(p.state) && KnownDigits(p) && !Byte(env, p, ch).ctl.Fail?
    ensures var o := Byte(env, p, ch); var m := MoreOf(p, l, ch);
      && StaysOn(p, o) && InLine(o.p.state) && KnownDigits(o.p) && Fitting(o.p, m)
      && TextSoFar(o.p, m) == TextSoFar(p, l) + [ch] && EventsSoFar(p, l) + o.ev == EventsSoFar(o.p, m)
  {
    hide Byte, DigitOf, Letters, StatusOk;
    ResVersionByteIs(env, p, ch);
    DigitIs(ch);
    LettersNone(Status);
    assert Blanks(1) == " ";
    assert [MessageBegin] + [] == [MessageBegin] && [MessageBegin] + [] + [] == [MessageBegin];
    if p.state.ResHttpEnd? {
      var v := VersionText(Version(p.major, p.minor));
      assert v + " " + [] + [] + [] == v + " ";
    }
  }

  lemma Gluing(v: string, g: string, d: string, r: string, c: string)
    ensures v + g + d + r + "" + c == v + g + d + (r + c) + ""
    ensures v + g + d + r + "" + "\r" == v + g + d + r + "\r"
    ensures r == "" ==> v + g + d + r + "" + c == v + g + (d + c) + r + ""
    ensures r == "" && d == "" ==> v + g + d + r + "" + c == v + (g + c) + d + r + ""
  {}

  lemma CodeOn(env: Env, p: Rec, l: CodeLine, ch: char)
    requires InCode(p.state) && KnownDigits(p) && Fitting(p, l) && ch != LF && !Byte(env, p, ch).ctl.Fail?
    ensures var o := Byte(env, p, ch); var m := MoreOf(p, l, ch);
      && StaysOn(p, o) && InLine(o.p.state) && KnownDigits(o.p) && Fitting(o.p, m)
      && TextSoFar(o.p, m) == TextSoFar(p, l) + [ch] && EventsSoFar(p, l) + o.ev == EventsSoFar(o.p, m)
  {
    hide Byte, VersionText, Letters, Blanks;
    CodeByteIs(env, p, ch);
    CodeMore(l.code, ch);
    LettersNone(Status);
    BlanksMore(l.gap);
    Gluing(VersionText(l.version), Blanks(l.gap), l.code, "", [ch]);
    assert [ch] == "\r" || ch != CR;
    assert "" + [' '] == " " + [];
    var b := [MessageBegin] + [];
    assert b + [] + [] == b + [] && b + [] + [Data(Status, [])] == b + [Data(Status, [])];
  }

  lemma CodeMore(s: string, ch: char)
    ensures IsNum(ch) && AllDigits(s) ==> AllDigits(s + [ch]) && Decimal(s + [ch]) == Decimal(s) * 10 + Digit(ch)
    ensures Decimal([]) == 0
  {
    assert (s + [ch])[..|s|] == s;
  }

  lemma ReasonOn(env: Env, p: Rec, l: CodeLine, ch: char)
    requires InReason(p.state) && KnownDigits(p) && Fitting(p, l) && ch != LF && !Byte(env, p, ch).ctl.Fail?
    ensures var o := Byte(env, p, ch); var m := MoreOf(p, l, ch);
      && StaysOn(p, o) && InLine(o.p.state) && KnownDigits(o.p) && Fitting(o.p, m)
      && TextSoFar(o.p, m) == TextSoFar(p, l) + [ch] && EventsSoFar(p, l) + o.ev == EventsSoFar(o.p, m)
  {
    hide Byte, VersionText, Letters, Blanks, StatusOk;
    ReasonByte(env, p, ch);
    var r := Told(l.reason);
    LettersSnoc(Status, r, ch);
    Gluing(VersionText(l.version), Blanks(l.gap), l.code, " " + r, [ch]);
    assert " " + r + [ch] == " " + (r + [ch]) && [CR] == "\r";
    var b := [MessageBegin] + Letters(Status, r);
    assert b + [] + [Data(Status, [])] == b + [Data(Status, [])];
    assert b + [] + [Data(Status, [ch])] == [MessageBegin] + (Letters(Status, r) + [Data(Status, [ch])]) + [];
  }

  /** Everything but what the line says stays as it is at the beginning of a message. */
  predicate OfStatus(p: Rec, q: Rec) {
    q == Fresh(p).(state := q.state, status := q.status, index := q.index, major := q.major, minor := q.minor)
  }

  predicate Depicted(p: Rec, f: Run, w: string, l: CodeLine) {
    && f.verdict.Running? && OfStatus(p, f.p) && InLine(f.p.state) && KnownDigits(f.p) && Fitting(f.p, l)
    && w == TextSoFar(f.p, l) && f.ev == EventsSoFar(f.p, l)
  }

  /** Whatever is accepted is a beginning of a status line. */
  lemma {:induction false} StatusSound(env: Env, p: Rec, w: string) returns (l: CodeLine)
    requires p.state.StartRes? && w != [] && w[0] != CR && NoLineEnd(w)
    ensures var f := Feed(env, p, 0, w); f.verdict.Failed? || Depicted(p, f, w, l)
    decreases |w|
  {
    hide Byte, Fitting, TextSoFar, EventsSoFar, MoreOf, InLine;
    var front, ch := w[..|w| - 1], w[|w| - 1];
    assert w == front + [ch];
    l := CodeLine(Version(0, 0), 0, [], None, false);
    if front == [] {
      assert w == [ch];
      FeedOne(env, Start(p, 0), ch);
      StartResByte(env, p, ch);
      FirstByteIs(Fresh(p).(state := ResH), l);
      assert [] + [MessageBegin] == [MessageBegin];
    } else {
      l := StatusSound(env, p, front);
      var f := Feed(env, p, 0, front);
      FeedSnoc(env, Start(p, 0), front, ch);
      if f.verdict.Running? && !Byte(env, f.p, ch).ctl.Fail? {
        OneOf(f.p.state);
        if InResVersion(f.p.state) { VersionOn(env, f.p, l, ch); }
        else if InCode(f.p.state) { CodeOn(env, f.p, l, ch); }
        else if InReason(f.p.state) { ReasonOn(env, f.p, l, ch); }
        else { ResAlmostByte(env, f.p, ch); }
        l := MoreOf(f.p, l, ch);
      }
    }
  }

  lemma OneOf(s: State)
    ensures InLine(s) <==> InResVersion(s) || InCode(s) || InReason(s) || s.ResLineAlmostDone?
  {}

  lemma FirstByteIs(p: Rec, l: CodeLine)
    requires p.state.ResH?
    ensures InLine(p.state) && KnownDigits(p) && Fitting(p, l) && TextSoFar(p, l) == "H"
    ensures EventsSoFar(p, l) == [MessageBegin]
  {}

  // ----- every line of this form is read -----

  lemma StatusBlankByte(env: Env, p: Rec)
    requires p.state.ResFirstStatusCode?
    ensures Byte(env, p, ' ') == Go(p)
  {
    hide Byte;
    CodeByteIs(env, p, ' ');
  }

  lemma {:induction false} StatusBlanks(env: Env, p: Rec, n: nat)
    requires p.state.ResFirstStatusCode?
    ensures Reads(env, p, Blanks(n), p, [])
  {
    hide Reads, Byte, Blanks, AfterLine;
    assert AfterLine(p) == (p, []) by { NotPending(p); }
    if n == 0 {
      NoBlanks();
      ReadsNothing(env, p);
    } else {
      StatusBlanks(env, p, n - 1);
      StatusBlankByte(env, p);
      BlanksMore(n - 1);
      NextGo(env, p, Blanks(n - 1), p, [], ' ', p, Blanks(n));
    }
  }

  function UpToCode(l: CodeLine): string { VersionText(l.version) + Blanks(l.gap) + l.code }

  lemma UpToCodeReads(env: Env, p: Rec, l: CodeLine) returns (q: Rec)
    requires p.state.StartRes? && StatusLineOk(l)
    ensures Reads(env, p, UpToCode(l), q, [MessageBegin])
    ensures q == Fresh(p).(status := Decimal(l.code), state := ResStatusCode,
                           major := l.version.major, minor := l.version.minor)
  {
    hide Reads, VersionText, StatusOk, Decimal, Blanks;
    var none: seq<Event> := [];
    var v := l.version;
    ResponseVersionReads(env, p, v);
    var a := Fresh(p).(major := v.major, minor := v.minor, state := ResFirstStatusCode);
    StatusBlanks(env, a, l.gap - 1);
    ThenAny(env, p, VersionText(v) + " ", a, [MessageBegin], Blanks(l.gap - 1), a, none);
    OneBlank(VersionText(v), l.gap);
    assert [MessageBegin] + none == [MessageBegin];
    assert Decimal(l.code) >= 0;
    StatusReads(env, a, l.code);
    q := a.(status := Decimal(l.code), state := ResStatusCode);
    ThenAny(env, p, VersionText(v) + Blanks(l.gap), a, [MessageBegin], l.code, q, none);
  }

  /** The end of the line, behind the code: the reason, and the line end. */
  lemma ReasonEnds(env: Env, p: Rec, l: CodeLine) returns (q: Rec)
    requires p.state.ResStatusCode? && StatusLineOk(l)
    ensures Reads(env, p, ReasonPart(l.reason) + (if l.cr then "\r" else "") + "\n", q,
                  [Data(Status, Told(l.reason))])
    ensures q == p.(state := HeaderFieldStart, index := 0)
  {
    hide Reads, Byte, Letters, Join, StatusOk;
    var none: seq<Event> := [];
    q := p.(state := HeaderFieldStart, index := 0);
    var t := p.(state := ResLineAlmostDone, index := 0);
    if l.reason.None? {
      CodeEndByte(env, p, if l.cr then CR else LF);
      assert [Data(Status, [])] + none == [Data(Status, [])];
      if l.cr {
        ReadsByte(env, p, CR, t);
        StatusBytes(env, t);
        NextGo(env, p, [CR], t, [Data(Status, [])], LF, q, [CR] + [LF]);
        assert "" + "\r" + "\n" == [CR] + [LF];
      } else {
        ReadsByte(env, p, LF, q);
        assert "" + "" + "\n" == [LF];
      }
    } else {
      var r := l.reason.value;
      var s := p.(state := ResStatusStart);
      StatusBytes(env, p);
      ReadsByte(env, p, ' ', s);
      assert none + none == none;
      if l.cr {
        q := ReasonLineReads(env, s, r);
        ThenAny(env, p, [' '], s, none, r + "\r\n", q, [Data(Status, r)]);
        assert [' '] + (r + "\r\n") == " " + r + "\r" + "\n";
      } else {
        ReasonLfReads(env, s, r);
        ThenAny(env, p, [' '], s, none, r + [LF], q, [Data(Status, r)]);
        assert [' '] + (r + [LF]) == " " + r + "" + "\n";
      }
      assert none + [Data(Status, r)] == [Data(Status, r)];
    }
  }

  lemma ReasonLfReads(env: Env, p: Rec, r: string)
    requires p.state.ResStatusStart? && ReasonOk(r)
    ensures Reads(env, p, r + [LF], p.(state := HeaderFieldStart, index := 0), [Data(Status, r)])
  {
    hide Reads, Byte, Letters, Join;
    var none: seq<Event> := [];
    var s := p.(state := ResStatus, index := 0);
    var q := s.(state := HeaderFieldStart);
    if r == [] {
      ReasonByte(env, p, LF);
      ReadsByte(env, p, LF, q);
      assert [Data(Status, [])] + none == [Data(Status, [])];
      assert r + [LF] == [LF];
    } else {
      ReasonReads(env, p, r);
      ReasonByte(env, s, LF);
      Next(env, p, r, s, Letters(Status, r), LF);
      assert Letters(Status, r) + ([Data(Status, [])] + none) == Letters(Status, r) + [Data(Status, [])];
      JoinClosed(Status, r);
      Retell(env, p, r + [LF], q, Letters(Status, r) + [Data(Status, [])], [Data(Status, r)]);
    }
  }

  /** A status line is read to its end, and tells what it says. */
  lemma StatusLineReads(env: Env, p: Rec, l: CodeLine) returns (q: Rec)
    requires p.state.StartRes? && StatusLineOk(l)
    ensures Reads(env, p, StatusLineText(l) + "\n", q, [MessageBegin, Data(Status, Told(l.reason))])
    ensures q == Fresh(p).(status := Decimal(l.code), index := 0, major := l.version.major, minor := l.version.minor,
                           state := HeaderFieldStart)
  {
    hide Reads, VersionText, StatusOk, Decimal, Blanks;
    var r := UpToCodeReads(env, p, l);
    q := ReasonEnds(env, r, l);
    var e := ReasonPart(l.reason) + (if l.cr then "\r" else "") + "\n";
    ThenAny(env, p, UpToCode(l), r, [MessageBegin], e, q, [Data(Status, Told(l.reason))]);
    assert UpToCode(l) + e == StatusLineText(l) + "\n";
    assert [MessageBegin] + [Data(Status, Told(l.reason))] == [MessageBegin, Data(Status, Told(l.reason))];
  }

  // ----- the status line, exactly -----

  predicate IsStatusLine(w: string, l: CodeLine) { StatusLineOk(l) && w == StatusLineText(l) }

  lemma NotYet(env: Env, p: Rec)
    requires InResVersion(p.state) || p.state.ResFirstStatusCode?
    ensures Byte(env, p, LF).ctl.Fail?
  {
    hide StepReqLine, StepUrl, StepMethod, StepHeader, StepHeadersAlmostDone, StepHeadersDone, StepBody;
  }

  lemma Whole(p: Rec, l: CodeLine)
    requires InLine(p.state) && KnownDigits(p) && Fitting(p, l)
    requires !InResVersion(p.state) && !p.state.ResFirstStatusCode?
    ensures StatusLineOk(l) && TextSoFar(p, l) == StatusLineText(l)
  {
    hide StatusOk, StatusLineText;
  }

  /** A status line is accepted if and only if it has this form. */
  lemma StatusLineExact(env: Env, p: Rec, w: string)
    requires p.state.StartRes? && w != [] && w[0] != CR && NoLineEnd(w)
    ensures !Feed(env, p, 0, w + "\n").verdict.Failed? <==> exists l :: IsStatusLine(w, l)
  {
    hide Byte, FeedOn, Fitting, TextSoFar, EventsSoFar, StatusLineText, StatusLineOk, Join, InLine;
    var x := StatusSound(env, p, w);
    var f := Feed(env, p, 0, w);
    FeedSnoc(env, Start(p, 0), w, LF);
    assert "\n" == [LF];
    if l :| IsStatusLine(w, l) {
      var q := StatusLineReads(env, p, l);
    } else if f.verdict.Running? {
      if InResVersion(f.p.state) || f.p.state.ResFirstStatusCode? {
        NotYet(env, f.p);
      } else {
        Whole(f.p, x);
        assert IsStatusLine(w, x);
      }
    }
  }

  function Begun(n: nat): seq<Event> { if n == 0 then [] else Begun(n - 1) + [MessageBegin] }

  /** Line ends before a response begin a message each. */
  lemma {:induction false} LeadingResponseEnds(env: Env, p: Rec, w: string)
    requires p.state.StartRes? && forall i :: 0 <= i < |w| ==> w[i] == CR || w[i] == LF
    ensures Reads(env, p, w, if w == [] then p else Fresh(p), Begun(|w|))
    decreases |w|
  {
    hide Reads, Byte, AfterLine;
    if w == [] {
      NotPending(p);
      ReadsNothing(env, p);
    } else {
      var none: seq<Event> := [];
      var n := |w| - 1;
      var front, ch := w[..n], w[n];
      var q := if n == 0 then p else Fresh(p);
      LeadingResponseEnds(env, p, front);
      StartResEnds(env, q, ch);
      NotPending(Fresh(q));
      Next(env, p, front, q, Begun(n), ch);
      assert front + [ch] == w;
      assert [MessageBegin] + none == [MessageBegin];
    }
  }

  lemma StartResEnds(env: Env, p: Rec, ch: char)
    requires p.state.StartRes? && (ch == CR || ch == LF)
    ensures Byte(env, p, ch) == GoWith(Fresh(p), MessageBegin)
  {
    hide StepReqLine, StepUrl, StepMethod, StepHeader, StepHeadersAlmostDone, StepHeadersDone, StepBody;
  }
}
