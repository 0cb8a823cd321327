/** The request line, exactly: which lines are accepted, and what is read from
    those that are. */
module HttpRequestLine {
  import opened Decimals
  import opened HttpFeed
  import opened HttpFields
  import opened HttpInvariant
  import opened HttpLines
  import opened HttpMarks
  import opened HttpMessage
  import opened HttpMethods
  import opened HttpReads
  import opened HttpStep
  import opened HttpTrace
  import opened HttpTypes
  import opened Options

  function Blanks(n: nat): string { seq(n, i => ' ') }

  // ----- what has been read inside the line -----

  /** The parts of a line, as far as it has been read. */
  datatype Parts = Parts(meth: Method, gap: nat, url: string, space: nat, tail: string)

  function PartsText(x: Parts): string { MethodString(x.meth) + Blanks(x.gap) + x.url + Blanks(x.space) + x.tail }

  predicate InVersion(s: State) {
    s.ReqHttpStart? || s.ReqHttpH? || s.ReqHttpHT? || s.ReqHttpHTT? || s.ReqHttpHTTP? || s.ReqHttpMajor?
    || s.ReqHttpDot? || s.ReqHttpMinor? || s.ReqHttpEnd?
  }

  /** What the states of the version have read of it. */
  function VersionSoFar(p: Rec): string {
    match p.state
    case ReqHttpH => "H"
    case ReqHttpHT => "HT"
    case ReqHttpHTT => "HTT"
    case ReqHttpHTTP => "HTTP"
    case ReqHttpMajor => "HTTP/"
    case ReqHttpDot => "HTTP/" + [DigitOf(p.major)]
    case ReqHttpMinor => "HTTP/" + [DigitOf(p.major)] + "."
    case ReqHttpEnd => "HTTP/" + [DigitOf(p.major)] + "." + [DigitOf(p.minor)]
    case _ => ""
  }

  predicate DigitsOk(p: Rec) { p.major <= 9 && p.minor <= 9 }

  predicate HasUrl(x: Parts) { x.gap > 0 && UrlOk(x.meth, x.url) }

  /** What a state says about the parts read so far. */
  predicate Fits(p: Rec, x: Parts) {
    && x.meth == p.meth && x.gap > 0
    && if p.state.ReqSpacesBeforeUrl? then x.url == [] && x.space == 0 && x.tail == []
       else if InUrl(p.state) then
         x.url != [] && p.state == UrlRun(UrlStart(x.meth), x.url) && x.space == 0 && x.tail == []
       else if InVersion(p.state) then
         HasUrl(x) && x.space > 0 && x.tail == VersionSoFar(p) && Known(p)
       else
         && p.state.ReqLineAlmostDone? && HasUrl(x)
         && if x.space == 0 then x.tail == "\r" && p.major == 0 && p.minor == 9
            else x.tail == VersionSoFar(p.(state := ReqHttpEnd)) + "\r" && DigitsOk(p)
  }

  /** The digits that have been read. */
  predicate Known(p: Rec) {
    && (p.state.ReqHttpDot? || p.state.ReqHttpMinor? || p.state.ReqHttpEnd? ==> p.major <= 9)
    && (p.state.ReqHttpEnd? ==> p.minor <= 9)
  }

  predicate BehindUrl(s: State) { InVersion(s) || s.ReqLineAlmostDone? }

  /** The callbacks made so far. */
  function SoFar(p: Rec, x: Parts): seq<Event> {
    [MessageBegin] + Letters(Url, x.url) + (if BehindUrl(p.state) then [Data(Url, [])] else [])
  }

  /** One more byte is one more of a part. */
  function MoreParts(p: Rec, x: Parts, ch: char): Parts {
    if p.state.ReqSpacesBeforeUrl? && ch == ' ' then x.(gap := x.gap + 1)
    else if p.state.ReqSpacesBeforeUrl? then x.(url := [ch])
    else if InUrl(p.state) && ch == ' ' then x.(space := 1)
    else if InUrl(p.state) && ch == CR then x.(tail := "\r")
    else if InUrl(p.state) then x.(url := x.url + [ch])
    else if p.state.ReqHttpStart? && ch == ' ' then x.(space := x.space + 1)
    else x.(tail := x.tail + [ch])
  }

  lemma BlanksMore(n: nat)
    ensures Blanks(n + 1) == Blanks(n) + [' ']
  {}

  lemma NoBlanks()
    ensures Blanks(0) == []
  {}

  lemma Glue(m: string, g: string, u: string, s: string, t: string, c: string)
    ensures m + g + u + s + t + c == m + g + u + s + (t + c)
    ensures t == [] ==> m + g + u + s + t + c == m + g + u + (s + c) + t
    ensures t == [] && s == [] ==> m + g + u + s + t + c == m + g + (u + c) + s + t
    ensures t == [] && s == [] && u == [] ==> m + g + u + s + t + c == m + (g + c) + u + s + t
  {}

  lemma MoreText(p: Rec, x: Parts, ch: char)
    requires Fits(p, x)
    ensures PartsText(MoreParts(p, x, ch)) == PartsText(x) + [ch]
  {
    hide MethodString, Fits, InUrl, Blanks;
    FitsShape(p, x);
    BlanksMore(x.gap);
    BlanksMore(x.space);
    NoBlanks();
    Glue(MethodString(x.meth), Blanks(x.gap), x.url, Blanks(x.space), x.tail, [ch]);
    assert [] + [ch] == [ch] && [CR] == "\r";
  }

  lemma FitsShape(p: Rec, x: Parts)
    requires Fits(p, x)
    ensures p.state.ReqSpacesBeforeUrl? ==> x.url == [] && x.space == 0 && x.tail == []
    ensures InUrl(p.state) ==> x.space == 0 && x.tail == []
    ensures p.state.ReqHttpStart? ==> x.tail == []
  {
    hide UrlOk, UrlRun;
  }

  // ----- one byte -----

  /** A byte that is consumed inside the line. */
  predicate GoesOn(p: Rec, o: Out) {
    o.ctl.Consume? && o.p == p.(state := o.p.state, major := o.p.major, minor := o.p.minor)
  }

  lemma UrlByteIs(env: Env, p: Rec, ch: char)
    requires (p.state.ReqSpacesBeforeUrl? || InUrl(p.state)) && ch != LF
    ensures var to := ParseUrlChar(UrlState(p), ch);
      Byte(env, p, ch) == if p.state.ReqSpacesBeforeUrl? && ch == ' ' then Go(p)
                          else if InUrl(p.state) && (ch == ' ' || ch == CR) then
                            if !AcceptsUrlEnd(p.state) then Refuse(p, InvalidUrl)
                            else if ch == ' ' then GoWith(p.(state := ReqHttpStart), Data(Url, []))
                            else GoWith(p.(major := 0, minor := 9, state := ReqLineAlmostDone), Data(Url, []))
                          else if to.Dead? then Refuse(p, InvalidUrl)
                          else GoWith(p.(state := to), Data(Url, [ch]))
  {
    hide StepResLine, StepReqLine, StepMethod, StepHeader, StepHeadersDone, StepBody, StepHeadersAlmostDone;
    hide ParseUrlChar;
  }

  lemma RunMore(s: State, url: string, ch: char)
    ensures UrlRun(s, url + [ch]) == ParseUrlChar(UrlRun(s, url), ch)
    ensures UrlRun(s, []) == s
  {
    hide ParseUrlChar;
    assert (url + [ch])[..|url|] == url;
  }

  /** The space before the URL, or its first byte. */
  lemma BeforeUrlSteps(env: Env, p: Rec, x: Parts, ch: char)
    requires Fits(p, x) && p.state.ReqSpacesBeforeUrl? && ch != LF
    requires !Byte(env, p, ch).ctl.Fail?
    ensures var o := Byte(env, p, ch); var y := MoreParts(p, x, ch);
      GoesOn(p, o) && Fits(o.p, y) && SoFar(p, x) + o.ev == SoFar(o.p, y)
  {
    hide Byte, ParseUrlChar, UrlRun, VersionSoFar, Letters, InVersion;
    UrlByteIs(env, p, ch);
    UrlStates(UrlState(p), ch);
    RunMore(UrlStart(x.meth), [], ch);
    LettersOne(Url, ch);
    LettersNone(Url);
    StartsThere(p.state);
    StartsThere(ParseUrlChar(UrlState(p), ch));
    var b := [MessageBegin];
    assert b + [] + [] + [] == b + [] + [] && [] + [ch] == [ch];
    assert b + [] + [] + [Data(Url, [ch])] == b + [Data(Url, [ch])] + [];
  }

  /** A byte of the URL, or the one that ends it. */
  lemma UrlSteps(env: Env, p: Rec, x: Parts, ch: char)
    requires Fits(p, x) && InUrl(p.state) && ch != LF
    requires !Byte(env, p, ch).ctl.Fail?
    ensures var o := Byte(env, p, ch); var y := MoreParts(p, x, ch);
      GoesOn(p, o) && Fits(o.p, y) && SoFar(p, x) + o.ev == SoFar(o.p, y)
  {
    hide Byte, ParseUrlChar, UrlRun, Letters, InVersion, InUrl;
    UrlByteIs(env, p, ch);
    UrlStates(UrlState(p), ch);
    RunMore(UrlStart(x.meth), x.url, ch);
    LettersSnoc(Url, x.url, ch);
    StartsThere(p.state);
    StartsThere(Byte(env, p, ch).p.state);
    var l := [MessageBegin] + Letters(Url, x.url);
    assert l + [] + [Data(Url, [])] == l + [Data(Url, [])];
    assert l + [] + [Data(Url, [ch])] == [MessageBegin] + (Letters(Url, x.url) + [Data(Url, [ch])]) + [];
    assert [CR] == "\r";
  }

  lemma StartsThere(s: State)
    ensures s.ReqHttpStart? ==> !InUrl(s) && InVersion(s)
    ensures s.ReqLineAlmostDone? ==> !InUrl(s) && !InVersion(s)
    ensures InUrl(s) ==> !InVersion(s) && !s.ReqSpacesBeforeUrl? && !BehindUrl(s)
    ensures s.ReqSpacesBeforeUrl? ==> !InVersion(s) && !BehindUrl(s)
    ensures AcceptsUrlEnd(s) ==> InUrl(s)
  {}

  lemma NoCr(s: State)
    ensures ParseUrlChar(s, CR).Dead? && ParseUrlChar(s, LF).Dead? && ParseUrlChar(s, ' ').Dead?
  {}

  function VersionByte(p: Rec, ch: char): Out {
    match p.state
    case ReqHttpStart =>
      if ch == ' ' then Go(p) else if ch == 'H' then Go(p.(state := ReqHttpH)) else Refuse(p, InvalidConstant)
    case ReqHttpH => if ch == 'T' then Go(p.(state := ReqHttpHT)) else Refuse(p, Strict)
    case ReqHttpHT => if ch == 'T' then Go(p.(state := ReqHttpHTT)) else Refuse(p, Strict)
    case ReqHttpHTT => if ch == 'P' then Go(p.(state := ReqHttpHTTP)) else Refuse(p, Strict)
    case ReqHttpHTTP => if ch == '/' then Go(p.(state := ReqHttpMajor)) else Refuse(p, Strict)
    case ReqHttpMajor =>
      if IsNum(ch) then Go(p.(major := Digit(ch), state := ReqHttpDot)) else Refuse(p, InvalidVersion)
    case ReqHttpDot => if ch == '.' then Go(p.(state := ReqHttpMinor)) else Refuse(p, InvalidVersion)
    case ReqHttpMinor =>
      if IsNum(ch) then Go(p.(minor := Digit(ch), state := ReqHttpEnd)) else Refuse(p, InvalidVersion)
    case _ => if ch == CR then Go(p.(state := ReqLineAlmostDone)) else Refuse(p, InvalidVersion)
  }

  lemma VersionByteIs(env: Env, p: Rec, ch: char)
    requires InVersion(p.state) && ch != LF
    ensures Byte(env, p, ch) == VersionByte(p, ch)
  {
    hide StepResLine, StepUrl, StepMethod, StepHeader, StepHeadersDone, StepBody, ParseUrlChar, FirstMethod;
  }

  lemma VersionSteps(env: Env, p: Rec, x: Parts, ch: char)
    requires Fits(p, x) && InVersion(p.state) && ch != LF
    requires !Byte(env, p, ch).ctl.Fail?
    ensures var o := Byte(env, p, ch); var y := MoreParts(p, x, ch);
      GoesOn(p, o) && Fits(o.p, y) && o.ev == [] && BehindUrl(o.p.state) && BehindUrl(p.state) && y.url == x.url
  {
    hide Byte, UrlOk, DigitOf, UrlRun;
    VersionByteIs(env, p, ch);
    DigitIs(ch);
  }

  lemma DigitIs(ch: char)
    ensures IsNum(ch) ==> Digit(ch) <= 9 && DigitOf(Digit(ch)) == ch
  {}

  lemma AlmostSteps(env: Env, p: Rec, ch: char)
    requires p.state.ReqLineAlmostDone? && ch != LF
    ensures Byte(env, p, ch).ctl.Fail?
  {
    hide StepResLine, StepUrl, StepMethod, StepHeader, StepHeadersDone, StepBody;
  }

  lemma PartsStep(env: Env, p: Rec, x: Parts, ch: char)
    requires Fits(p, x) && ch != LF && !Byte(env, p, ch).ctl.Fail?
    ensures var o := Byte(env, p, ch); var y := MoreParts(p, x, ch);
      GoesOn(p, o) && Fits(o.p, y) && SoFar(p, x) + o.ev == SoFar(o.p, y)
  {
    hide Byte, VersionSoFar, UrlOk, UrlRun;
    if p.state.ReqLineAlmostDone? {
      AlmostSteps(env, p, ch);
    } else if InVersion(p.state) {
      VersionSteps(env, p, x, ch);
      assert SoFar(p, x) + [] == SoFar(p, x);
    } else if p.state.ReqSpacesBeforeUrl? {
      BeforeUrlSteps(env, p, x, ch);
    } else {
      UrlSteps(env, p, x, ch);
    }
  }

  // ----- the method -----

  /** A method that the parser changes its mind to begins like the one before. */
  lemma OtherBegins(m: Method, k: nat, ch: char)
    requires OtherMethod(m, k, ch).Some?
    ensures var s, t := MethodString(m), MethodString(OtherMethod(m, k, ch).value);
      k <= |s| && k < |t| && s[..k] == t[..k] && t[k] == ch
  {
    if m.POST? || m.PUT? { OtherP(m, k, ch); }
    else if m.CONNECT? || m.SUBSCRIBE? || m.REPORT? { OtherC(m, k, ch); }
    else if m.MKCOL? { OtherM(m, k, ch); }
    else if m.PROPFIND? || m.LOCK? || m.UNLOCK? { OtherU(m, k, ch); }
  }

  predicate SharesPrefix(m: Method, k: nat, ch: char) {
    OtherMethod(m, k, ch).Some? ==>
      var s, t := MethodString(m), MethodString(OtherMethod(m, k, ch).value);
      k <= |s| && k < |t| && s[..k] == t[..k] && t[k] == ch
  }

  lemma OtherP(m: Method, k: nat, ch: char)
    requires m.POST? || m.PUT?
    ensures SharesPrefix(m, k, ch)
  {}

  lemma OtherC(m: Method, k: nat, ch: char)
    requires m.CONNECT? || m.SUBSCRIBE? || m.REPORT?
    ensures SharesPrefix(m, k, ch)
  {}

  lemma OtherM(m: Method, k: nat, ch: char)
    requires m.MKCOL?
    ensures SharesPrefix(m, k, ch)
  {}

  lemma OtherU(m: Method, k: nat, ch: char)
    requires m.PROPFIND? || m.LOCK? || m.UNLOCK?
    ensures SharesPrefix(m, k, ch)
  {}

  /** The method that begins with what has been read. */
  predicate MethodSoFar(p: Rec, w: string) {
    && p.state.ReqMethod? && 0 < p.index <= |MethodString(p.meth)|
    && w == MethodString(p.meth)[..p.index]
  }

  lemma FirstBegins(ch: char)
    requires FirstMethod(ch).Some?
    ensures MethodString(FirstMethod(ch).value)[0] == ch
  {}

  lemma MethodStarts(env: Env, p: Rec, ch: char)
    requires p.state.StartReq? && ch != CR && ch != LF && !Byte(env, p, ch).ctl.Fail?
    ensures var o := Byte(env, p, ch);
      && o == GoWith(o.p, MessageBegin) && MethodSoFar(o.p, [ch])
      && o.p == Fresh(p).(meth := o.p.meth, index := 1, state := ReqMethod)
  {
    hide StepUrl, StepResLine, StepMethod, StepHeader, StepHeadersDone, StepBody, MethodString, FirstMethod;
    MethodLength(Byte(env, p, ch).p.meth);
    FirstBegins(ch);
    var s := MethodString(Byte(env, p, ch).p.meth);
    assert s[..1] == [s[0]];
  }

  lemma MethodGoesOn(env: Env, p: Rec, w: string, ch: char)
    requires MethodSoFar(p, w) && !Byte(env, p, ch).ctl.Fail?
    ensures var o := Byte(env, p, ch);
      && o.ctl.Consume? && o.ev == [] && o.p == p.(meth := o.p.meth, index := o.p.index, state := o.p.state)
      && (MethodSoFar(o.p, w + [ch])
          || (w == MethodString(p.meth) && ch == ' ' && o.p.meth == p.meth && o.p.state.ReqSpacesBeforeUrl?))
  {
    hide StepUrl, StepResLine, StepReqLine, StepHeader, StepHeadersDone, StepBody, MethodString, OtherMethod;
    var s := MethodString(p.meth);
    if OtherMethod(p.meth, p.index, ch).Some? { OtherBegins(p.meth, p.index, ch); }
    var t := MethodString(Byte(env, p, ch).p.meth);
    if p.index < |s| { assert s[..p.index + 1] == s[..p.index] + [s[p.index]]; }
    if p.index < |t| { assert t[..p.index + 1] == t[..p.index] + [t[p.index]]; }
    assert s[..|s|] == s;
  }

  // ----- what has been read of the line -----

  predicate NoLineEnd(w: string) { forall i :: 0 <= i < |w| ==> w[i] != LF }

  /** Everything but what the line says stays as it is at the beginning of a message. */
  predicate OfLine(p: Rec, q: Rec) {
    q == Fresh(p).(state := q.state, meth := q.meth, index := q.index, major := q.major, minor := q.minor)
  }

  predicate Described(p: Rec, f: Run, w: string, x: Parts) {
    && f.verdict.Running? && OfLine(p, f.p)
    && (if f.p.state.ReqMethod? then MethodSoFar(f.p, w) && f.ev == [MessageBegin]
        else Fits(f.p, x) && w == PartsText(x) && f.ev == SoFar(f.p, x))
  }

  /** Whatever is accepted is a beginning of a request line. */
  lemma {:induction false} LineSound(env: Env, p: Rec, w: string) returns (x: Parts)
    requires p.state.StartReq? && w != [] && w[0] != CR && NoLineEnd(w)
    ensures var f := Feed(env, p, 0, w); f.verdict.Failed? || Described(p, f, w, x)
    decreases |w|
  {
    hide Byte, Fits, MethodString, PartsText, SoFar, MoreParts, MethodSoFar;
    var front, ch := w[..|w| - 1], w[|w| - 1];
    assert w == front + [ch];
    x := Parts(GET, 0, [], 0, []);
    if front == [] {
      assert w == [ch];
      FeedOne(env, Start(p, 0), ch);
      if !Byte(env, p, ch).ctl.Fail? {
        MethodStarts(env, p, ch);
        assert [] + [MessageBegin] == [MessageBegin];
      }
    } else {
      x := LineSound(env, p, front);
      var f := Feed(env, p, 0, front);
      FeedSnoc(env, Start(p, 0), front, ch);
      if f.verdict.Running? && !Byte(env, f.p, ch).ctl.Fail? {
        LineStays(p, f.p, Byte(env, f.p, ch).p);
        if f.p.state.ReqMethod? {
          MethodGoesOn(env, f.p, front, ch);
          assert f.ev + [] == f.ev;
          MethodState(Byte(env, f.p, ch).p, w);
          if ch == ' ' { x := Parts(f.p.meth, 1, [], 0, []); FirstBlank(Byte(env, f.p, ch).p, x, front); }
        } else {
          PartsStep(env, f.p, x, ch);
          MoreText(f.p, x, ch);
          FitsLater(Byte(env, f.p, ch).p, MoreParts(f.p, x, ch));
          x := MoreParts(f.p, x, ch);
        }
      }
    }
  }

  lemma LineStays(p: Rec, q: Rec, r: Rec)
    ensures OfLine(p, q)
            && r == q.(state := r.state, meth := r.meth, index := r.index, major := r.major, minor := r.minor) ==>
              OfLine(p, r)
  {}

  lemma MethodState(p: Rec, w: string)
    ensures MethodSoFar(p, w) ==> p.state.ReqMethod?
  {}

  lemma FitsLater(p: Rec, x: Parts)
    requires Fits(p, x)
    ensures !p.state.ReqMethod?
  {
    hide VersionSoFar, UrlOk, UrlRun;
  }

  lemma FirstBlank(p: Rec, x: Parts, w: string)
    ensures p.state.ReqSpacesBeforeUrl? && w == MethodString(p.meth) && x == Parts(p.meth, 1, [], 0, []) ==>
              Fits(p, x) && w + [' '] == PartsText(x) && SoFar(p, x) == [MessageBegin]
    ensures !MethodSoFar(p, w + [' '])
  {
    BlanksMore(0);
    NoBlanks();
    hide MethodString;
    if MethodSoFar(p, w + [' ']) {
      assert MethodString(p.meth)[..p.index][|w|] == ' ';
      NoSpace(p.meth, |w|);
    }
  }

  // ----- whole lines -----

  /** A request line without its LF. Without a version, and before HTTP/1.0, no
      headers follow. */
  datatype Line = Line(meth: Method, gap: nat, url: string, space: nat, version: Option<Version>, cr: bool)

  function LineText(l: Line): string {
    MethodString(l.meth) + Blanks(l.gap) + l.url + Blanks(l.space)
    + (if l.version.Some? then VersionText(l.version.value) else "") + (if l.cr then "\r" else "")
  }

  predicate LineOk(l: Line) {
    && l.gap > 0 && UrlOk(l.meth, l.url)
    && (if l.version.Some? then l.space > 0 && VersionOk(l.version.value) else l.space == 0)
  }

  predicate NoHeaders(l: Line) { l.version.None? || (l.version.value.major == 0 && l.cr) }

  /** The states that a LF may follow. */
  predicate AtEnd(s: State) { AcceptsUrlEnd(s) || s.ReqHttpEnd? || s.ReqLineAlmostDone? }

  function LineOf(p: Rec, x: Parts): Line {
    Line(x.meth, x.gap, x.url, x.space, if x.space == 0 then None else Some(Version(p.major, p.minor)),
         p.state.ReqLineAlmostDone?)
  }

  lemma LineIs(p: Rec, x: Parts)
    requires Fits(p, x) && AtEnd(p.state)
    ensures LineOk(LineOf(p, x)) && LineText(LineOf(p, x)) == PartsText(x)
  {
    hide MethodString, UrlRun;
    NoBlanks();
    var f := MethodString(x.meth) + Blanks(x.gap) + x.url + Blanks(x.space);
    assert f + [] + [] == f;
    assert f + x.tail == f + x.tail + [];
    if p.state.ReqLineAlmostDone? {
      if x.space > 0 {
        var v := VersionText(Version(p.major, p.minor));
        assert f + (v + "\r") == f + v + "\r";
      } else {
        assert f + "\r" == f + [] + "\r";
      }
    }
  }

  // ----- every line of this form is read -----

  lemma BlankBytes(env: Env, p: Rec)
    requires p.state.ReqSpacesBeforeUrl? || p.state.ReqHttpStart?
    ensures Byte(env, p, ' ') == Go(p)
  {
    hide StepResLine, StepMethod, StepHeader, StepHeadersDone, StepBody;
  }

  lemma {:induction false} BlanksRead(env: Env, p: Rec, n: nat)
    requires p.state.ReqSpacesBeforeUrl? || p.state.ReqHttpStart?
    ensures Reads(env, p, Blanks(n), p, [])
  {
    hide Reads, Byte, Blanks, AfterLine;
    assert AfterLine(p) == (p, []) by { NotPending(p); }
    if n == 0 {
      NoBlanks();
      ReadsNothing(env, p);
    } else {
      BlanksRead(env, p, n - 1);
      BlankBytes(env, p);
      BlanksMore(n - 1);
      NextGo(env, p, Blanks(n - 1), p, [], ' ', p, Blanks(n));
    }
  }

  lemma NotPending(p: Rec)
    ensures !p.state.HeaderValueLws? && !p.state.HeaderValueDiscardLws? ==> AfterLine(p) == (p, [])
  {}

  function UpToUrl(l: Line): string { MethodString(l.meth) + Blanks(l.gap) + l.url }

  /** The method, the spaces and the URL. */
  lemma UpToUrlReads(env: Env, p: Rec, l: Line) returns (q: Rec)
    requires p.state.StartReq? && LineOk(l)
    ensures Reads(env, p, UpToUrl(l), q, [MessageBegin] + Letters(Url, l.url))
    ensures OfLine(p, q) && AcceptsUrlEnd(q.state) && q.meth == l.meth
  {
    hide Reads, MethodString, Blanks, UrlRun, Letters, AcceptsUrlEnd;
    var none: seq<Event> := [];
    var r := MethodReads(env, p, l.meth);
    BlanksRead(env, r, l.gap - 1);
    ThenAny(env, p, MethodString(l.meth) + " ", r, [MessageBegin], Blanks(l.gap - 1), r, none);
    OneBlank(MethodString(l.meth), l.gap);
    assert [MessageBegin] + none == [MessageBegin];
    UrlNotEmpty(l.meth, l.url);
    OkNotDead(l);
    UrlReads(env, r, l.url);
    q := r.(state := UrlRun(UrlStart(l.meth), l.url));
    ThenAny(env, p, MethodString(l.meth) + Blanks(l.gap), r, [MessageBegin], l.url, q, Letters(Url, l.url));
  }

  lemma OneBlank(s: string, n: nat)
    requires n > 0
    ensures s + " " + Blanks(n - 1) == s + Blanks(n)
  {}

  lemma OkNotDead(l: Line)
    requires LineOk(l)
    ensures !UrlRun(UrlStart(l.meth), l.url).Dead?
  {
    hide UrlRun;
  }

  /** The version behind the URL. */
  lemma VersionPartReads(env: Env, p: Rec, l: Line) returns (q: Rec)
    requires p.state.StartReq? && LineOk(l) && l.version.Some?
    ensures Reads(env, p, LineText(l.(cr := false)), q, [MessageBegin, Data(Url, l.url)])
    ensures OfLine(p, q) && q.state.ReqHttpEnd? && q.meth == l.meth
    ensures q.major == l.version.value.major && q.minor == l.version.value.minor
  {
    hide Reads, MethodString, Blanks, UrlRun, Letters, AcceptsUrlEnd, UrlOk, VersionText, Byte;
    var none: seq<Event> := [];
    var v := l.version.value;
    var u := UpToUrlReads(env, p, l);
    UrlEndByte(env, u);
    var r := u.(state := ReqHttpStart);
    EndsInUrl(u);
    Next(env, p, UpToUrl(l), u, [MessageBegin] + Letters(Url, l.url), ' ');
    UrlTold(l);
    Retell(env, p, UpToUrl(l) + [' '], r, [MessageBegin] + Letters(Url, l.url) + ([Data(Url, [])] + none),
           [MessageBegin, Data(Url, l.url)]);
    BlanksRead(env, r, l.space - 1);
    ThenAny(env, p, UpToUrl(l) + [' '], r, [MessageBegin, Data(Url, l.url)], Blanks(l.space - 1), r, none);
    assert [MessageBegin, Data(Url, l.url)] + none == [MessageBegin, Data(Url, l.url)];
    assert [' '] == " ";
    OneBlank(UpToUrl(l), l.space);
    q := r.(major := v.major, minor := v.minor, state := ReqHttpEnd);
    VersionTextReads(env, r, v);
    ThenAny(env, p, UpToUrl(l) + Blanks(l.space), r, [MessageBegin, Data(Url, l.url)], VersionText(v), q, none);
    NothingAppended(UpToUrl(l) + Blanks(l.space) + VersionText(v));
  }

  lemma NothingAppended(s: string)
    ensures s + "" == s && s + [] == s
  {}

  lemma EndsInUrl(p: Rec)
    requires AcceptsUrlEnd(p.state)
    ensures !p.state.HeaderFieldStart? && AfterLine(p) == (p, [])
  {}

  lemma UrlTold(l: Line)
    requires LineOk(l)
    ensures Same([MessageBegin] + Letters(Url, l.url) + ([Data(Url, [])] + []), [MessageBegin, Data(Url, l.url)])
  {
    hide Letters, Join, UrlOk;
    UrlNotEmpty(l.meth, l.url);
    JoinClosed(Url, l.url);
    SameBefore([MessageBegin], Letters(Url, l.url) + [Data(Url, [])], [Data(Url, l.url)]);
    var b := [MessageBegin];
    assert b + Letters(Url, l.url) + ([Data(Url, [])] + []) == b + (Letters(Url, l.url) + [Data(Url, [])]);
    assert b + [Data(Url, l.url)] == [MessageBegin, Data(Url, l.url)];
  }

  /** A line that headers follow is read to its end, and tells what it says. */
  lemma LineReads(env: Env, p: Rec, l: Line) returns (q: Rec)
    requires p.state.StartReq? && LineOk(l) && !NoHeaders(l)
    ensures Reads(env, p, LineText(l) + "\n", q, [MessageBegin, Data(Url, l.url)])
    ensures OfLine(p, q) && q.state.HeaderFieldStart? && q.meth == l.meth
    ensures q.major == l.version.value.major && q.minor == l.version.value.minor
  {
    hide Reads, MethodString, Blanks, UrlOk, VersionText, Byte;
    var r := VersionPartReads(env, p, l);
    var t, m := LineText(l.(cr := false)), l.(cr := false);
    var e := [MessageBegin, Data(Url, l.url)];
    EndBytes(env, r);
    NothingAppended(t);
    q := r.(state := HeaderFieldStart);
    if l.cr {
      var s := r.(state := ReqLineAlmostDone);
      NextGo(env, p, t, r, e, CR, s, t + [CR]);
      EndBytes(env, s);
      NextGo(env, p, t + [CR], s, e, LF, q, t + [CR] + [LF]);
      assert LineText(l) == t + [CR];
    } else {
      NextGo(env, p, t, r, e, LF, q, t + [LF]);
      assert LineText(l) == t;
    }
  }

  lemma EndBytes(env: Env, p: Rec)
    ensures p.state.ReqHttpEnd? ==> Byte(env, p, CR) == Go(p.(state := ReqLineAlmostDone))
    ensures p.state.ReqHttpEnd? ==> Byte(env, p, LF) == Go(p.(state := HeaderFieldStart))
    ensures p.state.ReqLineAlmostDone? && p.major != 0 ==> Byte(env, p, LF) == Go(p.(state := HeaderFieldStart))
  {
    hide StepResLine, StepUrl, StepMethod, StepHeader, StepHeadersDone, StepBody, ParseUrlChar, FirstMethod;
  }

  // ----- lines that no headers follow -----

  lemma AlmostDoneBytes(env: Env, p: Rec)
    requires p.state.ReqLineAlmostDone? && p.major == 0
    ensures Byte(env, p, LF) == Byte(env, p.(state := HeadersAlmostDone), LF)
  {
    hide StepResLine, StepUrl, StepMethod, StepHeader, StepHeadersDone, StepBody, StepHeadersAlmostDone;
    var o := Byte(env, p.(state := HeadersAlmostDone), LF);
    assert [] + o.ev == o.ev;
  }

  lemma UrlEndBytes(env: Env, p: Rec)
    requires AcceptsUrlEnd(p.state)
    ensures var q := p.(major := 0, minor := 9);
      && Byte(env, p, CR) == GoWith(q.(state := ReqLineAlmostDone), Data(Url, []))
      && var o := Byte(env, q.(state := HeadersAlmostDone), LF); Byte(env, p, LF) == o.(ev := [Data(Url, [])] + o.ev)
  {
    hide StepUrl, StepResLine, StepReqLine, StepMethod, StepHeader, StepHeadersDone, StepBody, StepHeadersAlmostDone;
    UrlEndSteps(p);
    assert GroupOf(p.state).UrlGroup?;
    hide GroupOf;
  }

  lemma UrlEndSteps(p: Rec)
    requires AcceptsUrlEnd(p.state)
    ensures var q := p.(major := 0, minor := 9);
      && StepUrl(p, CR) == GoWith(q.(state := ReqLineAlmostDone), Data(Url, []))
      && StepUrl(p, LF) == RedoWith(q.(state := HeadersAlmostDone), Data(Url, []))
  {
    hide ParseUrlChar;
  }

  /** The callbacks behind the URL of such a line. */
  function NoHead(p: Rec, a: int): Out {
    Out(p.(state := Dead, upgrade := a == 2 || p.meth == CONNECT, flags := NO_FLAGS.(skipBody := a != 0)),
        [HeadersComplete, MessageComplete], if a == 2 || p.meth == CONNECT then Exit else Consume, true)
  }

  lemma NoHeadByte(env: Env, p: Rec, a: int)
    requires p.state.HeadersAlmostDone? && p.flags == NO_FLAGS && p.contentLength == ULLONG_MAX
    requires p.ptype.Request? && p.major == 0 && Answers(env, a)
    ensures Byte(env, p, LF) == NoHead(p, a)
  {
    hide Byte;
    HeadByte(env, p, a);
  }

  /** Without a version the headers end with the line, and so does the message; nothing
      follows it on the connection. */
  lemma ShortLineEnds(env: Env, p: Rec, l: Line, a: int) returns (q: Rec)
    requires p.state.StartReq? && p.ptype.Request? && LineOk(l) && NoHeaders(l) && Answers(env, a)
    ensures Ends(env, p, LineText(l) + "\n", q, [MessageBegin, Data(Url, l.url), HeadersComplete, MessageComplete],
                 a == 2 || l.meth == CONNECT)
    ensures q.state.Dead?
  {
    hide Reads, Ends, MethodString, Blanks, UrlOk, VersionText, Byte, Letters, AcceptsUrlEnd, Join;
    var e := [MessageBegin, Data(Url, l.url)];
    var h := [HeadersComplete, MessageComplete];
    assert e + h == [MessageBegin, Data(Url, l.url), HeadersComplete, MessageComplete];
    assert [LF] == "\n" && [CR] == "\r";
    var none: seq<Event> := [];
    var f := [MessageBegin] + Letters(Url, l.url);
    if l.version.None? {
      var u := UpToUrlReads(env, p, l);
      EndsInUrl(u);
      UrlEndBytes(env, u);
      UrlTold(l);
      NoBlanks();
      var v := u.(major := 0, minor := 9);
      NoHeadByte(env, v.(state := HeadersAlmostDone), a);
      ShortText(l);
      if l.cr {
        var s := v.(state := ReqLineAlmostDone);
        Next(env, p, UpToUrl(l), u, f, CR);
        NotPending(s);
        Retell(env, p, UpToUrl(l) + [CR], s, f + ([Data(Url, [])] + none), e);
        AlmostDoneBytes(env, s);
        q := NoHead(v.(state := HeadersAlmostDone), a).p;
        EndsBy(env, p, UpToUrl(l) + [CR], s, e, LF, Byte(env, s, LF));
      } else {
        q := NoHead(v.(state := HeadersAlmostDone), a).p;
        EndsBy(env, p, UpToUrl(l), u, f, LF, Byte(env, u, LF));
        assert f + ([Data(Url, [])] + h) == (f + ([Data(Url, [])] + none)) + h;
        SameAfter(f + ([Data(Url, [])] + none), e, h);
        RetellEnd(env, p, UpToUrl(l) + [LF], q, f + ([Data(Url, [])] + h), e + h, a == 2 || l.meth == CONNECT);
      }
    } else {
      var r := VersionPartReads(env, p, l);
      EndBytes(env, r);
      var s := r.(state := ReqLineAlmostDone);
      NextGo(env, p, LineText(l.(cr := false)), r, e, CR, s, LineText(l.(cr := false)) + [CR]);
      AlmostDoneBytes(env, s);
      NoHeadByte(env, s.(state := HeadersAlmostDone), a);
      q := NoHead(s.(state := HeadersAlmostDone), a).p;
      EndsBy(env, p, LineText(l.(cr := false)) + [CR], s, e, LF, Byte(env, s, LF));
      NothingAppended(LineText(l.(cr := false)));
      assert LineText(l.(cr := false)) + [CR] == LineText(l);
    }
  }

  lemma ShortText(l: Line)
    requires LineOk(l) && l.version.None?
    ensures LineText(l) == if l.cr then UpToUrl(l) + [CR] else UpToUrl(l)
  {
    NoBlanks();
    hide MethodString, Blanks;
    var u := UpToUrl(l);
    assert u + [] + "" + "\r" == u + [CR] && u + [] + "" + "" == u;
  }

  // ----- the request line, exactly -----

  lemma NotAtEnd(env: Env, p: Rec)
    requires p.state.ReqMethod? || p.state.ReqSpacesBeforeUrl? || InUrl(p.state) || InVersion(p.state)
    requires !AtEnd(p.state)
    ensures Byte(env, p, LF).ctl.Fail?
  {
    hide StepResLine, StepHeader, StepHeadersDone, StepBody, StepHeadersAlmostDone, MethodString;
    if p.state.ReqMethod? { hide StepUrl, StepReqLine; NoLf(p.meth, p.index); }
    else if InVersion(p.state) { hide StepUrl, StepMethod; }
    else { hide StepReqLine, StepMethod, ParseUrlChar; NoCr(UrlState(p)); }
  }

  lemma NoLf(m: Method, k: nat)
    ensures k < |MethodString(m)| ==> MethodString(m)[k] != LF
  {
    if k < |MethodString(m)| { NoSpace(m, k); }
  }

  predicate IsLine(w: string, l: Line) { LineOk(l) && w == LineText(l) }

  /** A request line is accepted if and only if it is the name of a method, spaces,
      a URL, and, if there is a version, spaces and the version; a CR may precede
      the LF. */
  lemma RequestLineExact(env: Env, p: Rec, w: string, a: int)
    requires p.state.StartReq? && p.ptype.Request? && Answers(env, a)
    requires w != [] && w[0] != CR && NoLineEnd(w)
    ensures !Feed(env, p, 0, w + "\n").verdict.Failed? <==> exists l :: IsLine(w, l)
  {
    hide Byte, FeedOn, Fits, MethodString, LineText, LineOk, PartsText, MethodSoFar, Join;
    var x := LineSound(env, p, w);
    var f := Feed(env, p, 0, w);
    FeedSnoc(env, Start(p, 0), w, LF);
    assert "\n" == [LF];
    if l :| IsLine(w, l) {
      if NoHeaders(l) { var q := ShortLineEnds(env, p, l, a); } else { var q := LineReads(env, p, l); }
    } else if f.verdict.Running? {
      FitsThere(f.p, x, w);
      if AtEnd(f.p.state) {
        NotInMethod(f.p);
        LineIs(f.p, x);
        assert IsLine(w, LineOf(f.p, x));
      } else {
        NotAtEnd(env, f.p);
      }
    }
  }

  lemma NotInMethod(p: Rec)
    ensures AtEnd(p.state) ==> !p.state.ReqMethod?
  {}

  lemma FitsThere(p: Rec, x: Parts, w: string)
    requires if p.state.ReqMethod? then MethodSoFar(p, w) else Fits(p, x)
    ensures p.state.ReqMethod? || p.state.ReqSpacesBeforeUrl? || InUrl(p.state) || InVersion(p.state) || AtEnd(p.state)
  {
    hide UrlOk, UrlRun;
  }

  /** Line ends before a request are passed over. */
  lemma {:induction false} LeadingLineEnds(env: Env, p: Rec, w: string)
    requires p.state.StartReq? && forall i :: 0 <= i < |w| ==> w[i] == CR || w[i] == LF
    ensures Reads(env, p, w, p, [])
  {
    hide Reads, Byte, AfterLine;
    NotPending(p);
    if w == [] {
      ReadsNothing(env, p);
    } else {
      var n := |w| - 1;
      LeadingLineEnds(env, p, w[..n]);
      StartReqByte(env, p, w[n]);
      NextGo(env, p, w[..n], p, [], w[n], p, w);
    }
  }

  lemma StartReqByte(env: Env, p: Rec, ch: char)
    requires p.state.StartReq? && (ch == CR || ch == LF)
    ensures Byte(env, p, ch) == Go(p)
  {
    hide StepResLine, StepUrl, StepMethod, StepHeader, StepHeadersDone, StepBody;
  }
}
