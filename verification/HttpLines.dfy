/** Start lines: the request line with its method, URL and version, and the status
    line with its version, status code and reason. */
module HttpLines {
  import opened Decimals
  import opened HttpFeed
  import opened HttpFields
  import opened HttpInvariant
  import opened HttpMarks
  import opened HttpMethods
  import opened HttpReads
  import opened HttpStep
  import opened HttpTrace
  import opened HttpTypes

  datatype StartLine =
    | RequestLine(meth: Method, url: string)
    | StatusLine(status: string, reason: string)

  // ----- URL -----

  function UrlStart(m: Method): State { if m == CONNECT then ReqServerStart else ReqSpacesBeforeUrl }

  /** A URL that may stand in a request line; an authority for CONNECT. */
  predicate UrlOk(m: Method, url: string) { AcceptsUrlEnd(UrlRun(UrlStart(m), url)) }

  /** The state in which the automaton reads the next byte of the URL. */
  function UrlState(p: Rec): State {
    if p.state.ReqSpacesBeforeUrl? && p.meth == CONNECT then ReqServerStart else p.state
  }

  lemma UrlByte(env: Env, p: Rec, ch: char)
    requires p.state.ReqSpacesBeforeUrl? || InUrl(p.state)
    requires !ParseUrlChar(UrlState(p), ch).Dead?
    ensures Byte(env, p, ch) == GoWith(p.(state := ParseUrlChar(UrlState(p), ch)), Data(Url, [ch]))
  {
    hide StepResLine, StepReqLine, StepMethod, StepHeader, StepHeadersDone, StepBody, StepHeadersAlmostDone;
    assert ch != ' ' && ch != CR && ch != LF by { NotDead(UrlState(p), ch); }
    hide ParseUrlChar;
  }

  lemma NotDead(s: State, ch: char)
    requires !ParseUrlChar(s, ch).Dead?
    ensures ch != ' ' && ch != CR && ch != LF
  {}

  lemma DeadStays(ch: char)
    ensures ParseUrlChar(Dead, ch).Dead?
  {}

  lemma {:induction false} UrlReads(env: Env, p: Rec, url: string)
    requires p.state.ReqSpacesBeforeUrl? && url != []
    requires !UrlRun(UrlStart(p.meth), url).Dead?
    ensures Reads(env, p, url, p.(state := UrlRun(UrlStart(p.meth), url)), Letters(Url, url))
    ensures InUrl(UrlRun(UrlStart(p.meth), url))
    decreases |url|
  {
    hide Byte, Reads, ParseUrlChar;
    var front, ch := url[..|url| - 1], url[|url| - 1];
    var s := UrlRun(UrlStart(p.meth), front);
    var none: seq<Event> := [];
    UrlStates(s, ch);
    assert url == front + [ch];
    LettersSnoc(Url, front, ch);
    assert [Data(Url, [ch])] + none == [Data(Url, [ch])];
    var q := p.(state := ParseUrlChar(s, ch));
    if front == [] {
      UrlByte(env, p, ch);
      ReadsByte(env, p, ch, q);
      assert none + [Data(Url, [ch])] == [Data(Url, [ch])];
    } else {
      if s.Dead? { DeadStays(ch); }
      UrlReads(env, p, front);
      UrlByte(env, p.(state := s), ch);
      Next(env, p, front, p.(state := s), Letters(Url, front), ch);
    }
  }

  lemma UrlEndByte(env: Env, p: Rec)
    requires AcceptsUrlEnd(p.state)
    ensures Byte(env, p, ' ') == GoWith(p.(state := ReqHttpStart), Data(Url, []))
  {
    hide StepResLine, StepReqLine, StepMethod, StepHeader, StepHeadersDone, StepBody, ParseUrlChar;
  }

  lemma UrlNotEmpty(m: Method, url: string)
    requires UrlOk(m, url)
    ensures url != []
  {}

  /** The URL and the space behind it. */
  lemma UrlPartReads(env: Env, r: Rec, url: string)
    requires r.state.ReqSpacesBeforeUrl? && UrlOk(r.meth, url)
    ensures Reads(env, r, url + " ", r.(state := ReqHttpStart), [Data(Url, url)])
  {
    hide Byte, Reads, ParseUrlChar;
    UrlNotEmpty(r.meth, url);
    UrlReads(env, r, url);
    var s := r.(state := UrlRun(UrlStart(r.meth), url));
    UrlEndByte(env, s);
    Next(env, r, url, s, Letters(Url, url), ' ');
    var none: seq<Event> := [];
    assert Letters(Url, url) + ([Data(Url, [])] + none) == Letters(Url, url) + [Data(Url, [])];
    JoinClosed(Url, url);
    Retell(env, r, url + [' '], r.(state := ReqHttpStart), Letters(Url, url) + [Data(Url, [])], [Data(Url, url)]);
    assert url + [' '] == url + " ";
  }

  // ----- version -----

  /** A version is two digits. */
  datatype Version = Version(major: nat, minor: nat)

  predicate VersionOk(v: Version) { v.major <= 9 && v.minor <= 9 }

  function DigitOf(n: nat): char { ('0' as int + n % 10) as char }

  function VersionText(v: Version): string { "HTTP/" + [DigitOf(v.major)] + "." + [DigitOf(v.minor)] }

  lemma NextGo(env: Env, p: Rec, s: string, q: Rec, t: seq<Event>, ch: char, r: Rec, w: string)
    requires w == s + [ch]
    requires Reads(env, p, s, q, t) && !q.state.HeaderFieldStart?
    requires Byte(env, q, ch) == Go(r) && AfterLine(r) == (r, [])
    ensures Reads(env, p, w, r, t)
  {
    hide Byte, Reads, AfterLine;
    Next(env, p, s, q, t, ch);
    var none: seq<Event> := [];
    assert t + (none + none) == t;
  }

  lemma VersionBytes(env: Env, p: Rec)
    ensures p.state.ReqHttpStart? ==> Byte(env, p, 'H') == Go(p.(state := ReqHttpH))
    ensures p.state.ReqHttpH? ==> Byte(env, p, 'T') == Go(p.(state := ReqHttpHT))
    ensures p.state.ReqHttpHT? ==> Byte(env, p, 'T') == Go(p.(state := ReqHttpHTT))
    ensures p.state.ReqHttpHTT? ==> Byte(env, p, 'P') == Go(p.(state := ReqHttpHTTP))
    ensures p.state.ReqHttpHTTP? ==> Byte(env, p, '/') == Go(p.(state := ReqHttpMajor))
    ensures p.state.ReqHttpDot? ==> Byte(env, p, '.') == Go(p.(state := ReqHttpMinor))
    ensures p.state.ReqHttpEnd? ==> Byte(env, p, CR) == Go(p.(state := ReqLineAlmostDone))
    ensures p.state.ReqLineAlmostDone? && p.major != 0 ==> Byte(env, p, LF) == Go(p.(state := HeaderFieldStart))
  {
    hide StepResLine, StepUrl, StepMethod, StepHeader, StepHeadersDone, StepBody, ParseUrlChar, FirstMethod;
  }

  lemma DigitBytes(env: Env, p: Rec, n: nat)
    requires n <= 9
    ensures p.state.ReqHttpMajor? ==> Byte(env, p, DigitOf(n)) == Go(p.(major := n, state := ReqHttpDot))
    ensures p.state.ReqHttpMinor? ==> Byte(env, p, DigitOf(n)) == Go(p.(minor := n, state := ReqHttpEnd))
    ensures p.state.ResHttpMajor? ==> Byte(env, p, DigitOf(n)) == Go(p.(major := n, state := ResHttpDot))
    ensures p.state.ResHttpMinor? ==> Byte(env, p, DigitOf(n)) == Go(p.(minor := n, state := ResHttpEnd))
  {
    hide StepUrl, StepMethod, StepHeader, StepHeadersDone, StepBody, ParseUrlChar, FirstMethod;
  }

  lemma HttpSlashReads(env: Env, p: Rec)
    requires p.state.ReqHttpStart?
    ensures Reads(env, p, "HTTP/", p.(state := ReqHttpMajor), [])
  {
    hide Byte, Reads;
    VersionBytes(env, p);
    ReadsNothing(env, p);
    NextGo(env, p, [], p, [], 'H', p.(state := ReqHttpH), "H");
    VersionBytes(env, p.(state := ReqHttpH));
    NextGo(env, p, "H", p.(state := ReqHttpH), [], 'T', p.(state := ReqHttpHT), "HT");
    VersionBytes(env, p.(state := ReqHttpHT));
    NextGo(env, p, "HT", p.(state := ReqHttpHT), [], 'T', p.(state := ReqHttpHTT), "HTT");
    VersionBytes(env, p.(state := ReqHttpHTT));
    NextGo(env, p, "HTT", p.(state := ReqHttpHTT), [], 'P', p.(state := ReqHttpHTTP), "HTTP");
    VersionBytes(env, p.(state := ReqHttpHTTP));
    NextGo(env, p, "HTTP", p.(state := ReqHttpHTTP), [], '/', p.(state := ReqHttpMajor), "HTTP/");
  }

  lemma VersionTextReads(env: Env, p: Rec, v: Version)
    requires p.state.ReqHttpStart? && VersionOk(v)
    ensures Reads(env, p, VersionText(v), p.(major := v.major, minor := v.minor, state := ReqHttpEnd), [])
  {
    hide Byte, Reads, DigitOf;
    HttpSlashReads(env, p);
    var m, n := [DigitOf(v.major)], [DigitOf(v.minor)];
    DigitBytes(env, p.(state := ReqHttpMajor), v.major);
    var q := p.(major := v.major);
    NextGo(env, p, "HTTP/", p.(state := ReqHttpMajor), [], m[0], q.(state := ReqHttpDot), "HTTP/" + m);
    VersionBytes(env, q.(state := ReqHttpDot));
    NextGo(env, p, "HTTP/" + m, q.(state := ReqHttpDot), [], '.', q.(state := ReqHttpMinor), "HTTP/" + m + ".");
    DigitBytes(env, q.(state := ReqHttpMinor), v.minor);
    var r := q.(minor := v.minor);
    NextGo(env, p, "HTTP/" + m + ".", q.(state := ReqHttpMinor), [], n[0], r.(state := ReqHttpEnd), VersionText(v));
  }

  /** The version and the end of the request line. */
  lemma VersionReads(env: Env, p: Rec, v: Version)
    requires p.state.ReqHttpStart? && VersionOk(v) && v.major > 0
    ensures Reads(env, p, VersionText(v) + "\r\n",
                  p.(major := v.major, minor := v.minor, state := HeaderFieldStart), [])
  {
    hide Byte, Reads, DigitOf;
    VersionTextReads(env, p, v);
    var r := p.(major := v.major, minor := v.minor);
    VersionBytes(env, r.(state := ReqHttpEnd));
    NextGo(env, p, VersionText(v), r.(state := ReqHttpEnd), [], CR, r.(state := ReqLineAlmostDone),
           VersionText(v) + "\r");
    VersionBytes(env, r.(state := ReqLineAlmostDone));
    NextGo(env, p, VersionText(v) + "\r", r.(state := ReqLineAlmostDone), [], LF, r.(state := HeaderFieldStart),
           VersionText(v) + "\r\n");
  }

  function RequestText(m: Method, url: string, v: Version): string {
    MethodString(m) + " " + (url + " " + (VersionText(v) + "\r\n"))
  }

  /** The request line. */
  lemma RequestReads(env: Env, p: Rec, m: Method, url: string, v: Version) returns (q: Rec)
    requires p.state.StartReq? && UrlOk(m, url) && VersionOk(v) && v.major > 0
    ensures Reads(env, p, RequestText(m, url, v), q, [MessageBegin, Data(Url, url)])
    ensures q == Fresh(p).(meth := m, index := q.index, major := v.major, minor := v.minor, state := HeaderFieldStart)
    ensures q.index <= 17
  {
    hide Byte, Reads, MethodString, UrlOk, VersionText;
    var r := MethodReads(env, p, m);
    UrlPartReads(env, r, url);
    var t := r.(state := ReqHttpStart);
    q := t.(major := v.major, minor := v.minor, state := HeaderFieldStart);
    VersionReads(env, t, v);
    var none: seq<Event> := [];
    var w := VersionText(v) + "\r\n";
    ThenAny(env, r, url + " ", t, [Data(Url, url)], w, q, none);
    ThenAny(env, p, MethodString(m) + " ", r, [MessageBegin], url + " " + w, q, [Data(Url, url)] + none);
    assert [MessageBegin] + ([Data(Url, url)] + none) == [MessageBegin, Data(Url, url)];
  }

  // ----- status line -----

  lemma StatusBytes(env: Env, p: Rec)
    ensures p.state.StartRes? ==> Byte(env, p, 'H') == GoWith(Fresh(p).(state := ResH), MessageBegin)
    ensures p.state.ResH? ==> Byte(env, p, 'T') == Go(p.(state := ResHT))
    ensures p.state.ResHT? ==> Byte(env, p, 'T') == Go(p.(state := ResHTT))
    ensures p.state.ResHTT? ==> Byte(env, p, 'P') == Go(p.(state := ResHTTP))
    ensures p.state.ResHTTP? ==> Byte(env, p, '/') == Go(p.(state := ResHttpMajor))
    ensures p.state.ResHttpDot? ==> Byte(env, p, '.') == Go(p.(state := ResHttpMinor))
    ensures p.state.ResHttpEnd? ==> Byte(env, p, ' ') == Go(p.(state := ResFirstStatusCode))
    ensures p.state.ResStatusCode? ==> Byte(env, p, ' ') == Go(p.(state := ResStatusStart))
    ensures p.state.ResLineAlmostDone? ==> Byte(env, p, LF) == Go(p.(state := HeaderFieldStart))
  {
    hide StepReqLine, StepUrl, StepMethod, StepHeader, StepHeadersAlmostDone, StepHeadersDone, StepBody;
  }

  /** `HTTP/`, with the beginning of the message. */
  lemma ResponseBegins(env: Env, p: Rec)
    requires p.state.StartRes?
    ensures Reads(env, p, "HTTP/", Fresh(p).(state := ResHttpMajor), [MessageBegin])
  {
    hide Byte, Reads;
    var q := Fresh(p);
    var none: seq<Event> := [];
    StatusBytes(env, p);
    ReadsByte(env, p, 'H', q.(state := ResH));
    assert [MessageBegin] + none == [MessageBegin];
    assert ['H'] == "H";
    StatusBytes(env, q.(state := ResH));
    NextGo(env, p, "H", q.(state := ResH), [MessageBegin], 'T', q.(state := ResHT), "HT");
    StatusBytes(env, q.(state := ResHT));
    NextGo(env, p, "HT", q.(state := ResHT), [MessageBegin], 'T', q.(state := ResHTT), "HTT");
    StatusBytes(env, q.(state := ResHTT));
    NextGo(env, p, "HTT", q.(state := ResHTT), [MessageBegin], 'P', q.(state := ResHTTP), "HTTP");
    StatusBytes(env, q.(state := ResHTTP));
    NextGo(env, p, "HTTP", q.(state := ResHTTP), [MessageBegin], '/', q.(state := ResHttpMajor), "HTTP/");
  }

  /** The version of a response, and the space behind it. */
  lemma ResponseVersionReads(env: Env, p: Rec, v: Version)
    requires p.state.StartRes? && VersionOk(v)
    ensures Reads(env, p, VersionText(v) + " ",
                  Fresh(p).(major := v.major, minor := v.minor, state := ResFirstStatusCode), [MessageBegin])
  {
    hide Byte, Reads, DigitOf;
    ResponseBegins(env, p);
    var b := [MessageBegin];
    var f := Fresh(p);
    var m, n := [DigitOf(v.major)], [DigitOf(v.minor)];
    DigitBytes(env, f.(state := ResHttpMajor), v.major);
    var q := f.(major := v.major);
    NextGo(env, p, "HTTP/", f.(state := ResHttpMajor), b, m[0], q.(state := ResHttpDot), "HTTP/" + m);
    StatusBytes(env, q.(state := ResHttpDot));
    NextGo(env, p, "HTTP/" + m, q.(state := ResHttpDot), b, '.', q.(state := ResHttpMinor), "HTTP/" + m + ".");
    DigitBytes(env, q.(state := ResHttpMinor), v.minor);
    var r := q.(minor := v.minor);
    NextGo(env, p, "HTTP/" + m + ".", q.(state := ResHttpMinor), b, n[0], r.(state := ResHttpEnd), VersionText(v));
    StatusBytes(env, r.(state := ResHttpEnd));
    NextGo(env, p, VersionText(v), r.(state := ResHttpEnd), b, ' ', r.(state := ResFirstStatusCode),
           VersionText(v) + " ");
  }

  /** A status code: digits whose value has at most three of them. */
  predicate StatusOk(s: string) { s != [] && AllDigits(s) && Decimal(s) <= 999 }

  lemma StatusDigit(env: Env, p: Rec, ch: char)
    requires IsNum(ch)
    ensures p.state.ResFirstStatusCode? ==> Byte(env, p, ch) == Go(p.(status := Digit(ch), state := ResStatusCode))
    ensures p.state.ResStatusCode? ==>
              var t := p.status * 10 + Digit(ch);
              Byte(env, p, ch) == if t > 999 then Refuse(p, InvalidStatus) else Go(p.(status := t))
  {
    hide StepReqLine, StepUrl, StepMethod, StepHeader, StepHeadersAlmostDone, StepHeadersDone, StepBody;
  }

  lemma {:induction false} StatusReads(env: Env, p: Rec, s: string)
    requires p.state.ResFirstStatusCode? && StatusOk(s)
    ensures Reads(env, p, s, p.(status := Decimal(s), state := ResStatusCode), [])
    decreases |s|
  {
    hide Byte, Reads;
    var front, ch := s[..|s| - 1], s[|s| - 1];
    var none: seq<Event> := [];
    assert s == front + [ch] && none + none == none;
    if front == [] {
      assert Decimal(front) == 0;
      StatusDigit(env, p, ch);
      ReadsByte(env, p, ch, p.(status := Decimal(s), state := ResStatusCode));
    } else {
      DecimalPrefix(s, |front|);
      StatusReads(env, p, front);
      var q := p.(status := Decimal(front), state := ResStatusCode);
      StatusDigit(env, q, ch);
      Next(env, p, front, q, [], ch);
      assert none + (none + none) == none;
    }
  }

  /** A reason may hold any bytes but CR and LF. */
  predicate ReasonOk(r: string) { forall i :: 0 <= i < |r| ==> r[i] != CR && r[i] != LF }

  lemma ReasonByte(env: Env, p: Rec, ch: char)
    requires p.state.ResStatusStart? || p.state.ResStatus?
    ensures var q := if p.state.ResStatusStart? then p.(state := ResStatus, index := 0) else p;
      Byte(env, p, ch) == if ch == CR then GoWith(q.(state := ResLineAlmostDone), Data(Status, []))
                          else if ch == LF then GoWith(q.(state := HeaderFieldStart), Data(Status, []))
                          else GoWith(q, Data(Status, [ch]))
  {
    hide StepReqLine, StepUrl, StepMethod, StepHeader, StepHeadersAlmostDone, StepHeadersDone, StepBody;
    var q := p.(state := ResStatus, index := 0);
    if p.state.ResStatusStart? && (ch == CR || ch == LF) {
      assert Step(env, p, ch) == Redo(q);
      assert Byte(env, q, ch) == Step(env, q, ch);
      assert [] + [Data(Status, [])] == [Data(Status, [])];
    }
  }

  lemma {:induction false} ReasonReads(env: Env, p: Rec, r: string)
    requires p.state.ResStatusStart? && ReasonOk(r) && r != []
    ensures Reads(env, p, r, p.(state := ResStatus, index := 0), Letters(Status, r))
    decreases |r|
  {
    hide Byte, Reads;
    var front, ch := r[..|r| - 1], r[|r| - 1];
    var none: seq<Event> := [];
    var q := p.(state := ResStatus, index := 0);
    assert r == front + [ch];
    LettersSnoc(Status, front, ch);
    assert [Data(Status, [ch])] + none == [Data(Status, [ch])];
    if front == [] {
      ReasonByte(env, p, ch);
      ReadsByte(env, p, ch, q);
      assert none + [Data(Status, [ch])] == [Data(Status, [ch])];
    } else {
      ReasonReads(env, p, front);
      ReasonByte(env, q, ch);
      Next(env, p, front, q, Letters(Status, front), ch);
    }
  }

  /** The reason, which may be empty, and the end of the line. */
  lemma ReasonLineReads(env: Env, p: Rec, r: string) returns (q: Rec)
    requires p.state.ResStatusStart? && ReasonOk(r)
    ensures Reads(env, p, r + "\r\n", q, [Data(Status, r)])
    ensures q == p.(state := HeaderFieldStart, index := 0)
  {
    hide Byte, Reads, Letters, Join;
    var none: seq<Event> := [];
    var s := p.(state := ResStatus, index := 0);
    var t := s.(state := ResLineAlmostDone);
    if r == [] {
      ReasonByte(env, p, CR);
      ReadsByte(env, p, CR, t);
      assert [Data(Status, [])] + none == [Data(Status, [])];
      assert r + [CR] == [CR];
    } else {
      ReasonReads(env, p, r);
      ReasonByte(env, s, CR);
      Next(env, p, r, s, Letters(Status, r), CR);
      assert Letters(Status, r) + ([Data(Status, [])] + none) == Letters(Status, r) + [Data(Status, [])];
      JoinClosed(Status, r);
      Retell(env, p, r + [CR], t, Letters(Status, r) + [Data(Status, [])], [Data(Status, r)]);
    }
    q := s.(state := HeaderFieldStart);
    StatusBytes(env, t);
    NextGo(env, p, r + [CR], t, [Data(Status, r)], LF, q, r + "\r\n");
  }

  function StatusText(s: string, reason: string, v: Version): string {
    VersionText(v) + " " + (s + " " + (reason + "\r\n"))
  }

  /** The status line. */
  lemma ResponseReads(env: Env, p: Rec, s: string, reason: string, v: Version) returns (q: Rec)
    requires p.state.StartRes? && StatusOk(s) && ReasonOk(reason) && VersionOk(v)
    ensures Reads(env, p, StatusText(s, reason, v), q, [MessageBegin, Data(Status, reason)])
    ensures q == Fresh(p).(status := Decimal(s), index := 0, major := v.major, minor := v.minor,
                           state := HeaderFieldStart)
  {
    hide Byte, Reads, VersionText, StatusOk, ReasonOk, Decimal;
    var none: seq<Event> := [];
    ResponseVersionReads(env, p, v);
    var a := Fresh(p).(major := v.major, minor := v.minor, state := ResFirstStatusCode);
    assert Decimal(s) >= 0;
    StatusReads(env, a, s);
    var b := a.(status := Decimal(s), state := ResStatusCode);
    StatusBytes(env, b);
    NextGo(env, a, s, b, none, ' ', b.(state := ResStatusStart), s + " ");
    q := ReasonLineReads(env, b.(state := ResStatusStart), reason);
    ThenAny(env, a, s + " ", b.(state := ResStatusStart), none, reason + "\r\n", q, [Data(Status, reason)]);
    ThenAny(env, p, VersionText(v) + " ", a, [MessageBegin], s + " " + (reason + "\r\n"), q,
            none + [Data(Status, reason)]);
    assert [MessageBegin] + (none + [Data(Status, reason)]) == [MessageBegin, Data(Status, reason)];
  }
}
