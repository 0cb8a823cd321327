/** CONNECT targets: exactly the authorities with a port and without user info,
    and behind them at most a question mark and number signs, which leave the
    query and the fragment empty. */
module UrlConnect {
  import opened Decimals
  import opened HttpTypes
  import opened Options
  import opened UrlCompose
  import opened UrlDecompose
  import opened UrlPieces
  import opened UrlSpec
  import opened UrlWalk

  /** Delimiters of a query and of a fragment that are both empty. */
  predicate OnlyMarks(y: string) {
    y != [] ==> y[0] == '?' && forall i :: 0 < i < |y| ==> y[i] == '#'
  }

  function AfterMarks(y: string): State {
    if y == [] then ReqServer else if |y| == 1 then ReqQueryStringStart else ReqFragmentStart
  }

  lemma MarkBytes()
    ensures ParseUrlChar(ReqServer, '?') == ReqQueryStringStart
    ensures ParseUrlChar(ReqQueryStringStart, '#') == ReqFragmentStart == ParseUrlChar(ReqFragmentStart, '#')
    ensures FieldOf(ReqQueryStringStart) == None == FieldOf(ReqFragmentStart)
  {}

  lemma {:induction false} MarksGoOn(y: string)
    requires OnlyMarks(y)
    ensures Goes(ReqServer, y, Same(y, None), false, AfterMarks(y))
  {
    hide ParseUrlChar, FieldOf;
    MarkBytes();
    if y == [] {
      GoesNowhere(ReqServer);
      assert Same(y, None) == [];
    } else {
      var x, ch := y[..|y| - 1], y[|y| - 1];
      MarksGoOn(x);
      GoesOne(AfterMarks(x), ch, AfterMarks(y));
      GoesThen(ReqServer, x, Same(x, None), false, AfterMarks(x), [ch], [None], false, AfterMarks(y));
      assert x + [ch] == y && Same(x, None) + [None] == Same(y, None);
    }
  }

  /** Both automata over an authority and marks behind it. */
  lemma MarkedAuthority(a: Authority, y: string, t: State)
    requires Shaped(a)
    requires var v := Text(AuthorityPieces(a));
      v != [] && Goes(ReqServerStart, v + y, Same(v, Some(Host)) + Same(y, None), a.userinfo.Some?, t)
    ensures var buf := Text(AuthorityPieces(a)) + y;
      && AllClassesOf(true, buf) == Labels(AuthorityPieces(a)) + Same(y, None)
      && Divided(true, buf)
      && PortValue(true, buf) == Decimal(Or(a.port))
  {
    hide LegalHost, Goes, Labels, Component, Pick, AllClasses, Text, FoundAt, HostRun, HostText, AuthorityPieces;
    hide UrlRun, UrlClasses, HostClasses, Present;
    var v, at, none: Classes := Text(AuthorityPieces(a)), a.userinfo.Some?, [];
    var s, n := Same(v, Some(Host)), Same(y, None);
    var l := Labels(AuthorityPieces(a));
    assert [] + v + y == v + y && none + s + n == s + n && none + l + n == l + n;
    Relabelled(true, [], v, y, [], n, at, t);
    AuthorityClasses(a);
    GoesUrl(true, v + y, s + n, at, t);
    assert (s + n)[0] == Some(Host);
    ConnectDivided(v + y, s + n);
    var ps, m := AuthorityPieces(a), [Piece(y, None)];
    OnePiece(y, None);
    PiecesJoin(ps, m);
    PortOf(true, ps + m);
    ComponentJoin(ps, m, Port);
    ComponentOne(y, None, Port);
    AuthorityComponent(a, Port);
    assert Or(a.port) + [] == Or(a.port);
  }

  lemma ConnectDivided(v: string, c: Classes)
    requires UrlClasses(true, v) == c && c != [] && c[0] == Some(Host) && !UrlRun(StartState(true), v).Dead?
    requires var e := HostEnd(true, v); e.InHost? || e.V6End? || e.InPort?
    ensures Divided(true, v)
  {}

  /** A CONNECT target that is an authority, with marks behind it or not, is
      accepted exactly when it has a port and no user info. */
  lemma ConnectSplitsBack(a: Authority, y: string)
    requires LegalAuthority(a) && OnlyMarks(y)
    ensures var buf := Text(AuthorityPieces(a)) + y;
      && AllClassesOf(true, buf) == Labels(AuthorityPieces(a)) + Same(y, None)
      && (Accepted(true, buf) <==> a.port.Some? && Or(a.userinfo) == [])
      && PortValue(true, buf) == Decimal(Or(a.port))
  {
    hide LegalHost, Goes, Labels, AllClasses, Text, AuthorityPieces, Divided, HostAndPortOnly, OnlyMarks;
    var v, at := Text(AuthorityPieces(a)), a.userinfo.Some?;
    AuthorityGoes(a);
    MarksGoOn(y);
    GoesThen(ReqServerStart, v, Same(v, Some(Host)), at, ReqServer, y, Same(y, None), false, AfterMarks(y));
    MarkedAuthority(a, y, AfterMarks(y));
    NoneAdded(Labels(AuthorityPieces(a)), y);
    ConnectFields(a);
  }

  lemma NoneAdded(c: Classes, y: string)
    ensures HostAndPortOnly(c + Same(y, None)) <==> HostAndPortOnly(c)
  {
    forall f: UrlField ensures Present(c + Same(y, None), f) <==> Present(c, f) {}
  }

  // ----- backwards -----

  /** Nothing but host bytes and delimiters. */
  predicate HostOrNone(c: Classes) { forall i :: 0 <= i < |c| ==> c[i] == None || c[i] == Some(Host) }

  /** Where such a target stands: in its first part, `v`, or in the marks `y`. */
  predicate StandsAt(v: string, y: string, t: State) {
    if y == [] then if v == [] then t.ReqServerStart? else t.ReqServer? || t.ReqServerWithAt?
    else t == AfterMarks(y)
  }

  lemma NextStands(v: string, y: string, s: State, ch: char)
    requires StandsAt(v, y, s) && OnlyMarks(y)
    requires var t := ParseUrlChar(s, ch); !t.Dead? && (FieldOf(t) == None || FieldOf(t) == Some(Host))
    ensures var t := ParseUrlChar(s, ch);
      || (y == [] && FieldOf(t) == Some(Host) && StandsAt(v + [ch], y, t))
      || (FieldOf(t) == None && OnlyMarks(y + [ch]) && StandsAt(v, y + [ch], t) && !t.ReqServerWithAt?)
  {
    hide IsUrlChar, IsUserinfoChar;
  }

  lemma {:induction false} TargetBack(buf: string) returns (v: string, y: string, at: bool)
    requires !UrlRun(ReqServerStart, buf).Dead? && HostOrNone(ClassesFrom(ReqServerStart, buf))
    ensures buf == v + y && OnlyMarks(y) && StandsAt(v, y, UrlRun(ReqServerStart, buf))
    ensures Goes(ReqServerStart, buf, Same(v, Some(Host)) + Same(y, None), at, UrlRun(ReqServerStart, buf))
    decreases |buf|
  {
    hide ParseUrlChar, FieldOf, OnlyMarks, StandsAt, Goes;
    if buf == [] {
      v, y, at := [], [], false;
      NothingYet();
      GoesNowhere(ReqServerStart);
      assert Same(v, Some(Host)) + Same(y, None) == [];
    } else {
      var front, ch := buf[..|buf| - 1], buf[|buf| - 1];
      UrlRunAlive(ReqServerStart, buf);
      var c := ClassesFrom(ReqServerStart, front);
      var s, t := UrlRun(ReqServerStart, front), UrlRun(ReqServerStart, buf);
      assert ClassesFrom(ReqServerStart, buf) == c + [FieldOf(t)];
      FrontToo(c, FieldOf(t));
      v, y, at := TargetBack(front);
      NextStands(v, y, s, ch);
      GoesOne(s, ch, t);
      var d := Same(v, Some(Host)) + Same(y, None);
      GoesThen(ReqServerStart, front, d, at, s, [ch], [FieldOf(t)], t.ReqServerWithAt?, t);
      assert front + [ch] == buf;
      at := at || t.ReqServerWithAt?;
      if FieldOf(t) == Some(Host) {
        SameSnoc(v, Some(Host), ch);
        assert Same(y, None) == [];
        assert d + [Some(Host)] == Same(v + [ch], Some(Host)) + Same(y, None);
        v := v + [ch];
      } else {
        SameSnoc(y, None, ch);
        assert d + [None] == Same(v, Some(Host)) + Same(y + [ch], None);
        y := y + [ch];
      }
    }
  }

  lemma NothingYet()
    ensures OnlyMarks([]) && StandsAt([], [], ReqServerStart)
  {}

  lemma SameSnoc(v: string, g: Option<UrlField>, ch: char)
    ensures Same(v + [ch], g) == Same(v, g) + [g]
  {}

  lemma FrontToo(c: Classes, g: Option<UrlField>)
    requires HostOrNone(c + [g])
    ensures HostOrNone(c) && (g == None || g == Some(Host))
  {
    assert forall i :: 0 <= i < |c| ==> (c + [g])[i] == c[i];
    assert (c + [g])[|c|] == g;
  }

  /** A target with a host and a port only has no other field in the first
      automaton's view either. */
  lemma FieldsOfTarget(buf: string)
    requires HostAndPortOnly(AllClasses(true, buf)) && !UrlRun(ReqServerStart, buf).Dead?
    ensures HostOrNone(UrlClasses(true, buf)) && Some(Host) in UrlClasses(true, buf)
  {
    hide HostClasses, HostText, FoundAt, FirstOf, UrlRun, ClassesFrom;
    var c, d := UrlClasses(true, buf), AllClasses(true, buf);
    forall i | 0 <= i < |c| ensures c[i] == None || c[i] == Some(Host) {
      if c[i] != None && c[i] != Some(Host) {
        assert d[i] == c[i] && Present(d, c[i].value);
        NeverPort(buf, i);
      }
    }
    assert Present(d, Host);
    var i :| 0 <= i < |d| && d[i] == Some(Host);
    assert c[i] == Some(Host);
  }

  lemma NeverPort(buf: string, i: nat)
    requires i < |UrlClasses(true, buf)|
    ensures UrlClasses(true, buf)[i] != Some(Port)
  {
    UrlClassesLength(true, buf);
    UrlClassesAt(true, buf, i);
    hide UrlClasses, StateAt;
  }

  /** What a CONNECT target is made of. */
  predicate ConnectTarget(a: Authority, y: string, buf: string) {
    && LegalAuthority(a) && a.port.Some? && Or(a.userinfo) == []
    && OnlyMarks(y)
    && buf == Text(AuthorityPieces(a)) + y
  }

  lemma TargetOf(buf: string) returns (a: Authority, y: string)
    requires Accepted(true, buf)
    ensures ConnectTarget(a, y, buf)
  {
    hide ClassesFrom, AllClasses, Text, AuthorityPieces, Labels, FoundAt, HostText, HostRun, HostClasses, UrlRun;
    hide Shaped, OnlyMarks, HostAndPortOnly, Goes;
    FieldsOfTarget(buf);
    var t := UrlRun(ReqServerStart, buf);
    var v, at;
    v, y, at := TargetBack(buf);
    var s, n, none: Classes := Same(v, Some(Host)), Same(y, None), [];
    GoesUrl(true, buf, s + n, at, t);
    assert v != [] by { HostSomewhere(v, y); }
    assert [] + v + y == buf && none + s + n == s + n;
    Relabelled(true, [], v, y, [], n, at, t);
    a := AuthorityBack(at, v);
    MarkedAuthority(a, y, t);
    NoneAdded(Labels(AuthorityPieces(a)), y);
    ConnectFields(a);
  }

  lemma HostSomewhere(v: string, y: string)
    requires Some(Host) in Same(v, Some(Host)) + Same(y, None)
    ensures v != []
  {}

  /** `http_parser_parse_url` accepts a CONNECT target if and only if it is an
      authority with a port and without user info, with at most a question mark
      and number signs behind it. */
  lemma ConnectAccepted(buf: string)
    ensures Accepted(true, buf) <==> exists a: Authority, y: string :: ConnectTarget(a, y, buf)
  {
    hide Accepted, ConnectTarget;
    if Accepted(true, buf) {
      var a, y := TargetOf(buf);
    } else {
      forall a: Authority, y: string ensures !ConnectTarget(a, y, buf) {
        if ConnectTarget(a, y, buf) { TargetAccepted(a, y, buf); }
      }
    }
  }

  lemma TargetAccepted(a: Authority, y: string, buf: string)
    requires ConnectTarget(a, y, buf)
    ensures Accepted(true, buf)
  {
    hide Accepted, Text, AuthorityPieces, Labels, AllClasses, Shaped, OnlyMarks;
    ConnectSplitsBack(a, y);
  }

  /** Such marks are accepted, although no authority is printed with them. */
  lemma MarkedTargetAccepted()
    ensures Accepted(true, "a:1?#")
    ensures forall a: Authority :: Shaped(a) ==> Text(AuthorityPieces(a)) != "a:1?#"
  {
    hide Accepted, Text, AuthorityPieces, Shaped, Goes;
    var buf := "a:1?#";
    var a := Authority(None, RegName("a"), Some("1"));
    ShortTarget();
    TargetAccepted(a, "?#", buf);
    AuthorityGoes(a);
    MarksGoOn("?#");
    var v, s, n := Text(AuthorityPieces(a)), Same("a:1", Some(Host)), Same("?#", None);
    GoesThen(ReqServerStart, v, s, false, ReqServer, "?#", n, false, ReqFragmentStart);
    assert v + "?#" == buf;
    forall b: Authority | Shaped(b) ensures Text(AuthorityPieces(b)) != buf {
      AuthorityGoes(b);
      if Text(AuthorityPieces(b)) == buf { OneEnd(buf, s + n, false, Same(buf, Some(Host)), b.userinfo.Some?); }
    }
  }

  lemma OneEnd(v: string, c: Classes, a: bool, d: Classes, b: bool)
    requires Goes(ReqServerStart, v, c, a, ReqFragmentStart)
    ensures !Goes(ReqServerStart, v, d, b, ReqServer)
  {
    hide UrlRun, ClassesFrom, FoundFrom;
  }

  lemma ShortTarget()
    ensures var a := Authority(None, RegName("a"), Some("1"));
      Shaped(a) && Text(AuthorityPieces(a)) == "a:1" && ConnectTarget(a, "?#", "a:1?#")
  {
    hide Text;
    var a := Authority(None, RegName("a"), Some("1"));
    AuthorityText(a);
    OnePiece("a", Some(Host));
    assert "" + "a" + (":" + "1") == "a:1" && "a:1" + "?#" == "a:1?#";
    assert Decimal("1") == 1 by { assert "1"[..0] == ""; assert Decimal("") == 0; }
  }

  lemma ConnectFields(a: Authority)
    requires Shaped(a)
    ensures HostAndPortOnly(Labels(AuthorityPieces(a))) <==> a.port.Some? && Or(a.userinfo) == []
  {
    hide Labels, Component, AuthorityPieces, AuthorityPart, LegalHost, Present, Or, HostAndPortOnly;
    var c := Labels(AuthorityPieces(a));
    var port, user := a.port.Some?, Or(a.userinfo) != [];
    forall f: UrlField ensures Present(c, f) <==> f == Host || (f == Port && port) || (f == Userinfo && user) {
      AuthorityComponent(a, f);
      LabelledText(AuthorityPieces(a), f);
      PartIsThere(a, f);
    }
    NothingElse(c, port, user);
  }

  lemma NothingElse(c: Classes, port: bool, user: bool)
    requires forall f: UrlField :: Present(c, f) <==> f == Host || (f == Port && port) || (f == Userinfo && user)
    ensures HostAndPortOnly(c) <==> port && !user
  {
    hide Present;
    assert Present(c, Port) <==> port;
    assert Present(c, Userinfo) <==> user;
  }

  lemma PartIsThere(a: Authority, f: UrlField)
    requires Shaped(a)
    ensures AuthorityPart(a, f) != [] <==>
            f == Host || (f == Port && a.port.Some?) || (f == Userinfo && Or(a.userinfo) != [])
  {
    hide LegalHost, HostNameOf;
    LegalHostText(a.host);
  }

  lemma LegalHostText(h: HostName)
    requires LegalHost(h)
    ensures HostNameOf(h) != []
  {}

  lemma {:induction false} LabelledText(ps: seq<Piece>, f: UrlField)
    ensures Present(Labels(ps), f) <==> Component(ps, f) != []
  {
    if ps != [] {
      var n := |ps| - 1;
      LabelledText(ps[..n], f);
      var t := Same(ps[n].text, ps[n].field);
      assert ps[n].text != [] ==> t[0] == ps[n].field;
    }
  }
}
