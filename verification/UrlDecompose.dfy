/** Every URL that the parser accepts was printed from legal components: with
    `UrlCompose`, the accepted URLs are exactly the legal ones. */
module UrlDecompose {
  import opened Decimals
  import opened HttpTypes
  import opened Options
  import opened UrlCompose
  import opened UrlPieces
  import opened UrlSpec
  import opened UrlWalk

  // ----- the first automaton, backwards -----

  predicate InServer(s: State) { s.ReqServerStart? || s.ReqServer? || s.ReqServerWithAt? }

  predicate InQuery(s: State) { s.ReqQueryStringStart? || s.ReqQueryString? }

  predicate InFragment(s: State) { s.ReqFragmentStart? || s.ReqFragment? }

  /** What the byte before each state can be. */
  lemma BeforeFragment(s: State, ch: char)
    ensures ParseUrlChar(s, ch).ReqFragmentStart? ==> ch == '#' && (s.ReqFragmentStart? || s.ReqPath? || InQuery(s))
    ensures ParseUrlChar(s, ch).ReqFragment? ==>
              InFragment(s) && (IsUrlChar(ch) || ch == '?' || ch == '#') && (s.ReqFragmentStart? ==> ch != '#')
  {}

  lemma BeforeQuery(s: State, ch: char)
    ensures ParseUrlChar(s, ch).ReqQueryStringStart? ==> ch == '?' && (InServer(s) || s.ReqPath?)
    ensures ParseUrlChar(s, ch).ReqQueryString? ==> InQuery(s) && (IsUrlChar(ch) || ch == '?')
  {}

  lemma BeforePathByte(s: State, ch: char)
    ensures ParseUrlChar(s, ch).ReqPath? ==>
              && IsUrlChar(ch) && (s.ReqPath? || InServer(s) || s.ReqSpacesBeforeUrl?)
              && (InServer(s) ==> ch == '/') && (s.ReqSpacesBeforeUrl? ==> ch in "/*")
  {}

  lemma BeforeServer(s: State, ch: char)
    ensures var t := ParseUrlChar(s, ch);
      && (t.ReqServerStart? ==> s.ReqSchemaSlashSlash? && ch == '/')
      && (t.ReqSchemaSlashSlash? ==> s.ReqSchemaSlash? && ch == '/')
      && (t.ReqSchemaSlash? ==> s.ReqSchema? && ch == ':')
      && (t.ReqServer? || t.ReqServerWithAt? ==> InServer(s))
  {}

  lemma BeforeSchema(s: State, ch: char)
    ensures var t := ParseUrlChar(s, ch);
      && (t.ReqSchema? ==> IsAlpha(ch) && (s.ReqSchema? || s.ReqSpacesBeforeUrl?))
      && !t.ReqSpacesBeforeUrl?
  {
    hide IsAlpha, IsUrlChar, IsUserinfoChar;
  }

  lemma {:induction false} FragmentBack(s: State, buf: string) returns (b: string, n: nat, fragment: string)
    requires InFragment(UrlRun(s, buf)) && !InFragment(s)
    ensures buf == b + Hashes(n + 1) + fragment && LegalFragment(fragment)
    ensures var t := UrlRun(s, b); t.ReqPath? || InQuery(t)
    ensures fragment == [] <==> UrlRun(s, buf).ReqFragmentStart?
    decreases |buf|
  {
    hide ParseUrlChar, IsUrlChar;
    var front, ch := buf[..|buf| - 1], buf[|buf| - 1];
    var t := UrlRun(s, front);
    BeforeFragment(t, ch);
    if InFragment(t) {
      b, n, fragment := FragmentBack(s, front);
      if UrlRun(s, buf).ReqFragmentStart? {
        assert Hashes(n + 1) + [ch] == Hashes(n + 2);
        n := n + 1;
        assert buf == b + Hashes(n + 1) + fragment;
      } else {
        fragment := fragment + [ch];
      }
    } else {
      b, n, fragment := front, 0, [];
      assert Hashes(1) == [ch];
    }
  }

  lemma Longer(b: string, v: string, ch: char)
    ensures b + v + [ch] == b + (v + [ch])
  {}

  lemma {:induction false} QueryBack(s: State, buf: string) returns (b: string, query: string)
    requires InQuery(UrlRun(s, buf)) && !InQuery(s)
    ensures buf == b + "?" + query && All(query, c => IsUrlChar(c) || c == '?')
    ensures var t := UrlRun(s, b); InServer(t) || t.ReqPath?
    ensures UrlRun(s, buf).ReqQueryStringStart? ==> query == []
    decreases |buf|
  {
    hide ParseUrlChar, IsUrlChar;
    var front, ch := buf[..|buf| - 1], buf[|buf| - 1];
    var t := UrlRun(s, front);
    BeforeQuery(t, ch);
    if InQuery(t) {
      var part;
      b, part := QueryBack(s, front);
      query := part + [ch];
      assert buf == front + [ch];
      Longer(b + "?", part, ch);
      hide UrlRun;
    } else {
      b, query := front, [];
    }
  }

  lemma {:induction false} PathBack(s: State, buf: string) returns (b: string, path: string)
    requires UrlRun(s, buf).ReqPath? && !s.ReqPath?
    ensures buf == b + path && path != [] && All(path, IsUrlChar)
    ensures var t := UrlRun(s, b); (InServer(t) && path[0] == '/') || (t.ReqSpacesBeforeUrl? && path[0] in "/*")
    decreases |buf|
  {
    hide ParseUrlChar, IsUrlChar;
    var front, ch := buf[..|buf| - 1], buf[|buf| - 1];
    var t := UrlRun(s, front);
    BeforePathByte(t, ch);
    if t.ReqPath? {
      b, path := PathBack(s, front);
      path := path + [ch];
    } else {
      b, path := front, [ch];
    }
  }

  lemma {:induction false} SchemaBack(buf: string)
    requires UrlRun(ReqSpacesBeforeUrl, buf).ReqSchema?
    ensures buf != [] && All(buf, IsAlpha)
    decreases |buf|
  {
    hide ParseUrlChar, IsAlpha;
    var front, ch := buf[..|buf| - 1], buf[|buf| - 1];
    var t := UrlRun(ReqSpacesBeforeUrl, front);
    BeforeSchema(t, ch);
    if t.ReqSchema? { SchemaBack(front); } else { StartBack(front); }
  }

  lemma StartBack(buf: string)
    requires UrlRun(ReqSpacesBeforeUrl, buf).ReqSpacesBeforeUrl?
    ensures buf == []
  {
    hide ParseUrlChar;
    if buf != [] { BeforeSchema(UrlRun(ReqSpacesBeforeUrl, buf[..|buf| - 1]), buf[|buf| - 1]); }
  }

  lemma Last(s: State, buf: string) returns (front: string, ch: char)
    requires UrlRun(s, buf) != s
    ensures buf == front + [ch] && UrlRun(s, buf) == ParseUrlChar(UrlRun(s, front), ch)
  {
    hide ParseUrlChar;
    front, ch := buf[..|buf| - 1], buf[|buf| - 1];
  }

  lemma MarksBack(buf: string) returns (scheme: string)
    requires UrlRun(ReqSpacesBeforeUrl, buf).ReqServerStart?
    ensures buf == scheme + "://" && scheme != [] && All(scheme, IsAlpha)
  {
    hide ParseUrlChar, IsAlpha, UrlRun;
    var b2, c2 := Last(ReqSpacesBeforeUrl, buf);
    BeforeServer(UrlRun(ReqSpacesBeforeUrl, b2), c2);
    var b1, c1 := Last(ReqSpacesBeforeUrl, b2);
    BeforeServer(UrlRun(ReqSpacesBeforeUrl, b1), c1);
    var b0, c0 := Last(ReqSpacesBeforeUrl, b1);
    BeforeServer(UrlRun(ReqSpacesBeforeUrl, b0), c0);
    SchemaBack(b0);
    scheme := b0;
    assert [c0] + [c1] + [c2] == "://";
  }

  lemma {:induction false} ServerBack(buf: string) returns (scheme: string, v: string, at: bool)
    requires InServer(UrlRun(ReqSpacesBeforeUrl, buf))
    ensures buf == scheme + "://" + v && scheme != [] && All(scheme, IsAlpha)
    ensures Goes(ReqServerStart, v, Same(v, Some(Host)), at, UrlRun(ReqSpacesBeforeUrl, buf))
    ensures v == [] <==> UrlRun(ReqSpacesBeforeUrl, buf).ReqServerStart?
    decreases |buf|
  {
    hide ParseUrlChar, IsAlpha, Goes;
    var s := UrlRun(ReqSpacesBeforeUrl, buf);
    if s.ReqServerStart? {
      scheme := MarksBack(buf);
      v, at := [], false;
      GoesNowhere(ReqServerStart);
      assert Same(v, Some(Host)) == [];
    } else {
      var front, ch := Last(ReqSpacesBeforeUrl, buf);
      var t := UrlRun(ReqSpacesBeforeUrl, front);
      BeforeServer(t, ch);
      var w, found;
      scheme, w, found := ServerBack(front);
      GoesOne(t, ch, s);
      v, at := w + [ch], found || s.ReqServerWithAt?;
      assert Same([ch], Some(Host)) == [FieldOf(s)];
      GoesThen(ReqServerStart, w, Same(w, Some(Host)), found, t, [ch], [FieldOf(s)], s.ReqServerWithAt?, s);
      SameJoin(w, [ch], Some(Host));
      assert scheme + "://" + v == scheme + "://" + w + [ch];
    }
  }

  // ----- the second automaton, backwards -----

  lemma BeforeHostStart(s: HostState, ch: char)
    ensures var t := HostChar(s, ch);
      && (t.HostStart? ==> ch == '@' && (s.UserinfoStart? || s.InUserinfo?))
      && (t.InUserinfo? ==> IsUserinfoChar(ch) && (s.UserinfoStart? || s.InUserinfo?))
      && !t.UserinfoStart?
  {}

  lemma BeforeHost(s: HostState, ch: char)
    ensures var t := HostChar(s, ch);
      && (t.InHost? ==> IsHostChar(ch) && (s.HostStart? || s.InHost?))
      && (t.V6Start? ==> ch == '[' && s.HostStart?)
      && (t.V6? ==> (IsHex(ch) || ch == ':' || ch == '.') && (s.V6Start? || s.V6?))
      && (t.ZoneStart? ==> ch == '%' && s.V6?)
      && (t.Zone? ==> IsZoneChar(ch) && (s.ZoneStart? || s.Zone?))
      && (t.V6End? ==> ch == ']' && (s.V6? || s.Zone?))
  {
    hide IsUserinfoChar;
  }

  lemma BeforePort(s: HostState, ch: char)
    ensures var t := HostChar(s, ch);
      && (t.PortStart? ==> ch == ':' && (s.InHost? || s.V6End?))
      && (t.InPort? ==> IsNum(ch) && (s.PortStart? || s.InPort?))
  {}

  lemma HostLast(s: HostState, v: string) returns (front: string, ch: char)
    requires HostRun(s, v) != s
    ensures v == front + [ch] && HostRun(s, v) == HostChar(HostRun(s, front), ch)
  {
    hide HostChar;
    front, ch := v[..|v| - 1], v[|v| - 1];
  }

  lemma {:induction false} UserinfoBack(v: string)
    requires var t := HostRun(UserinfoStart, v); t.UserinfoStart? || t.InUserinfo?
    ensures All(v, IsUserinfoChar)
  {
    hide HostChar, IsUserinfoChar;
    if v != [] {
      BeforeHostStart(HostRun(UserinfoStart, v[..|v| - 1]), v[|v| - 1]);
      UserinfoBack(v[..|v| - 1]);
    }
  }

  /** What stands before the host name. */
  predicate Before(at: bool, v: string, userinfo: Option<string>) {
    && (userinfo.Some? <==> at)
    && (if at then v == userinfo.value + "@" && All(userinfo.value, IsUserinfoChar) else v == [])
  }

  lemma HostStartBack(at: bool, v: string) returns (userinfo: Option<string>)
    requires HostRun(HostStartState(at), v).HostStart?
    ensures Before(at, v, userinfo)
  {
    hide HostChar, IsUserinfoChar;
    if at {
      var front, ch := HostLast(UserinfoStart, v);
      BeforeHostStart(HostRun(UserinfoStart, front), ch);
      UserinfoBack(front);
      userinfo := Some(front);
    } else {
      userinfo := None;
      if v != [] {
        BeforeHostStart(HostRun(HostStart, v[..|v| - 1]), v[|v| - 1]);
        NeverUserinfo(v[..|v| - 1]);
      }
    }
  }

  lemma {:induction false} NeverUserinfo(v: string)
    ensures var t := HostRun(HostStart, v); !t.UserinfoStart? && !t.InUserinfo?
  {
    hide HostChar, IsUserinfoChar;
    if v != [] {
      NeverUserinfo(v[..|v| - 1]);
      BeforeHostStart(HostRun(HostStart, v[..|v| - 1]), v[|v| - 1]);
    }
  }

  lemma {:induction false} RegNameBack(s: HostState, v: string) returns (b: string, name: string)
    requires HostRun(s, v).InHost? && !s.InHost?
    ensures v == b + name && name != [] && All(name, IsHostChar) && HostRun(s, b).HostStart?
    decreases |v|
  {
    hide HostChar, IsHostChar;
    var front, ch := HostLast(s, v);
    BeforeHost(HostRun(s, front), ch);
    if HostRun(s, front).InHost? {
      b, name := RegNameBack(s, front);
      name := name + [ch];
    } else {
      b, name := front, [ch];
    }
  }

  lemma {:induction false} AddressBack(s: HostState, v: string) returns (b: string, address: string)
    requires HostRun(s, v).V6? && (s.UserinfoStart? || s.HostStart?)
    ensures v == b + "[" + address && address != [] && All(address, c => IsHex(c) || c == ':' || c == '.')
    ensures HostRun(s, b).HostStart?
    decreases |v|
  {
    hide HostChar, IsHex;
    var front, ch := HostLast(s, v);
    BeforeHost(HostRun(s, front), ch);
    if HostRun(s, front).V6? {
      b, address := AddressBack(s, front);
      address := address + [ch];
    } else {
      address := [ch];
      var bracket;
      b, bracket := HostLast(s, front);
      BeforeHost(HostRun(s, b), bracket);
    }
  }

  lemma {:induction false} ZoneBack(s: HostState, v: string) returns (b: string, address: string, zone: string)
    requires var t := HostRun(s, v); (t.ZoneStart? || t.Zone?) && (s.UserinfoStart? || s.HostStart?)
    ensures v == b + "[" + address + "%" + zone && All(zone, IsZoneChar)
    ensures address != [] && All(address, c => IsHex(c) || c == ':' || c == '.')
    ensures HostRun(s, b).HostStart? && (zone == [] <==> HostRun(s, v).ZoneStart?)
    decreases |v|
  {
    hide HostChar, IsHex, IsZoneChar;
    var front, ch := HostLast(s, v);
    BeforeHost(HostRun(s, front), ch);
    if HostRun(s, v).Zone? {
      b, address, zone := ZoneBack(s, front);
      zone := zone + [ch];
    } else {
      b, address := AddressBack(s, front);
      zone := [];
    }
  }

  lemma HostNameBack(s: HostState, v: string) returns (b: string, h: HostName)
    requires var t := HostRun(s, v); (t.InHost? || t.V6End?) && (s.UserinfoStart? || s.HostStart?)
    ensures v == b + Text(HostPieces(h)) && LegalHost(h) && HostRun(s, b).HostStart?
  {
    hide HostChar, IsHex, IsZoneChar, IsHostChar, Text, HostRun;
    if HostRun(s, v).InHost? {
      var name;
      b, name := RegNameBack(s, v);
      h := RegName(name);
      OnePiece(name, Some(Host));
    } else {
      var front, ch := HostLast(s, v);
      BeforeHost(HostRun(s, front), ch);
      var address;
      if HostRun(s, front).V6? {
        b, address := AddressBack(s, front);
        h := V6Address(address, None);
      } else {
        var zone;
        b, address, zone := ZoneBack(s, front);
        h := V6Address(address, Some(zone));
      }
      BracketText(h);
      assert v == b + ("[" + address + (if h.zone.Some? then "%" + h.zone.value else "") + "]");
    }
  }

  lemma BracketText(h: HostName)
    requires h.V6Address?
    ensures Text(HostPieces(h)) == "[" + h.address + (if h.zone.Some? then "%" + h.zone.value else "") + "]"
  {
    hide Text;
    TwoPieces("[", None, h.address, Some(Host));
    OnePiece("]", None);
    var b, e := [Piece("[", None), Piece(h.address, Some(Host))], [Piece("]", None)];
    if h.zone.None? {
      PiecesJoin(b, e);
      assert HostPieces(h) == b + e;
    } else {
      TwoPieces("%", Some(Host), h.zone.value, Some(Host));
      var z := [Piece("%", Some(Host)), Piece(h.zone.value, Some(Host))];
      PiecesJoin(b, z);
      PiecesJoin(b + z, e);
      assert HostPieces(h) == b + z + e;
    }
  }

  lemma {:induction false} PortBack(s: HostState, v: string) returns (b: string, port: string)
    requires var t := HostRun(s, v); (t.PortStart? || t.InPort?) && (s.UserinfoStart? || s.HostStart?)
    ensures v == b + ":" + port && AllDigits(port) && (port == [] <==> HostRun(s, v).PortStart?)
    ensures var t := HostRun(s, b); t.InHost? || t.V6End?
    decreases |v|
  {
    hide HostChar;
    var front, ch := HostLast(s, v);
    BeforePort(HostRun(s, front), ch);
    if HostRun(s, v).InPort? {
      b, port := PortBack(s, front);
      port := port + [ch];
    } else {
      b, port := front, [];
    }
  }

  /** An authority that the second automaton accepts. */
  lemma AuthorityBack(at: bool, v: string) returns (a: Authority)
    requires var e := HostRun(HostStartState(at), v); e.InHost? || e.V6End? || e.InPort?
    ensures Shaped(a) && a.userinfo.Some? == at && Text(AuthorityPieces(a)) == v
  {
    hide HostChar, HostRun, LegalHost, HostPieces, Text, IsUserinfoChar;
    var s := HostStartState(at);
    var w, port := v, None;
    if HostRun(s, v).InPort? {
      var digits;
      w, digits := PortBack(s, v);
      port := Some(digits);
    }
    var b, h := HostNameBack(s, w);
    var userinfo := HostStartBack(at, b);
    a := Authority(userinfo, h, port);
    AuthorityText(a);
  }

  lemma AuthorityText(a: Authority)
    ensures Text(AuthorityPieces(a)) ==
            (if a.userinfo.Some? then a.userinfo.value + "@" else "") + Text(HostPieces(a.host))
            + (if a.port.Some? then ":" + a.port.value else "")
  {
    hide Text, HostPieces;
    NoText();
    if a.userinfo.Some? { TwoPieces(a.userinfo.value, Some(Userinfo), "@", None); }
    if a.port.Some? { TwoPieces(":", None, a.port.value, Some(Port)); }
    PiecesJoin(UserinfoPieces(a), HostPieces(a.host));
    PiecesJoin(UserinfoPieces(a) + HostPieces(a.host), PortPieces(a));
  }

  lemma NoText()
    ensures Text([]) == []
  {}

  // ----- the whole URL, backwards -----

  const START := ReqSpacesBeforeUrl

  function FragmentText(fragment: Option<string>, n: nat): string {
    if fragment.Some? then Hashes(n + 1) + fragment.value else ""
  }

  function QueryText(query: Option<string>): string { if query.Some? then "?" + query.value else "" }

  lemma FragmentOff(buf: string) returns (b: string, fragment: Option<string>, n: nat)
    requires !UrlRun(START, buf).Dead?
    ensures buf == b + FragmentText(fragment, n)
    ensures var t := UrlRun(START, b); !t.Dead? && !InFragment(t) && (fragment.Some? ==> t.ReqPath? || InQuery(t))
    ensures fragment.Some? ==> LegalFragment(fragment.value)
    ensures fragment.None? ==> b == buf
  {
    hide UrlRun, LegalFragment, Hashes;
    b, fragment, n := buf, None, 0;
    if InFragment(UrlRun(START, buf)) {
      var f;
      b, n, f := FragmentBack(START, buf);
      fragment := Some(f);
      assert buf == b + (Hashes(n + 1) + f);
    }
  }

  lemma QueryOff(buf: string) returns (b: string, query: Option<string>)
    requires var t := UrlRun(START, buf); !t.Dead? && !InFragment(t)
    ensures buf == b + QueryText(query)
    ensures var t := UrlRun(START, b);
      !t.Dead? && !InFragment(t) && !InQuery(t) && (query.Some? ==> t.ReqPath? || InServer(t))
    ensures query.Some? ==> All(query.value, c => IsUrlChar(c) || c == '?')
    ensures query.None? ==> b == buf
  {
    hide UrlRun, IsUrlChar;
    b, query := buf, None;
    if InQuery(UrlRun(START, buf)) {
      var q;
      b, q := QueryBack(START, buf);
      query := Some(q);
      assert buf == b + ("?" + q);
    }
  }

  lemma PathOff(buf: string) returns (b: string, path: string)
    requires var t := UrlRun(START, buf); !t.Dead? && !InFragment(t) && !InQuery(t)
    ensures buf == b + path && All(path, IsUrlChar)
    ensures var t := UrlRun(START, b);
      && !t.Dead? && !InFragment(t) && !InQuery(t) && !t.ReqPath?
      && (path != [] ==> (InServer(t) && path[0] == '/') || (t.ReqSpacesBeforeUrl? && path[0] in "/*"))
    ensures path == [] ==> b == buf
    ensures path == [] <==> !UrlRun(START, buf).ReqPath?
  {
    hide UrlRun, IsUrlChar;
    b, path := buf, [];
    if UrlRun(START, buf).ReqPath? { b, path := PathBack(START, buf); }
  }

  lemma TailText(u: Url)
    ensures Text(TailPieces(u)) == u.path + QueryText(u.query) + FragmentText(u.fragment, u.hashes)
  {
    hide Text;
    NoText();
    OnePiece(u.path, Some(Path));
    if u.query.Some? { TwoPieces("?", None, u.query.value, Some(Query)); }
    if u.fragment.Some? { TwoPieces(Hashes(u.hashes + 1), None, u.fragment.value, Some(Fragment)); }
    PiecesJoin([Piece(u.path, Some(Path))], QueryPieces(u));
    PiecesJoin([Piece(u.path, Some(Path))] + QueryPieces(u), FragmentPieces(u));
  }

  /** A tail without a front: path, query and fragment are legal behind state `s`. */
  predicate TailFor(u: Url, s: State) {
    && All(u.path, IsUrlChar)
    && (u.path != [] ==> (InServer(s) && u.path[0] == '/') || (s.ReqSpacesBeforeUrl? && u.path[0] in "/*"))
    && (u.query.Some? ==> (u.path != [] || InServer(s)) && All(u.query.value, c => IsUrlChar(c) || c == '?'))
    && (u.fragment.Some? ==> LegalFragment(u.fragment.value) && (u.path != [] || u.query.Some?))
  }

  /** Path, query and fragment, behind `b`. */
  lemma TailBack(buf: string, front: Front) returns (b: string, u: Url)
    requires !UrlRun(START, buf).Dead?
    ensures u.front == front && buf == b + Text(TailPieces(u))
    ensures var t := UrlRun(START, b);
      !t.Dead? && !t.ReqPath? && !InQuery(t) && !InFragment(t) && TailFor(u, t)
  {
    hide UrlRun, IsUrlChar, LegalFragment, Text, QueryText, FragmentText, TailPieces;
    var b1, fragment, n := FragmentOff(buf);
    var b2, query := QueryOff(b1);
    var path;
    b, path := PathOff(b2);
    u := Url.Url(front, path, query, fragment, n);
    TailText(u);
    assert buf == b + (path + QueryText(query) + FragmentText(fragment, n));
  }

  // ----- accepted URLs -----

  lemma {:induction false} Reachable(v: string)
    ensures var t := UrlRun(START, v);
      t.Dead? || t.ReqSpacesBeforeUrl? || t.ReqSchema? || t.ReqSchemaSlash? || t.ReqSchemaSlashSlash? || InServer(t)
      || t.ReqPath? || InQuery(t) || InFragment(t)
  {
    hide ParseUrlChar;
    if v != [] {
      Reachable(v[..|v| - 1]);
      ReachableByte(UrlRun(START, v[..|v| - 1]), v[|v| - 1]);
    }
  }

  lemma ReachableByte(s: State, ch: char)
    ensures var t := ParseUrlChar(s, ch);
      t.Dead? || t.ReqSpacesBeforeUrl? || t.ReqSchema? || t.ReqSchemaSlash? || t.ReqSchemaSlashSlash? || InServer(t)
      || t.ReqPath? || InQuery(t) || InFragment(t)
  {
    hide IsUserinfoChar, IsUrlChar, IsAlpha;
  }

  /** A URL that stops short of a host has no host part, but a scheme. */
  lemma SchemaAlone(buf: string, k: nat)
    requires 0 < k <= |buf| && !UrlRun(START, buf).Dead?
    requires 1 <= UrlRank(StateAt(false, buf, k)) <= 4
    requires k < |buf| ==> UrlRank(StateAt(false, buf, k + 1)) >= 6
    ensures Present(UrlClasses(false, buf), Schema) && !Present(UrlClasses(false, buf), Host)
  {
    hide StateAt, UrlRun, UrlClasses, ParseUrlChar;
    var c := UrlClasses(false, buf);
    UrlClassesLength(false, buf);
    forall i | 0 <= i < |c| ensures c[i] != Some(Host) {
      UrlClassesAt(false, buf, i);
      if i + 1 <= k { Forward(false, buf, i + 1, k); } else { Forward(false, buf, k + 1, i + 1); }
      HostHasRankFive(StateAt(false, buf, i + 1));
    }
    UrlClassesAt(false, buf, 0);
    StateNext(false, buf, 0);
    Forward(false, buf, 1, k);
    assert StateAt(false, buf, 0) == START by { StartAt(buf); }
    FirstByte(buf[0]);
    assert c[0] == Some(Schema);
  }

  lemma StartAt(buf: string)
    ensures StateAt(false, buf, 0) == START
  {
    assert buf[..0] == [];
  }

  lemma HostHasRankFive(s: State)
    ensures FieldOf(s) == Some(Host) ==> UrlRank(s) == 5
  {}

  lemma FirstByte(ch: char)
    ensures var t := ParseUrlChar(START, ch); UrlRank(t) <= 4 ==> FieldOf(t) == Some(Schema)
  {}

  lemma ServerNext(s: State, ch: char)
    requires s.ReqServerStart? && (ch == '/' || ch == '?')
    ensures UrlRank(ParseUrlChar(s, ch)) >= 6
  {}

  /** What follows the host begins with a slash or a question mark. */
  lemma TailBegins(u: Url, s: State)
    requires TailFor(u, s) && !s.ReqSpacesBeforeUrl? && Text(TailPieces(u)) != []
    ensures InServer(s) && (Text(TailPieces(u))[0] == '/' || Text(TailPieces(u))[0] == '?')
  {
    hide Text, TailPieces, IsUrlChar, LegalFragment;
    TailText(u);
  }

  /** The accepted URLs without a host part. */
  lemma OriginBack(buf: string, b: string, u: Url)
    requires buf != [] && buf == b + Text(TailPieces(u)) && u.front.Nowhere?
    requires UrlRun(START, b).ReqSpacesBeforeUrl? && TailFor(u, UrlRun(START, b))
    ensures Legal(u) && Compose(u) == buf
  {
    hide Text, UrlRun, IsUrlChar, LegalFragment, TailPieces;
    StartBack(b);
    TailText(u);
    assert u.path != [];
    assert Pieces(u) == TailPieces(u);
    assert b + Text(TailPieces(u)) == Text(TailPieces(u));
  }

  /** A front that ends before the host is not accepted. */
  lemma NoFront(buf: string, b: string, u: Url)
    requires Divided(false, buf) && buf == b + Text(TailPieces(u))
    requires TailFor(u, UrlRun(START, b))
    ensures var r := UrlRank(UrlRun(START, b)); r == 0 || r > 4
  {
    hide Text, UrlRun, TailFor, TailPieces, UrlClasses, Present, ParseUrlChar, UrlRank;
    var k, t := |b|, UrlRun(START, b);
    assert buf[..k] == b;
    RankStart();
    if 1 <= UrlRank(t) <= 4 {
      assert b != [];
      if k < |buf| {
        TailBegins(u, t);
        assert buf[k] == Text(TailPieces(u))[0];
        StateNext(false, buf, k);
        ServerRank(t);
        ServerNext(t, buf[k]);
      }
      SchemaAlone(buf, k);
    }
  }

  lemma RankStart()
    ensures UrlRank(START) == 0 && UrlRun(START, []) == START
  {}

  lemma ServerRank(s: State)
    requires InServer(s) && UrlRank(s) <= 4
    ensures s.ReqServerStart?
  {}

  /** The accepted URLs with a host part. */
  lemma AbsoluteBack(buf: string, b: string, u0: Url) returns (u: Url)
    requires Accepted(false, buf) && buf == b + Text(TailPieces(u0))
    requires var t := UrlRun(START, b); TailFor(u0, t) && (t.ReqServer? || t.ReqServerWithAt?)
    ensures Legal(u) && Compose(u) == buf
  {
    hide Text, Labels, Goes, UrlRun, HostRun, AllClasses, UrlClasses, FoundAt, HostText, HostClasses, Present;
    hide IsUrlChar, LegalFragment, TailPieces, SchemePieces, AuthorityPieces, Component, IsAlpha, Shaped, Legal;
    var s := UrlRun(START, b);
    var scheme, v, at := ServerBack(b);
    var y, x := TailPieces(u0), SchemePieces(scheme);
    SchemeText(scheme);
    var t, c := FrontGoes(scheme, v, at, s, u0);
    assert buf == Text(x) + v + Text(y);
    GoesUrl(false, buf, c, at, t);
    assert c[|Labels(x)|] == Some(Host) by { LabelsLength(x); }
    assert HostEnd(false, buf).InHost? || HostEnd(false, buf).V6End? || HostEnd(false, buf).InPort? by {
      HostFound(buf, c, |Labels(x)|);
    }
    var a := AuthorityBack(at, v);
    u := u0.(front := Somewhere(scheme, a));
    assert TailPieces(u) == y by { SameTail(u0, u); }
    AuthorityClasses(a);
    FrontIs(u);
    PiecesJoin(x, AuthorityPieces(a));
    PiecesJoin(x + AuthorityPieces(a), y);
    PortOf(false, Pieces(u));
    PartComponent(u, Port);
    LegalNow(u, s);
  }

  lemma SameTail(u: Url, w: Url)
    requires w == u.(front := w.front)
    ensures TailPieces(u) == TailPieces(w)
  {}

  lemma SchemeText(scheme: string)
    ensures Text(SchemePieces(scheme)) == scheme + "://"
  {
    TwoPieces(scheme, Some(Schema), "://", None);
  }

  lemma HostFound(buf: string, c: Classes, k: nat)
    requires Divided(false, buf) && UrlClasses(false, buf) == c && k < |c| && c[k] == Some(Host)
    ensures HostEnd(false, buf).InHost? || HostEnd(false, buf).V6End? || HostEnd(false, buf).InPort?
  {
    hide UrlClasses, HostEnd;
  }

  lemma LegalNow(u: Url, s: State)
    requires u.front.Somewhere? && u.front.scheme != [] && All(u.front.scheme, IsAlpha)
    requires Shaped(u.front.auth) && Decimal(Part(u, Port)) <= 0xFFFF
    requires TailFor(u, s) && InServer(s)
    ensures Legal(u)
  {
    hide Shaped, IsAlpha, IsUrlChar, LegalFragment;
  }

  /** The first automaton over the three parts, and what both make of them. */
  lemma FrontGoes(scheme: string, v: string, at: bool, s: State, u0: Url) returns (t: State, c: Classes)
    requires scheme != [] && All(scheme, IsAlpha) && v != []
    requires Goes(ReqServerStart, v, Same(v, Some(Host)), at, s) && (s.ReqServer? || s.ReqServerWithAt?)
             && TailFor(u0, s)
    ensures var x, y := SchemePieces(scheme), TailPieces(u0); var buf := Text(x) + v + Text(y);
      && c == Labels(x) + Same(v, Some(Host)) + Labels(y)
      && Goes(START, buf, c, at, t)
      && HostText(false, buf) == v && FoundAt(false, buf) == at
      && AllClasses(false, buf) == Labels(x) + HostClasses(at, v) + Labels(y)
  {
    hide Text, Labels, Goes, AllClasses, FoundAt, HostText, HostClasses, IsUrlChar, LegalFragment, TailPieces;
    hide SchemePieces, IsAlpha;
    var u := u0.(front := Somewhere(scheme, Authority(None, RegName([]), None)));
    SameTail(u0, u);
    var x, y := SchemePieces(scheme), TailPieces(u);
    SchemeWalk(scheme);
    TailWalk(u, s);
    t := AfterFragment(u, s);
    c := Labels(x) + Same(v, Some(Host)) + Labels(y);
    GoesThen(START, Text(x), Labels(x), false, ReqServerStart, v, Same(v, Some(Host)), at, s);
    GoesThen(START, Text(x) + v, Labels(x) + Same(v, Some(Host)), at, s, Text(y), Labels(y), false, t);
    NoHostLabels(u);
    LabelsLength(x);
    LabelsLength(y);
    Relabelled(false, Text(x), v, Text(y), Labels(x), Labels(y), at, t);
  }

  /** `http_parser_parse_url` accepts a URL if and only if it is empty or printed
      from legal components. */
  lemma AcceptedIsComposed(buf: string)
    ensures Accepted(false, buf) <==> buf == [] || exists u: Url :: Legal(u) && Compose(u) == buf
  {
    hide Accepted, Legal, Compose;
    if buf == [] {
      EmptyAccepted();
    } else if Accepted(false, buf) {
      var u := AcceptedBack(buf);
    } else {
      forall u: Url | Legal(u) ensures Compose(u) != buf {
        LegalAccepted(u);
      }
    }
  }

  lemma LegalAccepted(u: Url)
    requires Legal(u)
    ensures Accepted(false, Compose(u))
  {
    hide Legal, Labels, Component, AllClasses, Text, Pieces, Accepted;
    if u.front.Nowhere? { OriginSplitsBack(u); } else { AbsoluteSplitsBack(u); }
  }

  lemma EmptyAccepted()
    ensures Accepted(false, [])
  {
    assert UrlClasses(false, []) == [];
    assert AllClassesOf(false, []) == [];
  }

  lemma AcceptedBack(buf: string) returns (u: Url)
    requires Accepted(false, buf) && buf != []
    ensures Legal(u) && Compose(u) == buf
  {
    hide UrlRun, Text, TailPieces, Legal, Compose, TailFor, UrlClasses, AllClasses, HostEnd;
    var b;
    b, u := TailBack(buf, Nowhere);
    var t := UrlRun(START, b);
    Reachable(b);
    if t.ReqSpacesBeforeUrl? {
      OriginBack(buf, b, u);
    } else if t.ReqServer? || t.ReqServerWithAt? {
      u := AbsoluteBack(buf, b, u);
    } else {
      NoFront(buf, b, u);
    }
  }
}
