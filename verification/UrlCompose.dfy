/** Printing a URL from its components and splitting it again (section 3 of RFC
    3986): every byte is found in the component that it was printed from. */
module UrlCompose {
  import opened Decimals
  import opened HttpTypes
  import opened Options
  import opened UrlParse
  import opened UrlPieces
  import opened UrlSpec
  import opened UrlWalk

  // ----- the whole URL -----

  lemma {:induction false} PickJoin(v: string, c: Classes, w: string, d: Classes, f: UrlField)
    requires |v| == |c| && |w| == |d|
    ensures Pick(v + w, c + d, f) == Pick(v, c, f) + Pick(w, d, f)
    decreases |w|
  {
    if w == [] {
      assert v + w == v && c + d == c;
    } else {
      var n := |w| - 1;
      PickJoin(v, c, w[..n], d[..n], f);
      assert (v + w)[..|v + w| - 1] == v + w[..n] && (c + d)[..|c + d| - 1] == c + d[..n];
    }
  }

  lemma {:induction false} PickSame(v: string, g: Option<UrlField>, f: UrlField)
    ensures Pick(v, Same(v, g), f) == if g == Some(f) then v else []
  {
    if v != [] {
      var n := |v| - 1;
      SameParts(v, g, n);
      PickSame(v[..n], g, f);
      hide Same;
      assert v[..n] + [v[n]] == v;
    }
  }

  lemma SameParts(v: string, g: Option<UrlField>, n: nat)
    requires n < |v|
    ensures Same(v, g)[..n] == Same(v[..n], g) && Same(v, g)[n] == g
  {}

  /** The text of the pieces that stand for `f`. */
  function Component(ps: seq<Piece>, f: UrlField): string {
    if ps == [] then []
    else Component(ps[..|ps| - 1], f) + (if ps[|ps| - 1].field == Some(f) then ps[|ps| - 1].text else [])
  }

  lemma {:induction false} PickPieces(ps: seq<Piece>, f: UrlField)
    ensures |Labels(ps)| == |Text(ps)| && Pick(Text(ps), Labels(ps), f) == Component(ps, f)
  {
    LabelsLength(ps);
    if ps != [] {
      var n := |ps| - 1;
      PickPieces(ps[..n], f);
      PickSame(ps[n].text, ps[n].field, f);
      PickJoin(Text(ps[..n]), Labels(ps[..n]), ps[n].text, Same(ps[n].text, ps[n].field), f);
    }
  }

  lemma {:induction false} FirstOfSkip(a: Classes, c: Classes, f: UrlField)
    requires Some(f) !in a
    ensures FirstOf(a + c, f) == |a| + FirstOf(c, f)
  {
    if a == [] {
      assert a + c == c;
    } else {
      assert (a + c)[1..] == a[1..] + c && (a + c)[0] == a[0];
      FirstOfSkip(a[1..], c, f);
    }
  }

  /** The host part lies between `x` and `y`: the second automaton relabels it. */
  lemma Relabelled(connect: bool, x: string, v: string, y: string, a: Classes, b: Classes, at: bool, t: State)
    requires |a| == |x| && |b| == |y| && v != [] && Some(Host) !in a && Some(Host) !in b
    requires Goes(StartState(connect), x + v + y, a + Same(v, Some(Host)) + b, at, t)
    ensures HostText(connect, x + v + y) == v
    ensures FoundAt(connect, x + v + y) == at
    ensures |HostClasses(at, v)| == |v|
    ensures AllClasses(connect, x + v + y) == a + HostClasses(at, v) + b
  {
    hide HostClasses, ClassesFrom, FoundFrom, UrlRun, FirstOf, Pick;
    var s := Same(v, Some(Host));
    PickJoin(x + v, a + s, y, b, Host);
    PickJoin(x, a, v, s, Host);
    PickAbsent(x, a);
    PickAbsent(y, b);
    PickSame(v, Some(Host), Host);
    HostClassesLength(at, v);
    FirstOfSkip(a, s + b, Host);
    assert a + s + b == a + (s + b);
    FirstOfHead(s + b);
  }

  lemma FirstOfHead(c: Classes)
    requires c != [] && c[0] == Some(Host)
    ensures FirstOf(c, Host) == 0
  {}

  lemma PickAbsent(v: string, c: Classes)
    requires |v| == |c| && Some(Host) !in c
    ensures Pick(v, c, Host) == []
  {
    PickNone(Host, v, c);
  }

  lemma NoHostPart(connect: bool, v: string, c: Classes, t: State)
    requires Goes(StartState(connect), v, c, false, t) && Some(Host) !in c
    ensures AllClasses(connect, v) == c
  {
    hide ClassesFrom, FoundFrom, UrlRun, FirstOf, Pick, HostClasses;
  }

  // ----- the components -----

  function HostNameOf(h: HostName): string {
    match h
    case RegName(name) => name
    case V6Address(address, None) => address
    case V6Address(address, Some(zone)) => address + "%" + zone
  }

  function AuthorityPart(a: Authority, f: UrlField): string {
    match f
    case Userinfo => Or(a.userinfo)
    case Host => HostNameOf(a.host)
    case Port => Or(a.port)
    case _ => []
  }

  /** The text that `u` has for a field; empty where it has none. */
  function Part(u: Url, f: UrlField): string {
    match f
    case Schema => if u.front.Somewhere? then u.front.scheme else []
    case Path => u.path
    case Query => Or(u.query)
    case Fragment => Or(u.fragment)
    case _ => if u.front.Somewhere? then AuthorityPart(u.front.auth, f) else []
  }

  lemma {:induction false} ComponentJoin(p: seq<Piece>, q: seq<Piece>, f: UrlField)
    ensures Component(p + q, f) == Component(p, f) + Component(q, f)
  {
    if q == [] {
      assert p + q == p;
    } else {
      var n := |q| - 1;
      ComponentJoin(p, q[..n], f);
      assert (p + q)[..|p + q| - 1] == p + q[..n] && (p + q)[|p + q| - 1] == q[n];
    }
  }

  lemma ComponentOne(v: string, g: Option<UrlField>, f: UrlField)
    ensures Component([Piece(v, g)], f) == if g == Some(f) then v else []
  {
    var ps := [Piece(v, g)];
    assert ps[..|ps| - 1] == [] && Component([], f) == [];
  }

  lemma ComponentTwo(v: string, g: Option<UrlField>, w: string, h: Option<UrlField>, f: UrlField)
    ensures Component([Piece(v, g), Piece(w, h)], f)
            == (if g == Some(f) then v else []) + (if h == Some(f) then w else [])
  {
    ComponentOne(v, g, f);
    ComponentOne(w, h, f);
    ComponentJoin([Piece(v, g)], [Piece(w, h)], f);
    assert [Piece(v, g), Piece(w, h)] == [Piece(v, g)] + [Piece(w, h)];
  }

  lemma HostComponent(h: HostName, f: UrlField)
    ensures Component(HostPieces(h), f) == if f == Host then HostNameOf(h) else []
  {
    hide Component;
    match h {
      case RegName(name) => ComponentOne(name, Some(Host), f);
      case V6Address(address, zone) =>
        var b := [Piece("[", None), Piece(address, Some(Host))];
        ComponentTwo("[", None, address, Some(Host), f);
        ComponentOne("]", None, f);
        if zone.None? {
          ComponentJoin(b, [Piece("]", None)], f);
          assert HostPieces(h) == b + [Piece("]", None)];
        } else {
          var z := [Piece("%", Some(Host)), Piece(zone.value, Some(Host))];
          ComponentTwo("%", Some(Host), zone.value, Some(Host), f);
          ComponentJoin(b, z, f);
          ComponentJoin(b + z, [Piece("]", None)], f);
          assert HostPieces(h) == b + z + [Piece("]", None)];
        }
    }
  }

  lemma AuthorityComponent(a: Authority, f: UrlField)
    ensures Component(AuthorityPieces(a), f) == AuthorityPart(a, f)
  {
    hide Component, HostPieces, HostNameOf;
    ComponentNone(f);
    HostComponent(a.host, f);
    if a.userinfo.Some? { ComponentTwo(a.userinfo.value, Some(Userinfo), "@", None, f); }
    if a.port.Some? { ComponentTwo(":", None, a.port.value, Some(Port), f); }
    ComponentJoin(UserinfoPieces(a), HostPieces(a.host), f);
    ComponentJoin(UserinfoPieces(a) + HostPieces(a.host), PortPieces(a), f);
  }

  lemma ComponentNone(f: UrlField)
    ensures Component([], f) == []
  {}

  /** Each field's text is the component it was printed from. */
  lemma PartComponent(u: Url, f: UrlField)
    ensures Component(Pieces(u), f) == Part(u, f)
  {
    hide Component, AuthorityPieces, AuthorityPart;
    ComponentNone(f);
    var p := [Piece(u.path, Some(Path))];
    ComponentOne(u.path, Some(Path), f);
    if u.query.Some? { ComponentTwo("?", None, u.query.value, Some(Query), f); }
    if u.fragment.Some? { ComponentTwo(Hashes(u.hashes + 1), None, u.fragment.value, Some(Fragment), f); }
    ComponentJoin(p, QueryPieces(u), f);
    ComponentJoin(p + QueryPieces(u), FragmentPieces(u), f);
    if u.front.Somewhere? {
      ComponentTwo(u.front.scheme, Some(Schema), "://", None, f);
      AuthorityComponent(u.front.auth, f);
      if f !in {Userinfo, Host, Port} { NotInAuthority(u.front.auth, f); }
      ComponentJoin(SchemePieces(u.front.scheme), AuthorityPieces(u.front.auth), f);
    }
    ComponentJoin(FrontPieces(u.front), TailPieces(u), f);
  }

  lemma NotInAuthority(a: Authority, f: UrlField)
    requires f !in {Userinfo, Host, Port}
    ensures AuthorityPart(a, f) == []
  {}

  lemma {:induction false} LabelOf(ps: seq<Piece>, f: UrlField)
    requires forall k :: 0 <= k < |ps| ==> ps[k].field != Some(f)
    ensures Some(f) !in Labels(ps)
  {
    if ps != [] { LabelOf(ps[..|ps| - 1], f); }
  }

  // ----- the round trip -----

  function TailStart(u: Url): State { if u.front.Nowhere? then ReqSpacesBeforeUrl else ReqServer }

  /** What splitting the printed URL finds: the components and their places. */
  predicate SplitsBack(connect: bool, v: string, ps: seq<Piece>) {
    && Accepted(connect, v) && AllClassesOf(connect, v) == Labels(ps)
    && PortValue(connect, v) == Decimal(Component(ps, Port))
  }

  lemma PortOf(connect: bool, ps: seq<Piece>)
    requires AllClassesOf(connect, Text(ps)) == Labels(ps)
    ensures PortValue(connect, Text(ps)) == Decimal(Component(ps, Port))
  {
    hide AllClasses;
    PickPieces(ps, Port);
  }

  lemma OriginSplitsBack(u: Url)
    requires Legal(u) && u.front.Nowhere?
    ensures SplitsBack(false, Compose(u), Pieces(u))
  {
    hide Goes, Labels, Component, Pick, AllClasses, Text, FoundAt, HostRun, HostText;
    var v := Compose(u);
    assert Pieces(u) == TailPieces(u);
    TailWalk(u, TailStart(u));
    LabelOf(TailPieces(u), Host);
    LabelOf(TailPieces(u), Schema);
    NoHostPart(false, v, Labels(Pieces(u)), AfterFragment(u, TailStart(u)));
    GoesUrl(false, v, Labels(Pieces(u)), false, AfterFragment(u, TailStart(u)));
    PortOf(false, Pieces(u));
    PartComponent(u, Port);
  }

  lemma GoesUrl(connect: bool, v: string, c: Classes, at: bool, t: State)
    requires Goes(StartState(connect), v, c, at, t)
    ensures UrlClasses(connect, v) == c && UrlRun(StartState(connect), v) == t && !t.Dead? && FoundAt(connect, v) == at
  {
    hide UrlRun, ClassesFrom, FoundFrom;
  }

  lemma AbsoluteGoes(u: Url)
    requires Legal(u) && u.front.Somewhere?
    ensures var x, v, y := SchemePieces(u.front.scheme), Text(AuthorityPieces(u.front.auth)), TailPieces(u);
      && v != [] && Compose(u) == Text(x) + v + Text(y)
      && Goes(ReqSpacesBeforeUrl, Text(x) + v + Text(y), Labels(x) + Same(v, Some(Host)) + Labels(y),
              u.front.auth.userinfo.Some?, AfterFragment(u, TailStart(u)))
  {
    hide Shaped, LegalPath, LegalFragment, Goes, Labels, Text, SchemePieces, AuthorityPieces, TailPieces;
    var x, a, y := SchemePieces(u.front.scheme), u.front.auth, TailPieces(u);
    var v := Text(AuthorityPieces(a));
    SchemeWalk(u.front.scheme);
    AuthorityGoes(a);
    TailWalk(u, TailStart(u));
    GoesThen(ReqSpacesBeforeUrl, Text(x), Labels(x), false, ReqServerStart, v, Same(v, Some(Host)), a.userinfo.Some?,
      ReqServer);
    GoesThen(ReqSpacesBeforeUrl, Text(x) + v, Labels(x) + Same(v, Some(Host)), a.userinfo.Some?, ReqServer, Text(y),
      Labels(y), false, AfterFragment(u, TailStart(u)));
    FrontIs(u);
    PiecesJoin(x, AuthorityPieces(a));
    PiecesJoin(x + AuthorityPieces(a), y);
  }

  lemma FrontIs(u: Url)
    requires u.front.Somewhere?
    ensures Pieces(u) == SchemePieces(u.front.scheme) + AuthorityPieces(u.front.auth) + TailPieces(u)
  {
    hide AuthorityPieces, TailPieces;
  }

  lemma AbsoluteSplitsBack(u: Url)
    requires Legal(u) && u.front.Somewhere?
    ensures SplitsBack(false, Compose(u), Pieces(u))
  {
    hide LegalPath, LegalFragment, LegalHost, Goes, Labels, Component, Pick, AllClasses, Text, FoundAt, HostRun;
    hide HostText, SchemePieces, AuthorityPieces, TailPieces, UrlRun, UrlClasses, HostClasses;
    var x, a, y := SchemePieces(u.front.scheme), u.front.auth, TailPieces(u);
    var v, at := Text(AuthorityPieces(a)), a.userinfo.Some?;
    var c := Labels(x) + Same(v, Some(Host)) + Labels(y);
    AbsoluteGoes(u);
    NoHostLabels(u);
    LabelsLength(x);
    LabelsLength(y);
    Relabelled(false, Text(x), v, Text(y), Labels(x), Labels(y), at, AfterFragment(u, TailStart(u)));
    AuthorityWalk(a);
    AuthorityClasses(a);
    GoesUrl(false, Compose(u), c, at, AfterFragment(u, TailStart(u)));
    FrontIs(u);
    PiecesJoin(x, AuthorityPieces(a));
    PiecesJoin(x + AuthorityPieces(a), y);
    assert c[|Labels(x)|] == Some(Host);
    PortOf(false, Pieces(u));
    PartComponent(u, Port);
  }

  lemma AuthorityClasses(a: Authority)
    requires Shaped(a)
    ensures var v, at := Text(AuthorityPieces(a)), a.userinfo.Some?;
      && HostClasses(at, v) == Labels(AuthorityPieces(a))
      && HostRun(HostStartState(at), v) == AuthorityEnd(a)
      && (AuthorityEnd(a).InHost? || AuthorityEnd(a).V6End? || AuthorityEnd(a).InPort?)
  {
    hide Shaped, Text, Labels, HostRun, HostClassesFrom, AuthorityPieces;
    AuthorityWalk(a);
  }

  lemma NoHostLabels(u: Url)
    requires u.front.Somewhere?
    ensures Some(Host) !in Labels(SchemePieces(u.front.scheme)) && Some(Host) !in Labels(TailPieces(u))
  {
    LabelOf(SchemePieces(u.front.scheme), Host);
    LabelOf(TailPieces(u), Host);
  }

  /** Compose, then parse, is the identity: `http_parser_parse_url` accepts every
      printed URL, and the fields it sets are the non-empty components, each at the
      bytes printed for it. */
  lemma ComposedSplitsBack(u: Url, r: Fields)
    requires Legal(u) && Exact(r, 0, AllClassesOf(false, Compose(u)))
    ensures Accepted(false, Compose(u))
    ensures AllClassesOf(false, Compose(u)) == Labels(Pieces(u))
    ensures forall f: UrlField :: f in r <==> Part(u, f) != []
    ensures forall f: UrlField :: f in r ==>
              r[f].off + r[f].len <= |Compose(u)| && Compose(u)[r[f].off..r[f].off + r[f].len] == Part(u, f)
    ensures PortValue(false, Compose(u)) == Decimal(Part(u, Port))
  {
    hide Legal, Labels, Component, Pick, AllClasses, Text, Pieces, Accepted;
    if u.front.Nowhere? { OriginSplitsBack(u); } else { AbsoluteSplitsBack(u); }
    PartComponent(u, Port);
    var v, c := Compose(u), AllClassesOf(false, Compose(u));
    forall f: UrlField
      ensures f in r <==> Part(u, f) != []
      ensures f in r ==> r[f].off + r[f].len <= |v| && v[r[f].off..r[f].off + r[f].len] == Part(u, f)
    {
      PartComponent(u, f);
      PickPieces(Pieces(u), f);
      assert ExactSpan(r, f, 0, c);
      PickExact(r, f, v, c);
    }
  }
}
