/** Both URL automata over printed pieces. */
module UrlWalk {
  import opened Decimals
  import opened HttpTypes
  import opened Options
  import opened UrlSpec
  import opened UrlPieces

  // ----- the first automaton over a text -----

  /** From `s` the automaton reads `v` to state `t`, labelling it `c`; an `@` is
      met or not. */
  predicate Goes(s: State, v: string, c: Classes, at: bool, t: State) {
    UrlRun(s, v) == t && ClassesFrom(s, v) == c && FoundFrom(s, v) == at && !t.Dead?
  }

  lemma {:induction false} GoesThen(s: State, v: string, c: Classes, a: bool, t: State, w: string, d: Classes,
                                    b: bool, u: State)
    requires Goes(s, v, c, a, t) && Goes(t, w, d, b, u)
    ensures Goes(s, v + w, c + d, a || b, u)
    decreases |w|
  {
    hide ParseUrlChar, FieldOf;
    if w == [] {
      assert v + w == v && c + d == c;
    } else {
      var n := |w| - 1;
      var x := w[..n];
      assert (v + w)[..|v + w| - 1] == v + x;
      UrlRunAlive(t, w);
      GoesThen(s, v, c, a, t, x, ClassesFrom(t, x), FoundFrom(t, x), UrlRun(t, x));
      assert c + (ClassesFrom(t, x) + [FieldOf(u)]) == (c + ClassesFrom(t, x)) + [FieldOf(u)];
    }
  }

  lemma UrlRunAlive(s: State, v: string)
    requires v != [] && !UrlRun(s, v).Dead?
    ensures !UrlRun(s, v[..|v| - 1]).Dead?
  {
    hide IsUrlChar, IsAlpha, IsUserinfoChar;
  }

  lemma GoesOne(s: State, ch: char, t: State)
    requires ParseUrlChar(s, ch) == t && !t.Dead?
    ensures Goes(s, [ch], [FieldOf(t)], t.ReqServerWithAt?, t)
  {
    hide ParseUrlChar, FieldOf;
    var v := [ch];
    assert v[..|v| - 1] == [] && v[|v| - 1] == ch;
    assert UrlRun(s, []) == s && ClassesFrom(s, []) == [] && !FoundFrom(s, []);
    assert UrlRun(s, v) == t;
  }

  /** A text every byte of which leads to `t` and stays there. */
  lemma {:induction false} GoesRun(s: State, v: string, t: State)
    requires v != [] && !t.Dead? && !t.ReqServerWithAt?
    requires ParseUrlChar(s, v[0]) == t
    requires forall i :: 0 < i < |v| ==> ParseUrlChar(t, v[i]) == t
    ensures Goes(s, v, Same(v, FieldOf(t)), false, t)
    decreases |v|
  {
    hide ParseUrlChar, FieldOf;
    var n := |v| - 1;
    if n == 0 {
      GoesOne(s, v[0], t);
      assert v == [v[0]] && Same(v, FieldOf(t)) == [FieldOf(t)];
    } else {
      var x := v[..n];
      GoesRun(s, x, t);
      GoesOne(t, v[n], t);
      GoesThen(s, x, Same(x, FieldOf(t)), false, t, [v[n]], [FieldOf(t)], false, t);
      assert x + [v[n]] == v && Same(x, FieldOf(t)) + [FieldOf(t)] == Same(v, FieldOf(t));
    }
  }

  lemma GoesNowhere(s: State)
    requires !s.Dead?
    ensures Goes(s, [], [], false, s)
  {}

  // ----- the second automaton over a text -----

  predicate HostGoes(s: HostState, v: string, c: Classes, t: HostState) {
    HostRun(s, v) == t && HostClassesFrom(s, v) == c && !t.HostDead?
  }

  lemma {:induction false} HostGoesThen(s: HostState, v: string, c: Classes, t: HostState, w: string, d: Classes,
                                        u: HostState)
    requires HostGoes(s, v, c, t) && HostGoes(t, w, d, u)
    ensures HostGoes(s, v + w, c + d, u)
    decreases |w|
  {
    hide HostFieldOf;
    if w == [] {
      assert v + w == v && c + d == c;
    } else {
      var n := |w| - 1;
      var x := w[..n];
      assert (v + w)[..|v + w| - 1] == v + x;
      HostRunAlive(t, w);
      HostGoesThen(s, v, c, t, x, HostClassesFrom(t, x), HostRun(t, x));
      assert c + (HostClassesFrom(t, x) + [HostFieldOf(u)]) == (c + HostClassesFrom(t, x)) + [HostFieldOf(u)];
    }
  }

  lemma HostRunAlive(s: HostState, v: string)
    requires v != [] && !HostRun(s, v).HostDead?
    ensures !HostRun(s, v[..|v| - 1]).HostDead?
  {}

  lemma HostGoesOne(s: HostState, ch: char, t: HostState)
    requires HostChar(s, ch) == t && !t.HostDead?
    ensures HostGoes(s, [ch], [HostFieldOf(t)], t)
  {
    hide HostChar, HostFieldOf;
    var v := [ch];
    assert v[..0] == [] && HostRun(s, []) == s && HostClassesFrom(s, []) == [];
  }

  lemma {:induction false} HostGoesRun(s: HostState, v: string, t: HostState)
    requires v != [] && !t.HostDead?
    requires HostChar(s, v[0]) == t
    requires forall i :: 0 < i < |v| ==> HostChar(t, v[i]) == t
    ensures HostGoes(s, v, Same(v, HostFieldOf(t)), t)
    decreases |v|
  {
    hide HostChar, HostFieldOf;
    var n := |v| - 1;
    if n == 0 {
      HostGoesOne(s, v[0], t);
      assert v == [v[0]] && Same(v, HostFieldOf(t)) == [HostFieldOf(t)];
    } else {
      var x := v[..n];
      HostGoesRun(s, x, t);
      HostGoesOne(t, v[n], t);
      HostGoesThen(s, x, Same(x, HostFieldOf(t)), t, [v[n]], [HostFieldOf(t)], t);
      assert x + [v[n]] == v && Same(x, HostFieldOf(t)) + [HostFieldOf(t)] == Same(v, HostFieldOf(t));
    }
  }

  // ----- walking over pieces -----

  predicate Walk(s: State, ps: seq<Piece>, at: bool, t: State) { Goes(s, Text(ps), Labels(ps), at, t) }

  predicate HostWalk(s: HostState, ps: seq<Piece>, t: HostState) { HostGoes(s, Text(ps), Labels(ps), t) }

  lemma OnePiece(v: string, f: Option<UrlField>)
    ensures Text([Piece(v, f)]) == v && Labels([Piece(v, f)]) == Same(v, f)
  {
    var ps := [Piece(v, f)];
    assert ps[..|ps| - 1] == [] && Text([]) == [] && Labels([]) == [];
  }

  lemma WalkThen(s: State, p: seq<Piece>, a: bool, t: State, q: seq<Piece>, b: bool, u: State)
    requires Walk(s, p, a, t) && Walk(t, q, b, u)
    ensures Walk(s, p + q, a || b, u)
  {
    hide Goes, Text, Labels;
    PiecesJoin(p, q);
    GoesThen(s, Text(p), Labels(p), a, t, Text(q), Labels(q), b, u);
  }

  lemma HostWalkThen(s: HostState, p: seq<Piece>, t: HostState, q: seq<Piece>, u: HostState)
    requires HostWalk(s, p, t) && HostWalk(t, q, u)
    ensures HostWalk(s, p + q, u)
  {
    hide HostGoes, Text, Labels;
    PiecesJoin(p, q);
    HostGoesThen(s, Text(p), Labels(p), t, Text(q), Labels(q), u);
  }

  /** A piece that may be empty. */
  lemma WalkRun(s: State, v: string, f: UrlField, t: State)
    requires !s.Dead? && !t.Dead? && !t.ReqServerWithAt? && FieldOf(t) == Some(f)
    requires v != [] ==> ParseUrlChar(s, v[0]) == t
    requires forall i :: 0 < i < |v| ==> ParseUrlChar(t, v[i]) == t
    ensures Walk(s, [Piece(v, Some(f))], false, if v == [] then s else t)
  {
    hide ParseUrlChar, FieldOf, Goes, Text, Labels;
    OnePiece(v, Some(f));
    if v == [] { GoesNowhere(s); } else { GoesRun(s, v, t); }
  }

  lemma WalkMark(s: State, ch: char, t: State)
    requires ParseUrlChar(s, ch) == t && !t.Dead? && FieldOf(t) == None && !t.ReqServerWithAt?
    ensures Walk(s, [Piece([ch], None)], false, t)
  {
    hide ParseUrlChar, FieldOf, Goes, Text, Labels;
    OnePiece([ch], None);
    GoesOne(s, ch, t);
    assert Same([ch], None) == [None];
  }

  lemma HostWalkRun(s: HostState, v: string, f: UrlField, t: HostState)
    requires !s.HostDead? && !t.HostDead? && HostFieldOf(t) == Some(f)
    requires v != [] ==> HostChar(s, v[0]) == t
    requires forall i :: 0 < i < |v| ==> HostChar(t, v[i]) == t
    ensures HostWalk(s, [Piece(v, Some(f))], if v == [] then s else t)
  {
    hide HostChar, HostFieldOf, Text, Labels;
    OnePiece(v, Some(f));
    if v != [] { HostGoesRun(s, v, t); }
  }

  lemma HostWalkMark(s: HostState, ch: char, f: Option<UrlField>, t: HostState)
    requires HostChar(s, ch) == t && !t.HostDead? && HostFieldOf(t) == f
    ensures HostWalk(s, [Piece([ch], f)], t)
  {
    hide HostChar, HostFieldOf, HostGoes, Text, Labels;
    OnePiece([ch], f);
    HostGoesOne(s, ch, t);
    assert Same([ch], f) == [f];
  }

  lemma HostStay(s: HostState)
    requires !s.HostDead?
    ensures HostWalk(s, [], s)
  {}

  lemma Stay(s: State)
    requires !s.Dead?
    ensures Walk(s, [], false, s)
  {}

  // ----- the authority, by the second automaton -----

  function HostNameEnd(h: HostName): HostState { if h.RegName? then InHost else V6End }

  lemma HostNameWalk(h: HostName)
    requires LegalHost(h)
    ensures HostWalk(HostStart, HostPieces(h), HostNameEnd(h))
  {
    hide HostGoes, Text, Labels, HostWalk, IsHostChar, IsZoneChar, IsHex;
    match h {
      case RegName(name) =>
        forall i | 0 <= i < |name| ensures HostChar(HostStart, name[i]) == InHost == HostChar(InHost, name[i]) {
          HostCharOf(name[i]);
        }
        HostWalkRun(HostStart, name, Host, InHost);
      case V6Address(address, zone) =>
        HostWalkMark(HostStart, '[', None, V6Start);
        forall i | 0 <= i < |address| ensures HostChar(V6Start, address[i]) == V6 == HostChar(V6, address[i]) {
          V6CharOf(address[i]);
        }
        HostWalkRun(V6Start, address, Host, V6);
        var b, d, e := [Piece("[", None)], [Piece(address, Some(Host))], [Piece("]", None)];
        HostWalkThen(HostStart, b, V6Start, d, V6);
        if zone.None? {
          HostWalkMark(V6, ']', None, V6End);
          HostWalkThen(HostStart, b + d, V6, e, V6End);
          assert HostPieces(h) == b + d + e;
        } else {
          ZoneWalk(zone.value);
          var z := ZonePieces(zone.value);
          HostWalkThen(HostStart, b + d, V6, z, V6End);
          assert HostPieces(h) == b + d + z;
        }
    }
  }

  function ZonePieces(zone: string): seq<Piece> { [Piece("%", Some(Host)), Piece(zone, Some(Host)), Piece("]", None)] }

  lemma ZoneWalk(zone: string)
    requires zone != [] && All(zone, IsZoneChar)
    ensures HostWalk(V6, ZonePieces(zone), V6End)
  {
    hide HostGoes, Text, Labels, HostWalk, IsZoneChar;
    HostWalkMark(V6, '%', Some(Host), ZoneStart);
    forall i | 0 <= i < |zone| ensures HostChar(ZoneStart, zone[i]) == Zone == HostChar(Zone, zone[i]) {
      ZoneCharOf(zone[i]);
    }
    HostWalkRun(ZoneStart, zone, Host, Zone);
    HostWalkMark(Zone, ']', None, V6End);
    var p, z, e := [Piece("%", Some(Host))], [Piece(zone, Some(Host))], [Piece("]", None)];
    HostWalkThen(V6, p, ZoneStart, z, Zone);
    HostWalkThen(V6, p + z, Zone, e, V6End);
    assert ZonePieces(zone) == p + z + e;
  }

  lemma HostCharOf(ch: char)
    requires IsHostChar(ch)
    ensures HostChar(HostStart, ch) == InHost && HostChar(InHost, ch) == InHost
  {}

  lemma V6CharOf(ch: char)
    requires IsHex(ch) || ch == ':' || ch == '.'
    ensures HostChar(V6Start, ch) == V6 && HostChar(V6, ch) == V6
  {}

  lemma ZoneCharOf(ch: char)
    requires IsZoneChar(ch)
    ensures HostChar(ZoneStart, ch) == Zone && HostChar(Zone, ch) == Zone
  {}

  lemma UserinfoCharOf(ch: char)
    requires IsUserinfoChar(ch)
    ensures HostChar(UserinfoStart, ch) == InUserinfo && HostChar(InUserinfo, ch) == InUserinfo
  {}

  function AuthorityEnd(a: Authority): HostState { if a.port.Some? then InPort else HostNameEnd(a.host) }

  lemma AuthorityWalk(a: Authority)
    requires Shaped(a)
    ensures HostWalk(HostStartState(a.userinfo.Some?), AuthorityPieces(a), AuthorityEnd(a))
  {
    hide HostGoes, Text, Labels, HostWalk, IsHostChar, IsZoneChar, IsHex, HostPieces, LegalHost;
    UserinfoWalk(a);
    HostNameWalk(a.host);
    PortWalk(a);
    var s, e := HostStartState(a.userinfo.Some?), HostNameEnd(a.host);
    HostWalkThen(s, UserinfoPieces(a), HostStart, HostPieces(a.host), e);
    HostWalkThen(s, UserinfoPieces(a) + HostPieces(a.host), e, PortPieces(a), AuthorityEnd(a));
  }

  lemma UserinfoWalk(a: Authority)
    requires Shaped(a)
    ensures HostWalk(HostStartState(a.userinfo.Some?), UserinfoPieces(a), HostStart)
  {
    hide Text, Labels, LegalHost, IsUserinfoChar, IsHostChar;
    if a.userinfo.Some? {
      var v := a.userinfo.value;
      forall i | 0 <= i < |v| ensures HostChar(UserinfoStart, v[i]) == InUserinfo == HostChar(InUserinfo, v[i]) {
        UserinfoCharOf(v[i]);
      }
      HostWalkRun(UserinfoStart, v, Userinfo, InUserinfo);
      var s := if v == [] then UserinfoStart else InUserinfo;
      HostWalkMark(s, '@', None, HostStart);
      HostWalkThen(UserinfoStart, [Piece(v, Some(Userinfo))], s, [Piece("@", None)], HostStart);
      assert UserinfoPieces(a) == [Piece(v, Some(Userinfo))] + [Piece("@", None)];
    } else {
      HostStay(HostStart);
    }
  }

  lemma PortWalk(a: Authority)
    requires Shaped(a)
    ensures HostWalk(HostNameEnd(a.host), PortPieces(a), AuthorityEnd(a))
  {
    hide Text, Labels, LegalHost, IsUserinfoChar, IsHostChar;
    if a.port.Some? {
      var s, v := HostNameEnd(a.host), a.port.value;
      assert HostChar(s, ':') == PortStart by { assert !IsHostChar(':') by { ColonIsNoHostChar(); } }
      HostWalkMark(s, ':', None, PortStart);
      HostWalkRun(PortStart, v, Port, InPort);
      HostWalkThen(s, [Piece(":", None)], PortStart, [Piece(v, Some(Port))], InPort);
      assert PortPieces(a) == [Piece(":", None)] + [Piece(v, Some(Port))];
    } else {
      HostStay(HostNameEnd(a.host));
    }
  }

  lemma ColonIsNoHostChar()
    ensures !IsHostChar(':')
  {}

  // ----- the authority, by the first automaton -----

  /** It takes all of the authority for the host. */
  predicate ServerText(v: string) { forall i :: 0 <= i < |v| ==> IsUserinfoChar(v[i]) || v[i] == '[' || v[i] == ']' }

  lemma ServerCharOf(s: State, ch: char)
    requires IsUserinfoChar(ch) || ch == '[' || ch == ']'
    requires s.ReqServerStart? || s.ReqServer? || s.ReqServerWithAt?
    ensures ParseUrlChar(s, ch) == ReqServer
  {}

  lemma HostNameText(h: HostName)
    requires LegalHost(h)
    ensures ServerText(Text(HostPieces(h))) && Text(HostPieces(h)) != []
  {
    hide IsUserinfoChar, IsHostChar, IsZoneChar, IsHex;
    match h {
      case RegName(name) => OnePiece(name, Some(Host)); HostCharsServe(name);
      case V6Address(address, zone) =>
        var b := [Piece("[", None), Piece(address, Some(Host))];
        TwoPieces("[", None, address, Some(Host));
        V6CharsServe(address);
        OnePiece("]", None);
        if zone.None? {
          PiecesJoin(b, [Piece("]", None)]);
          assert HostPieces(h) == b + [Piece("]", None)];
        } else {
          var z := [Piece("%", Some(Host)), Piece(zone.value, Some(Host))];
          TwoPieces("%", Some(Host), zone.value, Some(Host));
          PercentServes();
          ZoneCharsServe(zone.value);
          PiecesJoin(b, z);
          PiecesJoin(b + z, [Piece("]", None)]);
          assert HostPieces(h) == b + z + [Piece("]", None)];
        }
    }
  }

  lemma TwoPieces(v: string, f: Option<UrlField>, w: string, g: Option<UrlField>)
    ensures Text([Piece(v, f), Piece(w, g)]) == v + w
    ensures Labels([Piece(v, f), Piece(w, g)]) == Same(v, f) + Same(w, g)
  {
    OnePiece(v, f);
    OnePiece(w, g);
    PiecesJoin([Piece(v, f)], [Piece(w, g)]);
    assert [Piece(v, f), Piece(w, g)] == [Piece(v, f)] + [Piece(w, g)];
  }

  lemma HostCharsServe(v: string)
    requires All(v, IsHostChar)
    ensures ServerText(v)
  {}

  lemma V6CharsServe(v: string)
    requires All(v, c => IsHex(c) || c == ':' || c == '.')
    ensures ServerText(v)
  {}

  lemma ZoneCharsServe(v: string)
    requires All(v, IsZoneChar)
    ensures ServerText(v)
  {}

  lemma DigitsServe(v: string)
    requires AllDigits(v)
    ensures ServerText(v)
  {}

  lemma PercentServes()
    ensures IsUserinfoChar('%') && IsUserinfoChar(':')
  {}

  /** What follows the user info. */
  function PlainPieces(a: Authority): seq<Piece> { HostPieces(a.host) + PortPieces(a) }

  lemma PlainText(a: Authority)
    requires Shaped(a)
    ensures ServerText(Text(PlainPieces(a))) && Text(PlainPieces(a)) != []
  {
    hide IsUserinfoChar, LegalHost, HostPieces;
    HostNameText(a.host);
    PiecesJoin(HostPieces(a.host), PortPieces(a));
    if a.port.Some? {
      TwoPieces(":", None, a.port.value, Some(Port));
      DigitsServe(a.port.value);
      PercentServes();
    }
  }

  lemma SameJoin(v: string, w: string, f: Option<UrlField>)
    ensures Same(v, f) + Same(w, f) == Same(v + w, f)
  {}

  lemma UserinfoGoes(v: string)
    requires ServerText(v)
    ensures Goes(ReqServerStart, v + "@", Same(v + "@", Some(Host)), true, ReqServerWithAt)
  {
    hide IsUserinfoChar, Goes;
    var s := if v == [] then ReqServerStart else ReqServer;
    if v == [] {
      GoesNowhere(s);
      assert Same(v, Some(Host)) == [];
    } else {
      ServerGoes(ReqServerStart, v);
    }
    assert Goes(ReqServerStart, v, Same(v, Some(Host)), false, s);
    GoesOne(s, '@', ReqServerWithAt);
    assert Same("@", Some(Host)) == [Some(Host)];
    GoesThen(ReqServerStart, v, Same(v, Some(Host)), false, s, "@", [Some(Host)], true, ReqServerWithAt);
    SameJoin(v, "@", Some(Host));
  }

  lemma AuthorityGoes(a: Authority)
    requires Shaped(a)
    ensures var v := Text(AuthorityPieces(a));
      v != [] && Goes(ReqServerStart, v, Same(v, Some(Host)), a.userinfo.Some?, ReqServer)
  {
    hide IsUserinfoChar, LegalHost, HostPieces, Goes, Text;
    var w := Text(PlainPieces(a));
    PlainText(a);
    if a.userinfo.None? {
      ServerGoes(ReqServerStart, w);
      assert AuthorityPieces(a) == PlainPieces(a);
    } else {
      var v := a.userinfo.value;
      TwoPieces(v, Some(Userinfo), "@", None);
      PiecesJoin(UserinfoPieces(a), PlainPieces(a));
      assert AuthorityPieces(a) == UserinfoPieces(a) + PlainPieces(a);
      UserinfoGoes(v);
      ServerGoes(ReqServerWithAt, w);
      GoesThen(ReqServerStart, v + "@", Same(v + "@", Some(Host)), true, ReqServerWithAt, w, Same(w, Some(Host)), false,
        ReqServer);
      SameJoin(v + "@", w, Some(Host));
    }
  }

  lemma ServerGoes(s: State, v: string)
    requires s.ReqServerStart? || s.ReqServerWithAt?
    requires v != [] && ServerText(v)
    ensures Goes(s, v, Same(v, Some(Host)), false, ReqServer)
  {
    hide ParseUrlChar, Goes, IsUserinfoChar;
    forall i | 0 <= i < |v| ensures ParseUrlChar(s, v[i]) == ReqServer == ParseUrlChar(ReqServer, v[i]) {
      ServerCharOf(s, v[i]);
      ServerCharOf(ReqServer, v[i]);
    }
    GoesRun(s, v, ReqServer);
  }

  // ----- the rest, by the first automaton -----

  /** The states in which the path may begin. */
  predicate BeforePath(u: Url, s: State) {
    if u.front.Nowhere? then s.ReqSpacesBeforeUrl? else s.ReqServer? || s.ReqServerWithAt?
  }

  function AfterPath(u: Url, s: State): State { if u.path == [] then s else ReqPath }

  function AfterQuery(u: Url, s: State): State {
    if u.query.None? then AfterPath(u, s) else if u.query.value == [] then ReqQueryStringStart else ReqQueryString
  }

  function AfterFragment(u: Url, s: State): State {
    if u.fragment.None? then AfterQuery(u, s) else if u.fragment.value == [] then ReqFragmentStart else ReqFragment
  }

  lemma PathCharOf(s: State, ch: char)
    ensures IsUrlChar(ch) ==> ParseUrlChar(ReqPath, ch) == ReqPath
    ensures (s.ReqSpacesBeforeUrl? && ch in "/*") || ((s.ReqServer? || s.ReqServerWithAt?) && ch == '/') ==>
              ParseUrlChar(s, ch) == ReqPath
  {}

  lemma PathWalk(u: Url, b: State)
    requires LegalTail(u) && BeforePath(u, b)
    ensures Walk(b, [Piece(u.path, Some(Path))], false, AfterPath(u, b))
  {
    hide ParseUrlChar, Walk, IsUrlChar;
    var v := u.path;
    if v != [] { PathCharOf(b, v[0]); }
    forall i | 0 <= i < |v| ensures ParseUrlChar(ReqPath, v[i]) == ReqPath { PathCharOf(ReqPath, v[i]); }
    WalkRun(b, v, Path, ReqPath);
  }

  lemma QueryCharOf(ch: char)
    requires IsUrlChar(ch) || ch == '?'
    ensures ParseUrlChar(ReqQueryStringStart, ch) == ReqQueryString == ParseUrlChar(ReqQueryString, ch)
  {}

  lemma MarkOf(s: State)
    ensures s.ReqServer? || s.ReqServerWithAt? || s.ReqPath? ==> ParseUrlChar(s, '?') == ReqQueryStringStart
    ensures s.ReqPath? || s.ReqQueryStringStart? || s.ReqQueryString? ==> ParseUrlChar(s, '#') == ReqFragmentStart
  {
    hide IsUserinfoChar;
    assert !IsUrlChar('?') && !IsUrlChar('#');
  }

  lemma QueryWalk(u: Url, b: State)
    requires LegalTail(u) && BeforePath(u, b)
    ensures Walk(AfterPath(u, b), QueryPieces(u), false, AfterQuery(u, b))
  {
    hide ParseUrlChar, Walk, IsUrlChar;
    if u.query.Some? {
      var s, v := AfterPath(u, b), u.query.value;
      MarkOf(s);
      WalkMark(s, '?', ReqQueryStringStart);
      forall i | 0 <= i < |v|
        ensures ParseUrlChar(ReqQueryStringStart, v[i]) == ReqQueryString == ParseUrlChar(ReqQueryString, v[i])
      {
        QueryCharOf(v[i]);
      }
      WalkRun(ReqQueryStringStart, v, Query, ReqQueryString);
      WalkThen(s, [Piece("?", None)], false, ReqQueryStringStart, [Piece(v, Some(Query))], false, AfterQuery(u, b));
      assert QueryPieces(u) == [Piece("?", None)] + [Piece(v, Some(Query))];
    } else {
      Stay(AfterPath(u, b));
    }
  }

  lemma FragmentCharOf(ch: char)
    requires IsUrlChar(ch) || ch == '?' || ch == '#'
    ensures ch == '#' ==> ParseUrlChar(ReqFragmentStart, ch) == ReqFragmentStart
    ensures ParseUrlChar(ReqFragment, ch) == ReqFragment
    ensures ch != '#' ==> ParseUrlChar(ReqFragmentStart, ch) == ReqFragment
  {}

  lemma HashWalk(s: State, n: nat)
    requires n > 0 && (s.ReqPath? || s.ReqQueryStringStart? || s.ReqQueryString?)
    ensures Walk(s, [Piece(Hashes(n), None)], false, ReqFragmentStart)
  {
    hide ParseUrlChar, Goes, Text, Labels;
    MarkOf(s);
    FragmentCharOf('#');
    OnePiece(Hashes(n), None);
    GoesRun(s, Hashes(n), ReqFragmentStart);
  }

  lemma FragmentWalk(u: Url, b: State)
    requires LegalTail(u) && BeforePath(u, b)
    ensures Walk(AfterQuery(u, b), FragmentPieces(u), false, AfterFragment(u, b))
  {
    hide ParseUrlChar, Walk, IsUrlChar;
    if u.fragment.Some? {
      var s, v := AfterQuery(u, b), u.fragment.value;
      MarkOf(s);
      HashWalk(s, u.hashes + 1);
      forall i | 0 <= i < |v| ensures ParseUrlChar(ReqFragment, v[i]) == ReqFragment { FragmentCharOf(v[i]); }
      if v != [] { FragmentCharOf(v[0]); }
      WalkRun(ReqFragmentStart, v, Fragment, ReqFragment);
      WalkThen(s, [Piece(Hashes(u.hashes + 1), None)], false, ReqFragmentStart, [Piece(v, Some(Fragment))], false,
               AfterFragment(u, b));
      assert FragmentPieces(u) == [Piece(Hashes(u.hashes + 1), None)] + [Piece(v, Some(Fragment))];
    } else {
      Stay(AfterQuery(u, b));
    }
  }

  lemma TailWalk(u: Url, b: State)
    requires LegalTail(u) && BeforePath(u, b)
    ensures Walk(b, TailPieces(u), false, AfterFragment(u, b))
  {
    hide Walk, LegalTail;
    PathWalk(u, b);
    QueryWalk(u, b);
    FragmentWalk(u, b);
    var p := [Piece(u.path, Some(Path))];
    WalkThen(b, p, false, AfterPath(u, b), QueryPieces(u), false, AfterQuery(u, b));
    WalkThen(b, p + QueryPieces(u), false, AfterQuery(u, b), FragmentPieces(u), false, AfterFragment(u, b));
  }

  // ----- the scheme -----

  lemma SchemeCharOf(ch: char)
    requires IsAlpha(ch)
    ensures ParseUrlChar(ReqSpacesBeforeUrl, ch) == ReqSchema == ParseUrlChar(ReqSchema, ch)
  {}

  lemma SchemeWalk(scheme: string)
    requires scheme != [] && All(scheme, IsAlpha)
    ensures Walk(ReqSpacesBeforeUrl, SchemePieces(scheme), false, ReqServerStart)
  {
    hide Goes, Text, Labels, IsAlpha;
    forall i | 0 <= i < |scheme|
      ensures ParseUrlChar(ReqSpacesBeforeUrl, scheme[i]) == ReqSchema == ParseUrlChar(ReqSchema, scheme[i])
    {
      SchemeCharOf(scheme[i]);
    }
    GoesRun(ReqSpacesBeforeUrl, scheme, ReqSchema);
    MarksGo();
    GoesThen(ReqSpacesBeforeUrl, scheme, Same(scheme, Some(Schema)), false, ReqSchema, "://", Same("://", None), false,
      ReqServerStart);
    TwoPieces(scheme, Some(Schema), "://", None);
  }

  lemma MarksGo()
    ensures Goes(ReqSchema, "://", Same("://", None), false, ReqServerStart)
  {
    hide Goes;
    GoesOne(ReqSchema, ':', ReqSchemaSlash);
    GoesOne(ReqSchemaSlash, '/', ReqSchemaSlashSlash);
    GoesOne(ReqSchemaSlashSlash, '/', ReqServerStart);
    GoesThen(ReqSchema, ":", [None], false, ReqSchemaSlash, "/", [None], false, ReqSchemaSlashSlash);
    GoesThen(ReqSchema, ":" + "/", [None] + [None], false, ReqSchemaSlashSlash, "/", [None], false, ReqServerStart);
    assert ":" + "/" + "/" == "://" && [None] + [None] + [None] == Same("://", None);
  }
}
