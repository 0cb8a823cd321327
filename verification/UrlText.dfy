/** URLs written out: which characters may stand where, by their own names, in the
    URLs that `http_parser_parse_url` accepts (section 3 of RFC 3986). */
module UrlText {
  import opened Decimals
  import opened HttpTypes
  import opened Options
  import opened UrlCompose
  import opened UrlDecompose
  import opened UrlParse
  import opened UrlPieces
  import opened UrlSpec
  import opened UrlWalk

  // ----- characters -----

  predicate Letter(c: char) { 'a' <= c <= 'z' || 'A' <= c <= 'Z' }

  predicate LetterOrDigit(c: char) { Letter(c) || '0' <= c <= '9' }

  /** `pchar` and the slash. */
  predicate PathChar(c: char) { LetterOrDigit(c) || c in "-._~!$&'()*+,;=:@%/" }

  /** `unreserved`, `sub-delims`, the colon and the percent sign. */
  predicate UserChar(c: char) { LetterOrDigit(c) || c in "-._~!$&'()*+,;=:%" }

  predicate NameChar(c: char) { LetterOrDigit(c) || c == '.' || c == '-' }

  /** The characters of the components are these, and the path, the query and the
      fragment may hold any other printable character, too. */
  lemma CharTables(c: char)
    ensures IsUrlChar(c) <==> 33 <= c as int <= 126 && c as int != 35 && c as int != 63
    ensures PathChar(c) ==> IsUrlChar(c)
    ensures IsAlpha(c) <==> Letter(c)
    ensures IsUserinfoChar(c) <==> UserChar(c)
    ensures IsHostChar(c) <==> NameChar(c)
    ensures IsHex(c) <==> '0' <= c <= '9' || 'a' <= c <= 'f' || 'A' <= c <= 'F'
    ensures IsZoneChar(c) <==> LetterOrDigit(c) || c in "%.-_~"
    ensures IsNum(c) <==> '0' <= c <= '9'
  {
    LowerLetter(c);
    hide Lower;
  }

  lemma LowerLetter(c: char)
    ensures 'a' <= Lower(c) <= 'z' <==> Letter(c)
    ensures 'a' <= Lower(c) <= 'f' <==> 'a' <= c <= 'f' || 'A' <= c <= 'F'
  {}

  // ----- URLs that are accepted -----

  function QueryPart(query: Option<string>): string { if query.Some? then "?" + query.value else "" }

  function FragmentPart(fragment: Option<string>): string { if fragment.Some? then "#" + fragment.value else "" }

  predicate Tail(path: string, query: Option<string>, fragment: Option<string>) {
    && (forall i :: 0 <= i < |path| ==> PathChar(path[i]))
    && (query.Some? ==> forall i :: 0 <= i < |query.value| ==> PathChar(query.value[i]) || query.value[i] == '?')
    && (fragment.Some? ==>
          forall i :: 0 <= i < |fragment.value| ==> PathChar(fragment.value[i]) || fragment.value[i] == '?')
  }

  /** `f` is found at the text `v`; an empty text is not reported. */
  predicate FoundAs(buf: string, r: Fields, f: UrlField, v: string) {
    if f in r then v != [] && r[f].off + r[f].len <= |buf| && buf[r[f].off..r[f].off + r[f].len] == v else v == []
  }

  /** A request target: a path, and perhaps a query and a fragment. */
  lemma TargetAccepted(path: string, query: Option<string>, fragment: Option<string>, r: Fields)
    requires Tail(path, query, fragment)
    requires var buf := "/" + path + QueryPart(query) + FragmentPart(fragment); Exact(r, 0, AllClassesOf(false, buf))
    ensures var buf := "/" + path + QueryPart(query) + FragmentPart(fragment);
      && Accepted(false, buf)
      && FoundAs(buf, r, Path, "/" + path)
      && FoundAs(buf, r, Query, Or(query)) && FoundAs(buf, r, Fragment, Or(fragment))
      && Schema !in r && Userinfo !in r && Host !in r && Port !in r
  {
    hide Exact, Accepted, AllClasses, Text, Legal, Compose, FoundAs, Part, Tail;
    var u := Url.Url(Nowhere, "/" + path, query, fragment, 0);
    TargetLegal(path, query, fragment);
    TargetText(path, query, fragment);
    Composed(u, r);
    TargetParts(u);
    NothingFound(Compose(u), r);
  }

  lemma NothingFound(buf: string, r: Fields)
    ensures forall f :: FoundAs(buf, r, f, []) ==> f !in r
  {}

  lemma TargetParts(u: Url)
    requires u.front.Nowhere?
    ensures Part(u, Path) == u.path && Part(u, Query) == Or(u.query) && Part(u, Fragment) == Or(u.fragment)
    ensures Part(u, Schema) == Part(u, Userinfo) == Part(u, Host) == Part(u, Port) == []
  {}

  lemma TargetLegal(path: string, query: Option<string>, fragment: Option<string>)
    requires Tail(path, query, fragment)
    ensures Legal(Url.Url(Nowhere, "/" + path, query, fragment, 0))
  {
    hide IsUrlChar, PathChar;
    var p := "/" + path;
    assert p[1..] == path;
    TailLegal(p, query, fragment);
    FragmentLegal(fragment);
  }

  lemma TargetText(path: string, query: Option<string>, fragment: Option<string>)
    ensures Compose(Url.Url(Nowhere, "/" + path, query, fragment, 0))
            == "/" + path + QueryPart(query) + FragmentPart(fragment)
  {
    hide Text, TailPieces;
    var u := Url.Url(Nowhere, "/" + path, query, fragment, 0);
    TailText(u);
    assert Pieces(u) == [] + TailPieces(u) == TailPieces(u);
    OneHash();
  }

  /** The fields of a printed URL are its components. */
  lemma Composed(u: Url, r: Fields)
    requires Legal(u) && Exact(r, 0, AllClassesOf(false, Compose(u)))
    ensures Accepted(false, Compose(u)) && PortValue(false, Compose(u)) == Decimal(Part(u, Port))
    ensures forall f: UrlField :: FoundAs(Compose(u), r, f, Part(u, f))
  {
    hide Accepted, AllClasses, Legal, Compose, Part, Exact;
    ComposedSplitsBack(u, r);
  }

  lemma OneHash()
    ensures Hashes(1) == "#"
  {}

  lemma TailLegal(path: string, query: Option<string>, fragment: Option<string>)
    requires Tail(if path == [] then [] else path[1..], query, fragment) && (path != [] ==> path[0] == '/')
    ensures All(path, IsUrlChar)
    ensures query.Some? ==> All(query.value, c => IsUrlChar(c) || c == '?')
    ensures fragment.Some? ==> All(fragment.value, c => IsUrlChar(c) || c == '?' || c == '#')
  {
    hide IsUrlChar, PathChar;
    CharTables('/');
    forall i | 0 <= i < |path| ensures IsUrlChar(path[i]) {
      CharTables(path[i]);
      if i > 0 { assert path[i] == path[1..][i - 1]; } else { SlashIsPath(); }
    }
    if query.Some? {
      forall i | 0 <= i < |query.value| ensures IsUrlChar(query.value[i]) || query.value[i] == '?' {
        CharTables(query.value[i]);
      }
    }
    if fragment.Some? {
      forall i | 0 <= i < |fragment.value|
        ensures IsUrlChar(fragment.value[i]) || fragment.value[i] == '?' || fragment.value[i] == '#'
      {
        CharTables(fragment.value[i]);
      }
    }
  }

  lemma SlashIsPath()
    ensures PathChar('/')
  {}

  lemma FragmentLegal(fragment: Option<string>)
    requires Tail([], None, fragment)
    ensures fragment.Some? ==> LegalFragment(fragment.value)
  {
    TailLegal([], None, fragment);
    if fragment.Some? && fragment.value != [] { assert PathChar(fragment.value[0]) || fragment.value[0] == '?'; }
  }

  function UserPart(user: Option<string>): string { if user.Some? then user.value + "@" else "" }

  function PortPart(port: Option<string>): string { if port.Some? then ":" + port.value else "" }

  predicate Site(user: Option<string>, host: string, port: Option<string>) {
    && (user.Some? ==> forall i :: 0 <= i < |user.value| ==> UserChar(user.value[i]))
    && host != [] && (forall i :: 0 <= i < |host| ==> NameChar(host[i]))
    && (port.Some? ==>
          port.value != [] && (forall i :: 0 <= i < |port.value| ==> '0' <= port.value[i] <= '9')
          && Decimal(port.value) <= 65535)
  }

  /** A URL with a scheme, a host name, and perhaps the other components. */
  lemma WebUrlAccepted(scheme: string, user: Option<string>, host: string, port: Option<string>, path: string,
                       query: Option<string>, fragment: Option<string>, r: Fields)
    requires scheme != [] && (forall i :: 0 <= i < |scheme| ==> Letter(scheme[i]))
    requires Site(user, host, port)
    requires Tail(path, query, fragment) && (path != [] ==> path[0] == '/')
    requires fragment.Some? ==> path != [] || query.Some?
    requires var buf := scheme + "://" + (UserPart(user) + host + PortPart(port))
                        + (path + QueryPart(query) + FragmentPart(fragment));
      Exact(r, 0, AllClassesOf(false, buf))
    ensures var buf := scheme + "://" + (UserPart(user) + host + PortPart(port))
                       + (path + QueryPart(query) + FragmentPart(fragment));
      && Accepted(false, buf)
      && FoundAs(buf, r, Schema, scheme) && FoundAs(buf, r, Userinfo, Or(user))
      && FoundAs(buf, r, Host, host) && FoundAs(buf, r, Port, Or(port))
      && FoundAs(buf, r, Path, path) && FoundAs(buf, r, Query, Or(query)) && FoundAs(buf, r, Fragment, Or(fragment))
      && PortValue(false, buf) == Decimal(Or(port))
  {
    hide Exact, Accepted, AllClasses, Text, Legal, Compose, FoundAs, Part, Tail, Site;
    var u := Url.Url(Somewhere(scheme, Authority(user, RegName(host), port)), path, query, fragment, 0);
    WebUrlLegal(scheme, user, host, port, path, query, fragment);
    WebUrlText(u, host);
    Composed(u, r);
    WebUrlParts(u, host);
  }

  lemma WebUrlLegal(scheme: string, user: Option<string>, host: string, port: Option<string>, path: string,
                    query: Option<string>, fragment: Option<string>)
    requires scheme != [] && (forall i :: 0 <= i < |scheme| ==> Letter(scheme[i]))
    requires Site(user, host, port)
    requires Tail(path, query, fragment) && (path != [] ==> path[0] == '/')
    requires fragment.Some? ==> path != [] || query.Some?
    ensures Legal(Url.Url(Somewhere(scheme, Authority(user, RegName(host), port)), path, query, fragment, 0))
  {
    hide LegalAuthority, IsUrlChar, PathChar, IsAlpha;
    SiteLegal(scheme, user, host, port);
    PathTail(path, query, fragment);
    FragmentLegal(fragment);
  }

  lemma WebUrlText(u: Url, host: string)
    requires u.front.Somewhere? && u.front.auth.host == RegName(host) && u.hashes == 0
    ensures Compose(u) == u.front.scheme + "://"
                          + (UserPart(u.front.auth.userinfo) + host + PortPart(u.front.auth.port))
                          + (u.path + QueryPart(u.query) + FragmentPart(u.fragment))
  {
    hide Text, TailPieces, AuthorityPieces, SchemePieces;
    var a := u.front.auth;
    SchemeText(u.front.scheme);
    AuthorityText(a);
    OnePiece(host, Some(Host));
    TailText(u);
    OneHash();
    FrontIs(u);
    PiecesJoin(SchemePieces(u.front.scheme), AuthorityPieces(a));
    PiecesJoin(SchemePieces(u.front.scheme) + AuthorityPieces(a), TailPieces(u));
  }

  lemma WebUrlParts(u: Url, host: string)
    requires u.front.Somewhere? && u.front.auth.host == RegName(host)
    ensures Part(u, Schema) == u.front.scheme && Part(u, Userinfo) == Or(u.front.auth.userinfo)
    ensures Part(u, Host) == host && Part(u, Port) == Or(u.front.auth.port)
    ensures Part(u, Path) == u.path && Part(u, Query) == Or(u.query) && Part(u, Fragment) == Or(u.fragment)
  {}

  lemma PathTail(path: string, query: Option<string>, fragment: Option<string>)
    requires Tail(path, query, fragment) && (path != [] ==> path[0] == '/')
    ensures All(path, IsUrlChar)
    ensures query.Some? ==> All(query.value, c => IsUrlChar(c) || c == '?')
  {
    hide PathChar, IsUrlChar;
    if path != [] { assert forall i :: 0 <= i < |path[1..]| ==> path[1..][i] == path[i + 1]; }
    TailLegal(path, query, fragment);
  }

  lemma SiteLegal(scheme: string, user: Option<string>, host: string, port: Option<string>)
    requires Site(user, host, port) && forall i :: 0 <= i < |scheme| ==> Letter(scheme[i])
    ensures All(scheme, IsAlpha) && LegalAuthority(Authority(user, RegName(host), port))
  {
    hide IsAlpha, IsUserinfoChar, IsHostChar, Letter, UserChar, NameChar;
    forall i | 0 <= i < |scheme| ensures IsAlpha(scheme[i]) { CharTables(scheme[i]); }
    forall i | 0 <= i < |host| ensures IsHostChar(host[i]) { CharTables(host[i]); }
    if user.Some? {
      forall i | 0 <= i < |user.value| ensures IsUserinfoChar(user.value[i]) { CharTables(user.value[i]); }
    }
  }

  // ----- and only those -----

  /** What a byte can be that is assigned to a field. */
  predicate FieldChar(f: UrlField, c: char) {
    match f
    case Schema => Letter(c)
    case Userinfo => UserChar(c)
    case Host => LetterOrDigit(c) || c in ".-:%_~"
    case Port => '0' <= c <= '9'
    case Path => 33 <= c as int <= 126 && c != '#' && c != '?'
    case Query => 33 <= c as int <= 126 && c != '#'
    case Fragment => 33 <= c as int <= 126
  }

  lemma {:induction false} PickedBytes(buf: string, c: Classes, f: UrlField, i: nat)
    requires |c| == |buf| && i < |buf| && c[i] == Some(f)
    ensures buf[i] in Pick(buf, c, f)
    decreases |buf|
  {
    if i + 1 < |buf| { PickedBytes(buf[..|buf| - 1], c[..|c| - 1], f, i); }
  }

  lemma PartChars(u: Url, f: UrlField, c: char)
    requires Legal(u) && c in Part(u, f)
    ensures FieldChar(f, c)
  {
    hide IsUrlChar, IsAlpha, IsUserinfoChar, IsHostChar, IsHex, IsZoneChar, IsNum;
    CharTables(c);
    match f {
      case Host => HostChars(u.front.auth.host, c);
      case _ =>
    }
  }

  lemma HostChars(h: HostName, c: char)
    requires LegalHost(h) && c in HostNameOf(h)
    ensures FieldChar(Host, c)
  {
    hide IsHostChar, IsHex, IsZoneChar;
    CharTables(c);
  }

  /** Every byte of an accepted URL that is assigned to a field may stand there. */
  lemma FieldBytes(buf: string, i: nat)
    requires Accepted(false, buf) && i < |buf| && AllClassesOf(false, buf)[i].Some?
    ensures FieldChar(AllClassesOf(false, buf)[i].value, buf[i])
  {
    hide Accepted, AllClasses, Legal, Compose, Component, Labels, Pick, Part, FieldChar;
    var u := AcceptedBack(buf);
    var f := AllClassesOf(false, buf)[i].value;
    LegalLabels(u);
    PickedBytes(buf, AllClassesOf(false, buf), f, i);
    PickPieces(Pieces(u), f);
    PartComponent(u, f);
    assert Compose(u) == Text(Pieces(u)) by { ComposeIs(u); }
    PartChars(u, f, buf[i]);
  }

  lemma ComposeIs(u: Url)
    ensures Compose(u) == Text(Pieces(u))
  {}

  lemma LegalLabels(u: Url)
    requires Legal(u)
    ensures AllClassesOf(false, Compose(u)) == Labels(Pieces(u))
  {
    hide Legal, Labels, Component, AllClasses, Text, Pieces, Accepted;
    if u.front.Nowhere? { OriginSplitsBack(u); } else { AbsoluteSplitsBack(u); }
  }
}
