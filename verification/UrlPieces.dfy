/** URLs as components, and as the pieces of text that they are printed as
    (section 3 of RFC 3986). */
module UrlPieces {
  import opened Decimals
  import opened HttpTypes
  import opened Options
  import opened UrlSpec

  datatype HostName = RegName(name: string) | V6Address(address: string, zone: Option<string>)

  datatype Authority = Authority(userinfo: Option<string>, host: HostName, port: Option<string>)

  /** What stands before the path: nothing, or a scheme and an authority. */
  datatype Front = Nowhere | Somewhere(scheme: string, auth: Authority)

  /** The parser skips further number signs before a fragment: `hashes` of them. */
  datatype Url = Url(front: Front, path: string, query: Option<string>, fragment: Option<string>, hashes: nat)

  // ----- legal components -----

  predicate All(v: string, ok: char -> bool) { forall i :: 0 <= i < |v| ==> ok(v[i]) }

  predicate LegalHost(h: HostName) {
    match h
    case RegName(name) => name != [] && All(name, IsHostChar)
    case V6Address(address, zone) =>
      && address != [] && All(address, c => IsHex(c) || c == ':' || c == '.')
      && (zone.Some? ==> zone.value != [] && All(zone.value, IsZoneChar))
  }

  predicate Shaped(a: Authority) {
    && (a.userinfo.Some? ==> All(a.userinfo.value, IsUserinfoChar))
    && LegalHost(a.host)
    && (a.port.Some? ==> a.port.value != [] && AllDigits(a.port.value))
  }

  function Or(v: Option<string>): string { if v.Some? then v.value else [] }

  predicate LegalAuthority(a: Authority) { Shaped(a) && Decimal(Or(a.port)) <= 0xFFFF }

  predicate LegalPath(front: Front, path: string) {
    && All(path, IsUrlChar)
    && if front.Nowhere? then path != [] && path[0] in "/*" else path == [] || path[0] == '/'
  }

  predicate LegalFragment(v: string) {
    All(v, c => IsUrlChar(c) || c == '?' || c == '#') && (v != [] ==> v[0] != '#')
  }

  predicate LegalFront(f: Front) {
    f.Somewhere? ==> f.scheme != [] && All(f.scheme, IsAlpha) && LegalAuthority(f.auth)
  }

  predicate LegalTail(u: Url) {
    && LegalPath(u.front, u.path)
    && (u.query.Some? ==> All(u.query.value, c => IsUrlChar(c) || c == '?'))
    && (u.fragment.Some? ==> LegalFragment(u.fragment.value) && (u.path != [] || u.query.Some?))
  }

  predicate Legal(u: Url) { LegalFront(u.front) && LegalTail(u) }

  // ----- printing -----

  /** A piece of printed text, and the field it stands for. */
  datatype Piece = Piece(text: string, field: Option<UrlField>)

  function Same(v: string, f: Option<UrlField>): Classes { seq(|v|, i => f) }

  function Text(ps: seq<Piece>): string {
    if ps == [] then [] else Text(ps[..|ps| - 1]) + ps[|ps| - 1].text
  }

  function Labels(ps: seq<Piece>): Classes {
    if ps == [] then [] else Labels(ps[..|ps| - 1]) + Same(ps[|ps| - 1].text, ps[|ps| - 1].field)
  }

  function HostPieces(h: HostName): seq<Piece> {
    match h
    case RegName(name) => [Piece(name, Some(Host))]
    case V6Address(address, None) => [Piece("[", None), Piece(address, Some(Host)), Piece("]", None)]
    case V6Address(address, Some(zone)) =>
      [Piece("[", None), Piece(address, Some(Host)), Piece("%", Some(Host)), Piece(zone, Some(Host)), Piece("]", None)]
  }

  function UserinfoPieces(a: Authority): seq<Piece> {
    if a.userinfo.Some? then [Piece(a.userinfo.value, Some(Userinfo)), Piece("@", None)] else []
  }

  function PortPieces(a: Authority): seq<Piece> {
    if a.port.Some? then [Piece(":", None), Piece(a.port.value, Some(Port))] else []
  }

  function AuthorityPieces(a: Authority): seq<Piece> { UserinfoPieces(a) + HostPieces(a.host) + PortPieces(a) }

  function SchemePieces(scheme: string): seq<Piece> { [Piece(scheme, Some(Schema)), Piece("://", None)] }

  function FrontPieces(f: Front): seq<Piece> {
    if f.Nowhere? then [] else SchemePieces(f.scheme) + AuthorityPieces(f.auth)
  }

  function QueryPieces(u: Url): seq<Piece> {
    if u.query.Some? then [Piece("?", None), Piece(u.query.value, Some(Query))] else []
  }

  function Hashes(n: nat): string { seq(n, i => '#') }

  function FragmentPieces(u: Url): seq<Piece> {
    if u.fragment.Some? then [Piece(Hashes(u.hashes + 1), None), Piece(u.fragment.value, Some(Fragment))] else []
  }

  function TailPieces(u: Url): seq<Piece> { [Piece(u.path, Some(Path))] + QueryPieces(u) + FragmentPieces(u) }

  function Pieces(u: Url): seq<Piece> { FrontPieces(u.front) + TailPieces(u) }

  /** The printed URL. */
  function Compose(u: Url): string { Text(Pieces(u)) }

  lemma {:induction false} PiecesJoin(p: seq<Piece>, q: seq<Piece>)
    ensures Text(p + q) == Text(p) + Text(q) && Labels(p + q) == Labels(p) + Labels(q)
  {
    if q == [] {
      assert p + q == p;
    } else {
      var n := |q| - 1;
      PiecesJoin(p, q[..n]);
      assert (p + q)[..|p + q| - 1] == p + q[..n];
    }
  }

  lemma {:induction false} LabelsLength(p: seq<Piece>)
    ensures |Labels(p)| == |Text(p)|
  {
    if p != [] { LabelsLength(p[..|p| - 1]); }
  }
}
