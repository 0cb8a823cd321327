/** What the bytes of a URL are: the two automata of `http_parser_parse_url` read
    as a classification of every byte. */
module UrlSpec {
  import opened Decimals
  import opened HttpTypes
  import opened Options

  datatype UrlField = Schema | Host | Port | Path | Query | Fragment | Userinfo

  // ----- the first automaton -----

  function StartState(connect: bool): State { if connect then ReqServerStart else ReqSpacesBeforeUrl }

  /** The state after `i` bytes. */
  function StateAt(connect: bool, buf: string, i: nat): State
    requires i <= |buf|
  {
    UrlRun(StartState(connect), buf[..i])
  }

  /** The field whose bytes lead into state `s`; None for delimiters. */
  function FieldOf(s: State): Option<UrlField> {
    if s.ReqSchema? then Some(Schema)
    else if s.ReqServer? || s.ReqServerWithAt? then Some(Host)
    else if s.ReqPath? then Some(Path)
    else if s.ReqQueryString? then Some(Query)
    else if s.ReqFragment? then Some(Fragment)
    else None
  }

  /** The automaton only moves forward. */
  function UrlRank(s: State): nat {
    if s.ReqSpacesBeforeUrl? then 0
    else if s.ReqSchema? then 1
    else if s.ReqSchemaSlash? then 2
    else if s.ReqSchemaSlashSlash? then 3
    else if s.ReqServerStart? then 4
    else if s.ReqServer? || s.ReqServerWithAt? then 5
    else if s.ReqPath? then 6
    else if s.ReqQueryStringStart? then 7
    else if s.ReqQueryString? then 8
    else if s.ReqFragmentStart? then 9
    else if s.ReqFragment? then 10
    else 11
  }

  lemma StateNext(connect: bool, buf: string, i: nat)
    requires i < |buf|
    ensures StateAt(connect, buf, i + 1) == ParseUrlChar(StateAt(connect, buf, i), buf[i])
  {
    hide ParseUrlChar;
    assert buf[..i + 1][..i] == buf[..i];
  }

  lemma UrlForward(s: State, ch: char)
    ensures UrlRank(s) <= UrlRank(ParseUrlChar(s, ch))
  {}

  lemma {:induction false} Forward(connect: bool, buf: string, i: nat, j: nat)
    requires i <= j <= |buf|
    ensures UrlRank(StateAt(connect, buf, i)) <= UrlRank(StateAt(connect, buf, j))
    decreases j
  {
    hide UrlRank, ParseUrlChar, StateAt;
    if i < j {
      Forward(connect, buf, i, j - 1);
      StateNext(connect, buf, j - 1);
      UrlForward(StateAt(connect, buf, j - 1), buf[j - 1]);
    }
  }

  lemma {:induction false} DeadForever(connect: bool, buf: string, i: nat, j: nat)
    requires i <= j <= |buf| && StateAt(connect, buf, i).Dead?
    ensures StateAt(connect, buf, j).Dead?
    decreases j
  {
    hide StateAt;
    if i < j {
      DeadForever(connect, buf, i, j - 1);
      StateNext(connect, buf, j - 1);
    }
  }

  // ----- the second automaton -----

  datatype HostState =
    | HostDead | UserinfoStart | InUserinfo | HostStart | V6Start | InHost | V6 | V6End
    | ZoneStart | Zone | PortStart | InPort

  /** `http_parse_host_char` */
  function HostChar(s: HostState, ch: char): HostState {
    match s
    case UserinfoStart => UserinfoChar(ch)
    case InUserinfo => UserinfoChar(ch)
    case HostStart => if ch == '[' then V6Start else if IsHostChar(ch) then InHost else HostDead
    case InHost => if IsHostChar(ch) then InHost else if ch == ':' then PortStart else HostDead
    case V6End => if ch == ':' then PortStart else HostDead
    case V6 =>
      if ch == ']' then V6End
      else if IsHex(ch) || ch == ':' || ch == '.' then V6
      else if ch == '%' then ZoneStart
      else HostDead
    case V6Start => if IsHex(ch) || ch == ':' || ch == '.' then V6 else HostDead
    case Zone => if ch == ']' then V6End else ZoneChar(ch)
    case ZoneStart => ZoneChar(ch)
    case InPort => if IsNum(ch) then InPort else HostDead
    case PortStart => if IsNum(ch) then InPort else HostDead
    case HostDead => HostDead
  }

  function UserinfoChar(ch: char): HostState {
    if ch == '@' then HostStart else if IsUserinfoChar(ch) then InUserinfo else HostDead
  }

  predicate IsZoneChar(ch: char) { IsAlphaNum(ch) || ch == '%' || ch == '.' || ch == '-' || ch == '_' || ch == '~' }

  function ZoneChar(ch: char): HostState { if IsZoneChar(ch) then Zone else HostDead }

  function HostRun(s: HostState, host: string): HostState {
    if host == [] then s else HostChar(HostRun(s, host[..|host| - 1]), host[|host| - 1])
  }

  function HostStartState(foundAt: bool): HostState { if foundAt then UserinfoStart else HostStart }

  function HostAt(foundAt: bool, host: string, i: nat): HostState
    requires i <= |host|
  {
    HostRun(HostStartState(foundAt), host[..i])
  }

  function HostFieldOf(s: HostState): Option<UrlField> {
    match s
    case InUserinfo => Some(Userinfo)
    case InHost => Some(Host)
    case V6 => Some(Host)
    case ZoneStart => Some(Host)
    case Zone => Some(Host)
    case InPort => Some(Port)
    case _ => None
  }

  function HostRank(s: HostState): nat {
    match s
    case UserinfoStart => 0
    case InUserinfo => 1
    case HostStart => 2
    case V6Start => 3
    case InHost => 4
    case V6 => 4
    case ZoneStart => 5
    case Zone => 6
    case V6End => 7
    case PortStart => 8
    case InPort => 9
    case HostDead => 10
  }

  lemma HostNext(foundAt: bool, host: string, i: nat)
    requires i < |host|
    ensures HostAt(foundAt, host, i + 1) == HostChar(HostAt(foundAt, host, i), host[i])
  {
    hide HostChar;
    assert host[..i + 1][..i] == host[..i];
  }

  lemma HostForwardStep(s: HostState, ch: char)
    ensures HostRank(s) <= HostRank(HostChar(s, ch))
  {}

  lemma {:induction false} HostForward(foundAt: bool, host: string, i: nat, j: nat)
    requires i <= j <= |host|
    ensures HostRank(HostAt(foundAt, host, i)) <= HostRank(HostAt(foundAt, host, j))
    decreases j
  {
    hide HostRank, HostChar, HostAt;
    if i < j {
      HostForward(foundAt, host, i, j - 1);
      HostNext(foundAt, host, j - 1);
      HostForwardStep(HostAt(foundAt, host, j - 1), host[j - 1]);
    }
  }

  // ----- spans -----

  datatype Span = Span(off: nat, len: nat)

  predicate Covers(sp: Span, i: int) { sp.off <= i < sp.off + sp.len }

  /** A classification gives every byte its field, or none. */
  type Classes = seq<Option<UrlField>>

  /** The span of `f` is made of exactly the bytes that `c` puts into `f`; the
      first byte that `c` speaks of is number `base`. */
  predicate ExactSpan(m: map<UrlField, Span>, f: UrlField, base: nat, c: Classes) {
    if f in m then
      && m[f].len > 0 && base <= m[f].off && m[f].off + m[f].len <= base + |c|
      && forall i :: 0 <= i < |c| ==> (Covers(m[f], base + i) <==> c[i] == Some(f))
    else forall i :: 0 <= i < |c| ==> c[i] != Some(f)
  }

  /** The fields are exactly what the classification says. */
  predicate Exact(m: map<UrlField, Span>, base: nat, c: Classes) {
    forall f: UrlField :: ExactSpan(m, f, base, c)
  }

  lemma GrowNone(m: map<UrlField, Span>, base: nat, c: Classes)
    requires Exact(m, base, c)
    ensures Exact(m, base, c + [None])
  {
    forall f: UrlField ensures ExactSpan(m, f, base, c + [None]) { assert ExactSpan(m, f, base, c); }
  }

  lemma GrowSame(m: map<UrlField, Span>, base: nat, c: Classes, g: UrlField)
    requires Exact(m, base, c) && g in m && m[g].off + m[g].len == base + |c|
    ensures Exact(m[g := Span(m[g].off, m[g].len + 1)], base, c + [Some(g)])
  {
    var n, d := m[g := Span(m[g].off, m[g].len + 1)], c + [Some(g)];
    forall f: UrlField ensures ExactSpan(n, f, base, d) {
      assert ExactSpan(m, f, base, c);
    }
  }

  lemma GrowNew(m: map<UrlField, Span>, base: nat, c: Classes, g: UrlField)
    requires Exact(m, base, c) && g !in m
    ensures Exact(m[g := Span(base + |c|, 1)], base, c + [Some(g)])
  {
    var n, d := m[g := Span(base + |c|, 1)], c + [Some(g)];
    forall f: UrlField ensures ExactSpan(n, f, base, d) {
      assert ExactSpan(m, f, base, c);
    }
  }

  /** The text of the bytes that belong to `f`. */
  function Pick(buf: string, c: Classes, f: UrlField): string
    requires |c| == |buf|
  {
    if buf == [] then []
    else
      Pick(buf[..|buf| - 1], c[..|c| - 1], f) + (if c[|c| - 1] == Some(f) then [buf[|buf| - 1]] else [])
  }

  lemma {:induction false} PickExact(m: map<UrlField, Span>, f: UrlField, buf: string, c: Classes)
    requires |c| == |buf| && ExactSpan(m, f, 0, c)
    ensures Pick(buf, c, f) == if f in m then buf[m[f].off..m[f].off + m[f].len] else []
  {
    if f in m { PickUpto(m[f], f, buf, c, |buf|); } else { PickNone(f, buf, c); }
    assert buf[..|buf|] == buf && c[..|c|] == c;
  }

  lemma {:induction false} PickNone(f: UrlField, buf: string, c: Classes)
    requires |c| == |buf| && forall i :: 0 <= i < |c| ==> c[i] != Some(f)
    ensures Pick(buf, c, f) == []
  {
    if buf != [] { PickNone(f, buf[..|buf| - 1], c[..|c| - 1]); }
  }

  lemma {:induction false} PickUpto(sp: Span, f: UrlField, buf: string, c: Classes, n: nat)
    requires |c| == |buf| && n <= |buf| && sp.off + sp.len <= |buf|
    requires forall i :: 0 <= i < |c| ==> (Covers(sp, i) <==> c[i] == Some(f))
    ensures Pick(buf[..n], c[..n], f)
            == if n <= sp.off then [] else buf[sp.off..if n < sp.off + sp.len then n else sp.off + sp.len]
    decreases n
  {
    hide Pick;
    if n > 0 {
      PickUpto(sp, f, buf, c, n - 1);
      PickSnoc(f, buf, c, n - 1);
      assert Covers(sp, n - 1) <==> c[n - 1] == Some(f);
      if Covers(sp, n - 1) {
        assert buf[sp.off..n - 1] + [buf[n - 1]] == buf[sp.off..n];
      }
    } else {
      PickStart(f, buf, c);
    }
  }

  lemma PickSnoc(f: UrlField, buf: string, c: Classes, n: nat)
    requires |c| == |buf| && n < |buf|
    ensures Pick(buf[..n + 1], c[..n + 1], f) == Pick(buf[..n], c[..n], f) + if c[n] == Some(f) then [buf[n]] else []
  {
    assert buf[..n + 1][..n] == buf[..n] && c[..n + 1][..n] == c[..n];
  }

  lemma PickStart(f: UrlField, buf: string, c: Classes)
    requires |c| == |buf|
    ensures Pick(buf[..0], c[..0], f) == []
  {}

  /** The classification by the first automaton, from state `s` on. */
  function ClassesFrom(s: State, buf: string): Classes {
    if buf == [] then [] else ClassesFrom(s, buf[..|buf| - 1]) + [FieldOf(UrlRun(s, buf))]
  }

  function UrlClasses(connect: bool, buf: string): Classes { ClassesFrom(StartState(connect), buf) }

  /** The classification of the host part by the second one. */
  function HostClassesFrom(s: HostState, host: string): Classes {
    if host == [] then [] else HostClassesFrom(s, host[..|host| - 1]) + [HostFieldOf(HostRun(s, host))]
  }

  function HostClasses(foundAt: bool, host: string): Classes { HostClassesFrom(HostStartState(foundAt), host) }

  lemma {:induction false} UrlClassesAt(connect: bool, buf: string, i: nat)
    requires i < |buf|
    ensures |UrlClasses(connect, buf)| == |buf|
    ensures UrlClasses(connect, buf)[i] == FieldOf(StateAt(connect, buf, i + 1))
  {
    hide FieldOf, UrlRun;
    if i + 1 < |buf| {
      UrlClassesAt(connect, buf[..|buf| - 1], i);
      assert buf[..|buf| - 1][..i + 1] == buf[..i + 1];
    } else {
      UrlClassesLength(connect, buf);
      UrlClassesLength(connect, buf[..i]);
      assert buf[..i + 1] == buf;
    }
  }

  lemma {:induction false} UrlClassesLength(connect: bool, buf: string)
    ensures |UrlClasses(connect, buf)| == |buf|
  {
    if buf != [] { UrlClassesLength(connect, buf[..|buf| - 1]); }
  }

  lemma {:induction false} HostClassesAt(foundAt: bool, host: string, i: nat)
    requires i < |host|
    ensures |HostClasses(foundAt, host)| == |host|
    ensures HostClasses(foundAt, host)[i] == HostFieldOf(HostAt(foundAt, host, i + 1))
  {
    hide HostFieldOf, HostRun;
    if i + 1 < |host| {
      HostClassesAt(foundAt, host[..|host| - 1], i);
      assert host[..|host| - 1][..i + 1] == host[..i + 1];
    } else {
      HostClassesLength(foundAt, host);
      HostClassesLength(foundAt, host[..i]);
      assert host[..i + 1] == host;
    }
  }

  lemma {:induction false} HostClassesLength(foundAt: bool, host: string)
    ensures |HostClasses(foundAt, host)| == |host|
  {
    if host != [] { HostClassesLength(foundAt, host[..|host| - 1]); }
  }

  // ----- both automata together -----

  /** The authority contains an `@`. */
  predicate FoundFrom(s: State, buf: string) {
    buf != [] && (FoundFrom(s, buf[..|buf| - 1]) || UrlRun(s, buf).ReqServerWithAt?)
  }

  predicate FoundAt(connect: bool, buf: string) { FoundFrom(StartState(connect), buf) }

  /** The bytes that the first automaton takes for the host. */
  function HostText(connect: bool, buf: string): string {
    UrlClassesLength(connect, buf);
    Pick(buf, UrlClasses(connect, buf), Host)
  }

  /** Where a field begins; |c| when it is absent. */
  function FirstOf(c: Classes, f: UrlField): nat {
    if c == [] then 0 else if c[0] == Some(f) then 0 else 1 + FirstOf(c[1..], f)
  }

  /** The classification of a URL: that of the first automaton, with the host part
      classified by the second. */
  function AllClasses(connect: bool, buf: string): Classes {
    var c := UrlClasses(connect, buf);
    var h := HostClasses(FoundAt(connect, buf), HostText(connect, buf));
    var o := FirstOf(c, Host);
    seq(|c|, i requires 0 <= i < |c| => if c[i] == Some(Host) && 0 <= i - o < |h| then h[i - o] else c[i])
  }

  function HostEnd(connect: bool, buf: string): HostState {
    HostRun(HostStartState(FoundAt(connect, buf)), HostText(connect, buf))
  }

  /** The value of the port. */
  function PortValue(connect: bool, buf: string): nat {
    Decimal(Pick(buf, AllClassesOf(connect, buf), Port))
  }

  function AllClassesOf(connect: bool, buf: string): (c: Classes)
    ensures |c| == |buf|
  {
    UrlClassesLength(connect, buf);
    AllClasses(connect, buf)
  }

  predicate Present(c: Classes, f: UrlField) { Some(f) in c }

  predicate HostAndPortOnly(c: Classes) { forall f: UrlField :: Present(c, f) <==> f == Host || f == Port }

  /** Both automata end well. */
  predicate Divided(connect: bool, buf: string) {
    var c := UrlClasses(connect, buf);
    && !UrlRun(StartState(connect), buf).Dead?
    && (Present(c, Schema) ==> Present(c, Host))
    && (Present(c, Host) ==>
          HostEnd(connect, buf).InHost? || HostEnd(connect, buf).V6End? || HostEnd(connect, buf).InPort?)
  }

  /** The URLs that `http_parser_parse_url` accepts. */
  predicate Accepted(connect: bool, buf: string) {
    && Divided(connect, buf)
    // CONNECT requests have a host and a port, and nothing else
    && (connect ==> HostAndPortOnly(AllClasses(connect, buf)))
    && PortValue(connect, buf) <= 0xFFFF
  }
}
