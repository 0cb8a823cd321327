/** `struct http_parser_url`, `http_parser_parse_url` and `http_parse_host`. */
module UrlParse {
  import opened Decimals
  import opened HttpTypes
  import opened Options
  import opened UrlSpec

  /** A field is set if its bit is set, and then it has a span. */
  type Fields = map<UrlField, Span>

  function FieldRank(f: UrlField): nat {
    match f
    case Schema => 1
    case Host => 5
    case Path => 6
    case Query => 8
    case Fragment => 10
    case Userinfo => 99
    case Port => 99
  }

  /** What the loop of `http_parser_parse_url` knows in state `s` at position `n`:
      the field set last, `recent`, is the rightmost, and it ends at `n` while its
      bytes go on. */
  predicate UrlSeen(s: State, m: Fields, recent: Option<UrlField>, n: nat) {
    && (forall f: UrlField :: f in m ==> FieldRank(f) <= UrlRank(s))
    && (recent.None? ==> m == map[])
    && (recent.Some? ==>
          && recent.value in m
          && (forall f: UrlField :: f in m ==> FieldRank(f) <= FieldRank(recent.value))
          && (FieldOf(s) == recent ==> m[recent.value].off + m[recent.value].len == n))
    && (FieldOf(s).Some? ==> FieldOf(s) == recent)
  }

  lemma UrlSeenStep(s: State, m: Fields, recent: Option<UrlField>, n: nat, ch: char)
    requires UrlSeen(s, m, recent, n) && !s.Dead?
    ensures var t := ParseUrlChar(s, ch); var g := FieldOf(t);
      !t.Dead? ==>
        if g.None? then UrlSeen(t, m, recent, n + 1)
        else if g == recent then
          && g.value in m && m[g.value].off + m[g.value].len == n
          && UrlSeen(t, m[g.value := Span(m[g.value].off, m[g.value].len + 1)], g, n + 1)
        else g.value !in m && UrlSeen(t, m[g.value := Span(n, 1)], g, n + 1)
  {
    hide ParseUrlChar;
    UrlForward(s, ch);
    var t := ParseUrlChar(s, ch);
    RankOfField(s);
    RankOfField(t);
  }

  lemma RankOfField(s: State)
    ensures FieldOf(s).Some? ==> UrlRank(s) == FieldRank(FieldOf(s).value)
    ensures forall f: UrlField :: FieldRank(f) == UrlRank(s) && UrlRank(s) != 99 ==> FieldOf(s) == Some(f)
  {}

  /** What the loop of `http_parse_host` knows in state `s` at position `n`. */
  predicate HostSeen(s: HostState, m: Fields, n: nat) {
    && (s.UserinfoStart? ==> m == map[])
    && (s.InUserinfo? ==> m.Keys == {Userinfo} && m[Userinfo].off + m[Userinfo].len == n)
    && (s.HostStart? || s.V6Start? ==> m.Keys <= {Userinfo})
    && (s.InHost? || s.V6? || s.ZoneStart? || s.Zone? ==>
          Host in m && m.Keys <= {Userinfo, Host} && m[Host].off + m[Host].len == n)
    && (s.V6End? || s.PortStart? ==> Host in m && m.Keys <= {Userinfo, Host})
    && (s.InPort? ==> Host in m && Port in m && m.Keys <= {Userinfo, Host, Port} && m[Port].off + m[Port].len == n)
  }

  function Longer(m: Fields, f: UrlField): Fields
    requires f in m
  {
    m[f := Span(m[f].off, m[f].len + 1)]
  }

  /** The cases of the switch in `http_parse_host`. */
  function HostFields(m: Fields, s: HostState, t: HostState, n: nat): Fields {
    match t
    case InHost => if s.InHost? && Host in m then Longer(m, Host) else m[Host := Span(n, 1)]
    case V6 => if s.V6? && Host in m then Longer(m, Host) else m[Host := Span(n, 1)]
    case ZoneStart => if Host in m then Longer(m, Host) else m
    case Zone => if Host in m then Longer(m, Host) else m
    case InPort => if s.InPort? && Port in m then Longer(m, Port) else m[Port := Span(n, 1)]
    case InUserinfo => if s.InUserinfo? && Userinfo in m then Longer(m, Userinfo) else m[Userinfo := Span(n, 1)]
    case _ => m
  }

  lemma HostSeenStep(s: HostState, m: Fields, base: nat, c: Classes, ch: char)
    requires HostSeen(s, m, base + |c|) && Exact(m, base, c)
    ensures var t := HostChar(s, ch); var n := base + |c|;
      !t.HostDead? ==>
        HostSeen(t, HostFields(m, s, t, n), n + 1) && Exact(HostFields(m, s, t, n), base, c + [HostFieldOf(t)])
  {
    hide Exact, IsHostChar, IsHex, IsUserinfoChar, IsZoneChar, IsNum;
    var t := HostChar(s, ch);
    var g := HostFieldOf(t);
    if g.None? {
      GrowNone(m, base, c);
    } else if g.value in m {
      if m[g.value].off + m[g.value].len == base + |c| { GrowSame(m, base, c, g.value); }
    } else {
      GrowNew(m, base, c, g.value);
    }
  }

  /** `http_parse_host`: splits the host part, which begins at `off`, into user
      info, host and port. */
  method ParseHost(buf: string, off: nat, len: nat, foundAt: bool) returns (rc: int, m: Fields)
    requires off + len <= |buf|
    ensures rc == 0 || rc == 1
    ensures var host := buf[off..off + len]; var e := HostRun(HostStartState(foundAt), host);
      && (rc == 0 <==> e.InHost? || e.V6End? || e.InPort?)
      && (rc == 0 ==> Exact(m, off, HostClasses(foundAt, host)) && Host in m)
      && m.Keys <= {Userinfo, Host, Port}
  {
    hide HostChar, HostFieldOf, Exact, HostFields;
    ghost var host := buf[off..off + len];
    var s := HostStartState(foundAt);
    m := map[];
    var p := off;
    assert Exact(m, off, HostClasses(foundAt, [])) by { ExactNothing(off); }
    assert host[..0] == [];
    while p < off + len
      invariant off <= p <= off + len && m.Keys <= {Userinfo, Host, Port}
      invariant s == HostAt(foundAt, host, p - off) && !s.HostDead?
      invariant HostSeen(s, m, p)
      invariant |HostClasses(foundAt, host[..p - off])| == p - off
      invariant Exact(m, off, HostClasses(foundAt, host[..p - off]))
    {
      ghost var i := p - off;
      var t := HostChar(s, buf[p]);
      HostNext(foundAt, host, i);
      if t.HostDead? {
        HostDeadEnd(foundAt, host, i + 1);
        return 1, m;
      }
      HostSeenStep(s, m, off, HostClasses(foundAt, host[..i]), buf[p]);
      HostClassesSnoc(foundAt, host, i);
      m := HostFields(m, s, t, p);
      HostSeenKeys(t, m, p + 1);
      s := t;
      p := p + 1;
    }
    assert host[..len] == host;
    match s
    case HostStart => rc := 1;
    case V6Start => rc := 1;
    case V6 => rc := 1;
    case ZoneStart => rc := 1;
    case Zone => rc := 1;
    case PortStart => rc := 1;
    case InUserinfo => rc := 1;
    case UserinfoStart => rc := 1;
    case _ => rc := 0;
  }

  lemma ExactNothing(base: nat)
    ensures Exact(map[], base, [])
  {}

  lemma HostSeenKeys(s: HostState, m: Fields, n: nat)
    requires HostSeen(s, m, n) && !s.HostDead?
    ensures m.Keys <= {Userinfo, Host, Port}
  {}

  lemma HostClassesSnoc(foundAt: bool, host: string, i: nat)
    requires i < |host|
    ensures HostClasses(foundAt, host[..i + 1])
            == HostClasses(foundAt, host[..i]) + [HostFieldOf(HostAt(foundAt, host, i + 1))]
  {
    hide HostFieldOf, HostRun;
    assert host[..i + 1][..i] == host[..i];
  }

  lemma {:induction false} HostDeadEnd(foundAt: bool, host: string, i: nat)
    requires i <= |host| && HostAt(foundAt, host, i).HostDead?
    ensures HostRun(HostStartState(foundAt), host).HostDead?
    decreases |host| - i
  {
    hide HostRun;
    if i < |host| {
      HostNext(foundAt, host, i);
      HostDeadEnd(foundAt, host, i + 1);
    } else {
      assert host[..i] == host;
    }
  }

  /** `strtoul` in base 10: the value of the digits from `off` on. */
  method StrToUl(buf: string, off: nat) returns (v: nat)
    requires off <= |buf|
    ensures v == Decimal(buf[off..][..DigitEnd(buf[off..])])
  {
    v := 0;
    var p := off;
    ghost var t := buf[off..];
    assert t[..0] == [];
    while p < |buf| && IsNum(buf[p])
      invariant off <= p <= |buf| && AllDigits(t[..p - off]) && v == Decimal(t[..p - off])
    {
      assert t[..p + 1 - off][..p - off] == t[..p - off] && t[p - off] == buf[p];
      v := v * 10 + Digit(buf[p]);
      p := p + 1;
    }
    DigitEndIs(t, p - off);
  }

  lemma UrlClassesSnoc(connect: bool, buf: string, i: nat)
    requires i < |buf|
    ensures UrlClasses(connect, buf[..i + 1])
            == UrlClasses(connect, buf[..i]) + [FieldOf(StateAt(connect, buf, i + 1))]
    ensures FoundAt(connect, buf[..i + 1]) <==>
              FoundAt(connect, buf[..i]) || StateAt(connect, buf, i + 1).ReqServerWithAt?
  {
    hide FieldOf, UrlRun;
    assert buf[..i + 1][..i] == buf[..i];
  }

  /** The field of a new byte grows, or begins. */
  function Put(m: Fields, recent: Option<UrlField>, f: Option<UrlField>, p: nat): Fields {
    if f.None? then m
    else if recent == f && f.value in m then Longer(m, f.value)
    else m[f.value := Span(p, 1)]
  }

  function Latest(recent: Option<UrlField>, f: Option<UrlField>): Option<UrlField> { if f.Some? then f else recent }

  /** The loop invariant of `http_parser_parse_url` after `p` bytes. */
  predicate Scanning(connect: bool, buf: string, p: nat, m: Fields, recent: Option<UrlField>)
    requires p <= |buf|
  {
    && UrlSeen(StateAt(connect, buf, p), m, recent, p)
    && |UrlClasses(connect, buf[..p])| == p
    && Exact(m, 0, UrlClasses(connect, buf[..p]))
    && Userinfo !in m && Port !in m
  }

  lemma ScanStep(connect: bool, buf: string, p: nat, m: Fields, recent: Option<UrlField>)
    requires p < |buf| && Scanning(connect, buf, p, m, recent)
    requires !StateAt(connect, buf, p).Dead? && !StateAt(connect, buf, p + 1).Dead?
    ensures var f := FieldOf(StateAt(connect, buf, p + 1));
      Scanning(connect, buf, p + 1, Put(m, recent, f, p), Latest(recent, f))
  {
    hide ParseUrlChar, FieldOf, Exact, UrlRank, FieldRank, UrlSeen, UrlRun, StateAt;
    var c := UrlClasses(connect, buf[..p]);
    var t := StateAt(connect, buf, p + 1);
    StateNext(connect, buf, p);
    UrlClassesSnoc(connect, buf, p);
    UrlSeenStep(StateAt(connect, buf, p), m, recent, p, buf[p]);
    NoHostFields(t);
    if FieldOf(t).None? {
      GrowNone(m, 0, c);
    } else if FieldOf(t) == recent {
      GrowSame(m, 0, c, FieldOf(t).value);
    } else {
      GrowNew(m, 0, c, FieldOf(t).value);
    }
  }

  /** What the first automaton finds. */
  predicate Scanned(connect: bool, buf: string, m: Fields) {
    Exact(m, 0, UrlClasses(connect, buf)) && Userinfo !in m && Port !in m
  }

  /** The loop of `http_parser_parse_url`. */
  method ScanUrl(buf: string, connect: bool) returns (dead: bool, m: Fields, foundAt: bool)
    ensures dead <==> UrlRun(StartState(connect), buf).Dead?
    ensures !dead ==> Scanned(connect, buf, m) && (foundAt <==> FoundAt(connect, buf))
  {
    hide ParseUrlChar, FieldOf, UrlRun, FoundAt, Scanning;
    var s := StartState(connect);
    var recent: Option<UrlField> := None;
    m, foundAt, dead := map[], false, false;
    var p := 0;
    ScanStart(connect, buf);
    while p < |buf|
      invariant 0 <= p <= |buf| && !dead
      invariant s == StateAt(connect, buf, p) && !s.Dead?
      invariant Scanning(connect, buf, p, m, recent)
      invariant foundAt <==> FoundAt(connect, buf[..p])
    {
      s := ParseUrlChar(s, buf[p]);
      StateNext(connect, buf, p);
      UrlClassesSnoc(connect, buf, p);
      if s.Dead? {
        DeadForever(connect, buf, p + 1, |buf|);
        assert buf[..|buf|] == buf;
        return true, m, foundAt;
      }
      ScanStep(connect, buf, p, m, recent);
      if s.ReqServerWithAt? { foundAt := true; }
      m, recent := Put(m, recent, FieldOf(s), p), Latest(recent, FieldOf(s));
      p := p + 1;
    }
    assert buf[..|buf|] == buf;
    ScanEnd(connect, buf, m, recent);
  }

  lemma ScanEnd(connect: bool, buf: string, m: Fields, recent: Option<UrlField>)
    requires Scanning(connect, buf, |buf|, m, recent)
    ensures Scanned(connect, buf, m)
  {
    hide Exact, UrlSeen, UrlClasses;
    assert buf[..|buf|] == buf;
  }

  /** The first automaton cuts every URL that does not kill it into spans. */
  lemma {:induction false} SpansExist(connect: bool, buf: string, p: nat)
    returns (m: Fields, recent: Option<UrlField>)
    requires p <= |buf| && !StateAt(connect, buf, p).Dead?
    ensures Scanning(connect, buf, p, m, recent)
    decreases p
  {
    hide Scanning, StateAt, FieldOf;
    if p == 0 {
      ScanStart(connect, buf);
      m, recent := map[], None;
    } else {
      if StateAt(connect, buf, p - 1).Dead? { DeadForever(connect, buf, p - 1, p); }
      var m0, r0 := SpansExist(connect, buf, p - 1);
      ScanStep(connect, buf, p - 1, m0, r0);
      var f := FieldOf(StateAt(connect, buf, p));
      m, recent := Put(m0, r0, f, p - 1), Latest(r0, f);
    }
  }

  lemma ScanStart(connect: bool, buf: string)
    ensures Scanning(connect, buf, 0, map[], None) && !FoundAt(connect, buf[..0])
    ensures StartState(connect) == StateAt(connect, buf, 0) && !StartState(connect).Dead?
  {
    assert buf[..0] == [];
  }

  lemma NoHostFields(s: State)
    ensures FieldOf(s) != Some(Userinfo) && FieldOf(s) != Some(Port)
  {}

  lemma {:induction false} FirstOfExact(m: Fields, base: nat, c: Classes, f: UrlField)
    requires ExactSpan(m, f, base, c)
    ensures f in m ==> FirstOf(c, f) == m[f].off - base
    decreases |c|
  {
    if f in m && c != [] {
      if c[0] != Some(f) {
        var d := c[1..];
        assert !Covers(m[f], base + 0);
        forall i | 0 <= i < |d| ensures Covers(m[f], base + 1 + i) <==> d[i] == Some(f) {
          assert d[i] == c[i + 1];
          assert Covers(m[f], base + (i + 1)) <==> c[i + 1] == Some(f);
        }
        FirstOfExact(m, base + 1, d, f);
      } else {
        assert Covers(m[f], base + 0);
      }
    }
  }

  // ----- putting the two together -----

  /** Where the host part lies, and what the classification says there. */
  lemma HostRegion(connect: bool, buf: string, m: Fields)
    requires |UrlClasses(connect, buf)| == |buf|
    requires Exact(m, 0, UrlClasses(connect, buf)) && Host in m
    ensures m[Host].len > 0 && m[Host].off + m[Host].len <= |buf|
    ensures var o, n := m[Host].off, m[Host].len;
      var h := HostClasses(FoundAt(connect, buf), HostText(connect, buf));
      && HostText(connect, buf) == buf[o..o + n]
      && |h| == n
      && |AllClasses(connect, buf)| == |buf|
      && forall i :: 0 <= i < |buf| ==>
           AllClasses(connect, buf)[i] == if o <= i < o + n then h[i - o] else UrlClasses(connect, buf)[i]
  {
    hide UrlClasses, HostClasses, FoundAt, FirstOf, Pick;
    var c := UrlClasses(connect, buf);
    assert ExactSpan(m, Host, 0, c);
    FirstOfExact(m, 0, c, Host);
    PickExact(m, Host, buf, c);
    HostClassesLength(FoundAt(connect, buf), HostText(connect, buf));
    var o, n := m[Host].off, m[Host].len;
    forall i | 0 <= i < |buf| ensures o <= i < o + n <==> c[i] == Some(Host) {
      assert Covers(m[Host], 0 + i) <==> c[i] == Some(Host);
    }
  }

  lemma NoHostClasses(connect: bool, buf: string, m: Fields)
    requires |UrlClasses(connect, buf)| == |buf|
    requires Exact(m, 0, UrlClasses(connect, buf)) && Host !in m
    ensures AllClasses(connect, buf) == UrlClasses(connect, buf)
  {
    hide UrlClasses, HostClasses, FoundAt, FirstOf, Pick;
    assert ExactSpan(m, Host, 0, UrlClasses(connect, buf));
  }

  /** The spans of both automata together are exact. */
  lemma Merged(connect: bool, buf: string, m: Fields, hm: Fields)
    requires |UrlClasses(connect, buf)| == |buf|
    requires Exact(m, 0, UrlClasses(connect, buf)) && Host in m && Userinfo !in m && Port !in m
    requires Exact(hm, m[Host].off, HostClasses(FoundAt(connect, buf), HostText(connect, buf)))
    requires Host in hm && hm.Keys <= {Userinfo, Host, Port}
    ensures Exact(m - {Host} + hm, 0, AllClasses(connect, buf))
  {
    hide UrlClasses, HostClasses, FoundAt, HostText, AllClasses;
    HostRegion(connect, buf, m);
    var o, n := m[Host].off, m[Host].len;
    var c := UrlClasses(connect, buf);
    var h := HostClasses(FoundAt(connect, buf), HostText(connect, buf));
    var a := AllClasses(connect, buf);
    var r := m - {Host} + hm;
    forall f: UrlField ensures ExactSpan(r, f, 0, a) {
      assert ExactSpan(m, f, 0, c) && ExactSpan(m, Host, 0, c) && ExactSpan(hm, f, o, h);
      if f in {Userinfo, Host, Port} {
        FromHost(r, f, o, n, h, a, c);
      } else {
        FromUrl(r, f, o, n, h, a, c);
      }
    }
  }

  lemma FromHost(m: Fields, f: UrlField, o: nat, n: nat, h: Classes, a: Classes, c: Classes)
    requires |h| == n && o + n <= |a| == |c| && ExactSpan(m, f, o, h)
    requires forall i :: 0 <= i < |a| ==> a[i] == if o <= i < o + n then h[i - o] else c[i]
    requires forall i :: 0 <= i < |c| && !(o <= i < o + n) ==> c[i] != Some(f)
    ensures ExactSpan(m, f, 0, a)
  {
    if f in m {
      forall i | 0 <= i < |a| ensures Covers(m[f], 0 + i) <==> a[i] == Some(f) {
        if o <= i < o + n { assert Covers(m[f], o + (i - o)) <==> h[i - o] == Some(f); }
      }
    } else {
      forall i | 0 <= i < |a| ensures a[i] != Some(f) {
        if o <= i < o + n { assert h[i - o] != Some(f); }
      }
    }
  }

  lemma FromUrl(m: Fields, f: UrlField, o: nat, n: nat, h: Classes, a: Classes, c: Classes)
    requires |h| == n && o + n <= |a| == |c| && ExactSpan(m, f, 0, c)
    requires forall i :: 0 <= i < |a| ==> a[i] == if o <= i < o + n then h[i - o] else c[i]
    requires forall i :: o <= i < o + n ==> c[i] != Some(f)
    requires forall i :: 0 <= i < |h| ==> h[i] != Some(f)
    ensures ExactSpan(m, f, 0, a)
  {
    if f in m {
      forall i | 0 <= i < |a| ensures Covers(m[f], 0 + i) <==> a[i] == Some(f) {
        assert Covers(m[f], 0 + i) <==> c[i] == Some(f);
        if o <= i < o + n { assert h[i - o] != Some(f); }
      }
    } else {
      forall i | 0 <= i < |a| ensures a[i] != Some(f) {
        if o <= i < o + n { assert h[i - o] != Some(f); }
      }
    }
  }

  // ----- the port -----

  lemma PortDigit(s: HostState, ch: char)
    ensures HostChar(s, ch).InPort? ==> IsNum(ch)
    ensures s.InPort? && IsNum(ch) ==> HostChar(s, ch).InPort?
  {}

  /** A byte belongs to the port if the second automaton says so. */
  lemma PortByte(connect: bool, buf: string, m: Fields, i: nat)
    requires |UrlClasses(connect, buf)| == |buf| && i < |buf|
    requires Exact(m, 0, UrlClasses(connect, buf)) && Host in m && Port !in m
    requires |AllClasses(connect, buf)| == |buf|
    ensures var o, n := m[Host].off, m[Host].len; var host := HostText(connect, buf);
      |host| == n && o + n <= |buf| && host == buf[o..o + n]
      && (AllClasses(connect, buf)[i] == Some(Port) <==>
            o <= i < o + n && HostAt(FoundAt(connect, buf), host, i - o + 1).InPort?)
  {
    hide UrlClasses, HostClasses, FoundAt, HostText, AllClasses, HostAt;
    HostRegion(connect, buf, m);
    var o, n := m[Host].off, m[Host].len;
    assert ExactSpan(m, Port, 0, UrlClasses(connect, buf));
    if o <= i < o + n {
      HostClassesAt(FoundAt(connect, buf), HostText(connect, buf), i - o);
    }
  }

  /** A digit behind the host part would belong to it. */
  lemma AfterHost(connect: bool, buf: string, i: nat)
    requires 0 < i < |buf| && FieldOf(StateAt(connect, buf, i)) == Some(Host) && IsNum(buf[i])
    ensures FieldOf(StateAt(connect, buf, i + 1)) == Some(Host)
  {
    hide StateAt;
    StateNext(connect, buf, i);
  }

  /** The bytes of the port are digits. */
  lemma PortText(connect: bool, buf: string, m: Fields, r: Fields)
    requires Scanned(connect, buf, m) && Host in m
    requires Exact(r, 0, AllClassesOf(connect, buf)) && Port in r
    ensures var o, n := r[Port].off, r[Port].len;
      && n > 0 && o + n <= |buf| && AllDigits(buf[o..o + n])
      && PortValue(connect, buf) == Decimal(buf[o..o + n])
  {
    hide UrlClasses, HostClasses, FoundAt, HostText, AllClasses, HostAt, Pick, IsNum, HostChar;
    UrlClassesLength(connect, buf);
    var a := AllClassesOf(connect, buf);
    var found := FoundAt(connect, buf);
    assert ExactSpan(r, Port, 0, a);
    PickExact(r, Port, buf, a);
    var o, n := r[Port].off, r[Port].len;
    forall i | o <= i < o + n ensures IsNum(buf[i]) {
      assert Covers(r[Port], 0 + i) <==> a[i] == Some(Port);
      PortByte(connect, buf, m, i);
      HostNext(found, HostText(connect, buf), i - m[Host].off);
      PortDigit(HostAt(found, HostText(connect, buf), i - m[Host].off), buf[i]);
    }
  }

  /** No digit follows them. */
  lemma PortStops(connect: bool, buf: string, m: Fields, r: Fields)
    requires Scanned(connect, buf, m) && Host in m
    requires Exact(r, 0, AllClassesOf(connect, buf)) && Port in r
    ensures var e := r[Port].off + r[Port].len; e < |buf| ==> !IsNum(buf[e])
  {
    hide UrlClasses, HostClasses, FoundAt, HostText, AllClasses, HostAt, Pick, IsNum, HostChar;
    UrlClassesLength(connect, buf);
    var a := AllClassesOf(connect, buf);
    assert ExactSpan(r, Port, 0, a) && ExactSpan(m, Host, 0, UrlClasses(connect, buf));
    var e := r[Port].off + r[Port].len;
    if e < |buf| && IsNum(buf[e]) {
      assert Covers(r[Port], 0 + e) <==> a[e] == Some(Port);
      assert Covers(r[Port], 0 + (e - 1)) <==> a[e - 1] == Some(Port);
      PortByte(connect, buf, m, e - 1);
      PortByte(connect, buf, m, e);
      var b := m[Host].off;
      assert Covers(m[Host], 0 + (e - 1)) <==> UrlClasses(connect, buf)[e - 1] == Some(Host);
      assert Covers(m[Host], 0 + e) <==> UrlClasses(connect, buf)[e] == Some(Host);
      UrlClassesAt(connect, buf, e - 1);
      UrlClassesAt(connect, buf, e);
      AfterHost(connect, buf, e);
      HostNext(FoundAt(connect, buf), HostText(connect, buf), e - b);
      PortDigit(HostAt(FoundAt(connect, buf), HostText(connect, buf), e - b), buf[e]);
    }
  }

  /** The digits from `o` on are `n`, if no digit follows these. */
  lemma DigitsAt(buf: string, o: nat, n: nat)
    requires o + n <= |buf| && AllDigits(buf[o..o + n]) && (o + n < |buf| ==> !IsNum(buf[o + n]))
    ensures buf[o..][..DigitEnd(buf[o..])] == buf[o..o + n]
  {
    assert buf[o..][..n] == buf[o..o + n];
    DigitEndIs(buf[o..], n);
  }

  class ParsedUrl {
    var port: nat
    var fields: Fields

    constructor ()
      ensures port == 0 && fields == map[]
    {
      port, fields := 0, map[];
    }

    /** The first half of `http_parser_parse_url`: the loop and the host part. */
    method Split(buf: string, connect: bool) returns (rc: int, ghost m: Fields)
      modifies this
      ensures rc == 0 || rc == 1
      ensures rc == 0 <==> Divided(connect, buf)
      ensures rc == 0 ==> Exact(fields, 0, AllClassesOf(connect, buf))
      ensures rc == 0 ==> port == 0
      ensures rc == 0 ==> Scanned(connect, buf, m) && (Port in fields ==> Host in m)
    {
      hide UrlClasses, HostClasses, FoundAt, HostText, AllClasses, HostAt, Exact, UrlRun, HostRun, Present;
      port, fields := 0, map[];
      UrlClassesLength(connect, buf);
      var dead, foundAt;
      dead, fields, foundAt := ScanUrl(buf, connect);
      m := fields;
      if dead { return 1, m; }
      PresentExact(m, UrlClasses(connect, buf));
      if Schema in fields && Host !in fields { return 1, m; }
      if Host in fields {
        HostRegion(connect, buf, m);
        var hrc, hm := ParseHost(buf, fields[Host].off, fields[Host].len, foundAt);
        if hrc != 0 { return 1, m; }
        fields := fields - {Host} + hm;
        Merged(connect, buf, m, hm);
      } else {
        NoHostClasses(connect, buf, m);
      }
      rc := 0;
    }

    /** `http_parser_parse_url`, for buffers whose offsets fit their 16 bits. */
    method Parse(buf: string, connect: bool) returns (rc: int)
      requires |buf| <= 0xFFFF
      modifies this
      ensures rc == 0 || rc == 1
      ensures rc == 0 <==> Accepted(connect, buf)
      ensures rc == 0 ==> Exact(fields, 0, AllClassesOf(connect, buf))
      ensures rc == 0 ==> port == PortValue(connect, buf)
    {
      hide AllClasses, Exact, Divided, Present, Scanned, UrlClasses;
      ghost var m;
      rc, m := Split(buf, connect);
      if rc != 0 { return; }
      ghost var a := AllClassesOf(connect, buf);
      PresentExact(fields, a);
      OnlyHostPort(fields, a);
      if connect && fields.Keys != {Host, Port} { return 1; }
      if Port in fields {
        PortText(connect, buf, m, fields);
        PortStops(connect, buf, m, fields);
        var v := StrToUl(buf, fields[Port].off);
        DigitsAt(buf, fields[Port].off, fields[Port].len);
        if v > 0xFFFF { return 1; }
        port := v;
      } else {
        NoPort(fields, buf, a);
      }
    }
  }

  lemma PresentExact(m: Fields, c: Classes)
    requires Exact(m, 0, c)
    ensures forall f: UrlField :: f in m <==> Present(c, f)
  {
    forall f: UrlField ensures f in m <==> Present(c, f) {
      assert ExactSpan(m, f, 0, c);
      if f in m {
        assert Covers(m[f], 0 + m[f].off) <==> c[m[f].off] == Some(f);
      }
    }
  }

  lemma OnlyHostPort(m: Fields, a: Classes)
    requires forall f: UrlField :: f in m <==> Present(a, f)
    ensures m.Keys == {Host, Port} <==> HostAndPortOnly(a)
  {
    hide Present;
    if HostAndPortOnly(a) {
      forall f: UrlField ensures f in m.Keys <==> f in {Host, Port} {
        assert f in m <==> Present(a, f);
      }
    } else {
      var f: UrlField :| Present(a, f) != (f == Host || f == Port);
      assert f in m.Keys <==> Present(a, f);
      assert f in {Host, Port} <==> f == Host || f == Port;
    }
  }

  lemma NoPort(m: Fields, buf: string, a: Classes)
    requires |a| == |buf| && Exact(m, 0, a) && Port !in m
    ensures Decimal(Pick(buf, a, Port)) == 0
  {
    assert ExactSpan(m, Port, 0, a);
    PickExact(m, Port, buf, a);
  }
}
