/** Every accepted URL is partitioned: its fields are disjoint slices in a fixed
    order, and what lies between them is delimiters. */
module UrlPartition {
  import opened HttpTypes
  import opened Options
  import opened UrlParse
  import opened UrlSpec

  /** The order in which the fields of a URL appear. */
  function Order(f: UrlField): nat {
    match f
    case Schema => 1
    case Userinfo => 2
    case Host => 3
    case Port => 4
    case Path => 5
    case Query => 6
    case Fragment => 7
  }

  predicate IsDelimiter(ch: char) { ch in ":/?#@[]" }

  // ----- single bytes -----

  lemma UrlDelimiter(s: State, ch: char)
    requires !ParseUrlChar(s, ch).Dead? && FieldOf(ParseUrlChar(s, ch)).None?
    ensures IsDelimiter(ch)
  {}

  lemma HostDelimiter(s: HostState, ch: char)
    requires !HostChar(s, ch).HostDead? && HostFieldOf(HostChar(s, ch)).None?
    ensures IsDelimiter(ch)
  {}

  lemma UrlOrder(s: State, t: State)
    requires UrlRank(s) <= UrlRank(t) && FieldOf(s).Some? && FieldOf(t).Some?
    ensures FieldOf(s) == FieldOf(t) || Order(FieldOf(s).value) < Order(FieldOf(t).value)
    ensures FieldOf(s).value !in {Userinfo, Port} && FieldOf(t).value !in {Userinfo, Port}
  {}

  lemma HostOrder(s: HostState, t: HostState)
    requires HostRank(s) <= HostRank(t) && HostFieldOf(s).Some? && HostFieldOf(t).Some?
    ensures 2 <= Order(HostFieldOf(s).value) <= Order(HostFieldOf(t).value) <= 4
  {}

  // ----- the two levels together -----

  /** What `AllClasses` says of a byte: the word of the second automaton inside
      the host part, that of the first outside. */
  lemma ByteClass(connect: bool, buf: string, m: Fields, i: nat)
    requires Scanned(connect, buf, m) && i < |buf|
    ensures |AllClasses(connect, buf)| == |buf|
    ensures var found, host := FoundAt(connect, buf), HostText(connect, buf);
      if Host in m && m[Host].off <= i < m[Host].off + m[Host].len then
        && |host| == m[Host].len && host[i - m[Host].off] == buf[i]
        && FieldOf(StateAt(connect, buf, i + 1)) == Some(Host)
        && AllClasses(connect, buf)[i] == HostFieldOf(HostAt(found, host, i - m[Host].off + 1))
      else
        && FieldOf(StateAt(connect, buf, i + 1)) != Some(Host)
        && AllClasses(connect, buf)[i] == FieldOf(StateAt(connect, buf, i + 1))
  {
    hide UrlClasses, HostClasses, FoundAt, HostText, AllClasses, HostAt, StateAt, FieldOf, HostFieldOf;
    UrlClassesLength(connect, buf);
    UrlClassesAt(connect, buf, i);
    if Host in m {
      HostRegion(connect, buf, m);
      assert ExactSpan(m, Host, 0, UrlClasses(connect, buf));
      assert Covers(m[Host], 0 + i) <==> UrlClasses(connect, buf)[i] == Some(Host);
      if m[Host].off <= i < m[Host].off + m[Host].len {
        HostClassesAt(FoundAt(connect, buf), HostText(connect, buf), i - m[Host].off);
      }
    } else {
      NoHostClasses(connect, buf, m);
      assert ExactSpan(m, Host, 0, UrlClasses(connect, buf));
    }
  }

  lemma NotDead(connect: bool, buf: string, i: nat)
    requires i <= |buf| && !UrlRun(StartState(connect), buf).Dead?
    ensures !StateAt(connect, buf, i).Dead?
  {
    hide UrlRun;
    assert buf[..|buf|] == buf;
    if StateAt(connect, buf, i).Dead? { DeadForever(connect, buf, i, |buf|); }
  }

  lemma HostNotDead(found: bool, host: string, i: nat)
    requires i <= |host| && !HostRun(HostStartState(found), host).HostDead?
    ensures !HostAt(found, host, i).HostDead?
  {
    hide HostRun;
    if HostAt(found, host, i).HostDead? { HostDeadEnd(found, host, i); }
  }

  /** The host part is present exactly when the first automaton found one. */
  lemma HostSpan(connect: bool, buf: string, m: Fields)
    requires Scanned(connect, buf, m) && Divided(connect, buf)
    ensures Host in m ==> !HostEnd(connect, buf).HostDead? && HostRank(HostEnd(connect, buf)) >= 4
  {
    hide UrlClasses, UrlRun, HostRun, HostText, FoundAt, Present;
    UrlClassesLength(connect, buf);
    PresentExact(m, UrlClasses(connect, buf));
  }

  /** A byte in no field is a delimiter. */
  lemma Delimited(connect: bool, buf: string, i: nat)
    requires Divided(connect, buf) && i < |buf| && AllClassesOf(connect, buf)[i].None?
    ensures IsDelimiter(buf[i])
  {
    hide UrlClasses, HostClasses, FoundAt, HostText, AllClasses, HostAt, StateAt, FieldOf, HostFieldOf, UrlRun,
      HostRun, ParseUrlChar, HostChar, IsDelimiter, Scanning;
    NotDead(connect, buf, i + 1);
    NotDead(connect, buf, |buf|);
    var m, recent := SpansExist(connect, buf, |buf|);
    ScanEnd(connect, buf, m, recent);
    ByteClass(connect, buf, m, i);
    HostSpan(connect, buf, m);
    if Host in m && m[Host].off <= i < m[Host].off + m[Host].len {
      var found, host, k := FoundAt(connect, buf), HostText(connect, buf), i - m[Host].off;
      HostNotDead(found, host, k + 1);
      HostNext(found, host, k);
      HostDelimiter(HostAt(found, host, k), host[k]);
    } else {
      StateNext(connect, buf, i);
      UrlDelimiter(StateAt(connect, buf, i), buf[i]);
    }
  }

  /** Later bytes belong to the same field or to a later one. */
  lemma Ordered(connect: bool, buf: string, i: nat, j: nat)
    requires Divided(connect, buf) && i < j < |buf|
    requires var a := AllClassesOf(connect, buf); a[i].Some? && a[j].Some?
    ensures var a := AllClassesOf(connect, buf); Order(a[i].value) <= Order(a[j].value)
  {
    hide UrlClasses, HostClasses, FoundAt, HostText, AllClasses, HostAt, StateAt, FieldOf, HostFieldOf, UrlRun,
      HostRun, Scanning, UrlRank, HostRank, Order, Divided;
    assert !UrlRun(StartState(connect), buf).Dead? by { DividedAlive(connect, buf); }
    NotDead(connect, buf, |buf|);
    var m, recent := SpansExist(connect, buf, |buf|);
    ScanEnd(connect, buf, m, recent);
    ByteClass(connect, buf, m, i);
    ByteClass(connect, buf, m, j);
    Forward(connect, buf, i + 1, j + 1);
    var s, t := StateAt(connect, buf, i + 1), StateAt(connect, buf, j + 1);
    if FieldOf(s).Some? && FieldOf(t).Some? {
      UrlOrder(s, t);
      if FieldOf(s) == Some(Host) && FieldOf(t) == Some(Host) {
        var found, host, o := FoundAt(connect, buf), HostText(connect, buf), m[Host].off;
        HostForward(found, host, i - o + 1, j - o + 1);
        HostOrder(HostAt(found, host, i - o + 1), HostAt(found, host, j - o + 1));
      } else if FieldOf(s) == Some(Host) {
        HostLevel(HostAt(FoundAt(connect, buf), HostText(connect, buf), i - m[Host].off + 1), FieldOf(t).value);
      } else if FieldOf(t) == Some(Host) {
        HostLevel(HostAt(FoundAt(connect, buf), HostText(connect, buf), j - m[Host].off + 1), FieldOf(s).value);
      }
    }
  }

  lemma DividedAlive(connect: bool, buf: string)
    requires Divided(connect, buf)
    ensures !UrlRun(StartState(connect), buf).Dead?
  {}

  /** The parts of the host lie between the other fields. */
  lemma HostLevel(s: HostState, f: UrlField)
    requires HostFieldOf(s).Some? && f !in {Userinfo, Port}
    ensures Order(Host) < Order(f) ==> Order(HostFieldOf(s).value) < Order(f)
    ensures Order(f) < Order(Host) ==> Order(f) < Order(HostFieldOf(s).value)
  {}

  // ----- hosts are not empty -----

  lemma {:induction false} HostNonEmpty(found: bool, host: string)
    requires var e := HostRun(HostStartState(found), host); HostRank(e) >= 4 && !e.HostDead?
    ensures Present(HostClasses(found, host), Host)
  {
    hide IsHostChar, IsUserinfoChar, IsZoneChar, IsHex;
    assert host != [];
    var n := |host| - 1;
    var c := HostClasses(found, host[..n]);
    var s := HostRun(HostStartState(found), host[..n]);
    if HostRank(s) >= 4 {
      HostNonEmpty(found, host[..n]);
      assert Present(c, Host);
    } else {
      HostBegins(s, host[n]);
      assert HostClasses(found, host)[|c|] == Some(Host);
    }
  }

  lemma HostBegins(s: HostState, ch: char)
    requires HostRank(s) < 4 <= HostRank(HostChar(s, ch)) && !HostChar(s, ch).HostDead?
    ensures HostFieldOf(HostChar(s, ch)) == Some(Host)
  {}

  /** Whatever needs a host has one. */
  lemma HostThere(connect: bool, buf: string, f: UrlField)
    requires Divided(connect, buf) && Present(AllClassesOf(connect, buf), f) && f in {Schema, Userinfo, Port}
    ensures Present(AllClassesOf(connect, buf), Host)
  {
    hide UrlClasses, HostClasses, FoundAt, HostText, AllClasses, HostAt, StateAt, FieldOf, HostFieldOf, UrlRun,
      HostRun, Scanning, UrlRank, HostRank;
    var a := AllClassesOf(connect, buf);
    NotDead(connect, buf, |buf|);
    var m, recent := SpansExist(connect, buf, |buf|);
    ScanEnd(connect, buf, m, recent);
    UrlClassesLength(connect, buf);
    PresentExact(m, UrlClasses(connect, buf));
    if Host !in m {
      NoHostClasses(connect, buf, m);
    } else {
      HostRegion(connect, buf, m);
      HostSpan(connect, buf, m);
      var h := HostClasses(FoundAt(connect, buf), HostText(connect, buf));
      HostNonEmpty(FoundAt(connect, buf), HostText(connect, buf));
      var k :| 0 <= k < |h| && h[k] == Some(Host);
      assert a[m[Host].off + k] == Some(Host);
    }
  }

  /** The partition. */
  predicate Partitioned(buf: string, r: Fields) {
    && (forall f: UrlField :: f in r ==> r[f].len > 0 && r[f].off + r[f].len <= |buf|)
    && (forall f: UrlField, g: UrlField ::
          f in r && g in r && Order(f) < Order(g) ==> r[f].off + r[f].len <= r[g].off)
    && (forall i: nat :: i < |buf| && (forall f: UrlField :: f in r ==> !Covers(r[f], i)) ==> IsDelimiter(buf[i]))
    && (Schema in r || Userinfo in r || Port in r ==> Host in r)
  }

  lemma PartitionOrder(connect: bool, buf: string, r: Fields, f: UrlField, g: UrlField)
    requires Divided(connect, buf) && Exact(r, 0, AllClassesOf(connect, buf))
    requires f in r && g in r && Order(f) < Order(g)
    ensures r[f].off + r[f].len <= r[g].off
  {
    hide AllClasses, Divided;
    var a := AllClassesOf(connect, buf);
    assert ExactSpan(r, f, 0, a) && ExactSpan(r, g, 0, a);
    var j, i := r[f].off + r[f].len - 1, r[g].off;
    assert Covers(r[f], 0 + j) <==> a[j] == Some(f);
    assert Covers(r[g], 0 + i) <==> a[i] == Some(g);
    if i < j { Ordered(connect, buf, i, j); }
  }

  lemma Uncovered(r: Fields, a: Classes, i: nat)
    requires Exact(r, 0, a) && i < |a| && forall f: UrlField :: f in r ==> !Covers(r[f], i)
    ensures a[i].None?
  {
    forall f: UrlField ensures a[i] != Some(f) {
      assert ExactSpan(r, f, 0, a);
      assert f in r ==> (Covers(r[f], 0 + i) <==> a[i] == Some(f));
    }
    if a[i].Some? { assert false; }
  }

  /** Every URL that `http_parser_parse_url` divides is partitioned by its fields. */
  lemma AcceptedIsPartitioned(connect: bool, buf: string, r: Fields)
    requires Divided(connect, buf) && Exact(r, 0, AllClassesOf(connect, buf))
    ensures Partitioned(buf, r)
  {
    hide AllClasses, Divided, IsDelimiter, Order;
    var a := AllClassesOf(connect, buf);
    PresentExact(r, a);
    forall f: UrlField | f in r ensures r[f].len > 0 && r[f].off + r[f].len <= |buf| {
      assert ExactSpan(r, f, 0, a);
    }
    forall f: UrlField, g: UrlField | f in r && g in r && Order(f) < Order(g)
      ensures r[f].off + r[f].len <= r[g].off
    {
      PartitionOrder(connect, buf, r, f, g);
    }
    forall i: nat | i < |buf| && (forall f: UrlField :: f in r ==> !Covers(r[f], i)) ensures IsDelimiter(buf[i]) {
      Uncovered(r, a, i);
      Delimited(connect, buf, i);
    }
    forall f: UrlField | f in r && f in {Schema, Userinfo, Port} ensures Host in r {
      HostThere(connect, buf, f);
    }
  }
}
