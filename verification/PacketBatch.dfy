/** `Handler::write_streams`: packets gathered for UDP generic segmentation
    offload (GSO), or sent one by one. */
module PacketBatch {
  import opened Octets
  import opened Options

  /** A local endpoint, and the bytes of a remote socket address. */
  type Endpoint = nat
  type Address = seq<Byte>

  /** A packet that the QUIC library wrote for a path; also a datagram on the wire. */
  datatype Packet = Packet(local: Endpoint, remote: Address, bytes: Bytes)

  /** A call on the HTTP connection. */
  datatype HttpCall = AddWriteOffset(stream: int, n: nat) | BlockStream(stream: int)

  /** What one pass of the loop gets from the two libraries. `n` is `ndatalen`;
      None is -1. `fails` is the answer of the HTTP call that the pass makes. */
  datatype Outcome =
    | HttpFails
    | Blocked(dataLeft: nat, stream: int, fails: bool)
    | ShutWr(stream: int, fails: bool)
    | WriteMore(stream: int, n: nat, fails: bool)
    | Fails
    | CongestionLimited
    | Wrote(packet: Packet, stream: int, taken: Option<nat>, fails: bool)

  /** `max_pktcnt` */
  const MAX_PACKETS := 10

  /** The library fills at most the space it is given. */
  predicate LegalOutcome(o: Outcome, pktLen: nat) {
    && (o.WriteMore? ==> o.n > 0)
    && (o.Wrote? ==> 0 < |o.packet.bytes| <= pktLen)
  }

  // ----- what a run of outcomes amounts to -----

  /** The packets written. */
  function Packets(os: seq<Outcome>): seq<Packet> {
    if os == [] then []
    else Packets(os[..|os| - 1]) + (if os[|os| - 1].Wrote? then [os[|os| - 1].packet] else [])
  }

  /** The calls on the HTTP connection. */
  function CallsOf(o: Outcome): seq<HttpCall> {
    match o
    case Blocked(_, stream, _) => [BlockStream(stream)]
    case ShutWr(stream, _) => [BlockStream(stream)]
    case WriteMore(stream, n, _) => [AddWriteOffset(stream, n)]
    case Wrote(_, stream, Some(n), _) => [AddWriteOffset(stream, n)]
    case _ => []
  }

  function HttpCalls(os: seq<Outcome>): seq<HttpCall> {
    if os == [] then [] else HttpCalls(os[..|os| - 1]) + CallsOf(os[|os| - 1])
  }

  lemma PacketsSnoc(os: seq<Outcome>, i: nat)
    requires i < |os|
    ensures os[i].Wrote? ==> Packets(os[..i + 1]) == Packets(os[..i]) + [os[i].packet]
    ensures !os[i].Wrote? ==> Packets(os[..i + 1]) == Packets(os[..i])
    ensures HttpCalls(os[..i + 1]) == HttpCalls(os[..i]) + CallsOf(os[i])
  {
    assert os[..i + 1][..i] == os[..i];
  }

  /** Where the packets were written: `at` lists the passes in which the library wrote
      one, and these are the packets, in that order. */
  predicate WrittenAt(os: seq<Outcome>, ps: seq<Packet>, at: seq<nat>) {
    && |at| == |ps|
    && (forall k :: 0 <= k < |at| ==> at[k] < |os| && os[at[k]].Wrote? && os[at[k]].packet == ps[k])
    && (forall k, l :: 0 <= k < l < |at| ==> at[k] < at[l])
    && (forall i :: 0 <= i < |os| && os[i].Wrote? ==> i in at)
  }

  lemma {:induction false} PacketsInOrder(os: seq<Outcome>) returns (at: seq<nat>)
    ensures WrittenAt(os, Packets(os), at)
  {
    hide WrittenAt;
    at := [];
    if os == [] {
      NoneWritten();
    } else {
      var n := |os| - 1;
      at := PacketsInOrder(os[..n]);
      OneWritten(os, Packets(os[..n]), at);
      if os[n].Wrote? { at := at + [n]; }
    }
  }

  lemma NoneWritten()
    ensures WrittenAt([], [], [])
  {}

  lemma OneWritten(os: seq<Outcome>, ps: seq<Packet>, at: seq<nat>)
    requires os != [] && WrittenAt(os[..|os| - 1], ps, at)
    ensures var n := |os| - 1;
      if os[n].Wrote? then WrittenAt(os, ps + [os[n].packet], at + [n]) else WrittenAt(os, ps + [], at)
  {
    var n := |os| - 1;
    assert ps + [] == ps;
    forall i | 0 <= i < n && os[i].Wrote? ensures i in at { assert os[..n][i] == os[i]; }
    if os[n].Wrote? {
      assert (at + [n])[|at|] == n;
      assert forall i :: i in at ==> i in at + [n];
    }
  }

  /** What is on the wire for packets `ps`: with GSO a batch leaves through the
      endpoint of its first packet. */
  function Wire(gso: bool, ps: seq<Packet>): seq<Packet> {
    if gso && ps != [] then seq(|ps|, i requires 0 <= i < |ps| => ps[i].(local := ps[0].local)) else ps
  }

  /** The endpoint that the last packet leaves through. */
  function Through(gso: bool, ps: seq<Packet>): Endpoint
    requires ps != []
  {
    if gso then ps[0].local else ps[|ps| - 1].local
  }

  /** The two ways to send agree exactly when the batch has one endpoint. */
  lemma SameWire(ps: seq<Packet>)
    ensures Wire(true, ps) == Wire(false, ps) <==> forall i :: 0 <= i < |ps| ==> ps[i].local == ps[0].local
    ensures |Wire(true, ps)| == |ps|
    ensures forall i :: 0 <= i < |ps| ==>
              Wire(true, ps)[i].remote == ps[i].remote && Wire(true, ps)[i].bytes == ps[i].bytes
    ensures Wire(false, ps) == ps && forall i :: 0 <= i < |ps| ==> Wire(true, ps)[i].local == ps[0].local
  {
    if Wire(true, ps) == Wire(false, ps) {
      forall i | 0 <= i < |ps| ensures ps[i].local == ps[0].local {
        assert Wire(true, ps)[i] == Wire(false, ps)[i];
      }
    }
  }

  /** Two full packets to one address that were written for different endpoints:
      with GSO the second leaves through the endpoint of the first. */
  lemma SecondEndpointLost(to: Address, bytes: Bytes)
    ensures var ps := [Packet(1, to, bytes), Packet(2, to, bytes)];
      && Wire(true, ps) == [Packet(1, to, bytes), Packet(1, to, bytes)]
      && Wire(false, ps) == ps
      && Wire(true, ps) != Wire(false, ps)
      && (bytes != [] ==> OneSend(ps, to, |bytes|) && !BatchEnds(true, |bytes|, ps))
  {
    var ps := [Packet(1, to, bytes), Packet(2, to, bytes)];
    assert Wire(true, ps)[1] != Wire(false, ps)[1];
  }

  /** The reason for stopping with the write watcher started: ten packets, or with
      GSO a packet that has to end its batch. */
  predicate BatchEnds(gso: bool, pktLen: nat, ps: seq<Packet>) {
    && ps != []
    && (|ps| == MAX_PACKETS
        || (gso && |ps[|ps| - 1].bytes| < pktLen)
        || (gso && |ps| > 1 && ps[|ps| - 2].remote != ps[|ps| - 1].remote))
  }

  /** The library has nothing to send now. */
  predicate Idle(os: seq<Outcome>, used: nat) {
    used >= |os| || os[used].CongestionLimited? || (os[used].Blocked? && os[used].dataLeft == 0)
  }

  /** The pass fails: one of the libraries does, or the HTTP connection where it
      has to be told something. */
  predicate Breaks(o: Outcome) {
    match o
    case HttpFails => true
    case Fails => true
    case CongestionLimited => false
    case Blocked(left, _, fails) => left > 0 && fails
    case ShutWr(_, fails) => fails
    case WriteMore(_, _, fails) => fails
    case Wrote(_, _, taken, fails) => taken.Some? && fails
  }

  // ----- what the HTTP connection learns -----

  /** The bytes of `stream` that the library took. */
  function Taken(os: seq<Outcome>, stream: int): nat {
    if os == [] then 0
    else
      Taken(os[..|os| - 1], stream)
      + match os[|os| - 1]
        case WriteMore(s, n, _) => if s == stream then n else 0
        case Wrote(_, s, Some(n), _) => if s == stream then n else 0
        case _ => 0
  }

  /** The bytes of `stream` that the HTTP connection was told are taken. */
  function Added(calls: seq<HttpCall>, stream: int): nat {
    if calls == [] then 0
    else
      Added(calls[..|calls| - 1], stream)
      + match calls[|calls| - 1]
        case AddWriteOffset(s, n) => if s == stream then n else 0
        case BlockStream(_) => 0
  }

  /** How often the library could not write `stream`, although it had room for data. */
  function Refusals(os: seq<Outcome>, stream: int): nat {
    if os == [] then 0
    else
      Refusals(os[..|os| - 1], stream)
      + match os[|os| - 1]
        case ShutWr(s, _) => if s == stream then 1 else 0
        case Blocked(left, s, _) => if s == stream && left > 0 then 1 else 0
        case _ => 0
  }

  function Blocks(calls: seq<HttpCall>, stream: int): nat {
    if calls == [] then 0
    else Blocks(calls[..|calls| - 1], stream) + if calls[|calls| - 1] == BlockStream(stream) then 1 else 0
  }

  /** The HTTP connection knows of every byte taken and of every stream refused;
      and it learnt it in order, as it did so at every point. */
  ghost predicate Reported(calls: seq<HttpCall>, os: seq<Outcome>)
    decreases |os|
  {
    && (forall s: int :: Added(calls, s) == Taken(os, s) && Blocks(calls, s) == Refusals(os, s))
    && (os != [] ==>
          exists n :: 0 <= n <= |calls| && Reported(calls[..n], os[..|os| - 1]))
  }

  lemma CallsSnoc(calls: seq<HttpCall>, more: seq<HttpCall>, s: int)
    requires |more| <= 1
    ensures Added(calls + more, s) == Added(calls, s) + Added(more, s)
    ensures Blocks(calls + more, s) == Blocks(calls, s) + Blocks(more, s)
  {
    if more == [] {
      assert calls + more == calls;
    } else {
      assert (calls + more)[..|calls|] == calls;
      assert more[..0] == [];
    }
  }

  lemma {:induction false} CallsReport(os: seq<Outcome>)
    requires forall k :: 0 <= k < |os| ==> !Idle(os, k)
    ensures Reported(HttpCalls(os), os)
  {
    if os != [] {
      var front, o := os[..|os| - 1], os[|os| - 1];
      assert forall k :: 0 <= k < |front| ==> Idle(front, k) == Idle(os, k);
      assert !Idle(os, |os| - 1);
      CallsReport(front);
      var c := HttpCalls(front);
      forall s: int ensures Added(HttpCalls(os), s) == Taken(os, s) && Blocks(HttpCalls(os), s) == Refusals(os, s) {
        CallsSnoc(c, CallsOf(o), s);
        OneReport(o, s);
      }
      assert HttpCalls(os)[..|c|] == c;
    }
  }

  lemma OneReport(o: Outcome, s: int)
    requires !(o.Blocked? && o.dataLeft == 0)
    ensures |CallsOf(o)| <= 1
    ensures Added(CallsOf(o), s) == (match o
                                     case WriteMore(t, n, _) => if t == s then n else 0
                                     case Wrote(_, t, Some(n), _) => if t == s then n else 0
                                     case _ => 0)
    ensures Blocks(CallsOf(o), s) == (match o
                                      case ShutWr(t, _) => if t == s then 1 else 0
                                      case Blocked(left, t, _) => if t == s && left > 0 then 1 else 0
                                      case _ => 0)
  {
    if CallsOf(o) != [] { assert CallsOf(o)[..0] == []; }
  }

  // ----- segmentation -----

  /** The segments of a send with segment size `size`; 0 asks for no segmentation. */
  function Cut(data: Bytes, size: nat): seq<Bytes> {
    if size == 0 || |data| <= size then [data] else [data[..size]] + Cut(data[size..], size)
  }

  function Concat(ps: seq<Bytes>): Bytes {
    if ps == [] then [] else ps[0] + Concat(ps[1..])
  }

  lemma {:induction false} CutConcat(ps: seq<Bytes>, size: nat)
    requires size > 0 && ps != [] && 0 < |ps[|ps| - 1]| <= size
    requires forall i :: 0 <= i < |ps| - 1 ==> |ps[i]| == size
    ensures Cut(Concat(ps), size) == ps
  {
    if |ps| == 1 {
      assert ps[1..] == [] && Concat(ps) == ps[0] + [] == ps[0];
      assert ps == [ps[0]];
    } else {
      var rest := ps[1..];
      CutConcat(rest, size);
      ConcatLength(rest);
      var all := ps[0] + Concat(rest);
      assert Concat(ps) == all;
      hide Concat;
      assert all[..size] == ps[0] && all[size..] == Concat(rest);
      assert [ps[0]] + rest == ps;
    }
  }

  lemma {:induction false} ConcatLength(ps: seq<Bytes>)
    requires ps != []
    ensures |Concat(ps)| >= |ps[|ps| - 1]|
  {
    if |ps| > 1 { ConcatLength(ps[1..]); }
  }

  lemma {:induction false} ConcatSnoc(ps: seq<Bytes>, b: Bytes)
    ensures Concat(ps + [b]) == Concat(ps) + b
  {
    if ps == [] {
      assert ps + [b] == [b] && [b][1..] == [];
    } else {
      assert (ps + [b])[1..] == ps[1..] + [b];
      ConcatSnoc(ps[1..], b);
    }
  }

  function Contents(ps: seq<Packet>): seq<Bytes> { seq(|ps|, i requires 0 <= i < |ps| => ps[i].bytes) }

  /** The datagrams of one send. */
  function Datagrams(from: Endpoint, to: Address, data: seq<Bytes>): seq<Packet> {
    seq(|data|, i requires 0 <= i < |data| => Packet(from, to, data[i]))
  }

  /** A batch that one send can carry: full packets to one address, the last of
      them possibly shorter. */
  predicate OneSend(ps: seq<Packet>, to: Address, size: nat) {
    && ps != [] && 0 < |ps[|ps| - 1].bytes| <= size
    && (forall i :: 0 <= i < |ps| - 1 ==> |ps[i].bytes| == size)
    && (forall i :: 0 <= i < |ps| ==> ps[i].remote == to)
  }

  lemma OneSendDelivers(ps: seq<Packet>, to: Address, size: nat)
    requires OneSend(ps, to, size)
    ensures Datagrams(ps[0].local, to, Cut(Concat(Contents(ps)), size)) == Wire(true, ps)
  {
    CutConcat(Contents(ps), size);
  }

  lemma RoomForOne(count: nat, size: nat)
    requires count < MAX_PACKETS
    ensures count * size + size <= MAX_PACKETS * size
  {
    assert count * size <= (MAX_PACKETS - 1) * size;
  }

  // ----- the handler -----

  class Handler {
    const gso: bool
    const pktLen: nat
    const buf: array<Byte>
    var endpoint: Endpoint
    var remote: Address
    /** `ev_io_start` on the write watcher. */
    var watching: bool
    ghost var wire: seq<Packet>
    ghost var calls: seq<HttpCall>

    ghost predicate Valid() {
      0 < pktLen && buf.Length >= pktLen * MAX_PACKETS
    }

    constructor (gso: bool, pktLen: nat, space: nat, endpoint: Endpoint, remote: Address)
      requires 0 < pktLen <= space
      ensures Valid() && this.gso == gso && this.pktLen == pktLen && fresh(buf)
      ensures this.endpoint == endpoint && this.remote == remote
      ensures !watching && wire == [] && calls == []
    {
      this.gso, this.pktLen, this.endpoint, this.remote := gso, pktLen, endpoint, remote;
      buf := new Byte[space * MAX_PACKETS];
      watching, wire, calls := false, [], [];
    }

    /** `Server::send_packet`, when no loss is simulated: the kernel cuts a send
        that is longer than the segment size. */
    method SendPacket(data: Bytes, size: nat)
      modifies `wire
      ensures wire == old(wire) + Datagrams(endpoint, remote, Cut(data, if gso then size else 0))
    {
      wire := wire + Datagrams(endpoint, remote, Cut(data, if gso then size else 0));
    }

    /** The library writes a packet at `pos`, where there has to be room for one. */
    method Fill(pos: nat, bytes: Bytes)
      requires Valid() && pos + pktLen <= buf.Length && |bytes| <= pktLen
      modifies buf
      ensures buf[..pos] == old(buf[..pos]) && buf[pos..pos + |bytes|] == bytes
    {
      forall k | 0 <= k < |bytes| { buf[pos + k] := bytes[k]; }
    }

    /** What the loop of `write_streams` has in the buffer. */
    ghost predicate Gathered(ps: seq<Packet>, pos: nat, count: nat)
      reads `endpoint, `remote, buf
    {
      && Valid() && count == |ps| < MAX_PACKETS
      && (ps != [] ==> endpoint == Through(gso, ps) && remote == ps[|ps| - 1].remote)
      && if gso then
           && pos == count * pktLen
           && buf[..pos] == Concat(Contents(ps))
           && forall k :: 0 <= k < |ps| ==> |ps[k].bytes| == pktLen && ps[k].remote == remote
         else pos == 0
    }

    lemma GatheredNone()
      requires Valid()
      ensures Gathered([], 0, 0)
    {
      Nothing();
      hide Concat;
    }

    lemma GatheredFacts(ps: seq<Packet>, pos: nat, count: nat)
      requires Gathered(ps, pos, count)
      ensures Valid() && |ps| < MAX_PACKETS
      ensures ps != [] ==> endpoint == Through(gso, ps) && remote == ps[|ps| - 1].remote
    {
      hide Concat, Contents, Through;
    }

    /** The library writes the next packet behind those gathered: there is room. */
    method WriteBehind(ghost ps: seq<Packet>, bytes: Bytes, pos: nat, ghost count: nat)
      requires Gathered(ps, pos, count) && |bytes| <= pktLen
      modifies buf
      ensures Gathered(ps, pos, count)
      ensures pos + |bytes| <= buf.Length && buf[pos..pos + |bytes|] == bytes
    {
      hide Concat, Contents, Through;
      RoomForOne(count, pktLen);
      Fill(pos, bytes);
    }

    /** One send of what the buffer holds up to `pos`. */
    method SendBatch(ghost ps: seq<Packet>, pos: nat)
      requires gso && pos <= buf.Length && buf[..pos] == Concat(Contents(ps))
      requires OneSend(ps, remote, pktLen) && endpoint == ps[0].local
      modifies `wire
      ensures wire == old(wire) + Wire(true, ps)
    {
      hide Concat, Contents, Wire, Cut, Datagrams;
      OneSendDelivers(ps, remote, pktLen);
      SendPacket(buf[..pos], pktLen);
    }

    /** The send before returning to the event loop. */
    method Flush(ghost ps: seq<Packet>, pos: nat, count: nat)
      requires Gathered(ps, pos, count)
      modifies `wire
      ensures wire == old(wire) + if gso then Wire(gso, ps) else []
    {
      hide Gathered, Wire, OneSend, Through;
      GatheredSends(ps, pos, count);
      Nothing();
      hide Concat, Contents;
      if pos > 0 { SendBatch(ps, pos); }
    }

    lemma GatheredSends(ps: seq<Packet>, pos: nat, count: nat)
      requires Gathered(ps, pos, count)
      ensures if pos == 0 then gso ==> ps == []
              else
                && gso && pos <= buf.Length && buf[..pos] == Concat(Contents(ps))
                && OneSend(ps, remote, pktLen) && endpoint == ps[0].local
    {
      hide Concat, Contents;
      if count > 0 {
        RoomForOne(count - 1, pktLen);
        assert count * pktLen == (count - 1) * pktLen + pktLen;
      }
    }

    /** What `write_streams` does with a packet that the library has just written:
        `pos` is behind it, `ps` are the packets before it. With GSO the packet
        joins the batch, unless it goes to another address. */
    method Gather(ghost ps: seq<Packet>, p: Packet, pos: nat, count: nat) returns (count': nat, done: bool)
      requires gso && 0 < |p.bytes| <= pktLen && |p.bytes| <= pos <= buf.Length
      requires Gathered(ps, pos - |p.bytes|, count) && buf[pos - |p.bytes|..pos] == p.bytes
      modifies this`endpoint, this`remote, this`wire
      ensures done <==> BatchEnds(gso, pktLen, ps + [p])
      ensures !done ==> Gathered(ps + [p], pos, count')
      ensures done ==> endpoint == Through(gso, ps + [p]) && remote == p.remote
      ensures wire == old(wire) + if done then Wire(true, ps + [p]) else []
    {
      hide Concat, Contents, Wire;
      var n := |p.bytes|;
      count', done := count + 1, true;
      if count == 0 {
        endpoint, remote := p.local, p.remote;
      } else if remote != p.remote {
        SendBatch(ps, pos - n);
        remote := p.remote;
        SendBatchOfOne(p, pos);
        WireMore(ps, p);
        return;
      }
      GatherOne(ps, p);
      assert buf[..pos] == buf[..pos - n] + buf[pos - n..pos];
      if count' == MAX_PACKETS || n < pktLen {
        SendBatch(ps + [p], pos);
      } else {
        done := false;
      }
    }

    /** A packet on its own, at the end of the buffer. */
    method SendBatchOfOne(p: Packet, pos: nat)
      requires |p.bytes| <= pktLen && |p.bytes| <= pos <= buf.Length
      requires buf[pos - |p.bytes|..pos] == p.bytes && remote == p.remote
      modifies `wire
      ensures wire == old(wire) + [Packet(endpoint, p.remote, p.bytes)]
    {
      SendPacket(buf[pos - |p.bytes|..pos], pktLen);
    }

    lemma WireMore(ps: seq<Packet>, p: Packet)
      requires ps != []
      ensures Wire(true, ps + [p]) == Wire(true, ps) + [Packet(ps[0].local, p.remote, p.bytes)]
    {}

    /** Without GSO it is sent at once. */
    method SendOne(ghost ps: seq<Packet>, p: Packet, pos: nat, count: nat) returns (count': nat, done: bool)
      requires !gso && |p.bytes| == pos <= buf.Length
      requires Gathered(ps, 0, count) && buf[..pos] == p.bytes
      modifies this`endpoint, this`remote, this`wire
      ensures done <==> BatchEnds(gso, pktLen, ps + [p])
      ensures !done ==> Gathered(ps + [p], 0, count')
      ensures done ==> endpoint == Through(gso, ps + [p]) && remote == p.remote
      ensures wire == old(wire) + [p]
    {
      hide Concat, Contents;
      endpoint, remote := p.local, p.remote;
      SendPacket(buf[..pos], 0);
      count' := count + 1;
      done := count' == MAX_PACKETS;
    }

    /** The pass in which the library writes a packet. */
    method TakePacket(ghost ps: seq<Packet>, o: Outcome, pos: nat, count: nat)
      returns (added: bool, pos': nat, count': nat, done: bool)
      requires o.Wrote? && 0 < |o.packet.bytes| <= pktLen && Gathered(ps, pos, count)
      modifies this`endpoint, this`remote, this`wire, this`calls, buf
      ensures added <==> o.taken.None? || !o.fails
      ensures !added ==> wire == old(wire) && calls == old(calls)
      ensures added ==>
        var now := ps + [o.packet];
        && (done <==> BatchEnds(gso, pktLen, now))
        && (!done ==> Gathered(now, pos', count'))
        && (done ==> endpoint == Through(gso, now) && remote == o.packet.remote)
        && wire == old(wire) + (if !gso then [o.packet] else if done then Wire(true, now) else [])
        && calls == old(calls) + CallsOf(o)
    {
      hide Concat, Contents, Wire, BatchEnds, Through;
      hide Gathered;
      var p := o.packet;
      WriteBehind(ps, p.bytes, pos, count);
      added, pos', count', done := true, pos + |p.bytes|, count, false;
      if o.taken.Some? {
        if o.fails { return false, pos, count, false; }
        calls := calls + [AddWriteOffset(o.stream, o.taken.value)];
      }
      pos', count', done := PassOn(ps, p, pos', count);
    }

    /** A packet just written is gathered or sent. */
    method PassOn(ghost ps: seq<Packet>, p: Packet, pos: nat, count: nat)
      returns (pos': nat, count': nat, done: bool)
      requires 0 < |p.bytes| <= pktLen && |p.bytes| <= pos <= buf.Length
      requires Gathered(ps, pos - |p.bytes|, count) && buf[pos - |p.bytes|..pos] == p.bytes
      modifies this`endpoint, this`remote, this`wire
      ensures done <==> BatchEnds(gso, pktLen, ps + [p])
      ensures !done ==> Gathered(ps + [p], pos', count')
      ensures done ==> endpoint == Through(gso, ps + [p]) && remote == p.remote
      ensures wire == old(wire) + (if !gso then [p] else if done then Wire(true, ps + [p]) else [])
    {
      hide Concat, Contents, Wire, BatchEnds, Through;
      pos' := pos;
      if gso {
        count', done := Gather(ps, p, pos, count);
      } else {
        count', done := SendOne(ps, p, pos, count);
        pos' := 0;
      }
    }

    /** The passes that only tell the HTTP connection something. */
    method TellHttp(o: Outcome) returns (ok: bool)
      requires o.Blocked? || o.ShutWr? || o.WriteMore?
      modifies this`calls
      ensures ok <==> !o.fails
      ensures calls == old(calls) + if ok then CallsOf(o) else []
    {
      if o.fails { return false; }
      match o {
        case Blocked(_, stream, _) => calls := calls + [BlockStream(stream)];
        case ShutWr(stream, _) => calls := calls + [BlockStream(stream)];
        case WriteMore(stream, n, _) => calls := calls + [AddWriteOffset(stream, n)];
      }
      ok := true;
    }

    lemma EndReasons(ps: seq<Packet>)
      ensures var n := |ps|;
        BatchEnds(gso, pktLen, ps) ==>
          || n == 10
          || (gso && n > 0 && |ps[n - 1].bytes| < pktLen)
          || (gso && n > 1 && ps[n - 1].remote != ps[n - 2].remote)
    {}

    lemma Nothing()
      ensures Concat(Contents([])) == [] && !BatchEnds(gso, pktLen, [])
      ensures forall ps :: Wire(false, ps) == ps
      ensures Wire(gso, []) == [] && Packets([]) == [] && HttpCalls([]) == []
    {}

    lemma GatherOne(ps: seq<Packet>, p: Packet)
      ensures Concat(Contents(ps + [p])) == Concat(Contents(ps)) + p.bytes
    {
      ConcatSnoc(Contents(ps), p.bytes);
      assert Contents(ps + [p]) == Contents(ps) + [p.bytes];
    }

    /** The library was neither idle nor in error in the first `n` passes, and the
        batch had not ended before any of them. */
    ghost predicate WentOn(os: seq<Outcome>, n: nat) {
      && n <= |os|
      && (forall k :: 0 <= k < n ==> !Idle(os, k) && !Breaks(os[k]))
      && (forall k :: 0 <= k < n ==> !BatchEnds(gso, pktLen, Packets(os[..k])))
    }

    lemma WentOnAtFirst(os: seq<Outcome>)
      ensures WentOn(os, 0)
    {}

    lemma WentOnNext(os: seq<Outcome>, n: nat)
      requires WentOn(os, n) && n < |os| && !BatchEnds(gso, pktLen, Packets(os[..n]))
      requires !Idle(os, n) && !Breaks(os[n])
      ensures WentOn(os, n + 1)
    {
      hide BatchEnds, Packets;
    }

    lemma WentOnReports(os: seq<Outcome>, n: nat)
      requires WentOn(os, n)
      ensures Reported(HttpCalls(os[..n]), os[..n])
    {
      hide Breaks, BatchEnds, HttpCalls, Reported;
      assert forall k :: 0 <= k < n ==> Idle(os[..n], k) == Idle(os, k);
      CallsReport(os[..n]);
    }

    /** `Handler::write_streams`. `used` counts the passes that were completed. */
    method WriteStreams(os: seq<Outcome>) returns (ok: bool, ghost used: nat)
      requires Valid() && forall k :: 0 <= k < |os| ==> LegalOutcome(os[k], pktLen)
      modifies this, buf
      ensures used <= |os| && |Packets(os[..used])| <= MAX_PACKETS
      // every packet is sent, in order, to its own address
      ensures ok ==> wire == old(wire) + Wire(gso, Packets(os[..used]))
      ensures !ok ==> wire == old(wire) + if gso then [] else Packets(os[..used])
      // the HTTP connection is told of every byte taken and every stream refused
      ensures old(calls) <= calls && Reported(calls[|old(calls)|..], os[..used])
      // it stops when the library is idle, or the watcher will call it again
      ensures ok ==> Idle(os, used) || (watching && BatchEnds(gso, pktLen, Packets(os[..used])))
      ensures !ok ==> used < |os| && Breaks(os[used])
      ensures watching ==> old(watching) || (ok && BatchEnds(gso, pktLen, Packets(os[..used])))
      // which is after ten packets, or with GSO a short one or one to another address
      ensures ok && !Idle(os, used) ==>
                var ps := Packets(os[..used]); var n := |ps|;
                || n == 10
                || (gso && n > 0 && |ps[n - 1].bytes| < pktLen)
                || (gso && n > 1 && ps[n - 1].remote != ps[n - 2].remote)
      // and not before
      ensures WentOn(os, used)
      ensures ok ==> var ps := Packets(os[..used]);
        if ps == [] then endpoint == old(endpoint) && remote == old(remote)
        else endpoint == Through(gso, ps) && remote == ps[|ps| - 1].remote
    {
      hide Concat, Contents, Wire, BatchEnds, Through, Packets, HttpCalls, CallsOf, Gathered, WentOn, Reported;
      ok, used := Passes(os);
      EndReasons(Packets(os[..used]));
      WentOnReports(os, used);
      assert calls[|old(calls)|..] == HttpCalls(os[..used]);
    }

    /** Its loop. */
    method Passes(os: seq<Outcome>) returns (ok: bool, ghost used: nat)
      requires Valid() && forall k :: 0 <= k < |os| ==> LegalOutcome(os[k], pktLen)
      modifies this, buf
      ensures used <= |os| && |Packets(os[..used])| <= MAX_PACKETS
      ensures ok ==> wire == old(wire) + Wire(gso, Packets(os[..used]))
      ensures !ok ==> wire == old(wire) + if gso then [] else Packets(os[..used])
      ensures calls == old(calls) + HttpCalls(os[..used])
      ensures ok ==> Idle(os, used) || (watching && BatchEnds(gso, pktLen, Packets(os[..used])))
      ensures !ok ==> used < |os| && Breaks(os[used])
      ensures watching ==> old(watching) || (ok && BatchEnds(gso, pktLen, Packets(os[..used])))
      ensures WentOn(os, used)
      ensures ok ==> var ps := Packets(os[..used]);
        if ps == [] then endpoint == old(endpoint) && remote == old(remote)
        else endpoint == Through(gso, ps) && remote == ps[|ps| - 1].remote
    {
      hide Concat, Contents, Wire, BatchEnds, Through, Packets, HttpCalls, CallsOf, Gathered, WentOn;
      var pos: nat, count: nat, i := 0, 0, 0;
      Nothing();
      assert Gathered([], 0, 0) && WentOn(os, 0) by { GatheredNone(); WentOnAtFirst(os); }
      assert os[..0] == [];
      while i < |os|
        invariant 0 <= i <= |os|
        invariant Gathered(Packets(os[..i]), pos, count)
        invariant wire == old(wire) + if gso then [] else Packets(os[..i])
        invariant calls == old(calls) + HttpCalls(os[..i]) && watching == old(watching)
        invariant Packets(os[..i]) == [] ==> endpoint == old(endpoint) && remote == old(remote)
        invariant WentOn(os, i) && !BatchEnds(gso, pktLen, Packets(os[..i]))
      {
        PacketsSnoc(os, i);
        GatheredFacts(Packets(os[..i]), pos, count);
        if os[i].HttpFails? || os[i].Fails? { return false, i; }
        if os[i].CongestionLimited? || (os[i].Blocked? && os[i].dataLeft == 0) { break; }
        if os[i].Wrote? {
          var added, done;
          added, pos, count, done := TakePacket(Packets(os[..i]), os[i], pos, count);
          if !added { return false, i; }
          WentOnNext(os, i);
          if done {
            watching := true;
            return true, i + 1;
          }
        } else {
          var added := TellHttp(os[i]);
          if !added { return false, i; }
          WentOnNext(os, i);
        }
        i := i + 1;
      }
      GatheredFacts(Packets(os[..i]), pos, count);
      Flush(Packets(os[..i]), pos, count);
      return true, i;
    }
  }
}
