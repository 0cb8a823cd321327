/** The client's send buffer: one packet, kept while the socket would block. */
module ClientSend {
  import opened Octets
  import opened Options
  import opened PacketBatch

  datatype Datagram = Datagram(to: Address, bytes: Bytes)

  /** What `sendto` answers. */
  datatype SendResult = Sent | Interrupted | WouldBlock | Failed

  /** The return codes: 0 or `NETWORK_ERR_OK`, `NETWORK_ERR_SEND_BLOCKED`,
      `NETWORK_ERR_FATAL`, and -1. */
  datatype Code = Ok | SendBlocked | Fatal | Broken

  /** The datagrams for the packets that the library wrote. */
  function DatagramsOf(ps: seq<Packet>): seq<Datagram> {
    seq(|ps|, i requires 0 <= i < |ps| => Datagram(ps[i].remote, ps[i].bytes))
  }

  lemma DatagramsSnoc(ps: seq<Packet>, p: Packet)
    ensures DatagramsOf(ps + [p]) == DatagramsOf(ps) + [Datagram(p.remote, p.bytes)]
  {}

  /** `do { sendto } while (EINTR)`: the answer that ends the loop, and those not
      used up. A list that ends here stands for a socket that would block. */
  function Settled(tries: seq<SendResult>): (SendResult, seq<SendResult>) {
    if tries == [] then (WouldBlock, [])
    else if tries[0].Interrupted? then Settled(tries[1..])
    else (tries[0], tries[1..])
  }

  /** It is the first answer that is not an interruption. */
  lemma {:induction false} SettledIs(tries: seq<SendResult>, k: nat)
    requires k <= |tries| && (forall i :: 0 <= i < k ==> tries[i] == Interrupted)
    requires k < |tries| ==> tries[k] != Interrupted
    ensures Settled(tries) == if k < |tries| then (tries[k], tries[k + 1..]) else (WouldBlock, [])
  {
    if k > 0 {
      SettledIs(tries[1..], k - 1);
      assert k < |tries| ==> tries[1..][k - 1] == tries[k] && tries[1..][k..] == tries[k + 1..];
    }
  }

  /** The answers left after `n` sends. */
  function After(tries: seq<SendResult>, n: nat): seq<SendResult> {
    if n == 0 then tries else Settled(After(tries, n - 1)).1
  }

  /** The first `n` sends succeed. */
  predicate AllSent(tries: seq<SendResult>, n: nat) { forall k: nat :: k < n ==> Settled(After(tries, k)).0.Sent? }

  lemma {:induction false} AfterMore(tries: seq<SendResult>, n: nat)
    ensures After(Settled(tries).1, n) == After(tries, n + 1)
  {
    if n > 0 { AfterMore(tries, n - 1); }
  }

  lemma AllSentMore(tries: seq<SendResult>, n: nat)
    requires Settled(tries).0.Sent? && AllSent(Settled(tries).1, n)
    ensures AllSent(tries, n + 1)
  {
    hide Settled, After;
    forall k: nat | k < n + 1 ensures Settled(After(tries, k)).0.Sent? {
      if k > 0 { AfterMore(tries, k - 1); } else { AfterNone(tries); }
    }
  }

  lemma AfterNone(tries: seq<SendResult>)
    ensures After(tries, 0) == tries && AllSent(tries, 0)
  {}

  class Buffer {
    const buf: array<Byte>
    var tail: nat

    ghost predicate Valid()
      reads this
    {
      tail <= buf.Length
    }

    function Size(): nat
      reads this
    {
      tail
    }

    function Left(): nat
      requires Valid()
      reads this
    {
      buf.Length - tail
    }

    ghost function Contents(): Bytes
      requires Valid()
      reads this, buf
    {
      buf[..tail]
    }

    constructor (space: nat)
      ensures Valid() && tail == 0 && buf.Length == space && fresh(buf)
    {
      buf := new Byte[space];
      tail := 0;
    }

    /** The library writes at `wpos`. */
    method Fill(bytes: Bytes)
      requires Valid() && |bytes| <= Left()
      modifies buf
      ensures buf[..tail] == old(buf[..tail]) && buf[tail..tail + |bytes|] == bytes
    {
      forall k | 0 <= k < |bytes| { buf[tail + k] := bytes[k]; }
    }

    method Push(len: nat)
      requires Valid() && len <= Left()
      modifies this
      ensures Valid() && tail == old(tail) + len
    {
      tail := tail + len;
    }

    method Reset()
      modifies this
      ensures Valid() && tail == 0
    {
      tail := 0;
    }
  }

  class Client {
    const sendbuf: Buffer
    const pktLen: nat
    var remote: Address
    var watching: bool
    var disconnected: bool
    /** Every datagram handed over to the socket, every packet written, and every
        call on the HTTP connection that succeeded. */
    ghost var sent: seq<Datagram>
    ghost var written: seq<Datagram>
    ghost var calls: seq<HttpCall>

    ghost predicate Shape()
      reads this, sendbuf
    {
      0 < pktLen <= sendbuf.buf.Length && sendbuf.Valid()
    }

    /** The packet in the buffer. */
    ghost function Pending(): seq<Datagram>
      requires Shape()
      reads this, sendbuf, sendbuf.buf
    {
      if sendbuf.tail == 0 then [] else [Datagram(remote, sendbuf.Contents())]
    }

    /** Until the client disconnects, what was sent is what was written, in order,
        but for the one packet that is still in the buffer. */
    ghost predicate Valid()
      reads this, sendbuf, sendbuf.buf
    {
      Shape() && !disconnected && written == sent + Pending()
    }

    constructor (pktLen: nat, space: nat, remote: Address)
      requires 0 < pktLen <= space
      ensures Valid() && fresh(sendbuf) && fresh(sendbuf.buf)
      ensures sent == [] && written == [] && calls == [] && this.pktLen == pktLen
    {
      this.pktLen, this.remote := pktLen, remote;
      sendbuf := new Buffer(space);
      watching, disconnected, sent, written, calls := false, false, [], [], [];
    }

    /** `Client::send_packet`: one datagram, whole, or the buffer stays as it is. */
    method SendPacket(tries: seq<SendResult>) returns (rv: Code, rest: seq<SendResult>)
      requires Shape() && sendbuf.tail > 0
      modifies `sent, sendbuf
      ensures Shape() && rest == Settled(tries).1
      ensures rv == match Settled(tries).0 { case Sent => Ok case WouldBlock => SendBlocked case _ => Fatal }
      ensures rv.Ok? ==> sendbuf.tail == 0 && sent == old(sent) + old(Pending())
      ensures !rv.Ok? ==> sendbuf.tail == old(sendbuf.tail) && sent == old(sent)
    {
      rest := tries;
      while rest != [] && rest[0].Interrupted?
        invariant Settled(rest) == Settled(tries)
        decreases |rest|
      {
        rest := rest[1..];
      }
      var result := WouldBlock;
      if rest != [] { result, rest := rest[0], rest[1..]; }
      if result.WouldBlock? { return SendBlocked, rest; }
      if result.Failed? { return Fatal, rest; }
      sent := sent + Pending();
      sendbuf.Reset();
      rv := Ok;
    }

    /** The packet that closes the connection, if it is sent: there is a connection
        that is not closing yet, the library writes one, and the socket takes it. */
    ghost function Closing(closing: bool, close: Option<Packet>, tries: seq<SendResult>): seq<Datagram> {
      if !closing && close.Some? && Settled(tries).0.Sent?
      then [Datagram(close.value.remote, close.value.bytes)] else []
    }

    /** `Client::handle_error` within `disconnect`: a pending packet is discarded, and
        one packet that closes the connection is sent, if possible. `close` is that
        packet, if the library writes one; `closing` if there is no connection or it
        is closing already. */
    method Disconnect(closing: bool, close: Option<Packet>, tries: seq<SendResult>)
      requires Shape() && (close.Some? ==> 0 < |close.value.bytes| <= pktLen)
      modifies this, sendbuf, sendbuf.buf
      ensures Shape() && disconnected && written == old(written) && calls == old(calls) && watching == old(watching)
      ensures sent == old(sent) + Closing(closing, close, tries)
      ensures !closing && (close.None? || Settled(tries).0.Sent?) ==> Pending() == []
    {
      disconnected := true;
      if closing { return; }
      sendbuf.Reset();
      if close.None? { return; }
      sendbuf.Fill(close.value.bytes);
      sendbuf.Push(|close.value.bytes|);
      remote := close.value.remote;
      assert sendbuf.Contents() == close.value.bytes;
      var _, _ := SendPacket(tries);
    }

    /** The pass of `write_streams` in which the library writes a packet. The buffer
        has to be empty, so that it has room. False if the HTTP connection fails. */
    method TakePacket(o: Outcome) returns (added: bool)
      requires Valid() && Pending() == [] && o.Wrote? && LegalOutcome(o, pktLen)
      modifies `remote, `written, `calls, sendbuf, sendbuf.buf
      ensures Shape()
      ensures added <==> !Breaks(o)
      ensures added ==> Valid() && Pending() == [Datagram(o.packet.remote, o.packet.bytes)]
      ensures written == old(written) + if added then Pending() else []
      ensures calls == old(calls) + if added then CallsOf(o) else []
    {
      sendbuf.Fill(o.packet.bytes);
      sendbuf.Push(|o.packet.bytes|);
      if o.taken.Some? {
        if o.fails { return false; }
        calls := calls + [AddWriteOffset(o.stream, o.taken.value)];
      }
      remote := o.packet.remote;
      assert sendbuf.Contents() == o.packet.bytes;
      written := written + [Datagram(o.packet.remote, o.packet.bytes)];
      added := true;
    }

    /** The passes that only tell the HTTP connection something. */
    method TellHttp(o: Outcome) returns (ok: bool)
      requires o.ShutWr? || o.WriteMore? || (o.Blocked? && o.dataLeft > 0)
      modifies `calls
      ensures ok <==> !Breaks(o)
      ensures calls == old(calls) + if ok then CallsOf(o) else []
    {
      if o.fails { return false; }
      match o {
        case Blocked(_, stream, _) => calls := calls + [BlockStream(stream)];
        case ShutWr(stream, _) => calls := calls + [BlockStream(stream)];
        case WriteMore(stream, n, _) => calls := calls + [AddWriteOffset(stream, n)];
      }
      ok := true;
    }

    /** What one pass does before anything is sent. */
    method TakeOutcome(o: Outcome) returns (ok: bool)
      requires Valid() && Pending() == [] && LegalOutcome(o, pktLen)
      requires !o.CongestionLimited? && !(o.Blocked? && o.dataLeft == 0)
      modifies `remote, `written, `calls, sendbuf, sendbuf.buf
      ensures Shape() && (ok <==> !Breaks(o))
      ensures ok ==> Valid() && Pending() == if o.Wrote? then [Datagram(o.packet.remote, o.packet.bytes)] else []
      ensures written == old(written) + if ok then Pending() else []
      ensures calls == old(calls) + if ok then CallsOf(o) else []
    {
      if o.HttpFails? || o.Fails? { return false; }
      if o.Wrote? { ok := TakePacket(o); } else { ok := TellHttp(o); }
    }

    /** None of the first `n` passes ended the writing. */
    ghost predicate WentOn(os: seq<Outcome>, n: nat) {
      && n <= |os|
      && forall k :: 0 <= k < n ==> !Idle(os, k) && !Breaks(os[k]) && |Packets(os[..k])| < MAX_PACKETS
    }

    lemma WentOnReports(os: seq<Outcome>, n: nat)
      requires WentOn(os, n)
      ensures Reported(HttpCalls(os[..n]), os[..n])
    {
      hide Breaks, HttpCalls, Reported;
      assert forall k :: 0 <= k < n ==> Idle(os[..n], k) == Idle(os, k);
      CallsReport(os[..n]);
    }

    /** `Client::write_streams`; `close` is for a failure in which the client
        disconnects. */
    method WriteStreams(os: seq<Outcome>, tries: seq<SendResult>, closing: bool, close: Option<Packet>)
      returns (rv: Code, rest: seq<SendResult>, ghost used: nat)
      requires Valid() && Pending() == [] && forall k :: 0 <= k < |os| ==> LegalOutcome(os[k], pktLen)
      requires close.Some? ==> 0 < |close.value.bytes| <= pktLen
      modifies this, sendbuf, sendbuf.buf
      ensures used <= |os| && WentOn(os, used) && |Packets(os[..used])| <= MAX_PACKETS
      ensures Shape() && written == old(written) + DatagramsOf(Packets(os[..used]))
      ensures calls == old(calls) + HttpCalls(os[..used])
      // every packet but one that is blocked was sent, each by one send
      ensures rest == After(tries, |Packets(os[..used])|)
      ensures rv.Ok? || rv.Broken? ==> AllSent(tries, |Packets(os[..used])|)
      ensures rv.SendBlocked? || rv.Fatal? ==>
                && |Pending()| == 1 && written == sent + Pending() && |Packets(os[..used])| > 0
                && AllSent(tries, |Packets(os[..used])| - 1)
                && var last := Settled(After(tries, |Packets(os[..used])| - 1)).0;
                   !last.Sent? && (rv.SendBlocked? <==> last.WouldBlock?)
      // how it ends
      ensures rv.Broken? <==> disconnected
      ensures rv.Broken? ==> used < |os| && Breaks(os[used]) && |Packets(os[..used])| < MAX_PACKETS
      ensures rv.Broken? ==> sent == written + Closing(closing, close, rest)
      ensures !rv.Broken? ==> Valid()
      ensures rv.Ok? ==> Pending() == [] && (Idle(os, used) || (watching && |Packets(os[..used])| == MAX_PACKETS))
      ensures watching ==> old(watching) || (rv.Ok? && |Packets(os[..used])| == MAX_PACKETS)
    {
      hide Packets, DatagramsOf, HttpCalls, CallsOf, Settled, After, Breaks, WentOn, AllSent;
      rest := tries;
      var i, count := 0, 0;
      NoPackets(os);
      AfterNone(tries);
      WentOnAtFirst(os);
      while i < |os|
        invariant 0 <= i <= |os| && watching == old(watching)
        invariant Valid() && Pending() == [] && count == |Packets(os[..i])| < MAX_PACKETS
        invariant written == old(written) + DatagramsOf(Packets(os[..i]))
        invariant calls == old(calls) + HttpCalls(os[..i])
        invariant rest == After(tries, count) && AllSent(tries, count)
        invariant WentOn(os, i)
      {
        PacketsSnoc(os, i);
        if os[i].CongestionLimited? || (os[i].Blocked? && os[i].dataLeft == 0) { return Ok, rest, i; }
        var ok := TakeOutcome(os[i]);
        if !ok {
          Disconnect(closing, close, rest);
          return Broken, rest, i;
        }
        WentOnNext(os, i);
        if os[i].Wrote? {
          DatagramsSnoc(Packets(os[..i]), os[i].packet);
          AfterNext(tries, count);
          rv, rest := SendPacket(rest);
          if !rv.Ok? { return rv, rest, i + 1; }
          count := count + 1;
          if count == MAX_PACKETS {
            watching := true;
            return Ok, rest, i + 1;
          }
        }
        i := i + 1;
      }
      return Ok, rest, i;
    }

    lemma WentOnNext(os: seq<Outcome>, n: nat)
      requires WentOn(os, n) && n < |os| && !Idle(os, n) && !Breaks(os[n]) && |Packets(os[..n])| < MAX_PACKETS
      ensures WentOn(os, n + 1)
    {
      hide Packets, Breaks;
    }

    lemma AfterNext(tries: seq<SendResult>, n: nat)
      ensures After(tries, n + 1) == Settled(After(tries, n)).1
      ensures AllSent(tries, n) && Settled(After(tries, n)).0.Sent? ==> AllSent(tries, n + 1)
    {
      hide Settled;
    }

    /** The pending packet is refused by the socket. */
    ghost predicate Refused(pending: nat, tries: seq<SendResult>) { pending == 1 && !Settled(tries).0.Sent? }

    /** `Client::on_write`: the pending packet goes first; while it cannot, the
        library is not asked for another. */
    method OnWrite(os: seq<Outcome>, tries: seq<SendResult>, shouldExit: bool, closing: bool, close: Option<Packet>)
      returns (rv: Code, ghost used: nat)
      requires Valid() && forall k :: 0 <= k < |os| ==> LegalOutcome(os[k], pktLen)
      requires close.Some? ==> 0 < |close.value.bytes| <= pktLen
      modifies this, sendbuf, sendbuf.buf
      ensures used <= |os| && WentOn(os, used) && written == old(written) + DatagramsOf(Packets(os[..used]))
      ensures old(calls) <= calls && Reported(calls[|old(calls)|..], os[..used])
      ensures !disconnected ==> Valid()
      // the old packet is refused
      ensures Refused(|old(Pending())|, tries) ==>
                && used == 0
                && (if Settled(tries).0.WouldBlock? then
                      rv.SendBlocked? && !disconnected && sent == old(sent) && Pending() == old(Pending())
                    else
                      rv.Fatal? && disconnected
                      && sent == old(sent) + Closing(closing, close, After(tries, 1)))
      // or it goes, and the library is asked for more: one send for each packet
      ensures !Refused(|old(Pending())|, tries) ==>
                var sends := |old(Pending())| + |Packets(os[..used])|;
                var broken := used < |os| && Breaks(os[used]) && |Packets(os[..used])| < MAX_PACKETS;
                && (rv.SendBlocked? || rv.Fatal? ==>
                      && !disconnected && |Pending()| == 1 && sends > 0 && AllSent(tries, sends - 1)
                      && var last := Settled(After(tries, sends - 1)).0;
                         !last.Sent? && (rv.SendBlocked? <==> last.WouldBlock?))
                && (rv.Ok? || rv.Broken? ==> AllSent(tries, sends))
                && (rv.Ok? ==>
                      && !shouldExit && !disconnected && Pending() == []
                      && (Idle(os, used) || |Packets(os[..used])| == MAX_PACKETS))
                // an error of the libraries, or the order to exit, disconnects
                && (rv.Broken? ==>
                      && disconnected && sent == written + Closing(closing, close, After(tries, sends))
                      && (broken || (shouldExit && (Idle(os, used) || |Packets(os[..used])| == MAX_PACKETS))))
                && (broken ==> !rv.Ok?)
    {
      hide Settled, Packets, DatagramsOf, HttpCalls, Breaks, WentOn, Reported, Idle, AllSent, After;
      var rest := tries;
      ghost var pending := |Pending()|;
      assert WentOn(os, 0) by { WentOnAtFirst(os); }
      AfterNone(tries);
      if sendbuf.Size() > 0 {
        AfterNext(tries, 0);
        rv, rest := SendPacket(tries);
        if !rv.Ok? {
          if !rv.SendBlocked? { Disconnect(closing, close, rest); }
          NoPackets(os);
          WentOnReports(os, 0);
          assert calls[|old(calls)|..] == HttpCalls(os[..0]);
          return rv, 0;
        }
      }
      assert sendbuf.Left() >= pktLen;
      ghost var start := rest;
      rv, rest, used := WriteStreams(os, rest, closing, close);
      WentOnReports(os, used);
      assert calls[|old(calls)|..] == HttpCalls(os[..used]);
      SendsAfter(tries, pending, start, |Packets(os[..used])|);
      if |Packets(os[..used])| > 0 { SendsAfter(tries, pending, start, |Packets(os[..used])| - 1); }
      IdleIsNoBreak(os, used);
      if !rv.Ok? { return; }
      if shouldExit {
        Disconnect(closing, close, rest);
        rv := Broken;
      }
    }

    lemma WentOnAtFirst(os: seq<Outcome>)
      ensures WentOn(os, 0)
    {}

    lemma IdleIsNoBreak(os: seq<Outcome>, used: nat)
      ensures Idle(os, used) ==> used >= |os| || !Breaks(os[used])
    {}

    /** Sends after the one for the pending packet, if there was one. */
    lemma SendsAfter(tries: seq<SendResult>, pending: nat, start: seq<SendResult>, n: nat)
      requires pending <= 1 && start == After(tries, pending) && AllSent(tries, pending)
      ensures After(start, n) == After(tries, pending + n)
      ensures AllSent(start, n) ==> AllSent(tries, pending + n)
    {
      hide Settled, After;
      AfterNone(tries);
      if pending == 1 {
        AfterNext(tries, 0);
        AfterMore(tries, n);
        assert Settled(After(tries, 0)).0.Sent?;
        if AllSent(start, n) { AllSentMore(tries, n); }
      }
    }
  }

  lemma NoPackets(os: seq<Outcome>)
    ensures Packets(os[..0]) == [] && DatagramsOf(Packets(os[..0])) == [] && HttpCalls(os[..0]) == []
  {
    assert os[..0] == [];
  }
}
