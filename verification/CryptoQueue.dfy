/** The unacknowledged crypto data of one encryption level, as the server and the
    client keep it: `Crypto` with `remove_tx_stream_data`. */
module CryptoQueue {
  import opened Octets

  // ----- the specification -----

  function Concat(d: seq<Bytes>): Bytes {
    if d == [] then [] else d[0] + Concat(d[1..])
  }

  /** The buffers that end at or before `end` leave from the front. */
  function Popped(d: seq<Bytes>, at: nat, end: nat): nat {
    if d == [] || at + |d[0]| > end then 0 else 1 + Popped(d[1..], at + |d[0]|, end)
  }

  lemma {:induction false} PoppedIsPrefix(d: seq<Bytes>, at: nat, end: nat)
    ensures Popped(d, at, end) <= |d|
  {
    if d != [] && at + |d[0]| <= end { PoppedIsPrefix(d[1..], at + |d[0]|, end); }
  }

  /** The queue; `sent` is all that was submitted, `high` the highest end that was
      acknowledged. */
  datatype Queue = Queue(data: seq<Bytes>, acked: nat, sent: Bytes, high: nat)

  datatype Op = Append(data: Bytes) | Ack(offset: nat, len: nat)

  const EMPTY := Queue([], 0, [], 0)

  function Next(q: Queue, op: Op): Queue {
    match op
    case Append(b) => q.(data := q.data + [b], sent := q.sent + b)
    case Ack(offset, len) =>
      PoppedIsPrefix(q.data, q.acked, offset + len);
      var k := Popped(q.data, q.acked, offset + len);
      Queue(q.data[k..], q.acked + |Concat(q.data[..k])|, q.sent,
            if offset + len > q.high then offset + len else q.high)
  }

  /** The library acknowledges only what was submitted. */
  predicate Legal(q: Queue, op: Op) { op.Ack? ==> op.offset + op.len <= |q.sent| }

  /** Every buffer with bytes ends beyond `end`. */
  predicate Beyond(d: seq<Bytes>, at: nat, end: nat) {
    d == [] || ((d[0] != [] ==> at + |d[0]| > end) && Beyond(d[1..], at + |d[0]|, end))
  }

  predicate Inv(q: Queue) {
    && q.acked <= |q.sent| && q.sent[q.acked..] == Concat(q.data)
    && q.acked <= q.high <= |q.sent|
    && Beyond(q.data, q.acked, q.high)
  }

  // ----- lemmas -----

  lemma {:induction false} ConcatJoin(c: seq<Bytes>, d: seq<Bytes>)
    ensures Concat(c + d) == Concat(c) + Concat(d)
  {
    if c == [] {
      assert c + d == d;
    } else {
      ConcatJoin(c[1..], d);
      assert (c + d)[1..] == c[1..] + d && (c + d)[0] == c[0];
      assert c[0] + (Concat(c[1..]) + Concat(d)) == (c[0] + Concat(c[1..])) + Concat(d);
    }
  }

  lemma ConcatOne(b: Bytes)
    ensures Concat([b]) == b
  {
    assert [b][1..] == [];
  }

  lemma {:induction false} BeyondJoin(c: seq<Bytes>, at: nat, end: nat, b: Bytes)
    requires Beyond(c, at, end) && end <= at + |Concat(c)|
    ensures Beyond(c + [b], at, end)
  {
    if c == [] {
      assert c + [b] == [b];
    } else {
      assert (c + [b])[1..] == c[1..] + [b];
      if end <= at + |c[0]| + |Concat(c[1..])| { BeyondJoin(c[1..], at + |c[0]|, end, b); }
    }
  }

  lemma {:induction false} BeyondMore(d: seq<Bytes>, at: nat, end: nat)
    requires at > end
    ensures Beyond(d, at, end)
  {
    if d != [] { BeyondMore(d[1..], at + |d[0]|, end); }
  }

  /** What popping leaves: the front reaches beyond `end`, and only bytes before
      `end` are gone. */
  lemma {:induction false} PopStops(d: seq<Bytes>, at: nat, end: nat, high: nat)
    requires Beyond(d, at, high)
    ensures var k := Popped(d, at, end);
      && k <= |d|
      && at + |Concat(d[..k])| <= (if at > end then at else end)
      && (k < |d| ==> at + |Concat(d[..k])| + |d[k]| > end)
      && Beyond(d[k..], at + |Concat(d[..k])|, end) && Beyond(d[k..], at + |Concat(d[..k])|, high)
    decreases |d|
  {
    var k := Popped(d, at, end);
    if d != [] && at + |d[0]| <= end {
      var n := at + |d[0]|;
      PopStops(d[1..], n, end, high);
      assert d[..k][1..] == d[1..][..k - 1] && d[k..] == d[1..][k - 1..];
    } else {
      assert d[..0] == [] && d[0..] == d;
      if d != [] { BeyondMore(d[1..], at + |d[0]|, end); }
    }
  }

  lemma AppendInv(q: Queue, b: Bytes)
    requires Inv(q)
    ensures Inv(Next(q, Append(b)))
  {
    hide Beyond, Concat;
    ConcatJoin(q.data, [b]);
    ConcatOne(b);
    BeyondJoin(q.data, q.acked, q.high, b);
    assert (q.sent + b)[q.acked..] == q.sent[q.acked..] + b;
  }

  lemma AckInv(q: Queue, offset: nat, len: nat)
    requires Inv(q) && offset + len <= |q.sent|
    ensures Inv(Next(q, Ack(offset, len)))
  {
    hide Beyond, Concat, Popped;
    PoppedIsPrefix(q.data, q.acked, offset + len);
    var k := Popped(q.data, q.acked, offset + len);
    PopStops(q.data, q.acked, offset + len, q.high);
    var n := |Concat(q.data[..k])|;
    ConcatJoin(q.data[..k], q.data[k..]);
    assert q.data[..k] + q.data[k..] == q.data;
    assert Concat(q.data)[n..] == Concat(q.data[k..]);
    assert q.sent[q.acked + n..] == q.sent[q.acked..][n..];
  }

  lemma NextInv(q: Queue, op: Op)
    requires Inv(q) && Legal(q, op)
    ensures Inv(Next(q, op))
  {
    hide Inv, Next;
    match op {
      case Append(b) => AppendInv(q, b);
      case Ack(offset, len) => AckInv(q, offset, len);
    }
  }

  /** One turn of the loop that pops, `k` buffers after its start. */
  lemma PopFront(d: seq<Bytes>, k: nat, at: nat, end: nat)
    requires k < |d| && at + |d[k]| <= end
    ensures Popped(d[k..], at, end) == 1 + Popped(d[k + 1..], at + |d[k]|, end)
    ensures |Concat(d[..k + 1])| == |Concat(d[..k])| + |d[k]|
    ensures |Concat(d[k..])| == |d[k]| + |Concat(d[k + 1..])|
    ensures d[k..][1..] == d[k + 1..]
  {
    assert d[k..][1..] == d[k + 1..];
    ConcatJoin(d[..k], [d[k]]);
    ConcatOne(d[k]);
    assert d[..k + 1] == d[..k] + [d[k]];
  }

  lemma NothingPopped(d: seq<Bytes>)
    ensures Concat(d[..0]) == []
  {}

  lemma PoppingEnds(d: seq<Bytes>, at: nat, end: nat)
    requires d == [] || at + |d[0]| > end
    ensures Popped(d, at, end) == 0
  {}

  function RunAll(ops: seq<Op>): Queue {
    if ops == [] then EMPTY else Next(RunAll(ops[..|ops| - 1]), ops[|ops| - 1])
  }

  predicate LegalRun(ops: seq<Op>) {
    ops == [] || (LegalRun(ops[..|ops| - 1]) && Legal(RunAll(ops[..|ops| - 1]), ops[|ops| - 1]))
  }

  /** All that was submitted, and the highest acknowledged end. */
  function Submitted(ops: seq<Op>): Bytes {
    if ops == [] then [] else Submitted(ops[..|ops| - 1]) + (if ops[|ops| - 1].Append? then ops[|ops| - 1].data else [])
  }

  function HighestAck(ops: seq<Op>): nat {
    if ops == [] then 0
    else
      var h, op := HighestAck(ops[..|ops| - 1]), ops[|ops| - 1];
      if op.Ack? && op.offset + op.len > h then op.offset + op.len else h
  }

  /** Any run of submissions and acknowledgements: the queue holds exactly the
      submitted stream from the acknowledged offset on, nothing at or beyond the
      highest acknowledged end is dropped, and no buffer that lies below it stays. */
  lemma {:induction false} QueueIsSuffix(ops: seq<Op>)
    requires LegalRun(ops)
    ensures var q := RunAll(ops);
      && q.acked <= HighestAck(ops) <= |Submitted(ops)|
      && Submitted(ops)[q.acked..] == Concat(q.data)
      && Beyond(q.data, q.acked, HighestAck(ops))
      && Inv(q) && q.sent == Submitted(ops) && q.high == HighestAck(ops)
  {
    hide Next, Legal, Concat, Beyond;
    if ops == [] {
      EmptyInv();
    } else {
      var n := |ops| - 1;
      QueueIsSuffix(ops[..n]);
      NextInv(RunAll(ops[..n]), ops[n]);
      NextSent(RunAll(ops[..n]), ops[n]);
    }
  }

  lemma EmptyInv()
    ensures Inv(EMPTY)
  {}

  lemma NextSent(q: Queue, op: Op)
    ensures Next(q, op).sent == q.sent + (if op.Append? then op.data else [])
    ensures Next(q, op).high == if op.Ack? && op.offset + op.len > q.high then op.offset + op.len else q.high
  {}

  // ----- the queue in place -----

  class Crypto {
    var data: seq<Bytes>
    var ackedOffset: nat
    ghost var queue: Queue

    ghost predicate Valid()
      reads this
    {
      queue.data == data && queue.acked == ackedOffset && Inv(queue)
    }

    constructor ()
      ensures Valid() && queue == EMPTY
    {
      data, ackedOffset, queue := [], 0, EMPTY;
      EmptyInv();
    }

    /** `write_server_handshake`, `write_client_handshake` */
    method WriteHandshake(b: Bytes)
      requires Valid()
      modifies this
      ensures Valid() && queue == Next(old(queue), Append(b))
    {
      NextInv(queue, Append(b));
      queue := Next(queue, Append(b));
      data := data + [b];
    }

    /** `remove_tx_stream_data`, called with the end of an acknowledged range; the
        result and what stays in the queue make up what was there. */
    method RemoveTxCryptoData(offset: nat, datalen: nat) returns (len: nat)
      requires Valid() && Legal(queue, Ack(offset, datalen))
      modifies this
      ensures Valid() && queue == Next(old(queue), Ack(offset, datalen))
      ensures len == ackedOffset - old(ackedOffset) && len + |Concat(data)| == |Concat(old(data))|
      ensures data == [] || ackedOffset + |data[0]| > offset + datalen
    {
      hide Beyond, Inv, Concat, Popped;
      var end := offset + datalen;
      len := 0;
      ghost var k := 0;
      PoppedIsPrefix(data, ackedOffset, end);
      NothingPopped(data);
      assert data[0..] == data;
      NextInv(queue, Ack(offset, datalen));
      while data != [] && ackedOffset + |data[0]| <= end
        invariant k <= |old(data)| && data == old(data)[k..]
        invariant k + Popped(data, ackedOffset, end) == Popped(old(data), old(ackedOffset), end)
        invariant len == |Concat(old(data)[..k])| && ackedOffset == old(ackedOffset) + len
        invariant len + |Concat(data)| == |Concat(old(data))|
        invariant queue == old(queue)
        decreases |data|
      {
        PopFront(old(data), k, ackedOffset, end);
        len := len + |data[0]|;
        ackedOffset := ackedOffset + |data[0]|;
        data := data[1..];
        k := k + 1;
      }
      PoppingEnds(data, ackedOffset, end);
      queue := Next(queue, Ack(offset, datalen));
    }
  }
}
