/** Responses of generated data: `Stream::find_dyn_length`, `dyn_read_data` and the
    acknowledgement callbacks. */
module DynWindow {
  import opened Decimals
  import opened Numbers

  const MAX_DYNBUFLEN := 1024 * 1024
  /** The size of `dyn_buf`. */
  const DYN_BUF := 16384
  /** Acknowledgements resume a stream below this. */
  const RESUME_BELOW := MAX_DYNBUFLEN - 16384
  /** 2^62 - 1 */
  const MAX_VARINT := 0x3fff_ffff_ffff_ffff

  // ----- the length that a path asks for -----

  function LengthOf(digits: string, maxLength: nat): int {
    if AllDigits(digits) && Decimal(digits) <= maxLength && Decimal(digits) <= MAX_VARINT then Decimal(digits) else -1
  }

  /** `Stream::find_dyn_length`: the exact value, unless it is too large or not a
      number. The bound by division keeps the arithmetic below 2^62. */
  method FindDynLength(path: string, maxLength: nat) returns (n: int)
    requires path != [] && path[0] == '/'
    ensures n == LengthOf(path[1..], maxLength)
  {
    n := 0;
    var i := 1;
    ghost var digits := path[1..];
    assert digits[..0] == [];
    while i < |path|
      invariant 1 <= i <= |path|
      invariant AllDigits(digits[..i - 1]) && n == Decimal(digits[..i - 1])
      invariant 0 <= n <= MAX_VARINT && (n == 0 || n <= maxLength)
    {
      assert digits[i - 1] == path[i];
      if !IsNum(path[i]) { return -1; }
      var d := Digit(path[i]);
      assert digits[..i][..i - 1] == digits[..i - 1];
      assert AllDigits(digits) ==> Decimal(digits[..i]) <= Decimal(digits) by {
        if AllDigits(digits) { DecimalPrefix(digits, i); }
      }
      if n > (MAX_VARINT - d) / 10 { return -1; }
      n := n * 10 + d;
      if n > maxLength { return -1; }
      i := i + 1;
    }
    assert digits[..|digits|] == digits;
  }

  /** The path that prints a number asks for that number, if it is not too large; a
      path that is no number is none. */
  lemma LengthRoundTrip(n: nat, maxLength: nat, other: string)
    ensures LengthOf(Digits(n), maxLength) == if n <= maxLength && n < 0x4000_0000_0000_0000 then n else -1
    ensures (exists i :: 0 <= i < |other| && !('0' <= other[i] <= '9')) ==> LengthOf(other, maxLength) == -1
  {
    hide Digits;
    DigitsSpell(n);
  }

  // ----- the window -----

  /** `left` is `dyndataleft`, `inFlight` is `dynbuflen`; `blocked` if the HTTP
      library was told to wait and has not been resumed. */
  datatype Window = Window(left: nat, inFlight: nat, produced: nat, acked: nat, eof: bool, blocked: bool)

  datatype Op = Read | Ack(n: nat)

  function Start(total: nat): Window { Window(total, 0, 0, 0, false, false) }

  function Next(w: Window, op: Op): Window {
    match op
    case Read =>
      if w.inFlight > MAX_DYNBUFLEN then w.(blocked := true)
      else
        var len := if w.left < DYN_BUF then w.left else DYN_BUF;
        w.(left := w.left - len, inFlight := w.inFlight + len, produced := w.produced + len, eof := w.left == len)
    case Ack(n) =>
      if n > w.inFlight then w
      else w.(inFlight := w.inFlight - n, acked := w.acked + n, blocked := w.blocked && w.inFlight - n >= RESUME_BELOW)
  }

  /** The HTTP library reads a stream that has not ended and does not wait, and
      acknowledges only what was produced. */
  predicate Legal(w: Window, op: Op) {
    match op
    case Read => !w.eof && !w.blocked
    case Ack(n) => n <= w.produced - w.acked
  }

  predicate Inv(total: nat, w: Window) {
    && w.produced + w.left == total
    && w.inFlight + w.acked == w.produced
    && w.inFlight <= MAX_DYNBUFLEN + DYN_BUF
    && (w.eof ==> w.left == 0)
    && (w.left == 0 && !w.eof ==> total == 0)
    && (w.blocked ==> !w.eof && w.inFlight >= RESUME_BELOW)
  }

  function RunAll(w: Window, ops: seq<Op>): Window {
    if ops == [] then w else Next(RunAll(w, ops[..|ops| - 1]), ops[|ops| - 1])
  }

  predicate LegalRun(w: Window, ops: seq<Op>) {
    ops == [] || (LegalRun(w, ops[..|ops| - 1]) && Legal(RunAll(w, ops[..|ops| - 1]), ops[|ops| - 1]))
  }

  function Reads(w: Window, ops: seq<Op>): nat {
    if ops == [] then 0
    else
      var v := RunAll(w, ops[..|ops| - 1]);
      Reads(w, ops[..|ops| - 1]) + (if ops[|ops| - 1].Read? && v.inFlight <= MAX_DYNBUFLEN then 1 else 0)
  }

  /** Every interleaving of reads and acknowledgements: what was produced and what
      is left make up the length, the window is what is not acknowledged and stays
      bounded, and the end of the data is announced exactly by the read that
      produces the last byte. */
  lemma {:induction false} WindowConserved(total: nat, ops: seq<Op>)
    requires LegalRun(Start(total), ops)
    ensures var w := RunAll(Start(total), ops);
      && w.produced + w.left == total
      && w.inFlight == w.produced - w.acked <= MAX_DYNBUFLEN + DYN_BUF
      && (w.eof <==> w.produced == total && Reads(Start(total), ops) > 0)
      && (w.blocked ==> w.left > 0 && w.inFlight >= RESUME_BELOW)
      && Inv(total, w)
  {
    if ops != [] {
      var n := |ops| - 1;
      WindowConserved(total, ops[..n]);
      ReadOnce(total, ops[..n]);
      EndOnce(total, RunAll(Start(total), ops[..n]), ops[n], Reads(Start(total), ops[..n]));
    }
  }

  /** One step, after `done` successful done. */
  lemma EndOnce(total: nat, w: Window, op: Op, done: nat)
    requires Inv(total, w) && Legal(w, op) && (w.produced > 0 ==> done > 0)
    requires w.eof <==> w.produced == total && done > 0
    ensures var v := Next(w, op); var more := if op.Read? && w.inFlight <= MAX_DYNBUFLEN then 1 else 0;
      Inv(total, v) && (v.eof <==> v.produced == total && done + more > 0)
  {}

  lemma {:induction false} ReadOnce(total: nat, ops: seq<Op>)
    requires LegalRun(Start(total), ops)
    ensures RunAll(Start(total), ops).produced > 0 ==> Reads(Start(total), ops) > 0
  {
    if ops != [] { ReadOnce(total, ops[..|ops| - 1]); }
  }

  function Sum(ns: seq<nat>): nat {
    if ns == [] then 0 else Sum(ns[..|ns| - 1]) + ns[|ns| - 1]
  }

  function AckAll(w: Window, ns: seq<nat>): Window {
    if ns == [] then w else Next(AckAll(w, ns[..|ns| - 1]), Ack(ns[|ns| - 1]))
  }

  /** A blocked stream is resumed by the acknowledgement that brings the bytes in
      flight below the mark, and by no earlier one; there are always enough bytes in
      flight for that to happen. */
  lemma {:induction false} AcksResume(total: nat, w: Window, ns: seq<nat>)
    requires Inv(total, w) && w.blocked && Sum(ns) <= w.inFlight
    ensures var v := AckAll(w, ns);
      && Inv(total, v) && v.inFlight == w.inFlight - Sum(ns) && v.left == w.left && !v.eof
      && (v.blocked <==> w.inFlight - Sum(ns) >= RESUME_BELOW)
      && (Sum(ns) == w.inFlight ==> Legal(v, Read) && v.left > 0)
  {
    if ns != [] { AcksResume(total, w, ns[..|ns| - 1]); }
  }

  /** No stall: a stream that has not ended can be read with progress, or waits for
      bytes that are in flight. */
  lemma NoStall(total: nat, w: Window)
    requires Inv(total, w) && !w.eof
    ensures w.blocked ==> w.inFlight > 0
    ensures !w.blocked ==>
              var v := Next(w, Read);
              v.eof || v.produced == w.produced + DYN_BUF || (v.blocked && v.inFlight > MAX_DYNBUFLEN)
  {}

  // ----- the stream -----

  datatype ReadResult = WouldBlock | Data(len: nat, eof: bool) | CallbackFailure

  class Stream {
    var fd: int
    var dynresp: bool
    var dyndataleft: nat
    var dynbuflen: nat
    ghost var window: Window

    ghost predicate Valid()
      reads this
    {
      && dynresp && fd == -1 && window.left == dyndataleft && window.inFlight == dynbuflen
      && Inv(window.produced + window.left, window)
    }

    constructor ()
      ensures fd == -1 && !dynresp && dyndataleft == 0 && dynbuflen == 0
    {
      fd, dynresp, dyndataleft, dynbuflen := -1, false, 0, 0;
    }

    /** The generated branch of `Stream::start_response`; the caller has resolved the
        path. False if a file is to be served instead. */
    method StartResponse(path: string, maxLength: nat) returns (dynamic: bool)
      requires path != [] && path[0] == '/' && fd == -1 && dynbuflen == 0 && !dynresp
      modifies this
      ensures dynamic <==> LengthOf(path[1..], maxLength) >= 0
      ensures dynamic ==> Valid() && window == Start(LengthOf(path[1..], maxLength))
      ensures !dynamic ==> !dynresp && dyndataleft == old(dyndataleft)
    {
      var n := FindDynLength(path, maxLength);
      if n == -1 { return false; }
      dynresp, dyndataleft := true, n;
      window := Start(n);
      dynamic := true;
    }

    /** `dyn_read_data`; `trailersOk` is the answer of `nghttp3_conn_submit_trailers`. */
    method DynReadData(trailersOk: bool) returns (r: ReadResult)
      requires Valid() && Legal(window, Read)
      modifies this
      ensures Valid() && window == Next(old(window), Read)
      ensures r.WouldBlock? <==> window.blocked
      ensures r.Data? ==> r.len == window.produced - old(window.produced) && (r.eof <==> window.eof)
      ensures r.CallbackFailure? <==> !window.blocked && window.eof && !trailersOk
    {
      window := Next(window, Read);
      if dynbuflen > MAX_DYNBUFLEN { return WouldBlock; }
      var len := if DYN_BUF < dyndataleft then DYN_BUF else dyndataleft;
      dynbuflen := dynbuflen + len;
      dyndataleft := dyndataleft - len;
      if dyndataleft == 0 {
        if !trailersOk { return CallbackFailure; }
        return Data(len, true);
      }
      r := Data(len, false);
    }

    /** `Stream::http_acked_stream_data` */
    method StreamAcked(n: nat)
      requires dynresp ==> n <= dynbuflen
      modifies `dynbuflen
      ensures dynbuflen == if dynresp then old(dynbuflen) - n else old(dynbuflen)
    {
      if !dynresp { return; }
      dynbuflen := dynbuflen - n;
    }

    /** `Handler::http_acked_stream_data`; `resumed` is the call of
        `nghttp3_conn_resume_stream`. */
    method Acked(n: nat) returns (resumed: bool)
      requires Valid() && Legal(window, Ack(n))
      modifies this
      ensures Valid() && window == Next(old(window), Ack(n))
      ensures resumed <==> dynbuflen < RESUME_BELOW
      ensures old(window).blocked ==> (resumed <==> !window.blocked)
    {
      StreamAcked(n);
      window := Next(window, Ack(n));
      resumed := fd == -1 && dynbuflen < RESUME_BELOW;
    }
  }
}
