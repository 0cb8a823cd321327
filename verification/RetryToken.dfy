/** Address-validation tokens of `Server::generate_token` and `verify_token`
    (section 8.1 of RFC 9000). */
module RetryToken {
  import opened Octets
  import opened Options

  const TOKEN_RAND_DATALEN := 16
  const NGTCP2_SECONDS := 1_000_000_000
  const TWO_64 := 0x1_0000_0000_0000_0000

  // ----- the 64-bit time stamp, low byte first -----

  function Encode(t: nat, n: nat): (r: Bytes)
    ensures |r| == n
  {
    if n == 0 then [] else [t % 256] + Encode(t / 256, n - 1)
  }

  function Decode(b: Bytes): nat {
    if b == [] then 0 else b[0] + 256 * Decode(b[1..])
  }

  function Power(n: nat): nat { if n == 0 then 1 else 256 * Power(n - 1) }

  lemma {:induction false} DecodeEncode(t: nat, n: nat)
    requires t < Power(n)
    ensures Decode(Encode(t, n)) == t
  {
    if n > 0 {
      DecodeEncode(t / 256, n - 1);
      assert Encode(t, n)[1..] == Encode(t / 256, n - 1);
    }
  }

  lemma LowByte(x: nat, d: nat)
    requires x < 256
    ensures (x + 256 * d) % 256 == x && (x + 256 * d) / 256 == d
  {}

  lemma {:induction false} DecodeBound(b: Bytes)
    ensures Decode(b) < Power(|b|)
  {
    if b != [] { DecodeBound(b[1..]); }
  }

  lemma {:induction false} EncodeDecode(b: Bytes)
    ensures Encode(Decode(b), |b|) == b
  {
    if b != [] {
      EncodeDecode(b[1..]);
      LowByte(b[0], Decode(b[1..]));
      assert b == [b[0]] + b[1..];
    }
  }

  lemma PowerEight()
    ensures Power(8) == TWO_64
  {
    assert Power(4) == 0x1_0000_0000;
    assert Power(8) == 256 * (256 * (256 * (256 * Power(4))));
  }

  // ----- the environment -----

  /** Key derivation and authenticated encryption; both may fail. */
  datatype Crypto = Crypto(
    tagLen: nat,
    derive: Bytes -> Option<Bytes>,
    encrypt: (Bytes, Bytes, Bytes) -> Option<Bytes>,
    decrypt: (Bytes, Bytes, Bytes) -> Option<Bytes>,
    minCidLen: nat,
    maxCidLen: nat)

  /** Decryption undoes encryption, and both change the length by the tag's. */
  ghost predicate Sound(c: Crypto) {
    && (forall p, k, a :: c.encrypt(p, k, a).Some? ==>
          |c.encrypt(p, k, a).value| == |p| + c.tagLen && c.decrypt(c.encrypt(p, k, a).value, k, a) == Some(p))
    && (forall x, k, a :: c.decrypt(x, k, a).Some? ==> |x| == |c.decrypt(x, k, a).value| + c.tagLen)
  }

  // ----- the tokens -----

  function Plaintext(sa: Bytes, t: nat, cid: Bytes): Bytes { sa + Encode(t, 8) + cid }

  /** `Server::generate_token`: the ciphertext, then the random bytes. */
  function GenerateToken(c: Crypto, sa: Bytes, t: nat, ocid: Bytes, rand: Bytes): Option<Bytes> {
    match c.derive(rand)
    case None => None
    case Some(key) =>
      match c.encrypt(Plaintext(sa, t, ocid), key, sa)
      case None => None
      case Some(x) => Some(x + rand)
  }

  datatype Verdict = TooShort | NoKey | NotDecrypted | BadConstruction | WrongAddress | Expired | Accepted(ocid: Bytes)

  predicate CidLenOk(c: Crypto, n: nat) { n == 0 || c.minCidLen <= n <= c.maxCidLen }

  /** `t + 10ULL * NGTCP2_SECONDS < now` in 64 bits. */
  predicate Stale(t: nat, now: nat) { (t + 10 * NGTCP2_SECONDS) % TWO_64 < now }

  /** `Server::verify_token` */
  function VerifyToken(c: Crypto, token: Bytes, sa: Bytes, now: nat): Verdict {
    if |token| < TOKEN_RAND_DATALEN then TooShort
    else
      var n := |token| - TOKEN_RAND_DATALEN;
      match c.derive(token[n..])
      case None => NoKey
      case Some(key) =>
        match c.decrypt(token[..n], key, sa)
        case None => NotDecrypted
        case Some(p) => CheckPlaintext(c, p, sa, now)
  }

  function CheckPlaintext(c: Crypto, p: Bytes, sa: Bytes, now: nat): Verdict {
    if |p| < |sa| + 8 then BadConstruction
    else if !CidLenOk(c, |p| - |sa| - 8) then BadConstruction
    else if p[..|sa|] != sa then WrongAddress
    else if Stale(Decode(p[|sa|..|sa| + 8]), now) then Expired
    else Accepted(p[|sa| + 8..])
  }

  /** A generated token, presented from the same address, is accepted exactly when
      the connection ID has a legal length and at most ten seconds have passed, and
      then it yields the original ID. */
  lemma TokenRoundTrip(c: Crypto, sa: Bytes, t: nat, ocid: Bytes, rand: Bytes, now: nat)
    requires Sound(c) && |rand| == TOKEN_RAND_DATALEN && t < TWO_64
    requires GenerateToken(c, sa, t, ocid, rand).Some?
    ensures var v := VerifyToken(c, GenerateToken(c, sa, t, ocid, rand).value, sa, now);
      var legal := |ocid| == 0 || c.minCidLen <= |ocid| <= c.maxCidLen;
      && (v == Accepted(ocid) <==> legal && !Stale(t, now))
      && (v.Accepted? ==> v.ocid == ocid)
      && (v.BadConstruction? <==> !legal)
      && (v.Expired? <==> legal && Stale(t, now))
  {
    var token := GenerateToken(c, sa, t, ocid, rand).value;
    var key := c.derive(rand).value;
    var p := Plaintext(sa, t, ocid);
    var x := c.encrypt(p, key, sa).value;
    var n := |token| - TOKEN_RAND_DATALEN;
    assert token[..n] == x && token[n..] == rand;
    PowerEight();
    DecodeEncode(t, 8);
    assert p[..|sa|] == sa && p[|sa|..|sa| + 8] == Encode(t, 8) && p[|sa| + 8..] == ocid;
  }

  /** Away from the end of the 64-bit clock, stale means more than ten seconds old. */
  lemma StaleIsOld(t: nat, now: nat)
    requires t + 10 * NGTCP2_SECONDS < TWO_64
    ensures Stale(t, now) <==> now > t + 10 * NGTCP2_SECONDS
  {}

  /** A token is accepted with the ID `ocid` if and only if it decrypts, under the
      presented address, to what `generate_token` lays out for that address, that ID
      and a time not yet stale, and the ID has a legal length. */
  lemma AcceptedTokenIsBound(c: Crypto, token: Bytes, sa: Bytes, now: nat, ocid: Bytes)
    ensures VerifyToken(c, token, sa, now) == Accepted(ocid) <==>
              && |token| >= TOKEN_RAND_DATALEN
              && (|ocid| == 0 || c.minCidLen <= |ocid| <= c.maxCidLen)
              && var n := |token| - TOKEN_RAND_DATALEN;
                 && c.derive(token[n..]).Some?
                 && exists t: nat :: t < TWO_64 && !Stale(t, now)
                      && c.decrypt(token[..n], c.derive(token[n..]).value, sa) == Some(sa + Encode(t, 8) + ocid)
  {
    hide Encode, Stale;
    PowerEight();
    if |token| >= TOKEN_RAND_DATALEN {
      var n := |token| - TOKEN_RAND_DATALEN;
      if c.derive(token[n..]).Some? {
        var key := c.derive(token[n..]).value;
        if VerifyToken(c, token, sa, now) == Accepted(ocid) {
          var p := c.decrypt(token[..n], key, sa).value;
          var stamp := p[|sa|..|sa| + 8];
          EncodeDecode(stamp);
          DecodeBound(stamp);
          assert p == sa + Encode(Decode(stamp), 8) + p[|sa| + 8..];
        } else if t: nat :| t < TWO_64 && !Stale(t, now)
                            && c.decrypt(token[..n], key, sa) == Some(sa + Encode(t, 8) + ocid) {
          var p := sa + Encode(t, 8) + ocid;
          DecodeEncode(t, 8);
          assert p[..|sa|] == sa && p[|sa|..|sa| + 8] == Encode(t, 8) && p[|sa| + 8..] == ocid;
        }
      }
    }
  }

  /** A token made for one address is refused for another of the same length, even
      where decryption does not notice. */
  lemma OtherAddressRefused(c: Crypto, p: Bytes, sa: Bytes, other: Bytes, t: nat, ocid: Bytes, now: nat)
    requires |sa| == |other| && sa != other && p == Plaintext(other, t, ocid)
    ensures !CheckPlaintext(c, p, sa, now).Accepted?
  {
    assert p[..|sa|] == other;
  }
}
