/**
 The padding of section 5.1 of FIPS 180-4, read backwards: a padded message shows where the message
 ends, so two different messages are never padded to the same blocks.
 */
module Padding {
  import opened Digest

  /** Bytes as a number, the most significant first. */
  function Number(bytes: seq<byte>): nat {
    if bytes == [] then 0 else 256 * Number(bytes[..|bytes| - 1]) + bytes[|bytes| - 1] as nat
  }

  lemma OneMoreByte(bytes: seq<byte>, b: byte)
    ensures Number(bytes + [b]) == 256 * Number(bytes) + b as nat
  {
    assert (bytes + [b])[..|bytes|] == bytes;
  }

  lemma NextByte(b: byte)
    requires b != 255
    ensures (b + 1) as nat == b as nat + 1
  {
  }

  lemma {:induction false} SmallIsRead(m: nat)
    requires m < 256
    ensures (m as bv8) as nat == m
  {
    if m > 0 {
      var b: byte := (m - 1) as bv8;
      SmallIsRead(m - 1);
      NextByte(b);
      Converted(b + 1, m);
    }
  }

  lemma Converted(b: byte, m: nat)
    requires b as nat == m
    ensures m as bv8 == b
  {
  }

  lemma ByteIsRead(n: nat)
    ensures Byte(n) as nat == n % 256
  {
    SmallIsRead(n % 256);
  }

  lemma {:induction false} NumberIsRead(n: nat, k: nat)
    requires n < Pow256(k)
    ensures Number(BigEndian(n, k)) == n
  {
    if k > 0 {
      var low := Byte(n);
      NumberIsRead(n / 256, k - 1);
      OneMoreByte(BigEndian(n / 256, k - 1), low);
      ByteIsRead(n);
    }
  }

  lemma {:induction false} Wider(a: nat, b: nat)
    requires a <= b
    ensures Pow256(a) <= Pow256(b)
    decreases b
  {
    if a < b {
      Wider(a, b - 1);
    }
  }

  /** The message, a one bit, fewer zero bytes than a block, and the length in bits; together they fill whole blocks. */
  lemma PaddingMeaning<S(!new)>(alg: Algorithm<S>, message: seq<byte>)
    requires alg.Valid() && 8 * |message| <= MAX_U64
    ensures var p, n, end := Padded(alg, message), |message|, |Padded(alg, message)| - alg.lenLen;
      && n < end < n + 1 + alg.blockLen && p[..n] == message && p[n] == 0x80
      && (forall i :: n < i < end ==> p[i] == 0)
      && Number(p[end..]) == 8 * n
      && exists q: nat :: |p| == q * alg.blockLen
  {
    var n, zeros := |message|, ZeroBytes(|message|, alg.blockLen, alg.lenLen);
    var p, end := Padded(alg, message), n + 1 + zeros;
    WordFits(8 * n);
    Wider(WORD_BYTES, alg.lenLen);
    NumberIsRead(8 * n, alg.lenLen);
    assert p[end..] == BigEndian(8 * n, alg.lenLen);
    assert p[..n] == message;
    ZeroBytesIff(n, alg.blockLen, alg.lenLen, zeros);
    RemainderIsModulo(|p|, alg.blockLen);
  }

  /** No two messages share their padded blocks. */
  lemma PaddedIsInjective<S(!new)>(alg: Algorithm<S>, a: seq<byte>, b: seq<byte>)
    requires alg.Valid() && 8 * |a| <= MAX_U64 && 8 * |b| <= MAX_U64
    requires Padded(alg, a) == Padded(alg, b)
    ensures a == b
  {
    PaddingMeaning(alg, a);
    PaddingMeaning(alg, b);
  }
}
