/**
 Buffered hashing. The block function is left abstract; what is proved is that feeding a message in
 any pieces comes to folding the block function over the padded message.
 */
module Digest {
  import opened Wrappers

  type byte = bv8

  const MAX_BLOCK_LEN := 128
  const MAX_U64: nat := 0xffff_ffff_ffff_ffff

  /** A hash algorithm: its lengths in bytes, `lenLen` being that of the length field of the padding. */
  datatype Algorithm<!S(!new)> = Algorithm(initial: S, compress: (S, seq<byte>) -> S, output: S -> seq<byte>,
                                     blockLen: nat, outputLen: nat, lenLen: nat)
  {
    ghost predicate Valid() {
      && 8 <= lenLen && lenLen + 1 <= blockLen <= MAX_BLOCK_LEN && outputLen < blockLen
      && forall s :: |output(s)| == outputLen
    }
  }

  // ---- the one-shot specification -----------------------------------------------------------------

  /** The block function over a whole number of blocks. */
  function Fold<S(!new)>(alg: Algorithm<S>, s: S, data: seq<byte>): S
    requires alg.blockLen > 0
  {
    if |data| < alg.blockLen then s
    else Fold(alg, alg.compress(s, data[..alg.blockLen]), data[alg.blockLen..])
  }

  function Zeros(n: nat): (z: seq<byte>)
    ensures |z| == n
  {
    seq(n, _ => 0)
  }

  function Byte(n: nat): byte {
    (n % 256) as bv8
  }

  function BigEndian(n: nat, k: nat): (bytes: seq<byte>)
    ensures |bytes| == k
  {
    if k == 0 then [] else BigEndian(n / 256, k - 1) + [Byte(n)]
  }

  /** What is left of `n` after whole blocks. */
  function Remainder(n: nat, blockLen: nat): (r: nat)
    requires blockLen > 0
    ensures r < blockLen
  {
    if n < blockLen then n else Remainder(n - blockLen, blockLen)
  }

  /** The number of zero bytes: the least that lets the length field end a block. */
  function ZeroBytes(n: nat, blockLen: nat, lenLen: nat): (k: nat)
    requires blockLen > 0
    ensures k < blockLen
  {
    var r := Remainder(n + 1 + lenLen, blockLen);
    if r == 0 then 0 else blockLen - r
  }

  /** Section 5.1 of FIPS 180-4: a one bit, zero bits, and the length of the message in bits. */
  function Padded<S(!new)>(alg: Algorithm<S>, message: seq<byte>): seq<byte>
    requires alg.blockLen > 0
  {
    message + [0x80] + Zeros(ZeroBytes(|message|, alg.blockLen, alg.lenLen)) + BigEndian(8 * |message|, alg.lenLen)
  }

  /** The digest of a message of fewer than 2^64 bits. */
  function Hash<S(!new)>(alg: Algorithm<S>, message: seq<byte>): Option<seq<byte>>
    requires alg.blockLen > 0
  {
    if 8 * |message| > MAX_U64 then None else Some(alg.output(Fold(alg, alg.initial, Padded(alg, message))))
  }

  // ---- folding in pieces ------------------------------------------------------------------------------

  predicate Whole(n: nat, blockLen: nat)
    requires blockLen > 0
  {
    Remainder(n, blockLen) == 0
  }

  lemma {:induction false} FoldAppend<S(!new)>(alg: Algorithm<S>, s: S, a: seq<byte>, b: seq<byte>)
    requires alg.blockLen > 0 && Whole(|a|, alg.blockLen)
    ensures Fold(alg, s, a + b) == Fold(alg, Fold(alg, s, a), b)
    decreases |a|
  {
    if |a| < alg.blockLen {
      assert a + b == b;
    } else {
      var n := alg.blockLen;
      assert (a + b)[..n] == a[..n] && (a + b)[n..] == a[n..] + b;
      FoldAppend(alg, alg.compress(s, a[..n]), a[n..], b);
    }
  }

  lemma FoldOne<S(!new)>(alg: Algorithm<S>, s: S, block: seq<byte>)
    requires alg.blockLen > 0 && |block| == alg.blockLen
    ensures Fold(alg, s, block) == alg.compress(s, block)
  {
    assert block[..alg.blockLen] == block && |block[alg.blockLen..]| == 0;
  }

  // ---- padding ------------------------------------------------------------------------------------------

  lemma {:induction false} RemainderAdds(n: nat, k: nat, blockLen: nat)
    requires blockLen > 0
    ensures Remainder(n + k, blockLen) == Remainder(Remainder(n, blockLen) + k, blockLen)
  {
    if n >= blockLen {
      RemainderAdds(n - blockLen, k, blockLen);
    }
  }

  lemma {:induction false} RemainderIsModulo(n: nat, blockLen: nat)
    requires blockLen > 0
    ensures exists q: nat :: n == q * blockLen + Remainder(n, blockLen)
  {
    if n < blockLen {
      assert n == 0 * blockLen + Remainder(n, blockLen);
    } else {
      RemainderIsModulo(n - blockLen, blockLen);
      var q: nat :| n - blockLen == q * blockLen + Remainder(n, blockLen);
      assert n == (q + 1) * blockLen + Remainder(n, blockLen);
    }
  }

  /** With the zero bytes the padded message ends a block, and no smaller number of them does it. */
  lemma ZeroBytesIff(n: nat, blockLen: nat, lenLen: nat, k: nat)
    requires blockLen > 0 && k < blockLen
    ensures Whole(n + 1 + k + lenLen, blockLen) <==> k == ZeroBytes(n, blockLen, lenLen)
  {
    RemainderAdds(n + 1 + lenLen, k, blockLen);
    assert n + 1 + k + lenLen == n + 1 + lenLen + k;
  }

  lemma {:induction false} ZerosAppend(a: nat, b: nat)
    ensures Zeros(a) + Zeros(b) == Zeros(a + b)
  {
  }

  function Pow256(k: nat): nat {
    if k == 0 then 1 else 256 * Pow256(k - 1)
  }

  lemma {:induction false} BigEndianZero(k: nat)
    ensures BigEndian(0, k) == Zeros(k)
  {
    if k > 0 {
      BigEndianZero(k - 1);
    }
  }

  /** A number that fits `j` bytes has zeros above them. */
  lemma {:induction false} BigEndianHigh(n: nat, k: nat, j: nat)
    requires j <= k && n < Pow256(j)
    ensures BigEndian(n, k) == Zeros(k - j) + BigEndian(n, j)
    decreases j
  {
    if j == 0 {
      BigEndianZero(k);
      assert Zeros(k) + [] == Zeros(k);
    } else {
      BigEndianHigh(n / 256, k - 1, j - 1);
      assert Zeros(k - j) + BigEndian(n / 256, j - 1) + [Byte(n)] == Zeros(k - j) + (BigEndian(n / 256, j - 1) + [Byte(n)]);
    }
  }

  const WORD_BYTES: nat := 8

  lemma WordFits(n: nat)
    requires n <= MAX_U64
    ensures n < Pow256(WORD_BYTES)
  {
    assert Pow256(2) == 0x1_0000 && Pow256(4) == 0x1_0000_0000;
    assert Pow256(6) == 0x1_0000 * Pow256(4);
    assert Pow256(8) == 0x1_0000 * Pow256(6);
  }

  /** What is put behind the whole blocks of a message that ends in the partial block `p`: one block or two. */
  function FinalBlocks(blockLen: nat, lenLen: nat, p: seq<byte>, bits: nat): seq<byte>
    requires |p| < blockLen && 8 <= lenLen && lenLen + 1 <= blockLen
  {
    if |p| + 1 + lenLen <= blockLen then p + [0x80] + Zeros(blockLen - |p| - 1 - WORD_BYTES) + BigEndian(bits, WORD_BYTES)
    else p + [0x80] + Zeros(blockLen - |p| - 1) + (Zeros(blockLen - WORD_BYTES) + BigEndian(bits, WORD_BYTES))
  }

  lemma PaddingOf(n: nat, np: nat, blockLen: nat, lenLen: nat)
    requires np < blockLen && 8 <= lenLen && lenLen + 1 <= blockLen && Whole(n, blockLen)
    ensures ZeroBytes(n + np, blockLen, lenLen) == (if np + 1 + lenLen <= blockLen then blockLen else 2 * blockLen) - np - 1 - lenLen
  {
    var k := (if np + 1 + lenLen <= blockLen then blockLen else 2 * blockLen) - np - 1 - lenLen;
    RemainderAdds(n, blockLen, blockLen);
    RemainderAdds(n, 2 * blockLen, blockLen);
    ZeroBytesIff(n + np, blockLen, lenLen, k);
    assert n + np + 1 + k + lenLen == n + blockLen || n + np + 1 + k + lenLen == n + 2 * blockLen;
  }

  lemma PaddedSplit<S(!new)>(alg: Algorithm<S>, fed: seq<byte>, p: seq<byte>)
    requires alg.Valid() && Whole(|fed|, alg.blockLen) && |p| < alg.blockLen && 8 * |fed + p| <= MAX_U64
    ensures Padded(alg, fed + p) == fed + FinalBlocks(alg.blockLen, alg.lenLen, p, 8 * |fed + p|)
  {
    var bits, k := 8 * |fed + p|, ZeroBytes(|fed + p|, alg.blockLen, alg.lenLen);
    PaddingOf(|fed|, |p|, alg.blockLen, alg.lenLen);
    WordFits(bits);
    BigEndianHigh(bits, alg.lenLen, WORD_BYTES);
    ZerosAppend(k, alg.lenLen - WORD_BYTES);
    if |p| + 1 + alg.lenLen > alg.blockLen {
      ZerosAppend(alg.blockLen - |p| - 1, alg.blockLen - WORD_BYTES);
    }
    Regroup(fed, p, Zeros(k), Zeros(alg.lenLen - WORD_BYTES), BigEndian(bits, WORD_BYTES));
    assert Zeros(alg.blockLen - |p| - 1) + Zeros(alg.blockLen - WORD_BYTES) + BigEndian(bits, WORD_BYTES)
      == Zeros(alg.blockLen - |p| - 1) + (Zeros(alg.blockLen - WORD_BYTES) + BigEndian(bits, WORD_BYTES));
  }

  lemma Regroup(fed: seq<byte>, p: seq<byte>, k: seq<byte>, z: seq<byte>, n: seq<byte>)
    ensures fed + p + [0x80] + k + (z + n) == fed + (p + [0x80] + (k + z) + n)
  {
  }
}
