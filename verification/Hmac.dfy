/**
 Keyed hashing with the two key blocks hashed once.
 */
module Hmac {
  import opened Wrappers
  import opened Basics
  import opened Digest
  import opened DigestContext

  const IPAD: byte := 0x36
  const OPAD: byte := 0x5c

  // ---- the specification --------------------------------------------------------------------------

  function Masked(block: seq<byte>, mask: byte): (m: seq<byte>)
    ensures |m| == |block|
  {
    seq(|block|, i requires 0 <= i < |block| => block[i] ^ mask)
  }

  /** The key as one block: a long key is hashed, a short one filled up with zeros. */
  ghost function KeyBlock<S(!new)>(alg: Algorithm<S>, key: seq<byte>): (block: Option<seq<byte>>)
    requires alg.Valid()
    ensures block.Some? ==> |block.value| == alg.blockLen
  {
    if |key| <= alg.blockLen then Some(key + Zeros(alg.blockLen - |key|))
    else
      match Hash(alg, key)
      case None => None
      case Some(h) => Some(h + Zeros(alg.blockLen - |h|))
  }

  /** Section 2 of RFC 2104. */
  ghost function Mac<S(!new)>(alg: Algorithm<S>, block: seq<byte>, message: seq<byte>): Option<seq<byte>>
    requires alg.Valid()
  {
    match Hash(alg, Masked(block, IPAD) + message)
    case None => None
    case Some(inner) => Hash(alg, Masked(block, OPAD) + inner)
  }

  // ---- keys -------------------------------------------------------------------------------------------

  lemma Remasked(block: seq<byte>)
    ensures Masked(Masked(block, IPAD), IPAD ^ OPAD) == Masked(block, OPAD)
  {
    forall i | 0 <= i < |block|
      ensures Masked(Masked(block, IPAD), IPAD ^ OPAD)[i] == Masked(block, OPAD)[i]
    {
      XorTwice(block[i]);
    }
  }

  lemma XorTwice(b: byte)
    ensures (b ^ IPAD) ^ (IPAD ^ OPAD) == b ^ OPAD
    ensures IPAD ^ b == b ^ IPAD && (0 as byte) ^ IPAD == IPAD
  {
  }

  /** Masks the start of a block with the key, the rest being the mask already. */
  method XorAtStart(a: array<byte>, blockLen: nat, key: seq<byte>)
    requires |key| <= blockLen <= a.Length
    requires forall i :: 0 <= i < blockLen ==> a[i] == IPAD
    modifies a
    ensures a[..blockLen] == Masked(key + Zeros(blockLen - |key|), IPAD)
  {
    XorTwice(0);
    for i := 0 to |key|
      invariant forall j :: 0 <= j < i ==> a[j] == key[j] ^ IPAD
      invariant forall j :: i <= j < blockLen ==> a[j] == IPAD
    {
      XorTwice(key[i]);
      a[i] := a[i] ^ key[i];
    }
  }

  method XorAll(a: array<byte>, blockLen: nat, mask: byte)
    requires blockLen <= a.Length
    modifies a
    ensures a[..blockLen] == Masked(old(a[..blockLen]), mask)
  {
    for i := 0 to blockLen
      invariant forall j :: 0 <= j < i ==> a[j] == old(a[j]) ^ mask
      invariant forall j :: i <= j < blockLen ==> a[j] == old(a[j])
    {
      a[i] := a[i] ^ mask;
    }
  }

  /** The contexts behind the two key blocks. */
  class Key<S(!new)> {
    const inner: BlockContext<S>
    const outer: BlockContext<S>
    ghost const block: seq<byte>

    ghost predicate Valid()
      reads this, inner, outer
    {
      && inner.Valid() && outer.Valid() && inner.algorithm == outer.algorithm && |block| == inner.algorithm.blockLen
      && inner.fed == Masked(block, IPAD) && outer.fed == Masked(block, OPAD)
    }

    constructor (inner: BlockContext<S>, outer: BlockContext<S>, ghost block: seq<byte>)
      requires inner.Valid() && outer.Valid() && inner.algorithm == outer.algorithm && |block| == inner.algorithm.blockLen
      requires inner.fed == Masked(block, IPAD) && outer.fed == Masked(block, OPAD)
      ensures Valid() && this.inner == inner && this.outer == outer && this.block == block
    {
      this.inner, this.outer, this.block := inner, outer, block;
    }
  }

  method HashAll<S(!new)>(algorithm: Algorithm<S>, data: seq<byte>) returns (r: Result<seq<byte>>)
    requires algorithm.Valid()
    ensures r == match Hash(algorithm, data) case Some(d) => Ok(d) case None => Err
  {
    var ctx := new Context(algorithm);
    ctx.Update(data);
    assert ctx.Message() == data;
    r := ctx.TryFinish();
  }

  method NewKey<S(!new)>(algorithm: Algorithm<S>, value: seq<byte>) returns (r: Result<Key<S>>)
    requires algorithm.Valid()
    ensures r.Ok? <==> KeyBlock(algorithm, value).Some?
    ensures r.Ok? ==> fresh(r.value) && fresh(r.value.inner) && fresh(r.value.outer) && r.value.Valid()
    ensures r.Ok? ==> r.value.inner.algorithm == algorithm && Some(r.value.block) == KeyBlock(algorithm, value)
  {
    var blockLen, short := algorithm.blockLen, value;
    if |value| > blockLen {
      var hashed := HashAll(algorithm, value);
      if hashed.Err? {
        return Err;
      }
      short := hashed.value;
    }
    ghost var block := short + Zeros(blockLen - |short|);
    var inner := new BlockContext(algorithm);
    var outer := new BlockContext(algorithm);
    var padded := new byte[MAX_BLOCK_LEN](_ => IPAD);
    XorAtStart(padded, blockLen, short);
    FeedBlock(inner, padded[..blockLen]);
    XorAll(padded, blockLen, IPAD ^ OPAD);
    Remasked(block);
    FeedBlock(outer, padded[..blockLen]);
    var key := new Key(inner, outer, block);
    return Ok(key);
  }

  method FeedBlock<S(!new)>(ctx: BlockContext<S>, block: seq<byte>)
    requires ctx.Valid() && ctx.fed == [] && |block| == ctx.algorithm.blockLen
    modifies ctx
    ensures ctx.Valid() && ctx.fed == block
  {
    OneWhole(|block|);
    PartialOfWhole(block, |block|);
    var leftover := ctx.Update(block);
    assert ctx.fed + leftover == ctx.fed && [] + block == block;
  }

  // ---- signing -----------------------------------------------------------------------------------------

  class Signing<S(!new)> {
    const inner: Context<S>
    const outer: BlockContext<S>
    ghost const block: seq<byte>
    ghost var message: seq<byte>

    ghost predicate Valid()
      reads this, inner, inner.block, inner.pending, outer
    {
      && inner.Valid() && outer.Valid() && outer != inner.block && inner.block.algorithm == outer.algorithm
      && inner.Message() == Masked(block, IPAD) + message
      && outer.fed == Masked(block, OPAD) && |block| == outer.algorithm.blockLen
    }

    constructor WithKey(key: Key<S>)
      requires key.Valid()
      ensures Valid() && fresh(inner) && fresh(inner.block) && fresh(inner.pending) && fresh(outer)
      ensures block == key.block && message == [] && outer.algorithm == key.inner.algorithm
    {
      inner := new Context.CloneFrom(key.inner);
      outer := new BlockContext.Clone(key.outer);
      block := key.block;
      message := [];
      new;
      assert inner.Message() == Masked(block, IPAD) + [];
    }

    method Update(data: seq<byte>)
      requires Valid()
      modifies this, inner, inner.block, inner.pending
      ensures Valid() && message == old(message) + data
    {
      inner.Update(data);
      Associative(Masked(block, IPAD), message, data);
      message := message + data;
    }

    /** The outer hash never fails once the inner one has succeeded. */
    method TrySign() returns (r: Result<seq<byte>>)
      requires Valid()
      modifies this, inner, inner.block, inner.pending, outer
      ensures r == match Mac(outer.algorithm, block, old(message)) case Some(t) => Ok(t) case None => Err
    {
      var hashed := inner.TryFinish();
      if hashed.Err? {
        return Err;
      }
      var digest := hashed.value;
      var buffer := new byte[MAX_BLOCK_LEN](_ => 0);
      for i := 0 to |digest|
        invariant forall j :: 0 <= j < i ==> buffer[j] == digest[j]
        modifies buffer
      {
        buffer[i] := digest[i];
      }
      assert buffer[..|digest|] == digest;
      var finished := outer.TryFinish(buffer, |digest|);
      return Ok(finished.digest);
    }
  }

  /** The code of a message, whatever the key's length and however the message is cut up. */
  method Sign<S(!new)>(algorithm: Algorithm<S>, value: seq<byte>, pieces: seq<seq<byte>>) returns (r: Result<seq<byte>>)
    requires algorithm.Valid()
    ensures r.Ok? <==> KeyBlock(algorithm, value).Some? && Mac(algorithm, KeyBlock(algorithm, value).value, Concat(pieces)).Some?
    ensures r.Ok? ==> Some(r.value) == Mac(algorithm, KeyBlock(algorithm, value).value, Concat(pieces))
  {
    var key := NewKey(algorithm, value);
    if key.Err? {
      return Err;
    }
    var signing := new Signing.WithKey(key.value);
    for i := 0 to |pieces|
      invariant signing.Valid() && fresh(signing) && fresh(signing.inner) && fresh(signing.inner.block) && fresh(signing.inner.pending)
      invariant fresh(signing.outer) && signing.message == Concat(pieces[..i])
    {
      ConcatStep(pieces, i);
      signing.Update(pieces[i]);
    }
    assert pieces[..|pieces|] == pieces;
    r := signing.TrySign();
  }
}
