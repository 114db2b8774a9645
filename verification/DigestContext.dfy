/**
 Hash contexts as objects: the state after whole blocks, and a buffer for the partial block at the
 end. Both are updated in place.
 */
module DigestContext {
  import opened Wrappers
  import opened Basics
  import opened Digest

  datatype FinishResult = Finished(digest: seq<byte>) | InputTooLong | PendingNotAPartialBlock

  /** What `data` ends in after its whole blocks. */
  function Partial(data: seq<byte>, blockLen: nat): (rest: seq<byte>)
    requires blockLen > 0
    ensures |rest| < blockLen
  {
    if |data| < blockLen then data else Partial(data[blockLen..], blockLen)
  }

  lemma {:induction false} PartialSplit(data: seq<byte>, blockLen: nat) returns (n: nat)
    requires blockLen > 0
    ensures n <= |data| && Whole(n, blockLen) && Partial(data, blockLen) == data[n..]
  {
    n := 0;
    if |data| >= blockLen {
      var m := PartialSplit(data[blockLen..], blockLen);
      n := m + blockLen;
      assert data[blockLen..][m..] == data[n..];
    }
  }

  lemma {:induction false} PartialOfWhole(data: seq<byte>, blockLen: nat)
    requires blockLen > 0 && Whole(|data|, blockLen)
    ensures Partial(data, blockLen) == []
  {
    if |data| >= blockLen {
      PartialOfWhole(data[blockLen..], blockLen);
    }
  }

  lemma OneBlock(n: nat, completed: nat)
    requires n > 0 && completed <= n && n - completed < n && Whole(completed, n)
    ensures completed == n
  {
  }

  lemma OneWhole(n: nat)
    requires n > 0
    ensures Whole(n, n)
  {
  }

  lemma FedTogether(n: nat, k: nat, blockLen: nat)
    requires blockLen > 0 && Whole(n, blockLen) && Whole(k, blockLen)
    ensures Whole(n + k, blockLen)
  {
    RemainderAdds(n, k, blockLen);
  }

  /** Clears a range. */
  method Fill(a: array<byte>, from: nat, to: nat)
    requires from <= to <= a.Length
    modifies a
    ensures a[from..to] == Zeros(to - from) && a[..from] == old(a[..from]) && a[to..] == old(a[to..])
  {
    var i := from;
    while i < to
      invariant from <= i <= to
      invariant a[from..i] == Zeros(i - from) && a[..from] == old(a[..from]) && a[to..] == old(a[to..])
    {
      a[i] := 0;
      i := i + 1;
    }
  }

  /** Writes a number as eight bytes, the highest first. */
  method PutBits(a: array<byte>, at: nat, bits: nat)
    requires at + WORD_BYTES <= a.Length
    modifies a
    ensures a[at..at + WORD_BYTES] == BigEndian(bits, WORD_BYTES) && a[..at] == old(a[..at])
  {
    var n, i := bits, WORD_BYTES;
    while i > 0
      invariant 0 <= i <= WORD_BYTES && a[..at] == old(a[..at])
      invariant BigEndian(n, i) + a[at + i..at + WORD_BYTES] == BigEndian(bits, WORD_BYTES)
    {
      i := i - 1;
      a[at + i] := Byte(n);
      BigEndianStep(n, i, a[at + i + 1..at + WORD_BYTES]);
      assert a[at + i..at + WORD_BYTES] == [Byte(n)] + a[at + i + 1..at + WORD_BYTES];
      n := n / 256;
    }
  }

  lemma BigEndianStep(n: nat, i: nat, tail: seq<byte>)
    ensures BigEndian(n, i + 1) + tail == BigEndian(n / 256, i) + ([Byte(n)] + tail)
  {
  }

  lemma Recut(fed: seq<byte>, p: seq<byte>, data: seq<byte>, room: nat)
    requires room <= |data|
    ensures fed + (p + data[..room]) + data[room..] == fed + p + data
  {
  }

  class BlockContext<S(!new)> {
    const algorithm: Algorithm<S>
    var state: S
    var completedBytes: nat
    ghost var fed: seq<byte>

    /** The state is that after the whole blocks fed so far; the counter saturates. */
    ghost predicate Valid()
      reads this
    {
      && algorithm.Valid() && Whole(|fed|, algorithm.blockLen)
      && state == Fold(algorithm, algorithm.initial, fed)
      && completedBytes == Min(|fed|, MAX_U64)
    }

    constructor (algorithm: Algorithm<S>)
      requires algorithm.Valid()
      ensures Valid() && this.algorithm == algorithm && fed == []
    {
      this.algorithm, state, completedBytes, fed := algorithm, algorithm.initial, 0, [];
    }

    constructor Clone(other: BlockContext<S>)
      requires other.Valid()
      ensures Valid() && algorithm == other.algorithm && fed == other.fed
    {
      algorithm, state, completedBytes, fed := other.algorithm, other.state, other.completedBytes, other.fed;
    }

    /** The block function over all whole blocks of `data`; what is left over is returned. */
    method BlockDataOrder(data: seq<byte>) returns (completed: nat, leftover: seq<byte>)
      requires algorithm.blockLen > 0
      modifies this`state
      ensures completed <= |data| && Whole(completed, algorithm.blockLen) && leftover == data[completed..]
      ensures |leftover| < algorithm.blockLen && leftover == Partial(data, algorithm.blockLen)
      ensures state == Fold(algorithm, old(state), data[..completed])
    {
      completed := 0;
      while |data| - completed >= algorithm.blockLen
        invariant completed <= |data| && Whole(completed, algorithm.blockLen)
        invariant state == Fold(algorithm, old(state), data[..completed])
        invariant Partial(data[completed..], algorithm.blockLen) == Partial(data, algorithm.blockLen)
      {
        var block := data[completed..completed + algorithm.blockLen];
        RemainderAdds(completed, algorithm.blockLen, algorithm.blockLen);
        FoldAppend(algorithm, old(state), data[..completed], block);
        FoldOne(algorithm, state, block);
        assert data[..completed + algorithm.blockLen] == data[..completed] + block;
        assert data[completed..][algorithm.blockLen..] == data[completed + algorithm.blockLen..];
        state := algorithm.compress(state, block);
        completed := completed + algorithm.blockLen;
      }
      leftover := data[completed..];
    }

    method Update(input: seq<byte>) returns (leftover: seq<byte>)
      requires Valid()
      modifies this
      ensures Valid() && |leftover| < algorithm.blockLen
      ensures fed + leftover == old(fed) + input && leftover == Partial(input, algorithm.blockLen)
    {
      var completed: nat;
      completed, leftover := BlockDataOrder(input);
      FoldAppend(algorithm, algorithm.initial, fed, input[..completed]);
      RemainderAdds(|fed|, completed, algorithm.blockLen);
      RemainderAdds(completed, 0, algorithm.blockLen);
      FedTogether(|fed|, completed, algorithm.blockLen);
      completedBytes := Min(completedBytes + completed, MAX_U64);
      assert fed + input == fed + input[..completed] + input[completed..];
      fed := fed + input[..completed];
    }

    /** Pads in place and hashes the last one or two blocks. */
    method TryFinish(block: array<byte>, numPending: nat) returns (r: FinishResult)
      requires Valid() && block.Length == MAX_BLOCK_LEN
      modifies this, block
      ensures r.InputTooLong? <==> 8 * (|old(fed)| + numPending) > MAX_U64
      ensures r.PendingNotAPartialBlock? ==> numPending >= algorithm.blockLen
      ensures r.Finished? ==> numPending < algorithm.blockLen
      ensures r.Finished? ==> Some(r.digest) == Hash(algorithm, old(fed) + old(block[..numPending]))
    {
      if completedBytes + numPending > MAX_U64 || 8 * (completedBytes + numPending) > MAX_U64 {
        return InputTooLong;
      }
      if numPending >= algorithm.blockLen {
        return PendingNotAPartialBlock;
      }
      var bits := 8 * (completedBytes + numPending);
      ghost var pending, start := block[..numPending], state;
      PaddedSplit(algorithm, fed, pending);
      WritePadding(block, numPending, bits);
      FoldAppend(algorithm, algorithm.initial, fed, FinalBlocks(algorithm.blockLen, algorithm.lenLen, pending, bits));
      return Finished(algorithm.output(state));
    }

    method HashBlock(block: seq<byte>)
      requires algorithm.blockLen > 0 && |block| == algorithm.blockLen
      modifies this`state
      ensures state == Fold(algorithm, old(state), block)
    {
      var completed, leftover := BlockDataOrder(block);
      OneBlock(algorithm.blockLen, completed);
      assert block[..completed] == block;
    }

    method WriteOneBlock(block: array<byte>, numPending: nat, bits: nat)
      requires algorithm.Valid() && block.Length == MAX_BLOCK_LEN && numPending + 1 + algorithm.lenLen <= algorithm.blockLen
      modifies this`state, block
      ensures state == Fold(algorithm, old(state), old(block[..numPending + 1])
                            + Zeros(algorithm.blockLen - numPending - 1 - WORD_BYTES) + BigEndian(bits, WORD_BYTES))
    {
      var n := algorithm.blockLen;
      Fill(block, numPending + 1, n - WORD_BYTES);
      PutBits(block, n - WORD_BYTES, bits);
      assert block[..n] == old(block[..numPending + 1]) + Zeros(n - numPending - 1 - WORD_BYTES) + BigEndian(bits, WORD_BYTES);
      HashBlock(block[..n]);
    }

    method WriteTwoBlocks(block: array<byte>, numPending: nat, bits: nat)
      requires algorithm.Valid() && block.Length == MAX_BLOCK_LEN && numPending < algorithm.blockLen
      modifies this`state, block
      ensures state == Fold(algorithm, old(state), old(block[..numPending + 1]) + Zeros(algorithm.blockLen - numPending - 1)
                            + (Zeros(algorithm.blockLen - WORD_BYTES) + BigEndian(bits, WORD_BYTES)))
    {
      var n := algorithm.blockLen;
      Fill(block, numPending + 1, n);
      ghost var first := old(block[..numPending + 1]) + Zeros(n - numPending - 1);
      assert block[..n] == first;
      HashBlock(block[..n]);
      Fill(block, 0, n - WORD_BYTES);
      PutBits(block, n - WORD_BYTES, bits);
      ghost var last := Zeros(n - WORD_BYTES) + BigEndian(bits, WORD_BYTES);
      assert block[..n] == last;
      HashBlock(block[..n]);
      OneWhole(n);
      FoldAppend(algorithm, old(state), first, last);
    }

    /** The separator, zeros and the length; when the length does not fit any more, it goes into a second block. */
    method WritePadding(block: array<byte>, numPending: nat, bits: nat)
      requires algorithm.Valid() && block.Length == MAX_BLOCK_LEN && numPending < algorithm.blockLen && bits <= MAX_U64
      modifies this`state, block
      ensures state == Fold(algorithm, old(state),
                            FinalBlocks(algorithm.blockLen, algorithm.lenLen, old(block[..numPending]), bits))
    {
      block[numPending] := 0x80;
      assert block[..numPending + 1] == old(block[..numPending]) + [0x80];
      if algorithm.blockLen - numPending - 1 < algorithm.lenLen {
        WriteTwoBlocks(block, numPending, bits);
      } else {
        WriteOneBlock(block, numPending, bits);
      }
    }
  }

  /** A context that takes a message in pieces. */
  class Context<S(!new)> {
    const block: BlockContext<S>
    const pending: array<byte>
    var numPending: nat

    ghost predicate Valid()
      reads this, block, pending
    {
      && block.Valid() && pending.Length == MAX_BLOCK_LEN && numPending < block.algorithm.blockLen
    }

    /** Everything that was fed in so far. */
    ghost function Message(): seq<byte>
      requires Valid()
      reads this, block, pending
    {
      block.fed + pending[..numPending]
    }

    constructor (algorithm: Algorithm<S>)
      requires algorithm.Valid()
      ensures Valid() && fresh(block) && fresh(pending) && block.algorithm == algorithm && Message() == []
    {
      block := new BlockContext(algorithm);
      pending := new byte[MAX_BLOCK_LEN](_ => 0);
      numPending := 0;
    }

    /** Goes on from the whole blocks that another context has hashed. */
    constructor CloneFrom(other: BlockContext<S>)
      requires other.Valid()
      ensures Valid() && fresh(block) && fresh(pending) && block.algorithm == other.algorithm && Message() == other.fed
    {
      block := new BlockContext.Clone(other);
      pending := new byte[MAX_BLOCK_LEN](_ => 0);
      numPending := 0;
      new;
      assert pending[..0] == [];
    }

    /** Copies as much of `data` as there is room for, from `at` up to the end of a block. */
    method OverwriteAtStart(at: nat, end: nat, data: seq<byte>)
      requires at <= end <= pending.Length
      modifies pending
      ensures var n := Min(|data|, end - at);
        pending[..at] == old(pending[..at]) && pending[at..at + n] == data[..n]
    {
      var n := Min(|data|, end - at);
      for i := 0 to n
        invariant pending[..at] == old(pending[..at]) && pending[at..at + i] == data[..i]
      {
        pending[at + i] := data[i];
      }
    }

    /** With nothing pending, whole blocks are hashed from where they are and the rest is kept. */
    method UpdateAligned(data: seq<byte>)
      requires Valid() && numPending == 0
      modifies this, block, pending
      ensures Valid() && Message() == old(block.fed) + data
    {
      var leftover := block.Update(data);
      OverwriteAtStart(0, block.algorithm.blockLen, leftover);
      numPending := |leftover|;
      assert pending[..numPending] == leftover;
    }

    /** The pending block is completed with the start of `data` and hashed. */
    method Complete(data: seq<byte>) returns (rest: seq<byte>)
      requires Valid() && numPending + |data| >= block.algorithm.blockLen
      modifies this, block, pending
      ensures Valid() && numPending == 0 && block.fed + rest == old(Message()) + data
    {
      var blockLen := block.algorithm.blockLen;
      var room := blockLen - numPending;
      OverwriteAtStart(numPending, blockLen, data);
      assert pending[..blockLen] == old(pending[..numPending]) + data[..room];
      OneWhole(blockLen);
      PartialOfWhole(pending[..blockLen], blockLen);
      var leftover := block.Update(pending[..blockLen]);
      assert block.fed + leftover == block.fed;
      Recut(old(block.fed), old(pending[..numPending]), data, room);
      numPending := 0;
      rest := data[room..];
    }

    method Update(data: seq<byte>)
      requires Valid()
      modifies this, block, pending
      ensures Valid() && Message() == old(Message()) + data
    {
      var toDigest := data;
      if numPending == 0 {
        assert Message() == block.fed;
      } else if |data| < block.algorithm.blockLen - numPending {
        OverwriteAtStart(numPending, block.algorithm.blockLen, data);
        assert pending[..numPending + |data|] == old(pending[..numPending]) + data;
        numPending := numPending + |data|;
        return;
      } else {
        toDigest := Complete(data);
      }
      UpdateAligned(toDigest);
    }

    /** The digest of the whole message, however it was cut up; refused exactly when it has 2^64 bits or more. */
    method TryFinish() returns (r: Result<seq<byte>>)
      requires Valid()
      modifies this, block, pending
      ensures r == match Hash(block.algorithm, old(Message())) case Some(d) => Ok(d) case None => Err
    {
      var finished := block.TryFinish(pending, numPending);
      r := if finished.Finished? then Ok(finished.digest) else Err;
    }
  }

  /** Hashing a message in one piece or in several comes to the same. */
  method DigestInPieces<S(!new)>(algorithm: Algorithm<S>, pieces: seq<seq<byte>>) returns (r: Result<seq<byte>>)
    requires algorithm.Valid()
    ensures r == match Hash(algorithm, Concat(pieces)) case Some(d) => Ok(d) case None => Err
  {
    var ctx := new Context(algorithm);
    for i := 0 to |pieces|
      invariant ctx.Valid() && fresh(ctx) && fresh(ctx.block) && fresh(ctx.pending)
      invariant ctx.block.algorithm == algorithm && ctx.Message() == Concat(pieces[..i])
    {
      ConcatStep(pieces, i);
      ctx.Update(pieces[i]);
    }
    assert pieces[..|pieces|] == pieces;
    r := ctx.TryFinish();
  }

  function Concat(pieces: seq<seq<byte>>): seq<byte> {
    if pieces == [] then [] else Concat(pieces[..|pieces| - 1]) + pieces[|pieces| - 1]
  }

  lemma ConcatStep(pieces: seq<seq<byte>>, i: nat)
    requires i < |pieces|
    ensures Concat(pieces[..i + 1]) == Concat(pieces[..i]) + pieces[i]
  {
    assert pieces[..i + 1][..i] == pieces[..i];
  }
}
