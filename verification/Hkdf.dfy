/**
 Key expansion: the output is cut from a chain of keyed hashes, each over the one before it.
 */
module Hkdf {
  import opened Wrappers
  import opened Basics
  import opened Digest
  import opened DigestContext
  import opened Hmac

  const MAX_ROUNDS: nat := 255

  // ---- the specification --------------------------------------------------------------------------

  /** One round: from what the round before it gave and the number of the round. */
  type Round = (seq<byte>, nat) -> Option<seq<byte>>

  ghost function RoundOf<S(!new)>(alg: Algorithm<S>, prk: seq<byte>, info: seq<byte>): Round
    requires alg.Valid()
  {
    (previous: seq<byte>, i: nat) => Mac(alg, prk, previous + info + [Byte(i)])
  }

  /** Section 2.3 of RFC 5869: T(0) is empty, T(i) is the code of T(i-1), the info and the byte i. */
  ghost function T(round: Round, i: nat): Option<seq<byte>> {
    if i == 0 then Some([]) else
      match T(round, i - 1)
      case None => None
      case Some(previous) => round(previous, i)
  }

  /** T(1) up to T(n), one behind the other. */
  ghost function Stream(round: Round, n: nat): Option<seq<byte>> {
    if n == 0 then Some([]) else
      var before, t := Stream(round, n - 1), T(round, n);
      if before.Some? && t.Some? then Some(before.value + t.value) else None
  }

  /** These are the first bytes of the stream, within the rounds that one byte can count. */
  ghost predicate IsOkm(round: Round, okm: seq<byte>) {
    exists n :: 0 <= n <= MAX_ROUNDS && Starts(round, n, okm)
  }

  ghost predicate Starts(round: Round, n: nat, okm: seq<byte>) {
    var stream := Stream(round, n);
    stream.Some? && okm <= stream.value
  }

  predicate TooMuchToHash<S(!new)>(alg: Algorithm<S>, lastLen: nat, infoLen: nat) {
    8 * (alg.blockLen + lastLen + infoLen + 1) > MAX_U64
  }

  /** Every round but the first also hashes what the one before it gave. */
  predicate SomeRoundTooLong<S(!new)>(alg: Algorithm<S>, infoLen: nat, len: nat) {
    TooMuchToHash(alg, if len > alg.outputLen then alg.outputLen else 0, infoLen)
  }

  // ---- what the specification amounts to ------------------------------------------------------------

  /** A keyed hash fails exactly when the inner one has too much to hash: the outer one never does. */
  lemma MacFailsIff<S(!new)>(alg: Algorithm<S>, block: seq<byte>, message: seq<byte>)
    requires alg.Valid() && |block| == alg.blockLen
    ensures Mac(alg, block, message).None? <==> 8 * (alg.blockLen + |message|) > MAX_U64
    ensures Mac(alg, block, message).Some? ==> |Mac(alg, block, message).value| == alg.outputLen
  {
  }

  lemma {:induction false} StreamGrows(round: Round, m: nat, n: nat)
    requires m <= n && Stream(round, n).Some?
    ensures Stream(round, m).Some? && Stream(round, m).value <= Stream(round, n).value
    decreases n - m
  {
    if m < n {
      StreamGrows(round, m, n - 1);
    }
  }

  /** Key material of one length is unique, and a shorter request yields the start of a longer one. */
  lemma OkmUnique(round: Round, short: seq<byte>, long: seq<byte>)
    requires |short| <= |long|
    requires IsOkm(round, short) && IsOkm(round, long)
    ensures short <= long
  {
    var m :| 0 <= m <= MAX_ROUNDS && Starts(round, m, short);
    var n :| 0 <= n <= MAX_ROUNDS && Starts(round, n, long);
    if m <= n {
      StreamGrows(round, m, n);
    } else {
      StreamGrows(round, n, m);
    }
  }

  // ---- expansion ------------------------------------------------------------------------------------------

  function Bytes(rounds: nat, outputLen: nat): nat {
    if rounds == 0 then 0 else Bytes(rounds - 1, outputLen) + outputLen
  }

  lemma {:induction false} BytesIsProduct(rounds: nat, outputLen: nat)
    ensures Bytes(rounds, outputLen) == rounds * outputLen
  {
    if rounds > 0 {
      BytesIsProduct(rounds - 1, outputLen);
    }
  }

  /** After `n` rounds `t` is the last link of the chain and `done` the stream so far. */
  ghost predicate After(round: Round, outputLen: nat, n: nat, t: seq<byte>, done: seq<byte>)
  {
    T(round, n) == Some(t) && Stream(round, n) == Some(done) && |done| == Bytes(n, outputLen)
  }

  /** As long as bytes are missing the counter has not reached its last value. */
  lemma RoundsSuffice(round: Round, outputLen: nat, n: nat, t: seq<byte>, done: seq<byte>, len: nat)
    requires n <= MAX_ROUNDS && len <= MAX_ROUNDS * outputLen && After(round, outputLen, n, t, done) && |done| < len
    ensures n < MAX_ROUNDS
  {
    BytesIsProduct(n, outputLen);
  }

  lemma NextRound(round: Round, outputLen: nat, n: nat, last: seq<byte>, done: seq<byte>, t: seq<byte>)
    requires n > 0 && After(round, outputLen, n - 1, last, done)
    requires round(last, n) == Some(t) && |t| == outputLen
    ensures After(round, outputLen, n, t, done + t)
  {
  }

  lemma AfterIsOkm(round: Round, outputLen: nat, n: nat, t: seq<byte>, done: seq<byte>, okm: seq<byte>)
    requires n <= MAX_ROUNDS && After(round, outputLen, n, t, done) && okm <= done
    ensures IsOkm(round, okm)
  {
    assert Starts(round, n, okm);
  }

  datatype Expansion = Filled | Refused | Panicked

  /** One round's message: what the context holds already, the info, and the counter. */
  method FeedRound<S(!new)>(ctx: Signing<S>, info: seq<seq<byte>>, n: nat)
    requires ctx.Valid()
    modifies ctx, ctx.inner, ctx.inner.block, ctx.inner.pending
    ensures ctx.Valid() && ctx.message == old(ctx.message) + Concat(info) + [Byte(n)]
  {
    assert ctx.message + Concat(info[..0]) == ctx.message;
    for i := 0 to |info|
      invariant ctx.Valid() && ctx.message == old(ctx.message) + Concat(info[..i])
    {
      ConcatStep(info, i);
      ctx.Update(info[i]);
      Associative(old(ctx.message), Concat(info[..i]), info[i]);
    }
    assert info[..|info|] == info;
    ctx.Update([Byte(n)]);
  }

  method SignRound<S(!new)>(ctx: Signing<S>, info: seq<seq<byte>>, n: nat) returns (t: Result<seq<byte>>)
    requires ctx.Valid()
    modifies ctx, ctx.inner, ctx.inner.block, ctx.inner.pending, ctx.outer
    ensures t.Err? <==> TooMuchToHash(ctx.outer.algorithm, |old(ctx.message)|, |Concat(info)|)
    ensures t.Ok? ==> RoundOf(ctx.outer.algorithm, ctx.block, Concat(info))(old(ctx.message), n) == Some(t.value)
    ensures t.Ok? ==> |t.value| == ctx.outer.algorithm.outputLen
  {
    FeedRound(ctx, info, n);
    MacFailsIff(ctx.outer.algorithm, ctx.block, ctx.message);
    t := ctx.TrySign();
  }

  /** A context for the next round, which starts with what the round before it gave. */
  method NextContext<S(!new)>(prk: Key<S>, t: seq<byte>) returns (ctx: Signing<S>)
    requires prk.Valid()
    ensures ctx.Valid() && fresh(ctx) && fresh(ctx.inner) && fresh(ctx.inner.block) && fresh(ctx.inner.pending) && fresh(ctx.outer)
    ensures ctx.message == t && ctx.block == prk.block && ctx.outer.algorithm == prk.inner.algorithm
  {
    ctx := new Signing.WithKey(prk);
    ctx.Update(t);
  }

  /** Copies as much of the chunk as there is room for. */
  method PutChunk(out: array<byte>, at: nat, chunk: seq<byte>) returns (end: nat)
    requires at <= out.Length
    modifies out
    ensures end == Min(at + |chunk|, out.Length)
    ensures out[..end] <= old(out[..at]) + chunk
    ensures end < out.Length ==> out[..end] == old(out[..at]) + chunk
  {
    end := Min(at + |chunk|, out.Length);
    for i := at to end
      invariant forall j :: 0 <= j < at ==> out[j] == old(out[j])
      invariant forall j :: at <= j < i ==> out[j] == chunk[j - at]
    {
      out[i] := chunk[i - at];
    }
    assert out[..end] == old(out[..at]) + chunk[..end - at];
  }

  /** One turn of the loop: the next link of the chain, put behind the ones before it. */
  method Turn<S(!new)>(prk: Key<S>, last: seq<byte>, info: seq<seq<byte>>, n: nat, out: array<byte>, at: nat)
    returns (t: Result<seq<byte>>, end: nat)
    requires prk.Valid() && 0 < n <= MAX_ROUNDS && at <= out.Length
    requires After(RoundOf(prk.inner.algorithm, prk.block, Concat(info)), prk.inner.algorithm.outputLen, n - 1, last, out[..at])
    modifies out
    ensures t.Err? <==> TooMuchToHash(prk.inner.algorithm, |last|, |Concat(info)|)
    ensures t.Ok? ==> |t.value| == prk.inner.algorithm.outputLen && end == Min(at + |t.value|, out.Length)
    ensures t.Ok? && end < out.Length ==>
      After(RoundOf(prk.inner.algorithm, prk.block, Concat(info)), prk.inner.algorithm.outputLen, n, t.value, out[..end])
    ensures t.Ok? && end == out.Length ==> IsOkm(RoundOf(prk.inner.algorithm, prk.block, Concat(info)), out[..])
  {
    end := at;
    ghost var round, outputLen := RoundOf(prk.inner.algorithm, prk.block, Concat(info)), prk.inner.algorithm.outputLen;
    ghost var done := out[..at];
    var ctx := NextContext(prk, last);
    t := SignRound(ctx, info, n);
    if t.Ok? {
      NextRound(round, outputLen, n, last, done, t.value);
      end := PutChunk(out, at, t.value);
      AfterIsOkm(round, outputLen, n, t.value, done + t.value, out[..end]);
      assert out[..out.Length] == out[..];
    }
  }

  /** Before round `n`: what was filled, what the round before gave, and that a later round has not too much to hash. */
  ghost predicate Going<S(!new)>(alg: Algorithm<S>, round: Round, infoLen: nat, n: nat, last: seq<byte>, filled: seq<byte>, len: nat)
  {
    && 1 <= n <= MAX_ROUNDS && After(round, alg.outputLen, n - 1, last, filled)
    && (if n == 1 then |filled| == |last| == 0
        else |last| == alg.outputLen <= |filled| < len && !TooMuchToHash(alg, 0, infoLen))
  }

  /** The same as a property that says nothing of how it comes about, for the loop to carry along. */
  type Progress = (nat, seq<byte>, seq<byte>) -> bool

  ghost predicate Tracks<S(!new)>(going: Progress, alg: Algorithm<S>, round: Round, infoLen: nat, len: nat) {
    forall n, last, filled {:trigger Going(alg, round, infoLen, n, last, filled, len)} ::
      going(n, last, filled) <==> Going(alg, round, infoLen, n, last, filled, len)
  }

  lemma StartsGoing<S(!new)>(alg: Algorithm<S>, round: Round, infoLen: nat, filled: seq<byte>, len: nat) returns (going: Progress)
    requires filled == []
    ensures Tracks(going, alg, round, infoLen, len) && going(1, [], filled)
  {
    going := (n: nat, last: seq<byte>, filled: seq<byte>) => Going(alg, round, infoLen, n, last, filled, len);
    assert Going(alg, round, infoLen, 1, [], filled, len);
  }

  ghost predicate Ended<S(!new)>(alg: Algorithm<S>, round: Round, infoLen: nat, r: Expansion, out: seq<byte>) {
    !r.Refused? && (r.Panicked? <==> SomeRoundTooLong(alg, infoLen, |out|)) && (r.Filled? ==> IsOkm(round, out))
  }

  /**
   Goes on to the next round, or ends. The counter never leaves its byte: after the last of the 255 rounds nothing
   is left to fill.
   */
  method Advance<S(!new)>(prk: Key<S>, last: seq<byte>, info: seq<seq<byte>>, n: nat, out: array<byte>, at: nat, ghost going: Progress)
    returns (r: Option<Expansion>, t: seq<byte>, end: nat)
    requires prk.Valid() && out.Length <= MAX_ROUNDS * prk.inner.algorithm.outputLen && at <= out.Length
    requires Tracks(going, prk.inner.algorithm, RoundOf(prk.inner.algorithm, prk.block, Concat(info)), |Concat(info)|, out.Length)
    requires going(n, last, out[..at])
    modifies out
    ensures r.None? ==> end <= out.Length && n < MAX_ROUNDS && going(n + 1, t, out[..end])
    ensures r.Some? ==> Ended(prk.inner.algorithm, RoundOf(prk.inner.algorithm, prk.block, Concat(info)), |Concat(info)|, r.value, out[..])
  {
    ghost var alg, round, infoLen := prk.inner.algorithm, RoundOf(prk.inner.algorithm, prk.block, Concat(info)), |Concat(info)|;
    assert Going(alg, round, infoLen, n, last, out[..at], out.Length);
    var signed, until := Turn(prk, last, info, n, out, at);
    if signed.Err? {
      return Some(Panicked), [], at;
    }
    t, end := signed.value, until;
    if end == out.Length {
      return Some(Filled), t, end;
    }
    RoundsSuffice(round, alg.outputLen, n, t, out[..end], out.Length);
    assert Going(alg, round, infoLen, n + 1, t, out[..end], out.Length);
    r := None;
  }

  method FillRounds<S(!new)>(prk: Key<S>, info: seq<seq<byte>>, out: array<byte>) returns (r: Expansion)
    requires prk.Valid() && out.Length <= MAX_ROUNDS * prk.inner.algorithm.outputLen
    modifies out
    ensures Ended(prk.inner.algorithm, RoundOf(prk.inner.algorithm, prk.block, Concat(info)), |Concat(info)|, r, out[..])
  {
    var n, at, last := 1, 0, [];
    ghost var going := StartsGoing(prk.inner.algorithm, RoundOf(prk.inner.algorithm, prk.block, Concat(info)), |Concat(info)|,
                                   out[..at], out.Length);
    while true
      invariant 1 <= n <= MAX_ROUNDS && 0 <= at <= out.Length && going(n, last, out[..at])
      decreases MAX_ROUNDS - n
    {
      var ended, t, end := Advance(prk, last, info, n, out, at, going);
      if ended.Some? {
        return ended.value;
      }
      at, last, n := end, t, n + 1;
    }
  }

  method FillOkm<S(!new)>(prk: Key<S>, info: seq<seq<byte>>, out: array<byte>, len: nat) returns (r: Expansion)
    requires prk.Valid() && len <= MAX_ROUNDS * prk.inner.algorithm.outputLen
    modifies out
    ensures r.Refused? <==> out.Length != len
    ensures r.Panicked? <==> out.Length == len && SomeRoundTooLong(prk.inner.algorithm, |Concat(info)|, len)
    ensures r.Filled? ==> IsOkm(RoundOf(prk.inner.algorithm, prk.block, Concat(info)), out[..])
  {
    if out.Length != len {
      return Refused;
    }
    r := FillRounds(prk, info, out);
  }

  /** Expansion refuses a length exactly when it is more than one byte of rounds can yield. */
  method Expand<S(!new)>(prk: Key<S>, info: seq<seq<byte>>, out: array<byte>, len: nat) returns (r: Expansion)
    requires prk.Valid()
    modifies out
    ensures r.Refused? <==> len > MAX_ROUNDS * prk.inner.algorithm.outputLen || out.Length != len
    ensures r.Panicked? <==> !r.Refused? && SomeRoundTooLong(prk.inner.algorithm, |Concat(info)|, len)
    ensures r.Filled? ==> IsOkm(RoundOf(prk.inner.algorithm, prk.block, Concat(info)), out[..])
  {
    if len > MAX_ROUNDS * prk.inner.algorithm.outputLen {
      return Refused;
    }
    r := FillOkm(prk, info, out, len);
  }
}
