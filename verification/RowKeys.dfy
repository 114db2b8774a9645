/**
 The byte key of a row: every value is written as a tag and a self-delimiting payload, so that a
 key can be read back and equal keys mean equal rows.
 */
module RowKeys {
  import opened Wrappers
  import opened Basics

  type byte = x: int | 0 <= x < 256

  const TWO_TO_THE_63: int := 0x8000_0000_0000_0000
  const TWO_TO_THE_64: int := 0x1_0000_0000_0000_0000

  /** A stored value; text is its UTF-8 bytes. */
  datatype Value = Null | Integer(n: int) | Text(utf8: seq<byte>) | Blob(bytes: seq<byte>)

  type Row = seq<Value>

  /** What a value can be: a 64-bit signed integer, or bytes whose length fits 64 bits. */
  predicate Storable(v: Value) {
    match v
    case Null => true
    case Integer(n) => -TWO_TO_THE_63 <= n < TWO_TO_THE_63
    case Text(b) => |b| < TWO_TO_THE_64
    case Blob(b) => |b| < TWO_TO_THE_64
  }

  predicate StorableRow(row: Row) {
    forall i :: 0 <= i < |row| ==> Storable(row[i])
  }

  // ---- little-endian words --------------------------------------------------------

  function Pow256(k: nat): nat {
    if k == 0 then 1 else 256 * Pow256(k - 1)
  }

  function LittleEndian(n: nat, k: nat): (bytes: seq<byte>)
    ensures |bytes| == k
  {
    if k == 0 then [] else [n % 256] + LittleEndian(n / 256, k - 1)
  }

  function FromLittleEndian(bytes: seq<byte>): nat {
    if bytes == [] then 0 else bytes[0] + 256 * FromLittleEndian(bytes[1..])
  }

  lemma {:induction false} LittleEndianRoundTrip(n: nat, k: nat)
    requires n < Pow256(k)
    ensures FromLittleEndian(LittleEndian(n, k)) == n
  {
    if k > 0 {
      LittleEndianRoundTrip(n / 256, k - 1);
      assert LittleEndian(n, k)[1..] == LittleEndian(n / 256, k - 1);
    }
  }

  const WORD_BYTES: nat := 8

  function Word(n: nat): (bytes: seq<byte>)
    ensures |bytes| == 8
  {
    LittleEndian(n, WORD_BYTES)
  }

  lemma WordRoundTrip(n: nat)
    requires n < TWO_TO_THE_64
    ensures FromLittleEndian(Word(n)) == n
  {
    assert Pow256(2) == 0x1_0000 && Pow256(4) == 0x1_0000_0000 by {
      assert Pow256(1) == 256;
      assert Pow256(3) == 256 * Pow256(2);
    }
    assert Pow256(5) == 256 * Pow256(4);
    assert Pow256(6) == 256 * Pow256(5);
    assert Pow256(7) == 256 * Pow256(6);
    assert Pow256(8) == TWO_TO_THE_64;
    LittleEndianRoundTrip(n, 8);
  }

  /** Two's complement. */
  function Unsigned(n: int): nat
    requires -TWO_TO_THE_63 <= n < TWO_TO_THE_63
  {
    if n < 0 then n + TWO_TO_THE_64 else n
  }

  function Signed(n: nat): int {
    if n >= TWO_TO_THE_63 then n - TWO_TO_THE_64 else n
  }

  // ---- the key ----------------------------------------------------------------------

  function ValueKey(v: Value): (key: seq<byte>)
    requires Storable(v)
    ensures key != []
  {
    match v
    case Null => [0]
    case Integer(n) => [1] + Word(Unsigned(n))
    case Text(b) => [3] + Word(|b|) + b
    case Blob(b) => [4] + Word(|b|) + b
  }

  function Key(row: Row): seq<byte>
    requires StorableRow(row)
  {
    if row == [] then [] else ValueKey(row[0]) + Key(row[1..])
  }

  /** Reads one value off the front of a key. */
  function ParseValue(key: seq<byte>): Option<(Value, seq<byte>)> {
    if key == [] then None
    else if key[0] == 0 then Some((Null, key[1..]))
    else if |key| < 9 then None
    else
      var n, rest := FromLittleEndian(key[1..9]), key[9..];
      if key[0] == 1 then Some((Integer(Signed(n)), rest))
      else if |rest| < n then None
      else if key[0] == 3 then Some((Text(rest[..n]), rest[n..]))
      else if key[0] == 4 then Some((Blob(rest[..n]), rest[n..]))
      else None
  }

  function Parse(key: seq<byte>): Option<Row>
    decreases |key|
  {
    if key == [] then Some([])
    else
      match ParseValue(key)
      case None => None
      case Some((v, rest)) =>
        if |rest| >= |key| then None
        else match Parse(rest)
          case None => None
          case Some(row) => Some([v] + row)
  }

  lemma Framed(tag: byte, word: seq<byte>, body: seq<byte>)
    requires |word| == 8
    ensures var key := [tag] + word + body; |key| >= 9 && key[0] == tag && key[1..9] == word && key[9..] == body
  {
  }

  lemma ParsesValue(v: Value, rest: seq<byte>)
    requires Storable(v)
    ensures ParseValue(ValueKey(v) + rest) == Some((v, rest))
  {
    var key := ValueKey(v) + rest;
    match v
    case Null =>
      assert key[1..] == rest;
    case Integer(n) =>
      WordRoundTrip(Unsigned(n));
      Framed(1, Word(Unsigned(n)), rest);
    case Text(b) =>
      ParsesBytes(3, b, rest);
    case Blob(b) =>
      ParsesBytes(4, b, rest);
  }

  lemma ParsesBytes(tag: byte, b: seq<byte>, rest: seq<byte>)
    requires |b| < TWO_TO_THE_64 && (tag == 3 || tag == 4)
    ensures ParseValue([tag] + Word(|b|) + b + rest) == Some((if tag == 3 then Text(b) else Blob(b), rest))
  {
    WordRoundTrip(|b|);
    Framed(tag, Word(|b|), b + rest);
    Associative([tag] + Word(|b|), b, rest);
    assert (b + rest)[..|b|] == b && (b + rest)[|b|..] == rest;
  }

  /** A key can be read back: no two rows, of whatever width, share one. */
  lemma {:induction false} KeyRoundTrip(row: Row)
    requires StorableRow(row)
    ensures Parse(Key(row)) == Some(row)
  {
    if row != [] {
      var first, rest := ValueKey(row[0]), Key(row[1..]);
      KeyRoundTrip(row[1..]);
      ParsesValue(row[0], rest);
      assert |first + rest| > |rest|;
      assert row == [row[0]] + row[1..];
    }
  }

  lemma KeyInjective(a: Row, b: Row)
    requires StorableRow(a) && StorableRow(b) && Key(a) == Key(b)
    ensures a == b
  {
    KeyRoundTrip(a);
    KeyRoundTrip(b);
  }

  lemma {:induction false} KeyAppend(a: Row, b: Row)
    requires StorableRow(a) && StorableRow(b)
    ensures StorableRow(a + b) && Key(a + b) == Key(a) + Key(b)
  {
    if a == [] {
      assert a + b == b;
    } else {
      KeyAppend(a[1..], b);
      KeyCons(a, b);
      Associative(ValueKey(a[0]), Key(a[1..]), Key(b));
    }
  }

  lemma KeyCons(a: Row, b: Row)
    requires a != [] && StorableRow(a) && StorableRow(b) && StorableRow(a[1..] + b)
    ensures StorableRow(a + b) && Key(a + b) == ValueKey(a[0]) + Key(a[1..] + b)
  {
    assert (a + b)[1..] == a[1..] + b && (a + b)[0] == a[0];
  }

  method RowKey(row: Row) returns (key: seq<byte>)
    requires StorableRow(row)
    ensures key == Key(row) && Parse(key) == Some(row)
  {
    key := [];
    for i := 0 to |row|
      invariant StorableRow(row[..i]) && key == Key(row[..i])
    {
      KeyAppend(row[..i], [row[i]]);
      assert row[..i + 1] == row[..i] + [row[i]];
      assert Key([row[i]]) == ValueKey(row[i]);
      match row[i]
      case Null => key := key + [0];
      case Integer(n) => key := key + ([1] + Word(Unsigned(n)));
      case Text(b) => key := key + ([3] + Word(|b|) + b);
      case Blob(b) => key := key + ([4] + Word(|b|) + b);
    }
    assert row[..|row|] == row;
    KeyRoundTrip(row);
  }

  // ---- the text that a fork's fingerprint is taken of ----------------------------------

  function Flatten(rows: seq<Row>): Row {
    if rows == [] then [] else rows[0] + Flatten(rows[1..])
  }

  predicate Columns(rows: seq<Row>, n: nat) {
    forall i :: 0 <= i < |rows| ==> |rows[i]| == n && StorableRow(rows[i])
  }

  lemma {:induction false} FlattenStorable(rows: seq<Row>, n: nat)
    requires Columns(rows, n)
    ensures StorableRow(Flatten(rows)) && |Flatten(rows)| == n * |rows|
  {
    if rows != [] {
      FlattenStorable(rows[1..], n);
      assert n * |rows| == n + n * |rows[1..]|;
    }
  }

  lemma {:induction false} FlattenInjective(a: seq<Row>, b: seq<Row>, n: nat)
    requires n > 0 && Columns(a, n) && Columns(b, n) && Flatten(a) == Flatten(b)
    ensures a == b
  {
    FlattenStorable(a, n);
    FlattenStorable(b, n);
    if a == [] || b == [] {
      assert |a| == 0 <==> |Flatten(a)| == 0;
      assert |b| == 0 <==> |Flatten(b)| == 0;
    } else {
      assert a[0] == Flatten(a)[..n] && b[0] == Flatten(b)[..n];
      assert Flatten(a[1..]) == Flatten(a)[n..] && Flatten(b[1..]) == Flatten(b)[n..];
      FlattenInjective(a[1..], b[1..], n);
      assert a == [a[0]] + a[1..] && b == [b[0]] + b[1..];
    }
  }

  /** The sequence row's key followed by the keys of the events. */
  method ForkText(sequence: Row, events: seq<Row>) returns (key: seq<byte>)
    requires StorableRow(sequence) && Columns(events, 5)
    ensures StorableRow(sequence + Flatten(events)) && key == Key(sequence + Flatten(events))
  {
    key := RowKey(sequence);
    assert sequence + Flatten(events[..0]) == sequence;
    for i := 0 to |events|
      invariant StorableRow(sequence + Flatten(events[..i])) && key == Key(sequence + Flatten(events[..i]))
    {
      var one := RowKey(events[i]);
      ForkTextStep(sequence, events, i);
      key := key + one;
    }
    assert events[..|events|] == events;
  }

  lemma ForkTextStep(sequence: Row, events: seq<Row>, i: nat)
    requires i < |events| && StorableRow(sequence + Flatten(events[..i])) && StorableRow(events[i])
    ensures StorableRow(sequence + Flatten(events[..i + 1]))
    ensures Key(sequence + Flatten(events[..i + 1])) == Key(sequence + Flatten(events[..i])) + Key(events[i])
  {
    KeyAppend(sequence + Flatten(events[..i]), events[i]);
    FlattenSnoc(events, i);
    Associative(sequence, Flatten(events[..i]), events[i]);
  }

  lemma {:induction false} FlattenSnoc(rows: seq<Row>, i: nat)
    requires i < |rows|
    ensures Flatten(rows[..i + 1]) == Flatten(rows[..i]) + rows[i]
  {
    if i > 0 {
      FlattenSnoc(rows[1..], i - 1);
      assert rows[..i + 1][1..] == rows[1..][..i] && rows[..i][1..] == rows[1..][..i - 1];
    } else {
      assert rows[..1][1..] == [];
    }
  }

  /** Different histories never yield the same text: only the hash itself can make two forks collide. */
  lemma ForkTextInjective(s1: Row, e1: seq<Row>, s2: Row, e2: seq<Row>)
    requires |s1| == |s2| == 3 && StorableRow(s1) && StorableRow(s2) && Columns(e1, 5) && Columns(e2, 5)
    requires StorableRow(s1 + Flatten(e1)) && StorableRow(s2 + Flatten(e2))
    requires Key(s1 + Flatten(e1)) == Key(s2 + Flatten(e2))
    ensures s1 == s2 && e1 == e2
  {
    KeyInjective(s1 + Flatten(e1), s2 + Flatten(e2));
    assert s1 == (s1 + Flatten(e1))[..3] && s2 == (s2 + Flatten(e2))[..3];
    assert Flatten(e1) == (s1 + Flatten(e1))[3..] && Flatten(e2) == (s2 + Flatten(e2))[3..];
    FlattenInjective(e1, e2, 5);
  }
}
