/**
 The fingerprint under which a conflicting history is archived: a 64-bit hash of the text of the whole
 history. Two different histories share a fingerprint only if that hash collides on their texts.
 */
module Forks {
  import opened Wrappers
  import opened EventGraph
  import opened EventMerge
  import opened RowKeys

  // ---- the rows of a history ------------------------------------------------------------

  /** The bytes of a text. */
  type Encoding = string -> seq<byte>

  ghost predicate Injective(utf8: Encoding) {
    forall a, b :: utf8(a) == utf8(b) ==> a == b
  }

  function OwnerValue(utf8: Encoding, owner: Option<string>): Value {
    match owner
    case None => Null
    case Some(o) => Text(utf8(o))
  }

  function SequenceRecord(utf8: Encoding, r: SequenceRow): (row: RowKeys.Row)
    ensures |row| == 3
  {
    [Text(utf8(r.aggregate)), Integer(r.highWater), OwnerValue(utf8, r.owner)]
  }

  function EventRecord(utf8: Encoding, e: EventRow): (row: RowKeys.Row)
    ensures |row| == 5
  {
    [Text(utf8(e.id)), Text(utf8(e.aggregate)), Integer(e.position), Text(utf8(e.kind)), Text(utf8(e.data))]
  }

  function EventRecords(utf8: Encoding, events: seq<EventRow>): (rows: seq<RowKeys.Row>)
    ensures |rows| == |events|
  {
    seq(|events|, i requires 0 <= i < |events| => EventRecord(utf8, events[i]))
  }

  /** What any history read from a database is: its numbers and lengths fit 64 bits. */
  predicate Recordable(utf8: Encoding, h: History) {
    StorableRow(SequenceRecord(utf8, h.sequence)) && Columns(EventRecords(utf8, h.events), 5)
  }

  function Record(utf8: Encoding, h: History): (row: RowKeys.Row)
    requires Recordable(utf8, h)
    ensures StorableRow(row)
  {
    FlattenStorable(EventRecords(utf8, h.events), 5);
    SequenceRecord(utf8, h.sequence) + Flatten(EventRecords(utf8, h.events))
  }

  function Bytes(utf8: Encoding, h: History): seq<byte>
    requires Recordable(utf8, h)
  {
    Key(Record(utf8, h))
  }

  lemma SequenceRecordInjective(utf8: Encoding, a: SequenceRow, b: SequenceRow)
    requires Injective(utf8) && SequenceRecord(utf8, a) == SequenceRecord(utf8, b)
    ensures a == b
  {
    var x, y := SequenceRecord(utf8, a), SequenceRecord(utf8, b);
    assert x[0] == y[0] && x[1] == y[1] && x[2] == y[2];
  }

  lemma EventRecordInjective(utf8: Encoding, a: EventRow, b: EventRow)
    requires Injective(utf8) && EventRecord(utf8, a) == EventRecord(utf8, b)
    ensures a == b
  {
    var x, y := EventRecord(utf8, a), EventRecord(utf8, b);
    assert x[0] == y[0] && x[1] == y[1] && x[2] == y[2] && x[3] == y[3] && x[4] == y[4];
  }

  /** Different histories have different texts. */
  lemma BytesInjective(utf8: Encoding, a: History, b: History)
    requires Injective(utf8) && Recordable(utf8, a) && Recordable(utf8, b) && Bytes(utf8, a) == Bytes(utf8, b)
    ensures a == b
  {
    var x, y := EventRecords(utf8, a.events), EventRecords(utf8, b.events);
    ForkTextInjective(SequenceRecord(utf8, a.sequence), x, SequenceRecord(utf8, b.sequence), y);
    SequenceRecordInjective(utf8, a.sequence, b.sequence);
    forall i | 0 <= i < |x|
      ensures a.events[i] == b.events[i]
    {
      assert x[i] == y[i];
      EventRecordInjective(utf8, a.events[i], b.events[i]);
    }
    assert a.events == b.events;
  }

  // ---- the hash ------------------------------------------------------------------------------

  const FNV_OFFSET: nat := 0xcbf29ce484222325
  const FNV_PRIME: nat := 0x100000001b3

  function XorByte(a: byte, b: byte): byte {
    ((a as bv8) ^ (b as bv8)) as int
  }

  /** The exclusive or changes the lowest byte only; the product wraps around at 64 bits. */
  function FnvStep(hash: nat, b: byte): (next: nat)
    ensures next < TWO_TO_THE_64
  {
    (hash - hash % 256 + XorByte(hash % 256, b)) * FNV_PRIME % TWO_TO_THE_64
  }

  function Fnv1a(bytes: seq<byte>): (hash: nat)
    ensures hash < TWO_TO_THE_64
  {
    if bytes == [] then FNV_OFFSET else FnvStep(Fnv1a(bytes[..|bytes| - 1]), bytes[|bytes| - 1])
  }

  function HexDigit(n: nat): (c: char)
    requires n < 16
    ensures c == if n < 10 then '0' + n as char else 'a' + (n - 10) as char
  {
    "0123456789abcdef"[n]
  }

  function Hex(n: nat, digits: nat): (text: string)
    ensures |text| == digits
  {
    if digits == 0 then "" else Hex(n / 16, digits - 1) + [HexDigit(n % 16)]
  }

  function Pow16(k: nat): nat {
    if k == 0 then 1 else 16 * Pow16(k - 1)
  }

  lemma {:induction false} HexInjective(a: nat, b: nat, digits: nat)
    requires a < Pow16(digits) && b < Pow16(digits) && Hex(a, digits) == Hex(b, digits)
    ensures a == b
  {
    if digits > 0 {
      var x, y := Hex(a, digits), Hex(b, digits);
      assert x[digits - 1] == HexDigit(a % 16) && y[digits - 1] == HexDigit(b % 16);
      assert x[..digits - 1] == Hex(a / 16, digits - 1) && y[..digits - 1] == Hex(b / 16, digits - 1);
      HexInjective(a / 16, b / 16, digits - 1);
    }
  }

  const HEX_DIGITS: nat := 16

  lemma SixteenDigits()
    ensures Pow16(HEX_DIGITS) == TWO_TO_THE_64
  {
    assert Pow16(4) == 0x1_0000 by {
      assert Pow16(2) == 16 * Pow16(1);
    }
    assert Pow16(6) == 0x100_0000 by {
      assert Pow16(5) == 16 * Pow16(4);
    }
    assert Pow16(8) == 0x1_0000_0000 by {
      assert Pow16(7) == 16 * Pow16(6);
    }
    assert Pow16(10) == 0x100_0000_0000 by {
      assert Pow16(9) == 16 * Pow16(8);
    }
    assert Pow16(12) == 0x1_0000_0000_0000 by {
      assert Pow16(11) == 16 * Pow16(10);
    }
    assert Pow16(14) == 0x100_0000_0000_0000 by {
      assert Pow16(13) == 16 * Pow16(12);
    }
    assert Pow16(15) == 16 * Pow16(14);
    assert Pow16(16) == 16 * Pow16(15);
  }

  function ForkId(utf8: Encoding): History -> string {
    h => if Recordable(utf8, h) then "v1-" + Hex(Fnv1a(Bytes(utf8, h)), HEX_DIGITS) else ""
  }

  /** Two different texts with the same hash. */
  predicate HashCollision(a: seq<byte>, b: seq<byte>) {
    a != b && Fnv1a(a) == Fnv1a(b)
  }

  /** The fingerprints of two different histories are the same exactly if the hash collides on their texts. */
  lemma SameForkIdIff(utf8: Encoding, a: History, b: History)
    requires Injective(utf8) && Recordable(utf8, a) && Recordable(utf8, b) && a != b
    ensures ForkId(utf8)(a) == ForkId(utf8)(b) <==> HashCollision(Bytes(utf8, a), Bytes(utf8, b))
  {
    var x, y := Fnv1a(Bytes(utf8, a)), Fnv1a(Bytes(utf8, b));
    if Bytes(utf8, a) == Bytes(utf8, b) {
      BytesInjective(utf8, a, b);
    }
    if ForkId(utf8)(a) == ForkId(utf8)(b) {
      assert ("v1-" + Hex(x, HEX_DIGITS))[3..] == Hex(x, HEX_DIGITS) && ("v1-" + Hex(y, HEX_DIGITS))[3..] == Hex(y, HEX_DIGITS);
      SixteenDigits();
      HexInjective(x, y, HEX_DIGITS);
    }
  }

  // ---- the archive -------------------------------------------------------------------------------

  /** Every archived history is one that can be read back, under its own fingerprint. */
  ghost predicate Filed(utf8: Encoding, forks: map<string, History>) {
    forall id :: id in forks ==> Recordable(utf8, forks[id]) && ForkId(utf8)(forks[id]) == id
  }

  /** The history is archived, or is to be. */
  ghost predicate Concerned(forks: map<string, History>, s: Histories, c: set<string>, h: History)
    requires c <= s.Keys
  {
    (exists id :: id in forks && forks[id] == h) || (exists b :: b in c && s[b] == h)
  }

  /** The hash collides on the texts of a history to be archived and another that is concerned. */
  ghost predicate Clashes(utf8: Encoding, forks: map<string, History>, s: Histories, c: set<string>, a: string, h: History)
    requires c <= s.Keys && a in c && Recordable(utf8, s[a])
  {
    Concerned(forks, s, c, h) && Recordable(utf8, h) && HashCollision(Bytes(utf8, h), Bytes(utf8, s[a]))
  }

  lemma CollidingHistory(utf8: Encoding, forks: map<string, History>, s: Histories, c: set<string>, a: string) returns (h: History)
    requires Injective(utf8) && Filed(utf8, forks) && c <= s.Keys && forall b :: b in c ==> Recordable(utf8, s[b])
    requires a in c && Collides(ForkId(utf8), forks, s, c, a)
    ensures Clashes(utf8, forks, s, c, a, h)
  {
    var id := ForkId(utf8)(s[a]);
    if id in forks && forks[id] != s[a] {
      h := forks[id];
    } else {
      var b :| b in c && ForkId(utf8)(s[b]) == id && s[b] != s[a];
      h := s[b];
    }
    SameForkIdIff(utf8, h, s[a]);
  }

  lemma ClashCollides(utf8: Encoding, forks: map<string, History>, s: Histories, c: set<string>, a: string, h: History)
    requires Injective(utf8) && Filed(utf8, forks) && c <= s.Keys && a in c && Recordable(utf8, s[a])
    requires Clashes(utf8, forks, s, c, a, h)
    ensures Collides(ForkId(utf8), forks, s, c, a)
  {
    SameForkIdIff(utf8, h, s[a]);
  }

  /** Archiving fails exactly if the hash collides on the texts of two histories that are archived or to be. */
  lemma CollisionIff(utf8: Encoding, forks: map<string, History>, s: Histories, c: set<string>)
    requires Injective(utf8) && Filed(utf8, forks) && c <= s.Keys && forall a :: a in c ==> Recordable(utf8, s[a])
    ensures Collision(ForkId(utf8), forks, s, c) <==> exists a, h :: a in c && Clashes(utf8, forks, s, c, a, h)
  {
    forall a | a in c
      ensures Collides(ForkId(utf8), forks, s, c, a) <==> exists h :: Clashes(utf8, forks, s, c, a, h)
    {
      if Collides(ForkId(utf8), forks, s, c, a) {
        var h := CollidingHistory(utf8, forks, s, c, a);
      }
      if h :| Clashes(utf8, forks, s, c, a, h) {
        ClashCollides(utf8, forks, s, c, a, h);
      }
    }
  }

  /** The archive stays in order. */
  lemma StaysFiled(utf8: Encoding, forks: map<string, History>, s: Histories, c: set<string>, now: map<string, History>)
    requires Filed(utf8, forks) && c <= s.Keys && forall a :: a in c ==> Recordable(utf8, s[a])
    requires Archived(ForkId(utf8), forks, s, c, now)
    ensures Filed(utf8, now)
  {
    forall id | id in now && id !in forks
      ensures Recordable(utf8, now[id]) && ForkId(utf8)(now[id]) == id
    {
      var a :| a in c && ForkId(utf8)(s[a]) == id;
    }
  }

  method HashBytes(bytes: seq<byte>) returns (hash: nat)
    ensures hash == Fnv1a(bytes)
  {
    hash := FNV_OFFSET;
    for i := 0 to |bytes|
      invariant hash == Fnv1a(bytes[..i])
    {
      assert bytes[..i + 1][..i] == bytes[..i];
      hash := FnvStep(hash, bytes[i]);
    }
    assert bytes[..|bytes|] == bytes;
  }

  method Fingerprint(utf8: Encoding, h: History) returns (id: string)
    requires Recordable(utf8, h)
    ensures id == ForkId(utf8)(h)
  {
    var key := ForkText(SequenceRecord(utf8, h.sequence), EventRecords(utf8, h.events));
    var hash := HashBytes(key);
    id := "v1-" + Hex(hash, HEX_DIGITS);
  }
}
