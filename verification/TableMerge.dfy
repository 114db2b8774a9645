/**
 Merging the copied tables other than the event tables: rows with a primary key, where an
 existing private row always wins, and rows without one, which are counted.
 */
module TableMerge {
  import opened Wrappers
  import opened RowKeys

  type PrimaryKey = seq<Value>

  type Keyed = map<PrimaryKey, Row>

  predicate HasColumns(columns: seq<nat>, row: Row) {
    forall i :: 0 <= i < |columns| ==> columns[i] < |row|
  }

  function KeyOf(columns: seq<nat>, row: Row): (k: PrimaryKey)
    requires HasColumns(columns, row)
    ensures |k| == |columns|
  {
    seq(|columns|, i requires 0 <= i < |columns| => row[columns[i]])
  }

  predicate AllColumns(columns: seq<nat>, rows: seq<Row>) {
    forall i :: 0 <= i < |rows| ==> HasColumns(columns, rows[i])
  }

  // ---- tables with a primary key ----------------------------------------------------

  /** Row by row: a row whose key is free goes in. */
  function Filled(columns: seq<nat>, table: Keyed, rows: seq<Row>): Keyed
    requires AllColumns(columns, rows)
  {
    if rows == [] then table
    else
      var before := Filled(columns, table, rows[..|rows| - 1]);
      var last := rows[|rows| - 1];
      var k := KeyOf(columns, last);
      if k in before then before else before[k := last]
  }

  ghost predicate FirstWith(columns: seq<nat>, rows: seq<Row>, i: int, k: PrimaryKey)
    requires AllColumns(columns, rows)
  {
    && 0 <= i < |rows| && KeyOf(columns, rows[i]) == k
    && forall j :: 0 <= j < i ==> KeyOf(columns, rows[j]) != k
  }

  lemma FirstOfPrefix(columns: seq<nat>, rows: seq<Row>, n: nat, k: PrimaryKey)
    requires AllColumns(columns, rows) && n + 1 == |rows|
    ensures forall i :: FirstWith(columns, rows, i, k) <==>
      FirstWith(columns, rows[..n], i, k)
      || (i == n && KeyOf(columns, rows[n]) == k && !exists j :: FirstWith(columns, rows[..n], j, k))
  {
    forall i
      ensures 0 <= i < n ==> (FirstWith(columns, rows[..n], i, k) <==> FirstWith(columns, rows, i, k))
    {
    }
    if exists j :: 0 <= j < n && KeyOf(columns, rows[j]) == k {
      var j :| 0 <= j < n && KeyOf(columns, rows[j]) == k;
      SomeFirst(columns, rows[..n], j, k);
    }
  }

  lemma {:induction false} SomeFirst(columns: seq<nat>, rows: seq<Row>, j: nat, k: PrimaryKey)
    requires AllColumns(columns, rows) && j < |rows| && KeyOf(columns, rows[j]) == k
    ensures exists i :: FirstWith(columns, rows, i, k)
  {
    if l :| 0 <= l < j && KeyOf(columns, rows[l]) == k {
      SomeFirst(columns, rows, l, k);
    } else {
      assert FirstWith(columns, rows, j, k);
    }
  }

  /** No private row changes, and every free key is taken by the first source row that bears it. */
  lemma {:induction false} FilledMeaning(columns: seq<nat>, table: Keyed, rows: seq<Row>, k: PrimaryKey)
    requires AllColumns(columns, rows)
    ensures k in table ==> k in Filled(columns, table, rows) && Filled(columns, table, rows)[k] == table[k]
    ensures k !in table ==>
      (k in Filled(columns, table, rows) <==> exists i :: FirstWith(columns, rows, i, k))
    ensures k !in table ==> forall i :: FirstWith(columns, rows, i, k) ==>
      k in Filled(columns, table, rows) && Filled(columns, table, rows)[k] == rows[i]
  {
    if rows != [] {
      var n := |rows| - 1;
      FilledMeaning(columns, table, rows[..n], k);
      FirstOfPrefix(columns, rows, n, k);
      if j :| FirstWith(columns, rows[..n], j, k) {
        assert FirstWith(columns, rows, j, k);
      } else if KeyOf(columns, rows[n]) == k {
        assert FirstWith(columns, rows, n, k);
      }
    }
  }

  lemma {:induction false} FilledTakesAll(columns: seq<nat>, table: Keyed, rows: seq<Row>)
    requires AllColumns(columns, rows)
    ensures forall i :: 0 <= i < |rows| ==> KeyOf(columns, rows[i]) in Filled(columns, table, rows)
  {
    if rows != [] {
      FilledTakesAll(columns, table, rows[..|rows| - 1]);
    }
  }

  lemma {:induction false} NothingToFill(columns: seq<nat>, table: Keyed, rows: seq<Row>)
    requires AllColumns(columns, rows)
    requires forall i :: 0 <= i < |rows| ==> KeyOf(columns, rows[i]) in table
    ensures Filled(columns, table, rows) == table
  {
    if rows != [] {
      NothingToFill(columns, table, rows[..|rows| - 1]);
    }
  }

  /** Merging the same rows again changes nothing. */
  lemma FilledIdempotent(columns: seq<nat>, table: Keyed, rows: seq<Row>)
    requires AllColumns(columns, rows)
    ensures Filled(columns, Filled(columns, table, rows), rows) == Filled(columns, table, rows)
  {
    FilledTakesAll(columns, table, rows);
    NothingToFill(columns, Filled(columns, table, rows), rows);
  }

  /** How many source rows differ from what the merged table holds under their key. */
  function Rejected(columns: seq<nat>, table: Keyed, rows: seq<Row>): nat
    requires AllColumns(columns, rows)
  {
    if rows == [] then 0
    else
      var last := rows[|rows| - 1];
      var k := KeyOf(columns, last);
      Rejected(columns, table, rows[..|rows| - 1]) + if k in table && table[k] != last then 1 else 0
  }

  lemma {:induction false} RejectedStable(columns: seq<nat>, small: Keyed, large: Keyed, rows: seq<Row>)
    requires AllColumns(columns, rows)
    requires forall i :: 0 <= i < |rows| ==> KeyOf(columns, rows[i]) in small
    requires forall k :: k in small ==> k in large && large[k] == small[k]
    ensures Rejected(columns, small, rows) == Rejected(columns, large, rows)
  {
    if rows != [] {
      RejectedStable(columns, small, large, rows[..|rows| - 1]);
    }
  }

  // ---- tables without a primary key ---------------------------------------------------

  /** For every row the larger of the two counts. */
  function Joined(a: multiset<Row>, b: multiset<Row>): multiset<Row> {
    a + (b - a)
  }

  lemma JoinedCounts(a: multiset<Row>, b: multiset<Row>, r: Row)
    ensures Joined(a, b)[r] == if a[r] < b[r] then b[r] else a[r]
  {
  }

  lemma JoinedIdempotent(a: multiset<Row>, b: multiset<Row>)
    ensures Joined(Joined(a, b), b) == Joined(a, b)
  {
    forall r
      ensures Joined(Joined(a, b), b)[r] == Joined(a, b)[r]
    {
      JoinedCounts(a, b, r);
      JoinedCounts(Joined(a, b), b, r);
    }
  }

  datatype RowMerge = Inserted | Identical | Conflict

  /** A table as stored, and what it holds when the order of its rows is ignored. */
  datatype Table = WithKey(unique: Keyed) | WithoutKey(rows: seq<Row>)

  datatype Content = Unique(unique: Keyed) | Counts(counts: multiset<Row>)

  function ContentOf(t: Table): Content {
    match t
    case WithKey(m) => Unique(m)
    case WithoutKey(rows) => Counts(multiset(rows))
  }

  function Empty(hasKey: bool): Table {
    if hasKey then WithKey(map[]) else WithoutKey([])
  }

  /** The tables of one private store. */
  class TableStore {
    var tables: map<string, Table>

    constructor (tables: map<string, Table>)
      ensures this.tables == tables
    {
      this.tables := tables;
    }

    /** The table is created when it does not exist yet; one of the other kind is a schema conflict. */
    method EnsureTable(name: string, hasKey: bool) returns (ok: bool)
      modifies this
      ensures ok <==> name in old(tables) ==> old(tables)[name].WithKey? == hasKey
      ensures tables == if name in old(tables) then old(tables) else old(tables)[name := Empty(hasKey)]
    {
      if name !in tables {
        tables := tables[name := Empty(hasKey)];
      }
      return tables[name].WithKey? == hasKey;
    }

    method InsertOrCompare(name: string, columns: seq<nat>, row: Row) returns (r: RowMerge)
      requires name in tables && tables[name].WithKey? && HasColumns(columns, row)
      modifies this
      ensures tables == old(tables)[name := WithKey(Filled(columns, old(tables)[name].unique, [row]))]
      ensures r == if KeyOf(columns, row) !in old(tables)[name].unique then Inserted
                   else if old(tables)[name].unique[KeyOf(columns, row)] == row then Identical else Conflict
    {
      var k, table := KeyOf(columns, row), tables[name].unique;
      assert Filled(columns, table, [row][..0]) == table;
      if k in table {
        assert tables == tables[name := WithKey(table)];
        return if table[k] != row then Conflict else Identical;
      }
      tables := tables[name := WithKey(table[k := row])];
      return Inserted;
    }

    method MergeKeyed(name: string, columns: seq<nat>, rows: seq<Row>) returns (changed: nat, conflicts: nat)
      requires name in tables && tables[name].WithKey? && AllColumns(columns, rows)
      modifies this
      ensures tables == old(tables)[name := WithKey(Filled(columns, old(tables)[name].unique, rows))]
      ensures changed == |tables[name].unique| - |old(tables)[name].unique|
      ensures conflicts == Rejected(columns, tables[name].unique, rows)
    {
      changed, conflicts := 0, 0;
      for i := 0 to |rows|
        invariant tables == old(tables)[name := WithKey(Filled(columns, old(tables)[name].unique, rows[..i]))]
        invariant changed == |tables[name].unique| - |old(tables)[name].unique|
        invariant conflicts == Rejected(columns, tables[name].unique, rows[..i])
      {
        var outcome := InsertOrCompare(name, columns, rows[i]);
        TurnOfRow(columns, old(tables)[name].unique, rows, i);
        match outcome
        case Inserted => changed := changed + 1;
        case Identical =>
        case Conflict => conflicts := conflicts + 1;
      }
      assert rows[..|rows|] == rows;
    }

    /** Rows are grouped by their byte key and each group is topped up to its count in the source. */
    method MergeKeyless(name: string, rows: seq<Row>) returns (changed: nat)
      requires name in tables && tables[name].WithoutKey?
      requires forall i :: 0 <= i < |rows| ==> StorableRow(rows[i])
      modifies this
      ensures name in tables && tables[name].WithoutKey? && tables == old(tables)[name := tables[name]]
      ensures old(tables)[name].rows <= tables[name].rows
      ensures changed == |tables[name].rows| - |old(tables)[name].rows|
      ensures multiset(tables[name].rows) == Joined(multiset(old(tables)[name].rows), multiset(rows))
    {
      var counts := CountRows(rows);
      var table := TopUp(tables[name].rows, counts, rows);
      changed := |table| - |tables[name].rows|;
      tables := tables[name := WithoutKey(table)];
    }
  }

  method InsertCopies(before: seq<Row>, row: Row, copies: nat) returns (after: seq<Row>)
    ensures before <= after
    ensures multiset(after) == multiset(before)[row := multiset(before)[row] + copies]
  {
    after := before;
    for k := 0 to copies
      invariant before <= after && multiset(after) == multiset(before)[row := multiset(before)[row] + k]
    {
      after := after + [row];
    }
  }

  method TopUp(before: seq<Row>, counts: map<seq<byte>, (Row, nat)>, ghost rows: seq<Row>) returns (after: seq<Row>)
    requires Counted(rows, counts)
    ensures before <= after && multiset(after) == Joined(multiset(before), multiset(rows))
  {
    after := before;
    var rest := counts.Keys;
    while rest != {}
      invariant rest <= counts.Keys && before <= after
      invariant forall r :: multiset(after)[r] == Due(multiset(before), multiset(rows), rest, r)
      decreases rest
    {
      var key :| key in rest;
      var (row, count) := counts[key];
      var there := multiset(after)[row];
      ghost var was := multiset(after);
      after := InsertCopies(after, row, if count < there then 0 else count - there);
      GroupDone(multiset(before), rows, rest, key, row, was, multiset(after));
      rest := rest - {key};
    }
    AllDue(multiset(before), rows, multiset(after));
  }

  lemma TurnOfRow(columns: seq<nat>, table: Keyed, rows: seq<Row>, i: nat)
    requires AllColumns(columns, rows) && i < |rows|
    ensures var before, after := Filled(columns, table, rows[..i]), Filled(columns, table, rows[..i + 1]);
      && after == Filled(columns, before, [rows[i]])
      && |after| == |before| + (if KeyOf(columns, rows[i]) in before then 0 else 1)
      && Rejected(columns, after, rows[..i + 1]) ==
         Rejected(columns, before, rows[..i]) + if KeyOf(columns, rows[i]) in before && before[KeyOf(columns, rows[i])] != rows[i] then 1 else 0
  {
    var before, after := Filled(columns, table, rows[..i]), Filled(columns, table, rows[..i + 1]);
    assert rows[..i + 1][..i] == rows[..i];
    assert Filled(columns, before, [rows[i]][..0]) == before;
    FilledTakesAll(columns, table, rows[..i]);
    RejectedStable(columns, before, after, rows[..i]);
  }

  ghost predicate Counted(rows: seq<Row>, counts: map<seq<byte>, (Row, nat)>) {
    && (forall r :: r in rows ==> StorableRow(r) && Key(r) in counts)
    && (forall k :: k in counts ==>
          StorableRow(counts[k].0) && Key(counts[k].0) == k && counts[k].1 == multiset(rows)[counts[k].0] > 0)
  }

  /** Equal keys are equal rows, so each group counts one row. */
  method CountRows(rows: seq<Row>) returns (counts: map<seq<byte>, (Row, nat)>)
    requires forall i :: 0 <= i < |rows| ==> StorableRow(rows[i])
    ensures Counted(rows, counts)
  {
    counts := map[];
    for i := 0 to |rows|
      invariant Counted(rows[..i], counts)
    {
      var key := RowKey(rows[i]);
      CountStep(rows, i, counts);
      if key in counts {
        counts := counts[key := (counts[key].0, counts[key].1 + 1)];
      } else {
        counts := counts[key := (rows[i], 1)];
      }
    }
    assert rows[..|rows|] == rows;
  }

  lemma CountStep(rows: seq<Row>, i: nat, counts: map<seq<byte>, (Row, nat)>)
    requires i < |rows| && StorableRow(rows[i]) && Counted(rows[..i], counts)
    ensures var k := Key(rows[i]);
      Counted(rows[..i + 1], counts[k := if k in counts then (counts[k].0, counts[k].1 + 1) else (rows[i], 1)])
  {
    var k := Key(rows[i]);
    assert rows[..i + 1] == rows[..i] + [rows[i]];
    if k in counts {
      KeyInjective(counts[k].0, rows[i]);
    }
    forall l | l in counts && l != k
      ensures counts[l].0 != rows[i]
    {
    }
  }

  /** The count a row must have when the groups `rest` are still to come. */
  ghost function Due(had: multiset<Row>, source: multiset<Row>, rest: set<seq<byte>>, r: Row): nat {
    if r in source && StorableRow(r) && Key(r) !in rest then Joined(had, source)[r] else had[r]
  }

  lemma GroupDone(had: multiset<Row>, rows: seq<Row>, rest: set<seq<byte>>, key: seq<byte>, row: Row,
                  before: multiset<Row>, after: multiset<Row>)
    requires StorableRow(row) && Key(row) == key && key in rest && row in rows
    requires forall r :: before[r] == Due(had, multiset(rows), rest, r)
    requires var count := multiset(rows)[row];
      after == before[row := before[row] + if count < before[row] then 0 else count - before[row]]
    ensures forall r :: after[r] == Due(had, multiset(rows), rest - {key}, r)
  {
    forall r
      ensures after[r] == Due(had, multiset(rows), rest - {key}, r)
    {
      if r != row && StorableRow(r) && Key(r) == key {
        KeyInjective(r, row);
      }
    }
  }

  lemma AllDue(had: multiset<Row>, rows: seq<Row>, now: multiset<Row>)
    requires forall i :: 0 <= i < |rows| ==> StorableRow(rows[i])
    requires forall r :: now[r] == Due(had, multiset(rows), {}, r)
    ensures now == Joined(had, multiset(rows))
  {
    forall r
      ensures now[r] == Joined(had, multiset(rows))[r]
    {
      JoinedCounts(had, multiset(rows), r);
      assert r in multiset(rows) ==> r in rows;
    }
  }
}
