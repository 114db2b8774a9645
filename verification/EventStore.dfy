/**
 The event tables of a store: checking that every log is dense and nothing occurs twice, and grouping
 the rows, in whatever order they are read, into histories.
 */
module EventStore {
  import opened Wrappers
  import opened EventGraph

  // ---- checking the tables -----------------------------------------------------

  ghost function Aggregates(rows: seq<SequenceRow>): set<string> {
    set r | r in rows :: r.aggregate
  }

  method HighWaters(rows: seq<SequenceRow>) returns (r: Result<map<string, int>>)
    ensures r.Ok? <==> UniqueAggregates(rows) && forall row :: row in rows ==> 0 <= row.highWater
    ensures r.Ok? ==> r.value.Keys == Aggregates(rows)
    ensures r.Ok? ==> forall row :: row in rows ==> r.value[row.aggregate] == row.highWater
  {
    var m: map<string, int> := map[];
    for i := 0 to |rows|
      invariant UniqueAggregates(rows[..i]) && forall row :: row in rows[..i] ==> 0 <= row.highWater
      invariant m.Keys == Aggregates(rows[..i])
      invariant forall row :: row in rows[..i] ==> m[row.aggregate] == row.highWater
    {
      assert rows[..i + 1] == rows[..i] + [rows[i]];
      if rows[i].highWater < 0 || rows[i].aggregate in m {
        return Err;
      }
      m := m[rows[i].aggregate := rows[i].highWater];
    }
    assert rows[..|rows|] == rows;
    return Ok(m);
  }

  ghost predicate Within(highWaters: map<string, int>, e: EventRow) {
    e.aggregate in highWaters && 0 <= e.position <= highWaters[e.aggregate]
  }

  lemma RejectedRow(rows: seq<EventRow>, i: nat, highWaters: map<string, int>)
    requires i < |rows|
    requires || (exists e :: e in rows[..i] && e.id == rows[i].id)
             || Occupied(rows[..i], rows[i].aggregate, rows[i].position)
             || !Within(highWaters, rows[i])
    ensures UniqueEvents(rows) ==> exists e :: e in rows && !Within(highWaters, e)
  {
    if Within(highWaters, rows[i]) {
      var e :| e in rows[..i]
        && (e.id == rows[i].id || (e.aggregate == rows[i].aggregate && e.position == rows[i].position));
      var j :| 0 <= j < i && rows[j] == e;
    }
  }

  method Positions(rows: seq<EventRow>, highWaters: map<string, int>) returns (r: Result<set<(string, int)>>)
    ensures r.Ok? <==> UniqueEvents(rows) && forall e :: e in rows ==> Within(highWaters, e)
    ensures r.Ok? ==> forall a, k :: (a, k) in r.value <==> Occupied(rows, a, k)
  {
    var ids: set<string>, positions: set<(string, int)> := {}, {};
    for i := 0 to |rows|
      invariant forall id :: id in ids <==> exists e :: e in rows[..i] && e.id == id
      invariant forall a, k :: (a, k) in positions <==> Occupied(rows[..i], a, k)
      invariant UniqueEvents(rows[..i]) && forall e :: e in rows[..i] ==> Within(highWaters, e)
    {
      var row := rows[i];
      assert rows[..i + 1] == rows[..i] + [row];
      if row.id in ids || (row.aggregate, row.position) in positions
        || row.aggregate !in highWaters || row.position < 0 || row.position > highWaters[row.aggregate] {
        RejectedRow(rows, i, highWaters);
        return Err;
      }
      ids, positions := ids + {row.id}, positions + {(row.aggregate, row.position)};
    }
    assert rows[..|rows|] == rows;
    return Ok(positions);
  }

  /** Accepts the tables exactly when every log is dense up to its high-water mark and ids and positions are unique. */
  method ValidateEventGraph(g: Graph) returns (ok: bool)
    ensures ok <==> ValidGraph(g)
  {
    var highWaters := HighWaters(g.sequences);
    if highWaters.Err? {
      return false;
    }
    assert forall e :: e in g.events ==> (Within(highWaters.value, e) <==> InRange(g, e));
    var positions := Positions(g.events, highWaters.value);
    if positions.Err? {
      return false;
    }
    for i := 0 to |g.sequences|
      invariant forall r :: r in g.sequences[..i] ==> Dense(g, r)
    {
      var row := g.sequences[i];
      for k := 0 to row.highWater + 1
        invariant forall l :: 0 <= l < k ==> Occupied(g.events, row.aggregate, l)
      {
        if (row.aggregate, k) !in positions.value {
          assert !Dense(g, row);
          return false;
        }
      }
    }
    return true;
  }

  // ---- grouping into histories ---------------------------------------------------

  function EventsOf(rows: seq<EventRow>, aggregate: string): (events: seq<EventRow>)
    ensures forall e :: e in events <==> e in rows && e.aggregate == aggregate
  {
    if rows == [] then []
    else
      var last := rows[|rows| - 1];
      EventsOf(rows[..|rows| - 1], aggregate) + if last.aggregate == aggregate then [last] else []
  }

  predicate DistinctPositions(rows: seq<EventRow>) {
    forall i, j :: 0 <= i < j < |rows| ==> rows[i].position != rows[j].position
  }

  predicate Increasing(rows: seq<EventRow>) {
    forall i, j :: 0 <= i < j < |rows| ==> rows[i].position < rows[j].position
  }

  function InsertByPosition(rows: seq<EventRow>, e: EventRow): (sorted: seq<EventRow>)
    ensures forall x :: x in sorted <==> x in rows || x == e
    ensures Increasing(rows) && (forall x :: x in rows ==> x.position != e.position) ==> Increasing(sorted)
  {
    if rows == [] || rows[|rows| - 1].position <= e.position then rows + [e]
    else
      var last := rows[|rows| - 1];
      assert Increasing(rows) ==> forall x :: x in rows[..|rows| - 1] ==> x.position < last.position;
      InsertByPosition(rows[..|rows| - 1], e) + [last]
  }

  /** The stable sort by position that the standard library provides. */
  function SortByPosition(rows: seq<EventRow>): (sorted: seq<EventRow>)
    ensures forall x :: x in sorted <==> x in rows
    ensures DistinctPositions(rows) ==> Increasing(sorted)
  {
    if rows == [] then [] else InsertByPosition(SortByPosition(rows[..|rows| - 1]), rows[|rows| - 1])
  }

  lemma {:induction false} EventsOfDistinct(rows: seq<EventRow>, aggregate: string)
    requires UniqueEvents(rows)
    ensures DistinctPositions(EventsOf(rows, aggregate))
  {
    if rows != [] {
      EventsOfDistinct(rows[..|rows| - 1], aggregate);
    }
  }

  lemma {:induction false} IncreasingFromZero(rows: seq<EventRow>, k: nat)
    requires Increasing(rows) && k < |rows| && forall x :: x in rows ==> 0 <= x.position
    ensures k <= rows[k].position
  {
    if k > 0 {
      IncreasingFromZero(rows, k - 1);
    }
  }

  lemma {:induction false} DenseIncreasing(rows: seq<EventRow>, aggregate: string, highWater: nat, k: nat)
    requires Increasing(rows) && k <= highWater
    requires forall x :: x in rows ==> 0 <= x.position
    requires forall l :: 0 <= l <= highWater ==> Occupied(rows, aggregate, l)
    ensures k < |rows| && rows[k].position == k
  {
    if k > 0 {
      DenseIncreasing(rows, aggregate, highWater, k - 1);
    }
    assert Occupied(rows, aggregate, k);
    var x :| x in rows && x.position == k;
    var j :| 0 <= j < |rows| && rows[j] == x;
    assert k <= j;
    IncreasingFromZero(rows, k);
  }

  lemma SortedIsDense(g: Graph, r: SequenceRow)
    requires ValidGraph(g) && r in g.sequences
    ensures ValidHistory(r.aggregate, History(r, SortByPosition(EventsOf(g.events, r.aggregate))))
  {
    EventsOfDistinct(g.events, r.aggregate);
    var rows := SortByPosition(EventsOf(g.events, r.aggregate));
    assert forall e :: e in rows ==> InRange(g, e);
    forall k | 0 <= k <= r.highWater
      ensures Occupied(rows, r.aggregate, k)
    {
      assert Occupied(g.events, r.aggregate, k);
    }
    IncreasingDense(rows, r);
  }

  lemma IncreasingDense(rows: seq<EventRow>, r: SequenceRow)
    requires Increasing(rows) && 0 <= r.highWater
    requires forall e :: e in rows ==> e.aggregate == r.aggregate && 0 <= e.position <= r.highWater
    requires forall k :: 0 <= k <= r.highWater ==> Occupied(rows, r.aggregate, k)
    ensures ValidHistory(r.aggregate, History(r, rows))
  {
    forall k | 0 <= k <= r.highWater
      ensures k < |rows| && rows[k].position == k
    {
      DenseIncreasing(rows, r.aggregate, r.highWater, k);
    }
    DenseIncreasing(rows, r.aggregate, r.highWater, r.highWater);
    IncreasingFromZero(rows, |rows| - 1);
    assert rows[|rows| - 1] in rows;
  }

  ghost predicate HasSequence(g: Graph, e: EventRow) {
    e.aggregate in Aggregates(g.sequences)
  }

  ghost predicate Grouped(g: Graph, m: Histories) {
    && m.Keys == Aggregates(g.sequences)
    && (forall a :: a in m ==> m[a].sequence in g.sequences && m[a].sequence.aggregate == a)
    && (forall a :: a in m ==> m[a].events == SortByPosition(EventsOf(g.events, a)))
    && (forall e :: e in g.events ==> HasSequence(g, e))
  }

  lemma GroupedRepresents(g: Graph, m: Histories)
    requires ValidGraph(g) && Grouped(g, m)
    ensures Represents(g, m) && ValidHistories(m)
  {
    forall a | a in m
      ensures ValidHistory(a, m[a])
    {
      SortedIsDense(g, m[a].sequence);
    }
    assert SequencesMatch(g.sequences, m) by {
      assert forall r :: r in g.sequences ==> r.aggregate in Aggregates(g.sequences);
    }
    forall e | e in g.events
      ensures e.aggregate in m && 0 <= e.position < |m[e.aggregate].events| && m[e.aggregate].events[e.position] == e
    {
      assert HasSequence(g, e);
      assert ValidHistory(e.aggregate, m[e.aggregate]);
      assert e in m[e.aggregate].events;
    }
    GroupedIdsUnique(g, m);
  }

  lemma GroupedIdsUnique(g: Graph, m: Histories)
    requires UniqueEvents(g.events) && Grouped(g, m) && forall a :: a in m ==> ValidHistory(a, m[a])
    ensures ValidHistories(m)
  {
    forall a, i, b, j | a in m && 0 <= i < |m[a].events| && b in m && 0 <= j < |m[b].events|
        && m[a].events[i].id == m[b].events[j].id
      ensures a == b && i == j
    {
      assert ValidHistory(a, m[a]) && ValidHistory(b, m[b]);
      assert m[a].events[i] in g.events && m[b].events[j] in g.events;
    }
  }

  lemma ValidHasSequence(g: Graph, e: EventRow)
    requires ValidGraph(g) && e in g.events
    ensures HasSequence(g, e)
  {
    assert InRange(g, e);
  }

  ghost function SequenceOf(rows: seq<SequenceRow>, aggregate: string): SequenceRow
    requires aggregate in Aggregates(rows)
  {
    var r :| r in rows && r.aggregate == aggregate;
    r
  }

  lemma ValidIsGrouped(g: Graph, m: Histories)
    requires ValidGraph(g)
    requires m == map a | a in Aggregates(g.sequences) ::
      History(SequenceOf(g.sequences, a), SortByPosition(EventsOf(g.events, a)))
    ensures Grouped(g, m)
  {
    forall e | e in g.events
      ensures HasSequence(g, e)
    {
      ValidHasSequence(g, e);
    }
  }

  /** The histories that well-formed tables hold. */
  ghost function HistoriesOf(g: Graph): (m: Histories)
    requires ValidGraph(g)
    ensures Represents(g, m) && ValidHistories(m)
  {
    var m := map a | a in Aggregates(g.sequences) ::
      History(SequenceOf(g.sequences, a), SortByPosition(EventsOf(g.events, a)));
    ValidIsGrouped(g, m);
    GroupedRepresents(g, m);
    m
  }

  lemma Unsequenced(g: Graph, e: EventRow)
    requires e in g.events && !HasSequence(g, e)
    ensures !ValidGraph(g)
  {
    if ValidGraph(g) {
      ValidHasSequence(g, e);
    }
  }

  lemma GroupedIsHistories(g: Graph, m: Histories)
    requires ValidGraph(g) && Grouped(g, m)
    ensures m == HistoriesOf(g)
  {
    GroupedRepresents(g, m);
    RepresentsUnique(g, m, HistoriesOf(g));
  }

  method SequenceMap(rows: seq<SequenceRow>) returns (m: Histories)
    ensures m.Keys == Aggregates(rows)
    ensures forall a :: a in m ==> m[a].sequence in rows && m[a].sequence.aggregate == a && m[a].events == []
  {
    m := map[];
    for i := 0 to |rows|
      invariant m.Keys == Aggregates(rows[..i])
      invariant forall a :: a in m ==> m[a].sequence in rows && m[a].sequence.aggregate == a && m[a].events == []
    {
      assert rows[..i + 1] == rows[..i] + [rows[i]];
      m := m[rows[i].aggregate := History(rows[i], [])];
    }
    assert rows[..|rows|] == rows;
  }

  /** The first `i` events have been put under their aggregates. */
  ghost predicate Grouping(g: Graph, m: Histories, i: nat)
    requires i <= |g.events|
  {
    && m.Keys == Aggregates(g.sequences)
    && (forall a :: a in m ==> m[a].sequence in g.sequences && m[a].sequence.aggregate == a)
    && (forall a :: a in m ==> m[a].events == EventsOf(g.events[..i], a))
    && (forall e :: e in g.events[..i] ==> e.aggregate in m)
  }

  lemma AllGrouped(g: Graph, m: Histories)
    requires Grouping(g, m, |g.events|)
    ensures forall a :: a in m ==> m[a].events == EventsOf(g.events, a)
    ensures forall e :: e in g.events ==> HasSequence(g, e)
  {
    assert g.events[..|g.events|] == g.events;
  }

  lemma GroupingStep(g: Graph, m: Histories, i: nat)
    requires i < |g.events| && Grouping(g, m, i) && g.events[i].aggregate in m
    ensures var e := g.events[i];
      Grouping(g, m[e.aggregate := m[e.aggregate].(events := m[e.aggregate].events + [e])], i + 1)
  {
    assert g.events[..i + 1] == g.events[..i] + [g.events[i]];
  }

  /** Puts every event under its aggregate, in the order of the rows; fails when an event has no sequence row. */
  method GroupEvents(g: Graph) returns (r: Result<Histories>)
    ensures r.Ok? <==> forall e :: e in g.events ==> HasSequence(g, e)
    ensures r.Ok? ==> Grouping(g, r.value, |g.events|)
  {
    var m := SequenceMap(g.sequences);
    for i := 0 to |g.events|
      invariant Grouping(g, m, i)
    {
      var e := g.events[i];
      if e.aggregate !in m {
        assert e in g.events && !HasSequence(g, e);
        return Err;
      }
      GroupingStep(g, m, i);
      m := m[e.aggregate := m[e.aggregate].(events := m[e.aggregate].events + [e])];
    }
    AllGrouped(g, m);
    return Ok(m);
  }

  lemma SortedIsGrouped(g: Graph, m: Histories, sorted: Histories)
    requires Grouping(g, m, |g.events|) && sorted.Keys == m.Keys
    requires forall a :: a in m ==> sorted[a] == m[a].(events := SortByPosition(m[a].events))
    ensures Grouped(g, sorted)
  {
    AllGrouped(g, m);
    forall a | a in sorted
      ensures sorted[a].events == SortByPosition(EventsOf(g.events, a))
    {
      assert m[a].events == EventsOf(g.events, a);
    }
  }

  /** The histories of the two tables, each in the order of its positions. */
  method EventHistories(g: Graph) returns (r: Result<Histories>)
    ensures r.Ok? <==> forall e :: e in g.events ==> HasSequence(g, e)
    ensures ValidGraph(g) ==> r == Ok(HistoriesOf(g))
  {
    r := GroupEvents(g);
    if r.Ok? {
      var m := r.value;
      r := Ok(map a | a in m :: m[a].(events := SortByPosition(m[a].events)));
      if ValidGraph(g) {
        SortedIsGrouped(g, m, r.value);
        GroupedIsHistories(g, r.value);
      }
    } else {
      ghost var e :| e in g.events && !HasSequence(g, e);
      Unsequenced(g, e);
    }
  }
}
