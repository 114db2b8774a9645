/**
 Event histories: one dense, append-only log per aggregate, kept in two tables
 (`event_sequence` holds the high-water mark and the owner, `event` the entries).
 This file says what a well-formed pair of tables is, what merging a source into a
 private destination means, and proves what the merge promises. The loop over the
 tables is in EventMerge.dfy.
 */
module EventGraph {
  import opened Wrappers
  import opened Basics

  datatype SequenceRow = SequenceRow(aggregate: string, highWater: int, owner: Option<string>)

  datatype EventRow = EventRow(id: string, aggregate: string, position: int, kind: string, data: string)

  /** The two tables as SQLite hands them over: rows in no particular order. */
  datatype Graph = Graph(sequences: seq<SequenceRow>, events: seq<EventRow>)

  datatype History = History(sequence: SequenceRow, events: seq<EventRow>)

  type Histories = map<string, History>

  // ---- well-formed tables ----------------------------------------------------

  ghost predicate UniqueAggregates(rows: seq<SequenceRow>) {
    forall i, j :: 0 <= i < j < |rows| ==> rows[i].aggregate != rows[j].aggregate
  }

  ghost predicate UniqueEvents(rows: seq<EventRow>) {
    forall i, j :: 0 <= i < j < |rows| ==>
      rows[i].id != rows[j].id && (rows[i].aggregate, rows[i].position) != (rows[j].aggregate, rows[j].position)
  }

  ghost predicate InRange(g: Graph, e: EventRow) {
    exists r :: r in g.sequences && r.aggregate == e.aggregate && 0 <= e.position <= r.highWater
  }

  ghost predicate Occupied(events: seq<EventRow>, aggregate: string, position: int) {
    exists e :: e in events && e.aggregate == aggregate && e.position == position
  }

  ghost predicate Dense(g: Graph, r: SequenceRow) {
    forall k :: 0 <= k <= r.highWater ==> Occupied(g.events, r.aggregate, k)
  }

  ghost predicate ValidGraph(g: Graph) {
    && UniqueAggregates(g.sequences)
    && UniqueEvents(g.events)
    && (forall r :: r in g.sequences ==> 0 <= r.highWater && Dense(g, r))
    && (forall e :: e in g.events ==> InRange(g, e))
  }

  // ---- histories -------------------------------------------------------------

  ghost predicate ValidHistory(aggregate: string, h: History) {
    && h.sequence.aggregate == aggregate
    && |h.events| == h.sequence.highWater + 1 > 0
    && forall i :: 0 <= i < |h.events| ==> h.events[i].aggregate == aggregate && h.events[i].position == i
  }

  ghost predicate ValidHistories(m: Histories) {
    && (forall a :: a in m ==> ValidHistory(a, m[a]))
    && (forall a, i, b, j | a in m && 0 <= i < |m[a].events| && b in m && 0 <= j < |m[b].events| ::
          m[a].events[i].id == m[b].events[j].id ==> a == b && i == j)
  }

  ghost predicate SequencesMatch(rows: seq<SequenceRow>, m: Histories) {
    && (forall r :: r in rows ==> r.aggregate in m && m[r.aggregate].sequence == r)
    && (forall a :: a in m ==> m[a].sequence in rows)
  }

  ghost predicate EventsMatch(rows: seq<EventRow>, m: Histories) {
    && (forall e :: e in rows ==>
          e.aggregate in m && 0 <= e.position < |m[e.aggregate].events| && m[e.aggregate].events[e.position] == e)
    && (forall a, i :: a in m && 0 <= i < |m[a].events| ==> m[a].events[i] in rows)
  }

  /** The tables `g` hold exactly the histories `m`. */
  ghost predicate Represents(g: Graph, m: Histories) {
    SequencesMatch(g.sequences, m) && EventsMatch(g.events, m)
  }

  lemma RepresentsIsValid(g: Graph, m: Histories)
    requires Represents(g, m) && ValidHistories(m)
    requires UniqueAggregates(g.sequences) && UniqueEvents(g.events)
    ensures ValidGraph(g)
  {
    forall r | r in g.sequences
      ensures 0 <= r.highWater && Dense(g, r)
    {
      var h := m[r.aggregate];
      assert ValidHistory(r.aggregate, h);
      forall k | 0 <= k <= r.highWater
        ensures Occupied(g.events, r.aggregate, k)
      {
        assert h.events[k] in g.events;
      }
    }
    forall e | e in g.events
      ensures InRange(g, e)
    {
      assert ValidHistory(e.aggregate, m[e.aggregate]);
      assert m[e.aggregate].sequence in g.sequences;
    }
  }

  /** The tables determine the histories. */
  lemma RepresentsUnique(g: Graph, m: Histories, n: Histories)
    requires Represents(g, m) && ValidHistories(m)
    requires Represents(g, n) && ValidHistories(n)
    ensures m == n
  {
    forall a | a in m
      ensures a in n && m[a] == n[a]
    {
      assert ValidHistory(a, m[a]);
      assert m[a].sequence in g.sequences;
      assert ValidHistory(a, n[a]);
      assert |m[a].events| == |n[a].events|;
      forall i | 0 <= i < |m[a].events|
        ensures m[a].events[i] == n[a].events[i]
      {
        assert m[a].events[i] in g.events;
      }
    }
    forall a | a in n
      ensures a in m
    {
      assert ValidHistory(a, n[a]);
      assert n[a].sequence in g.sequences;
    }
  }

  // ---- the merge -------------------------------------------------------------

  ghost predicate HasId(m: Histories, id: string) {
    exists a, i :: a in m && 0 <= i < |m[a].events| && m[a].events[i].id == id
  }

  ghost predicate TailReusesId(d: Histories, h: History, from: nat) {
    exists i :: from <= i < |h.events| && HasId(d, h.events[i].id)
  }

  /** The source history `h` of aggregate `a` cannot be appended to `d`. */
  ghost predicate Forks(d: Histories, a: string, h: History) {
    if a !in d then
      TailReusesId(d, h, 0)
    else
      var n := Min(|h.events|, |d[a].events|);
      h.events[..n] != d[a].events[..n] || TailReusesId(d, h, n)
  }

  ghost function Conflicts(d: Histories, s: Histories): set<string> {
    set a | a in s && Forks(d, a, s[a])
  }

  /** The private history wins unless the source has the same beginning and goes on. */
  function Appended(private: History, source: History): History {
    if |source.events| <= |private.events| then private
    else History(private.sequence.(highWater := source.sequence.highWater), source.events)
  }

  ghost function Merged(d: Histories, s: Histories): Histories {
    map a | a in d.Keys + s.Keys && (a in d || a !in Conflicts(d, s)) ::
      if a !in d then s[a]
      else if a !in s || a in Conflicts(d, s) then d[a]
      else Appended(d[a], s[a])
  }

  // ---- lossless and private-preserving ---------------------------------------

  lemma MergeKeepsPrivateHistories(d: Histories, s: Histories, a: string)
    requires ValidHistories(d) && a in d
    ensures a in Merged(d, s)
    ensures d[a].events <= Merged(d, s)[a].events
    ensures Merged(d, s)[a].sequence.owner == d[a].sequence.owner
  {
    if a in s && a !in Conflicts(d, s) {
      CommonPrefix(d, s, a);
    }
  }

  lemma CommonPrefix(d: Histories, s: Histories, a: string)
    requires a in d && a in s && a !in Conflicts(d, s)
    ensures |s[a].events| <= |d[a].events| ==> s[a].events <= d[a].events
    ensures |d[a].events| <= |s[a].events| ==> d[a].events <= s[a].events
  {
    var n := Min(|s[a].events|, |d[a].events|);
    assert s[a].events[..n] == d[a].events[..n];
    assert s[a].events[..|s[a].events|] == s[a].events;
    assert d[a].events[..|d[a].events|] == d[a].events;
  }

  /** Every source history is found in the result, or is one of the conflicts that get archived whole. */
  lemma MergeIsLossless(d: Histories, s: Histories, a: string)
    requires a in s
    ensures a in Conflicts(d, s) || (a in Merged(d, s) && s[a].events <= Merged(d, s)[a].events)
  {
    if a in d && a !in Conflicts(d, s) {
      CommonPrefix(d, s, a);
    }
  }

  /** A conflicting aggregate is left exactly as the private store had it. */
  lemma ConflictsLeavePrivateAlone(d: Histories, s: Histories, a: string)
    requires a in Conflicts(d, s)
    ensures a in Merged(d, s) <==> a in d
    ensures a in d ==> Merged(d, s)[a] == d[a]
  {
  }

  lemma MergedEvent(d: Histories, s: Histories, a: string, i: nat)
    requires a in Merged(d, s) && i < |Merged(d, s)[a].events|
    ensures (a in d && i < |d[a].events| && Merged(d, s)[a].events[i] == d[a].events[i])
         || (a in s && a !in Conflicts(d, s) && i < |s[a].events| && (a !in d || |d[a].events| <= i)
             && Merged(d, s)[a].events[i] == s[a].events[i] && !HasId(d, s[a].events[i].id))
  {
    if a in s && a !in Conflicts(d, s) {
      if a in d {
        CommonPrefix(d, s, a);
        assert !TailReusesId(d, s[a], Min(|s[a].events|, |d[a].events|));
      } else {
        assert !TailReusesId(d, s[a], 0);
      }
    }
  }

  /** Although the set of private ids is read once, before the loop, the result is well formed again. */
  lemma MergeIsValid(d: Histories, s: Histories)
    requires ValidHistories(d) && ValidHistories(s)
    ensures ValidHistories(Merged(d, s))
  {
    var m := Merged(d, s);
    forall a | a in m
      ensures ValidHistory(a, m[a])
    {
      assert a in d ==> ValidHistory(a, d[a]);
      assert a in s ==> ValidHistory(a, s[a]);
    }
    forall a, i, b, j |
      a in m && 0 <= i < |m[a].events| && b in m && 0 <= j < |m[b].events|
      && m[a].events[i].id == m[b].events[j].id
      ensures a == b && i == j
    {
      MergedEvent(d, s, a, i);
      MergedEvent(d, s, b, j);
    }
  }

  // ---- archived only when nothing else is possible -----------------------------

  /** `m` keeps every private history as a prefix and continues (or contains) the source history of `a`. */
  ghost predicate CommonExtension(d: Histories, a: string, h: History, m: Histories) {
    && ValidHistories(m)
    && (forall b :: b in d ==> b in m && d[b].events <= m[b].events)
    && a in m && h.events <= m[a].events
  }

  /** A source history is set aside exactly when no well-formed store could hold it beside the private ones. */
  lemma ForksIffNoCommonExtension(d: Histories, a: string, h: History)
    requires ValidHistories(d) && ValidHistory(a, h) && ValidHistories(map[a := h])
    ensures Forks(d, a, h) <==> !exists m: Histories :: CommonExtension(d, a, h, m)
  {
    if !Forks(d, a, h) {
      var s := map[a := h];
      var m := Merged(d, s);
      MergeIsValid(d, s);
      MergeIsLossless(d, s, a);
      forall b | b in d
        ensures b in m && d[b].events <= m[b].events
      {
        MergeKeepsPrivateHistories(d, s, b);
      }
      assert CommonExtension(d, a, h, m);
    }
    forall m: Histories | CommonExtension(d, a, h, m)
      ensures !Forks(d, a, h)
    {
      ExtendableIsNoFork(d, a, h, m);
    }
  }

  lemma ExtendableIsNoFork(d: Histories, a: string, h: History, m: Histories)
    requires ValidHistories(d) && ValidHistory(a, h) && CommonExtension(d, a, h, m)
    ensures !Forks(d, a, h)
  {
    var n := if a in d then Min(|h.events|, |d[a].events|) else 0;
    if a in d {
      assert h.events[..n] == m[a].events[..n];
      assert d[a].events[..n] == m[a].events[..n];
    }
    forall i, b, j | n <= i < |h.events| && b in d && 0 <= j < |d[b].events|
      ensures d[b].events[j].id != h.events[i].id
    {
      assert d[b].events[j] == m[b].events[j];
      assert h.events[i] == m[a].events[i];
    }
  }

  // ---- running again ----------------------------------------------------------

  lemma ForksAgain(d: Histories, s: Histories, a: string)
    requires ValidHistories(d) && ValidHistories(s) && a in s
    ensures Forks(Merged(d, s), a, s[a]) <==> Forks(d, a, s[a])
  {
    var m := Merged(d, s);
    MergeIsValid(d, s);
    assert ValidHistory(a, s[a]);
    if !Forks(m, a, s[a]) {
      ForksIffNoCommonExtension(m, a, s[a]);
      var e: Histories :| CommonExtension(m, a, s[a], e);
      forall b: string | b in d
        ensures b in e && d[b].events <= e[b].events
      {
        MergeKeepsPrivateHistories(d, s, b);
      }
      ExtendableIsNoFork(d, a, s[a], e);
    }
    if !Forks(d, a, s[a]) {
      MergeIsLossless(d, s, a);
      ExtendableIsNoFork(m, a, s[a], m);
    }
  }

  /** Merging the same source again changes nothing and reports the same conflicts. */
  lemma MergeIsIdempotent(d: Histories, s: Histories)
    requires ValidHistories(d) && ValidHistories(s)
    ensures Merged(Merged(d, s), s) == Merged(d, s)
    ensures Conflicts(Merged(d, s), s) == Conflicts(d, s)
  {
    var m := Merged(d, s);
    forall a | a in s
      ensures a in Conflicts(m, s) <==> a in Conflicts(d, s)
    {
      ForksAgain(d, s, a);
    }
    assert Merged(m, s).Keys == m.Keys;
    forall a | a in m && a in s && a !in Conflicts(d, s)
      ensures Appended(m[a], s[a]) == m[a]
    {
      MergeIsLossless(d, s, a);
    }
  }

  // ---- catching up ------------------------------------------------------------

  /** `later` is `earlier` after more appends: logs only grow, owners stay. */
  ghost predicate Extends(earlier: Histories, later: Histories) {
    forall a :: a in earlier ==>
      && a in later
      && earlier[a].events <= later[a].events
      && earlier[a].sequence.owner == later[a].sequence.owner
  }

  /** The earlier merge took `a` over, but a later event of `a` bears an id the private store already uses. */
  ghost predicate LateReuse(d: Histories, s1: Histories, s2: Histories, a: string) {
    && a in s1 && a in s2
    && a !in Conflicts(d, s1)
    && (a in d ==> |d[a].events| < |s1[a].events|)
    && TailReusesId(d, s2[a], |s1[a].events|)
  }

  /**
   Merging an earlier and then a later state of the source equals merging the later state
   directly, exactly when no event appended in between reuses an id of the private store.
   */
  lemma CatchUpIsConfluent(d: Histories, s1: Histories, s2: Histories)
    requires ValidHistories(d) && ValidHistories(s1) && ValidHistories(s2) && Extends(s1, s2)
    ensures Merged(Merged(d, s1), s2) == Merged(d, s2) <==> !exists a :: LateReuse(d, s1, s2, a)
  {
    var m := Merged(d, s1);
    MergeIsValid(d, s1);
    forall a
      ensures LateReuse(d, s1, s2, a) ==> SameAt(Merged(m, s2), Merged(d, s2), a) == false
      ensures !LateReuse(d, s1, s2, a) ==> SameAt(Merged(m, s2), Merged(d, s2), a)
    {
      CatchUpAt(d, s1, s2, a);
    }
    if Merged(m, s2) == Merged(d, s2) {
      forall a
        ensures !LateReuse(d, s1, s2, a)
      {
        assert SameAt(Merged(m, s2), Merged(d, s2), a);
      }
    }
    if !exists a :: LateReuse(d, s1, s2, a) {
      forall a
        ensures a in Merged(m, s2) <==> a in Merged(d, s2)
        ensures a in Merged(m, s2) ==> Merged(m, s2)[a] == Merged(d, s2)[a]
      {
        assert SameAt(Merged(m, s2), Merged(d, s2), a);
      }
    }
  }

  function OneEvent(id: string, aggregate: string): History {
    History(SequenceRow(aggregate, 0, None), [EventRow(id, aggregate, 0, "", "")])
  }

  function TwoEvents(first: string, second: string, aggregate: string): History {
    History(SequenceRow(aggregate, 1, None), [EventRow(first, aggregate, 0, "", ""), EventRow(second, aggregate, 1, "", "")])
  }

  lemma ExamplesAreValid(aggregate: string)
    ensures ValidHistories(map[aggregate := OneEvent("1", aggregate)]) && ValidHistories(map[aggregate := OneEvent("2", aggregate)])
    ensures ValidHistories(map[aggregate := TwoEvents("1", "2", aggregate)])
  {
    assert TwoEvents("1", "2", aggregate).events[0].id != TwoEvents("1", "2", aggregate).events[1].id;
  }

  lemma ExampleReuses(d: Histories, s1: Histories, s2: Histories)
    requires d == map["b" := OneEvent("2", "b")] && s1 == map["a" := OneEvent("1", "a")]
    requires s2 == map["a" := TwoEvents("1", "2", "a")]
    ensures LateReuse(d, s1, s2, "a") && Extends(s1, s2)
  {
    assert HasId(d, "2") by {
      assert d["b"].events[0].id == "2";
    }
    forall b, i | b in d && 0 <= i < |d[b].events|
      ensures d[b].events[i].id != "1"
    {
      assert d[b].events[i].id == "2";
    }
    assert !HasId(d, "1") && s2["a"].events[1].id == "2" && s1["a"].events[0].id == "1";
  }

  /** The private store already uses the id of the event that `a` gets between the two merges. */
  lemma CatchUpCanDiffer(d: Histories, s1: Histories, s2: Histories)
    requires d == map["b" := OneEvent("2", "b")] && s1 == map["a" := OneEvent("1", "a")]
    requires s2 == map["a" := TwoEvents("1", "2", "a")]
    ensures ValidHistories(d) && ValidHistories(s1) && ValidHistories(s2) && Extends(s1, s2)
    ensures Merged(Merged(d, s1), s2) != Merged(d, s2)
  {
    ExamplesAreValid("a");
    ExamplesAreValid("b");
    ExampleReuses(d, s1, s2);
    CatchUpIsConfluent(d, s1, s2);
  }

  ghost predicate SameAt(m: Histories, n: Histories, a: string) {
    (a in m <==> a in n) && (a in m ==> m[a] == n[a])
  }

  /** After the first merge the ids that block the later tail are the same. */
  lemma SameReuse(d: Histories, s1: Histories, s2: Histories, a: string, from: nat)
    requires ValidHistories(d) && ValidHistories(s1) && ValidHistories(s2) && Extends(s1, s2)
    requires a in s2 && (a in Merged(d, s1) ==> |Merged(d, s1)[a].events| <= from || |s2[a].events| <= from)
    ensures TailReusesId(Merged(d, s1), s2[a], from) <==> TailReusesId(d, s2[a], from)
  {
    var m := Merged(d, s1);
    forall i | from <= i < |s2[a].events|
      ensures HasId(m, s2[a].events[i].id) <==> HasId(d, s2[a].events[i].id)
    {
      var id := s2[a].events[i].id;
      if HasId(d, id) {
        var b, j :| b in d && 0 <= j < |d[b].events| && d[b].events[j].id == id;
        MergeKeepsPrivateHistories(d, s1, b);
        assert m[b].events[j].id == id;
      }
      forall b, j | b in m && 0 <= j < |m[b].events| && m[b].events[j].id == id
        ensures HasId(d, id)
      {
        MergedEvent(d, s1, b, j);
        if b in s1 && j < |s1[b].events| {
          assert s1[b].events[j] == s2[b].events[j];
        }
      }
    }
  }

  lemma CatchUpAt(d: Histories, s1: Histories, s2: Histories, a: string)
    requires ValidHistories(d) && ValidHistories(s1) && ValidHistories(s2) && Extends(s1, s2)
    ensures SameAt(Merged(Merged(d, s1), s2), Merged(d, s2), a) <==> !LateReuse(d, s1, s2, a)
  {
    var m := Merged(d, s1);
    if a in s2 {
      assert ValidHistory(a, s2[a]);
      assert a in s1 ==> ValidHistory(a, s1[a]);
      assert a in d ==> ValidHistory(a, d[a]);
      if a in s1 && a !in Conflicts(d, s1) && (a in d ==> |d[a].events| < |s1[a].events|) {
        TakenOver(d, s1, s2, a);
      } else {
        SameReuse(d, s1, s2, a, if a in d then Min(|s2[a].events|, |d[a].events|) else 0);
      }
    }
  }

  lemma TakenOver(d: Histories, s1: Histories, s2: Histories, a: string)
    requires ValidHistories(d) && ValidHistories(s1) && ValidHistories(s2) && Extends(s1, s2)
    requires a in s1 && a !in Conflicts(d, s1) && (a in d ==> |d[a].events| < |s1[a].events|)
    ensures SameAt(Merged(Merged(d, s1), s2), Merged(d, s2), a) <==> !LateReuse(d, s1, s2, a)
  {
    var m := Merged(d, s1);
    var n := if a in d then |d[a].events| else 0;
    assert ValidHistory(a, s1[a]) && ValidHistory(a, s2[a]);
    assert a in d ==> ValidHistory(a, d[a]);
    assert m[a].events == s1[a].events;
    assert s2[a].events[..|s1[a].events|] == s1[a].events;
    SameReuse(d, s1, s2, a, |s1[a].events|);
    assert !TailReusesId(d, s1[a], n);
    assert a in Conflicts(m, s2) <==> LateReuse(d, s1, s2, a);
    if a in d {
      CommonPrefix(d, s1, a);
      assert s2[a].events[..n] == s1[a].events[..n] == d[a].events[..n];
    }
    assert TailReusesId(d, s2[a], n) <==> TailReusesId(d, s2[a], |s1[a].events|) by {
      forall i | n <= i < |s1[a].events|
        ensures !HasId(d, s2[a].events[i].id)
      {
        assert s1[a].events[i] == s2[a].events[i];
      }
    }
    assert a in Conflicts(d, s2) <==> LateReuse(d, s1, s2, a);
  }
}
