/**
 The merge itself, on tables updated in place. The private ids are collected once, before the
 loop; conflicting source histories are stored whole in the fork archive.
 */
module EventMerge {
  import opened Wrappers
  import opened Basics
  import opened EventGraph
  import opened EventStore

  /** The side archive of conflicting histories, keyed by a fingerprint of the whole history. */
  class ForkArchive {
    const forkId: History -> string
    var forks: map<string, History>

    constructor (forkId: History -> string, stored: map<string, History>)
      ensures this.forkId == forkId && forks == stored
    {
      this.forkId := forkId;
      forks := stored;
    }

    /** Stores the history unless it is there; a fingerprint already used by another history is an error. */
    method Archive(h: History) returns (r: Result<bool>)
      modifies this
      ensures r.Ok? <==> forkId(h) !in old(forks) || old(forks)[forkId(h)] == h
      ensures r.Ok? ==> forks == old(forks)[forkId(h) := h] && (r.value <==> forkId(h) !in old(forks))
      ensures r.Err? ==> forks == old(forks)
    {
      var id := forkId(h);
      if id !in forks {
        forks := forks[id := h];
        return Ok(true);
      }
      if forks[id] != h {
        return Err;
      }
      return Ok(false);
    }
  }

  datatype Outcome = Outcome(changed: nat, conflicts: nat, archivedForks: nat)

  /** Aggregates whose row in `event_sequence` is inserted or moved forward when `d` becomes `m`. */
  ghost function Touched(d: Histories, m: Histories): set<string> {
    set a | a in m && (a !in d || m[a] != d[a])
  }

  /** The fingerprint of the history of `a` is used by another history, archived before or to be archived. */
  ghost predicate Collides(forkId: History -> string, forks: map<string, History>, s: Histories, c: set<string>, a: string)
    requires a in c && c <= s.Keys
  {
    || (forkId(s[a]) in forks && forks[forkId(s[a])] != s[a])
    || (exists b :: b in c && forkId(s[b]) == forkId(s[a]) && s[b] != s[a])
  }

  ghost predicate Collision(forkId: History -> string, forks: map<string, History>, s: Histories, c: set<string>)
    requires c <= s.Keys
  {
    exists a :: a in c && Collides(forkId, forks, s, c, a)
  }

  /** `now` is the archive `forks` after exactly the histories `c` of `s` were stored whole. */
  ghost predicate Archived(forkId: History -> string, forks: map<string, History>, s: Histories, c: set<string>,
                           now: map<string, History>)
    requires c <= s.Keys
  {
    && (forall id :: id in forks ==> id in now && now[id] == forks[id])
    && (forall a :: a in c ==> forkId(s[a]) in now && now[forkId(s[a])] == s[a])
    && (forall id :: id in now && id !in forks ==> exists a :: a in c && forkId(s[a]) == id)
  }

  // ---- one turn of the loop ----------------------------------------------------

  /** The tables' histories after the aggregates `done` had their turn. */
  ghost predicate Midway(d: Histories, s: Histories, done: set<string>, m: Histories) {
    forall a :: SameAt(m, if a in done then Merged(d, s) else d, a)
  }

  /** The ids still to be inserted are new even though rows went in since the ids were collected. */
  lemma TailIsFresh(d: Histories, s: Histories, done: set<string>, m: Histories, a: string, i: nat)
    requires ValidHistories(s) && Midway(d, s, done, m) && a in s && a !in done
    requires i < |s[a].events| && !HasId(d, s[a].events[i].id)
    ensures !HasId(m, s[a].events[i].id)
  {
    forall b, j | b in m && 0 <= j < |m[b].events|
      ensures m[b].events[j].id != s[a].events[i].id
    {
      assert SameAt(m, if b in done then Merged(d, s) else d, b);
      if b in done {
        MergedEvent(d, s, b, j);
      }
    }
  }

  ghost predicate Fresh(rows: seq<EventRow>, e: EventRow) {
    forall x :: x in rows ==> x.id != e.id && (x.aggregate, x.position) != (e.aggregate, e.position)
  }

  lemma SequenceAdded(rows: seq<SequenceRow>, m: Histories, row: SequenceRow, h: History)
    requires SequencesMatch(rows, m) && UniqueAggregates(rows)
    requires row.aggregate !in m && h.sequence == row
    ensures SequencesMatch(rows + [row], m[row.aggregate := h]) && UniqueAggregates(rows + [row])
  {
    assert forall i :: 0 <= i < |rows| ==> rows[i] in rows;
  }

  lemma SequenceMoved(rows: seq<SequenceRow>, m: Histories, row: SequenceRow, h: History, moved: seq<SequenceRow>)
    requires SequencesMatch(rows, m) && UniqueAggregates(rows)
    requires forall a :: a in m ==> m[a].sequence.aggregate == a
    requires row.aggregate in m && h.sequence == row && |moved| == |rows|
    requires forall i :: 0 <= i < |rows| ==> moved[i] == if rows[i].aggregate == row.aggregate then row else rows[i]
    ensures SequencesMatch(moved, m[row.aggregate := h]) && UniqueAggregates(moved)
  {
    var n := m[row.aggregate := h];
    assert UniqueAggregates(moved) by {
      assert forall i :: 0 <= i < |rows| ==> moved[i].aggregate == rows[i].aggregate;
    }
    forall r | r in moved
      ensures r.aggregate in n && n[r.aggregate].sequence == r
    {
      var i :| 0 <= i < |moved| && moved[i] == r;
      assert rows[i] in rows;
    }
    forall a | a in n
      ensures n[a].sequence in moved
    {
      assert m[a].sequence in rows;
      var i :| 0 <= i < |rows| && rows[i] == m[a].sequence;
      assert moved[i] in moved;
    }
  }

  lemma EventsAdded(rows: seq<EventRow>, m: Histories, a: string, start: seq<EventRow>, tail: seq<EventRow>, h: History)
    requires EventsMatch(rows, m)
    requires start == if a in m then m[a].events else []
    requires forall i :: 0 <= i < |tail| ==> tail[i].aggregate == a && tail[i].position == |start| + i
    requires h.events == start + tail
    ensures EventsMatch(rows + tail, m[a := h])
  {
    var n := m[a := h];
    forall e | e in rows + tail
      ensures e.aggregate in n && 0 <= e.position < |n[e.aggregate].events| && n[e.aggregate].events[e.position] == e
    {
      if e !in rows {
        var i :| 0 <= i < |tail| && tail[i] == e;
      }
    }
  }

  /** The rows to insert collide with no id and no position of the tables as they are by then. */
  lemma TailInserts(d: Histories, s: Histories, done: set<string>, m: Histories, a: string, rows: seq<EventRow>, from: nat)
    requires ValidHistories(d) && ValidHistories(s) && Midway(d, s, done, m) && a in s && a !in done
    requires EventsMatch(rows, m)
    requires from == (if a in d then |d[a].events| else 0) && from <= |s[a].events|
    requires !TailReusesId(d, s[a], from)
    ensures UniqueEvents(s[a].events[from..])
    ensures forall e :: e in s[a].events[from..] ==> Fresh(rows, e)
  {
    var tail := s[a].events[from..];
    assert SameAt(m, d, a);
    assert ValidHistory(a, s[a]);
    forall i | 0 <= i < |tail|
      ensures Fresh(rows, tail[i])
    {
      TailIsFresh(d, s, done, m, a, from + i);
      forall x | x in rows
        ensures x.id != tail[i].id && (x.aggregate, x.position) != (tail[i].aggregate, tail[i].position)
      {
        assert m[x.aggregate].events[x.position] == x;
      }
    }
  }

  // ---- the fork archive over the loop -------------------------------------------

  ghost function ArchiveOf(forkId: History -> string, forks: map<string, History>, s: Histories, c: set<string>): (now: map<string, History>)
    requires c <= s.Keys && !Collision(forkId, forks, s, c)
    ensures Archived(forkId, forks, s, c, now)
  {
    var added := set a | a in c :: forkId(s[a]);
    assert forall a :: a in c ==> !Collides(forkId, forks, s, c, a) && forkId(s[a]) in added;
    map id | id in forks.Keys + added :: if id in forks then forks[id] else var a :| a in c && forkId(s[a]) == id; s[a]
  }

  lemma ArchivedUnique(forkId: History -> string, forks: map<string, History>, s: Histories, c: set<string>,
                       m: map<string, History>, n: map<string, History>)
    requires c <= s.Keys && Archived(forkId, forks, s, c, m) && Archived(forkId, forks, s, c, n)
    ensures m == n
  {
    forall id | id in m
      ensures id in n && m[id] == n[id]
    {
      if id !in forks {
        var a :| a in c && forkId(s[a]) == id;
      }
    }
    assert forall id :: id in n ==> id in m;
  }

  /** An archive that already has some of the histories accepts the rest, or refuses, exactly as the bare one. */
  lemma ArchiveResumes(forkId: History -> string, forks: map<string, History>, s: Histories, part: set<string>,
                       partly: map<string, History>, c: set<string>)
    requires part <= c <= s.Keys && Archived(forkId, forks, s, part, partly)
    ensures Collision(forkId, partly, s, c) <==> Collision(forkId, forks, s, c)
    ensures !Collision(forkId, forks, s, c) ==> ArchiveOf(forkId, partly, s, c) == ArchiveOf(forkId, forks, s, c)
  {
    forall a | a in c
      ensures Collides(forkId, partly, s, c, a) <==> Collides(forkId, forks, s, c, a)
    {
    }
    if !Collision(forkId, forks, s, c) {
      assert Archived(forkId, forks, s, c, ArchiveOf(forkId, partly, s, c));
      ArchivedUnique(forkId, forks, s, c, ArchiveOf(forkId, partly, s, c), ArchiveOf(forkId, forks, s, c));
    }
  }

  /** Some of the conflicting histories have been stored. */
  ghost predicate PartlyArchived(forkId: History -> string, forks: map<string, History>, d: Histories, s: Histories,
                                 now: map<string, History>) {
    exists c :: c <= Conflicts(d, s) && Archived(forkId, forks, s, c, now)
  }

  lemma PartlySoFar(forkId: History -> string, forks: map<string, History>, d: Histories, s: Histories, done: set<string>,
                    now: map<string, History>)
    requires Archived(forkId, forks, s, Conflicts(d, s) * done, now)
    ensures PartlyArchived(forkId, forks, d, s, now)
  {
  }

  /** Archiving can only fail on a collision, and then it must. */
  lemma ArchivedOrCollision(forkId: History -> string, forks: map<string, History>, s: Histories, c: set<string>,
                            now: map<string, History>, a: string, all: set<string>)
    requires c + {a} <= all <= s.Keys && Archived(forkId, forks, s, c, now)
    ensures !Collision(forkId, forks, s, c)
    ensures if forkId(s[a]) !in now || now[forkId(s[a])] == s[a]
            then Archived(forkId, forks, s, c + {a}, now[forkId(s[a]) := s[a]])
            else Collision(forkId, forks, s, all)
  {
    if forkId(s[a]) in now && now[forkId(s[a])] != s[a] {
      assert Collides(forkId, forks, s, all, a);
    }
  }

  method IdsOf(m: Histories) returns (ids: set<string>)
    ensures forall id :: id in ids <==> HasId(m, id)
  {
    ids := set a, i | a in m && 0 <= i < |m[a].events| :: m[a].events[i].id;
  }

  predicate ReusesId(rows: seq<EventRow>, ids: set<string>) {
    exists i :: 0 <= i < |rows| && rows[i].id in ids
  }

  lemma Reread(g: Graph, m: Histories)
    requires Represents(g, m) && ValidHistories(m) && UniqueAggregates(g.sequences) && UniqueEvents(g.events)
    ensures ValidGraph(g) && HistoriesOf(g) == m
  {
    RepresentsIsValid(g, m);
    RepresentsUnique(g, m, HistoriesOf(g));
  }

  /** The merged histories after one more turn. */
  ghost function Taken(d: Histories, m: Histories, a: string, h: History): Histories {
    if Forks(d, a, h) then m else m[a := if a in d then Appended(d[a], h) else h]
  }

  ghost predicate Grows(d: Histories, a: string, h: History) {
    !Forks(d, a, h) && (a in d ==> |d[a].events| < |h.events|)
  }

  function CommonLength(d: Histories, a: string, h: History): nat {
    if a in d then Min(|h.events|, |d[a].events|) else 0
  }

  /** What the turn for `a` may rely on when the tables hold `m`. */
  ghost predicate Ready(d: Histories, m: Histories, a: string, h: History, rows: seq<EventRow>) {
    && (a in d <==> a in m) && (a in d ==> m[a] == d[a])
    && (forall b :: b in m ==> m[b].sequence.aggregate == b)
    && ValidHistory(a, h) && (a in d ==> ValidHistory(a, d[a]))
    && (Grows(d, a, h) ==>
          && UniqueEvents(h.events[CommonLength(d, a, h)..])
          && (forall e :: e in h.events[CommonLength(d, a, h)..] ==> Fresh(rows, e)))
  }

  lemma TurnIsReady(d: Histories, s: Histories, done: set<string>, m: Histories, a: string, rows: seq<EventRow>)
    requires ValidHistories(d) && ValidHistories(s) && Midway(d, s, done, m) && a in s && a !in done
    requires EventsMatch(rows, m)
    ensures Ready(d, m, a, s[a], rows)
  {
    MergeIsValid(d, s);
    assert SameAt(m, d, a) && ValidHistory(a, s[a]) && (a in d ==> ValidHistory(a, d[a]));
    forall b | b in m
      ensures m[b].sequence.aggregate == b
    {
      assert SameAt(m, if b in done then Merged(d, s) else d, b);
      assert ValidHistory(b, m[b]);
    }
    if Grows(d, a, s[a]) {
      TailInserts(d, s, done, m, a, rows, CommonLength(d, a, s[a]));
    }
  }

  lemma TurnTaken(d: Histories, s: Histories, done: set<string>, m: Histories, a: string)
    requires Midway(d, s, done, m) && a in s && a !in done
    ensures Midway(d, s, done + {a}, Taken(d, m, a, s[a]))
    ensures a in Touched(d, Merged(d, s)) <==> Grows(d, a, s[a])
  {
    var n := Taken(d, m, a, s[a]);
    assert SameAt(m, d, a);
    forall b
      ensures SameAt(n, if b in done + {a} then Merged(d, s) else d, b)
    {
      assert SameAt(m, if b in done then Merged(d, s) else d, b);
    }
  }

  lemma Finished(d: Histories, s: Histories, m: Histories)
    requires Midway(d, s, s.Keys, m)
    ensures m == Merged(d, s) && Touched(d, m) <= s.Keys
  {
    var n := Merged(d, s);
    forall a
      ensures SameAt(m, n, a)
    {
      assert SameAt(m, if a in s.Keys then n else d, a);
    }
    assert forall a :: a in m ==> SameAt(m, n, a);
    assert forall a :: a in n ==> SameAt(m, n, a);
  }

  lemma AtStart(d: Histories, s: Histories, forkId: History -> string, forks: map<string, History>)
    ensures Midway(d, s, s.Keys - s.Keys, d)
    ensures Archived(forkId, forks, s, Conflicts(d, s) * (s.Keys - s.Keys), forks)
    ensures |Conflicts(d, s) * (s.Keys - s.Keys)| == |Touched(d, Merged(d, s)) * (s.Keys - s.Keys)| == 0
  {
    assert Conflicts(d, s) * (s.Keys - s.Keys) == Touched(d, Merged(d, s)) * (s.Keys - s.Keys) == {};
  }

  lemma AllDone(forkId: History -> string, forks: map<string, History>, d: Histories, s: Histories, now: map<string, History>)
    requires Archived(forkId, forks, s, Conflicts(d, s) * s.Keys, now)
    ensures Conflicts(d, s) * s.Keys == Conflicts(d, s)
    ensures Touched(d, Merged(d, s)) * s.Keys == Touched(d, Merged(d, s))
    ensures !Collision(forkId, forks, s, Conflicts(d, s))
  {
    assert Conflicts(d, s) * s.Keys == Conflicts(d, s);
    assert Touched(d, Merged(d, s)) * s.Keys == Touched(d, Merged(d, s));
  }

  lemma MoveOne(keys: set<string>, rest: set<string>, a: string)
    requires a in rest && rest <= keys
    ensures keys - rest + {a} == keys - (rest - {a}) <= keys && a !in keys - rest && keys - rest <= keys
  {
  }

  lemma NoneLeft(keys: set<string>)
    ensures keys - {} == keys
  {
  }

  lemma CountStep(keys: set<string>, c: set<string>, done: set<string>, a: string)
    requires a in keys && a !in done && done <= keys
    ensures c * (done + {a}) == c * done + if a in c then {a} else {}
    ensures |c * (done + {a})| == |c * done| + if a in c then 1 else 0
    ensures keys - done - {a} == keys - (done + {a})
  {
    assert c * (done + {a}) == c * done + if a in c then {a} else {};
  }

  /**
   The archive and the outcome after the aggregates `done`, when those of `conflicts` are to be archived and
   those of `touched` have their sequence row written; `inserted` event rows have gone in.
   */
  ghost predicate Tallied(s: Histories, conflicts: set<string>, touched: set<string>, done: set<string>,
                          forkId: History -> string, forks: map<string, History>, now: map<string, History>,
                          inserted: int, total: Outcome)
    requires done <= s.Keys
  {
    && Archived(forkId, forks, s, conflicts * done, now)
    && total.conflicts == |conflicts * done|
    && total.archivedForks == |now| - |forks|
    && total.changed == inserted + |touched * done|
  }

  lemma TurnTallied(s: Histories, conflicts: set<string>, touched: set<string>, done: set<string>, a: string,
                    forkId: History -> string, forks: map<string, History>, before: map<string, History>,
                    now: map<string, History>, inserted: int, more: int, total: Outcome, one: Outcome)
    requires done <= s.Keys && a in s && a !in done && done + {a} <= s.Keys
    requires Tallied(s, conflicts, touched, done, forkId, forks, before, inserted, total)
    requires a in conflicts ==> forkId(s[a]) !in before || before[forkId(s[a])] == s[a]
    requires now == if a in conflicts then before[forkId(s[a]) := s[a]] else before
    requires one.changed == more + (if a in touched then 1 else 0)
    requires one.conflicts == (if a in conflicts then 1 else 0) && one.archivedForks == |now| - |before|
    ensures Tallied(s, conflicts, touched, done + {a}, forkId, forks, now, inserted + more,
                    Outcome(total.changed + one.changed, total.conflicts + one.conflicts, total.archivedForks + one.archivedForks))
  {
    CountStep(s.Keys, conflicts, done, a);
    CountStep(s.Keys, touched, done, a);
    if a in conflicts {
      ArchivedOrCollision(forkId, forks, s, conflicts * done, before, a, conflicts * done + {a});
    }
  }

  class EventTables {
    var sequences: seq<SequenceRow>
    var events: seq<EventRow>
    const archive: ForkArchive

    constructor (archive: ForkArchive, stored: Graph)
      ensures this.archive == archive && Tables() == stored
    {
      this.archive := archive;
      sequences, events := stored.sequences, stored.events;
    }

    ghost function Tables(): Graph
      reads this
    {
      Graph(sequences, events)
    }

    /** The primary key of `event_sequence`. */
    method InsertSequence(row: SequenceRow) returns (ok: bool)
      modifies this`sequences
      ensures ok <==> row.aggregate !in Aggregates(old(sequences))
      ensures sequences == old(sequences) + if ok then [row] else []
    {
      ok := forall r | r in sequences :: r.aggregate != row.aggregate;
      if ok {
        sequences := sequences + [row];
      }
    }

    /** The primary key of `event` and its unique index on aggregate and position. */
    method InsertEvent(e: EventRow) returns (ok: bool)
      modifies this`events
      ensures ok <==> Fresh(old(events), e)
      ensures events == old(events) + if ok then [e] else []
    {
      ok := forall x | x in events :: x.id != e.id && (x.aggregate, x.position) != (e.aggregate, e.position);
      if ok {
        events := events + [e];
      }
    }

    method InsertEvents(tail: seq<EventRow>) returns (ok: bool)
      modifies this`events
      ensures UniqueEvents(tail) && (forall e :: e in tail ==> Fresh(old(events), e)) ==> ok
      ensures ok ==> events == old(events) + tail
      ensures ok && UniqueEvents(old(events)) ==> UniqueEvents(events)
    {
      for i := 0 to |tail|
        invariant events == old(events) + tail[..i]
        invariant UniqueEvents(old(events)) ==> UniqueEvents(events)
      {
        ok := InsertEvent(tail[i]);
        if !ok {
          assert tail[i] in tail;
          return;
        }
      }
      ok := true;
    }

    method UpdateHighWater(aggregate: string, highWater: int)
      modifies this`sequences
      ensures |sequences| == |old(sequences)|
      ensures forall i :: 0 <= i < |sequences| ==>
        sequences[i] == if old(sequences)[i].aggregate == aggregate then old(sequences)[i].(highWater := highWater)
                        else old(sequences)[i]
    {
      var before := sequences;
      sequences := seq(|before|, i requires 0 <= i < |before| =>
        if before[i].aggregate == aggregate then before[i].(highWater := highWater) else before[i]);
    }

    /** The tables satisfy their keys and hold the histories `m`. */
    ghost predicate Holds(m: Histories)
      reads this
    {
      && UniqueAggregates(sequences) && UniqueEvents(events)
      && SequencesMatch(sequences, m) && EventsMatch(events, m)
    }

    /** An aggregate the private store does not have: its sequence row and all its events. */
    method Adopt(a: string, h: History, ghost m: Histories) returns (ok: bool)
      requires Holds(m) && a !in m && ValidHistory(a, h)
      requires UniqueEvents(h.events) && forall e :: e in h.events ==> Fresh(events, e)
      modifies this
      ensures ok && Holds(m[a := h]) && |events| == old(|events|) + |h.events|
    {
      ghost var g := Tables();
      ok := InsertSequence(h.sequence);
      if ok {
        ok := InsertEvents(h.events);
      }
      SequenceAdded(g.sequences, m, h.sequence, h);
      EventsAdded(g.events, m, a, [], h.events, h);
    }

    /** A private history that the source continues: the tail, then the high-water mark. */
    method Append(a: string, tail: seq<EventRow>, highWater: int, ghost m: Histories) returns (ok: bool)
      requires Holds(m) && a in m && forall b :: b in m ==> m[b].sequence.aggregate == b
      requires UniqueEvents(tail) && forall e :: e in tail ==> Fresh(events, e)
      requires forall i :: 0 <= i < |tail| ==> tail[i].aggregate == a && tail[i].position == |m[a].events| + i
      modifies this
      ensures ok && |events| == old(|events|) + |tail|
      ensures Holds(m[a := History(m[a].sequence.(highWater := highWater), m[a].events + tail)])
    {
      ghost var h, g := History(m[a].sequence.(highWater := highWater), m[a].events + tail), Tables();
      ok := InsertEvents(tail);
      if ok {
        UpdateHighWater(a, highWater);
      }
      EventsAdded(g.events, m, a, m[a].events, tail, h);
      assert forall r :: r in g.sequences && r.aggregate == a ==> r == m[a].sequence;
      SequenceMoved(g.sequences, m, h.sequence, h, sequences);
    }

    /**
     Merges the source tables into these. It fails on malformed private tables or on a fork
     fingerprint used twice, never on an insertion.
     */
    method MergeEventGraph(source: Graph) returns (r: Result<Outcome>)
      requires ValidGraph(source)
      modifies this, archive
      ensures ValidGraph(old(Tables())) ==>
        MergeResult(HistoriesOf(old(Tables())), HistoriesOf(source), |old(events)|, old(archive.forks), r)
      ensures !ValidGraph(old(Tables())) ==> r.Err? && archive.forks == old(archive.forks)
    {
      var ok := ValidateEventGraph(Graph(sequences, events));
      if !ok {
        return Err;
      }
      var grouped := EventHistories(source);
      var private := EventHistories(Graph(sequences, events));
      r := MergeValidated(private.value, grouped.value);
    }

    method MergeValidated(d: Histories, s: Histories) returns (r: Result<Outcome>)
      requires ValidHistories(s)
      requires ValidGraph(Tables()) && HistoriesOf(Tables()) == d
      modifies this, archive
      ensures MergeResult(d, s, |old(events)|, old(archive.forks), r)
    {
      var ids := IdsOf(d);
      r := MergeHistories(d, s, ids);
      if r.Ok? {
        MergeIsValid(d, s);
        Reread(Tables(), Merged(d, s));
        AllDone(archive.forkId, old(archive.forks), d, s, archive.forks);
      }
    }

    /** What the merge of `s` into tables that held `d` comes to. */
    ghost predicate MergeResult(d: Histories, s: Histories, rows: nat, forks: map<string, History>, r: Result<Outcome>)
      reads this, archive
    {
      && (r.Ok? <==> !Collision(archive.forkId, forks, s, Conflicts(d, s)))
      && (r.Ok? ==>
            && ValidGraph(Tables()) && HistoriesOf(Tables()) == Merged(d, s)
            && Archived(archive.forkId, forks, s, Conflicts(d, s), archive.forks)
            && r.value.conflicts == |Conflicts(d, s)|
            && r.value.archivedForks == |archive.forks| - |forks|
            && r.value.changed == |events| - rows + |Touched(d, Merged(d, s))|)
      && (r.Err? ==> PartlyArchived(archive.forkId, forks, d, s, archive.forks))
    }

    /** One turn of the loop: set the source history aside, adopt it, append its tail, or leave it. */
    method MergeHistory(d: Histories, ids: set<string>, a: string, h: History, ghost m: Histories) returns (r: Result<Outcome>)
      requires forall id :: id in ids <==> HasId(d, id)
      requires Holds(m) && Ready(d, m, a, h, events)
      modifies this, archive
      ensures r.Ok? ==> Holds(Taken(d, m, a, h))
      ensures r.Ok? ==> r.value.changed == |events| - |old(events)| + if Grows(d, a, h) then 1 else 0
      ensures r.Ok? ==> r.value.conflicts == if Forks(d, a, h) then 1 else 0
      ensures r.Ok? ==> r.value.archivedForks == |archive.forks| - |old(archive.forks)|
      ensures r.Ok? <==> Forks(d, a, h) && archive.forkId(h) in old(archive.forks) ==> old(archive.forks)[archive.forkId(h)] == h
      ensures archive.forks == if r.Ok? && Forks(d, a, h) then old(archive.forks)[archive.forkId(h) := h] else old(archive.forks)
    {
      var from := CommonLength(d, a, h);
      var reusesId := ReusesId(h.events[from..], ids);
      assert reusesId <==> TailReusesId(d, h, from);
      if (a in d && h.events[..from] != d[a].events[..from]) || reusesId {
        var archived := archive.Archive(h);
        if archived.Err? {
          return Err;
        }
        return Ok(Outcome(0, 1, if archived.value then 1 else 0));
      } else if a !in d {
        assert h.events[0..] == h.events;
        var ok := Adopt(a, h, m);
        assert ok;
        return Ok(Outcome(1 + |h.events|, 0, 0));
      } else if |h.events| <= |d[a].events| {
        assert m[a := d[a]] == m;
        return Ok(Outcome(0, 0, 0));
      } else {
        assert h.events == d[a].events + h.events[from..];
        var ok := Append(a, h.events[from..], h.sequence.highWater, m);
        assert ok;
        return Ok(Outcome(|h.events[from..]| + 1, 0, 0));
      }
    }

    /** The loop has handled the aggregates `done`; the tables hold `m`. */
    ghost predicate Progress(d: Histories, s: Histories, done: set<string>, m: Histories, rows: nat,
                             forks: map<string, History>, total: Outcome)
      requires done <= s.Keys
      reads this, archive
    {
      && Midway(d, s, done, m) && Holds(m)
      && Tallied(s, Conflicts(d, s), Touched(d, Merged(d, s)), done, archive.forkId, forks, archive.forks, |events| - rows, total)
    }

    method Turn(d: Histories, s: Histories, ids: set<string>, a: string, total: Outcome, ghost conflicts: set<string>,
                ghost touched: set<string>, ghost done: set<string>, ghost m: Histories, ghost rows: nat,
                ghost forks: map<string, History>) returns (r: Result<Outcome>)
      requires conflicts <= s.Keys && done <= s.Keys && a in s && a !in done && done + {a} <= s.Keys
      requires forall id :: id in ids <==> HasId(d, id)
      requires Holds(m) && Ready(d, m, a, s[a], events)
      requires (a in conflicts <==> Forks(d, a, s[a])) && (a in touched <==> Grows(d, a, s[a]))
      requires Tallied(s, conflicts, touched, done, archive.forkId, forks, archive.forks, |events| - rows, total)
      modifies this, archive
      ensures r.Ok? ==> Holds(Taken(d, m, a, s[a]))
      ensures r.Ok? ==> Tallied(s, conflicts, touched, done + {a}, archive.forkId, forks, archive.forks, |events| - rows, r.value)
      ensures r.Err? ==> Collision(archive.forkId, forks, s, conflicts)
      ensures r.Err? ==> archive.forks == old(archive.forks)
    {
      if a in conflicts {
        ArchivedOrCollision(archive.forkId, forks, s, conflicts * done, archive.forks, a, conflicts);
      }
      var one := MergeHistory(d, ids, a, s[a], m);
      if one.Err? {
        return Err;
      }
      TurnTallied(s, conflicts, touched, done, a, archive.forkId, forks, old(archive.forks), archive.forks,
                  |old(events)| - rows, |events| - |old(events)|, total, one.value);
      return Ok(Outcome(total.changed + one.value.changed, total.conflicts + one.value.conflicts,
                        total.archivedForks + one.value.archivedForks));
    }

    method MergeHistories(d: Histories, s: Histories, ids: set<string>) returns (r: Result<Outcome>)
      requires ValidHistories(d) && ValidHistories(s) && Holds(d)
      requires forall id :: id in ids <==> HasId(d, id)
      modifies this, archive
      ensures r.Ok? ==> Progress(d, s, s.Keys, Merged(d, s), |old(events)|, old(archive.forks), r.value)
      ensures r.Err? ==> Collision(archive.forkId, old(archive.forks), s, Conflicts(d, s))
      ensures r.Err? ==> PartlyArchived(archive.forkId, old(archive.forks), d, s, archive.forks)
    {
      r := Ok(Outcome(0, 0, 0));
      var rest := s.Keys;
      ghost var m := d;
      AtStart(d, s, archive.forkId, archive.forks);
      while rest != {}
        invariant rest <= s.Keys
        invariant r.Ok? && Progress(d, s, s.Keys - rest, m, |old(events)|, old(archive.forks), r.value)
        decreases rest
      {
        var a :| a in rest;
        PartlySoFar(archive.forkId, old(archive.forks), d, s, s.Keys - rest, archive.forks);
        MoveOne(s.Keys, rest, a);
        TurnIsReady(d, s, s.Keys - rest, m, a, events);
        TurnTaken(d, s, s.Keys - rest, m, a);
        r := Turn(d, s, ids, a, r.value, Conflicts(d, s), Touched(d, Merged(d, s)), s.Keys - rest, m, |old(events)|, old(archive.forks));
        if r.Err? {
          return;
        }
        rest := rest - {a};
        m := Taken(d, m, a, s[a]);
      }
      NoneLeft(s.Keys);
      Finished(d, s, m);
    }
  }
}
