/**
 Repairing a private store in one transaction: the graph of badly named sessions is removed, and
 what is left is attributed to the authoritative project.
 */
module Repair {
  import opened Wrappers
  import opened Basics
  import opened EventGraph
  import opened EventStore
  import opened SessionForest
  import opened Quarantine
  import opened Routing
  import opened SessionRouting
  import opened Selection
  import opened SelectionClosure

  type Columns = map<string, set<string>>

  /** The private store: its tables by name, the project directories (a primary key of both columns) and the event tables. */
  datatype Store = Store(tables: Tables, directories: set<(string, string)>, events: Graph)

  // ---- removing ------------------------------------------------------------------------------

  function Survivors(rows: seq<Row>, doomed: Row -> bool): (left: seq<Row>)
    ensures |left| <= |rows|
    ensures |left| == |rows| <==> left == rows
    ensures forall r :: r in left <==> r in rows && !doomed(r)
  {
    if rows == [] then []
    else
      var before, last := Survivors(rows[..|rows| - 1], doomed), rows[|rows| - 1];
      assert rows == rows[..|rows| - 1] + [last];
      if doomed(last) then before else before + [last]
  }

  lemma {:induction false} AllSurvive(rows: seq<Row>, doomed: Row -> bool)
    requires forall r :: r in rows ==> !doomed(r)
    ensures Survivors(rows, doomed) == rows
  {
    if rows != [] {
      AllSurvive(rows[..|rows| - 1], doomed);
      assert rows == rows[..|rows| - 1] + [rows[|rows| - 1]];
    }
  }

  function Bears(column: string, ids: set<string>): Row -> bool {
    r => TextIn(r, column, ids)
  }

  /** The messages of the sessions. */
  function MessagesOf(rows: seq<Row>, ids: set<string>): set<string> {
    set r | r in rows && TextIn(r, "session_id", ids) && "id" in r.text :: r.text["id"]
  }

  /** What is left of a table: what hangs on a message of the sessions goes, or else what hangs on the sessions. */
  function RowsLeft(columns: Columns, tables: Tables, ids: set<string>, n: string): seq<Row>
    requires n in tables
  {
    if n == "session" then Survivors(tables[n], Bears("id", ids))
    else if n == "message" then Survivors(tables[n], Bears("session_id", ids))
    else if n !in columns then tables[n]
    else if "message_id" in columns[n] then
      Survivors(tables[n], Bears("message_id", MessagesOf(RowsOf(tables, "message"), ids)))
    else if "session_id" in columns[n] then Survivors(tables[n], Bears("session_id", ids))
    else tables[n]
  }

  function GraphLeft(events: Graph, ids: set<string>): Graph {
    KeptGraph(events, Outside(ids))
  }

  function Outside(ids: set<string>): string -> bool {
    a => a !in ids
  }

  function Removed(columns: Columns, store: Store, ids: set<string>): Store {
    Store(map n | n in store.tables :: RowsLeft(columns, store.tables, ids, n), store.directories, GraphLeft(store.events, ids))
  }

  // ---- attributing -----------------------------------------------------------------------------

  /** SQLite's LIKE 'ses\_%', which ignores the case of ASCII letters. */
  predicate LikeNamed(id: string) {
    |id| >= 4 && AsciiLower(id[0]) == 's' && AsciiLower(id[1]) == 'e' && AsciiLower(id[2]) == 's' && id[3] == '_'
  }

  predicate Always(r: Row) {
    true
  }

  predicate Attributable(r: Row) {
    "id" in r.text && LikeNamed(r.text["id"])
  }

  function AttributeRow(r: Row, project: string): Row {
    Row(r.text["project_id" := project], r.rest)
  }

  function Attributed(rows: seq<Row>, project: string, which: Row -> bool): (after: seq<Row>)
    ensures |after| == |rows|
    ensures forall i :: 0 <= i < |rows| ==> after[i] == if which(rows[i]) then AttributeRow(rows[i], project) else rows[i]
  {
    seq(|rows|, i requires 0 <= i < |rows| => if which(rows[i]) then AttributeRow(rows[i], project) else rows[i])
  }

  /** The rows an update really touches. */
  function Outdated(rows: seq<Row>, project: string, which: Row -> bool): nat {
    if rows == [] then 0
    else
      var last := rows[|rows| - 1];
      Outdated(rows[..|rows| - 1], project, which) + if which(last) && TextField(last, "project_id") != Some(project) then 1 else 0
  }

  lemma {:induction false} NoneOutdated(rows: seq<Row>, project: string, which: Row -> bool)
    ensures Outdated(rows, project, which) == 0 <==> Attributed(rows, project, which) == rows
  {
    if rows != [] {
      var n := |rows| - 1;
      NoneOutdated(rows[..n], project, which);
      AttributedAlready(rows[n], project);
      assert rows == rows[..n] + [rows[n]];
      assert Attributed(rows, project, which)[..n] == Attributed(rows[..n], project, which);
      assert Attributed(rows, project, which)[n] == if which(rows[n]) then AttributeRow(rows[n], project) else rows[n];
    }
  }

  lemma AttributedAlready(r: Row, project: string)
    ensures AttributeRow(r, project) == r <==> TextField(r, "project_id") == Some(project)
  {
    if TextField(r, "project_id") == Some(project) {
      assert r.text["project_id" := project] == r.text;
    }
  }

  lemma TwoUpdates(before: Tables, halfway: Tables, now: Tables, project: string)
    requires halfway == if "workspace" in before then before["workspace" := Attributed(before["workspace"], project, Always)] else before
    requires now == if "session" in halfway then halfway["session" := Attributed(halfway["session"], project, Attributable)] else halfway
    ensures now == map n | n in before :: TableAttributed(before[n], project, n)
    ensures now == before <==> halfway == before && now == halfway
  {
    if now == before {
      assert forall n :: n in before ==> halfway[n] == before[n];
    }
  }

  function TableAttributed(rows: seq<Row>, project: string, n: string): seq<Row> {
    if n == "workspace" then Attributed(rows, project, Always)
    else if n == "session" then Attributed(rows, project, Attributable)
    else rows
  }

  function Normalized(store: Store, project: string): Store {
    Store(map n | n in store.tables :: TableAttributed(store.tables[n], project, n),
          set d | d in store.directories :: (project, d.1),
          store.events)
  }

  function Repaired(columns: Columns, store: Store, malformed: set<string>, project: string): Store {
    Normalized(Removed(columns, store, malformed), project)
  }

  // ---- the repair in place ------------------------------------------------------------------------

  class PrivateStore {
    var tables: Tables
    var directories: set<(string, string)>
    var events: Graph
    const columns: Columns

    constructor (stored: Store, columns: Columns)
      ensures Contents() == stored && this.columns == columns
    {
      tables, directories, events, this.columns := stored.tables, stored.directories, stored.events, columns;
    }

    function Contents(): Store
      reads this
    {
      Store(tables, directories, events)
    }

    method DeleteWhere(n: string, doomed: Row -> bool) returns (changed: nat)
      requires n in tables
      modifies this`tables
      ensures tables == old(tables)[n := Survivors(old(tables)[n], doomed)]
      ensures changed == 0 <==> tables == old(tables)
    {
      var left := Survivors(tables[n], doomed);
      changed := |tables[n]| - |left|;
      tables := tables[n := left];
      assert changed == 0 ==> tables == old(tables);
    }

    method DeleteEvents(ids: set<string>) returns (changed: nat)
      modifies this`events
      ensures events == GraphLeft(old(events), ids)
      ensures changed == 0 <==> events == old(events)
    {
      var keep := Outside(ids);
      var left := Graph(KeptSequences(events.sequences, keep), KeptEvents(events.events, keep));
      KeptSizes(events, keep);
      changed := |events.sequences| - |left.sequences| + |events.events| - |left.events|;
      events := left;
    }

    /** A linked table: rows of doomed messages, while the messages are still there, or rows of doomed sessions. */
    method DeleteLinked(n: string, ids: set<string>) returns (changed: nat)
      requires n in tables && n != "session" && n != "message"
      modifies this`tables
      ensures tables == old(tables)[n := RowsLeft(columns, old(tables), ids, n)]
      ensures changed == 0 <==> tables == old(tables)
    {
      if n in columns && "message_id" in columns[n] {
        changed := DeleteWhere(n, Bears("message_id", MessagesOf(RowsOf(tables, "message"), ids)));
      } else if n in columns && "session_id" in columns[n] {
        changed := DeleteWhere(n, Bears("session_id", ids));
      } else {
        changed := 0;
        assert tables == tables[n := tables[n]];
      }
    }

    method DeleteAllLinked(ids: set<string>) returns (changed: nat)
      modifies this`tables
      ensures HalfRemoved(columns, old(tables), ids, {}, tables)
      ensures changed == 0 <==> tables == old(tables)
    {
      changed := 0;
      var rest := tables.Keys - {"session", "message"};
      while rest != {}
        invariant rest <= tables.Keys - {"session", "message"}
        invariant HalfRemoved(columns, old(tables), ids, rest, tables)
        invariant changed == 0 <==> tables == old(tables)
        decreases rest
      {
        var n :| n in rest;
        ghost var before := tables;
        RowsStay(columns, old(tables), ids, rest, tables, n);
        var more := DeleteLinked(n, ids);
        if more != 0 {
          StillChanged(columns, old(tables), ids, rest, before, n, tables);
        }
        changed := changed + more;
        rest := rest - {n};
      }
    }

    method DeleteSessions(ids: set<string>) returns (changed: nat)
      requires "session" in tables && "message" in tables
      modifies this`tables
      ensures SessionsRemoved(old(tables), ids, tables)
      ensures changed == 0 <==> tables["message"] == old(tables)["message"] && tables["session"] == old(tables)["session"]
    {
      changed := DeleteWhere("message", Bears("session_id", ids));
      ghost var halfway := tables;
      var more := DeleteWhere("session", Bears("id", ids));
      assert tables["message"] == halfway["message"] && halfway["session"] == old(tables)["session"];
      changed := changed + more;
    }

    /** Rows that hang on messages go before the messages, the messages before the sessions. */
    method RemoveSome(ids: set<string>) returns (changed: nat)
      requires "session" in tables && "message" in tables
      modifies this`tables, this`events
      ensures Contents() == Removed(columns, old(Contents()), ids)
      ensures changed == 0 <==> Contents() == old(Contents())
    {
      changed := DeleteAllLinked(ids);
      ghost var linked := tables;
      var events := DeleteEvents(ids);
      var sessions := DeleteSessions(ids);
      changed := changed + events + sessions;
      AllRemoved(columns, old(Contents()), ids, linked, Contents());
    }

    method RemoveMalformedGraph(ids: set<string>) returns (changed: nat)
      requires "session" in tables && "message" in tables
      modifies this`tables, this`events
      ensures Contents() == Removed(columns, old(Contents()), ids)
      ensures changed == 0 <==> Contents() == old(Contents())
    {
      if ids == {} {
        NothingRemoved(columns, Contents());
        return 0;
      }
      changed := RemoveSome(ids);
    }

    method UpdateProject(n: string, project: string, which: Row -> bool) returns (changed: nat)
      modifies this`tables
      ensures tables == if n in old(tables) then old(tables)[n := Attributed(old(tables)[n], project, which)] else old(tables)
      ensures changed == 0 <==> tables == old(tables)
    {
      changed := 0;
      if n in tables {
        changed := Outdated(tables[n], project, which);
        NoneOutdated(tables[n], project, which);
        ghost var before := tables;
        tables := tables[n := Attributed(tables[n], project, which)];
        assert tables == before <==> tables[n] == before[n];
      }
    }

    /** Every directory is entered under the project, then the entries of other projects go. */
    method ReassignDirectories(project: string) returns (changed: nat)
      modifies this`directories
      ensures directories == set d | d in old(directories) :: (project, d.1)
      ensures changed == 0 <==> directories == old(directories)
    {
      var before := directories;
      var inserted := set d | d in before :: (project, d.1);
      directories := before + inserted;
      var kept := set d | d in directories && d.0 == project;
      assert kept == inserted;
      SubsetIsNoLarger(before, directories);
      SubsetIsNoLarger(kept, directories);
      changed := (|directories| - |before|) + (|directories| - |kept|);
      assert kept == before ==> before + inserted == before;
      if changed == 0 {
        SubsetOfSameSize(before, directories);
        SubsetOfSameSize(kept, directories);
      }
      directories := kept;
    }

    method NormalizeRuntimeProject(project: string) returns (changed: nat)
      modifies this`tables, this`directories
      ensures Contents() == Normalized(old(Contents()), project)
      ensures changed == 0 <==> Contents() == old(Contents())
    {
      ghost var before := tables;
      changed := ReassignDirectories(project);
      var workspaces := UpdateProject("workspace", project, Always);
      ghost var halfway := tables;
      var sessions := UpdateProject("session", project, Attributable);
      changed := changed + workspaces + sessions;
      TwoUpdates(before, halfway, tables, project);
    }

    method RemoveAndNormalize(ids: set<string>, project: string) returns (changed: nat)
      requires "session" in tables && "message" in tables
      modifies this`tables, this`directories, this`events
      ensures Contents() == Repaired(columns, old(Contents()), ids, project)
      ensures changed == 0 <==> Contents() == old(Contents())
    {
      changed := RemoveMalformedGraph(ids);
      var attributed := NormalizeRuntimeProject(project);
      changed := changed + attributed;
      NothingChangedTwice(columns, old(Contents()), ids, project);
    }

    /**
     The transaction. It is refused on a session without a text id, on malformed event tables, when the
     project is not there, and when SQLite's checks fail on the outcome; then nothing has changed.
     */
    method Repair(project: string, sound: Store -> bool) returns (r: Result<(nat, nat)>, ghost malformed: set<string>)
      requires "session" in tables && "message" in tables && "project" in tables
      modifies this`tables, this`directories, this`events
      ensures AllIds(old(tables)["session"]) ==> Least(LinksOf(old(tables)["session"]), RepairSeeds(LinksOf(old(tables)["session"])), malformed)
      ensures r.Ok? <==> && AllIds(old(tables)["session"]) && ValidGraph(old(events)) && HasRow(old(tables)["project"], project)
                         && sound(Repaired(columns, old(Contents()), malformed, project))
      ensures r.Ok? ==> Contents() == Repaired(columns, old(Contents()), malformed, project)
      ensures r.Ok? ==> (r.value.0 == 0 <==> Contents() == old(Contents()))
      ensures r.Ok? ==> r.value.1 == Roots(tables["session"], LikeNamed)
      ensures r.Err? ==> Contents() == old(Contents())
    {
      malformed := {};
      if !AllIds(tables["session"]) {
        return Err, malformed;
      }
      var links := LinksOf(tables["session"]);
      var ids := MalformedSessionClosure(links);
      malformed := ids;
      var valid := ValidateEventGraph(events);
      if !valid || !(exists r :: r in tables["project"] && TextField(r, "id") == Some(project)) {
        return Err, malformed;
      }
      var before := Contents();
      var changed := RemoveAndNormalize(ids, project);
      EventsStayValid(before.events, ids);
      var stillValid := ValidateEventGraph(events);
      if !stillValid || !sound(Contents()) {
        tables, directories, events := before.tables, before.directories, before.events;
        return Err, malformed;
      }
      r := Ok((changed, Roots(tables["session"], LikeNamed)));
    }
  }

  /** The linked tables outside `rest` have lost their rows, everything else is as it was. */
  ghost predicate HalfRemoved(columns: Columns, before: Tables, ids: set<string>, rest: set<string>, now: Tables) {
    && now.Keys == before.Keys
    && forall n :: n in now ==>
      now[n] == if n in rest || n == "session" || n == "message" then before[n] else RowsLeft(columns, before, ids, n)
  }

  lemma RowsStay(columns: Columns, before: Tables, ids: set<string>, rest: set<string>, now: Tables, n: string)
    requires HalfRemoved(columns, before, ids, rest, now) && n in rest && n in now && n != "session" && n != "message"
    ensures RowsLeft(columns, now, ids, n) == RowsLeft(columns, before, ids, n)
    ensures HalfRemoved(columns, before, ids, rest - {n}, now[n := RowsLeft(columns, before, ids, n)])
  {
  }

  lemma StillChanged(columns: Columns, before: Tables, ids: set<string>, rest: set<string>, now: Tables, n: string, later: Tables)
    requires HalfRemoved(columns, before, ids, rest, now) && n in rest && n in now && n != "session" && n != "message"
    requires later == now[n := RowsLeft(columns, now, ids, n)] && later != now
    ensures later != before
  {
    assert now[n] == before[n] && later[n] != now[n];
  }

  ghost predicate SessionsRemoved(before: Tables, ids: set<string>, now: Tables) {
    && now.Keys == before.Keys && "session" in before && "message" in before
    && now["message"] == Survivors(before["message"], Bears("session_id", ids))
    && now["session"] == Survivors(before["session"], Bears("id", ids))
    && forall n :: n in now && n != "session" && n != "message" ==> now[n] == before[n]
  }

  lemma AllRemoved(columns: Columns, before: Store, ids: set<string>, linked: Tables, now: Store)
    requires HalfRemoved(columns, before.tables, ids, {}, linked) && SessionsRemoved(linked, ids, now.tables)
    requires now.directories == before.directories && now.events == GraphLeft(before.events, ids)
    ensures now == Removed(columns, before, ids)
    ensures now == before <==>
      (&& linked == before.tables && now.events == before.events
       && now.tables["message"] == linked["message"] && now.tables["session"] == linked["session"])
  {
    assert linked["message"] == before.tables["message"] && linked["session"] == before.tables["session"];
    forall n | n in now.tables
      ensures now.tables[n] == RowsLeft(columns, before.tables, ids, n)
    {
      assert n != "session" && n != "message" ==> now.tables[n] == linked[n];
    }
    UnchangedIff(before.tables, linked, now.tables);
  }

  lemma UnchangedIff(before: Tables, linked: Tables, now: Tables)
    requires now.Keys == linked.Keys == before.Keys && "session" in before && "message" in before
    requires linked["message"] == before["message"] && linked["session"] == before["session"]
    requires forall n :: n in now && n != "session" && n != "message" ==> now[n] == linked[n]
    ensures now == before <==> linked == before && now["message"] == linked["message"] && now["session"] == linked["session"]
  {
    if now == before {
      assert forall n :: n in linked ==> linked[n] == before[n];
    }
  }

  lemma NothingRemoved(columns: Columns, store: Store)
    ensures Removed(columns, store, {}) == store
  {
    forall n | n in store.tables
      ensures RowsLeft(columns, store.tables, {}, n) == store.tables[n]
    {
      AllSurvive(store.tables[n], Bears("id", {}));
      AllSurvive(store.tables[n], Bears("session_id", {}));
      AllSurvive(store.tables[n], Bears("message_id", MessagesOf(RowsOf(store.tables, "message"), {})));
    }
    KeepAll(store.events.sequences, store.events.events, Outside({}));
  }

  lemma {:induction false} KeepAll(sequences: seq<SequenceRow>, events: seq<EventRow>, keep: string -> bool)
    requires (forall r :: r in sequences ==> keep(r.aggregate)) && forall e :: e in events ==> keep(e.aggregate)
    ensures KeptSequences(sequences, keep) == sequences && KeptEvents(events, keep) == events
    decreases |sequences| + |events|
  {
    if sequences != [] {
      KeepAll(sequences[1..], events, keep);
    } else if events != [] {
      KeepAll(sequences, events[1..], keep);
    }
  }

  lemma {:induction false} KeptSequencesSize(rows: seq<SequenceRow>, keep: string -> bool)
    ensures |KeptSequences(rows, keep)| <= |rows|
    ensures |KeptSequences(rows, keep)| == |rows| <==> KeptSequences(rows, keep) == rows
  {
    if rows != [] {
      KeptSequencesSize(rows[1..], keep);
      assert rows == [rows[0]] + rows[1..];
    }
  }

  lemma {:induction false} KeptEventsSize(rows: seq<EventRow>, keep: string -> bool)
    ensures |KeptEvents(rows, keep)| <= |rows|
    ensures |KeptEvents(rows, keep)| == |rows| <==> KeptEvents(rows, keep) == rows
  {
    if rows != [] {
      KeptEventsSize(rows[1..], keep);
      assert rows == [rows[0]] + rows[1..];
    }
  }

  lemma KeptSizes(g: Graph, keep: string -> bool)
    ensures |KeptGraph(g, keep).sequences| <= |g.sequences| && |KeptGraph(g, keep).events| <= |g.events|
    ensures |KeptGraph(g, keep).sequences| == |g.sequences| && |KeptGraph(g, keep).events| == |g.events|
      <==> KeptGraph(g, keep) == g
  {
    KeptSequencesSize(g.sequences, keep);
    KeptEventsSize(g.events, keep);
  }

  /** Removing and attributing cannot cancel out: a store that comes out as it went in was not touched by either. */
  lemma NothingChangedTwice(columns: Columns, before: Store, ids: set<string>, project: string)
    ensures Repaired(columns, before, ids, project) == before <==>
      Removed(columns, before, ids) == before && Normalized(Removed(columns, before, ids), project) == Removed(columns, before, ids)
  {
    var left, after := Removed(columns, before, ids), Repaired(columns, before, ids, project);
    if after == before {
      forall n | n in before.tables
        ensures left.tables[n] == before.tables[n]
      {
        assert |after.tables[n]| == |left.tables[n]|;
      }
      assert left.tables == before.tables;
    }
  }

  lemma EventsStayValid(g: Graph, ids: set<string>)
    requires ValidGraph(g)
    ensures ValidGraph(GraphLeft(g, ids))
  {
    KeptGraphHistories(g, Outside(ids));
  }

  // ---- what the repair keeps -----------------------------------------------------------------------

  /** Sessions without a parent whose name is accepted. */
  function Roots(rows: seq<Row>, named: string -> bool): nat {
    if rows == [] then 0
    else
      var last := rows[|rows| - 1];
      Roots(rows[..|rows| - 1], named)
      + if "id" in last.text && "parent_id" !in last.text && named(last.text["id"]) then 1 else 0
  }

  lemma OneMoreRoot(rows: seq<Row>, last: Row, named: string -> bool)
    ensures Roots(rows + [last], named) ==
      Roots(rows, named) + if "id" in last.text && "parent_id" !in last.text && named(last.text["id"]) then 1 else 0
  {
    assert (rows + [last])[..|rows|] == rows;
  }

  lemma OneMoreSurvivor(rows: seq<Row>, n: nat, doomed: Row -> bool)
    requires n + 1 == |rows|
    ensures Survivors(rows, doomed) ==
      if doomed(rows[n]) then Survivors(rows[..n], doomed) else Survivors(rows[..n], doomed) + [rows[n]]
  {
  }

  lemma {:induction false} RootsSplit(rows: seq<Row>, malformed: set<string>)
    requires forall r :: r in rows && "id" in r.text && "parent_id" !in r.text ==> (r.text["id"] in malformed <==> !WellNamed(r.text["id"]))
    ensures Roots(Survivors(rows, Bears("id", malformed)), LikeNamed) == Roots(rows, WellNamed)
  {
    if rows != [] {
      var n := |rows| - 1;
      RootsSplit(rows[..n], malformed);
      assert rows[n] in rows;
      OneMoreSurvivor(rows, n, Bears("id", malformed));
      OneMoreRoot(Survivors(rows[..n], Bears("id", malformed)), rows[n], LikeNamed);
    }
  }

  lemma {:induction false} RootsAttributed(rows: seq<Row>, project: string)
    ensures Roots(Attributed(rows, project, Attributable), LikeNamed) == Roots(rows, LikeNamed)
  {
    if rows != [] {
      var n := |rows| - 1;
      RootsAttributed(rows[..n], project);
      var after := Attributed(rows, project, Attributable);
      assert after[..n] == Attributed(rows[..n], project, Attributable);
    }
  }

  /** A session without parents is malformed only by its own name. */
  lemma RootIsMalformedIff(rows: seq<Row>, malformed: set<string>, r: Row)
    requires AllIds(rows) && UniqueIds(rows) && Least(LinksOf(rows), RepairSeeds(LinksOf(rows)), malformed)
    requires r in rows && "id" in r.text && "parent_id" !in r.text
    ensures r.text["id"] in malformed <==> !WellNamed(r.text["id"])
  {
    var id, parents := r.text["id"], SessionParents(rows);
    SessionParentsOf(rows);
    RowIsLinked(rows, r);
    OverwrittenAt(rows, ParentField(), r);
    RepairMeaning(LinksOf(rows), parents, malformed, id);
    if k: nat :| BadAncestor(parents, id, k) {
      assert k == 0;
    }
    assert BadAncestor(parents, id, 0) <==> !WellNamed(id);
  }

  /**
     The roots reported after the repair are the well-named roots from before it. The query ignores case, so its
     count can have been higher before: exactly by the roots it takes for sessions and the repair removes.
   */
  lemma RootsConserved(columns: Columns, store: Store, malformed: set<string>, project: string)
    requires "session" in store.tables && AllIds(store.tables["session"]) && UniqueIds(store.tables["session"])
    requires Least(LinksOf(store.tables["session"]), RepairSeeds(LinksOf(store.tables["session"])), malformed)
    ensures Roots(Repaired(columns, store, malformed, project).tables["session"], LikeNamed) == Roots(store.tables["session"], WellNamed)
    ensures Roots(store.tables["session"], LikeNamed) == Roots(store.tables["session"], WellNamed)
      <==> forall r :: r in store.tables["session"] && "parent_id" !in r.text && LikeNamed(r.text["id"]) ==> WellNamed(r.text["id"])
  {
    var rows := store.tables["session"];
    forall r | r in rows && "id" in r.text && "parent_id" !in r.text
      ensures r.text["id"] in malformed <==> !WellNamed(r.text["id"])
    {
      RootIsMalformedIff(rows, malformed, r);
    }
    RootsSplit(rows, malformed);
    RootsAttributed(Survivors(rows, Bears("id", malformed)), project);
    WronglyCasedRoots(rows);
  }

  /** The query takes this name for a session's, the check of names does not. */
  lemma WrongCase()
    ensures LikeNamed("SES_1") && !WellNamed("SES_1")
  {
    assert "SES_1"[..4] == "SES_";
  }

  lemma {:induction false} WronglyCasedRoots(rows: seq<Row>)
    requires AllIds(rows)
    ensures Roots(rows, WellNamed) <= Roots(rows, LikeNamed)
    ensures Roots(rows, LikeNamed) == Roots(rows, WellNamed)
      <==> forall r :: r in rows && "parent_id" !in r.text && LikeNamed(r.text["id"]) ==> WellNamed(r.text["id"])
  {
    if rows != [] {
      var n := |rows| - 1;
      WronglyCasedRoots(rows[..n]);
      assert rows == rows[..n] + [rows[n]];
    }
  }

  lemma SurvivorIsSound(rows: seq<Row>, malformed: set<string>, r: Row)
    requires AllIds(rows) && Least(LinksOf(rows), RepairSeeds(LinksOf(rows)), malformed)
    requires r in rows && !TextIn(r, "id", malformed)
    ensures "id" in r.text && WellNamed(r.text["id"])
    ensures "parent_id" in r.text ==> r.text["parent_id"] !in malformed && WellNamed(r.text["parent_id"])
  {
    var i :| 0 <= i < |rows| && rows[i] == r;
    var l := LinksOf(rows)[i];
    assert l in LinksOf(rows) && Follows(malformed, l);
    assert l.id !in RepairSeeds(LinksOf(rows));
  }

  predicate SoundRow(r: Row) {
    "id" in r.text && WellNamed(r.text["id"]) && ("parent_id" in r.text ==> WellNamed(r.text["parent_id"]))
  }

  lemma SoundRowsHaveNoSeeds(rows: seq<Row>)
    requires forall i :: 0 <= i < |rows| ==> SoundRow(rows[i])
    ensures AllIds(rows) && Least(LinksOf(rows), RepairSeeds(LinksOf(rows)), {})
  {
    forall l | l in LinksOf(rows)
      ensures WellNamed(l.id) && !BadParent(l)
    {
      var i :| 0 <= i < |rows| && LinksOf(rows)[i] == l;
      assert SoundRow(rows[i]);
    }
    assert RepairSeeds(LinksOf(rows)) == {};
  }

  /** Attribution touches the project alone: the row was there before, the same in every other column. */
  lemma AttributedFrom(rows: seq<Row>, project: string, n: string, r: Row) returns (q: Row)
    requires r in TableAttributed(rows, project, n)
    ensures q in rows && forall column :: column != "project_id" ==> TextField(r, column) == TextField(q, column)
  {
    var after := TableAttributed(rows, project, n);
    var i :| 0 <= i < |after| && after[i] == r;
    q := rows[i];
  }

  lemma SameText(r: Row, q: Row, ids: set<string>)
    requires forall column :: column != "project_id" ==> TextField(r, column) == TextField(q, column)
    ensures forall column :: column != "project_id" ==> TextIn(r, column, ids) == TextIn(q, column, ids)
  {
    forall column | column != "project_id"
      ensures TextIn(r, column, ids) == TextIn(q, column, ids)
    {
      assert TextField(r, column) == TextField(q, column);
    }
  }

  lemma LeftIsSound(columns: Columns, tables: Tables, malformed: set<string>, n: string, r: Row)
    requires "session" in tables && "message" in tables && AllIds(tables["session"])
    requires Least(LinksOf(tables["session"]), RepairSeeds(LinksOf(tables["session"])), malformed)
    requires n in tables && r in RowsLeft(columns, tables, malformed, n)
    ensures n == "session" ==> SoundRow(r) && !TextIn(r, "id", malformed) && !TextIn(r, "parent_id", malformed)
    ensures n == "message" ==> !TextIn(r, "session_id", malformed)
    ensures Linked(n) && n in columns && "message_id" in columns[n] ==>
      !TextIn(r, "message_id", MessagesOf(tables["message"], malformed))
    ensures Linked(n) && n in columns && "message_id" !in columns[n] && "session_id" in columns[n] ==>
      !TextIn(r, "session_id", malformed)
  {
    if n == "session" {
      SurvivorIsSound(tables["session"], malformed, r);
    }
  }

  predicate Linked(n: string) {
    n != "session" && n != "message"
  }

  /**
     No surviving session has a removed parent, no message a removed session. A row of a linked table hangs on no removed
     message or, if the table has no column for messages, on no removed session.
   */
  lemma NothingDangles(columns: Columns, store: Store, malformed: set<string>, project: string, n: string, r: Row)
    requires "session" in store.tables && "message" in store.tables && AllIds(store.tables["session"])
    requires Least(LinksOf(store.tables["session"]), RepairSeeds(LinksOf(store.tables["session"])), malformed)
    requires n in store.tables && r in Repaired(columns, store, malformed, project).tables[n]
    ensures n == "session" ==> SoundRow(r) && !TextIn(r, "id", malformed) && !TextIn(r, "parent_id", malformed)
    ensures n == "message" ==> !TextIn(r, "session_id", malformed)
    ensures Linked(n) && n in columns && "message_id" in columns[n] ==>
      !TextIn(r, "message_id", MessagesOf(store.tables["message"], malformed))
    ensures Linked(n) && n in columns && "message_id" !in columns[n] && "session_id" in columns[n] ==>
      !TextIn(r, "session_id", malformed)
  {
    var q := AttributedFrom(RowsLeft(columns, store.tables, malformed, n), project, n, r);
    LeftIsSound(columns, store.tables, malformed, n, q);
    SameText(r, q, malformed);
    SameText(r, q, MessagesOf(store.tables["message"], malformed));
    assert TextField(r, "id") == TextField(q, "id") && TextField(r, "parent_id") == TextField(q, "parent_id");
  }

  lemma AttributedTo(rows: seq<Row>, project: string, n: string, q: Row) returns (r: Row)
    requires q in rows
    ensures r in TableAttributed(rows, project, n)
    ensures forall column :: column != "project_id" ==> TextField(r, column) == TextField(q, column)
  {
    var i :| 0 <= i < |rows| && rows[i] == q;
    r := TableAttributed(rows, project, n)[i];
  }

  /** The row of a linked table names a session of the set. */
  predicate NamesSession(columns: Columns, tables: Tables, ids: set<string>, n: string, r: Row) {
    n in tables && Linked(n) && n in columns && "session_id" in columns[n] && r in tables[n] && TextIn(r, "session_id", ids)
  }

  /** The table has a column for messages, and the row's message stays: only that column is looked at. */
  predicate SavedByMessage(columns: Columns, tables: Tables, ids: set<string>, n: string, r: Row) {
    n in columns && "message_id" in columns[n] && !TextIn(r, "message_id", MessagesOf(RowsOf(tables, "message"), ids))
  }

  lemma StaysIff(columns: Columns, tables: Tables, ids: set<string>, n: string, q: Row)
    requires NamesSession(columns, tables, ids, n, q)
    ensures q in RowsLeft(columns, tables, ids, n) <==> SavedByMessage(columns, tables, ids, n, q)
  {
  }

  /** No surviving row names a removed session, exactly when no row that does has a message that stays. */
  lemma NoneNamesRemovedIff(columns: Columns, store: Store, malformed: set<string>, project: string)
    ensures (forall n, r :: !NamesSession(columns, Repaired(columns, store, malformed, project).tables, malformed, n, r))
      <==> (forall n, q :: NamesSession(columns, store.tables, malformed, n, q) ==>
                             !SavedByMessage(columns, store.tables, malformed, n, q))
  {
    var after := Repaired(columns, store, malformed, project).tables;
    forall n, q | NamesSession(columns, store.tables, malformed, n, q) && SavedByMessage(columns, store.tables, malformed, n, q)
      ensures exists r :: NamesSession(columns, after, malformed, n, r)
    {
      StaysIff(columns, store.tables, malformed, n, q);
      var r := AttributedTo(RowsLeft(columns, store.tables, malformed, n), project, n, q);
      SameText(r, q, malformed);
      assert NamesSession(columns, after, malformed, n, r);
    }
    forall n, r | NamesSession(columns, after, malformed, n, r)
      ensures exists q :: NamesSession(columns, store.tables, malformed, n, q) && SavedByMessage(columns, store.tables, malformed, n, q)
    {
      var q := AttributedFrom(RowsLeft(columns, store.tables, malformed, n), project, n, r);
      SameText(r, q, malformed);
      LeftWasThere(columns, store.tables, malformed, n, q);
      StaysIff(columns, store.tables, malformed, n, q);
    }
  }

  lemma LeftWasThere(columns: Columns, tables: Tables, ids: set<string>, n: string, r: Row)
    requires n in tables && r in RowsLeft(columns, tables, ids, n)
    ensures r in tables[n]
  {
  }

  /** A part of a removed session stays when its message is of another one. */
  lemma RemovedCanBeNamed(store: Store, message: Row, part: Row, project: string)
    requires message == Row(map["id" := "m", "session_id" := "ses_1"], [])
    requires part == Row(map["message_id" := "m", "session_id" := "old"], [])
    requires "session" in store.tables && store.tables["session"] == [Row(map["id" := "old"], []), Row(map["id" := "ses_1"], [])]
    requires "message" in store.tables && store.tables["message"] == [message]
    requires "part" in store.tables && store.tables["part"] == [part]
    ensures AllIds(store.tables["session"])
    ensures Least(LinksOf(store.tables["session"]), RepairSeeds(LinksOf(store.tables["session"])), {"old"})
    ensures part in Repaired(map["part" := {"message_id", "session_id"}], store, {"old"}, project).tables["part"]
  {
    var columns: Columns, links := map["part" := {"message_id", "session_id"}], LinksOf(store.tables["session"]);
    assert links == [Link("old", None), Link("ses_1", None)];
    assert !WellNamed("old") && WellNamed("ses_1");
    assert RepairSeeds(links) == {"old"} by {
      assert Link("old", None) in links && Link("ses_1", None) in links;
    }
    StaysIff(columns, store.tables, {"old"}, "part", part);
  }

  /** The directories are the same set, all of the one project, and so are the workspaces and sessions left. */
  lemma AllOfTheProject(columns: Columns, store: Store, malformed: set<string>, project: string)
    requires "session" in store.tables && AllIds(store.tables["session"])
    requires Least(LinksOf(store.tables["session"]), RepairSeeds(LinksOf(store.tables["session"])), malformed)
    ensures var after := Repaired(columns, store, malformed, project);
      && (forall p, d :: (p, d) in after.directories <==> p == project && exists q :: (q, d) in store.directories)
      && (forall r :: r in after.tables["session"] ==> TextField(r, "project_id") == Some(project))
      && ("workspace" in after.tables ==> forall r :: r in after.tables["workspace"] ==> TextField(r, "project_id") == Some(project))
  {
    var after := Repaired(columns, store, malformed, project);
    forall p, d | p == project && exists q :: (q, d) in store.directories
      ensures (p, d) in after.directories
    {
      var q :| (q, d) in store.directories;
      assert (project, (q, d).1) in after.directories;
    }
    var rows, left := store.tables["session"], RowsLeft(columns, store.tables, malformed, "session");
    forall i | 0 <= i < |left|
      ensures Attributable(left[i])
    {
      assert left[i] in left;
      SurvivorIsSound(rows, malformed, left[i]);
    }
  }

  /** Nothing is malformed in a repaired store. */
  lemma NoneMalformedAfter(columns: Columns, store: Store, malformed: set<string>, project: string)
    requires "session" in store.tables && AllIds(store.tables["session"])
    requires Least(LinksOf(store.tables["session"]), RepairSeeds(LinksOf(store.tables["session"])), malformed)
    ensures var rows := Repaired(columns, store, malformed, project).tables["session"];
      AllIds(rows) && Least(LinksOf(rows), RepairSeeds(LinksOf(rows)), {})
  {
    var left := RowsLeft(columns, store.tables, malformed, "session");
    var rows := Attributed(left, project, Attributable);
    forall i | 0 <= i < |rows|
      ensures SoundRow(rows[i])
    {
      assert left[i] in left;
      SurvivorIsSound(store.tables["session"], malformed, left[i]);
    }
    SoundRowsHaveNoSeeds(rows);
  }

  lemma NormalizedIsFixed(store: Store, project: string)
    requires forall d :: d in store.directories ==> d.0 == project
    requires forall n :: n in store.tables && (n == "session" || n == "workspace") ==>
      forall r :: r in store.tables[n] ==> TextField(r, "project_id") == Some(project)
    ensures Normalized(store, project) == store
  {
    forall n | n in store.tables
      ensures TableAttributed(store.tables[n], project, n) == store.tables[n]
    {
      if n == "session" || n == "workspace" {
        AttributedTwice(store.tables[n], project, if n == "session" then Attributable else Always);
      }
    }
    assert Normalized(store, project).tables == store.tables;
    assert Normalized(store, project).directories == store.directories by {
      assert forall d :: d in store.directories ==> (project, d.1) == d;
    }
  }

  /** A second repair under the same project finds nothing to remove and changes no row. */
  lemma RepairedIsFixed(columns: Columns, store: Store, malformed: set<string>, project: string)
    requires "session" in store.tables && AllIds(store.tables["session"])
    requires Least(LinksOf(store.tables["session"]), RepairSeeds(LinksOf(store.tables["session"])), malformed)
    ensures var after := Repaired(columns, store, malformed, project);
      Repaired(columns, after, {}, project) == after
  {
    var after := Repaired(columns, store, malformed, project);
    NothingRemoved(columns, after);
    AllOfTheProject(columns, store, malformed, project);
    NormalizedIsFixed(after, project);
  }

  lemma AttributedTwice(rows: seq<Row>, project: string, which: Row -> bool)
    requires forall r :: r in rows ==> TextField(r, "project_id") == Some(project)
    ensures Attributed(rows, project, which) == rows
  {
    forall i | 0 <= i < |rows|
      ensures Attributed(rows, project, which)[i] == rows[i]
    {
      assert rows[i] in rows;
      AttributedAlready(rows[i], project);
    }
  }

  /** Only the removed sessions lose their event histories. */
  lemma HistoriesLeft(store: Store, columns: Columns, malformed: set<string>, project: string)
    requires ValidGraph(store.events)
    ensures var after := Repaired(columns, store, malformed, project);
      ValidGraph(after.events)
      && HistoriesOf(after.events) == map a | a in HistoriesOf(store.events) && a !in malformed :: HistoriesOf(store.events)[a]
  {
    KeptGraphHistories(store.events, Outside(malformed));
    assert forall a :: Outside(malformed)(a) <==> a !in malformed;
  }
}
