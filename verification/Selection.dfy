/**
 The rows each destination is given. Every row that hangs on a session goes to one destination,
 with everything it refers to; projects and workspaces are copied to every destination that
 needs them.
 */
module Selection {
  import opened Wrappers
  import opened EventGraph
  import opened EventStore
  import opened SessionForest
  import opened Quarantine
  import opened Routing
  import opened SessionRouting

  predicate TextIn(row: Row, column: string, ids: set<string>) {
    column in row.text && row.text[column] in ids
  }

  function Home(table: string, row: Row, routing: Attribution): string {
    var to := RowDestination(table, row, routing);
    if to.Some? then to.value else LEGACY_GLOBAL
  }

  /** Whether the destination is given this row. */
  predicate Kept(identify: Identify, destination: string, table: string, row: Row, routing: Attribution) {
    if table in SCHEMA_TABLES then true
    else if table !in GRAPH_TABLES then false
    else if table == "project" then TextIn(row, "id", At(routing.destinationProjects, destination))
    else if table == "workspace" then TextIn(row, "id", At(routing.destinationWorkspaces, destination))
    else if table == "project_directory" then
      Identity(identify, row, "directory") == Some(destination)
      && TextIn(row, "project_id", At(routing.destinationProjects, destination))
    else
      !(destination == LEGACY_GLOBAL && RowIsMalformed(table, row, routing)) && Home(table, row, routing) == destination
  }

  function KeptRows(identify: Identify, destination: string, table: string, rows: seq<Row>, routing: Attribution): seq<Row> {
    if rows == [] then []
    else
      var before, last := KeptRows(identify, destination, table, rows[..|rows| - 1], routing), rows[|rows| - 1];
      if Kept(identify, destination, table, last, routing) then before + [last] else before
  }

  method SelectTable(identify: Identify, destination: string, table: string, rows: seq<Row>, routing: Attribution)
    returns (output: seq<Row>)
    ensures output == KeptRows(identify, destination, table, rows, routing)
  {
    output := [];
    if table !in GRAPH_TABLES && table !in SCHEMA_TABLES {
      NoneKept(identify, destination, table, rows, routing);
      return;
    }
    for i := 0 to |rows|
      invariant output == KeptRows(identify, destination, table, rows[..i], routing)
    {
      var row := rows[i];
      assert rows[..i + 1][..i] == rows[..i];
      if table in SCHEMA_TABLES {
        output := output + [row];
        continue;
      }
      if table == "project" {
        if TextIn(row, "id", At(routing.destinationProjects, destination)) {
          output := output + [row];
        }
        continue;
      }
      if table == "workspace" {
        if TextIn(row, "id", At(routing.destinationWorkspaces, destination)) {
          output := output + [row];
        }
        continue;
      }
      if table == "project_directory" {
        var directoryMatches := Identity(identify, row, "directory") == Some(destination);
        var requiredProject := TextIn(row, "project_id", At(routing.destinationProjects, destination));
        if directoryMatches && requiredProject {
          output := output + [row];
        }
        continue;
      }
      if destination == LEGACY_GLOBAL && RowIsMalformed(table, row, routing) {
        continue;
      }
      if Home(table, row, routing) == destination {
        output := output + [row];
      }
    }
    assert rows[..|rows|] == rows;
  }

  lemma {:induction false} NoneKept(identify: Identify, destination: string, table: string, rows: seq<Row>, routing: Attribution)
    requires table !in GRAPH_TABLES && table !in SCHEMA_TABLES
    ensures KeptRows(identify, destination, table, rows, routing) == []
  {
    if rows != [] {
      NoneKept(identify, destination, table, rows[..|rows| - 1], routing);
    }
  }

  method SelectRows(identify: Identify, destination: string, tables: Tables, routing: Attribution) returns (selected: Tables)
    ensures selected.Keys == tables.Keys
    ensures forall n :: n in tables ==> selected[n] == KeptRows(identify, destination, n, tables[n], routing)
  {
    selected := map[];
    var rest := tables.Keys;
    while rest != {}
      invariant rest <= tables.Keys && selected.Keys == tables.Keys - rest
      invariant forall n :: n in selected ==> selected[n] == KeptRows(identify, destination, n, tables[n], routing)
      decreases rest
    {
      var n :| n in rest;
      var output := SelectTable(identify, destination, n, tables[n], routing);
      selected := selected[n := output];
      rest := rest - {n};
    }
  }

  /** Exactly the rows that are kept, as often as they were there. */
  lemma {:induction false} KeptRowsCount(identify: Identify, destination: string, table: string, rows: seq<Row>,
                                         routing: Attribution, r: Row)
    ensures multiset(KeptRows(identify, destination, table, rows, routing))[r] ==
      if Kept(identify, destination, table, r, routing) then multiset(rows)[r] else 0
  {
    if rows != [] {
      var n := |rows| - 1;
      KeptRowsCount(identify, destination, table, rows[..n], routing, r);
      assert rows == rows[..n] + [rows[n]];
    }
  }

  // ---- one destination for every row ------------------------------------------------------------

  /** The tables outside the claim: shared ancestors, duplicated to every destination that needs them. */
  predicate Shared(table: string) {
    table == "project" || table == "workspace" || table == "project_directory"
  }

  /** The row's only link is to a project. */
  predicate OnlyProject(table: string, row: Row) {
    && table != "session" && table != "message" && table != "event" && table != "event_sequence"
    && "session_id" !in row.text && "message_id" !in row.text && "project_id" in row.text
  }

  predicate Dropped(table: string, row: Row, routing: Attribution) {
    Home(table, row, routing) == LEGACY_GLOBAL && RowIsMalformed(table, row, routing)
  }

  lemma MessageRoutesAreSessionRoutes(sessions: Routes, rows: seq<Row>)
    ensures MessageRoutes(sessions, rows).Values <= sessions.Values
  {
    forall id | id in MessageRoutes(sessions, rows)
      ensures MessageRoutes(sessions, rows)[id] in sessions.Values
    {
      OnlyClaimed(Claimed(rows, "id", SessionDestination(sessions)), id);
      var c :| c in Claimed(rows, "id", SessionDestination(sessions)) && c.0 == id && c.1 == MessageRoutes(sessions, rows)[id];
      ClaimedBy(rows, "id", SessionDestination(sessions), c);
    }
  }

  ghost predicate DestinationsCover(tables: Tables, routing: Attribution) {
    && routing.messages.Values <= routing.sessions.Values <= routing.destinations
    && (Unattributed(tables, routing) ==> LEGACY_GLOBAL in routing.destinations)
  }

  lemma RoutedCovers(identify: Identify, tables: Tables, quarantine: bool, routing: Attribution)
    requires AllIds(RowsOf(tables, "session")) && Routed(identify, tables, quarantine, routing)
    ensures DestinationsCover(tables, routing)
  {
    MessageRoutesAreSessionRoutes(routing.sessions, RowsOf(tables, "message"));
  }

  lemma RoutesAreDestinations(routes: Routes, id: Option<string>, destinations: set<string>)
    requires routes.Values <= destinations
    ensures Lookup(routes, id).Some? ==> Lookup(routes, id).value in destinations
  {
  }

  /** A row with no route makes legacy-global a destination, a routed one goes to a destination of some session. */
  lemma HomeIsDestination(tables: Tables, routing: Attribution, table: string, row: Row)
    requires DestinationsCover(tables, routing)
    requires table in tables && table in GRAPH_TABLES && !Shared(table) && row in tables[table] && !OnlyProject(table, row)
    ensures Home(table, row, routing) in routing.destinations
  {
    if RowDestination(table, row, routing).None? {
      assert Unattributed(tables, routing);
    } else {
      RoutesAreDestinations(routing.sessions, TextField(row, "id"), routing.destinations);
      RoutesAreDestinations(routing.sessions, TextField(row, "session_id"), routing.destinations);
      RoutesAreDestinations(routing.sessions, TextField(row, "aggregate_id"), routing.destinations);
      RoutesAreDestinations(routing.messages, TextField(row, "message_id"), routing.destinations);
      RoutesAreDestinations(routing.messages, TextField(row, "id"), routing.destinations);
    }
  }

  lemma NotSchema(table: string)
    requires table in GRAPH_TABLES
    ensures table !in SCHEMA_TABLES
  {
    assert GRAPH_TABLES !! SCHEMA_TABLES;
  }

  /**
     Conservation: a row is in the plan of one destination, its home, unless it is dropped with a quarantined
     session or its home, known only from a project, is no destination.
   */
  lemma KeptOnce(identify: Identify, tables: Tables, quarantine: bool, routing: Attribution, table: string, row: Row)
    requires AllIds(RowsOf(tables, "session")) && Routed(identify, tables, quarantine, routing)
    requires table in tables && table in GRAPH_TABLES && !Shared(table) && row in tables[table]
    ensures forall d :: d in routing.destinations && Kept(identify, d, table, row, routing) ==> d == Home(table, row, routing)
    ensures (exists d :: d in routing.destinations && Kept(identify, d, table, row, routing)) <==>
      !Dropped(table, row, routing) && Home(table, row, routing) in routing.destinations
    ensures !OnlyProject(table, row) ==> Home(table, row, routing) in routing.destinations
  {
    RoutedCovers(identify, tables, quarantine, routing);
    if !OnlyProject(table, row) {
      HomeIsDestination(tables, routing, table, row);
    }
    NotSchema(table);
    assert Kept(identify, Home(table, row, routing), table, row, routing) <==> !Dropped(table, row, routing);
  }

  // ---- what hangs on a quarantined session ------------------------------------------------------------

  /** Without quarantine nothing is dropped. */
  lemma NothingDropped(identify: Identify, tables: Tables, routing: Attribution, table: string, row: Row)
    requires AllIds(RowsOf(tables, "session")) && Routed(identify, tables, false, routing)
    ensures !Dropped(table, row, routing)
  {
  }

  lemma QuarantinedGoToLegacy(identify: Identify, tables: Tables, routing: Attribution, id: string)
    requires AllIds(RowsOf(tables, "session")) && Routed(identify, tables, true, routing)
    requires id in routing.malformedSessions
    ensures Lookup(routing.sessions, Some(id)) == Some(LEGACY_GLOBAL)
  {
    var rows := RowsOf(tables, "session");
    LinkedHasRow(rows, id);
    MalformedToLegacy(rows, DirectRoutes(identify, routing.workspaces, routing.projects, rows), routing.malformedSessions,
                      routing.sessions, id);
  }

  lemma QuarantinedMessage(identify: Identify, tables: Tables, routing: Attribution, id: string)
    requires AllIds(RowsOf(tables, "session")) && Routed(identify, tables, true, routing)
    requires UniqueIds(RowsOf(tables, "message")) && id in routing.malformedMessages
    ensures Lookup(routing.messages, Some(id)) == Some(LEGACY_GLOBAL)
  {
    var messages := RowsOf(tables, "message");
    var m :| m in messages && InMalformed(routing.malformedSessions, m) && m.text["id"] == id;
    QuarantinedGoToLegacy(identify, tables, routing, m.text["session_id"]);
    OverwrittenAt(messages, SessionDestination(routing.sessions), m);
  }

  /** The row names a quarantined session, or a message or the aggregate of one. */
  predicate Hangs(table: string, row: Row, routing: Attribution) {
    if table == "session" then TextIn(row, "id", routing.malformedSessions)
    else
      || TextIn(row, "session_id", routing.malformedSessions)
      || TextIn(row, "message_id", routing.malformedMessages)
      || ((table == "event" || table == "event_sequence") && TextIn(row, "aggregate_id", routing.malformedSessions))
  }

  /** The first link of the row, which is all that is looked at, is not to anything quarantined. */
  predicate SavedByFirstLink(table: string, row: Row, routing: Attribution) {
    && table != "session"
    && if "session_id" in row.text then row.text["session_id"] !in routing.malformedSessions
       else "message_id" in row.text && row.text["message_id"] !in routing.malformedMessages
  }

  /** Of the rows that hang on a quarantined session exactly those are dropped that do not name another session, or message, first. */
  lemma QuarantinedIsDroppedIff(identify: Identify, tables: Tables, routing: Attribution, table: string, row: Row)
    requires AllIds(RowsOf(tables, "session")) && Routed(identify, tables, true, routing)
    requires UniqueIds(RowsOf(tables, "message")) && Hangs(table, row, routing)
    ensures Dropped(table, row, routing) <==> !SavedByFirstLink(table, row, routing)
  {
    if RowIsMalformed(table, row, routing) {
      if table == "session" {
        QuarantinedGoToLegacy(identify, tables, routing, row.text["id"]);
      } else if "session_id" in row.text {
        QuarantinedGoToLegacy(identify, tables, routing, row.text["session_id"]);
      } else if "message_id" in row.text {
        QuarantinedMessage(identify, tables, routing, row.text["message_id"]);
      } else {
        QuarantinedGoToLegacy(identify, tables, routing, row.text["aggregate_id"]);
      }
    }
  }

  /** In some plan after all, then, are exactly those that do. */
  lemma HangingKeptIff(identify: Identify, tables: Tables, routing: Attribution, table: string, row: Row)
    requires AllIds(RowsOf(tables, "session")) && Routed(identify, tables, true, routing)
    requires UniqueIds(RowsOf(tables, "message")) && Hangs(table, row, routing)
    requires table in tables && table in GRAPH_TABLES && !Shared(table) && row in tables[table]
    ensures (exists d :: d in routing.destinations && Kept(identify, d, table, row, routing)) <==> SavedByFirstLink(table, row, routing)
  {
    KeptOnce(identify, tables, true, routing, table, row);
    QuarantinedIsDroppedIff(identify, tables, routing, table, row);
  }

  // ---- rows whose only link is a project ------------------------------------------------------------

  ghost predicate MessageRouted(tables: Tables, id: string) {
    exists m :: m in RowsOf(tables, "message") && TextField(m, "id") == Some(id) && OfSomeSession(tables, m)
  }

  ghost predicate OfSomeSession(tables: Tables, row: Row) {
    "session_id" in row.text && HasRow(RowsOf(tables, "session"), row.text["session_id"])
  }

  /** The row leads neither to a session of the source nor to a project with a route. */
  ghost predicate Unrouted(identify: Identify, tables: Tables, n: string, r: Row) {
    if n == "session" then false
    else if "session_id" in r.text then !HasRow(RowsOf(tables, "session"), r.text["session_id"])
    else if "message_id" in r.text then !MessageRouted(tables, r.text["message_id"])
    else if n == "message" then "id" !in r.text || !MessageRouted(tables, r.text["id"])
    else if n == "event" || n == "event_sequence" then
      "aggregate_id" !in r.text || !HasRow(RowsOf(tables, "session"), r.text["aggregate_id"])
    else if "project_id" in r.text then r.text["project_id"] !in ProjectRoutes(identify, tables)
    else if n == "project" || n == "workspace" then "id" !in r.text
    else true
  }

  lemma SessionsAreRouted(identify: Identify, tables: Tables, quarantine: bool, routing: Attribution, id: string)
    requires AllIds(RowsOf(tables, "session")) && Routed(identify, tables, quarantine, routing)
    ensures id in routing.sessions <==> HasRow(RowsOf(tables, "session"), id)
  {
    assert Lookup(routing.sessions, Some(id)).Some? <==> HasRow(RowsOf(tables, "session"), id);
  }

  lemma MessagesAreRouted(identify: Identify, tables: Tables, quarantine: bool, routing: Attribution, id: string)
    requires AllIds(RowsOf(tables, "session")) && Routed(identify, tables, quarantine, routing)
    ensures id in routing.messages <==> MessageRouted(tables, id)
  {
    var rows, to := RowsOf(tables, "message"), SessionDestination(routing.sessions);
    OnlyClaimed(Claimed(rows, "id", to), id);
    if id in routing.messages {
      ClaimedBy(rows, "id", to, (id, routing.messages[id]));
      var m :| m in rows && TextField(m, "id") == Some(id) && to(m) == Some(routing.messages[id]);
      SessionsAreRouted(identify, tables, quarantine, routing, m.text["session_id"]);
      assert OfSomeSession(tables, m);
    }
    if MessageRouted(tables, id) {
      var m :| m in rows && TextField(m, "id") == Some(id) && OfSomeSession(tables, m);
      SessionsAreRouted(identify, tables, quarantine, routing, m.text["session_id"]);
      ClaimedBy(rows, "id", to, (id, routing.sessions[m.text["session_id"]]));
    }
  }

  lemma OwnersAreRouted(identify: Identify, tables: Tables, projects: Routes, n: string, r: Row)
    requires (n == "project" || n == "workspace") && r in RowsOf(tables, n) && "id" in r.text
    ensures r.text["id"] in if n == "project" then ProjectRoutes(identify, tables) else WorkspaceRoutes(identify, projects, tables)
  {
    var id := r.text["id"];
    assert TextField(r, "id") == Some(id) && HasRow(RowsOf(tables, n), id);
    if n == "project" {
      var named := Overwritten(Claimed(RowsOf(tables, n), "id", OwnIdentity(identify)));
      var claims := Claimed(RowsOf(tables, "project_directory"), "project_id", DirectoryIdentity(identify));
      DefaultedAt(AllConsistent(named, claims), RowsOf(tables, n), id);
    } else {
      DefaultedAt(AllConsistent(map[], Claimed(RowsOf(tables, n), "id", WorkspaceDestination(identify, projects))), RowsOf(tables, n), id);
    }
  }

  lemma UnroutedAt(identify: Identify, tables: Tables, routing: Attribution, n: string, r: Row)
    requires n == "session" ==> "id" in r.text && r.text["id"] in routing.sessions
    requires "session_id" in r.text ==> (r.text["session_id"] in routing.sessions <==> HasRow(RowsOf(tables, "session"), r.text["session_id"]))
    requires "aggregate_id" in r.text ==>
      (r.text["aggregate_id"] in routing.sessions <==> HasRow(RowsOf(tables, "session"), r.text["aggregate_id"]))
    requires "message_id" in r.text ==> (r.text["message_id"] in routing.messages <==> MessageRouted(tables, r.text["message_id"]))
    requires "id" in r.text ==> (r.text["id"] in routing.messages <==> MessageRouted(tables, r.text["id"]))
    requires "project_id" in r.text ==> (r.text["project_id"] in routing.projects <==> r.text["project_id"] in ProjectRoutes(identify, tables))
    requires n == "project" && "id" in r.text ==> r.text["id"] in routing.projects
    requires n == "workspace" && "id" in r.text ==> r.text["id"] in routing.workspaces
    ensures RowDestination(n, r, routing).None? <==> Unrouted(identify, tables, n, r)
  {
  }

  lemma UnroutedIff(identify: Identify, tables: Tables, quarantine: bool, routing: Attribution, n: string, r: Row)
    requires AllIds(RowsOf(tables, "session")) && Routed(identify, tables, quarantine, routing)
    requires n in tables && r in tables[n]
    ensures RowDestination(n, r, routing).None? <==> Unrouted(identify, tables, n, r)
  {
    forall id
      ensures id in routing.sessions <==> HasRow(RowsOf(tables, "session"), id)
      ensures id in routing.messages <==> MessageRouted(tables, id)
    {
      SessionsAreRouted(identify, tables, quarantine, routing, id);
      MessagesAreRouted(identify, tables, quarantine, routing, id);
    }
    if n == "session" {
      assert TextField(r, "id") == Some(r.text["id"]) && HasRow(tables[n], r.text["id"]);
    }
    if (n == "project" || n == "workspace") && "id" in r.text {
      OwnersAreRouted(identify, tables, routing.projects, n, r);
    }
    UnroutedAt(identify, tables, routing, n, r);
  }

  /** Some session of the source goes to the destination. */
  ghost predicate SomeSessionGoes(rows: seq<Row>, direct: Routes, malformed: set<string>, d: string)
    requires AllIds(rows)
  {
    exists i :: 0 <= i < |rows| && SessionRoute(rows, direct, malformed, rows[i].text["id"]) == d
  }

  ghost predicate SomeUnrouted(identify: Identify, tables: Tables) {
    exists n, r :: n in tables && n in GRAPH_TABLES && r in tables[n] && Unrouted(identify, tables, n, r)
  }

  lemma DestinationIff(identify: Identify, tables: Tables, quarantine: bool, routing: Attribution, d: string)
    requires AllIds(RowsOf(tables, "session")) && Routed(identify, tables, quarantine, routing)
    ensures var rows := RowsOf(tables, "session");
      var direct := DirectRoutes(identify, routing.workspaces, routing.projects, rows);
      d in routing.destinations <==>
        || SomeSessionGoes(rows, direct, routing.malformedSessions, d)
        || (d == LEGACY_GLOBAL && (rows == [] || SomeUnrouted(identify, tables)))
  {
    var rows := RowsOf(tables, "session");
    var direct := DirectRoutes(identify, routing.workspaces, routing.projects, rows);
    GoesIff(rows, direct, routing.malformedSessions, routing.sessions, d);
    forall n, r | n in tables && n in GRAPH_TABLES && r in tables[n]
      ensures RowDestination(n, r, routing).None? <==> Unrouted(identify, tables, n, r)
    {
      UnroutedIff(identify, tables, quarantine, routing, n, r);
    }
  }

  lemma GoesIff(rows: seq<Row>, direct: Routes, malformed: set<string>, sessions: Routes, d: string)
    requires AllIds(rows) && SessionsRouted(rows, direct, malformed, sessions)
    ensures d in sessions.Values <==> SomeSessionGoes(rows, direct, malformed, d)
    ensures sessions == map[] <==> rows == []
  {
    forall i | 0 <= i < |rows|
      ensures rows[i].text["id"] in sessions
      ensures sessions[rows[i].text["id"]] == SessionRoute(rows, direct, malformed, rows[i].text["id"])
    {
      assert rows[i] in rows && TextField(rows[i], "id") == Some(rows[i].text["id"]);
      assert Lookup(sessions, Some(rows[i].text["id"])).Some?;
    }
    assert rows != [] ==> rows[0].text["id"] in sessions;
    forall id | id in sessions
      ensures exists i :: 0 <= i < |rows| && rows[i].text["id"] == id
    {
      assert Lookup(sessions, Some(id)).Some?;
      var r :| r in rows && TextField(r, "id") == Some(id);
      var i :| 0 <= i < |rows| && rows[i] == r;
    }
    if rows == [] {
      assert sessions.Keys == {};
    }
  }

  /**
     A row linked to a project alone is in a plan if and only if its project leads nowhere in particular, or where
     some session goes, or to legacy-global when that is needed for other reasons.
   */
  lemma ProjectRowKeptIff(identify: Identify, tables: Tables, quarantine: bool, routing: Attribution, table: string, row: Row)
    requires AllIds(RowsOf(tables, "session")) && Routed(identify, tables, quarantine, routing)
    requires table in tables && table in GRAPH_TABLES && !Shared(table) && row in tables[table] && OnlyProject(table, row)
    ensures var rows, route := RowsOf(tables, "session"), Lookup(ProjectRoutes(identify, tables), Some(row.text["project_id"]));
      var direct := DirectRoutes(identify, routing.workspaces, routing.projects, rows);
      (exists d :: d in routing.destinations && Kept(identify, d, table, row, routing)) <==>
        || route.None?
        || SomeSessionGoes(rows, direct, routing.malformedSessions, route.value)
        || (route.value == LEGACY_GLOBAL && (rows == [] || SomeUnrouted(identify, tables)))
  {
    KeptOnce(identify, tables, quarantine, routing, table, row);
    DestinationIff(identify, tables, quarantine, routing, Home(table, row, routing));
    UnroutedIff(identify, tables, quarantine, routing, table, row);
  }

  function LostExample(): Tables {
    map["session" := [], "message" := [], "project" := [Row(map["id" := "1", "worktree" := "/work/p"], [])],
        "snapshot" := [Row(map["project_id" := "1"], [])]]
  }

  lemma LostExampleProject(identify: Identify)
    requires identify("/work/p") == Some("p")
    ensures Lookup(ProjectRoutes(identify, LostExample()), Some("1")) == Some("p")
  {
    var project := Row(map["id" := "1", "worktree" := "/work/p"], []);
    assert RowsOf(LostExample(), "project") == [project] && RowsOf(LostExample(), "project_directory") == [];
    OverwrittenAt([project], OwnIdentity(identify), project);
    DefaultedAt(Overwritten(Claimed([project], "id", OwnIdentity(identify))), [project], "1");
  }

  lemma NoSessions(identify: Identify, tables: Tables, quarantine: bool, routing: Attribution)
    requires RowsOf(tables, "session") == [] && Routed(identify, tables, quarantine, routing)
    ensures routing.sessions == map[] && routing.destinations == {LEGACY_GLOBAL}
  {
    forall id
      ensures id !in routing.sessions
    {
      assert Lookup(routing.sessions, Some(id)) == None;
    }
  }

  /** Here the project leads to a destination that no session goes to, so no store is made for it. */
  lemma ProjectRowCanBeLost(identify: Identify, quarantine: bool, routing: Attribution, d: string)
    requires identify("/work/p") == Some("p")
    requires RowsOf(LostExample(), "session") == [] && Routed(identify, LostExample(), quarantine, routing)
    requires d in routing.destinations
    ensures !Kept(identify, d, "snapshot", Row(map["project_id" := "1"], []), routing)
  {
    LostExampleProject(identify);
    NoSessions(identify, LostExample(), quarantine, routing);
    NotSchema("snapshot");
    assert Home("snapshot", Row(map["project_id" := "1"], []), routing) == "p";
  }
}
