/**
 What a destination's plan may refer to is in the plan, and the event tables it gets are
 well-formed: whole histories, or nothing of them.
 */
module SelectionClosure {
  import opened Wrappers
  import opened EventGraph
  import opened EventStore
  import opened SessionForest
  import opened Quarantine
  import opened Routing
  import opened SessionRouting
  import opened Selection

  // ---- references ------------------------------------------------------------------------------

  lemma KeptSessionLives(identify: Identify, tables: Tables, quarantine: bool, routing: Attribution, d: string, row: Row)
    requires AllIds(RowsOf(tables, "session")) && Routed(identify, tables, quarantine, routing)
    requires row in RowsOf(tables, "session") && Kept(identify, d, "session", row, routing)
    ensures Lives(routing.sessions, routing.malformedSessions, row, d)
  {
    var rows := RowsOf(tables, "session");
    var direct := DirectRoutes(identify, routing.workspaces, routing.projects, rows);
    var i :| 0 <= i < |rows| && rows[i] == row;
    assert TextField(row, "id") == Some(row.text["id"]);
    assert HasRow(rows, row.text["id"]);
    assert Lookup(routing.sessions, Some(row.text["id"])) ==
      Some(SessionRoute(rows, direct, routing.malformedSessions, row.text["id"]));
    NotSchema("session");
    if row.text["id"] in routing.malformedSessions {
      MalformedToLegacy(rows, direct, routing.malformedSessions, routing.sessions, row.text["id"]);
    }
  }

  /** A kept session's project and workspace are kept, wherever else they are. */
  lemma SessionReferencesKept(identify: Identify, tables: Tables, quarantine: bool, routing: Attribution, d: string, row: Row)
    requires AllIds(RowsOf(tables, "session")) && Routed(identify, tables, quarantine, routing)
    requires row in RowsOf(tables, "session") && Kept(identify, d, "session", row, routing)
    ensures forall r: Row :: "id" in r.text && TextField(row, "project_id") == Some(r.text["id"]) ==> Kept(identify, d, "project", r, routing)
    ensures forall r: Row :: "id" in r.text && TextField(row, "workspace_id") == Some(r.text["id"]) ==> Kept(identify, d, "workspace", r, routing)
  {
    KeptSessionLives(identify, tables, quarantine, routing, d, row);
    NotSchema("project");
    NotSchema("workspace");
    if "project_id" in row.text {
      assert NeedsProject(Overwritten(Claimed(RowsOf(tables, "workspace"), "id", ProjectField())), row, row.text["project_id"]);
    }
    if "workspace_id" in row.text {
      assert NeedsWorkspace(row, row.text["workspace_id"]);
    }
  }

  /** The project of the session's workspace is kept with it. */
  lemma WorkspaceProjectKept(identify: Identify, tables: Tables, quarantine: bool, routing: Attribution, d: string, row: Row,
                             workspace: Row, project: Row)
    requires AllIds(RowsOf(tables, "session")) && Routed(identify, tables, quarantine, routing)
    requires UniqueIds(RowsOf(tables, "workspace"))
    requires row in RowsOf(tables, "session") && Kept(identify, d, "session", row, routing)
    requires workspace in RowsOf(tables, "workspace") && "id" in workspace.text
    requires TextField(row, "workspace_id") == Some(workspace.text["id"])
    requires "id" in project.text && TextField(workspace, "project_id") == Some(project.text["id"])
    ensures Kept(identify, d, "project", project, routing)
  {
    KeptSessionLives(identify, tables, quarantine, routing, d, row);
    NotSchema("project");
    OverwrittenAt(RowsOf(tables, "workspace"), ProjectField(), workspace);
    assert NeedsProject(Overwritten(Claimed(RowsOf(tables, "workspace"), "id", ProjectField())), row, project.text["id"]);
  }

  /**
     A directory row goes to the destination its own path identifies, if sessions live there, and to no other;
     its project goes with it.
   */
  lemma DirectoryKeptIff(identify: Identify, tables: Tables, quarantine: bool, routing: Attribution, d: string, row: Row)
    requires AllIds(RowsOf(tables, "session")) && Routed(identify, tables, quarantine, routing)
    requires row in RowsOf(tables, "project_directory")
    ensures Kept(identify, d, "project_directory", row, routing) <==>
      d in routing.sessions.Values && Identity(identify, row, "directory") == Some(d) && "project_id" in row.text
    ensures Kept(identify, d, "project_directory", row, routing) ==>
      forall r: Row :: "id" in r.text && TextField(row, "project_id") == Some(r.text["id"]) ==> Kept(identify, d, "project", r, routing)
  {
    NotSchema("project");
    NotSchema("project_directory");
    if Identity(identify, row, "directory") == Some(d) && "project_id" in row.text {
      assert DirectoryNeeds(identify, row, d, row.text["project_id"]);
      assert ProjectNeededByDirectory(identify, RowsOf(tables, "project_directory"), d, row.text["project_id"]);
    }
  }

  /** A row that names a session is kept with that session. */
  lemma KeptWithSession(identify: Identify, tables: Tables, quarantine: bool, routing: Attribution, d: string, table: string,
                        row: Row, session: Row)
    requires AllIds(RowsOf(tables, "session")) && Routed(identify, tables, quarantine, routing)
    requires table in GRAPH_TABLES && !Shared(table) && table != "session" && "session_id" in row.text
    requires session in RowsOf(tables, "session") && TextField(session, "id") == TextField(row, "session_id")
    ensures Kept(identify, d, table, row, routing) <==> Kept(identify, d, "session", session, routing)
  {
    NotSchema(table);
    NotSchema("session");
  }

  /** A row that names a message alone is kept with that message. */
  lemma KeptWithMessage(identify: Identify, tables: Tables, quarantine: bool, routing: Attribution, d: string, table: string,
                        row: Row, message: Row)
    requires AllIds(RowsOf(tables, "session")) && Routed(identify, tables, quarantine, routing)
    requires UniqueIds(RowsOf(tables, "message"))
    requires table in GRAPH_TABLES && !Shared(table) && table != "session" && "session_id" !in row.text && "message_id" in row.text
    requires message in RowsOf(tables, "message") && "session_id" in message.text
    requires TextField(message, "id") == TextField(row, "message_id")
    ensures Kept(identify, d, table, row, routing) <==> Kept(identify, d, "message", message, routing)
  {
    NotSchema(table);
    NotSchema("message");
    OverwrittenAt(RowsOf(tables, "message"), SessionDestination(routing.sessions), message);
    var m := message.text["id"];
    if m in routing.malformedMessages {
      var r :| r in RowsOf(tables, "message") && InMalformed(routing.malformedSessions, r) && r.text["id"] == m;
      OneOfAnId(RowsOf(tables, "message"), r, message);
    }
    assert m in routing.malformedMessages <==> message.text["session_id"] in routing.malformedSessions;
    assert RowIsMalformed(table, row, routing) == RowIsMalformed("message", message, routing);
    assert RowDestination(table, row, routing) == RowDestination("message", message, routing);
  }

  /**
     A kept session's parent row is kept with it exactly when the session has no route of its own, or one that
     leads where the parent goes.
   */
  lemma ParentKeptIff(identify: Identify, tables: Tables, quarantine: bool, routing: Attribution, d: string, row: Row, parent: Row)
    requires AllIds(RowsOf(tables, "session")) && Routed(identify, tables, quarantine, routing)
    requires UniqueIds(RowsOf(tables, "session"))
    requires row in RowsOf(tables, "session") && Kept(identify, d, "session", row, routing)
    requires parent in RowsOf(tables, "session") && TextField(row, "parent_id") == TextField(parent, "id")
    ensures var rows := RowsOf(tables, "session");
      var own := DirectDestination(identify, routing.workspaces, routing.projects)(row);
      Kept(identify, d, "session", parent, routing) <==>
        own.None? || own.value == SessionRoute(rows, DirectRoutes(identify, routing.workspaces, routing.projects, rows),
                                               routing.malformedSessions, parent.text["id"])
  {
    var rows := RowsOf(tables, "session");
    var to := DirectDestination(identify, routing.workspaces, routing.projects);
    var direct := DirectRoutes(identify, routing.workspaces, routing.projects, rows);
    HasIts(rows, parent);
    HasIts(rows, row);
    KeptSessionLives(identify, tables, quarantine, routing, d, row);
    ParentIsWellFormed(rows, routing.malformedSessions, quarantine, direct, row, parent);
    NotSchema("session");
    assert Lookup(routing.sessions, Some(parent.text["id"])) == Some(SessionRoute(rows, direct, routing.malformedSessions, parent.text["id"]));
    assert Lookup(routing.sessions, Some(row.text["id"])) == Some(SessionRoute(rows, direct, routing.malformedSessions, row.text["id"]));
    OverwrittenAt(rows, to, row);
    RouteOfOne(rows, direct, routing.malformedSessions, row);
  }

  /** A well-formed session goes by its own route, or with its parent. */
  lemma RouteOfOne(rows: seq<Row>, direct: Routes, malformed: set<string>, row: Row)
    requires UniqueIds(rows) && row in rows && "id" in row.text && "parent_id" in row.text && row.text["id"] !in malformed
    ensures SessionRoute(rows, direct, malformed, row.text["id"]) ==
      if row.text["id"] in direct then direct[row.text["id"]] else SessionRoute(rows, direct, malformed, row.text["parent_id"])
  {
    var parents, routes := SessionParents(rows), ToLegacy(direct, malformed);
    if row.text["id"] in direct {
      DirectInherits(parents, routes, row.text["id"]);
      NearestRouteIs(parents, routes, row.text["id"], direct[row.text["id"]]);
    } else {
      OverwrittenAt(rows, ParentField(), row);
      ChildGoesWithParent(parents, routes, row.text["id"]);
    }
  }

  lemma RoutedByPath(identify: Identify, tables: Tables, quarantine: bool, routing: Attribution, row: Row, d: string)
    requires AllIds(RowsOf(tables, "session")) && UniqueIds(RowsOf(tables, "session")) && Routed(identify, tables, quarantine, routing)
    requires row in RowsOf(tables, "session") && Identity(identify, row, "directory") == Some(d)
    requires row.text["id"] !in routing.malformedSessions
    ensures Lookup(routing.sessions, Some(row.text["id"])) == Some(d)
  {
    var rows, malformed := RowsOf(tables, "session"), routing.malformedSessions;
    var direct := DirectRoutes(identify, routing.workspaces, routing.projects, rows);
    OverwrittenAt(rows, DirectDestination(identify, routing.workspaces, routing.projects), row);
    HasIts(rows, row);
    DirectInherits(SessionParents(rows), ToLegacy(direct, malformed), row.text["id"]);
    NearestRouteIs(SessionParents(rows), ToLegacy(direct, malformed), row.text["id"], d);
    assert Lookup(routing.sessions, Some(row.text["id"])) == Some(SessionRoute(rows, direct, malformed, row.text["id"]));
  }

  /** A child with a path of its own is selected without its parent, to which it still refers. */
  lemma ParentCanBeLeftBehind(identify: Identify, tables: Tables, routing: Attribution, parent: Row, child: Row)
    requires identify("/work/p") == Some("p") && identify("/work/q") == Some("q")
    requires parent == Row(map["id" := "ses_1", "directory" := "/work/p"], [])
    requires child == Row(map["id" := "ses_2", "parent_id" := "ses_1", "directory" := "/work/q"], [])
    requires tables == map["session" := [parent, child], "message" := []]
    requires AllIds(RowsOf(tables, "session")) && Routed(identify, tables, false, routing)
    ensures Kept(identify, "q", "session", child, routing) && !Kept(identify, "q", "session", parent, routing)
  {
    assert RowsOf(tables, "session") == [parent, child];
    RoutedByPath(identify, tables, false, routing, parent, "p");
    RoutedByPath(identify, tables, false, routing, child, "q");
    NotSchema("session");
  }

  lemma ExampleQuarantine(links: seq<Link>, direct: Routes, malformed: set<string>)
    requires links == [Link("old", None), Link("ses_1", None)] && "old" in direct && direct.Keys <= {"old", "ses_1"}
    requires Least(links, CatchUpSeeds(links, direct), malformed)
    ensures "old" in malformed && "ses_1" !in malformed
  {
    assert !WellNamed("old") && WellNamed("ses_1");
    assert "old" in CatchUpSeeds(links, direct);
    assert CatchUpSeeds(links, direct) <= {"old"} && Closed(links, {"old"});
  }

  lemma ExampleSessions(identify: Identify, workspaces: Routes, projects: Routes, rows: seq<Row>, malformed: set<string>)
    requires identify("/work/p") == Some("p")
    requires rows == [Row(map["id" := "old", "directory" := "/work/p"], []), Row(map["id" := "ses_1", "directory" := "/work/q"], [])]
    requires AllIds(rows) && Least(LinksOf(rows), CatchUpSeeds(LinksOf(rows), DirectRoutes(identify, workspaces, projects, rows)), malformed)
    ensures "old" in malformed && "ses_1" !in malformed
  {
    var to := DirectDestination(identify, workspaces, projects);
    assert rows[0] in rows;
    OverwrittenAt(rows, to, rows[0]);
    RoutedHasRow(rows, to);
    assert LinksOf(rows) == [Link("old", None), Link("ses_1", None)];
    ExampleQuarantine(LinksOf(rows), DirectRoutes(identify, workspaces, projects, rows), malformed);
  }

  lemma RoutedQuarantine(identify: Identify, tables: Tables, routing: Attribution)
    requires AllIds(RowsOf(tables, "session")) && Routed(identify, tables, true, routing)
    ensures var rows := RowsOf(tables, "session");
      Least(LinksOf(rows), CatchUpSeeds(LinksOf(rows), DirectRoutes(identify, routing.workspaces, routing.projects, rows)),
            routing.malformedSessions)
    ensures routing.malformedMessages == MalformedMessages(routing.malformedSessions, RowsOf(tables, "message"))
  {
  }

  lemma HangingRowKept(identify: Identify, messages: seq<Row>, routing: Attribution, message: Row, part: Row, d: string)
    requires "session_id" in part.text && part.text["session_id"] !in routing.malformedSessions
    requires Lookup(routing.sessions, Some(part.text["session_id"])) == Some(d)
    requires message in messages && InMalformed(routing.malformedSessions, message)
    requires Lookup(routing.sessions, Some(message.text["session_id"])) == Some(LEGACY_GLOBAL)
    requires routing.malformedMessages == MalformedMessages(routing.malformedSessions, messages)
    ensures message.text["id"] in routing.malformedMessages && Dropped("message", message, routing)
    ensures Kept(identify, d, "part", part, routing)
  {
    NotSchema("part");
  }

  /** A part that names a session of its own is kept, although its message goes with a quarantined session. */
  lemma HangingRowCanBeKept(identify: Identify, tables: Tables, routing: Attribution, stale: Row, live: Row, message: Row, part: Row)
    requires identify("/work/p") == Some("p") && identify("/work/q") == Some("q")
    requires stale == Row(map["id" := "old", "directory" := "/work/p"], [])
    requires live == Row(map["id" := "ses_1", "directory" := "/work/q"], [])
    requires message == Row(map["id" := "m", "session_id" := "old"], [])
    requires part == Row(map["session_id" := "ses_1", "message_id" := "m"], [])
    requires RowsOf(tables, "session") == [stale, live] && RowsOf(tables, "message") == [message] && RowsOf(tables, "part") == [part]
    requires AllIds([stale, live]) && Routed(identify, tables, true, routing)
    ensures "m" in routing.malformedMessages && Dropped("message", message, routing)
    ensures Kept(identify, "q", "part", part, routing)
  {
    RoutedQuarantine(identify, tables, routing);
    ExampleSessions(identify, routing.workspaces, routing.projects, [stale, live], routing.malformedSessions);
    RoutedByPath(identify, tables, true, routing, live, "q");
    QuarantinedGoToLegacy(identify, tables, routing, "old");
    HangingRowKept(identify, [message], routing, message, part, "q");
  }

  lemma HasIts(rows: seq<Row>, row: Row)
    requires row in rows && "id" in row.text
    ensures HasRow(rows, row.text["id"])
  {
    assert TextField(row, "id") == Some(row.text["id"]);
  }

  lemma ParentIsWellFormed(rows: seq<Row>, malformed: set<string>, quarantine: bool, direct: Routes, row: Row, parent: Row)
    requires AllIds(rows) && row in rows && "id" in parent.text && TextField(row, "parent_id") == Some(parent.text["id"])
    requires quarantine ==> Least(LinksOf(rows), CatchUpSeeds(LinksOf(rows), direct), malformed)
    requires !quarantine ==> malformed == {}
    requires "id" in row.text && row.text["id"] !in malformed
    ensures parent.text["id"] !in malformed
  {
    if quarantine {
      var i :| 0 <= i < |rows| && rows[i] == row;
      assert Follows(malformed, LinksOf(rows)[i]);
    }
  }

  // ---- the event tables ----------------------------------------------------------------------------

  /** Whether the destination is given the history of an aggregate. */
  predicate AggregateKept(routing: Attribution, d: string, aggregate: string) {
    && (if aggregate in routing.sessions then routing.sessions[aggregate] else LEGACY_GLOBAL) == d
    && !(d == LEGACY_GLOBAL && aggregate in routing.malformedSessions)
  }

  /** Event rows have only their own columns: the choice depends on the aggregate alone. */
  lemma EventRowKept(identify: Identify, routing: Attribution, d: string, table: string, row: Row)
    requires table == "event" || table == "event_sequence"
    requires "session_id" !in row.text && "message_id" !in row.text && "aggregate_id" in row.text
    ensures Kept(identify, d, table, row, routing) <==> AggregateKept(routing, d, row.text["aggregate_id"])
  {
    NotSchema(table);
  }

  function KeptSequences(rows: seq<SequenceRow>, keep: string -> bool): (kept: seq<SequenceRow>)
    ensures forall r :: r in kept <==> r in rows && keep(r.aggregate)
  {
    if rows == [] then []
    else (if keep(rows[0].aggregate) then [rows[0]] else []) + KeptSequences(rows[1..], keep)
  }

  function KeptEvents(rows: seq<EventRow>, keep: string -> bool): (kept: seq<EventRow>)
    ensures forall e :: e in kept <==> e in rows && keep(e.aggregate)
  {
    if rows == [] then []
    else (if keep(rows[0].aggregate) then [rows[0]] else []) + KeptEvents(rows[1..], keep)
  }

  function KeptGraph(g: Graph, keep: string -> bool): Graph {
    Graph(KeptSequences(g.sequences, keep), KeptEvents(g.events, keep))
  }

  function Restricted(histories: Histories, keep: string -> bool): Histories {
    map a | a in histories && keep(a) :: histories[a]
  }

  lemma {:induction false} KeptSequencesUnique(rows: seq<SequenceRow>, keep: string -> bool)
    requires UniqueAggregates(rows)
    ensures UniqueAggregates(KeptSequences(rows, keep))
  {
    if rows != [] {
      KeptSequencesUnique(rows[1..], keep);
      assert forall r :: r in rows[1..] ==> r.aggregate != rows[0].aggregate;
    }
  }

  lemma {:induction false} KeptEventsUnique(rows: seq<EventRow>, keep: string -> bool)
    requires UniqueEvents(rows)
    ensures UniqueEvents(KeptEvents(rows, keep))
  {
    if rows != [] {
      KeptEventsUnique(rows[1..], keep);
      assert forall e :: e in rows[1..] ==>
        e.id != rows[0].id && (e.aggregate, e.position) != (rows[0].aggregate, rows[0].position);
    }
  }

  /** A destination's event tables are well-formed and hold exactly the histories of its aggregates. */
  lemma KeptGraphHistories(g: Graph, keep: string -> bool)
    requires ValidGraph(g)
    ensures ValidGraph(KeptGraph(g, keep))
    ensures HistoriesOf(KeptGraph(g, keep)) == Restricted(HistoriesOf(g), keep)
  {
    var m := HistoriesOf(g);
    var n := Restricted(m, keep);
    KeptSequencesUnique(g.sequences, keep);
    KeptEventsUnique(g.events, keep);
    KeptRepresents(g, keep, m, n);
    RepresentsIsValid(KeptGraph(g, keep), n);
    RepresentsUnique(KeptGraph(g, keep), n, HistoriesOf(KeptGraph(g, keep)));
  }

  lemma KeptRepresents(g: Graph, keep: string -> bool, m: Histories, n: Histories)
    requires Represents(g, m) && ValidHistories(m) && n == Restricted(m, keep)
    ensures Represents(KeptGraph(g, keep), n) && ValidHistories(n)
  {
    forall a | a in n
      ensures n[a].sequence in KeptSequences(g.sequences, keep)
      ensures forall i :: 0 <= i < |n[a].events| ==> n[a].events[i] in KeptEvents(g.events, keep)
    {
      assert ValidHistory(a, m[a]);
    }
  }
}
