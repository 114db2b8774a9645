/**
 What is in the plan of a destination, said on the rows of the source: exactly what belongs or is needed
 there, and nothing else.
 */
module PlanContents {
  import opened Wrappers
  import opened SessionForest
  import opened Routing
  import opened SessionRouting
  import opened Selection
  import opened SelectionClosure

  // ---- projects, workspaces and sessions -------------------------------------------------------------

  /** Some session kept at the destination names the project, or a workspace of it. */
  ghost predicate NamedBySession(identify: Identify, tables: Tables, routing: Attribution, d: string, id: string) {
    exists s :: s in RowsOf(tables, "session") && Kept(identify, d, "session", s, routing) && NamesProject(tables, s, id)
  }

  ghost predicate NamesProject(tables: Tables, session: Row, id: string) {
    || TextField(session, "project_id") == Some(id)
    || ("workspace_id" in session.text && WorkspaceOf(tables, session.text["workspace_id"], id))
  }

  ghost predicate WorkspaceOf(tables: Tables, workspace: string, project: string) {
    exists w :: w in RowsOf(tables, "workspace") && TextField(w, "id") == Some(workspace) && TextField(w, "project_id") == Some(project)
  }

  /** A directory of the project identifies the destination. */
  ghost predicate NamedByDirectory(identify: Identify, tables: Tables, d: string, id: string) {
    exists r :: r in RowsOf(tables, "project_directory") && TextField(r, "project_id") == Some(id)
      && "directory" in r.text && identify(r.text["directory"]) == Some(d)
  }

  /** Some session of the source is routed to the destination. */
  ghost predicate SessionsThere(tables: Tables, routing: Attribution, d: string) {
    exists s :: s in RowsOf(tables, "session") && Lookup(routing.sessions, TextField(s, "id")) == Some(d)
  }

  lemma LivingIsKept(identify: Identify, routing: Attribution, d: string, row: Row)
    requires Lives(routing.sessions, routing.malformedSessions, row, d)
    ensures Kept(identify, d, "session", row, routing)
  {
    NotSchema("session");
  }

  lemma LivesIff(identify: Identify, tables: Tables, quarantine: bool, routing: Attribution, d: string, row: Row)
    requires AllIds(RowsOf(tables, "session")) && Routed(identify, tables, quarantine, routing)
    requires row in RowsOf(tables, "session")
    ensures Lives(routing.sessions, routing.malformedSessions, row, d) <==> Kept(identify, d, "session", row, routing)
  {
    if Kept(identify, d, "session", row, routing) {
      KeptSessionLives(identify, tables, quarantine, routing, d, row);
    } else if Lives(routing.sessions, routing.malformedSessions, row, d) {
      LivingIsKept(identify, routing, d, row);
    }
  }

  lemma WorkspaceOfIff(tables: Tables, workspace: string, project: string)
    requires UniqueIds(RowsOf(tables, "workspace"))
    ensures Lookup(Overwritten(Claimed(RowsOf(tables, "workspace"), "id", ProjectField())), Some(workspace)) == Some(project)
      <==> WorkspaceOf(tables, workspace, project)
  {
    var rows, to := RowsOf(tables, "workspace"), ProjectField();
    OnlyClaimed(Claimed(rows, "id", to), workspace);
    forall w | w in rows && TextField(w, "id") == Some(workspace)
      ensures Lookup(Overwritten(Claimed(rows, "id", to)), Some(workspace)) == TextField(w, "project_id")
    {
      OverwrittenAt(rows, to, w);
    }
    if workspace in Overwritten(Claimed(rows, "id", to)) {
      var c :| c in Claimed(rows, "id", to) && c.0 == workspace;
      ClaimedBy(rows, "id", to, c);
    }
  }

  lemma SessionsThereIff(identify: Identify, tables: Tables, quarantine: bool, routing: Attribution, d: string)
    requires AllIds(RowsOf(tables, "session")) && Routed(identify, tables, quarantine, routing)
    ensures d in routing.sessions.Values <==> SessionsThere(tables, routing, d)
  {
    if d in routing.sessions.Values {
      var id :| id in routing.sessions && routing.sessions[id] == d;
      SessionsAreRouted(identify, tables, quarantine, routing, id);
      var s :| s in RowsOf(tables, "session") && TextField(s, "id") == Some(id);
    }
  }

  lemma NeededIff(identify: Identify, tables: Tables, quarantine: bool, routing: Attribution, d: string, id: string)
    requires AllIds(RowsOf(tables, "session")) && Routed(identify, tables, quarantine, routing)
    ensures id in At(routing.destinationProjects, d) <==>
      || ProjectNeeded(routing.sessions, routing.malformedSessions, Overwritten(Claimed(RowsOf(tables, "workspace"), "id", ProjectField())),
                       RowsOf(tables, "session"), d, id)
      || (d in routing.sessions.Values && ProjectNeededByDirectory(identify, RowsOf(tables, "project_directory"), d, id))
    ensures id in At(routing.destinationWorkspaces, d) <==>
      WorkspaceNeeded(routing.sessions, routing.malformedSessions, RowsOf(tables, "session"), d, id)
  {
  }

  lemma NeededBySessionIff(identify: Identify, tables: Tables, quarantine: bool, routing: Attribution, d: string, id: string)
    requires AllIds(RowsOf(tables, "session")) && Routed(identify, tables, quarantine, routing) && UniqueIds(RowsOf(tables, "workspace"))
    ensures ProjectNeeded(routing.sessions, routing.malformedSessions, Overwritten(Claimed(RowsOf(tables, "workspace"), "id", ProjectField())),
                          RowsOf(tables, "session"), d, id)
      <==> NamedBySession(identify, tables, routing, d, id)
  {
    var workspaceProjects := Overwritten(Claimed(RowsOf(tables, "workspace"), "id", ProjectField()));
    forall s | s in RowsOf(tables, "session")
      ensures Lives(routing.sessions, routing.malformedSessions, s, d) <==> Kept(identify, d, "session", s, routing)
      ensures NeedsProject(workspaceProjects, s, id) <==> NamesProject(tables, s, id)
    {
      LivesIff(identify, tables, quarantine, routing, d, s);
      if "workspace_id" in s.text {
        WorkspaceOfIff(tables, s.text["workspace_id"], id);
      }
    }
  }

  /**
     Nothing but what is needed: a project is in a plan if and only if a session kept there names it, or a workspace of it,
     or one of its directories identifies the destination and sessions go there.
   */
  lemma ProjectKeptIff(identify: Identify, tables: Tables, quarantine: bool, routing: Attribution, d: string, row: Row)
    requires AllIds(RowsOf(tables, "session")) && Routed(identify, tables, quarantine, routing) && UniqueIds(RowsOf(tables, "workspace"))
    ensures Kept(identify, d, "project", row, routing) <==>
      && "id" in row.text
      && (|| NamedBySession(identify, tables, routing, d, row.text["id"])
          || (SessionsThere(tables, routing, d) && NamedByDirectory(identify, tables, d, row.text["id"])))
  {
    NotSchema("project");
    if "id" in row.text {
      var id := row.text["id"];
      NeededIff(identify, tables, quarantine, routing, d, id);
      NeededBySessionIff(identify, tables, quarantine, routing, d, id);
      SessionsThereIff(identify, tables, quarantine, routing, d);
      assert ProjectNeededByDirectory(identify, RowsOf(tables, "project_directory"), d, id) <==> NamedByDirectory(identify, tables, d, id);
    }
  }

  /** A workspace is in a plan if and only if a session kept there names it. */
  lemma WorkspaceKeptIff(identify: Identify, tables: Tables, quarantine: bool, routing: Attribution, d: string, row: Row)
    requires AllIds(RowsOf(tables, "session")) && Routed(identify, tables, quarantine, routing)
    ensures Kept(identify, d, "workspace", row, routing) <==>
      && "id" in row.text
      && exists s :: s in RowsOf(tables, "session") && Kept(identify, d, "session", s, routing)
                     && TextField(s, "workspace_id") == Some(row.text["id"])
  {
    NotSchema("workspace");
    if "id" in row.text {
      NeededIff(identify, tables, quarantine, routing, d, row.text["id"]);
      forall s | s in RowsOf(tables, "session")
        ensures Lives(routing.sessions, routing.malformedSessions, s, d) <==> Kept(identify, d, "session", s, routing)
      {
        LivesIff(identify, tables, quarantine, routing, d, s);
      }
    }
  }

  /** A session row is in the plan of the destination it is routed to, unless it is quarantined, and in no other. */
  lemma SessionKeptIff(identify: Identify, tables: Tables, quarantine: bool, routing: Attribution, d: string, row: Row)
    requires AllIds(RowsOf(tables, "session")) && Routed(identify, tables, quarantine, routing)
    requires row in RowsOf(tables, "session")
    ensures Kept(identify, d, "session", row, routing) <==>
      row.text["id"] !in routing.malformedSessions && Lookup(routing.sessions, Some(row.text["id"])) == Some(d)
  {
    HasIts(RowsOf(tables, "session"), row);
    LivesIff(identify, tables, quarantine, routing, d, row);
  }

  // ---- rows that lead nowhere, and healthy rows -----------------------------------------------------

  /** A message is quarantined with its session, and for no other reason. */
  lemma MalformedMessageIff(identify: Identify, tables: Tables, quarantine: bool, routing: Attribution, id: string)
    requires AllIds(RowsOf(tables, "session")) && Routed(identify, tables, quarantine, routing)
    ensures id in routing.malformedMessages <==>
      exists m :: m in RowsOf(tables, "message") && TextField(m, "id") == Some(id) && TextIn(m, "session_id", routing.malformedSessions)
  {
    if m :| m in RowsOf(tables, "message") && TextField(m, "id") == Some(id) && TextIn(m, "session_id", routing.malformedSessions) {
      assert InMalformed(routing.malformedSessions, m);
    }
  }

  /** What hangs on nothing quarantined is not dropped. */
  lemma HealthyIsNotDropped(table: string, row: Row, routing: Attribution)
    requires !Hangs(table, row, routing)
    ensures !Dropped(table, row, routing)
  {
  }

  lemma MalformedHasRow(identify: Identify, tables: Tables, quarantine: bool, routing: Attribution, id: string)
    requires AllIds(RowsOf(tables, "session")) && Routed(identify, tables, quarantine, routing) && id in routing.malformedSessions
    ensures HasRow(RowsOf(tables, "session"), id)
  {
    LinkedHasRow(RowsOf(tables, "session"), id);
  }

  lemma MalformedIsRouted(identify: Identify, tables: Tables, quarantine: bool, routing: Attribution, id: string)
    requires AllIds(RowsOf(tables, "session")) && Routed(identify, tables, quarantine, routing) && id in routing.malformedMessages
    ensures MessageRouted(tables, id)
  {
    MalformedMessageIff(identify, tables, quarantine, routing, id);
    var m :| m in RowsOf(tables, "message") && TextField(m, "id") == Some(id) && TextIn(m, "session_id", routing.malformedSessions);
    MalformedHasRow(identify, tables, quarantine, routing, m.text["session_id"]);
    assert OfSomeSession(tables, m);
  }

  lemma UnroutedIsHealthy(identify: Identify, tables: Tables, quarantine: bool, routing: Attribution, table: string, row: Row)
    requires AllIds(RowsOf(tables, "session")) && Routed(identify, tables, quarantine, routing)
    requires Unrouted(identify, tables, table, row)
    ensures !RowIsMalformed(table, row, routing)
  {
    if "session_id" in row.text {
      if row.text["session_id"] in routing.malformedSessions {
        MalformedHasRow(identify, tables, quarantine, routing, row.text["session_id"]);
      }
    } else if "message_id" in row.text {
      if row.text["message_id"] in routing.malformedMessages {
        MalformedIsRouted(identify, tables, quarantine, routing, row.text["message_id"]);
      }
    } else if "aggregate_id" in row.text && row.text["aggregate_id"] in routing.malformedSessions {
      MalformedHasRow(identify, tables, quarantine, routing, row.text["aggregate_id"]);
    }
  }

  /** A row that leads to no session of the source and to no routed project is in the plan of legacy-global alone. */
  lemma UnroutedKeptIff(identify: Identify, tables: Tables, quarantine: bool, routing: Attribution, d: string, table: string, row: Row)
    requires AllIds(RowsOf(tables, "session")) && Routed(identify, tables, quarantine, routing)
    requires table in tables && row in tables[table] && table in GRAPH_TABLES && !Shared(table) && Unrouted(identify, tables, table, row)
    ensures Kept(identify, d, table, row, routing) <==> d == LEGACY_GLOBAL
  {
    NotSchema(table);
    UnroutedIff(identify, tables, quarantine, routing, table, row);
    UnroutedIsHealthy(identify, tables, quarantine, routing, table, row);
  }

  /** A row linked to a routed project alone is in the plan of that project's destination alone. */
  lemma OnlyProjectKeptIff(identify: Identify, tables: Tables, quarantine: bool, routing: Attribution, d: string, table: string, row: Row)
    requires AllIds(RowsOf(tables, "session")) && Routed(identify, tables, quarantine, routing)
    requires table in GRAPH_TABLES && !Shared(table) && OnlyProject(table, row)
    requires row.text["project_id"] in ProjectRoutes(identify, tables)
    ensures Kept(identify, d, table, row, routing) <==> d == ProjectRoutes(identify, tables)[row.text["project_id"]]
  {
    NotSchema(table);
  }
}
