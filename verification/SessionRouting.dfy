/**
 The routing of a whole source graph: sessions by their own paths or their nearest routed
 ancestor, messages by their session, and the projects and workspaces every destination needs.
 */
module SessionRouting {
  import opened Wrappers
  import opened SessionForest
  import opened Quarantine
  import opened Routing

  const GRAPH_TABLES: set<string> := {
    "project", "project_directory", "workspace", "session", "message", "part", "todo", "session_share", "session_message",
    "session_input", "session_context_epoch", "event_sequence", "event", "share", "session_projection", "projection",
    "session_event", "session_diff", "snapshot"}

  const SCHEMA_TABLES: set<string> := {"__drizzle_migrations", "_prisma_migrations", "migration", "data_migration"}

  type Needs = map<string, set<string>>

  datatype Attribution = Attribution(sessions: Routes, messages: Routes, projects: Routes, workspaces: Routes, destinations: set<string>,
                       malformedSessions: set<string>, malformedMessages: set<string>,
                       destinationProjects: Needs, destinationWorkspaces: Needs)

  function At(needs: Needs, destination: string): set<string> {
    if destination in needs then needs[destination] else {}
  }

  function Add(needs: Needs, destination: string, id: string): Needs {
    needs[destination := At(needs, destination) + {id}]
  }

  // ---- sessions --------------------------------------------------------------------------------

  predicate AllIds(rows: seq<Row>) {
    forall i :: 0 <= i < |rows| ==> "id" in rows[i].text
  }

  function LinksOf(rows: seq<Row>): seq<Link>
    requires AllIds(rows)
  {
    seq(|rows|, i requires 0 <= i < |rows| => Link(rows[i].text["id"], TextField(rows[i], "parent_id")))
  }

  function ParentField(): Row -> Option<string> {
    r => TextField(r, "parent_id")
  }

  /** A session's own route: its directory, else its workspace, else its project. */
  function DirectDestination(identify: Identify, workspaces: Routes, projects: Routes): Row -> Option<string> {
    r => OrElse(Identity(identify, r, "directory"),
                OrElse(Lookup(workspaces, TextField(r, "workspace_id")), Lookup(projects, TextField(r, "project_id"))))
  }

  function DirectRoutes(identify: Identify, workspaces: Routes, projects: Routes, rows: seq<Row>): Routes {
    Overwritten(Claimed(rows, "id", DirectDestination(identify, workspaces, projects)))
  }

  function SessionParents(rows: seq<Row>): Parents {
    Overwritten(Claimed(rows, "id", ParentField()))
  }

  function ToLegacy(routes: Routes, ids: set<string>): Routes {
    routes + map id | id in ids :: LEGACY_GLOBAL
  }

  lemma {:induction false} FewClaims(rows: seq<Row>, column: string, destination: Row -> Option<string>)
    ensures |Claimed(rows, column, destination)| <= |rows|
  {
    if rows != [] {
      FewClaims(rows[..|rows| - 1], column, destination);
    }
  }

  lemma {:induction false} FewRoutes(claims: seq<Claim>)
    ensures |Overwritten(claims)| <= |claims|
  {
    if claims != [] {
      FewRoutes(claims[..|claims| - 1]);
    }
  }

  lemma RoutedHasRow(rows: seq<Row>, destination: Row -> Option<string>)
    requires AllIds(rows)
    ensures Overwritten(Claimed(rows, "id", destination)).Keys <= Ids(LinksOf(rows))
  {
    forall id | id in Overwritten(Claimed(rows, "id", destination))
      ensures id in Ids(LinksOf(rows))
    {
      OnlyClaimed(Claimed(rows, "id", destination), id);
      var c :| c in Claimed(rows, "id", destination) && c.0 == id;
      ClaimedBy(rows, "id", destination, c);
      var r :| r in rows && r.text["id"] == id;
      RowIsLinked(rows, r);
    }
  }

  lemma RowIsLinked(rows: seq<Row>, r: Row)
    requires AllIds(rows) && r in rows
    ensures r.text["id"] in Ids(LinksOf(rows))
  {
    var i :| 0 <= i < |rows| && rows[i] == r;
    assert LinksOf(rows)[i] in LinksOf(rows);
  }

  lemma LinkedHasRow(rows: seq<Row>, id: string)
    requires AllIds(rows)
    ensures id in Ids(LinksOf(rows)) <==> HasRow(rows, id)
  {
    if id in Ids(LinksOf(rows)) {
      var l :| l in LinksOf(rows) && l.id == id;
      var i :| 0 <= i < |rows| && LinksOf(rows)[i] == l;
      assert TextField(rows[i], "id") == Some(id);
    }
    if HasRow(rows, id) {
      var r :| r in rows && TextField(r, "id") == Some(id);
      RowIsLinked(rows, r);
    }
  }

  /** With the primary key, the parent map is the parent column. */
  lemma SessionParentsOf(rows: seq<Row>)
    requires AllIds(rows) && UniqueIds(rows)
    ensures ParentsOf(LinksOf(rows), SessionParents(rows))
  {
    RoutedHasRow(rows, ParentField());
    forall l | l in LinksOf(rows)
      ensures Lookup(SessionParents(rows), Some(l.id)) == l.parent
    {
      var i :| 0 <= i < |rows| && LinksOf(rows)[i] == l;
      OverwrittenAt(rows, ParentField(), rows[i]);
    }
  }

  /** Where a session of the source ends up. */
  ghost function SessionRoute(rows: seq<Row>, direct: Routes, malformed: set<string>, id: string): string {
    NearestRoute(SessionParents(rows), ToLegacy(direct, malformed), id)
  }

  ghost predicate SessionsRouted(rows: seq<Row>, direct: Routes, malformed: set<string>, sessions: Routes) {
    forall id :: Lookup(sessions, Some(id)) == if HasRow(rows, id) then Some(SessionRoute(rows, direct, malformed, id)) else None
  }

  lemma PropagatedIsRouted(rows: seq<Row>, direct: Routes, malformed: set<string>, routes: Routes)
    requires AllIds(rows) && direct.Keys <= Ids(LinksOf(rows)) && malformed <= Ids(LinksOf(rows))
    requires Propagated(SessionParents(rows), ToLegacy(direct, malformed), routes)
    ensures SessionsRouted(rows, direct, malformed, Defaulted(routes, rows))
  {
    RoutedHasRow(rows, ParentField());
    forall id
      ensures Lookup(Defaulted(routes, rows), Some(id)) ==
        if HasRow(rows, id) then Some(SessionRoute(rows, direct, malformed, id)) else None
    {
      DefaultedAt(routes, rows, id);
      LinkedHasRow(rows, id);
      NearestRouteIs(SessionParents(rows), ToLegacy(direct, malformed), id, if id in routes then routes[id] else LEGACY_GLOBAL);
    }
  }

  /** Quarantined sessions, when there are any, all go to legacy-global. */
  lemma MalformedToLegacy(rows: seq<Row>, direct: Routes, malformed: set<string>, sessions: Routes, id: string)
    requires SessionsRouted(rows, direct, malformed, sessions) && id in malformed && HasRow(rows, id)
    ensures id in sessions && sessions[id] == LEGACY_GLOBAL
  {
    assert Lookup(sessions, Some(id)) == Some(SessionRoute(rows, direct, malformed, id));
    DirectInherits(SessionParents(rows), ToLegacy(direct, malformed), id);
    NearestRouteIs(SessionParents(rows), ToLegacy(direct, malformed), id, LEGACY_GLOBAL);
  }

  method RouteSessionRows(rows: seq<Row>, identify: Identify, workspaces: Routes, projects: Routes, quarantine: bool)
    returns (sessions: Routes, malformed: set<string>)
    requires AllIds(rows)
    ensures malformed <= Ids(LinksOf(rows))
    ensures var direct := DirectRoutes(identify, workspaces, projects, rows);
      && (quarantine ==> Least(LinksOf(rows), CatchUpSeeds(LinksOf(rows), direct), malformed))
      && (!quarantine ==> malformed == {})
      && SessionsRouted(rows, direct, malformed, sessions)
  {
    var direct := InsertAll(rows, "id", DirectDestination(identify, workspaces, projects));
    var parents := InsertAll(rows, "id", ParentField());
    RoutedHasRow(rows, DirectDestination(identify, workspaces, projects));
    malformed := {};
    if quarantine {
      malformed := QuarantineSessions(LinksOf(rows), direct);
    }
    FewClaims(rows, "id", ParentField());
    FewRoutes(Claimed(rows, "id", ParentField()));
    var routes := Propagate(parents, ToLegacy(direct, malformed), |rows|);
    PropagatedIsRouted(rows, direct, malformed, routes);
    sessions := InsertDefaults(routes, rows);
  }

  // ---- messages and needed rows ------------------------------------------------------------------

  function SessionDestination(sessions: Routes): Row -> Option<string> {
    r => Lookup(sessions, TextField(r, "session_id"))
  }

  function MessageRoutes(sessions: Routes, rows: seq<Row>): Routes {
    Overwritten(Claimed(rows, "id", SessionDestination(sessions)))
  }

  predicate InMalformed(malformed: set<string>, row: Row) {
    "id" in row.text && "session_id" in row.text && row.text["session_id"] in malformed
  }

  function MalformedMessages(malformed: set<string>, rows: seq<Row>): set<string> {
    set r | r in rows && InMalformed(malformed, r) :: r.text["id"]
  }

  /** The session row goes to `destination` as a well-formed session. */
  predicate Lives(sessions: Routes, malformed: set<string>, row: Row, destination: string) {
    "id" in row.text && row.text["id"] !in malformed && Lookup(sessions, Some(row.text["id"])) == Some(destination)
  }

  /** A session row needs its project, its workspace and its workspace's project. */
  predicate NeedsProject(workspaceProjects: Routes, row: Row, id: string) {
    TextField(row, "project_id") == Some(id) || Lookup(workspaceProjects, TextField(row, "workspace_id")) == Some(id)
  }

  predicate NeedsWorkspace(row: Row, id: string) {
    TextField(row, "workspace_id") == Some(id)
  }

  predicate DirectoryNeeds(identify: Identify, row: Row, destination: string, id: string) {
    TextField(row, "project_id") == Some(id) && Identity(identify, row, "directory") == Some(destination)
  }

  ghost predicate ProjectNeeded(sessions: Routes, malformed: set<string>, workspaceProjects: Routes, rows: seq<Row>,
                                destination: string, id: string) {
    exists r :: r in rows && Lives(sessions, malformed, r, destination) && NeedsProject(workspaceProjects, r, id)
  }

  ghost predicate WorkspaceNeeded(sessions: Routes, malformed: set<string>, rows: seq<Row>, destination: string, id: string) {
    exists r :: r in rows && Lives(sessions, malformed, r, destination) && NeedsWorkspace(r, id)
  }

  ghost predicate ProjectNeededByDirectory(identify: Identify, rows: seq<Row>, destination: string, id: string) {
    exists r :: r in rows && DirectoryNeeds(identify, r, destination, id)
  }

  lemma NeededStep(sessions: Routes, malformed: set<string>, workspaceProjects: Routes, rows: seq<Row>, n: nat,
                   destination: string, id: string)
    requires n + 1 == |rows|
    ensures ProjectNeeded(sessions, malformed, workspaceProjects, rows, destination, id) <==>
      || ProjectNeeded(sessions, malformed, workspaceProjects, rows[..n], destination, id)
      || (Lives(sessions, malformed, rows[n], destination) && NeedsProject(workspaceProjects, rows[n], id))
    ensures WorkspaceNeeded(sessions, malformed, rows, destination, id) <==>
      || WorkspaceNeeded(sessions, malformed, rows[..n], destination, id)
      || (Lives(sessions, malformed, rows[n], destination) && NeedsWorkspace(rows[n], id))
  {
    assert rows == rows[..n] + [rows[n]];
  }

  function ProjectsAfter(needs: Needs, workspaceProjects: Routes, destination: string, row: Row): Needs {
    var direct := if "project_id" in row.text then Add(needs, destination, row.text["project_id"]) else needs;
    var above := Lookup(workspaceProjects, TextField(row, "workspace_id"));
    if above.Some? then Add(direct, destination, above.value) else direct
  }

  lemma ProjectsAfterAt(needs: Needs, workspaceProjects: Routes, destination: string, row: Row, d: string, id: string)
    ensures id in At(ProjectsAfter(needs, workspaceProjects, destination, row), d) <==>
      id in At(needs, d) || (d == destination && NeedsProject(workspaceProjects, row, id))
  {
  }

  method CollectNeeds(sessions: Routes, malformed: set<string>, workspaceProjects: Routes, rows: seq<Row>)
    returns (projects: Needs, workspaces: Needs)
    ensures forall d, id :: id in At(projects, d) <==> ProjectNeeded(sessions, malformed, workspaceProjects, rows, d, id)
    ensures forall d, id :: id in At(workspaces, d) <==> WorkspaceNeeded(sessions, malformed, rows, d, id)
  {
    projects, workspaces := map[], map[];
    for i := 0 to |rows|
      invariant forall d, id :: id in At(projects, d) <==> ProjectNeeded(sessions, malformed, workspaceProjects, rows[..i], d, id)
      invariant forall d, id :: id in At(workspaces, d) <==> WorkspaceNeeded(sessions, malformed, rows[..i], d, id)
    {
      var row := rows[i];
      assert rows[..i + 1][..i] == rows[..i];
      ghost var hadProjects, hadWorkspaces := projects, workspaces;
      if "id" in row.text && row.text["id"] !in malformed && row.text["id"] in sessions {
        var destination := sessions[row.text["id"]];
        projects := ProjectsAfter(projects, workspaceProjects, destination, row);
        if "workspace_id" in row.text {
          workspaces := Add(workspaces, destination, row.text["workspace_id"]);
        }
      }
      forall d, id
        ensures id in At(projects, d) <==> ProjectNeeded(sessions, malformed, workspaceProjects, rows[..i + 1], d, id)
      {
        NeededStep(sessions, malformed, workspaceProjects, rows[..i + 1], i, d, id);
        assert id in At(hadProjects, d) <==> ProjectNeeded(sessions, malformed, workspaceProjects, rows[..i], d, id);
        if "id" in row.text && row.text["id"] in sessions {
          ProjectsAfterAt(hadProjects, workspaceProjects, sessions[row.text["id"]], row, d, id);
        }
      }
      forall d, id
        ensures id in At(workspaces, d) <==> WorkspaceNeeded(sessions, malformed, rows[..i + 1], d, id)
      {
        NeededStep(sessions, malformed, workspaceProjects, rows[..i + 1], i, d, id);
        assert id in At(hadWorkspaces, d) <==> WorkspaceNeeded(sessions, malformed, rows[..i], d, id);
      }
    }
    assert rows[..|rows|] == rows;
  }

  method CollectDirectoryNeeds(identify: Identify, destinations: set<string>, rows: seq<Row>, before: Needs) returns (projects: Needs)
    ensures forall d, id :: id in At(projects, d) <==>
      id in At(before, d) || (d in destinations && ProjectNeededByDirectory(identify, rows, d, id))
  {
    projects := before;
    for i := 0 to |rows|
      invariant forall d, id :: id in At(projects, d) <==>
        id in At(before, d) || (d in destinations && ProjectNeededByDirectory(identify, rows[..i], d, id))
    {
      var row := rows[i];
      assert rows[..i + 1] == rows[..i] + [row];
      assert forall d, id :: ProjectNeededByDirectory(identify, rows[..i + 1], d, id) <==>
        (ProjectNeededByDirectory(identify, rows[..i], d, id) || DirectoryNeeds(identify, row, d, id));
      var destination := Identity(identify, row, "directory");
      if "project_id" in row.text && destination.Some? && destination.value in destinations {
        projects := Add(projects, destination.value, row.text["project_id"]);
      }
    }
    assert rows[..|rows|] == rows;
  }

  // ---- where a row goes ------------------------------------------------------------------------------

  function RowDestination(table: string, row: Row, routing: Attribution): Option<string> {
    if table == "session" then Lookup(routing.sessions, TextField(row, "id"))
    else if "session_id" in row.text then Lookup(routing.sessions, TextField(row, "session_id"))
    else if "message_id" in row.text then Lookup(routing.messages, TextField(row, "message_id"))
    else if table == "message" then Lookup(routing.messages, TextField(row, "id"))
    else if table == "event" || table == "event_sequence" then Lookup(routing.sessions, TextField(row, "aggregate_id"))
    else if "project_id" in row.text then Lookup(routing.projects, TextField(row, "project_id"))
    else if table == "project" then Lookup(routing.projects, TextField(row, "id"))
    else if table == "workspace" then Lookup(routing.workspaces, TextField(row, "id"))
    else None
  }

  predicate RowIsMalformed(table: string, row: Row, routing: Attribution) {
    if table == "session" then "id" in row.text && row.text["id"] in routing.malformedSessions
    else if "session_id" in row.text then row.text["session_id"] in routing.malformedSessions
    else if "message_id" in row.text then row.text["message_id"] in routing.malformedMessages
    else (table == "event" || table == "event_sequence")
         && "aggregate_id" in row.text && row.text["aggregate_id"] in routing.malformedSessions
  }

  predicate Unattributed(tables: Tables, routing: Attribution) {
    exists n :: n in tables && n in GRAPH_TABLES && exists r :: r in tables[n] && RowDestination(n, r, routing).None?
  }

  /** What the routing of `tables` must be. */
  ghost predicate Routed(identify: Identify, tables: Tables, quarantine: bool, routing: Attribution)
    requires AllIds(RowsOf(tables, "session"))
  {
    var rows := RowsOf(tables, "session");
    var direct := DirectRoutes(identify, routing.workspaces, routing.projects, rows);
    var workspaceProjects := Overwritten(Claimed(RowsOf(tables, "workspace"), "id", ProjectField()));
    && routing.projects == ProjectRoutes(identify, tables)
    && routing.workspaces == WorkspaceRoutes(identify, routing.projects, tables)
    && (quarantine ==> Least(LinksOf(rows), CatchUpSeeds(LinksOf(rows), direct), routing.malformedSessions))
    && (!quarantine ==> routing.malformedSessions == {})
    && routing.malformedSessions <= Ids(LinksOf(rows))
    && SessionsRouted(rows, direct, routing.malformedSessions, routing.sessions)
    && routing.messages == MessageRoutes(routing.sessions, RowsOf(tables, "message"))
    && routing.malformedMessages == MalformedMessages(routing.malformedSessions, RowsOf(tables, "message"))
    && (forall d, id :: id in At(routing.destinationProjects, d) <==>
          || ProjectNeeded(routing.sessions, routing.malformedSessions, workspaceProjects, rows, d, id)
          || (d in routing.sessions.Values && ProjectNeededByDirectory(identify, RowsOf(tables, "project_directory"), d, id)))
    && (forall d, id :: id in At(routing.destinationWorkspaces, d) <==>
          WorkspaceNeeded(routing.sessions, routing.malformedSessions, rows, d, id))
    && routing.destinations == routing.sessions.Values
         + if routing.sessions == map[] || Unattributed(tables, routing) then {LEGACY_GLOBAL} else {}
  }

  function ProjectField(): Row -> Option<string> {
    r => TextField(r, "project_id")
  }

  lemma SameDestinations(tables: Tables, routing: Attribution, destinations: set<string>)
    ensures Unattributed(tables, routing.(destinations := destinations)) == Unattributed(tables, routing)
  {
    var other := routing.(destinations := destinations);
    assert forall n, r :: RowDestination(n, r, other) == RowDestination(n, r, routing);
  }

  /** A session row without a text id is an error, and so is a schema without sessions or messages. */
  method RouteSessions(identify: Identify, tables: Tables, quarantine: bool) returns (r: Result<Attribution>)
    ensures r.Ok? <==> "session" in tables && "message" in tables && AllIds(tables["session"])
    ensures r.Ok? ==> Routed(identify, tables, quarantine, r.value)
  {
    var projects := RouteProjects(identify, tables);
    var workspaces := RouteWorkspaces(identify, projects, tables);
    if "session" !in tables || !AllIds(tables["session"]) || "message" !in tables {
      return Err;
    }
    var rows := tables["session"];
    var sessions, malformed := RouteSessionRows(rows, identify, workspaces, projects, quarantine);
    var messages := InsertAll(tables["message"], "id", SessionDestination(sessions));
    var workspaceProjects := InsertAll(RowsOf(tables, "workspace"), "id", ProjectField());
    var neededProjects, neededWorkspaces := CollectNeeds(sessions, malformed, workspaceProjects, rows);
    neededProjects := CollectDirectoryNeeds(identify, sessions.Values, RowsOf(tables, "project_directory"), neededProjects);
    var routing := Attribution(sessions, messages, projects, workspaces, sessions.Values, malformed,
                     MalformedMessages(malformed, tables["message"]), neededProjects, neededWorkspaces);
    if sessions == map[] || Unattributed(tables, routing) {
      SameDestinations(tables, routing, routing.destinations + {LEGACY_GLOBAL});
      routing := routing.(destinations := routing.destinations + {LEGACY_GLOBAL});
    }
    return Ok(routing);
  }
}
