/**
 What routing gives a session, said on the rows of the source: where it goes, and when it is quarantined.
 */
module RouteMeaning {
  import opened Wrappers
  import opened SessionForest
  import opened Quarantine
  import opened Routing
  import opened SessionRouting
  import opened Selection
  import opened SelectionClosure

  lemma Rootless(parents: Parents, routes: Routes, id: string)
    requires id !in routes && id !in parents
    ensures NearestRoute(parents, routes, id) == LEGACY_GLOBAL
  {
    assert forall k: nat :: k > 0 ==> Ancestor(parents, id, k) == None;
    NearestRouteIs(parents, routes, id, LEGACY_GLOBAL);
  }

  lemma NoRowNoRoute(rows: seq<Row>, direct: Routes, malformed: set<string>, id: string)
    requires AllIds(rows) && direct.Keys <= Ids(LinksOf(rows)) && malformed <= Ids(LinksOf(rows)) && !HasRow(rows, id)
    ensures SessionRoute(rows, direct, malformed, id) == LEGACY_GLOBAL
  {
    LinkedHasRow(rows, id);
    RoutedHasRow(rows, ParentField());
    Rootless(SessionParents(rows), ToLegacy(direct, malformed), id);
  }

  lemma NoParentNoRoute(rows: seq<Row>, direct: Routes, malformed: set<string>, row: Row)
    requires UniqueIds(rows) && row in rows && "id" in row.text && "parent_id" !in row.text
    requires row.text["id"] !in direct && row.text["id"] !in malformed
    ensures SessionRoute(rows, direct, malformed, row.text["id"]) == LEGACY_GLOBAL
  {
    OverwrittenAt(rows, ParentField(), row);
    Rootless(SessionParents(rows), ToLegacy(direct, malformed), row.text["id"]);
  }

  lemma RouteOfRow(identify: Identify, tables: Tables, quarantine: bool, routing: Attribution, id: string)
    requires AllIds(RowsOf(tables, "session")) && Routed(identify, tables, quarantine, routing)
    ensures var rows := RowsOf(tables, "session");
      Lookup(routing.sessions, Some(id)) == if HasRow(rows, id)
        then Some(SessionRoute(rows, DirectRoutes(identify, routing.workspaces, routing.projects, rows), routing.malformedSessions, id))
        else None
    ensures routing.malformedSessions <= Ids(LinksOf(RowsOf(tables, "session")))
  {
  }

  lemma OwnRoute(identify: Identify, workspaces: Routes, projects: Routes, rows: seq<Row>, row: Row)
    requires UniqueIds(rows) && row in rows && "id" in row.text
    ensures Lookup(DirectRoutes(identify, workspaces, projects, rows), Some(row.text["id"])) ==
      if "directory" in row.text && identify(row.text["directory"]).Some? then identify(row.text["directory"])
      else if "workspace_id" in row.text && row.text["workspace_id"] in workspaces then Some(workspaces[row.text["workspace_id"]])
      else if "project_id" in row.text && row.text["project_id"] in projects then Some(projects[row.text["project_id"]])
      else None
  {
    OverwrittenAt(rows, DirectDestination(identify, workspaces, projects), row);
  }

  /**
     A session outside the quarantine goes where its directory points, else with its workspace, else with its project;
     only a session with none of these goes with its parent, and to legacy-global if there is no such parent.
   */
  lemma SessionRouteMeaning(identify: Identify, tables: Tables, quarantine: bool, routing: Attribution, row: Row)
    requires AllIds(RowsOf(tables, "session")) && UniqueIds(RowsOf(tables, "session")) && Routed(identify, tables, quarantine, routing)
    requires row in RowsOf(tables, "session") && row.text["id"] !in routing.malformedSessions
    ensures Lookup(routing.sessions, Some(row.text["id"])) ==
      if "directory" in row.text && identify(row.text["directory"]).Some? then identify(row.text["directory"])
      else if "workspace_id" in row.text && row.text["workspace_id"] in routing.workspaces then
        Some(routing.workspaces[row.text["workspace_id"]])
      else if "project_id" in row.text && row.text["project_id"] in routing.projects then Some(routing.projects[row.text["project_id"]])
      else if "parent_id" in row.text && HasRow(RowsOf(tables, "session"), row.text["parent_id"]) then
        Lookup(routing.sessions, Some(row.text["parent_id"]))
      else Some(LEGACY_GLOBAL)
  {
    var rows, malformed := RowsOf(tables, "session"), routing.malformedSessions;
    var direct := DirectRoutes(identify, routing.workspaces, routing.projects, rows);
    HasIts(rows, row);
    RouteOfRow(identify, tables, quarantine, routing, row.text["id"]);
    OwnRoute(identify, routing.workspaces, routing.projects, rows, row);
    RoutedHasRow(rows, DirectDestination(identify, routing.workspaces, routing.projects));
    RouteFromRow(rows, direct, malformed, row);
    if "parent_id" in row.text {
      RouteOfRow(identify, tables, quarantine, routing, row.text["parent_id"]);
    }
  }

  lemma RouteFromRow(rows: seq<Row>, direct: Routes, malformed: set<string>, row: Row)
    requires AllIds(rows) && UniqueIds(rows) && direct.Keys <= Ids(LinksOf(rows)) && malformed <= Ids(LinksOf(rows))
    requires row in rows && row.text["id"] !in malformed
    ensures SessionRoute(rows, direct, malformed, row.text["id"]) ==
      if row.text["id"] in direct then direct[row.text["id"]]
      else if "parent_id" in row.text && HasRow(rows, row.text["parent_id"]) then SessionRoute(rows, direct, malformed, row.text["parent_id"])
      else LEGACY_GLOBAL
  {
    var id := row.text["id"];
    if "parent_id" in row.text {
      RouteOfOne(rows, direct, malformed, row);
      if !HasRow(rows, row.text["parent_id"]) {
        NoRowNoRoute(rows, direct, malformed, row.text["parent_id"]);
      }
    } else if id in direct {
      DirectInherits(SessionParents(rows), ToLegacy(direct, malformed), id);
      NearestRouteIs(SessionParents(rows), ToLegacy(direct, malformed), id, direct[id]);
    } else {
      NoParentNoRoute(rows, direct, malformed, row);
    }
  }

  /** The session has a route of its own. */
  predicate OwnRouted(identify: Identify, routing: Attribution, row: Row) {
    || ("directory" in row.text && identify(row.text["directory"]).Some?)
    || ("workspace_id" in row.text && row.text["workspace_id"] in routing.workspaces)
    || ("project_id" in row.text && row.text["project_id"] in routing.projects)
  }

  /** The catch-up quarantines a session below a badly named one, and a badly named one itself if it has a route of its own. */
  lemma QuarantinedMeaning(identify: Identify, tables: Tables, routing: Attribution, row: Row)
    requires AllIds(RowsOf(tables, "session")) && UniqueIds(RowsOf(tables, "session")) && Routed(identify, tables, true, routing)
    requires row in RowsOf(tables, "session")
    ensures row.text["id"] in routing.malformedSessions <==>
      exists k: nat :: BadAncestor(SessionParents(RowsOf(tables, "session")), row.text["id"], k) && (k > 0 || OwnRouted(identify, routing, row))
  {
    var rows := RowsOf(tables, "session");
    var direct := DirectRoutes(identify, routing.workspaces, routing.projects, rows);
    HasIts(rows, row);
    RowIsLinked(rows, row);
    SessionParentsOf(rows);
    RoutedHasRow(rows, DirectDestination(identify, routing.workspaces, routing.projects));
    OwnRoute(identify, routing.workspaces, routing.projects, rows, row);
    RoutedQuarantine(identify, tables, routing);
    CatchUpMeaning(LinksOf(rows), SessionParents(rows), direct, routing.malformedSessions, row.text["id"]);
  }
}
