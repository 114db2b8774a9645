/**
 Which private store each row of the global graph belongs to. Paths are turned into project
 slugs by `identify`, which may fail; everything else is decided here.
 */
module Routing {
  import opened Wrappers
  import opened SessionForest

  /** A row as routing sees it: its text columns by name. The other columns are carried along. */
  datatype Row = Row(text: map<string, string>, rest: seq<int>)

  type Tables = map<string, seq<Row>>

  type Identify = string -> Option<string>

  function RowsOf(tables: Tables, name: string): seq<Row> {
    if name in tables then tables[name] else []
  }

  function TextField(row: Row, name: string): Option<string> {
    if name in row.text then Some(row.text[name]) else None
  }

  function Identity(identify: Identify, row: Row, column: string): Option<string> {
    if column in row.text then identify(row.text[column]) else None
  }

  function Metadata(identify: Identify, row: Row): Option<string> {
    var worktree, directory := Identity(identify, row, "worktree"), Identity(identify, row, "directory");
    if worktree.Some? then worktree
    else if directory.Some? then directory
    else
      var path := Identity(identify, row, "path");
      if path.Some? then path else Identity(identify, row, "root")
  }

  function Lookup(routes: Routes, id: Option<string>): Option<string> {
    if id.Some? && id.value in routes then Some(routes[id.value]) else None
  }

  function OrElse(a: Option<string>, b: Option<string>): Option<string> {
    if a.Some? then a else b
  }

  // ---- routes that several rows must agree on --------------------------------------------

  type Claim = (string, string)

  /** Disagreement sends an id to legacy-global, for good. */
  function Consistent(routes: Routes, claim: Claim): Routes {
    var (id, destination) := claim;
    if id !in routes then routes[id := destination]
    else if routes[id] == destination || routes[id] == LEGACY_GLOBAL then routes
    else routes[id := LEGACY_GLOBAL]
  }

  function AllConsistent(routes: Routes, claims: seq<Claim>): Routes {
    if claims == [] then routes
    else Consistent(AllConsistent(routes, claims[..|claims| - 1]), claims[|claims| - 1])
  }

  ghost function ClaimsOf(routes: Routes, claims: seq<Claim>, id: string): set<string> {
    (if id in routes then {routes[id]} else {}) + set c | c in claims && c.0 == id :: c.1
  }

  /** Nothing claimed, one destination claimed, or two that differ. */
  ghost predicate Agreed(claimed: set<string>, route: Option<string>) {
    match route
    case None => claimed == {}
    case Some(r) => claimed == {r} || (r == LEGACY_GLOBAL && exists a, b :: a in claimed && b in claimed && a != b)
  }

  lemma AgreedIsUnique(claimed: set<string>, r: Option<string>, s: Option<string>)
    requires Agreed(claimed, r) && Agreed(claimed, s)
    ensures r == s
  {
    if r.Some? && s.Some? && claimed == {r.value} {
      assert s.value == r.value;
    }
  }

  lemma OneMoreClaim(claimed: set<string>, routes: Routes, claim: Claim)
    requires Agreed(claimed, Lookup(routes, Some(claim.0)))
    ensures Agreed(claimed + {claim.1}, Lookup(Consistent(routes, claim), Some(claim.0)))
  {
    if claim.0 in routes {
      if claimed == {routes[claim.0]} && routes[claim.0] != claim.1 {
        assert routes[claim.0] in claimed + {claim.1} && claim.1 in claimed + {claim.1};
      } else if claimed != {routes[claim.0]} {
        var a, b :| a in claimed && b in claimed && a != b;
        assert a in claimed + {claim.1} && b in claimed + {claim.1};
      }
    }
  }

  lemma ClaimsGrow(routes: Routes, claims: seq<Claim>, n: nat, id: string)
    requires n + 1 == |claims|
    ensures ClaimsOf(routes, claims, id) == ClaimsOf(routes, claims[..n], id) + if claims[n].0 == id then {claims[n].1} else {}
  {
    assert claims == claims[..n] + [claims[n]];
  }

  /** The outcome depends on which destinations are claimed, not on the order of the rows. */
  lemma {:induction false} AllConsistentAgrees(routes: Routes, claims: seq<Claim>, id: string)
    ensures Agreed(ClaimsOf(routes, claims, id), Lookup(AllConsistent(routes, claims), Some(id)))
  {
    if claims != [] {
      var n := |claims| - 1;
      AllConsistentAgrees(routes, claims[..n], id);
      ClaimsGrow(routes, claims, n, id);
      if claims[n].0 == id {
        OneMoreClaim(ClaimsOf(routes, claims[..n], id), AllConsistent(routes, claims[..n]), claims[n]);
      }
    }
  }

  lemma OrderIsImmaterial(routes: Routes, claims: seq<Claim>, others: seq<Claim>)
    requires forall c :: c in claims <==> c in others
    ensures AllConsistent(routes, claims) == AllConsistent(routes, others)
  {
    forall id
      ensures Lookup(AllConsistent(routes, claims), Some(id)) == Lookup(AllConsistent(routes, others), Some(id))
    {
      AllConsistentAgrees(routes, claims, id);
      AllConsistentAgrees(routes, others, id);
      assert ClaimsOf(routes, claims, id) == ClaimsOf(routes, others, id);
      AgreedIsUnique(ClaimsOf(routes, claims, id), Lookup(AllConsistent(routes, claims), Some(id)),
                     Lookup(AllConsistent(routes, others), Some(id)));
    }
    SameLookups(AllConsistent(routes, claims), AllConsistent(routes, others));
  }

  lemma SameLookups(a: Routes, b: Routes)
    requires forall id :: Lookup(a, Some(id)) == Lookup(b, Some(id))
    ensures a == b
  {
    forall id
      ensures id in a <==> id in b
      ensures id in a && id in b ==> a[id] == b[id]
    {
      assert Lookup(a, Some(id)) == Lookup(b, Some(id));
    }
  }

  // ---- routes read off rows ---------------------------------------------------------------

  /** What the rows claim: for each row with both, the id in `column` and the destination. */
  function Claimed(rows: seq<Row>, column: string, destination: Row -> Option<string>): seq<Claim> {
    if rows == [] then []
    else
      var before, last := Claimed(rows[..|rows| - 1], column, destination), rows[|rows| - 1];
      if column in last.text && destination(last).Some? then before + [(last.text[column], destination(last).value)] else before
  }

  lemma {:induction false} ClaimedBy(rows: seq<Row>, column: string, destination: Row -> Option<string>, c: Claim)
    ensures c in Claimed(rows, column, destination)
      <==> exists r :: r in rows && column in r.text && r.text[column] == c.0 && destination(r) == Some(c.1)
  {
    if rows != [] {
      var n := |rows| - 1;
      ClaimedBy(rows[..n], column, destination, c);
      assert rows == rows[..n] + [rows[n]];
    }
  }

  /** A later claim replaces an earlier one. */
  function Overwritten(claims: seq<Claim>): Routes {
    if claims == [] then map[]
    else Overwritten(claims[..|claims| - 1])[claims[|claims| - 1].0 := claims[|claims| - 1].1]
  }

  function Defaulted(routes: Routes, rows: seq<Row>): Routes {
    if rows == [] then routes
    else
      var before, last := Defaulted(routes, rows[..|rows| - 1]), rows[|rows| - 1];
      if "id" in last.text && last.text["id"] !in before then before[last.text["id"] := LEGACY_GLOBAL] else before
  }

  ghost predicate HasRow(rows: seq<Row>, id: string) {
    exists r :: r in rows && TextField(r, "id") == Some(id)
  }

  lemma {:induction false} DefaultedAt(routes: Routes, rows: seq<Row>, id: string)
    ensures Lookup(Defaulted(routes, rows), Some(id)) ==
      if id in routes then Some(routes[id]) else if HasRow(rows, id) then Some(LEGACY_GLOBAL) else None
  {
    if rows != [] {
      var n := |rows| - 1;
      DefaultedAt(routes, rows[..n], id);
      assert rows == rows[..n] + [rows[n]];
      assert HasRow(rows, id) <==> HasRow(rows[..n], id) || TextField(rows[n], "id") == Some(id);
    }
  }

  /** The primary key of a table: no id twice. */
  ghost predicate UniqueIds(rows: seq<Row>) {
    forall i, j :: 0 <= i < j < |rows| && "id" in rows[i].text && "id" in rows[j].text ==> rows[i].text["id"] != rows[j].text["id"]
  }

  lemma {:induction false} OverwrittenAt(rows: seq<Row>, destination: Row -> Option<string>, r: Row)
    requires UniqueIds(rows) && r in rows && "id" in r.text
    ensures Lookup(Overwritten(Claimed(rows, "id", destination)), Some(r.text["id"])) == destination(r)
  {
    var n := |rows| - 1;
    var before, last := Claimed(rows[..n], "id", destination), rows[n];
    assert rows == rows[..n] + [last];
    if r in rows[..n] {
      OverwrittenAt(rows[..n], destination, r);
    } else {
      NotOverwritten(rows[..n], destination, r.text["id"]);
    }
    if "id" in last.text && destination(last).Some? {
      var c := (last.text["id"], destination(last).value);
      assert Claimed(rows, "id", destination) == before + [c] && (before + [c])[..|before|] == before;
    } else {
      assert Claimed(rows, "id", destination) == before;
    }
  }

  lemma {:induction false} NotOverwritten(rows: seq<Row>, destination: Row -> Option<string>, id: string)
    requires !HasRow(rows, id)
    ensures id !in Overwritten(Claimed(rows, "id", destination))
  {
    forall c | c in Claimed(rows, "id", destination)
      ensures c.0 != id
    {
      ClaimedBy(rows, "id", destination, c);
    }
    OnlyClaimed(Claimed(rows, "id", destination), id);
  }

  lemma {:induction false} OnlyClaimed(claims: seq<Claim>, id: string)
    ensures id in Overwritten(claims) <==> exists c :: c in claims && c.0 == id
    ensures id in Overwritten(claims) ==> exists c :: c in claims && c.0 == id && c.1 == Overwritten(claims)[id]
  {
    if claims != [] {
      OnlyClaimed(claims[..|claims| - 1], id);
      assert claims == claims[..|claims| - 1] + [claims[|claims| - 1]];
    }
  }

  method InsertAll(rows: seq<Row>, column: string, destination: Row -> Option<string>) returns (routes: Routes)
    ensures routes == Overwritten(Claimed(rows, column, destination))
  {
    routes := map[];
    for i := 0 to |rows|
      invariant routes == Overwritten(Claimed(rows[..i], column, destination))
    {
      var row := rows[i];
      assert rows[..i + 1][..i] == rows[..i];
      if column in row.text {
        var to := destination(row);
        if to.Some? {
          routes := routes[row.text[column] := to.value];
          LastClaim(Claimed(rows[..i], column, destination), (row.text[column], to.value));
        }
      }
    }
    assert rows[..|rows|] == rows;
  }

  lemma LastClaim(claims: seq<Claim>, c: Claim)
    ensures Overwritten(claims + [c]) == Overwritten(claims)[c.0 := c.1]
    ensures forall routes :: AllConsistent(routes, claims + [c]) == Consistent(AllConsistent(routes, claims), c)
  {
    assert (claims + [c])[..|claims|] == claims;
  }

  method InsertConsistent(before: Routes, rows: seq<Row>, column: string, destination: Row -> Option<string>) returns (routes: Routes)
    ensures routes == AllConsistent(before, Claimed(rows, column, destination))
  {
    routes := before;
    for i := 0 to |rows|
      invariant routes == AllConsistent(before, Claimed(rows[..i], column, destination))
    {
      var row := rows[i];
      assert rows[..i + 1][..i] == rows[..i];
      if column in row.text {
        var to := destination(row);
        if to.Some? {
          routes := Consistent(routes, (row.text[column], to.value));
          LastClaim(Claimed(rows[..i], column, destination), (row.text[column], to.value));
        }
      }
    }
    assert rows[..|rows|] == rows;
  }

  method InsertDefaults(before: Routes, rows: seq<Row>) returns (routes: Routes)
    ensures routes == Defaulted(before, rows)
  {
    routes := before;
    for i := 0 to |rows|
      invariant routes == Defaulted(before, rows[..i])
    {
      assert rows[..i + 1][..i] == rows[..i];
      if "id" in rows[i].text && rows[i].text["id"] !in routes {
        routes := routes[rows[i].text["id"] := LEGACY_GLOBAL];
      }
    }
    assert rows[..|rows|] == rows;
  }

  // ---- projects and workspaces ----------------------------------------------------------------

  function OwnIdentity(identify: Identify): Row -> Option<string> {
    r => Metadata(identify, r)
  }

  function DirectoryIdentity(identify: Identify): Row -> Option<string> {
    r => Identity(identify, r, "directory")
  }

  /** The first of the columns that identifies a destination. */
  function FirstIdentity(identify: Identify, row: Row, columns: seq<string>): Option<string> {
    if columns == [] then None
    else if columns[0] in row.text && identify(row.text[columns[0]]).Some? then identify(row.text[columns[0]])
    else FirstIdentity(identify, row, columns[1..])
  }

  /** A row's own paths: its worktree counts before its directory, then its path and its root. */
  lemma MetadataMeaning(identify: Identify, row: Row)
    ensures Metadata(identify, row) == FirstIdentity(identify, row, ["worktree", "directory", "path", "root"])
  {
    var columns := ["worktree", "directory", "path", "root"];
    assert columns[1..] == ["directory", "path", "root"] && columns[1..][1..] == ["path", "root"];
    assert columns[1..][1..][1..] == ["root"] && columns[1..][1..][1..][1..] == [];
    assert FirstIdentity(identify, row, ["root"]) == Identity(identify, row, "root");
    assert FirstIdentity(identify, row, ["path", "root"]) == OrElse(Identity(identify, row, "path"), Identity(identify, row, "root"));
  }

  function ProjectRoutes(identify: Identify, tables: Tables): Routes {
    var named := Overwritten(Claimed(RowsOf(tables, "project"), "id", OwnIdentity(identify)));
    var claims := Claimed(RowsOf(tables, "project_directory"), "project_id", DirectoryIdentity(identify));
    Defaulted(AllConsistent(named, claims), RowsOf(tables, "project"))
  }

  /** The destinations a project's own paths and its directories point to. */
  ghost function ProjectClaims(identify: Identify, tables: Tables, id: string): set<string> {
    (set r | r in RowsOf(tables, "project") && TextField(r, "id") == Some(id) && Metadata(identify, r).Some? ::
       Metadata(identify, r).value)
    + (set r | r in RowsOf(tables, "project_directory") && TextField(r, "project_id") == Some(id)
               && Identity(identify, r, "directory").Some? :: Identity(identify, r, "directory").value)
  }

  lemma ProjectClaimsFolded(identify: Identify, tables: Tables, id: string)
    requires UniqueIds(RowsOf(tables, "project"))
    ensures ClaimsOf(Overwritten(Claimed(RowsOf(tables, "project"), "id", OwnIdentity(identify))),
                     Claimed(RowsOf(tables, "project_directory"), "project_id", DirectoryIdentity(identify)), id)
      == ProjectClaims(identify, tables, id)
  {
    var projects, directories := RowsOf(tables, "project"), RowsOf(tables, "project_directory");
    var named := Overwritten(Claimed(projects, "id", OwnIdentity(identify)));
    var claims := Claimed(directories, "project_id", DirectoryIdentity(identify));
    forall d
      ensures d in ClaimsOf(named, claims, id) <==> d in ProjectClaims(identify, tables, id)
    {
      ClaimedBy(directories, "project_id", DirectoryIdentity(identify), (id, d));
      OnlyClaimed(Claimed(projects, "id", OwnIdentity(identify)), id);
      forall r | r in projects && TextField(r, "id") == Some(id)
        ensures Lookup(named, Some(id)) == Metadata(identify, r)
      {
        OverwrittenAt(projects, OwnIdentity(identify), r);
      }
      if id in named {
        ClaimedBy(projects, "id", OwnIdentity(identify), (id, named[id]));
      }
    }
  }

  /** A project is routed where everything that points anywhere points, else to legacy-global. */
  lemma ProjectRouteMeaning(identify: Identify, tables: Tables, id: string)
    requires UniqueIds(RowsOf(tables, "project"))
    ensures var claimed, route := ProjectClaims(identify, tables, id), Lookup(ProjectRoutes(identify, tables), Some(id));
      if claimed != {} then Agreed(claimed, route)
      else route == if HasRow(RowsOf(tables, "project"), id) then Some(LEGACY_GLOBAL) else None
  {
    var named := Overwritten(Claimed(RowsOf(tables, "project"), "id", OwnIdentity(identify)));
    var claims := Claimed(RowsOf(tables, "project_directory"), "project_id", DirectoryIdentity(identify));
    ProjectClaimsFolded(identify, tables, id);
    AllConsistentAgrees(named, claims, id);
    DefaultedAt(AllConsistent(named, claims), RowsOf(tables, "project"), id);
  }

  function WorkspaceDestination(identify: Identify, projects: Routes): Row -> Option<string> {
    r => OrElse(Lookup(projects, TextField(r, "project_id")), Metadata(identify, r))
  }

  function WorkspaceRoutes(identify: Identify, projects: Routes, tables: Tables): Routes {
    var rows := RowsOf(tables, "workspace");
    Defaulted(AllConsistent(map[], Claimed(rows, "id", WorkspaceDestination(identify, projects))), rows)
  }

  lemma OneOfAnId(rows: seq<Row>, r: Row, q: Row)
    requires UniqueIds(rows) && r in rows && q in rows && "id" in r.text && TextField(q, "id") == Some(r.text["id"])
    ensures q == r
  {
    var i :| 0 <= i < |rows| && rows[i] == r;
    var j :| 0 <= j < |rows| && rows[j] == q;
  }

  lemma ClaimOfOneRow(rows: seq<Row>, to: Row -> Option<string>, r: Row)
    requires UniqueIds(rows) && r in rows && "id" in r.text
    ensures ClaimsOf(map[], Claimed(rows, "id", to), r.text["id"]) == if to(r).Some? then {to(r).value} else {}
  {
    forall d
      ensures d in ClaimsOf(map[], Claimed(rows, "id", to), r.text["id"]) <==> to(r) == Some(d)
    {
      ClaimedBy(rows, "id", to, (r.text["id"], d));
      forall q | q in rows && TextField(q, "id") == Some(r.text["id"])
        ensures q == r
      {
        OneOfAnId(rows, r, q);
      }
    }
  }

  /** A workspace goes where its project goes, else where its own paths point, else to legacy-global. */
  lemma WorkspaceRouteMeaning(identify: Identify, projects: Routes, tables: Tables, r: Row)
    requires UniqueIds(RowsOf(tables, "workspace")) && r in RowsOf(tables, "workspace") && "id" in r.text
    ensures Lookup(WorkspaceRoutes(identify, projects, tables), Some(r.text["id"]))
      == OrElse(OrElse(Lookup(projects, TextField(r, "project_id")), Metadata(identify, r)), Some(LEGACY_GLOBAL))
  {
    var rows, to := RowsOf(tables, "workspace"), WorkspaceDestination(identify, projects);
    var claims := Claimed(rows, "id", to);
    ClaimOfOneRow(rows, to, r);
    AllConsistentAgrees(map[], claims, r.text["id"]);
    AgreedIsUnique(ClaimsOf(map[], claims, r.text["id"]), Lookup(AllConsistent(map[], claims), Some(r.text["id"])), to(r));
    DefaultedAt(AllConsistent(map[], claims), rows, r.text["id"]);
    assert TextField(r, "id") == Some(r.text["id"]);
  }

  /** And no other id is routed. */
  lemma OnlyWorkspacesRouted(identify: Identify, projects: Routes, tables: Tables, id: string)
    requires !HasRow(RowsOf(tables, "workspace"), id)
    ensures id !in WorkspaceRoutes(identify, projects, tables)
  {
    var rows, to := RowsOf(tables, "workspace"), WorkspaceDestination(identify, projects);
    var claims := Claimed(rows, "id", to);
    forall c | c in claims
      ensures c.0 != id
    {
      ClaimedBy(rows, "id", to, c);
    }
    AllConsistentAgrees(map[], claims, id);
    DefaultedAt(AllConsistent(map[], claims), rows, id);
  }

  method RouteProjects(identify: Identify, tables: Tables) returns (projects: Routes)
    ensures projects == ProjectRoutes(identify, tables)
  {
    projects := InsertAll(RowsOf(tables, "project"), "id", OwnIdentity(identify));
    projects := InsertConsistent(projects, RowsOf(tables, "project_directory"), "project_id", DirectoryIdentity(identify));
    projects := InsertDefaults(projects, RowsOf(tables, "project"));
  }

  method RouteWorkspaces(identify: Identify, projects: Routes, tables: Tables) returns (workspaces: Routes)
    ensures workspaces == WorkspaceRoutes(identify, projects, tables)
  {
    workspaces := InsertConsistent(map[], RowsOf(tables, "workspace"), "id", WorkspaceDestination(identify, projects));
    workspaces := InsertDefaults(workspaces, RowsOf(tables, "workspace"));
  }
}
