/**
 What a repair leaves: every row that does not go with a removed session is there as often as before, and
 the same but for the project it is attributed to.
 */
module RepairKeeps {
  import opened Wrappers
  import opened Routing
  import opened Selection
  import opened Repair

  // ---- rows up to their project ----------------------------------------------------------------------

  /** The same row in every column but the project. */
  ghost predicate Alike(q: Row, r: Row) {
    q.rest == r.rest && forall column :: column != "project_id" ==> TextField(q, column) == TextField(r, column)
  }

  ghost function CountAlike(rows: seq<Row>, q: Row): nat {
    if rows == [] then 0
    else CountAlike(rows[..|rows| - 1], q) + if Alike(q, rows[|rows| - 1]) then 1 else 0
  }

  lemma AttributedIsAlike(q: Row, r: Row, project: string)
    ensures Alike(q, AttributeRow(r, project)) <==> Alike(q, r)
  {
    var t := AttributeRow(r, project);
    forall column | column != "project_id"
      ensures TextField(t, column) == TextField(r, column)
    {
    }
  }

  lemma {:induction false} AttributedCount(rows: seq<Row>, project: string, n: string, q: Row)
    ensures CountAlike(TableAttributed(rows, project, n), q) == CountAlike(rows, q)
  {
    if rows != [] {
      var m := |rows| - 1;
      AttributedCount(rows[..m], project, n, q);
      AttributedIsAlike(q, rows[m], project);
      assert TableAttributed(rows, project, n)[..m] == TableAttributed(rows[..m], project, n);
    }
  }

  lemma {:induction false} SurvivorsCount(rows: seq<Row>, doomed: Row -> bool, q: Row)
    requires forall r :: Alike(q, r) ==> doomed(r) == doomed(q)
    ensures CountAlike(Survivors(rows, doomed), q) == if doomed(q) then 0 else CountAlike(rows, q)
  {
    if rows != [] {
      var m := |rows| - 1;
      SurvivorsCount(rows[..m], doomed, q);
      OneMoreSurvivor(rows, m, doomed);
      OneMoreAlike(Survivors(rows[..m], doomed), rows[m], q);
    }
  }

  lemma OneMoreAlike(rows: seq<Row>, last: Row, q: Row)
    ensures CountAlike(rows + [last], q) == CountAlike(rows, q) + if Alike(q, last) then 1 else 0
  {
    assert (rows + [last])[..|rows|] == rows;
  }

  // ---- which rows go ---------------------------------------------------------------------------------------

  /** The row names a message, as stored, of a session of the set. */
  ghost predicate OfTheirMessage(tables: Tables, ids: set<string>, q: Row) {
    && "message_id" in q.text
    && exists m :: m in RowsOf(tables, "message") && TextField(m, "id") == Some(q.text["message_id"]) && OfTheirSession(ids, m)
  }

  ghost predicate OfTheirSession(ids: set<string>, q: Row) {
    "session_id" in q.text && q.text["session_id"] in ids
  }

  /**
     A session goes with its id, a message with its session; another row goes with its message if the table has that
     column, else with its session if it has that one, and else stays.
   */
  ghost predicate Goes(columns: Columns, tables: Tables, ids: set<string>, n: string, q: Row) {
    if n == "session" then "id" in q.text && q.text["id"] in ids
    else if n == "message" then OfTheirSession(ids, q)
    else if n in columns && "message_id" in columns[n] then OfTheirMessage(tables, ids, q)
    else n in columns && "session_id" in columns[n] && OfTheirSession(ids, q)
  }

  lemma BearersCount(rows: seq<Row>, column: string, ids: set<string>, q: Row)
    requires column != "project_id"
    ensures CountAlike(Survivors(rows, Bears(column, ids)), q) == if TextIn(q, column, ids) then 0 else CountAlike(rows, q)
  {
    forall r | Alike(q, r)
      ensures Bears(column, ids)(r) == Bears(column, ids)(q)
    {
      assert TextField(q, column) == TextField(r, column);
    }
    SurvivorsCount(rows, Bears(column, ids), q);
  }

  lemma BearsMessage(tables: Tables, ids: set<string>, q: Row)
    ensures TextIn(q, "message_id", MessagesOf(RowsOf(tables, "message"), ids)) <==> OfTheirMessage(tables, ids, q)
  {
    if OfTheirMessage(tables, ids, q) {
      var m :| m in RowsOf(tables, "message") && TextField(m, "id") == Some(q.text["message_id"]) && OfTheirSession(ids, m);
      assert m.text["id"] in MessagesOf(RowsOf(tables, "message"), ids);
    }
  }

  lemma LeftCount(columns: Columns, tables: Tables, ids: set<string>, n: string, q: Row)
    requires n in tables
    ensures CountAlike(RowsLeft(columns, tables, ids, n), q)
      == if Goes(columns, tables, ids, n, q) then 0 else CountAlike(tables[n], q)
  {
    BearersCount(tables[n], "id", ids, q);
    BearersCount(tables[n], "session_id", ids, q);
    BearersCount(tables[n], "message_id", MessagesOf(RowsOf(tables, "message"), ids), q);
    BearsMessage(tables, ids, q);
  }

  /** In every table, whatever does not go is there as often as before, but for its project; what goes is not there at all. */
  lemma RepairedCount(columns: Columns, store: Store, malformed: set<string>, project: string, n: string, q: Row)
    requires n in store.tables
    ensures n in Repaired(columns, store, malformed, project).tables
    ensures CountAlike(Repaired(columns, store, malformed, project).tables[n], q)
      == if Goes(columns, store.tables, malformed, n, q) then 0 else CountAlike(store.tables[n], q)
  {
    LeftCount(columns, store.tables, malformed, n, q);
    AttributedCount(RowsLeft(columns, store.tables, malformed, n), project, n, q);
  }

  /** A row that names no session of the set, and no message of one, goes nowhere. */
  lemma HealthyStays(columns: Columns, tables: Tables, ids: set<string>, n: string, q: Row)
    requires n == "session" ==> "id" in q.text ==> q.text["id"] !in ids
    requires n != "session" ==> !OfTheirSession(ids, q) && !OfTheirMessage(tables, ids, q)
    ensures !Goes(columns, tables, ids, n, q)
  {
  }

  /** Outside the tables of sessions and workspaces, not even the project changes. */
  lemma OthersUntouched(columns: Columns, store: Store, malformed: set<string>, project: string, n: string, r: Row)
    requires n in store.tables && n != "session" && n != "workspace"
    ensures multiset(Repaired(columns, store, malformed, project).tables[n])[r]
      == if Goes(columns, store.tables, malformed, n, r) then 0 else multiset(store.tables[n])[r]
  {
    BearsMessage(store.tables, malformed, r);
    var messages := MessagesOf(RowsOf(store.tables, "message"), malformed);
    SurvivorsMultiset(store.tables[n], Bears("session_id", malformed), r);
    SurvivorsMultiset(store.tables[n], Bears("message_id", messages), r);
  }

  lemma {:induction false} SurvivorsMultiset(rows: seq<Row>, doomed: Row -> bool, r: Row)
    ensures multiset(Survivors(rows, doomed))[r] == if doomed(r) then 0 else multiset(rows)[r]
  {
    if rows != [] {
      var m := |rows| - 1;
      SurvivorsMultiset(rows[..m], doomed, r);
      OneMoreSurvivor(rows, m, doomed);
      assert rows == rows[..m] + [rows[m]];
    }
  }
}
