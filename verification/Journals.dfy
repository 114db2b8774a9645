/**
 The migration logs of OpenCode's own schema: every new store starts with those of the source, and a
 store that was there before keeps its own and gets nothing.
 */
module Journals {
  import opened Wrappers
  import opened TableMerge
  import opened Migration
  import opened Routing
  import opened SessionRouting
  import opened Selection
  import opened Delivery
  import RowKeys

  ghost predicate EmptyContent(content: Content) {
    content == Unique(map[]) || content == Counts(multiset{})
  }

  lemma JournalStays(p: Policy, m: States, plans: map<string, Plan>, d: string, n: string)
    requires PlansOk(plans) && d in plans && CanMerge(p, StateAt(m, d), plans[d])
    requires n in plans[d].tables && plans[d].tables[n].journal && StateAt(m, d).holding.Holds?
    ensures var had, final := Had(StateAt(m, d)).tables, Had(StateAt(Final(p, m, plans), d)).tables;
      n in final && if n in had then final[n] == had[n] else EmptyContent(final[n])
  {
    FinalAt(p, m, plans, d);
    assert RowsOk(plans[d], n);
  }

  /** A store that was there before keeps each journal as it is, however often the migration was cut short and repeated. */
  lemma JournalsStay(p: Policy, m: States, now: States, plans: map<string, Plan>, d: string, n: string)
    requires PlansOk(plans) && (forall e :: e in m ==> WellFormed(m[e])) && CanRun(p, m, plans) && Interrupted(p, m, now, plans)
    requires d in plans && n in plans[d].tables && plans[d].tables[n].journal && StateAt(m, d).holding.Holds?
    ensures var had, final := Had(StateAt(m, d)).tables, Had(StateAt(Final(p, now, plans), d)).tables;
      n in final && if n in had then final[n] == had[n] else EmptyContent(final[n])
  {
    RerunIsUninterrupted(p, m, now, plans);
    JournalStays(p, m, plans, d, n);
  }

  lemma SameHeld(a: States, b: States, d: string, n: string, columns: seq<nat>, row: RowKeys.Row)
    requires HasColumns(columns, row)
    requires var had, final := Had(StateAt(a, d)).tables, Had(StateAt(b, d)).tables;
      n in final && if n in had then final[n] == had[n] else EmptyContent(final[n])
    ensures HeldAt(b, d, n, columns, row) == HeldAt(a, d, n, columns, row)
  {
  }

  /** So it holds each row as often as before. */
  lemma JournalRowsStay(p: Policy, m: States, now: States, plans: map<string, Plan>, d: string, n: string, row: RowKeys.Row)
    requires PlansOk(plans) && (forall e :: e in m ==> WellFormed(m[e])) && CanRun(p, m, plans) && Interrupted(p, m, now, plans)
    requires d in plans && n in plans[d].tables && plans[d].tables[n].journal && StateAt(m, d).holding.Holds?
    requires HasColumns(plans[d].tables[n].primaryKey, row)
    ensures HeldAt(Final(p, now, plans), d, n, plans[d].tables[n].primaryKey, row) == HeldAt(m, d, n, plans[d].tables[n].primaryKey, row)
  {
    JournalsStay(p, m, now, plans, d, n);
    SameHeld(m, Final(p, now, plans), d, n, plans[d].tables[n].primaryKey, row);
  }

  lemma NewTable(plan: Plan, n: string)
    requires PlanOk(plan) && n in plan.tables && RowsOk(plan, n) && plan.tables[n].copyRows
    ensures n in TablesAfter(map[], plan, false)
    ensures TablesAfter(map[], plan, false)[n]
      == Merge(plan.tables[n].primaryKey, Created(map[], plan.tables[n], n), plan.rows[n])
    ensures Created(map[], plan.tables[n], n) == if plan.tables[n].primaryKey != [] then Unique(map[]) else Counts(multiset{})
  {
  }

  lemma MergedFromNothing(columns: seq<nat>, rows: seq<RowKeys.Row>, row: RowKeys.Row)
    requires AllColumns(columns, rows) && UniqueKeys(columns, rows) && HasColumns(columns, row)
    ensures CountIn(columns, Merge(columns, if columns != [] then Unique(map[]) else Counts(multiset{}), rows), row) == multiset(rows)[row]
  {
    if columns == [] {
      JoinedCounts(multiset{}, multiset(rows), row);
    } else {
      FilledMeaning(columns, map[], rows, KeyOf(columns, row));
      OnlyOnce(columns, rows, row);
      if row in rows {
        KeyedDelivers(columns, map[], rows, rows, row);
      }
    }
  }

  /** A new store holds every copied row of its plan, journals included, as often as the plan does, and no other. */
  lemma NewStoreHolds(p: Policy, m: States, now: States, plans: map<string, Plan>, d: string, n: string, row: RowKeys.Row)
    requires PlansOk(plans) && (forall e :: e in m ==> WellFormed(m[e])) && CanRun(p, m, plans) && Interrupted(p, m, now, plans)
    requires d in plans && StateAt(m, d).holding.Absent? && n in plans[d].tables && plans[d].tables[n].copyRows
    requires var columns := plans[d].tables[n].primaryKey;
      RowsOk(plans[d], n) && UniqueKeys(columns, plans[d].rows[n]) && HasColumns(columns, row)
    ensures HeldAt(Final(p, now, plans), d, n, plans[d].tables[n].primaryKey, row) == multiset(plans[d].rows[n])[row]
  {
    RerunIsUninterrupted(p, m, now, plans);
    FinalAt(p, m, plans, d);
    NewTable(plans[d], n);
    MergedFromNothing(plans[d].tables[n].primaryKey, plans[d].rows[n], row);
  }

  // ---- from the source ---------------------------------------------------------------------------------

  /** Rows are copied of the known tables alone, and the known logs are journals. */
  predicate KnownTables(infos: map<string, TableInfo>) {
    forall n :: n in infos ==>
      infos[n].copyRows == (n in GRAPH_TABLES || n in SCHEMA_TABLES) && infos[n].journal == (n in SCHEMA_TABLES)
  }

  predicate Journal(n: string) {
    n == "__drizzle_migrations" || n == "_prisma_migrations" || n == "migration" || n == "data_migration"
  }

  /** Every destination is given all rows of the logs. */
  lemma JournalChosen(identify: Identify, d: string, n: string, row: Routing.Row, routing: Attribution)
    requires Journal(n)
    ensures n in SCHEMA_TABLES && Kept(identify, d, n, row, routing)
  {
  }

  lemma {:induction false} AllFiltered(keep: RowKeys.Row -> bool, rows: seq<RowKeys.Row>)
    requires forall r :: r in rows ==> keep(r)
    ensures Filtered(keep, rows) == rows
  {
    if rows != [] {
      AllFiltered(keep, rows[..|rows| - 1]);
      assert rows == rows[..|rows| - 1] + [rows[|rows| - 1]];
    }
  }

  lemma JournalPlanned(identify: Identify, read: Reading, routing: Attribution, source: Source, plans: map<string, Plan>, d: string,
                       n: string)
    requires plans == PlansFor(identify, read, routing, source) && d in plans
    requires KnownTables(source.infos) && Journal(n) && TableOk(source, n)
    ensures plans[d].tables == source.infos && source.infos[n].copyRows && source.infos[n].journal
    ensures RowsOk(plans[d], n) && plans[d].rows[n] == source.rows[n]
  {
    var keep := Chooses(identify, read, routing, d, n);
    PlanRowsAreOk(identify, read, routing, source, d, n);
    forall r | r in source.rows[n]
      ensures keep(r)
    {
      JournalChosen(identify, d, n, read(n, r), routing);
    }
    AllFiltered(keep, source.rows[n]);
  }

  /** Over the whole way, a new store starts with the logs of the source. */
  lemma SourceJournalsSeeded(identify: Identify, read: Reading, routing: Attribution, source: Source, p: Policy, m: States, now: States,
                             plans: map<string, Plan>, d: string, n: string, row: RowKeys.Row)
    requires plans == PlansFor(identify, read, routing, source) && PlansOk(plans) && d in plans
    requires (forall e :: e in m ==> WellFormed(m[e])) && CanRun(p, m, plans) && Interrupted(p, m, now, plans)
    requires KnownTables(source.infos) && Journal(n) && TableOk(source, n) && HasColumns(source.infos[n].primaryKey, row)
    requires StateAt(m, d).holding.Absent?
    ensures HeldAt(Final(p, now, plans), d, n, source.infos[n].primaryKey, row) == multiset(source.rows[n])[row]
  {
    JournalPlanned(identify, read, routing, source, plans, d, n);
    NewStoreHolds(p, m, now, plans, d, n, row);
  }

  /** And a store that was there has none of their rows added. */
  lemma SourceJournalsStay(identify: Identify, read: Reading, routing: Attribution, source: Source, p: Policy, m: States, now: States,
                           plans: map<string, Plan>, d: string, n: string, row: RowKeys.Row)
    requires plans == PlansFor(identify, read, routing, source) && PlansOk(plans) && d in plans
    requires (forall e :: e in m ==> WellFormed(m[e])) && CanRun(p, m, plans) && Interrupted(p, m, now, plans)
    requires KnownTables(source.infos) && Journal(n) && TableOk(source, n) && HasColumns(source.infos[n].primaryKey, row)
    requires StateAt(m, d).holding.Holds?
    ensures HeldAt(Final(p, now, plans), d, n, source.infos[n].primaryKey, row) == HeldAt(m, d, n, source.infos[n].primaryKey, row)
  {
    JournalPlanned(identify, read, routing, source, plans, d, n);
    JournalRowsStay(p, m, now, plans, d, n, row);
  }

  /** The tables whose rows are conserved: all that hang on sessions, but for the event tables, which are merged as histories. */
  lemma TablesCarried(source: Source, n: string)
    requires KnownTables(source.infos) && TableOk(source, n)
    requires n in {"session", "message", "part", "todo", "session_share", "session_message", "session_input", "session_context_epoch",
                   "share", "session_projection", "projection", "session_event", "session_diff", "snapshot"}
    ensures Carried(source, n)
  {
  }
}
