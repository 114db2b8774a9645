/**
 The whole way of a row: routed with its graph, selected into the plan of a destination, and merged
 into the private store there, also when the migration was cut short and repeated.
 */
module Delivery {
  import opened Wrappers
  import opened EventGraph
  import opened EventStore
  import opened TableMerge
  import opened Migration
  import opened SessionForest
  import opened Routing
  import opened SessionRouting
  import opened Selection
  import opened SelectionClosure
  import RowKeys

  /** The global database: its schema, its rows as they are stored, and its event tables. */
  datatype Source = Source(infos: map<string, TableInfo>, rows: map<string, seq<RowKeys.Row>>, events: Graph)

  /** How routing sees a stored row of a table: by the names of its text columns. */
  type Reading = (string, RowKeys.Row) -> Routing.Row

  predicate UniqueKeys(columns: seq<nat>, rows: seq<RowKeys.Row>)
    requires AllColumns(columns, rows)
  {
    columns != [] ==> forall i, j :: 0 <= i < j < |rows| ==> KeyOf(columns, rows[i]) != KeyOf(columns, rows[j])
  }

  ghost predicate TableOk(source: Source, n: string) {
    && n in source.infos && n in source.rows && AllColumns(source.infos[n].primaryKey, source.rows[n])
    && UniqueKeys(source.infos[n].primaryKey, source.rows[n])
    && forall i :: 0 <= i < |source.rows[n]| ==> RowKeys.StorableRow(source.rows[n][i])
  }

  ghost predicate SourceOk(source: Source) {
    ValidGraph(source.events) && forall n :: n in source.infos ==> TableOk(source, n)
  }

  function Seen(read: Reading, n: string, rows: seq<RowKeys.Row>): (seen: seq<Routing.Row>)
    ensures |seen| == |rows|
  {
    seq(|rows|, i requires 0 <= i < |rows| => read(n, rows[i]))
  }

  function SeenTables(read: Reading, source: Source): Tables {
    map n | n in source.rows :: Seen(read, n, source.rows[n])
  }

  // ---- the plans --------------------------------------------------------------------------------

  function Filtered(keep: RowKeys.Row -> bool, rows: seq<RowKeys.Row>): (kept: seq<RowKeys.Row>)
    ensures forall r :: r in kept <==> r in rows && keep(r)
  {
    if rows == [] then []
    else
      var before, last := Filtered(keep, rows[..|rows| - 1]), rows[|rows| - 1];
      assert rows == rows[..|rows| - 1] + [last];
      if keep(last) then before + [last] else before
  }

  function Chooses(identify: Identify, read: Reading, routing: Attribution, d: string, n: string): RowKeys.Row -> bool {
    row => Kept(identify, d, n, read(n, row), routing)
  }

  function Wants(routing: Attribution, d: string): string -> bool {
    a => AggregateKept(routing, d, a)
  }

  function PlanFor(identify: Identify, read: Reading, routing: Attribution, source: Source, d: string): Plan {
    Plan(source.infos,
         map n | n in source.infos && n in source.rows :: Filtered(Chooses(identify, read, routing, d, n), source.rows[n]),
         KeptGraph(source.events, Wants(routing, d)))
  }

  function PlansFor(identify: Identify, read: Reading, routing: Attribution, source: Source): (plans: map<string, Plan>)
    ensures plans.Keys == routing.destinations
  {
    map d | d in routing.destinations :: PlanFor(identify, read, routing, source, d)
  }

  /** What routing sees of the plan is what the selection yields. */
  lemma {:induction false} SelectionSeen(identify: Identify, read: Reading, routing: Attribution, d: string, n: string,
                                         rows: seq<RowKeys.Row>)
    ensures Seen(read, n, Filtered(Chooses(identify, read, routing, d, n), rows))
      == KeptRows(identify, d, n, Seen(read, n, rows), routing)
  {
    if rows != [] {
      var m := |rows| - 1;
      SelectionSeen(identify, read, routing, d, n, rows[..m]);
      assert Seen(read, n, rows)[..m] == Seen(read, n, rows[..m]);
    }
  }

  lemma LastIsNew(columns: seq<nat>, rows: seq<RowKeys.Row>)
    requires AllColumns(columns, rows) && UniqueKeys(columns, rows) && columns != [] && rows != []
    ensures forall r :: r in rows[..|rows| - 1] ==> KeyOf(columns, r) != KeyOf(columns, rows[|rows| - 1])
  {
    var n := |rows| - 1;
    forall r | r in rows[..n]
      ensures KeyOf(columns, r) != KeyOf(columns, rows[n])
    {
      var i :| 0 <= i < n && rows[..n][i] == r;
      assert rows[i] == r;
    }
  }

  lemma OneMoreUnique(columns: seq<nat>, rows: seq<RowKeys.Row>, last: RowKeys.Row)
    requires AllColumns(columns, rows) && UniqueKeys(columns, rows) && HasColumns(columns, last)
    requires columns != [] ==> forall r :: r in rows ==> KeyOf(columns, r) != KeyOf(columns, last)
    ensures AllColumns(columns, rows + [last]) && UniqueKeys(columns, rows + [last])
  {
    assert forall i :: 0 <= i < |rows| ==> (rows + [last])[i] == rows[i] && rows[i] in rows;
  }

  lemma {:induction false} FilteredUnique(columns: seq<nat>, keep: RowKeys.Row -> bool, rows: seq<RowKeys.Row>)
    requires AllColumns(columns, rows) && UniqueKeys(columns, rows)
    ensures AllColumns(columns, Filtered(keep, rows)) && UniqueKeys(columns, Filtered(keep, rows))
  {
    if rows != [] {
      var n := |rows| - 1;
      FilteredUnique(columns, keep, rows[..n]);
      if columns != [] {
        LastIsNew(columns, rows);
      }
      OneMoreUnique(columns, Filtered(keep, rows[..n]), rows[n]);
    }
  }

  lemma {:induction false} FilteredCount(keep: RowKeys.Row -> bool, rows: seq<RowKeys.Row>, r: RowKeys.Row)
    ensures multiset(Filtered(keep, rows))[r] == if keep(r) then multiset(rows)[r] else 0
  {
    if rows != [] {
      var n := |rows| - 1;
      FilteredCount(keep, rows[..n], r);
      assert rows == rows[..n] + [rows[n]];
    }
  }

  lemma PlanRowsAreOk(identify: Identify, read: Reading, routing: Attribution, source: Source, d: string, n: string)
    requires TableOk(source, n)
    ensures RowsOk(PlanFor(identify, read, routing, source, d), n)
  {
    var plan := PlanFor(identify, read, routing, source, d);
    FilteredUnique(source.infos[n].primaryKey, Chooses(identify, read, routing, d, n), source.rows[n]);
    assert forall i :: 0 <= i < |plan.rows[n]| ==> plan.rows[n][i] in source.rows[n];
  }

  /** Routing and selection yield plans that the migration can take. */
  lemma PlansAreOk(identify: Identify, read: Reading, routing: Attribution, source: Source)
    requires SourceOk(source)
    ensures PlansOk(PlansFor(identify, read, routing, source))
  {
    forall d | d in routing.destinations
      ensures PlanOk(PlanFor(identify, read, routing, source, d))
    {
      KeptGraphHistories(source.events, Wants(routing, d));
      forall n | n in source.infos
        ensures RowsOk(PlanFor(identify, read, routing, source, d), n)
      {
        PlanRowsAreOk(identify, read, routing, source, d, n);
      }
    }
  }

  // ---- what a store holds of a row ------------------------------------------------------------------

  function CountIn(columns: seq<nat>, content: Content, row: RowKeys.Row): nat
    requires HasColumns(columns, row)
  {
    match content
    case Unique(table) => if KeyOf(columns, row) in table && table[KeyOf(columns, row)] == row then 1 else 0
    case Counts(counts) => counts[row]
  }

  /** A private row under the key stays; otherwise the larger of the two numbers of copies. */
  function Topped(columns: seq<nat>, before: Content, copies: nat, row: RowKeys.Row): nat
    requires HasColumns(columns, row)
  {
    var count := CountIn(columns, before, row);
    if before.Unique? && KeyOf(columns, row) in before.unique then count
    else if count < copies then copies else count
  }

  function Merge(columns: seq<nat>, before: Content, rows: seq<RowKeys.Row>): Content
    requires AllColumns(columns, rows)
  {
    if before.Unique? then Unique(Filled(columns, before.unique, rows)) else Counts(Joined(before.counts, multiset(rows)))
  }

  lemma OfOneKey(columns: seq<nat>, rows: seq<RowKeys.Row>, a: RowKeys.Row, b: RowKeys.Row)
    requires AllColumns(columns, rows) && UniqueKeys(columns, rows) && columns != [] && a in rows && b in rows
    requires KeyOf(columns, a) == KeyOf(columns, b)
    ensures a == b
  {
    var i :| 0 <= i < |rows| && rows[i] == a;
    var j :| 0 <= j < |rows| && rows[j] == b;
    assert i == j;
  }

  lemma {:induction false} OnlyOnce(columns: seq<nat>, rows: seq<RowKeys.Row>, a: RowKeys.Row)
    requires AllColumns(columns, rows) && UniqueKeys(columns, rows) && columns != []
    ensures multiset(rows)[a] <= 1
  {
    if rows != [] {
      var n := |rows| - 1;
      OnlyOnce(columns, rows[..n], a);
      assert rows == rows[..n] + [rows[n]];
      LastIsNew(columns, rows);
    }
  }

  /** The part of a keyed source table that a store is given, and one row of the source. */
  lemma KeyedDelivers(columns: seq<nat>, before: Keyed, source: seq<RowKeys.Row>, rows: seq<RowKeys.Row>, row: RowKeys.Row)
    requires AllColumns(columns, source) && UniqueKeys(columns, source) && columns != [] && row in source
    requires forall r :: r in rows ==> r in source
    requires AllColumns(columns, rows) && UniqueKeys(columns, rows)
    ensures CountIn(columns, Unique(Filled(columns, before, rows)), row)
      == Topped(columns, Unique(before), multiset(rows)[row], row)
  {
    var k := KeyOf(columns, row);
    FilledMeaning(columns, before, rows, k);
    forall i | FirstWith(columns, rows, i, k)
      ensures rows[i] == row
    {
      assert rows[i] in rows;
      OfOneKey(columns, source, rows[i], row);
    }
    if row in rows {
      var j :| 0 <= j < |rows| && rows[j] == row;
      SomeFirst(columns, rows, j, k);
      OnlyOnce(columns, rows, row);
    }
  }

  lemma TableDelivers(columns: seq<nat>, before: Content, source: seq<RowKeys.Row>, keep: RowKeys.Row -> bool, row: RowKeys.Row)
    requires AllColumns(columns, source) && UniqueKeys(columns, source) && row in source
    requires before.Unique? <==> columns != []
    requires AllColumns(columns, Filtered(keep, source))
    ensures CountIn(columns, Merge(columns, before, Filtered(keep, source)), row)
      == Topped(columns, before, if keep(row) then multiset(source)[row] else 0, row)
  {
    FilteredCount(keep, source, row);
    if before.Unique? {
      FilteredUnique(columns, keep, source);
      KeyedDelivers(columns, before.unique, source, Filtered(keep, source), row);
    } else {
      JoinedCounts(before.counts, multiset(Filtered(keep, source)), row);
    }
  }

  /** How often a destination holds the row. */
  ghost function HeldAt(states: States, d: string, n: string, columns: seq<nat>, row: RowKeys.Row): nat
    requires HasColumns(columns, row)
  {
    var had := Had(StateAt(states, d)).tables;
    if n in had then CountIn(columns, had[n], row) else 0
  }

  /** The copies of the row that the destination is to be given. */
  ghost function Due(routing: Attribution, read: Reading, source: Source, d: string, n: string, row: RowKeys.Row): nat
    requires n in source.rows
  {
    if d == Selection.Home(n, read(n, row), routing) && !Dropped(n, read(n, row), routing) then multiset(source.rows[n])[row] else 0
  }

  // ---- one destination ----------------------------------------------------------------------------------

  lemma FinalAt(p: Policy, m: States, plans: map<string, Plan>, d: string)
    requires PlansOk(plans) && d in plans && CanMerge(p, StateAt(m, d), plans[d])
    ensures StateAt(Final(p, m, plans), d) == After(p, StateAt(m, d), plans[d])
  {
    assert d in Goals(p, m, plans);
  }

  lemma MergedTable(had: map<string, Content>, plan: Plan, existed: bool, n: string)
    requires PlanOk(plan) && RowsOk(plan, n) && plan.tables[n].copyRows && !plan.tables[n].journal && Compatible(had, plan)
    ensures n in TablesAfter(had, plan, existed)
    ensures TablesAfter(had, plan, existed)[n] == Merge(plan.tables[n].primaryKey, Created(had, plan.tables[n], n), plan.rows[n])
    ensures Created(had, plan.tables[n], n).Unique? == (plan.tables[n].primaryKey != [])
  {
  }

  lemma FinalTable(p: Policy, m: States, plans: map<string, Plan>, d: string, n: string)
    requires PlansOk(plans) && d in plans && CanMerge(p, StateAt(m, d), plans[d])
    requires RowsOk(plans[d], n) && plans[d].tables[n].copyRows && !plans[d].tables[n].journal
    ensures var info, had, final := plans[d].tables[n], Had(StateAt(m, d)).tables, Had(StateAt(Final(p, m, plans), d)).tables;
      n in final && final[n] == Merge(info.primaryKey, Created(had, info, n), plans[d].rows[n])
    ensures var info, had := plans[d].tables[n], Had(StateAt(m, d)).tables;
      Created(had, info, n).Unique? == (info.primaryKey != [])
  {
    FinalAt(p, m, plans, d);
    MergedTable(Had(StateAt(m, d)).tables, plans[d], StateAt(m, d).holding.Holds?, n);
  }

  /** One destination: it ends with the copies that were selected for it, on top of what it had. */
  lemma Delivered(p: Policy, m: States, plans: map<string, Plan>, d: string, n: string, source: seq<RowKeys.Row>,
                  keep: RowKeys.Row -> bool, row: RowKeys.Row)
    requires PlansOk(plans) && d in plans && CanMerge(p, StateAt(m, d), plans[d])
    requires RowsOk(plans[d], n) && plans[d].tables[n].copyRows && !plans[d].tables[n].journal
    requires var columns := plans[d].tables[n].primaryKey;
      AllColumns(columns, source) && UniqueKeys(columns, source) && row in source && plans[d].rows[n] == Filtered(keep, source)
    ensures var info := plans[d].tables[n];
      HeldAt(Final(p, m, plans), d, n, info.primaryKey, row)
        == Topped(info.primaryKey, Created(Had(StateAt(m, d)).tables, info, n), if keep(row) then multiset(source)[row] else 0, row)
  {
    var info := plans[d].tables[n];
    FinalTable(p, m, plans, d, n);
    TableDelivers(info.primaryKey, Created(Had(StateAt(m, d)).tables, info, n), source, keep, row);
  }

  lemma ToppedFromNothing(info: TableInfo, source: seq<RowKeys.Row>, n: string, copies: nat, row: RowKeys.Row)
    requires AllColumns(info.primaryKey, source) && UniqueKeys(info.primaryKey, source) && row in source
    requires copies <= multiset(source)[row]
    ensures Topped(info.primaryKey, Created(map[], info, n), copies, row) == copies
  {
  }

  // ---- conservation ------------------------------------------------------------------------------------

  /** A table whose rows hang on sessions and are copied. */
  ghost predicate Carried(source: Source, n: string) {
    n in GRAPH_TABLES && !Shared(n) && TableOk(source, n) && source.infos[n].copyRows && !source.infos[n].journal
  }

  lemma DueIff(identify: Identify, read: Reading, routing: Attribution, source: Source, d: string, n: string, row: RowKeys.Row)
    requires n in GRAPH_TABLES && !Shared(n) && n in source.rows
    ensures Due(routing, read, source, d, n, row)
      == if Chooses(identify, read, routing, d, n)(row) then multiset(source.rows[n])[row] else 0
  {
    NotSchema(n);
  }

  lemma PlanRows(identify: Identify, read: Reading, routing: Attribution, source: Source, plans: map<string, Plan>, d: string, n: string)
    requires plans == PlansFor(identify, read, routing, source) && PlansOk(plans) && d in routing.destinations && Carried(source, n)
    ensures d in plans && plans[d].tables == source.infos && RowsOk(plans[d], n)
    ensures plans[d].rows[n] == Filtered(Chooses(identify, read, routing, d, n), source.rows[n])
  {
    assert PlanOk(plans[d]);
  }

  /** Each destination ends with the copies that are due to it, unless a private row has their key. */
  lemma DueIsDelivered(identify: Identify, read: Reading, routing: Attribution, source: Source, p: Policy, m: States,
                       plans: map<string, Plan>, d: string, n: string, row: RowKeys.Row)
    requires plans == PlansFor(identify, read, routing, source) && PlansOk(plans) && d in plans
    requires Carried(source, n) && row in source.rows[n] && CanMerge(p, StateAt(m, d), plans[d])
    ensures var info := source.infos[n];
      HeldAt(Final(p, m, plans), d, n, info.primaryKey, row)
        == Topped(info.primaryKey, Created(Had(StateAt(m, d)).tables, info, n), Due(routing, read, source, d, n, row), row)
  {
    PlanRows(identify, read, routing, source, plans, d, n);
    Delivered(p, m, plans, d, n, source.rows[n], Chooses(identify, read, routing, d, n), row);
    DueIff(identify, read, routing, source, d, n, row);
  }

  ghost predicate AllAbsent(m: States, destinations: set<string>) {
    forall d :: d in destinations ==> StateAt(m, d).holding.Absent?
  }

  lemma DueFromNothing(identify: Identify, read: Reading, routing: Attribution, source: Source, p: Policy, m: States,
                       plans: map<string, Plan>, d: string, n: string, row: RowKeys.Row)
    requires plans == PlansFor(identify, read, routing, source) && PlansOk(plans) && d in plans
    requires Carried(source, n) && row in source.rows[n] && CanMerge(p, StateAt(m, d), plans[d])
    requires StateAt(m, d).holding.Absent?
    ensures HeldAt(Final(p, m, plans), d, n, source.infos[n].primaryKey, row) == Due(routing, read, source, d, n, row)
  {
    DueIsDelivered(identify, read, routing, source, p, m, plans, d, n, row);
    ToppedFromNothing(source.infos[n], source.rows[n], n, Due(routing, read, source, d, n, row), row);
  }

  lemma RowIsSeen(read: Reading, source: Source, n: string, row: RowKeys.Row)
    requires n in source.rows && row in source.rows[n]
    ensures n in SeenTables(read, source) && read(n, row) in SeenTables(read, source)[n]
  {
    var i :| 0 <= i < |source.rows[n]| && source.rows[n][i] == row;
    assert Seen(read, n, source.rows[n])[i] == read(n, row);
  }

  /**
     Conservation over the whole way: however often the migration was cut short and repeated, when the private
     stores did not exist before, each row ends in exactly one of them, its home, as often as it was there, and
     the others have none of it.
   */
  lemma RowsAreConserved(identify: Identify, read: Reading, routing: Attribution, source: Source, p: Policy, m: States, now: States,
                         plans: map<string, Plan>, n: string, row: RowKeys.Row)
    requires plans == PlansFor(identify, read, routing, source) && PlansOk(plans)
    requires Carried(source, n) && row in source.rows[n] && AllAbsent(m, routing.destinations)
    requires (forall d :: d in m ==> WellFormed(m[d])) && CanRun(p, m, plans) && Interrupted(p, m, now, plans)
    ensures forall d :: d in routing.destinations ==>
      HeldAt(Final(p, now, plans), d, n, source.infos[n].primaryKey, row) == Due(routing, read, source, d, n, row)
  {
    RerunIsUninterrupted(p, m, now, plans);
    forall d | d in routing.destinations
      ensures HeldAt(Final(p, m, plans), d, n, source.infos[n].primaryKey, row) == Due(routing, read, source, d, n, row)
    {
      DueFromNothing(identify, read, routing, source, p, m, plans, d, n, row);
    }
  }

  /** The one place a row is due to is a destination, unless it is dropped or known only from a project that no session goes with. */
  lemma DueSomewhere(identify: Identify, read: Reading, routing: Attribution, quarantine: bool, source: Source, n: string, row: RowKeys.Row)
    requires AllIds(RowsOf(SeenTables(read, source), "session")) && Routed(identify, SeenTables(read, source), quarantine, routing)
    requires Carried(source, n) && row in source.rows[n]
    ensures forall d, e :: Due(routing, read, source, d, n, row) > 0 && Due(routing, read, source, e, n, row) > 0 ==> d == e
    ensures (exists d :: d in routing.destinations && Due(routing, read, source, d, n, row) > 0) <==>
      !Dropped(n, read(n, row), routing) && Selection.Home(n, read(n, row), routing) in routing.destinations
    ensures !OnlyProject(n, read(n, row)) ==> Selection.Home(n, read(n, row), routing) in routing.destinations
    ensures !quarantine ==> !Dropped(n, read(n, row), routing)
  {
    RowIsSeen(read, source, n, row);
    KeptOnce(identify, SeenTables(read, source), quarantine, routing, n, read(n, row));
    assert Due(routing, read, source, Selection.Home(n, read(n, row), routing), n, row) > 0 <==> !Dropped(n, read(n, row), routing);
  }

  // ---- histories ---------------------------------------------------------------------------------------

  lemma MergedIntoNothing(s: Histories)
    ensures Merged(map[], s) == s
  {
  }

  lemma FinalHistories(p: Policy, m: States, plans: map<string, Plan>, d: string)
    requires PlansOk(plans) && d in plans && CanMerge(p, StateAt(m, d), plans[d]) && StateAt(m, d).holding.Absent?
    ensures Had(StateAt(Final(p, m, plans), d)).histories == HistoriesOf(plans[d].events)
  {
    FinalAt(p, m, plans, d);
    MergedIntoNothing(HistoriesOf(plans[d].events));
  }

  lemma HistoriesDelivered(identify: Identify, read: Reading, routing: Attribution, source: Source, p: Policy, m: States,
                           plans: map<string, Plan>, d: string)
    requires ValidGraph(source.events) && plans == PlansFor(identify, read, routing, source) && PlansOk(plans) && d in plans
    requires CanMerge(p, StateAt(m, d), plans[d]) && StateAt(m, d).holding.Absent?
    ensures Had(StateAt(Final(p, m, plans), d)).histories == Restricted(HistoriesOf(source.events), Wants(routing, d))
  {
    FinalHistories(p, m, plans, d);
    KeptGraphHistories(source.events, Wants(routing, d));
  }

  /** Event histories end whole, each in the store of its aggregate alone, however often the migration was cut short. */
  lemma HistoriesAreConserved(identify: Identify, read: Reading, routing: Attribution, source: Source, p: Policy, m: States,
                              now: States, plans: map<string, Plan>)
    requires ValidGraph(source.events) && plans == PlansFor(identify, read, routing, source) && PlansOk(plans)
    requires AllAbsent(m, routing.destinations)
    requires (forall d :: d in m ==> WellFormed(m[d])) && CanRun(p, m, plans) && Interrupted(p, m, now, plans)
    ensures forall d :: d in routing.destinations ==>
      Had(StateAt(Final(p, now, plans), d)).histories == Restricted(HistoriesOf(source.events), Wants(routing, d))
  {
    RerunIsUninterrupted(p, m, now, plans);
    forall d | d in routing.destinations
      ensures Had(StateAt(Final(p, m, plans), d)).histories == Restricted(HistoriesOf(source.events), Wants(routing, d))
    {
      HistoriesDelivered(identify, read, routing, source, p, m, plans, d);
    }
  }

  /** A sequence row has no link but its aggregate. */
  predicate Announces(row: Routing.Row, a: string) {
    "session_id" !in row.text && "message_id" !in row.text && TextField(row, "aggregate_id") == Some(a)
  }

  /** That store exists exactly if the aggregate is no quarantined session, and there is no second one. */
  lemma HistoryGoesOnce(identify: Identify, tables: Tables, quarantine: bool, routing: Attribution, row: Routing.Row, a: string)
    requires AllIds(RowsOf(tables, "session")) && Routed(identify, tables, quarantine, routing)
    requires "event_sequence" in tables && row in tables["event_sequence"] && Announces(row, a)
    ensures (exists d :: d in routing.destinations && AggregateKept(routing, d, a)) <==> a !in routing.malformedSessions
    ensures forall d, e :: AggregateKept(routing, d, a) && AggregateKept(routing, e, a) ==> d == e
  {
    var home := Selection.Home("event_sequence", row, routing);
    KeptOnce(identify, tables, quarantine, routing, "event_sequence", row);
    EventRowKept(identify, routing, home, "event_sequence", row);
    if a in routing.malformedSessions {
      QuarantinedGoToLegacy(identify, tables, routing, a);
    }
    assert AggregateKept(routing, home, a) <==> a !in routing.malformedSessions;
  }

  /** Routing and the merge are given the same sequence rows. */
  ghost predicate SameSequences(tables: Tables, events: Graph) {
    forall a :: a in Aggregates(events.sequences) <==> exists row :: row in RowsOf(tables, "event_sequence") && Announces(row, a)
  }

  /** The store of the destination has some history of the aggregate. */
  ghost predicate HasHistory(states: States, d: string, a: string) {
    a in Had(StateAt(states, d)).histories
  }

  /** And this is the one. */
  ghost predicate HasWhole(states: States, d: string, a: string, h: History) {
    HasHistory(states, d, a) && Had(StateAt(states, d)).histories[a] == h
  }

  lemma AggregateGoesOnce(identify: Identify, tables: Tables, quarantine: bool, routing: Attribution, events: Graph, a: string)
    requires SameSequences(tables, events) && a in Aggregates(events.sequences)
    requires AllIds(RowsOf(tables, "session")) && Routed(identify, tables, quarantine, routing)
    ensures (exists d :: d in routing.destinations && AggregateKept(routing, d, a)) <==> a !in routing.malformedSessions
    ensures forall d, e :: AggregateKept(routing, d, a) && AggregateKept(routing, e, a) ==> d == e
  {
    var row :| row in RowsOf(tables, "event_sequence") && Announces(row, a);
    HistoryGoesOnce(identify, tables, quarantine, routing, row, a);
  }

  lemma HeldOnce(routing: Attribution, histories: Histories, states: States, a: string)
    requires a in histories
    requires forall d :: d in routing.destinations ==> Had(StateAt(states, d)).histories == Restricted(histories, Wants(routing, d))
    ensures forall d :: d in routing.destinations ==> (HasWhole(states, d, a, histories[a]) <==> AggregateKept(routing, d, a))
    ensures forall d :: d in routing.destinations ==> (HasHistory(states, d, a) <==> AggregateKept(routing, d, a))
  {
    forall d | d in routing.destinations
      ensures HasWhole(states, d, a, histories[a]) <==> AggregateKept(routing, d, a)
      ensures HasHistory(states, d, a) <==> AggregateKept(routing, d, a)
    {
      assert Had(StateAt(states, d)).histories == Restricted(histories, Wants(routing, d));
    }
  }

  lemma HistoryIsHeld(identify: Identify, read: Reading, routing: Attribution, source: Source, p: Policy, m: States, now: States,
                      plans: map<string, Plan>, final: States, a: string, h: History)
    requires ValidGraph(source.events) && a in HistoriesOf(source.events) && h == HistoriesOf(source.events)[a]
    requires plans == PlansFor(identify, read, routing, source) && PlansOk(plans) && AllAbsent(m, routing.destinations)
    requires (forall d :: d in m ==> WellFormed(m[d])) && CanRun(p, m, plans) && Interrupted(p, m, now, plans)
    requires final == Final(p, now, plans)
    ensures a in Aggregates(source.events.sequences)
    ensures forall d :: d in routing.destinations ==> (HasWhole(final, d, a, h) <==> AggregateKept(routing, d, a))
    ensures forall d :: d in routing.destinations ==> (HasHistory(final, d, a) <==> AggregateKept(routing, d, a))
  {
    HistoriesAreConserved(identify, read, routing, source, p, m, now, plans);
    HeldOnce(routing, HistoriesOf(source.events), final, a);
  }

  /**
     Over the whole way, however often it was cut short, every history of the source ends whole in exactly one
     new store, or in none exactly if its aggregate is a quarantined session; no other store has any of it.
   */
  lemma HistoryEndsOnce(identify: Identify, read: Reading, tables: Tables, quarantine: bool, routing: Attribution, source: Source,
                        p: Policy, m: States, now: States, plans: map<string, Plan>, final: States, a: string, h: History)
    requires ValidGraph(source.events) && a in HistoriesOf(source.events) && h == HistoriesOf(source.events)[a]
    requires plans == PlansFor(identify, read, routing, source) && PlansOk(plans) && AllAbsent(m, routing.destinations)
    requires (forall d :: d in m ==> WellFormed(m[d])) && CanRun(p, m, plans) && Interrupted(p, m, now, plans)
    requires final == Final(p, now, plans)
    requires tables == SeenTables(read, source) && SameSequences(tables, source.events)
    requires AllIds(RowsOf(tables, "session")) && Routed(identify, tables, quarantine, routing)
    ensures (exists d :: d in routing.destinations && HasWhole(final, d, a, h)) <==> a !in routing.malformedSessions
    ensures forall d, e | d in routing.destinations && e in routing.destinations ::
      HasHistory(final, d, a) && HasHistory(final, e, a) ==> d == e
  {
    HistoryIsHeld(identify, read, routing, source, p, m, now, plans, final, a, h);
    AggregateGoesOnce(identify, tables, quarantine, routing, source.events, a);
  }
}
