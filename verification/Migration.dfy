/**
 A migration over all destinations: each private store is merged in one transaction, and a run
 that was cut short anywhere can be repeated.
 */
module Migration {
  import opened Wrappers
  import opened EventGraph
  import opened EventStore
  import opened EventMerge
  import opened RowKeys
  import opened TableMerge

  /** A table of the source schema; journals are the migration logs of the program itself. */
  datatype TableInfo = TableInfo(primaryKey: seq<nat>, copyRows: bool, journal: bool)

  /** The rows selected for one destination. */
  datatype Plan = Plan(tables: map<string, TableInfo>, rows: map<string, seq<Row>>, events: Graph)

  /** A stored database, and what it says regardless of the order of its rows. */
  datatype Db = Db(graph: Graph, tables: map<string, Table>)

  /** A destination on disk: its database, if there is one, and its fork archive. */
  datatype Site = Site(db: Option<Db>, forks: map<string, History>)

  datatype Store = Store(histories: Histories, tables: map<string, Content>)

  ghost predicate PlanOk(plan: Plan) {
    && ValidGraph(plan.events)
    && forall n :: n in plan.tables ==> RowsOk(plan, n)
  }

  ghost predicate RowsOk(plan: Plan, n: string) {
    && n in plan.tables && n in plan.rows && AllColumns(plan.tables[n].primaryKey, plan.rows[n])
    && forall i :: 0 <= i < |plan.rows[n]| ==> StorableRow(plan.rows[n][i])
  }

  ghost function ContentsOf(tables: map<string, Table>): map<string, Content> {
    map n | n in tables :: ContentOf(tables[n])
  }

  ghost function View(db: Db): Store
    requires ValidGraph(db.graph)
  {
    Store(HistoriesOf(db.graph), ContentsOf(db.tables))
  }

  // ---- one destination ---------------------------------------------------------------

  predicate HasKey(info: TableInfo) {
    info.primaryKey != []
  }

  /** Rows are copied, except a journal's into a store that was there before. */
  predicate Copied(info: TableInfo, existed: bool) {
    info.copyRows && (info.journal ==> !existed)
  }

  function Created(had: map<string, Content>, info: TableInfo, n: string): Content {
    if n in had then had[n] else ContentOf(Empty(HasKey(info)))
  }

  /** No table of the plan exists with a different kind of key. */
  predicate Compatible(had: map<string, Content>, plan: Plan) {
    forall n | n in plan.tables && n in had :: had[n].Unique? == HasKey(plan.tables[n])
  }

  ghost function TableAfter(before: Content, plan: Plan, existed: bool, n: string): Content
    requires RowsOk(plan, n)
  {
    var info := plan.tables[n];
    if !Copied(info, existed) then before
    else if before.Unique? then Unique(Filled(info.primaryKey, before.unique, plan.rows[n]))
    else Counts(Joined(before.counts, multiset(plan.rows[n])))
  }

  ghost function TablesAfter(had: map<string, Content>, plan: Plan, existed: bool): (after: map<string, Content>)
    requires PlanOk(plan)
    ensures after.Keys == had.Keys + plan.tables.Keys
  {
    map n | n in had.Keys + plan.tables.Keys ::
      if n in plan.tables then TableAfter(Created(had, plan.tables[n], n), plan, existed, n) else had[n]
  }

  ghost function MergedStore(had: Store, plan: Plan, existed: bool): Store
    requires PlanOk(plan)
  {
    Store(Merged(had.histories, HistoriesOf(plan.events)), TablesAfter(had.tables, plan, existed))
  }

  lemma TableIsFixed(before: Content, plan: Plan, existed: bool, n: string)
    requires RowsOk(plan, n)
    ensures TableAfter(TableAfter(before, plan, existed, n), plan, true, n) == TableAfter(before, plan, existed, n)
  {
    if Copied(plan.tables[n], true) {
      if before.Unique? {
        FilledIdempotent(plan.tables[n].primaryKey, before.unique, plan.rows[n]);
      } else {
        JoinedIdempotent(before.counts, multiset(plan.rows[n]));
      }
    }
  }

  lemma SameMap<K, V>(a: map<K, V>, b: map<K, V>)
    requires a.Keys == b.Keys && forall k :: k in a ==> a[k] == b[k]
    ensures a == b
  {
  }

  /** Once merged, the same plan changes nothing, journals included. */
  lemma MergedStoreIsFixed(had: Store, plan: Plan, existed: bool)
    requires PlanOk(plan) && ValidHistories(had.histories)
    ensures MergedStore(MergedStore(had, plan, existed), plan, true) == MergedStore(had, plan, existed)
  {
    MergeIsIdempotent(had.histories, HistoriesOf(plan.events));
    var t := TablesAfter(had.tables, plan, existed);
    forall n | n in t
      ensures TablesAfter(t, plan, true)[n] == t[n]
    {
      if n in plan.tables {
        TableIsFixed(Created(had.tables, plan.tables[n], n), plan, existed, n);
      }
    }
    SameMap(TablesAfter(t, plan, true), t);
  }

  /** Every private row of every table, and every private event, is there afterwards. */
  lemma MergedStoreKeepsPrivateRows(had: Store, plan: Plan, existed: bool, n: string)
    requires PlanOk(plan) && ValidHistories(had.histories) && n in had.tables
    ensures var m := MergedStore(had, plan, existed);
      && (forall a :: a in had.histories ==> a in m.histories && had.histories[a].events <= m.histories[a].events)
      && n in m.tables && m.tables[n].Unique? == had.tables[n].Unique?
      && (had.tables[n].Unique? ==> forall k :: k in had.tables[n].unique ==>
            k in m.tables[n].unique && m.tables[n].unique[k] == had.tables[n].unique[k])
      && (had.tables[n].Counts? ==> had.tables[n].counts <= m.tables[n].counts)
  {
    var m := MergedStore(had, plan, existed);
    forall a | a in had.histories
      ensures a in m.histories && had.histories[a].events <= m.histories[a].events
    {
      MergeKeepsPrivateHistories(had.histories, HistoriesOf(plan.events), a);
    }
    if n in plan.tables && had.tables[n].Unique? {
      forall k | k in had.tables[n].unique
        ensures k in m.tables[n].unique && m.tables[n].unique[k] == had.tables[n].unique[k]
      {
        FilledMeaning(plan.tables[n].primaryKey, had.tables[n].unique, plan.rows[n], k);
      }
    }
  }

  // ---- merging tables in place ----------------------------------------------------------

  /** The tables outside `rest` have reached `goal`, the others are as they were when just created. */
  ghost predicate Midway(tables: map<string, Table>, start: map<string, Content>, goal: map<string, Content>, rest: set<string>) {
    && tables.Keys == start.Keys == goal.Keys
    && forall n :: n in tables ==> ContentOf(tables[n]) == (if n in rest then start[n] else goal[n])
  }

  ghost function AllCreated(had: map<string, Content>, plan: Plan): (start: map<string, Content>)
    ensures start.Keys == had.Keys + plan.tables.Keys
  {
    map n | n in had.Keys + plan.tables.Keys :: if n in plan.tables then Created(had, plan.tables[n], n) else had[n]
  }

  method CreateTables(store: TableStore, plan: Plan) returns (ok: bool)
    modifies store
    ensures ok <==> Compatible(ContentsOf(old(store.tables)), plan)
    ensures ok ==> ContentsOf(store.tables) == AllCreated(ContentsOf(old(store.tables)), plan)
  {
    ghost var had := ContentsOf(store.tables);
    var rest := plan.tables.Keys;
    while rest != {}
      invariant rest <= plan.tables.Keys
      invariant forall n :: n in store.tables <==> n in had || (n in plan.tables && n !in rest)
      invariant forall n :: n in store.tables ==>
        ContentOf(store.tables[n]) == (if n in had then had[n] else ContentOf(Empty(HasKey(plan.tables[n]))))
      invariant forall n :: n in plan.tables && n in had && n !in rest ==> had[n].Unique? == HasKey(plan.tables[n])
      decreases rest
    {
      var name :| name in rest;
      rest := rest - {name};
      ok := store.EnsureTable(name, HasKey(plan.tables[name]));
      if !ok {
        return;
      }
    }
    ok := true;
    SameMap(ContentsOf(store.tables), AllCreated(had, plan));
  }

  method CopyTable(store: TableStore, plan: Plan, existed: bool, name: string)
    requires RowsOk(plan, name) && name in store.tables
    requires store.tables[name].WithKey? == HasKey(plan.tables[name])
    modifies store
    ensures name in store.tables && store.tables == old(store.tables)[name := store.tables[name]]
    ensures ContentOf(store.tables[name]) == TableAfter(ContentOf(old(store.tables)[name]), plan, existed, name)
  {
    var info := plan.tables[name];
    if info.copyRows && (!info.journal || !existed) {
      if info.primaryKey == [] {
        var changed := store.MergeKeyless(name, plan.rows[name]);
      } else {
        var changed, conflicts := store.MergeKeyed(name, info.primaryKey, plan.rows[name]);
      }
    }
  }

  lemma StartMidway(tables: map<string, Table>, had: map<string, Content>, plan: Plan, existed: bool)
    requires PlanOk(plan) && ContentsOf(tables) == AllCreated(had, plan)
    ensures Midway(tables, AllCreated(had, plan), TablesAfter(had, plan, existed), plan.tables.Keys)
  {
    forall n | n in tables
      ensures ContentOf(tables[n]) == AllCreated(had, plan)[n]
    {
      assert ContentsOf(tables)[n] == ContentOf(tables[n]);
    }
    assert tables.Keys == ContentsOf(tables).Keys;
  }

  lemma EndMidway(tables: map<string, Table>, start: map<string, Content>, goal: map<string, Content>)
    requires Midway(tables, start, goal, {})
    ensures ContentsOf(tables) == goal
  {
    SameMap(ContentsOf(tables), goal);
  }

  lemma MidwayKinds(tables: map<string, Table>, had: map<string, Content>, plan: Plan, existed: bool, rest: set<string>, n: string)
    requires PlanOk(plan) && Compatible(had, plan) && n in plan.tables && n in rest
    requires Midway(tables, AllCreated(had, plan), TablesAfter(had, plan, existed), rest)
    ensures n in tables && tables[n].WithKey? == HasKey(plan.tables[n])
    ensures TablesAfter(had, plan, existed)[n] == TableAfter(ContentOf(tables[n]), plan, existed, n)
  {
  }

  lemma MidwayStep(tables: map<string, Table>, start: map<string, Content>, goal: map<string, Content>, rest: set<string>,
                   n: string, t: Table)
    requires Midway(tables, start, goal, rest) && n in rest && n in tables && ContentOf(t) == goal[n]
    ensures Midway(tables[n := t], start, goal, rest - {n})
  {
  }

  /** Copies the rows of the plan's tables, in whatever order the tables come. */
  method CopyTables(store: TableStore, plan: Plan, existed: bool, ghost had: map<string, Content>)
    requires PlanOk(plan) && Compatible(had, plan)
    requires ContentsOf(store.tables) == AllCreated(had, plan)
    modifies store
    ensures ContentsOf(store.tables) == TablesAfter(had, plan, existed)
  {
    ghost var start, goal := AllCreated(had, plan), TablesAfter(had, plan, existed);
    var rest := plan.tables.Keys;
    StartMidway(store.tables, had, plan, existed);
    while rest != {}
      invariant rest <= plan.tables.Keys
      invariant Midway(store.tables, start, goal, rest)
      decreases rest
    {
      var name :| name in rest;
      MidwayKinds(store.tables, had, plan, existed, rest, name);
      ghost var before := store.tables;
      CopyTable(store, plan, existed, name);
      MidwayStep(before, start, goal, rest, name, store.tables[name]);
      rest := rest - {name};
    }
    EndMidway(store.tables, start, goal);
  }

  // ---- a destination as the migration sees it ----------------------------------------------

  datatype Holding = Absent | Malformed | Holds(store: Store)

  datatype State = State(holding: Holding, forks: map<string, History>)

  ghost function StateOf(site: Site): State {
    State(match site.db
          case None => Absent
          case Some(db) => if ValidGraph(db.graph) then Holds(View(db)) else Malformed, site.forks)
  }

  /** The fingerprint in use, and SQLite's verdict (integrity, foreign keys, unique indexes) on a store. */
  datatype Policy = Policy(forkId: History -> string, sound: Store -> bool)

  ghost function Had(st: State): Store {
    if st.holding.Holds? then st.holding.store else Store(map[], map[])
  }

  ghost predicate CanMerge(p: Policy, st: State, plan: Plan)
    requires PlanOk(plan)
  {
    var had, s := Had(st), HistoriesOf(plan.events);
    && !st.holding.Malformed? && (st.holding.Holds? ==> p.sound(had))
    && Compatible(had.tables, plan)
    && !Collision(p.forkId, st.forks, s, Conflicts(had.histories, s))
    && p.sound(MergedStore(had, plan, st.holding.Holds?))
  }

  ghost function After(p: Policy, st: State, plan: Plan): State
    requires PlanOk(plan) && CanMerge(p, st, plan)
  {
    var had, s := Had(st), HistoriesOf(plan.events);
    State(Holds(MergedStore(had, plan, st.holding.Holds?)),
          ArchiveOf(p.forkId, st.forks, s, Conflicts(had.histories, s)))
  }

  /** The transaction was rolled back; some forks may have been archived before that. */
  ghost predicate Partial(p: Policy, st: State, now: State, plan: Plan)
    requires PlanOk(plan)
  {
    now.holding == st.holding
    && PartlyArchived(p.forkId, st.forks, Had(st).histories, HistoriesOf(plan.events), now.forks)
  }

  /** Where an interruption can leave a destination. */
  ghost predicate Resumable(p: Policy, st: State, now: State, plan: Plan)
    requires PlanOk(plan)
  {
    Partial(p, st, now, plan) || (CanMerge(p, st, plan) && now == After(p, st, plan))
  }

  ghost predicate WellFormed(st: State) {
    st.holding.Holds? ==> ValidHistories(st.holding.store.histories)
  }

  lemma StillCompatible(had: map<string, Content>, plan: Plan, existed: bool)
    requires PlanOk(plan) && Compatible(had, plan)
    ensures Compatible(TablesAfter(had, plan, existed), plan)
  {
  }

  lemma FinishedIsFixed(p: Policy, st: State, plan: Plan)
    requires PlanOk(plan) && WellFormed(st) && CanMerge(p, st, plan)
    ensures CanMerge(p, After(p, st, plan), plan)
    ensures After(p, After(p, st, plan), plan) == After(p, st, plan)
  {
    var had, s := Had(st), HistoriesOf(plan.events);
    var c, merged := Conflicts(had.histories, s), MergedStore(had, plan, st.holding.Holds?);
    StillCompatible(had.tables, plan, st.holding.Holds?);
    MergedStoreIsFixed(had, plan, st.holding.Holds?);
    assert Conflicts(merged.histories, s) == c by {
      MergeIsIdempotent(had.histories, s);
    }
    ArchiveResumes(p.forkId, st.forks, s, c, After(p, st, plan).forks, c);
  }

  lemma BrokenOffIsSame(p: Policy, st: State, now: State, plan: Plan)
    requires PlanOk(plan) && Partial(p, st, now, plan)
    ensures CanMerge(p, now, plan) <==> CanMerge(p, st, plan)
    ensures CanMerge(p, st, plan) ==> After(p, now, plan) == After(p, st, plan)
  {
    var s, c := HistoriesOf(plan.events), Conflicts(Had(st).histories, HistoriesOf(plan.events));
    var part :| part <= c && Archived(p.forkId, st.forks, s, part, now.forks);
    ArchiveResumes(p.forkId, st.forks, s, part, now.forks, c);
  }

  lemma ResumedIsSame(p: Policy, st: State, now: State, plan: Plan)
    requires PlanOk(plan) && WellFormed(st) && Resumable(p, st, now, plan)
    ensures CanMerge(p, now, plan) <==> CanMerge(p, st, plan)
    ensures CanMerge(p, st, plan) ==> After(p, now, plan) == After(p, st, plan)
  {
    if Partial(p, st, now, plan) {
      BrokenOffIsSame(p, st, now, plan);
    } else {
      FinishedIsFixed(p, st, plan);
    }
  }

  lemma ArchivedTwice(forkId: History -> string, forks: map<string, History>, s: Histories, c1: set<string>,
                      now: map<string, History>, c2: set<string>, later: map<string, History>)
    requires c1 <= s.Keys && c2 <= s.Keys
    requires Archived(forkId, forks, s, c1, now) && Archived(forkId, now, s, c2, later)
    ensures Archived(forkId, forks, s, c1 + c2, later)
    ensures c2 <= c1 ==> later == now
  {
    if c2 <= c1 {
      SameMap(later, now);
    }
  }

  lemma PartlyArchivedTwice(forkId: History -> string, forks: map<string, History>, d: Histories, s: Histories,
                            now: map<string, History>, later: map<string, History>)
    requires PartlyArchived(forkId, forks, d, s, now) && PartlyArchived(forkId, now, d, s, later)
    ensures PartlyArchived(forkId, forks, d, s, later)
  {
    var c1 :| c1 <= Conflicts(d, s) && Archived(forkId, forks, s, c1, now);
    var c2 :| c2 <= Conflicts(d, s) && Archived(forkId, now, s, c2, later);
    ArchivedTwice(forkId, forks, s, c1, now, c2, later);
    assert c1 + c2 <= Conflicts(d, s);
  }

  lemma BrokenOffAgain(p: Policy, st: State, a: State, b: State, plan: Plan)
    requires PlanOk(plan) && Partial(p, st, a, plan) && Partial(p, a, b, plan)
    ensures Partial(p, st, b, plan)
  {
    PartlyArchivedTwice(p.forkId, st.forks, Had(st).histories, HistoriesOf(plan.events), a.forks, b.forks);
  }

  lemma BrokenOffAfterwards(p: Policy, st: State, b: State, plan: Plan)
    requires PlanOk(plan) && WellFormed(st) && CanMerge(p, st, plan) && Partial(p, After(p, st, plan), b, plan)
    ensures b == After(p, st, plan)
  {
    var had, s, a := Had(st), HistoriesOf(plan.events), After(p, st, plan);
    MergeIsIdempotent(had.histories, s);
    var c, c2 :| c == Conflicts(had.histories, s) && c2 <= c && Archived(p.forkId, a.forks, s, c2, b.forks);
    ArchivedTwice(p.forkId, st.forks, s, c, a.forks, c2, b.forks);
  }

  /** Cutting the repetition short again leaves the destination resumable from the first state. */
  lemma ResumableAgain(p: Policy, st: State, a: State, b: State, plan: Plan)
    requires PlanOk(plan) && WellFormed(st) && Resumable(p, st, a, plan) && Resumable(p, a, b, plan)
    ensures Resumable(p, st, b, plan)
  {
    ResumedIsSame(p, st, a, plan);
    if Partial(p, a, b, plan) {
      if Partial(p, st, a, plan) {
        BrokenOffAgain(p, st, a, b, plan);
      } else {
        BrokenOffAfterwards(p, st, b, plan);
      }
    }
  }

  // ---- all destinations ------------------------------------------------------------------------

  type States = map<string, State>

  ghost function StateAt(m: States, d: string): State {
    if d in m then m[d] else State(Absent, map[])
  }

  ghost predicate PlansOk(plans: map<string, Plan>) {
    forall d :: d in plans ==> PlanOk(plans[d])
  }

  ghost predicate CanRun(p: Policy, m: States, plans: map<string, Plan>)
    requires PlansOk(plans)
  {
    forall d :: d in plans ==> CanMerge(p, StateAt(m, d), plans[d])
  }

  /** Where each destination that can be merged ends. */
  ghost function Goals(p: Policy, m: States, plans: map<string, Plan>): States
    requires PlansOk(plans)
  {
    map d | d in plans && CanMerge(p, StateAt(m, d), plans[d]) :: After(p, StateAt(m, d), plans[d])
  }

  /** What an uninterrupted migration ends in. */
  ghost function Final(p: Policy, m: States, plans: map<string, Plan>): States
    requires PlansOk(plans)
  {
    m + Goals(p, m, plans)
  }

  ghost predicate Untouched<S>(m: map<string, S>, now: map<string, S>, d: string) {
    (d in now <==> d in m) && (d in m ==> now[d] == m[d])
  }

  /** Any destinations finished, any broken off, the others untouched; stores outside the plans as they were. */
  ghost predicate Interrupted(p: Policy, m: States, now: States, plans: map<string, Plan>)
    requires PlansOk(plans)
  {
    && (forall d :: d in plans ==> Resumable(p, StateAt(m, d), StateAt(now, d), plans[d]))
    && (forall d :: d !in plans ==> Untouched(m, now, d))
    && m.Keys <= now.Keys
  }

  ghost predicate SameGoalAt(p: Policy, m: States, now: States, plans: map<string, Plan>, d: string)
    requires PlansOk(plans) && d in plans
  {
    && (CanMerge(p, StateAt(now, d), plans[d]) <==> CanMerge(p, StateAt(m, d), plans[d]))
    && (CanMerge(p, StateAt(m, d), plans[d]) ==> After(p, StateAt(now, d), plans[d]) == After(p, StateAt(m, d), plans[d]))
  }

  lemma SameGoals(p: Policy, m: States, now: States, plans: map<string, Plan>)
    requires PlansOk(plans) && forall d :: d in plans ==> SameGoalAt(p, m, now, plans, d)
    ensures Goals(p, now, plans) == Goals(p, m, plans)
  {
    forall d | d in plans
      ensures d in Goals(p, now, plans) <==> d in Goals(p, m, plans)
      ensures d in Goals(p, m, plans) ==> Goals(p, now, plans)[d] == Goals(p, m, plans)[d]
    {
      assert SameGoalAt(p, m, now, plans, d);
    }
  }

  lemma RerunAt(p: Policy, m: States, now: States, plans: map<string, Plan>, d: string)
    requires PlansOk(plans) && (forall d :: d in m ==> WellFormed(m[d])) && Interrupted(p, m, now, plans) && d in plans
    ensures SameGoalAt(p, m, now, plans, d)
  {
    ResumedIsSame(p, StateAt(m, d), StateAt(now, d), plans[d]);
  }

  lemma RerunGoals(p: Policy, m: States, now: States, plans: map<string, Plan>)
    requires PlansOk(plans) && (forall d :: d in m ==> WellFormed(m[d])) && Interrupted(p, m, now, plans)
    ensures Goals(p, now, plans) == Goals(p, m, plans)
  {
    forall d | d in plans
      ensures SameGoalAt(p, m, now, plans, d)
    {
      RerunAt(p, m, now, plans, d);
    }
    SameGoals(p, m, now, plans);
  }

  lemma CanRunHasGoals(p: Policy, m: States, plans: map<string, Plan>)
    requires PlansOk(plans)
    ensures CanRun(p, m, plans) <==> plans.Keys == Goals(p, m, plans).Keys
  {
  }

  lemma SameOverlay<S>(m: map<string, S>, now: map<string, S>, goal: map<string, S>)
    requires (forall d :: d !in goal ==> Untouched(m, now, d)) && m.Keys <= now.Keys
    ensures now + goal == m + goal
  {
    assert forall d :: d in now && d !in goal ==> Untouched(m, now, d);
  }

  /** Repeating a migration that was cut short anywhere ends as if it had never been cut short. */
  lemma RerunIsUninterrupted(p: Policy, m: States, now: States, plans: map<string, Plan>)
    requires PlansOk(plans) && (forall d :: d in m ==> WellFormed(m[d])) && Interrupted(p, m, now, plans)
    ensures CanRun(p, now, plans) <==> CanRun(p, m, plans)
    ensures CanRun(p, m, plans) ==> Final(p, now, plans) == Final(p, m, plans)
  {
    RerunGoals(p, m, now, plans);
    CanRunHasGoals(p, m, plans);
    CanRunHasGoals(p, now, plans);
    if CanRun(p, m, plans) {
      SameOverlay(m, now, Goals(p, m, plans));
    }
  }

  lemma StillAbsentOrThere<S>(m: map<string, S>, now: map<string, S>, later: map<string, S>, all: set<string>)
    requires (forall d :: d !in all ==> Untouched(m, now, d)) && (forall d :: d !in all ==> Untouched(now, later, d))
    ensures forall d :: d !in all ==> Untouched(m, later, d)
  {
    forall d | d !in all
      ensures Untouched(m, later, d)
    {
      assert Untouched(m, now, d) && Untouched(now, later, d);
    }
  }

  /** A migration may be cut short any number of times before the run that completes. */
  lemma InterruptedAgain(p: Policy, m: States, now: States, later: States, plans: map<string, Plan>)
    requires PlansOk(plans) && (forall d :: d in m ==> WellFormed(m[d]))
    requires Interrupted(p, m, now, plans) && Interrupted(p, now, later, plans)
    ensures Interrupted(p, m, later, plans)
  {
    forall d | d in plans
      ensures Resumable(p, StateAt(m, d), StateAt(later, d), plans[d])
    {
      ResumableAgain(p, StateAt(m, d), StateAt(now, d), StateAt(later, d), plans[d]);
    }
    StillAbsentOrThere(m, now, later, plans.Keys);
  }
}
