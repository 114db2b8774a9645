/**
 When a destination can be merged, and what each of its tables holds afterwards.
 */
module MigrationMeaning {
  import opened Wrappers
  import opened EventGraph
  import opened EventStore
  import opened EventMerge
  import opened RowKeys
  import opened TableMerge
  import opened Migration
  import opened MigrationRun

  /** No table has a primary key on one side and none on the other. */
  ghost predicate SameKinds(tables: map<string, Table>, plan: Plan) {
    forall n :: n in tables && n in plan.tables ==> (tables[n].WithKey? <==> plan.tables[n].primaryKey != [])
  }

  /** A database that is well-formed, passes SQLite's checks and has tables of the plan's kinds. */
  ghost predicate Sound(p: Policy, db: Db, plan: Plan) {
    ValidGraph(db.graph) && p.sound(View(db)) && SameKinds(db.tables, plan)
  }

  /** The checks before the first merge ask this of every destination that exists, and of a new one nothing. */
  lemma PrecheckedIff(p: Policy, site: Site, plan: Plan)
    requires PlanOk(plan)
    ensures Prechecked(p, StateOf(site), plan) <==> site.db.None? || Sound(p, site.db.value, plan)
  {
    if site.db.Some? && ValidGraph(site.db.value.graph) {
      KindsAreCompatible(site.db.value.tables, plan);
    }
  }

  lemma KindsAreCompatible(tables: map<string, Table>, plan: Plan)
    ensures Compatible(ContentsOf(tables), plan) <==> SameKinds(tables, plan)
  {
    forall n | n in tables
      ensures ContentsOf(tables)[n].Unique? <==> tables[n].WithKey?
    {
    }
  }

  ghost predicate MergeSucceeds(p: Policy, private: Store, existed: bool, forks: map<string, History>, plan: Plan)
    requires PlanOk(plan)
  {
    && !Collision(p.forkId, forks, HistoriesOf(plan.events), Conflicts(private.histories, HistoriesOf(plan.events)))
    && p.sound(MergedStore(private, plan, existed))
  }

  /** A destination is merged unless its checks fail, a fingerprint serves two histories, or the outcome is unsound. */
  lemma MergedIff(p: Policy, site: Site, plan: Plan)
    requires PlanOk(plan)
    ensures site.db.None? ==> (CanMerge(p, StateOf(site), plan) <==> MergeSucceeds(p, Store(map[], map[]), false, site.forks, plan))
    ensures site.db.Some? ==> (CanMerge(p, StateOf(site), plan) <==>
      Sound(p, site.db.value, plan) && MergeSucceeds(p, View(site.db.value), true, site.forks, plan))
  {
    if site.db.Some? && ValidGraph(site.db.value.graph) {
      KindsAreCompatible(site.db.value.tables, plan);
    }
  }

  /** After a migration every destination passes SQLite's checks, and no other store has changed. */
  lemma FinalIsSound(p: Policy, m: States, now: States, plans: map<string, Plan>, d: string)
    requires PlansOk(plans) && (forall e :: e in m ==> WellFormed(m[e])) && CanRun(p, m, plans) && Interrupted(p, m, now, plans)
    ensures var final := StateAt(Final(p, now, plans), d);
      if d in plans then final.holding == Holds(MergedStore(Had(StateAt(m, d)), plans[d], StateAt(m, d).holding.Holds?))
                         && p.sound(final.holding.store)
      else final == StateAt(m, d)
  {
    RerunIsUninterrupted(p, m, now, plans);
    if d in plans {
      assert CanMerge(p, StateAt(m, d), plans[d]);
      assert Final(p, m, plans)[d] == After(p, StateAt(m, d), plans[d]);
    }
  }

  // ---- each table after the merge ---------------------------------------------------------------------

  /** A table outside the plan stays; one whose rows are not copied stays or is created empty. */
  lemma TableStays(had: Store, plan: Plan, existed: bool, n: string)
    requires PlanOk(plan) && (n in plan.tables ==> !plan.tables[n].copyRows || (plan.tables[n].journal && existed))
    ensures var after := MergedStore(had, plan, existed).tables;
      && (n in after <==> n in had.tables || n in plan.tables)
      && (n in had.tables ==> after[n] == had.tables[n])
      && (n in after && n !in had.tables ==> after[n] == if plan.tables[n].primaryKey != [] then Unique(map[]) else Counts(multiset{}))
  {
    if n in plan.tables {
      assert RowsOk(plan, n);
    }
  }

  ghost predicate CopiedInto(plan: Plan, existed: bool, n: string) {
    n in plan.tables && plan.tables[n].copyRows && !(plan.tables[n].journal && existed)
  }

  /** Under a primary key is the private row, else the first row of the plan that bears the key, else nothing. */
  lemma KeyedTableMeaning(had: Store, plan: Plan, existed: bool, n: string, k: PrimaryKey)
    requires PlanOk(plan) && CopiedInto(plan, existed, n) && plan.tables[n].primaryKey != []
    requires n in had.tables ==> had.tables[n].Unique?
    ensures var after, columns := MergedStore(had, plan, existed).tables, plan.tables[n].primaryKey;
      && n in after && after[n].Unique?
      && if n in had.tables && k in had.tables[n].unique then k in after[n].unique && after[n].unique[k] == had.tables[n].unique[k]
         else && (k in after[n].unique <==> exists i :: FirstWith(columns, plan.rows[n], i, k))
              && forall i :: FirstWith(columns, plan.rows[n], i, k) ==> k in after[n].unique && after[n].unique[k] == plan.rows[n][i]
  {
    assert RowsOk(plan, n);
    FilledMeaning(plan.tables[n].primaryKey, if n in had.tables then had.tables[n].unique else map[], plan.rows[n], k);
  }

  /** Without a primary key, every row is there as often as in the store or in the plan, whichever is more. */
  lemma KeylessTableMeaning(had: Store, plan: Plan, existed: bool, n: string, r: Row)
    requires PlanOk(plan) && CopiedInto(plan, existed, n) && plan.tables[n].primaryKey == []
    requires n in had.tables ==> had.tables[n].Counts?
    ensures var after := MergedStore(had, plan, existed).tables;
      var before, selected := if n in had.tables then had.tables[n].counts[r] else 0, multiset(plan.rows[n])[r];
      n in after && after[n].Counts? && after[n].counts[r] == if before < selected then selected else before
  {
    assert RowsOk(plan, n);
    JoinedCounts(if n in had.tables then had.tables[n].counts else multiset{}, multiset(plan.rows[n]), r);
  }

  // ---- the rows reported as conflicts ----------------------------------------------------------------

  ghost function Contradicted(columns: seq<nat>, table: Keyed, rows: seq<Row>): set<nat>
    requires AllColumns(columns, rows)
  {
    set i: nat | i < |rows| && KeyOf(columns, rows[i]) in table && table[KeyOf(columns, rows[i])] != rows[i]
  }

  /** The conflicts reported are the rows whose key the table holds with other columns. */
  lemma {:induction false} RejectedMeaning(columns: seq<nat>, table: Keyed, rows: seq<Row>)
    requires AllColumns(columns, rows)
    ensures Rejected(columns, table, rows) == |Contradicted(columns, table, rows)|
  {
    if rows == [] {
      assert Contradicted(columns, table, rows) == {};
    } else {
      var n := |rows| - 1;
      RejectedMeaning(columns, table, rows[..n]);
      var k := KeyOf(columns, rows[n]);
      assert Contradicted(columns, table, rows) == Contradicted(columns, table, rows[..n]) + if k in table && table[k] != rows[n] then {n} else {};
      assert n !in Contradicted(columns, table, rows[..n]);
    }
  }
}
