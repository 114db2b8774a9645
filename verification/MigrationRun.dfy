/**
 The migration itself: every private store is checked first, then each is merged on a working
 copy that is committed as a whole or dropped. The fork archives lie beside the stores and are
 written as the merge goes, outside its transaction.
 */
module MigrationRun {
  import opened Wrappers
  import opened EventGraph
  import opened EventStore
  import opened EventMerge
  import opened RowKeys
  import opened TableMerge
  import opened Migration

  lemma NewStore()
    ensures ValidGraph(Graph([], [])) && HistoriesOf(Graph([], [])) == map[]
  {
    Reread(Graph([], []), map[]);
  }

  lemma NothingArchived(forkId: History -> string, forks: map<string, History>, d: Histories, s: Histories)
    ensures PartlyArchived(forkId, forks, d, s, forks)
  {
    assert Archived(forkId, forks, s, {}, forks);
  }

  lemma AllArchived(forkId: History -> string, forks: map<string, History>, d: Histories, s: Histories, now: map<string, History>)
    requires !Collision(forkId, forks, s, Conflicts(d, s)) && Archived(forkId, forks, s, Conflicts(d, s), now)
    ensures PartlyArchived(forkId, forks, d, s, now) && now == ArchiveOf(forkId, forks, s, Conflicts(d, s))
  {
    ArchivedUnique(forkId, forks, s, Conflicts(d, s), now, ArchiveOf(forkId, forks, s, Conflicts(d, s)));
  }

  ghost function OpenedHistories(site: Site): Histories
    requires site.db.Some? ==> ValidGraph(site.db.value.graph)
  {
    if site.db.Some? then HistoriesOf(site.db.value.graph) else map[]
  }

  ghost function OpenedContents(site: Site): map<string, Content> {
    if site.db.Some? then ContentsOf(site.db.value.tables) else map[]
  }

  ghost predicate Mergeable(forkId: History -> string, forks: map<string, History>, d: Histories, had: map<string, Content>, plan: Plan)
    requires PlanOk(plan)
  {
    Compatible(had, plan) && !Collision(forkId, forks, HistoriesOf(plan.events), Conflicts(d, HistoriesOf(plan.events)))
  }

  /** The destination merge in terms of the opened store. */
  lemma OpenedMerge(p: Policy, site: Site, plan: Plan)
    requires PlanOk(plan) && (site.db.Some? ==> ValidGraph(site.db.value.graph))
    ensures var had, s := Store(OpenedHistories(site), OpenedContents(site)), HistoriesOf(plan.events);
      && Had(StateOf(site)) == had && StateOf(site).holding.Holds? == site.db.Some?
      && (CanMerge(p, StateOf(site), plan) <==>
            && (site.db.Some? ==> p.sound(had)) && Mergeable(p.forkId, site.forks, had.histories, had.tables, plan)
            && p.sound(MergedStore(had, plan, site.db.Some?)))
      && (CanMerge(p, StateOf(site), plan) ==>
            After(p, StateOf(site), plan) == State(Holds(MergedStore(had, plan, site.db.Some?)),
                                                   ArchiveOf(p.forkId, site.forks, s, Conflicts(had.histories, s))))
  {
  }

  /** What the checks before the first merge establish of a destination. */
  ghost predicate Prechecked(p: Policy, st: State, plan: Plan) {
    !st.holding.Malformed? && (st.holding.Holds? ==> p.sound(st.holding.store) && Compatible(st.holding.store.tables, plan))
  }

  lemma CanMergeIsPrechecked(p: Policy, st: State, plan: Plan)
    requires PlanOk(plan) && CanMerge(p, st, plan)
    ensures Prechecked(p, st, plan)
  {
  }

  ghost function StatesOf(sites: map<string, Site>): States {
    map d | d in sites :: StateOf(sites[d])
  }

  lemma SitePut(sites: map<string, Site>, d: string, site: Site)
    ensures StatesOf(sites[d := site]) == StatesOf(sites)[d := StateOf(site)]
  {
  }

  ghost predicate Put<S>(now: map<string, S>, goal: map<string, S>, d: string) {
    d in goal && d in now && now[d] == goal[d]
  }

  /** The destinations `done` have reached their goals, the others are where they were. */
  ghost predicate Underway<S>(m: map<string, S>, now: map<string, S>, goal: map<string, S>, done: set<string>) {
    && (forall d :: d in done ==> Put(now, goal, d))
    && (forall d :: d !in done ==> Untouched(m, now, d))
  }

  lemma OneFinished<S>(m: map<string, S>, was: map<string, S>, goal: map<string, S>, done: set<string>, d: string)
    requires Underway(m, was, goal, done) && d !in done && d in goal
    ensures Underway(m, was[d := goal[d]], goal, done + {d})
  {
    assert forall e :: e in done ==> Put(was, goal, e);
    assert forall e :: e !in done + {d} ==> Untouched(m, was, e);
  }

  lemma ResumableAt(p: Policy, st: State, now: State, plan: Plan)
    requires PlanOk(plan) && (now == st || (CanMerge(p, st, plan) && now == After(p, st, plan)))
    ensures Resumable(p, st, now, plan)
  {
    if now == st {
      NothingArchived(p.forkId, st.forks, Had(st).histories, HistoriesOf(plan.events));
    }
  }

  lemma GoalAt(p: Policy, m: States, now: States, plans: map<string, Plan>, d: string)
    requires PlansOk(plans) && d in plans && (Put(now, Goals(p, m, plans), d) || Untouched(m, now, d))
    ensures Resumable(p, StateAt(m, d), StateAt(now, d), plans[d])
  {
    ResumableAt(p, StateAt(m, d), StateAt(now, d), plans[d]);
  }

  lemma OthersResumable(p: Policy, m: States, was: States, plans: map<string, Plan>, done: set<string>, e: string)
    requires PlansOk(plans) && Underway(m, was, Goals(p, m, plans), done) && e in plans
    ensures Resumable(p, StateAt(m, e), StateAt(was, e), plans[e])
  {
    assert Put(was, Goals(p, m, plans), e) || Untouched(m, was, e);
    GoalAt(p, m, was, plans, e);
  }

  lemma ResumableThere(p: Policy, m: States, was: States, plans: map<string, Plan>, d: string, st: State, e: string)
    requires PlansOk(plans) && e in plans
    requires if e == d then Partial(p, StateAt(m, d), st, plans[d]) else Resumable(p, StateAt(m, e), StateAt(was, e), plans[e])
    ensures Resumable(p, StateAt(m, e), StateAt(was[d := st], e), plans[e])
  {
    assert StateAt(was[d := st], e) == if e == d then st else StateAt(was, e);
  }

  /** One destination could not be merged: the run is one that can be repeated. */
  lemma BrokenOff(p: Policy, m: States, was: States, plans: map<string, Plan>, done: set<string>, d: string, st: State)
    requires PlansOk(plans) && Underway(m, was, Goals(p, m, plans), done) && done <= plans.Keys
    requires d in plans && d !in done && Partial(p, StateAt(m, d), st, plans[d])
    ensures Interrupted(p, m, was[d := st], plans)
  {
    forall e | e in plans
      ensures Resumable(p, StateAt(m, e), StateAt(was[d := st], e), plans[e])
    {
      OthersResumable(p, m, was, plans, done, e);
      ResumableThere(p, m, was, plans, d, st, e);
    }
    OthersKept(m, was, Goals(p, m, plans), done, plans.Keys, d, st);
  }

  lemma OthersKept<S>(m: map<string, S>, was: map<string, S>, goal: map<string, S>, done: set<string>, all: set<string>,
                      d: string, st: S)
    requires Underway(m, was, goal, done) && done <= all && d in all
    ensures forall e :: e !in all ==> Untouched(m, was[d := st], e)
    ensures m.Keys <= was[d := st].Keys
  {
    assert forall e :: e !in all ==> Untouched(m, was, e);
    forall e | e in m
      ensures e in was
    {
      assert Put(was, goal, e) || Untouched(m, was, e);
    }
  }

  lemma StoredIsWellFormed(sites: map<string, Site>)
    ensures forall d :: d in StatesOf(sites) ==> WellFormed(StatesOf(sites)[d])
  {
  }

  /**
     A run killed while it was merging `d`, whatever of that merge's forks had been archived: repeated,
     it succeeds exactly when it would have, and ends in the same stores.
   */
  lemma KilledAnywhere(p: Policy, sites: map<string, Site>, was: States, plans: map<string, Plan>, done: set<string>,
                       d: string, st: State)
    requires PlansOk(plans) && Underway(StatesOf(sites), was, Goals(p, StatesOf(sites), plans), done) && done <= plans.Keys
    requires d in plans && d !in done && Partial(p, StateAt(StatesOf(sites), d), st, plans[d])
    ensures CanRun(p, was[d := st], plans) <==> CanRun(p, StatesOf(sites), plans)
    ensures CanRun(p, StatesOf(sites), plans) ==> Final(p, was[d := st], plans) == Final(p, StatesOf(sites), plans)
  {
    StoredIsWellFormed(sites);
    BrokenOff(p, StatesOf(sites), was, plans, done, d, st);
    RerunIsUninterrupted(p, StatesOf(sites), was[d := st], plans);
  }

  lemma NothingTouched(p: Policy, m: States, plans: map<string, Plan>)
    requires PlansOk(plans)
    ensures Interrupted(p, m, m, plans)
  {
    forall d | d in plans
      ensures Resumable(p, StateAt(m, d), StateAt(m, d), plans[d])
    {
      ResumableAt(p, StateAt(m, d), StateAt(m, d), plans[d]);
    }
  }

  lemma AllPut<S>(m: map<string, S>, now: map<string, S>, goal: map<string, S>, all: set<string>)
    requires Underway(m, now, goal, all) && goal.Keys <= all
    ensures goal.Keys == all && now == m + goal
  {
    assert forall d :: d in all ==> Put(now, goal, d);
    assert forall d :: d in now || d in m ==> d in all || Untouched(m, now, d);
    assert goal.Keys == all;
    forall d
      ensures d in now <==> d in m + goal
      ensures d in now ==> now[d] == (m + goal)[d]
    {
      assert d in all || Untouched(m, now, d);
    }
  }

  lemma AllFinished(p: Policy, m: States, now: States, plans: map<string, Plan>)
    requires PlansOk(plans) && Underway(m, now, Goals(p, m, plans), plans.Keys)
    ensures CanRun(p, m, plans) && now == Final(p, m, plans)
  {
    AllPut(m, now, Goals(p, m, plans), plans.Keys);
    CanRunHasGoals(p, m, plans);
  }

  lemma FailedCheck(p: Policy, m: States, plans: map<string, Plan>)
    requires PlansOk(plans) && !forall d :: d in plans ==> Prechecked(p, StateAt(m, d), plans[d])
    ensures !CanRun(p, m, plans)
  {
    var d :| d in plans && !Prechecked(p, StateAt(m, d), plans[d]);
    if CanMerge(p, StateAt(m, d), plans[d]) {
      CanMergeIsPrechecked(p, StateAt(m, d), plans[d]);
    }
  }

  class Home {
    var sites: map<string, Site>
    const policy: Policy
    const check: Db -> bool

    constructor (sites: map<string, Site>, policy: Policy, check: Db -> bool)
      ensures this.sites == sites && this.policy == policy && this.check == check
    {
      this.sites, this.policy, this.check := sites, policy, check;
    }

    /** SQLite's verdict does not depend on the order of the rows. */
    ghost predicate Faithful() {
      forall db: Db :: ValidGraph(db.graph) ==> check(db) == policy.sound(View(db))
    }

    ghost function AllStates(): States
      reads this
    {
      StatesOf(sites)
    }

    method Precheck(site: Site, plan: Plan) returns (ok: bool)
      requires Faithful()
      ensures ok <==> Prechecked(policy, StateOf(site), plan)
    {
      if site.db.None? {
        return true;
      }
      var valid := ValidateEventGraph(site.db.value.graph);
      ok := valid && check(site.db.value)
        && forall n | n in plan.tables :: n in site.db.value.tables ==> site.db.value.tables[n].WithKey? == HasKey(plan.tables[n]);
    }

    /** Tables are created, events merged and rows copied; a schema conflict or an unarchivable fork ends it early. */
    method MergeTables(tables: TableStore, events: EventTables, plan: Plan, existed: bool) returns (ok: bool)
      requires PlanOk(plan) && ValidGraph(events.Tables())
      modifies tables, events, events.archive
      ensures ok <==> Mergeable(events.archive.forkId, old(events.archive.forks), old(HistoriesOf(events.Tables())),
                                old(ContentsOf(tables.tables)), plan)
      ensures ok ==> ContentsOf(tables.tables) == TablesAfter(old(ContentsOf(tables.tables)), plan, existed)
      ensures ok ==> ValidGraph(events.Tables())
      ensures ok ==> HistoriesOf(events.Tables()) == Merged(old(HistoriesOf(events.Tables())), HistoriesOf(plan.events))
      ensures ok ==> Archived(events.archive.forkId, old(events.archive.forks), HistoriesOf(plan.events),
                              Conflicts(old(HistoriesOf(events.Tables())), HistoriesOf(plan.events)), events.archive.forks)
      ensures !ok ==> PartlyArchived(events.archive.forkId, old(events.archive.forks), old(HistoriesOf(events.Tables())),
                                     HistoriesOf(plan.events), events.archive.forks)
    {
      NothingArchived(events.archive.forkId, events.archive.forks, HistoriesOf(events.Tables()), HistoriesOf(plan.events));
      ghost var had := ContentsOf(tables.tables);
      ok := CreateTables(tables, plan);
      if ok {
        var merged := events.MergeEventGraph(plan.events);
        ok := merged.Ok?;
        if ok {
          CopyTables(tables, plan, existed, had);
        }
      }
    }

    /** The transaction of one destination, ending with SQLite's checks. */
    method MergeOpened(graph: Graph, had: map<string, Table>, existed: bool, plan: Plan, archive: ForkArchive)
      returns (ok: bool, db: Db)
      requires Faithful() && PlanOk(plan) && ValidGraph(graph) && archive.forkId == policy.forkId
      modifies archive
      ensures PartlyArchived(policy.forkId, old(archive.forks), HistoriesOf(graph), HistoriesOf(plan.events), archive.forks)
      ensures ok <==> && Mergeable(policy.forkId, old(archive.forks), HistoriesOf(graph), ContentsOf(had), plan)
                      && policy.sound(MergedStore(Store(HistoriesOf(graph), ContentsOf(had)), plan, existed))
      ensures ok ==> archive.forks == ArchiveOf(policy.forkId, old(archive.forks), HistoriesOf(plan.events),
                                                Conflicts(HistoriesOf(graph), HistoriesOf(plan.events)))
      ensures ok ==> ValidGraph(db.graph)
      ensures ok ==> View(db) == MergedStore(Store(HistoriesOf(graph), ContentsOf(had)), plan, existed)
    {
      var tables := new TableStore(had);
      var events := new EventTables(archive, graph);
      ok := MergeTables(tables, events, plan, existed);
      db := Db(Graph(events.sequences, events.events), tables.tables);
      if ok {
        AllArchived(policy.forkId, old(archive.forks), HistoriesOf(graph), HistoriesOf(plan.events), archive.forks);
        ok := check(db);
      }
    }

    method MergeSite(site: Site, plan: Plan) returns (ok: bool, after: Site)
      requires Faithful() && PlanOk(plan)
      ensures ok <==> CanMerge(policy, StateOf(site), plan)
      ensures ok ==> StateOf(after) == After(policy, StateOf(site), plan)
      ensures !ok ==> after.db == site.db && Partial(policy, StateOf(site), StateOf(after), plan)
    {
      var sound := true;
      if site.db.Some? {
        var valid := ValidateEventGraph(site.db.value.graph);
        sound := valid && check(site.db.value);
      }
      if sound {
        ok, after := MergeValid(site, plan);
      } else {
        NothingArchived(policy.forkId, site.forks, Had(StateOf(site)).histories, HistoriesOf(plan.events));
        ok, after := false, site;
      }
    }

    method MergeValid(site: Site, plan: Plan) returns (ok: bool, after: Site)
      requires Faithful() && PlanOk(plan)
      requires site.db.Some? ==> ValidGraph(site.db.value.graph) && check(site.db.value)
      ensures ok <==> CanMerge(policy, StateOf(site), plan)
      ensures ok ==> StateOf(after) == After(policy, StateOf(site), plan)
      ensures !ok ==> after.db == site.db && Partial(policy, StateOf(site), StateOf(after), plan)
    {
      NewStore();
      var had := if site.db.Some? then site.db.value else Db(Graph([], []), map[]);
      OpenedMerge(policy, site, plan);
      assert HistoriesOf(had.graph) == OpenedHistories(site) && ContentsOf(had.tables) == OpenedContents(site);
      var archive := new ForkArchive(policy.forkId, site.forks);
      var db: Db;
      ok, db := MergeOpened(had.graph, had.tables, site.db.Some?, plan, archive);
      after := Site(if ok then Some(db) else site.db, archive.forks);
    }

    method PrecheckAll(plans: map<string, Plan>) returns (ok: bool)
      requires Faithful()
      ensures ok <==> forall d :: d in plans ==> Prechecked(policy, StateAt(AllStates(), d), plans[d])
    {
      var rest := plans.Keys;
      while rest != {}
        invariant rest <= plans.Keys
        invariant forall d :: d in plans && d !in rest ==> Prechecked(policy, StateAt(AllStates(), d), plans[d])
        decreases rest
      {
        var d :| d in rest;
        ok := Precheck(if d in sites then sites[d] else Site(None, map[]), plans[d]);
        if !ok {
          assert !Prechecked(policy, StateAt(AllStates(), d), plans[d]);
          return;
        }
        rest := rest - {d};
      }
      ok := true;
    }

    /** Destinations in any order; the first that cannot be merged ends the run. */
    method MergeAll(plans: map<string, Plan>) returns (ok: bool)
      requires Faithful() && PlansOk(plans)
      modifies this`sites
      ensures ok <==> CanRun(policy, old(AllStates()), plans)
      ensures ok ==> AllStates() == Final(policy, old(AllStates()), plans)
      ensures !ok ==> Interrupted(policy, old(AllStates()), AllStates(), plans)
    {
      ghost var m := AllStates();
      ghost var goal := Goals(policy, m, plans);
      var rest := plans.Keys;
      while rest != {}
        invariant rest <= plans.Keys
        invariant Underway(m, AllStates(), goal, plans.Keys - rest)
        decreases rest
      {
        var d :| d in rest;
        ghost var before := sites;
        assert Untouched(m, AllStates(), d);
        var merged, site := MergeSite(if d in sites then sites[d] else Site(None, map[]), plans[d]);
        sites := sites[d := site];
        SitePut(before, d, site);
        if !merged {
          BrokenOff(policy, m, StatesOf(before), plans, plans.Keys - rest, d, StateOf(site));
          return false;
        }
        OneFinished(m, StatesOf(before), goal, plans.Keys - rest, d);
        MoveOne(plans.Keys, rest, d);
        rest := rest - {d};
      }
      NoneLeft(plans.Keys);
      AllFinished(policy, m, AllStates(), plans);
      ok := true;
    }

    /**
     Nothing is written unless every destination passes its checks; then the migration either ends
     as `Final` says or is one that can be repeated.
     */
    method Migrate(plans: map<string, Plan>) returns (ok: bool)
      requires Faithful() && PlansOk(plans)
      modifies this`sites
      ensures ok <==> CanRun(policy, old(AllStates()), plans)
      ensures ok ==> AllStates() == Final(policy, old(AllStates()), plans)
      ensures !ok ==> Interrupted(policy, old(AllStates()), AllStates(), plans)
      ensures (exists d :: d in plans && !Prechecked(policy, StateAt(old(AllStates()), d), plans[d])) ==> sites == old(sites)
    {
      NothingTouched(policy, AllStates(), plans);
      ok := PrecheckAll(plans);
      if !ok {
        FailedCheck(policy, AllStates(), plans);
        return;
      }
      ok := MergeAll(plans);
    }
  }
}
