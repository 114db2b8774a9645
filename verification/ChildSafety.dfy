/**
 What the lifecycle of child sessions keeps under every interleaving of events and awaits.
 */
module ChildSafety {
  import opened Wrappers
  import opened ChildLifecycle

  // ---- the invariant ------------------------------------------------------------------------------

  ghost predicate TrackedOk(s: State, session: string)
    requires session in s.tracked
  {
    session !in s.cleaned && s.tracked[session] < |s.entries| && s.entries[s.tracked[session]].session == session
  }

  ghost predicate ChildOf(s: State, e: nat, session: string) {
    e < |s.entries| && s.entries[e].session == session
  }

  /** An operation works on an entry of its own session, and was put behind an earlier operation of it. */
  ghost predicate OperationOk(s: State, j: nat)
    requires j < |s.operations|
  {
    var o := s.operations[j];
    && (o.kind.Confirm? ==> ChildOf(s, o.kind.entry, o.session))
    && (o.kind.Nothing? ==> o.phase.Queued? || o.phase.Done?)
    && (o.phase.Confirming? || o.phase.Aborting? ==> ChildOf(s, o.phase.child, o.session))
    && (o.phase.Queued? && o.phase.after.Some? ==> o.phase.after.value < j && s.operations[o.phase.after.value].session == o.session)
  }

  ghost predicate Behind(o: Operation, i: nat) {
    o.phase.Queued? && o.phase.after.Some? && i <= o.phase.after.value
  }

  /** Until the end, an operation that is not done holds back all later ones of its session. */
  ghost predicate ChainOk(s: State, i: nat, j: nat)
    requires i < j < |s.operations|
  {
    !s.disposed && s.operations[i].session == s.operations[j].session && !s.operations[i].phase.Done? ==> Behind(s.operations[j], i)
  }

  /** Until the end, an operation that is not done is known to the chain of its session. */
  ghost predicate OpenOk(s: State, i: nat)
    requires i < |s.operations|
  {
    var session := s.operations[i].session;
    !s.disposed && !s.operations[i].phase.Done? ==> session in s.last && i <= s.last[session]
  }

  ghost predicate LastOk(s: State, session: string)
    requires session in s.last
  {
    s.last[session] < |s.operations| && s.operations[s.last[session]].session == session
  }

  ghost predicate AbortsOk(s: State) {
    && (forall i, j :: 0 <= i < j < |s.aborts| ==> s.aborts[i] != s.aborts[j])
    && (forall e :: e in s.aborts ==> e < |s.entries| && s.entries[e].attempted)
  }

  ghost predicate Chained(s: State) {
    && (forall j: nat {:trigger OperationOk(s, j)} :: j < |s.operations| ==> OperationOk(s, j))
    && (forall i: nat, j: nat {:trigger ChainOk(s, i, j)} :: i < j < |s.operations| ==> ChainOk(s, i, j))
    && (forall i: nat {:trigger OpenOk(s, i)} :: i < |s.operations| ==> OpenOk(s, i))
    && (forall session {:trigger LastOk(s, session)} :: session in s.last ==> LastOk(s, session))
  }

  predicate Distinct(ids: seq<string>) {
    forall i, j :: 0 <= i < j < |ids| ==> ids[i] != ids[j]
  }

  ghost predicate Tracking(config: Config, s: State) {
    && |s.tracked| <= Bound(config) && |s.cleaned| <= Bound(config) && Distinct(s.cleaned)
    && (forall session {:trigger TrackedOk(s, session)} :: session in s.tracked ==> TrackedOk(s, session))
  }

  ghost predicate Inv(config: Config, s: State) {
    Tracking(config, s) && Chained(s) && AbortsOk(s)
  }

  lemma InitialInv(config: Config)
    ensures Inv(config, Initial())
  {
  }

  // ---- what the pieces keep -------------------------------------------------------------------------

  /** Entries only gain: new ones, and flags on old ones. */
  ghost predicate EntriesGrow(s: State, t: State) {
    |s.entries| <= |t.entries| && forall e :: 0 <= e < |s.entries| ==> t.entries[e].session == s.entries[e].session
  }

  lemma ChainedWithEntries(s: State, t: State)
    requires Chained(s) && EntriesGrow(s, t) && t.operations == s.operations && t.last == s.last && t.disposed == s.disposed
    ensures Chained(t)
  {
    forall j: nat | j < |t.operations|
      ensures OperationOk(t, j) && OpenOk(t, j)
    {
      assert OperationOk(s, j) && OpenOk(s, j);
    }
    forall i: nat, j: nat | i < j < |t.operations|
      ensures ChainOk(t, i, j)
    {
      assert ChainOk(s, i, j);
    }
    forall session | session in t.last
      ensures LastOk(t, session)
    {
      assert LastOk(s, session);
    }
  }

  lemma ReserveKeeps(config: Config, s: State, session: string)
    requires Inv(config, s)
    ensures var (t, e) := Reserve(config, s, session);
      && Inv(config, t) && (e.Some? ==> ChildOf(t, e.value, session)) && EntriesGrow(s, t)
      && t.operations == s.operations && t.disposed == s.disposed && t.cleaned == s.cleaned && t.aborts == s.aborts
  {
    var (t, e) := Reserve(config, s, session);
    if session in s.tracked {
      assert TrackedOk(s, session);
    }
    ChainedWithEntries(s, t);
    forall other | other in t.tracked
      ensures TrackedOk(t, other)
    {
      if other in s.tracked {
        assert TrackedOk(s, other);
      }
    }
  }

  lemma SerializeKeeps(config: Config, s: State, session: string, kind: Kind)
    requires Inv(config, s) && (kind.Confirm? ==> ChildOf(s, kind.entry, session))
    ensures Inv(config, Serialize(s, session, kind))
  {
    var t, n := Serialize(s, session, kind), |s.operations|;
    if session in s.last {
      assert LastOk(s, session);
    }
    forall j: nat | j < |t.operations|
      ensures OperationOk(t, j) && OpenOk(t, j)
    {
      if j < n {
        assert OperationOk(s, j) && OpenOk(s, j);
      }
    }
    forall i: nat, j: nat | i < j < |t.operations|
      ensures ChainOk(t, i, j)
    {
      if j < n {
        assert ChainOk(s, i, j);
      } else {
        assert OpenOk(s, i);
      }
    }
    forall other | other in t.last
      ensures LastOk(t, other)
    {
      if other != session {
        assert LastOk(s, other);
      }
    }
    forall other | other in t.tracked
      ensures TrackedOk(t, other)
    {
      assert TrackedOk(s, other);
    }
  }

  /** The operation is going, or may go. */
  ghost predicate Running(s: State, op: nat) {
    op < |s.operations| && (Ready(s, op) || s.operations[op].phase.Confirming? || s.operations[op].phase.Aborting?)
  }

  /** What is running has nothing unfinished before it. */
  lemma NothingBefore(s: State, op: nat, i: nat)
    requires Chained(s) && Running(s, op) && i < op && s.operations[i].session == s.operations[op].session && !s.disposed
    ensures s.operations[i].phase.Done?
  {
    assert ChainOk(s, i, op);
    if s.operations[op].phase.Queued? && s.operations[op].phase.after.Some? {
      var p := s.operations[op].phase.after.value;
      assert OperationOk(s, op);
      if i < p {
        assert ChainOk(s, i, p);
      }
    }
  }

  lemma PhaseKeeps(config: Config, s: State, op: nat, phase: Phase)
    requires Inv(config, s) && Running(s, op) && !phase.Queued?
    requires phase.Confirming? || phase.Aborting? ==> ChildOf(s, phase.child, s.operations[op].session) && !s.operations[op].kind.Nothing?
    ensures Inv(config, SetPhase(s, op, phase))
  {
    var t := SetPhase(s, op, phase);
    forall j: nat | j < |t.operations|
      ensures OperationOk(t, j) && OpenOk(t, j)
    {
      assert OperationOk(s, j) && OpenOk(s, j);
    }
    forall i: nat, j: nat | i < j < |t.operations|
      ensures ChainOk(t, i, j)
    {
      assert ChainOk(s, i, j);
      if j == op && !s.disposed && s.operations[i].session == s.operations[op].session {
        NothingBefore(s, op, i);
      }
    }
    forall session | session in t.last
      ensures LastOk(t, session)
    {
      assert LastOk(s, session);
    }
    forall session | session in t.tracked
      ensures TrackedOk(t, session)
    {
      assert TrackedOk(s, session);
    }
  }

  lemma EntryKeeps(config: Config, s: State, e: nat, entry: Entry)
    requires Inv(config, s) && e < |s.entries| && entry.session == s.entries[e].session
    requires s.entries[e].attempted ==> entry.attempted
    ensures Inv(config, s.(entries := s.entries[e := entry]))
  {
    var t := s.(entries := s.entries[e := entry]);
    ChainedWithEntries(s, t);
    forall session | session in t.tracked
      ensures TrackedOk(t, session)
    {
      assert TrackedOk(s, session);
    }
  }

  lemma AbortedKeeps(config: Config, s: State, e: nat)
    requires Inv(config, s) && e < |s.entries| && !s.entries[e].attempted
    ensures Inv(config, s.(entries := s.entries[e := s.entries[e].(attempted := true)], aborts := s.aborts + [e]))
  {
    var u := s.(entries := s.entries[e := s.entries[e].(attempted := true)]);
    var t := u.(aborts := s.aborts + [e]);
    EntryKeeps(config, s, e, s.entries[e].(attempted := true));
    ChainedWithEntries(u, t);
    forall session | session in t.tracked
      ensures TrackedOk(t, session)
    {
      assert TrackedOk(u, session);
    }
  }

  lemma AbortTrackedKeeps(config: Config, s: State, op: nat, e: nat)
    requires Inv(config, s) && Running(s, op) && e < |s.entries| && ChildOf(s, e, s.operations[op].session)
    requires !s.operations[op].kind.Nothing?
    ensures Inv(config, AbortTracked(config, s, op, e))
  {
    if s.disposed || s.entries[e].aborted || s.entries[e].attempted || s.operations[op].session in s.cleaned {
      PhaseKeeps(config, s, op, Done);
    } else if config.canAbort {
      AbortedKeeps(config, s, e);
      PhaseKeeps(config, s.(entries := s.entries[e := s.entries[e].(attempted := true)], aborts := s.aborts + [e]), op, Aborting(e));
    } else {
      EntryKeeps(config, s, e, s.entries[e].(attempted := true));
      PhaseKeeps(config, s.(entries := s.entries[e := s.entries[e].(attempted := true)]), op, Done);
    }
  }

  lemma TombstoneKeeps(config: Config, s: State, session: string, confirmed: bool)
    requires Inv(config, s)
    ensures Inv(config, Tombstone(config, s, session, confirmed))
  {
    var t := Tombstone(config, s, session, confirmed);
    ChainedWithEntries(s, t);
    forall other | other in t.tracked
      ensures TrackedOk(t, other)
    {
      assert TrackedOk(s, other);
    }
    Fewer(s.tracked, session);
  }

  lemma Fewer<V>(m: map<string, V>, k: string)
    ensures |m - {k}| <= |m|
  {
    var n := m - {k};
    if k in m {
      assert n.Keys == m.Keys - {k};
    } else {
      assert n == m;
    }
  }

  lemma FinishedKeeps(config: Config, s: State, op: nat)
    requires Inv(config, s) && op < |s.operations| && s.operations[op].phase.Done?
    ensures Inv(config, OnFinished(s, op))
  {
    var t := OnFinished(s, op);
    forall j: nat | j < |t.operations|
      ensures OperationOk(t, j) && OpenOk(t, j)
    {
      assert OperationOk(s, j) && OpenOk(s, j);
      if j < op {
        assert ChainOk(s, j, op);
      }
    }
    forall i: nat, j: nat | i < j < |t.operations|
      ensures ChainOk(t, i, j)
    {
      assert ChainOk(s, i, j);
    }
    forall session | session in t.last
      ensures LastOk(t, session)
    {
      assert LastOk(s, session);
    }
    forall session | session in t.tracked
      ensures TrackedOk(t, session)
    {
      assert TrackedOk(s, session);
    }
  }

  lemma DisposeKeeps(config: Config, s: State)
    requires Inv(config, s)
    ensures Inv(config, OnDispose(s))
  {
    if !s.disposed {
      var t := OnDispose(s);
      forall j: nat | j < |t.operations|
        ensures OperationOk(t, j)
      {
        assert OperationOk(s, j);
      }
    }
  }

  lemma StartKeeps(config: Config, s: State, op: nat)
    requires Inv(config, s) && Ready(s, op)
    ensures Inv(config, OnStart(config, s, op))
  {
    assert OperationOk(s, op);
    match s.operations[op].kind
    case Nothing => PhaseKeeps(config, s, op, Done);
    case Confirm(e, _, _) => PhaseKeeps(config, s, op, Confirming(e));
    case Recover =>
      var (t, e) := Reserve(config, s, s.operations[op].session);
      ReserveKeeps(config, s, s.operations[op].session);
      if e.None? || e.value >= |t.entries| {
        PhaseKeeps(config, t, op, Done);
      } else if t.entries[e.value].managed.None? {
        PhaseKeeps(config, t, op, Confirming(e.value));
      } else if t.entries[e.value].managed.value {
        AbortTrackedKeeps(config, t, op, e.value);
      } else {
        PhaseKeeps(config, t, op, Done);
      }
  }

  lemma ConfirmedKeeps(config: Config, s: State, op: nat, e: nat, ownership: Ownership)
    requires Inv(config, s) && op < |s.operations| && s.operations[op].phase == Confirming(e) && e < |s.entries|
    ensures Inv(config, OnConfirmed(config, s, op, e, ownership))
  {
    assert OperationOk(s, op);
    if s.disposed || s.operations[op].session in s.cleaned {
      PhaseKeeps(config, s, op, Done);
    } else {
      match s.operations[op].kind
      case Nothing =>
      case Confirm(_, parent, agent) =>
        var managed := ownership.Child? && ownership.parent == parent && (agent.Some? ==> ownership.agent == agent.value);
        EntryKeeps(config, s, e, s.entries[e].(managed := Some(managed)));
        PhaseKeeps(config, SetManaged(s, e, managed), op, Done);
      case Recover =>
        EntryKeeps(config, s, e, s.entries[e].(managed := Some(ownership.Child?)));
        if ownership.Child? {
          AbortTrackedKeeps(config, SetManaged(s, e, true), op, e);
        } else {
          PhaseKeeps(config, SetManaged(s, e, false), op, Done);
        }
    }
  }

  lemma AbortAnsweredKeeps(config: Config, s: State, op: nat, e: nat, accepted: bool)
    requires Inv(config, s) && op < |s.operations| && s.operations[op].phase == Aborting(e) && e < |s.entries|
    ensures Inv(config, OnAbortAnswered(s, op, e, accepted))
  {
    EntryKeeps(config, s, e, s.entries[e].(aborted := true));
    PhaseKeeps(config, if accepted then s.(entries := s.entries[e := s.entries[e].(aborted := true)]) else s, op, Done);
  }

  lemma CreatedKeeps(config: Config, s: State, session: string, parent: string, agent: Option<string>)
    requires Inv(config, s)
    ensures Inv(config, OnCreated(config, s, session, parent, agent))
  {
    var (t, e) := Reserve(config, s, session);
    ReserveKeeps(config, s, session);
    if e.Some? {
      SerializeKeeps(config, t, session, Confirm(e.value, parent, agent));
    }
  }

  lemma StepKeeps(config: Config, s: State, e: Event)
    requires Inv(config, s) && Enabled(s, e)
    ensures Inv(config, Step(config, s, e))
  {
    match e
    case SessionCreated(session, parent, agent) => CreatedKeeps(config, s, session, parent, agent);
    case LimitSeen(session) =>
      ReserveKeeps(config, s, session);
      SerializeKeeps(config, Reserve(config, s, session).0, session, Recover);
    case StatusSeen(session) => SerializeKeeps(config, s, session, Nothing);
    case SessionEnded(session, deletedChild) =>
      TombstoneKeeps(config, s, session, deletedChild);
      SerializeKeeps(config, Tombstone(config, s, session, deletedChild), session, Nothing);
    case Starts(op) => StartKeeps(config, s, op);
    case Confirmed(op, ownership) => ConfirmedKeeps(config, s, op, s.operations[op].phase.child, ownership);
    case AbortAnswered(op, accepted) => AbortAnsweredKeeps(config, s, op, s.operations[op].phase.child, accepted);
    case Finished(op) => FinishedKeeps(config, s, op);
    case Dispose => DisposeKeeps(config, s);
  }

  // ---- what holds of every run ------------------------------------------------------------------------

  lemma {:induction false} RunKeeps(config: Config, events: seq<Event>)
    ensures Inv(config, Run(config, events))
  {
    if events == [] {
      InitialInv(config);
    } else {
      var s, e := Run(config, events[..|events| - 1]), events[|events| - 1];
      RunKeeps(config, events[..|events| - 1]);
      if Enabled(s, e) {
        StepKeeps(config, s, e);
      }
    }
  }

  /** Tracked and ended sessions are apart, both are bounded, and none is remembered twice. */
  lemma TrackedAndEnded(config: Config, events: seq<Event>, session: string)
    ensures var s := Run(config, events);
      && |s.tracked| <= Bound(config) && |s.cleaned| <= Bound(config) && !(session in s.tracked && session in s.cleaned)
      && Distinct(s.cleaned)
  {
    var s := Run(config, events);
    RunKeeps(config, events);
    if session in s.tracked {
      assert TrackedOk(s, session);
    }
  }

  /** Until the plugin is disposed, an operation that has begun finds all earlier ones of its session done. */
  lemma OneAtATime(config: Config, events: seq<Event>, i: nat, j: nat)
    requires var s := Run(config, events);
      && i < j < |s.operations| && s.operations[i].session == s.operations[j].session
      && !s.disposed && !s.operations[j].phase.Queued?
    ensures Run(config, events).operations[i].phase.Done?
  {
    RunKeeps(config, events);
    assert ChainOk(Run(config, events), i, j);
  }

  /** Of the first `n` operations, those of the session are done. */
  predicate DoneBefore(s: State, session: string, n: nat)
    requires n <= |s.operations|
  {
    forall i :: 0 <= i < n && s.operations[i].session == session ==> s.operations[i].phase.Done?
  }

  /** A queued operation may start exactly when every earlier one of its session is done. */
  lemma MayStartIff(config: Config, events: seq<Event>, j: nat)
    requires var s := Run(config, events); j < |s.operations| && s.operations[j].phase.Queued? && !s.disposed
    ensures var s := Run(config, events);
      Ready(s, j) <==> DoneBefore(s, s.operations[j].session, j)
  {
    var s := Run(config, events);
    RunKeeps(config, events);
    assert OperationOk(s, j);
    if Ready(s, j) {
      forall i | 0 <= i < j && s.operations[i].session == s.operations[j].session
        ensures s.operations[i].phase.Done?
      {
        NothingBefore(s, j, i);
      }
    }
  }

  lemma {:induction false} RunningBefore(s: State, i: nat) returns (j: nat)
    requires Chained(s) && i < |s.operations| && !s.operations[i].phase.Done?
    ensures j <= i && Running(s, j) && s.operations[j].session == s.operations[i].session
    decreases i
  {
    assert OperationOk(s, i);
    j := i;
    if s.operations[i].phase.Queued? && !Ready(s, i) {
      j := RunningBefore(s, s.operations[i].phase.after.value);
    }
  }

  /** No chain is ever stuck: as long as an operation is not done, it or an earlier one of its session is under way or may start. */
  lemma NeverStuck(config: Config, events: seq<Event>, i: nat)
    requires i < |Run(config, events).operations| && !Run(config, events).operations[i].phase.Done?
    ensures var s := Run(config, events);
      exists j: nat :: j <= i && Running(s, j) && s.operations[j].session == s.operations[i].session
  {
    RunKeeps(config, events);
    var j := RunningBefore(Run(config, events), i);
  }

  lemma LastIsOpen(s: State, i: nat)
    requires Chained(s) && !s.disposed && i < |s.operations| && !s.operations[i].phase.Done?
    ensures var session := s.operations[i].session;
      session in s.last && s.last[session] < |s.operations| && !s.operations[s.last[session]].phase.Done?
  {
    var session := s.operations[i].session;
    assert OpenOk(s, i) && LastOk(s, session);
    if i < s.last[session] {
      assert ChainOk(s, i, s.last[session]);
    }
  }

  /** What is put on a chain may start at once exactly if nothing of its session is unfinished. */
  lemma SerializedWaits(s: State, session: string, kind: Kind)
    requires Chained(s) && !s.disposed
    ensures Ready(Serialize(s, session, kind), |s.operations|) <==> DoneBefore(s, session, |s.operations|)
  {
    var t, n := Serialize(s, session, kind), |s.operations|;
    if session in s.last {
      assert LastOk(s, session);
      assert t.operations[s.last[session]] == s.operations[s.last[session]];
    }
    if i: nat :| i < n && s.operations[i].session == session && !s.operations[i].phase.Done? {
      LastIsOpen(s, i);
    }
  }

  // ---- who is tracked, and who is remembered as ended ---------------------------------------------------

  /** The session can be taken up: the plugin runs, it has not ended, and fewer than `room` are tracked. */
  predicate Admits(s: State, session: string, room: nat) {
    !s.disposed && session !in s.cleaned && |s.tracked| < room
  }

  /** Whether the session is tracked after the event. */
  predicate TracksAfter(config: Config, s: State, e: Event, session: string) {
    match e
    case SessionCreated(other, _, _) => session in s.tracked || (session == other && Admits(s, session, config.maxTracked))
    case LimitSeen(other) => session in s.tracked || (session == other && Admits(s, session, Bound(config)))
    case Starts(op) =>
      || session in s.tracked
      || (&& op < |s.operations| && s.operations[op].kind.Recover? && session == s.operations[op].session
          && Admits(s, session, Bound(config)))
    case SessionEnded(other, _) => session in s.tracked && session != other
    case Dispose => session in s.tracked && s.disposed
    case _ => session in s.tracked
  }

  lemma ReserveTracks(config: Config, s: State, session: string, other: string)
    ensures var (t, e) := Reserve(config, s, session);
      && (other in t.tracked <==> other in s.tracked || (other == session && Admits(s, session, Bound(config))))
      && (other in s.tracked ==> t.tracked[other] == s.tracked[other])
      && (other !in s.tracked && other in t.tracked ==> t.tracked[other] == |s.entries| && t.entries == s.entries + [Entry(other, None, false, false)])
      && (e.Some? <==> !s.disposed && session !in s.cleaned && session in t.tracked)
      && (e.Some? ==> t.tracked[session] == e.value)
  {
  }

  lemma CreatedTracks(config: Config, s: State, other: string, parent: string, agent: Option<string>, session: string)
    requires other in s.tracked ==> TrackedOk(s, other)
    ensures session in OnCreated(config, s, other, parent, agent).tracked
      <==> TracksAfter(config, s, SessionCreated(other, parent, agent), session)
    ensures session in s.tracked ==> OnCreated(config, s, other, parent, agent).tracked[session] == s.tracked[session]
  {
    ReserveTracks(config, s, other, session);
  }

  lemma LimitTracks(config: Config, s: State, other: string, session: string)
    ensures session in OnLimit(config, s, other).tracked <==> TracksAfter(config, s, LimitSeen(other), session)
    ensures session in s.tracked ==> OnLimit(config, s, other).tracked[session] == s.tracked[session]
  {
    ReserveTracks(config, s, other, session);
  }

  lemma StartTracks(config: Config, s: State, op: nat, session: string)
    requires Ready(s, op)
    ensures session in OnStart(config, s, op).tracked <==> TracksAfter(config, s, Starts(op), session)
    ensures session in s.tracked ==> OnStart(config, s, op).tracked[session] == s.tracked[session]
  {
    ReserveTracks(config, s, s.operations[op].session, session);
  }

  /** A session is tracked exactly as the event says, and as long as it is, under the same entry. */
  lemma TrackedIff(config: Config, s: State, e: Event, session: string)
    requires Inv(config, s) && Enabled(s, e)
    ensures session in Step(config, s, e).tracked <==> TracksAfter(config, s, e, session)
    ensures session in s.tracked && session in Step(config, s, e).tracked ==> Step(config, s, e).tracked[session] == s.tracked[session]
  {
    match e
    case SessionCreated(other, parent, agent) =>
      assert other in s.tracked ==> TrackedOk(s, other);
      CreatedTracks(config, s, other, parent, agent, session);
    case LimitSeen(other) => LimitTracks(config, s, other, session);
    case Starts(op) => StartTracks(config, s, op, session);
    case _ =>
  }

  /** At most `later` sessions were remembered after this one. */
  ghost predicate Remembered(s: State, session: string, later: nat) {
    exists p :: 0 <= p < |s.cleaned| && s.cleaned[p] == session && |s.cleaned| - 1 - p <= later
  }

  predicate Ends(s: State, e: Event) {
    e.SessionEnded? && (e.deletedChild || e.session in s.tracked)
  }

  predicate EndsAt(config: Config, events: seq<Event>, k: nat)
    requires k < |events|
  {
    Ends(Run(config, events[..k]), events[k])
  }

  /** How many ends counted from one moment of a run to another. */
  function EndsIn(config: Config, events: seq<Event>, n: nat, m: nat): nat
    requires n <= m <= |events|
    decreases m
  {
    if n == m then 0 else EndsIn(config, events, n, m - 1) + if EndsAt(config, events, m - 1) then 1 else 0
  }

  lemma StartLeaves(config: Config, s: State, op: nat)
    requires op < |s.operations|
    ensures OnStart(config, s, op).cleaned == s.cleaned && OnStart(config, s, op).disposed == s.disposed
  {
  }

  lemma ConfirmedLeaves(config: Config, s: State, op: nat, e: nat, ownership: Ownership)
    requires op < |s.operations| && e < |s.entries|
    ensures OnConfirmed(config, s, op, e, ownership).cleaned == s.cleaned
    ensures OnConfirmed(config, s, op, e, ownership).disposed == s.disposed
  {
  }

  lemma CleanedStays(config: Config, s: State, e: Event)
    requires Enabled(s, e) && !e.Dispose?
    ensures Step(config, s, e).disposed == s.disposed
    ensures !Ends(s, e) ==> Step(config, s, e).cleaned == s.cleaned
  {
    match e
    case Starts(op) => StartLeaves(config, s, op);
    case Confirmed(op, ownership) => ConfirmedLeaves(config, s, op, s.operations[op].phase.child, ownership);
    case _ =>
  }

  lemma EndRemembers(config: Config, s: State, session: string, confirmed: bool)
    requires (confirmed || session in s.tracked) && session !in s.cleaned
    ensures Remembered(Tombstone(config, s, session, confirmed), session, 0)
  {
    var t := Tombstone(config, s, session, confirmed);
    assert t.cleaned[|t.cleaned| - 1] == session;
  }

  lemma EndForgetsOldest(config: Config, s: State, other: string, confirmed: bool, session: string, later: nat)
    requires Remembered(s, session, later) && later + 1 < Bound(config)
    ensures Remembered(Tombstone(config, s, other, confirmed), session, later + 1)
  {
    var t := Tombstone(config, s, other, confirmed);
    var p :| 0 <= p < |s.cleaned| && s.cleaned[p] == session && |s.cleaned| - 1 - p <= later;
    if !confirmed && other !in s.tracked {
      assert t.cleaned[p] == session;
    } else if |s.cleaned| >= Bound(config) {
      assert t.cleaned[p - 1] == session;
    } else {
      assert t.cleaned[p] == session;
    }
  }

  lemma StaysRemembered(config: Config, s: State, e: Event, session: string, later: nat)
    requires Enabled(s, e) && Remembered(s, session, later) && !Step(config, s, e).disposed
    requires Ends(s, e) ==> later + 1 < Bound(config)
    ensures Remembered(Step(config, s, e), session, later + if Ends(s, e) then 1 else 0)
  {
    if Ends(s, e) {
      EndForgetsOldest(config, s, e.session, e.deletedChild, session, later);
    } else {
      CleanedStays(config, s, e);
    }
  }

  lemma RunStep(config: Config, events: seq<Event>, k: nat)
    requires k < |events|
    ensures var s := Run(config, events[..k]);
      Run(config, events[..k + 1]) == if Enabled(s, events[k]) then Step(config, s, events[k]) else s
  {
    assert events[..k + 1][..k] == events[..k];
  }

  lemma RememberedNext(config: Config, events: seq<Event>, k: nat, session: string, later: nat)
    requires k < |events| && Remembered(Run(config, events[..k]), session, later) && !Run(config, events[..k + 1]).disposed
    requires EndsAt(config, events, k) ==> later + 1 < Bound(config)
    ensures Remembered(Run(config, events[..k + 1]), session, later + if EndsAt(config, events, k) then 1 else 0)
  {
    var s, e := Run(config, events[..k]), events[k];
    RunStep(config, events, k);
    if Enabled(s, e) {
      StaysRemembered(config, s, e, session, later);
    }
  }

  lemma StillUndisposed(config: Config, events: seq<Event>, k: nat)
    requires k < |events| && !Run(config, events[..k + 1]).disposed
    ensures !Run(config, events[..k]).disposed
  {
    RunStep(config, events, k);
    if Enabled(Run(config, events[..k]), events[k]) && !events[k].Dispose? {
      CleanedStays(config, Run(config, events[..k]), events[k]);
    }
  }

  lemma OneMoreEnd(config: Config, events: seq<Event>, n: nat, k: nat)
    requires n <= k < |events|
    ensures EndsIn(config, events, n, k + 1) == EndsIn(config, events, n, k) + if EndsAt(config, events, k) then 1 else 0
  {
  }

  /** What the induction is about: the session is remembered, with as many after it as have ended since. */
  ghost predicate RememberedAt(config: Config, events: seq<Event>, n: nat, k: nat, session: string)
    requires n <= k <= |events|
  {
    Remembered(Run(config, events[..k]), session, EndsIn(config, events, n, k))
  }

  ghost predicate OpenAt(config: Config, events: seq<Event>, n: nat, k: nat)
    requires n <= k <= |events|
  {
    !Run(config, events[..k]).disposed && EndsIn(config, events, n, k) < Bound(config)
  }

  lemma OpenBefore(config: Config, events: seq<Event>, n: nat, m: nat)
    requires n < m <= |events| && OpenAt(config, events, n, m)
    ensures OpenAt(config, events, n, m - 1)
  {
    StillUndisposed(config, events, m - 1);
    OneMoreEnd(config, events, n, m - 1);
  }

  lemma RememberedThen(config: Config, events: seq<Event>, n: nat, m: nat, session: string)
    requires n < m <= |events| && RememberedAt(config, events, n, m - 1, session) && OpenAt(config, events, n, m)
    ensures RememberedAt(config, events, n, m, session)
  {
    OneMoreEnd(config, events, n, m - 1);
    RememberedNext(config, events, m - 1, session, EndsIn(config, events, n, m - 1));
  }

  lemma {:induction false} RememberedSince(config: Config, events: seq<Event>, n: nat, m: nat, session: string)
    requires n <= m <= |events| && RememberedAt(config, events, n, n, session) && OpenAt(config, events, n, m)
    ensures RememberedAt(config, events, n, m, session)
    decreases m
  {
    if n < m {
      OpenBefore(config, events, n, m);
      RememberedSince(config, events, n, m - 1, session);
      RememberedThen(config, events, n, m, session);
    }
  }

  lemma RememberedAtOnce(config: Config, events: seq<Event>, n: nat, session: string)
    requires n < |events| && events[n].SessionEnded? && events[n].session == session
    requires EndsAt(config, events, n) && session !in Run(config, events[..n]).cleaned
    ensures Remembered(Run(config, events[..n + 1]), session, 0)
  {
    RunStep(config, events, n);
    EndRemembers(config, Run(config, events[..n]), session, events[n].deletedChild);
  }

  /**
     A child that has ended is remembered, and so not tracked again, until as many ends as there is room for
     have come after it, or the plugin is disposed.
   */
  lemma EndedIsRemembered(config: Config, events: seq<Event>, n: nat, session: string)
    requires n < |events| && events[n].SessionEnded? && events[n].session == session
    requires EndsAt(config, events, n) && session !in Run(config, events[..n]).cleaned
    requires !Run(config, events).disposed && EndsIn(config, events, n + 1, |events|) < Bound(config)
    ensures session in Run(config, events).cleaned && session !in Run(config, events).tracked
  {
    assert events[..|events|] == events;
    RememberedAtOnce(config, events, n, session);
    RememberedSince(config, events, n + 1, |events|, session);
    TrackedAndEnded(config, events, session);
  }

  /** Whether the session is remembered as ended after the event. */
  predicate RemembersAfter(config: Config, s: State, e: Event, session: string) {
    if Ends(s, e) then
      session == e.session || (session in s.cleaned && !(|s.cleaned| >= Bound(config) && s.cleaned[0] == session))
    else session in s.cleaned && (e.Dispose? ==> s.disposed)
  }

  lemma TombstoneRemembers(config: Config, s: State, other: string, confirmed: bool, session: string)
    requires Distinct(s.cleaned) && (confirmed || other in s.tracked)
    ensures session in Tombstone(config, s, other, confirmed).cleaned
      <==> session == other || (session in s.cleaned && !(|s.cleaned| >= Bound(config) && s.cleaned[0] == session))
  {
    if |s.cleaned| >= Bound(config) {
      assert s.cleaned == [s.cleaned[0]] + s.cleaned[1..];
      assert s.cleaned[0] !in s.cleaned[1..];
    }
  }

  /** A session is remembered as ended exactly as the event says. */
  lemma RememberedIff(config: Config, s: State, e: Event, session: string)
    requires Inv(config, s) && Enabled(s, e)
    ensures session in Step(config, s, e).cleaned <==> RemembersAfter(config, s, e, session)
  {
    if Ends(s, e) {
      TombstoneRemembers(config, s, e.session, e.deletedChild, session);
    } else if !e.Dispose? {
      CleanedStays(config, s, e);
    }
  }

  /** Forgotten is only the oldest, exactly when another end counts at the bound, or all with the end of the plugin. */
  lemma ForgottenIff(config: Config, s: State, e: Event, session: string)
    requires Inv(config, s) && Enabled(s, e) && session in s.cleaned
    ensures session !in Step(config, s, e).cleaned <==>
      || (e.Dispose? && !s.disposed)
      || (Ends(s, e) && |s.cleaned| >= Bound(config) && s.cleaned[0] == session && e.session != session)
  {
    RememberedIff(config, s, e, session);
  }

  lemma EndsOf(config: Config, events: seq<Event>, session: string)
    requires events != [] && events[|events| - 1] == SessionEnded(session, true)
    ensures Run(config, events).cleaned
      == Tombstone(config, Run(config, events[..|events| - 1]), session, true).cleaned
  {
  }

  /** An end that is told twice counts twice: with room for two, telling "b" again costs "a" its place. */
  lemma EndToldTwice(config: Config)
    requires config.maxTracked == 2
    ensures Run(config, [SessionEnded("a", true), SessionEnded("b", true)]).cleaned == ["a", "b"]
    ensures Run(config, [SessionEnded("a", true), SessionEnded("b", true), SessionEnded("b", true)]).cleaned == ["b"]
  {
    var one := [SessionEnded("a", true)];
    var two := one + [SessionEnded("b", true)];
    var three := two + [SessionEnded("b", true)];
    EndsOf(config, one, "a");
    assert two[..1] == one && three[..2] == two;
    EndsOf(config, two, "b");
    EndsOf(config, three, "b");
    assert ["a", "b"][1..] == ["b"];
    assert two == [SessionEnded("a", true), SessionEnded("b", true)];
    assert three == [SessionEnded("a", true), SessionEnded("b", true), SessionEnded("b", true)];
  }

  // ---- aborts ---------------------------------------------------------------------------------------------

  lemma AbortedOnce(config: Config, events: seq<Event>, i: nat, j: nat)
    requires i < j < |Run(config, events).aborts|
    ensures Run(config, events).aborts[i] != Run(config, events).aborts[j]
  {
    RunKeeps(config, events);
  }

  /** The step from `s` to `t` asked for the abort of a managed child that has not ended. */
  ghost predicate RightfulAbort(s: State, t: State, e: nat) {
    && e < |t.entries| && t.entries[e].managed == Some(true)
    && !s.disposed && t.entries[e].session !in s.cleaned
    && (e < |s.entries| ==> !s.entries[e].attempted)
  }

  lemma AbortTrackedIsRightful(config: Config, s: State, op: nat, e: nat)
    requires op < |s.operations| && ChildOf(s, e, s.operations[op].session) && s.entries[e].managed == Some(true)
    ensures var t := AbortTracked(config, s, op, e);
      t.aborts == s.aborts || (t.aborts == s.aborts + [e] && RightfulAbort(s, t, e))
  {
  }

  ghost predicate AbortsAtMostOne(s: State, t: State) {
    t.aborts == s.aborts || (|t.aborts| == |s.aborts| + 1 && t.aborts[..|s.aborts|] == s.aborts && RightfulAbort(s, t, t.aborts[|s.aborts|]))
  }

  lemma StepAborts(config: Config, s: State, e: Event)
    requires Inv(config, s) && Enabled(s, e)
    ensures AbortsAtMostOne(s, Step(config, s, e))
  {
    match e
    case Starts(op) =>
      if s.operations[op].kind.Recover? {
        var (t, child) := Reserve(config, s, s.operations[op].session);
        ReserveKeeps(config, s, s.operations[op].session);
        if child.Some? && child.value < |t.entries| && t.entries[child.value].managed == Some(true) {
          AbortTrackedIsRightful(config, t, op, child.value);
        }
      }
    case Confirmed(op, ownership) =>
      assert OperationOk(s, op);
      if s.operations[op].kind.Recover? && ownership.Child? {
        var child := s.operations[op].phase.child;
        AbortTrackedIsRightful(config, SetManaged(s, child, true), op, child);
      }
    case _ =>
  }

  /** The entry may be aborted: OpenCode can, the plugin runs, the session has not ended, and it was not tried. */
  predicate Abortable(config: Config, s: State, session: string, e: nat) {
    && config.canAbort && !s.disposed && session !in s.cleaned
    && e < |s.entries| && !s.entries[e].attempted && !s.entries[e].aborted
  }

  /** The event makes a recovery ask for the abort of this entry: it is managed, or just now confirmed to be. */
  predicate AsksAbort(config: Config, s: State, e: Event, child: nat) {
    match e
    case Starts(op) =>
      && op < |s.operations| && s.operations[op].kind.Recover? && s.operations[op].session in s.tracked
      && s.tracked[s.operations[op].session] == child && Abortable(config, s, s.operations[op].session, child)
      && s.entries[child].managed == Some(true)
    case Confirmed(op, ownership) =>
      && op < |s.operations| && s.operations[op].kind.Recover? && s.operations[op].phase == Confirming(child) && ownership.Child?
      && Abortable(config, s, s.operations[op].session, child)
    case _ => false
  }

  lemma AbortTrackedAsks(config: Config, s: State, op: nat, e: nat)
    requires op < |s.operations| && e < |s.entries|
    ensures AbortTracked(config, s, op, e).aborts
         == if Abortable(config, s, s.operations[op].session, e) then s.aborts + [e] else s.aborts
  {
  }

  lemma Appended(aborts: seq<nat>, e: nat, child: nat)
    ensures aborts + [e] == aborts + [child] <==> e == child
    ensures aborts != aborts + [child]
  {
    assert (aborts + [e])[|aborts|] == e && (aborts + [child])[|aborts|] == child;
  }

  lemma StartAsks(config: Config, s: State, op: nat, child: nat)
    requires Inv(config, s) && Ready(s, op)
    ensures AsksAbort(config, s, Starts(op), child) <==> OnStart(config, s, op).aborts == s.aborts + [child]
  {
    var session := s.operations[op].session;
    Appended(s.aborts, child, child);
    if s.operations[op].kind.Recover? {
      var (t, e) := Reserve(config, s, session);
      ReserveTracks(config, s, session, session);
      ReserveKeeps(config, s, session);
      if e.Some? {
        AbortTrackedAsks(config, t, op, e.value);
        Appended(s.aborts, e.value, child);
      }
    }
  }

  /** An abort is asked for by exactly these steps: nothing else asks, and each of them does. */
  lemma AbortAskedIff(config: Config, s: State, e: Event, child: nat)
    requires Inv(config, s) && Enabled(s, e)
    ensures AsksAbort(config, s, e, child) <==> Step(config, s, e).aborts == s.aborts + [child]
  {
    Appended(s.aborts, child, child);
    match e
    case Starts(op) => StartAsks(config, s, op, child);
    case Confirmed(op, ownership) =>
      var c := s.operations[op].phase.child;
      Appended(s.aborts, c, child);
      if s.operations[op].kind.Recover? && ownership.Child? {
        AbortTrackedAsks(config, SetManaged(s, c, true), op, c);
      }
    case _ =>
  }

  ghost predicate AskedAt(config: Config, events: seq<Event>, n: int, e: nat) {
    0 <= n < |events| && RightfulAbort(Run(config, events[..n]), Run(config, events[..n + 1]), e)
  }

  lemma AskedEarlier(config: Config, events: seq<Event>, m: nat, n: int, e: nat)
    requires m <= |events| && AskedAt(config, events[..m], n, e)
    ensures AskedAt(config, events, n, e)
  {
    assert events[..m][..n] == events[..n] && events[..m][..n + 1] == events[..n + 1];
  }

  lemma LastAbort(config: Config, events: seq<Event>, k: nat)
    requires events != [] && k < |Run(config, events).aborts|
    ensures var m := |events| - 1;
      if k < |Run(config, events[..m]).aborts| then Run(config, events[..m]).aborts[k] == Run(config, events).aborts[k]
      else AskedAt(config, events, m, Run(config, events).aborts[k])
  {
    LastStepAborts(config, events);
    AbortIndex(Run(config, events[..|events| - 1]), Run(config, events), k);
    assert events[..|events| - 1 + 1] == events;
  }

  lemma AbortIndex(s: State, t: State, k: nat)
    requires AbortsAtMostOne(s, t) && k < |t.aborts|
    ensures if k < |s.aborts| then s.aborts[k] == t.aborts[k] else RightfulAbort(s, t, t.aborts[k])
  {
    assert k < |s.aborts| ==> t.aborts[..|s.aborts|][k] == t.aborts[k];
  }

  lemma LastStepAborts(config: Config, events: seq<Event>)
    requires events != []
    ensures AbortsAtMostOne(Run(config, events[..|events| - 1]), Run(config, events))
  {
    var s, e := Run(config, events[..|events| - 1]), events[|events| - 1];
    RunKeeps(config, events[..|events| - 1]);
    if Enabled(s, e) {
      StepAborts(config, s, e);
    }
  }

  /** Every abort was asked for at a moment when its child was managed, not ended, and the plugin not disposed. */
  lemma {:induction false} AbortsWereRightful(config: Config, events: seq<Event>, k: nat)
    requires k < |Run(config, events).aborts|
    ensures exists n :: AskedAt(config, events, n, Run(config, events).aborts[k])
  {
    var m := |events| - 1;
    assert events != [];
    LastAbort(config, events, k);
    if k < |Run(config, events[..m]).aborts| {
      AbortsWereRightful(config, events[..m], k);
      var n :| AskedAt(config, events[..m], n, Run(config, events[..m]).aborts[k]);
      AskedEarlier(config, events, m, n, Run(config, events[..m]).aborts[k]);
    }
  }

  predicate Managed(s: State, e: nat) {
    e < |s.entries| && s.entries[e].managed == Some(true)
  }

  lemma ReserveManages(config: Config, s: State, session: string, x: nat)
    ensures Managed(Reserve(config, s, session).0, x) <==> Managed(s, x)
  {
  }

  lemma AbortManages(config: Config, s: State, op: nat, e: nat, x: nat)
    requires op < |s.operations| && e < |s.entries|
    ensures Managed(AbortTracked(config, s, op, e), x) <==> Managed(s, x)
  {
  }

  lemma StartManages(config: Config, s: State, op: nat, x: nat)
    requires op < |s.operations|
    ensures Managed(OnStart(config, s, op), x) <==> Managed(s, x)
  {
    if s.operations[op].kind.Recover? {
      var (t, e) := Reserve(config, s, s.operations[op].session);
      ReserveManages(config, s, s.operations[op].session, x);
      if e.Some? && e.value < |t.entries| {
        AbortManages(config, t, op, e.value, x);
      }
    }
  }

  lemma CreatedManages(config: Config, s: State, session: string, parent: string, agent: Option<string>, x: nat)
    ensures Managed(OnCreated(config, s, session, parent, agent), x) <==> Managed(s, x)
  {
    ReserveManages(config, s, session, x);
  }

  /** OpenCode knows the session as a child, and as the one that was announced if it was. */
  predicate Confirms(kind: Kind, ownership: Ownership) {
    && ownership.Child? && !kind.Nothing?
    && (kind.Confirm? ==> ownership.parent == kind.parent && (kind.agent.Some? ==> ownership.agent == kind.agent.value))
  }

  lemma ConfirmedManages(config: Config, s: State, op: nat, e: nat, ownership: Ownership, x: nat)
    requires op < |s.operations| && e < |s.entries| && !s.operations[op].kind.Nothing?
    ensures Managed(OnConfirmed(config, s, op, e, ownership), x)
      <==> if x == e && !s.disposed && s.operations[op].session !in s.cleaned then Confirms(s.operations[op].kind, ownership) else Managed(s, x)
  {
    if s.operations[op].kind.Recover? && ownership.Child? {
      AbortManages(config, SetManaged(s, e, true), op, e, x);
    }
  }

  /** Whether the entry is managed after the event: OpenCode's answer decides, if it comes before the end. */
  predicate ManagedAfter(s: State, e: Event, x: nat) {
    match e
    case Confirmed(op, ownership) =>
      if op < |s.operations| && s.operations[op].phase == Confirming(x) && !s.disposed && s.operations[op].session !in s.cleaned
      then Confirms(s.operations[op].kind, ownership) else Managed(s, x)
    case _ => Managed(s, x)
  }

  /** A child becomes managed exactly when OpenCode confirms, in time, that it is the one it was taken for. */
  lemma ManagedIff(config: Config, s: State, e: Event, x: nat)
    requires Inv(config, s) && Enabled(s, e)
    ensures Managed(Step(config, s, e), x) <==> ManagedAfter(s, e, x)
  {
    match e
    case SessionCreated(session, parent, agent) => CreatedManages(config, s, session, parent, agent, x);
    case LimitSeen(session) => ReserveManages(config, s, session, x);
    case Starts(op) => StartManages(config, s, op, x);
    case Confirmed(op, ownership) =>
      assert OperationOk(s, op);
      ConfirmedManages(config, s, op, s.operations[op].phase.child, ownership, x);
    case _ =>
  }

  // ---- what each handler can be relied on for ----------------------------------------------------------------

  /** Who is tracked, who is remembered, who is managed and what is aborted after the step is what the event says, and no more. */
  ghost predicate Follows(config: Config, s: State, e: Event, t: State) {
    && Inv(config, t)
    && (forall session :: session in t.tracked <==> TracksAfter(config, s, e, session))
    && (forall session :: session in s.tracked && session in t.tracked ==> t.tracked[session] == s.tracked[session])
    && (forall session :: session in t.cleaned <==> RemembersAfter(config, s, e, session))
    && (forall x: nat :: Managed(t, x) <==> ManagedAfter(s, e, x))
    && (forall x: nat :: t.aborts == s.aborts + [x] <==> AsksAbort(config, s, e, x))
    && AbortsAtMostOne(s, t)
  }

  lemma StepFollows(config: Config, s: State, e: Event)
    requires Inv(config, s) && Enabled(s, e)
    ensures Follows(config, s, e, Step(config, s, e))
  {
    var t := Step(config, s, e);
    StepKeeps(config, s, e);
    StepAborts(config, s, e);
    forall session
      ensures session in t.tracked <==> TracksAfter(config, s, e, session)
      ensures session in s.tracked && session in t.tracked ==> t.tracked[session] == s.tracked[session]
      ensures session in t.cleaned <==> RemembersAfter(config, s, e, session)
    {
      TrackedIff(config, s, e, session);
      RememberedIff(config, s, e, session);
    }
    forall x: nat
      ensures Managed(t, x) <==> ManagedAfter(s, e, x)
      ensures t.aborts == s.aborts + [x] <==> AsksAbort(config, s, e, x)
    {
      ManagedIff(config, s, e, x);
      AbortAskedIff(config, s, e, x);
    }
  }
}
