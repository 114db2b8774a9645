/**
 Tracking of child sessions: which are candidates, which are managed, which have ended, and the
 chain of operations that each session's events are put on. Events and the continuations of awaits
 interleave in any order.
 */
module ChildLifecycle {
  import opened Wrappers

  /** `abort` can be missing from the client. */
  datatype Config = Config(maxTracked: nat, canAbort: bool)

  /** A tracked child; operations in flight keep it after it is no longer tracked. */
  datatype Entry = Entry(session: string, managed: Option<bool>, attempted: bool, aborted: bool)

  datatype Ownership = Unknown | Manager | Child(parent: string, agent: string)

  datatype Kind = Confirm(entry: nat, parent: string, agent: Option<string>) | Recover | Nothing

  datatype Phase = Queued(after: Option<nat>) | Confirming(child: nat) | Aborting(child: nat) | Done

  datatype Operation = Operation(session: string, kind: Kind, phase: Phase)

  /** Operations are numbered as they arrive; `aborts` is the history of abort requests, by entry. */
  datatype State = State(disposed: bool, entries: seq<Entry>, tracked: map<string, nat>, cleaned: seq<string>,
                         operations: seq<Operation>, last: map<string, nat>, aborts: seq<nat>)

  function Initial(): State {
    State(false, [], map[], [], [], map[], [])
  }

  function Bound(config: Config): nat {
    if config.maxTracked < 1 then 1 else config.maxTracked
  }

  // ---- pieces of steps ----------------------------------------------------------------------------

  /** The entry of the session, made if there is room; none for a session that has ended. */
  function Reserve(config: Config, s: State, session: string): (State, Option<nat>) {
    if s.disposed || session in s.cleaned then (s, None)
    else if session in s.tracked then (s, Some(s.tracked[session]))
    else if |s.tracked| >= Bound(config) then (s, None)
    else (s.(entries := s.entries + [Entry(session, None, false, false)], tracked := s.tracked[session := |s.entries|]),
          Some(|s.entries|))
  }

  /** The operation is put behind the last one of its session. */
  function Serialize(s: State, session: string, kind: Kind): State {
    var after := if session in s.last then Some(s.last[session]) else None;
    s.(operations := s.operations + [Operation(session, kind, Queued(after))], last := s.last[session := |s.operations|])
  }

  function SetPhase(s: State, op: nat, phase: Phase): State
    requires op < |s.operations|
  {
    s.(operations := s.operations[op := s.operations[op].(phase := phase)])
  }

  function SetManaged(s: State, e: nat, managed: bool): State
    requires e < |s.entries|
  {
    s.(entries := s.entries[e := s.entries[e].(managed := Some(managed))])
  }

  /** Asks OpenCode to abort the session, unless that was done, or the session has ended. */
  function AbortTracked(config: Config, s: State, op: nat, e: nat): State
    requires op < |s.operations| && e < |s.entries|
  {
    var entry := s.entries[e];
    if s.disposed || entry.aborted || entry.attempted || s.operations[op].session in s.cleaned then SetPhase(s, op, Done)
    else
      var t := s.(entries := s.entries[e := entry.(attempted := true)]);
      if config.canAbort then SetPhase(t.(aborts := t.aborts + [e]), op, Aborting(e)) else SetPhase(t, op, Done)
  }

  /** The session has ended: it is no longer tracked, and remembered as long as there is room. */
  function Tombstone(config: Config, s: State, session: string, confirmed: bool): State {
    if !confirmed && session !in s.tracked then s
    else
      var kept := if |s.cleaned| >= Bound(config) then s.cleaned[1..] else s.cleaned;
      s.(tracked := s.tracked - {session}, cleaned := if session in kept then kept else kept + [session])
  }

  // ---- the steps -------------------------------------------------------------------------------------

  datatype Event =
    | SessionCreated(session: string, parent: string, agent: Option<string>)
    | LimitSeen(session: string)
    | StatusSeen(session: string)
    | SessionEnded(session: string, deletedChild: bool)
    | Starts(op: nat)
    | Confirmed(op: nat, ownership: Ownership)
    | AbortAnswered(op: nat, accepted: bool)
    | Finished(op: nat)
    | Dispose

  function OnCreated(config: Config, s: State, session: string, parent: string, agent: Option<string>): State {
    if session in s.cleaned || (session in s.tracked && s.tracked[session] < |s.entries| && s.entries[s.tracked[session]].managed.Some?)
      || (session !in s.tracked && |s.tracked| >= config.maxTracked) then s
    else
      var (t, e) := Reserve(config, s, session);
      if e.None? then t else Serialize(t, session, Confirm(e.value, parent, agent))
  }

  function OnLimit(config: Config, s: State, session: string): State {
    var (t, e) := Reserve(config, s, session);
    if e.None? then t else Serialize(t, session, Recover)
  }

  function OnStart(config: Config, s: State, op: nat): State
    requires op < |s.operations|
  {
    var session := s.operations[op].session;
    match s.operations[op].kind
    case Nothing => SetPhase(s, op, Done)
    case Confirm(e, _, _) => SetPhase(s, op, Confirming(e))
    case Recover =>
      var (t, e) := Reserve(config, s, session);
      if e.None? || e.value >= |t.entries| then SetPhase(t, op, Done)
      else if t.entries[e.value].managed.None? then SetPhase(t, op, Confirming(e.value))
      else if t.entries[e.value].managed.value then AbortTracked(config, t, op, e.value)
      else SetPhase(t, op, Done)
  }

  function OnConfirmed(config: Config, s: State, op: nat, e: nat, ownership: Ownership): State
    requires op < |s.operations| && e < |s.entries|
  {
    if s.disposed || s.operations[op].session in s.cleaned then SetPhase(s, op, Done)
    else
      match s.operations[op].kind
      case Nothing => s
      case Confirm(_, parent, agent) =>
        SetPhase(SetManaged(s, e, ownership.Child? && ownership.parent == parent && (agent.Some? ==> ownership.agent == agent.value)),
                 op, Done)
      case Recover =>
        if ownership.Child? then AbortTracked(config, SetManaged(s, e, true), op, e) else SetPhase(SetManaged(s, e, false), op, Done)
  }

  function OnAbortAnswered(s: State, op: nat, e: nat, accepted: bool): State
    requires op < |s.operations| && e < |s.entries|
  {
    SetPhase(if accepted then s.(entries := s.entries[e := s.entries[e].(aborted := true)]) else s, op, Done)
  }

  /** A chain whose last operation is done is dropped. */
  function OnFinished(s: State, op: nat): State
    requires op < |s.operations|
  {
    var session := s.operations[op].session;
    if session in s.last && s.last[session] == op then s.(last := s.last - {session}) else s
  }

  function OnDispose(s: State): State {
    if s.disposed then s else s.(disposed := true, tracked := map[], cleaned := [], last := map[])
  }

  /** An operation starts when the one before it is done. */
  predicate Ready(s: State, op: nat) {
    op < |s.operations| && s.operations[op].phase.Queued?
    && (s.operations[op].phase.after.Some? ==>
          s.operations[op].phase.after.value < |s.operations| && s.operations[s.operations[op].phase.after.value].phase.Done?)
  }

  predicate Enabled(s: State, e: Event) {
    match e
    case Starts(op) => Ready(s, op)
    case Confirmed(op, _) => op < |s.operations| && s.operations[op].phase.Confirming? && s.operations[op].phase.child < |s.entries|
    case AbortAnswered(op, _) => op < |s.operations| && s.operations[op].phase.Aborting? && s.operations[op].phase.child < |s.entries|
    case Finished(op) => op < |s.operations| && s.operations[op].phase.Done?
    case _ => true
  }

  function Step(config: Config, s: State, e: Event): State
    requires Enabled(s, e)
  {
    match e
    case SessionCreated(session, parent, agent) => OnCreated(config, s, session, parent, agent)
    case LimitSeen(session) => OnLimit(config, s, session)
    case StatusSeen(session) => Serialize(s, session, Nothing)
    case SessionEnded(session, deletedChild) => Serialize(Tombstone(config, s, session, deletedChild), session, Nothing)
    case Starts(op) => OnStart(config, s, op)
    case Confirmed(op, ownership) => OnConfirmed(config, s, op, s.operations[op].phase.child, ownership)
    case AbortAnswered(op, accepted) => OnAbortAnswered(s, op, s.operations[op].phase.child, accepted)
    case Finished(op) => OnFinished(s, op)
    case Dispose => OnDispose(s)
  }

  function Run(config: Config, events: seq<Event>): State {
    if events == [] then Initial()
    else
      var s, e := Run(config, events[..|events| - 1]), events[|events| - 1];
      if Enabled(s, e) then Step(config, s, e) else s
  }
}
