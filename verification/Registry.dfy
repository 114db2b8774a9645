/**
 The registry of authorised projects: any number of launchers read it, take a lock file, reload it,
 add their project, replace the file and remove the lock, and any of them may die on the way.
 */
module Registry {
  import opened Wrappers

  const MAX_PROJECTS := 128

  /** What setup recorded once, and the tool paths of every authorised project. */
  datatype Content = Content(policy: string, projects: map<string, seq<string>>)

  datatype Task = Task(policy: string, root: string, tools: seq<string>)

  /** Where a launcher is; a lock file is known by its inode. */
  datatype Phase =
    | Reading
    | Locking
    | Locked(inode: nat)
    | Writing(inode: nat, content: Content)
    | Releasing(inode: nat, result: Result<bool>)
    | Removing(inode: nat, result: Result<bool>)
    | Returned(result: Result<bool>)
    | Dead(held: Option<nat>)

  datatype Process = Process(task: Task, phase: Phase)

  datatype State = State(registry: Option<Content>, lock: Option<nat>, inodes: nat, processes: map<nat, Process>)

  /** Whether the project is already authorised with the same tools; an error when setup or tools do not match. */
  function LaunchState(content: Content, task: Task): Result<bool> {
    if content.policy != task.policy || |content.projects| > MAX_PROJECTS then Err
    else if task.root in content.projects then
      if content.projects[task.root] == task.tools then Ok(true) else Err
    else Ok(false)
  }

  /** The project is added, unless there is no room for another. */
  function Authorized(content: Content, task: Task): Result<Content> {
    if task.root !in content.projects && |content.projects| >= MAX_PROJECTS then Err
    else Ok(content.(projects := content.projects[task.root := task.tools]))
  }

  function Goes(s: State, p: nat, phase: Phase): State
    requires p in s.processes
  {
    s.(processes := s.processes[p := s.processes[p].(phase := phase)])
  }

  // ---- the steps ---------------------------------------------------------------------------------

  datatype Event = Launches(p: nat, task: Task) | Acts(p: nat) | GivesUp(p: nat) | Dies(p: nat)

  /** The optimistic read, without the lock. */
  function OnRead(s: State, p: nat): State
    requires p in s.processes
  {
    if s.registry.None? then Goes(s, p, Locking)
    else
      match LaunchState(s.registry.value, s.processes[p].task)
      case Err => Goes(s, p, Returned(Err))
      case Ok(true) => Goes(s, p, Returned(Ok(false)))
      case Ok(false) => Goes(s, p, Locking)
  }

  /** Creates the lock file if there is none. */
  function OnLock(s: State, p: nat): State
    requires p in s.processes
  {
    if s.lock.Some? then s else Goes(s.(lock := Some(s.inodes), inodes := s.inodes + 1), p, Locked(s.inodes))
  }

  /** The registry is loaded again, under the lock. */
  function OnReload(s: State, p: nat, inode: nat): State
    requires p in s.processes
  {
    if s.registry.None? then Goes(s, p, Releasing(inode, Err))
    else
      match LaunchState(s.registry.value, s.processes[p].task)
      case Err => Goes(s, p, Releasing(inode, Err))
      case Ok(true) => Goes(s, p, Releasing(inode, Ok(false)))
      case Ok(false) =>
        match Authorized(s.registry.value, s.processes[p].task)
        case Err => Goes(s, p, Releasing(inode, Err))
        case Ok(content) => Goes(s, p, Writing(inode, content))
  }

  /** The lock is released in two steps: only a lock file with the own inode is removed. */
  function OnRelease(s: State, p: nat, inode: nat, result: Result<bool>): State
    requires p in s.processes
  {
    Goes(s, p, if s.lock == Some(inode) then Removing(inode, result) else Returned(result))
  }

  function OnAct(s: State, p: nat): State
    requires p in s.processes
  {
    match s.processes[p].phase
    case Reading => OnRead(s, p)
    case Locking => OnLock(s, p)
    case Locked(inode) => OnReload(s, p, inode)
    case Writing(inode, content) => Goes(s.(registry := Some(content)), p, Releasing(inode, Ok(true)))
    case Releasing(inode, result) => OnRelease(s, p, inode, result)
    case Removing(_, result) => Goes(s.(lock := None), p, Returned(result))
    case Returned(_) => s
    case Dead(_) => s
  }

  /** Waiting for the lock can time out, and writing can fail. */
  function OnGiveUp(s: State, p: nat): State
    requires p in s.processes
  {
    match s.processes[p].phase
    case Locking => Goes(s, p, Returned(Err))
    case Writing(inode, _) => Goes(s, p, Releasing(inode, Err))
    case _ => s
  }

  function Held(phase: Phase): Option<nat> {
    match phase
    case Locked(inode) => Some(inode)
    case Writing(inode, _) => Some(inode)
    case Releasing(inode, _) => Some(inode)
    case Removing(inode, _) => Some(inode)
    case Dead(held) => held
    case _ => None
  }

  function Step(s: State, e: Event): State {
    match e
    case Launches(p, task) => if p in s.processes then s else s.(processes := s.processes[p := Process(task, Reading)])
    case Acts(p) => if p in s.processes then OnAct(s, p) else s
    case GivesUp(p) => if p in s.processes then OnGiveUp(s, p) else s
    case Dies(p) => if p in s.processes then Goes(s, p, Dead(Held(s.processes[p].phase))) else s
  }

  function Run(s: State, events: seq<Event>): State {
    if events == [] then s else Step(Run(s, events[..|events| - 1]), events[|events| - 1])
  }

  // ---- the invariant ---------------------------------------------------------------------------------

  /** The registry has the project with its tools. */
  ghost predicate Has(s: State, task: Task) {
    s.registry.Some? && task.root in s.registry.value.projects && s.registry.value.projects[task.root] == task.tools
  }

  ghost predicate ProcessOk(s: State, p: nat)
    requires p in s.processes
  {
    var (task, phase) := (s.processes[p].task, s.processes[p].phase);
    && (Held(phase).Some? ==> s.lock == Held(phase))
    && (phase.Writing? ==> && s.registry.Some? && task.root !in s.registry.value.projects
                           && |s.registry.value.projects| < MAX_PROJECTS
                           && phase.content == s.registry.value.(projects := s.registry.value.projects[task.root := task.tools]))
    && (phase.Releasing? || phase.Removing? || phase.Returned? ==> phase.result.Ok? ==> Has(s, task))
  }

  ghost predicate OneHolder(s: State, p: nat, q: nat)
    requires p in s.processes && q in s.processes
  {
    Held(s.processes[p].phase).Some? && Held(s.processes[q].phase).Some? ==> p == q
  }

  ghost predicate Inv(s: State) {
    && (forall p {:trigger ProcessOk(s, p)} :: p in s.processes ==> ProcessOk(s, p))
    && (forall p, q {:trigger OneHolder(s, p, q)} :: p in s.processes && q in s.processes ==> OneHolder(s, p, q))
    && (s.lock.Some? ==> s.lock.value < s.inodes)
    && (s.registry.Some? ==> |s.registry.value.projects| <= MAX_PROJECTS)
  }

  /** A registry is never taken away, and keeps what setup recorded and every project as it was authorised. */
  ghost predicate Grown(s: State, t: State) {
    s.registry.Some? ==>
      && t.registry.Some? && t.registry.value.policy == s.registry.value.policy
      && forall root :: root in s.registry.value.projects ==>
           root in t.registry.value.projects && t.registry.value.projects[root] == s.registry.value.projects[root]
  }

  lemma OneMore(m: map<string, seq<string>>, root: string, tools: seq<string>)
    requires root !in m
    ensures |m[root := tools]| == |m| + 1
  {
    assert m[root := tools].Keys == m.Keys + {root};
    assert |m[root := tools]| == |m[root := tools].Keys| && |m| == |m.Keys|;
  }

  lemma OthersStay(s: State, t: State, p: nat)
    requires Inv(s) && p in s.processes && p in t.processes && t.processes == s.processes[p := t.processes[p]]
    requires t.registry == s.registry || (Held(s.processes[p].phase).Some? && Grown(s, t) && s.registry.Some?)
    requires t.lock == s.lock || Held(s.processes[p].phase).Some? || s.lock.None?
    requires ProcessOk(t, p)
    requires Held(t.processes[p].phase).Some? ==> Held(s.processes[p].phase).Some? || s.lock.None?
    requires (t.lock.Some? ==> t.lock.value < t.inodes) && (t.registry.Some? ==> |t.registry.value.projects| <= MAX_PROJECTS)
    ensures Inv(t)
  {
    forall q | q in t.processes
      ensures ProcessOk(t, q)
    {
      if q != p {
        assert ProcessOk(s, q) && OneHolder(s, p, q);
      }
    }
    forall q, r | q in t.processes && r in t.processes
      ensures OneHolder(t, q, r)
    {
      assert OneHolder(s, q, r);
      if q != p {
        assert ProcessOk(s, q);
      }
      if r != p {
        assert ProcessOk(s, r);
      }
    }
  }

  lemma ActKeeps(s: State, p: nat)
    requires Inv(s) && p in s.processes
    ensures Inv(OnAct(s, p)) && Grown(s, OnAct(s, p))
  {
    var t := OnAct(s, p);
    assert ProcessOk(s, p);
    if s.processes[p].phase.Writing? {
      OneMore(s.registry.value.projects, s.processes[p].task.root, s.processes[p].task.tools);
    }
    OthersStay(s, t, p);
  }

  lemma StepKeeps(s: State, e: Event)
    requires Inv(s)
    ensures Inv(Step(s, e)) && Grown(s, Step(s, e))
  {
    var t := Step(s, e);
    match e
    case Launches(p, task) =>
      if p !in s.processes {
        forall q | q in t.processes
          ensures ProcessOk(t, q)
        {
          if q != p {
            assert ProcessOk(s, q);
          }
        }
        forall q, r | q in t.processes && r in t.processes
          ensures OneHolder(t, q, r)
        {
          if q != p && r != p {
            assert OneHolder(s, q, r);
          }
        }
      }
    case Acts(p) =>
      if p in s.processes {
        ActKeeps(s, p);
      }
    case GivesUp(p) =>
      if p in s.processes {
        assert ProcessOk(s, p);
        OthersStay(s, t, p);
      }
    case Dies(p) =>
      if p in s.processes {
        assert ProcessOk(s, p);
        OthersStay(s, t, p);
      }
  }

  // ---- what holds of every run --------------------------------------------------------------------------

  lemma {:induction false} RunKeeps(s: State, events: seq<Event>)
    requires Inv(s)
    ensures Inv(Run(s, events)) && Grown(s, Run(s, events))
  {
    if events != [] {
      RunKeeps(s, events[..|events| - 1]);
      StepKeeps(Run(s, events[..|events| - 1]), events[|events| - 1]);
    }
  }

  /** No project is ever lost, however launchers interleave and die. */
  lemma {:induction false} NoProjectIsLost(s: State, events: seq<Event>, n: nat)
    requires Inv(s) && n <= |events|
    ensures Grown(Run(s, events[..n]), Run(s, events))
  {
    if n < |events| {
      var m := |events| - 1;
      NoProjectIsLost(s, events[..m], n);
      assert events[..m][..n] == events[..n];
      RunKeeps(s, events[..m]);
      StepKeeps(Run(s, events[..m]), events[m]);
    } else {
      assert events[..n] == events;
    }
  }

  ghost predicate Reported(s: State, p: nat) {
    p in s.processes && s.processes[p].phase.Returned? && s.processes[p].phase.result.Ok?
  }

  /** A launcher that reports success, now or before, has its project in the registry, which stays within its limit. */
  lemma ReportedIsAuthorized(s: State, events: seq<Event>, p: nat)
    requires Inv(s)
    ensures Reported(Run(s, events), p) ==> Has(Run(s, events), Run(s, events).processes[p].task)
    ensures Run(s, events).registry.Some? ==> |Run(s, events).registry.value.projects| <= MAX_PROJECTS
  {
    RunKeeps(s, events);
    if Reported(Run(s, events), p) {
      assert ProcessOk(Run(s, events), p);
    }
  }

  /** At most one launcher, dead ones included, holds the lock, and it is the one on disk. */
  lemma LockIsExclusive(s: State, events: seq<Event>, p: nat, q: nat)
    requires Inv(s)
    requires p in Run(s, events).processes && Held(Run(s, events).processes[p].phase).Some?
    requires q in Run(s, events).processes && Held(Run(s, events).processes[q].phase).Some?
    ensures p == q && Run(s, events).lock == Held(Run(s, events).processes[p].phase)
  {
    RunKeeps(s, events);
    assert OneHolder(Run(s, events), p, q) && ProcessOk(Run(s, events), p);
  }

  /** While a launcher holds the lock and does nothing, the registry and the lock do not change. */
  lemma {:induction false} HolderFreezes(s: State, events: seq<Event>, p: nat)
    requires Inv(s) && p in s.processes && Held(s.processes[p].phase).Some?
    requires s.processes[p].phase.Dead? || forall i :: 0 <= i < |events| ==> events[i].p != p
    ensures var t := Run(s, events);
      t.registry == s.registry && t.lock == s.lock && p in t.processes && t.processes[p] == s.processes[p]
  {
    if events != [] {
      var t, e := Run(s, events[..|events| - 1]), events[|events| - 1];
      HolderFreezes(s, events[..|events| - 1], p);
      RunKeeps(s, events[..|events| - 1]);
      if e.p in t.processes {
        assert OneHolder(t, p, e.p) && ProcessOk(t, p) && ProcessOk(t, e.p);
      }
    }
  }

  /** Behind a launcher that died with the lock, the registry does not change any more. */
  lemma DeadHolderFreezes(s: State, events: seq<Event>, p: nat)
    requires Inv(s) && p in s.processes && s.processes[p].phase.Dead? && s.processes[p].phase.held.Some?
    ensures Run(s, events).registry == s.registry && Run(s, events).lock == s.lock
  {
    HolderFreezes(s, events, p);
  }

  // ---- a launcher among others --------------------------------------------------------------------------

  lemma {:induction false} OthersDoNotTouch(s: State, events: seq<Event>, me: nat)
    requires Inv(s) && forall i :: 0 <= i < |events| ==> events[i].p != me
    ensures var t := Run(s, events);
      (me in t.processes <==> me in s.processes) && (me in s.processes ==> t.processes[me] == s.processes[me])
  {
    if events != [] {
      OthersDoNotTouch(s, events[..|events| - 1], me);
    }
  }

  /** What a launcher that is alone does to the registry, and what it reports. */
  function Updated(registry: Option<Content>, task: Task, writable: bool): (Option<Content>, Result<bool>) {
    if registry.None? || LaunchState(registry.value, task).Err? then (registry, Err)
    else if LaunchState(registry.value, task).value then (registry, Ok(false))
    else
      match Authorized(registry.value, task)
      case Err => (registry, Err)
      case Ok(content) => if writable then (Some(content), Ok(true)) else (registry, Err)
  }

  /** The registry at the start of a launch decides, unless the project is missing from it, or it is missing itself. */
  ghost predicate Foretold(s: State, task: Task, r: Result<bool>) {
    s.registry.Some? ==>
      match LaunchState(s.registry.value, task)
      case Err => r.Err?
      case Ok(true) => r == Ok(false)
      case Ok(false) => true
  }

  /** What a later look at the registry shows was so before, as far as it showed anything. */
  lemma SeenLater(s: State, t: State, task: Task)
    requires Inv(s) && Inv(t) && Grown(s, t) && s.registry.Some?
    ensures LaunchState(s.registry.value, task).Err? ==> LaunchState(t.registry.value, task).Err?
    ensures LaunchState(s.registry.value, task) == Ok(true) ==> LaunchState(t.registry.value, task) == Ok(true)
  {
  }

  class Disk {
    var state: State
    /** How often others have done something. */
    ghost var moves: nat

    constructor (state: State)
      requires Inv(state)
      ensures this.state == state
    {
      this.state, moves := state, 0;
    }

    /** Anything the other launchers do meanwhile. */
    method Others(me: nat)
      requires Inv(state)
      modifies this
      ensures Inv(state) && Grown(old(state), state)
      ensures me in state.processes <==> me in old(state).processes
      ensures me in state.processes ==> state.processes[me] == old(state).processes[me]
      ensures me in state.processes && Held(state.processes[me].phase).Some? ==> state.registry == old(state).registry
      ensures moves >= old(moves) && (moves == old(moves) ==> state == old(state))
    {
      ghost var none: seq<Event> := [];
      assert forall i :: 0 <= i < |none| ==> none[i].p != me;
      var events: seq<Event> :| forall i :: 0 <= i < |events| ==> events[i].p != me;
      RunKeeps(state, events);
      OthersDoNotTouch(state, events, me);
      if me in state.processes && Held(state.processes[me].phase).Some? {
        HolderFreezes(state, events, me);
      }
      state, moves := Run(state, events), moves + |events|;
    }

    method Act(me: nat)
      requires Inv(state) && me in state.processes
      modifies this`state
      ensures state == OnAct(old(state), me) && Inv(state) && Grown(old(state), state)
    {
      ActKeeps(state, me);
      state := OnAct(state, me);
    }

    method GiveUp(me: nat)
      requires Inv(state) && me in state.processes
      modifies this`state
      ensures state == OnGiveUp(old(state), me) && Inv(state) && Grown(old(state), state)
    {
      StepKeeps(state, GivesUp(me));
      state := OnGiveUp(state, me);
    }

    /** Tries to create the lock file, some number of times; a free lock is not missed. */
    method AcquireRegistryLock(me: nat, task: Task, tries: nat) returns (locked: bool)
      requires Inv(state) && me in state.processes && state.processes[me] == Process(task, Locking)
      modifies this
      ensures Inv(state) && Grown(old(state), state) && me in state.processes && state.processes[me].task == task
      ensures locked ==> state.processes[me].phase.Locked? && state.lock == Held(state.processes[me].phase)
      ensures !locked ==> state.processes[me].phase == Returned(Err)
      ensures moves >= old(moves)
      ensures moves == old(moves) ==> state.registry == old(state).registry
      ensures moves == old(moves) && tries > 0 && old(state).lock.None? ==> locked
    {
      for i := 0 to tries
        invariant moves >= old(moves) && (moves == old(moves) ==> state == old(state))
        invariant moves == old(moves) && i > 0 ==> state.lock.Some?
        invariant Inv(state) && Grown(old(state), state) && me in state.processes && state.processes[me] == Process(task, Locking)
      {
        Others(me);
        Act(me);
        if state.processes[me].phase.Locked? {
          return true;
        }
      }
      GiveUp(me);
      return false;
    }

    /** Drops the lock: it is still the own file, so it is removed. */
    method ReleaseRegistryLock(me: nat, task: Task)
      requires Inv(state) && me in state.processes && state.processes[me].task == task && state.processes[me].phase.Releasing?
      modifies this
      ensures Inv(state) && Grown(old(state), state) && me in state.processes
      ensures state.processes[me] == Process(task, Returned(old(state).processes[me].phase.result))
      ensures moves >= old(moves) && (moves == old(moves) ==> state.registry == old(state).registry && state.lock.None?)
    {
      Others(me);
      assert ProcessOk(state, me);
      Act(me);
      Others(me);
      Act(me);
    }

    /** Under the lock no one else changes the registry. */
    method AmongOthers(me: nat, task: Task)
      requires Inv(state) && me in state.processes && state.processes[me].task == task && Held(state.processes[me].phase).Some?
      modifies this
      ensures Inv(state) && me in state.processes
      ensures state.processes[me] == old(state).processes[me] && state.registry == old(state).registry
      ensures moves >= old(moves)
    {
      Others(me);
    }

    /** Reloads, compares, adds the project and replaces the file: under the lock, as if there were no one else. */
    method UpdateUnderLock(me: nat, task: Task, writable: bool)
      requires Inv(state) && me in state.processes && state.processes[me].task == task && state.processes[me].phase.Locked?
      modifies this
      ensures Inv(state) && Grown(old(state), state) && me in state.processes
      ensures state.processes[me].task == task && state.processes[me].phase.Releasing?
      ensures (state.registry, state.processes[me].phase.result) == Updated(old(state).registry, task, writable)
      ensures moves >= old(moves)
    {
      AmongOthers(me, task);
      Act(me);
      if state.processes[me].phase.Writing? {
        AmongOthers(me, task);
        if writable {
          Act(me);
        } else {
          GiveUp(me);
        }
      }
    }

    /** The optimistic read decides unless the project is missing, or the registry. */
    method ReadFirst(me: nat, task: Task)
      requires Inv(state) && me !in state.processes
      modifies this
      ensures Inv(state) && Grown(old(state), state) && me in state.processes && state.processes[me].task == task
      ensures if state.processes[me].phase.Locking? then forall r :: Foretold(old(state), task, r)
              else state.processes[me].phase.Returned? && Foretold(old(state), task, state.processes[me].phase.result)
      ensures moves >= old(moves)
      ensures moves == old(moves) ==> state.registry == old(state).registry && state.lock == old(state).lock
      ensures moves == old(moves) && state.processes[me].phase.Returned? ==>
        forall writable :: Updated(old(state).registry, task, writable) == (state.registry, state.processes[me].phase.result)
    {
      StepKeeps(state, Launches(me, task));
      state := Step(state, Launches(me, task));
      Others(me);
      if old(state).registry.Some? {
        SeenLater(old(state), state, task);
      }
      Act(me);
    }

    method UpdateAndRelease(me: nat, task: Task, writable: bool)
      requires Inv(state) && me in state.processes && state.processes[me].task == task && state.processes[me].phase.Locked?
      modifies this
      ensures Inv(state) && Grown(old(state), state) && me in state.processes
      ensures state.processes[me] == Process(task, Returned(Updated(old(state).registry, task, writable).1))
      ensures moves >= old(moves)
      ensures moves == old(moves) ==> state.registry == Updated(old(state).registry, task, writable).0 && state.lock.None?
    {
      UpdateUnderLock(me, task, writable);
      ReleaseRegistryLock(me, task);
    }

    /**
     Success means that the registry has the project now. A launch that was authorised before succeeds without
     taking the lock; one that setup or the recorded tools contradict is refused. Undisturbed, it does what the
     update under the lock does, and leaves no lock.
     */
    method AuthorizeProjectAt(me: nat, task: Task, tries: nat, writable: bool) returns (r: Result<bool>)
      requires Inv(state) && me !in state.processes
      modifies this
      ensures Inv(state) && Grown(old(state), state)
      ensures me in state.processes && state.processes[me] == Process(task, Returned(r))
      ensures (r.Ok? ==> Has(state, task)) && Foretold(old(state), task, r)
      ensures moves == old(moves) && old(state).lock.None? && tries > 0 ==>
        (state.registry, r) == Updated(old(state).registry, task, writable) && state.lock.None?
    {
      ReadFirst(me, task);
      if state.processes[me].phase.Locking? {
        var locked := AcquireRegistryLock(me, task, tries);
        if locked {
          UpdateAndRelease(me, task, writable);
        }
      }
      assert ProcessOk(state, me);
      r := state.processes[me].phase.result;
    }
  }
}
