/**
 When a project is authorised, and what a launcher does that finds no other at work.
 */
module RegistryMeaning {
  import opened Wrappers
  import opened Registry

  /** The project is there with the same tools, in a registry that setup recorded and that is not too large. */
  ghost predicate Registered(registry: Option<Content>, task: Task) {
    && registry.Some? && registry.value.policy == task.policy && |registry.value.projects| <= 128
    && task.root in registry.value.projects && registry.value.projects[task.root] == task.tools
  }

  /** It is not there, and there is room for it. */
  ghost predicate Welcome(registry: Option<Content>, task: Task) {
    && registry.Some? && registry.value.policy == task.policy && |registry.value.projects| < 128
    && task.root !in registry.value.projects
  }

  /** Under the lock: refused unless registered or welcome, and written only when it is added. */
  lemma UpdatedMeaning(registry: Option<Content>, task: Task, writable: bool)
    ensures var (after, r) := Updated(registry, task, writable);
      && (r == Ok(false) <==> Registered(registry, task))
      && (r == Ok(true) <==> Welcome(registry, task) && writable)
      && (if r == Ok(true) then
            && after.Some? && after.value.policy == task.policy && after.value.projects.Keys == registry.value.projects.Keys + {task.root}
            && after.value.projects[task.root] == task.tools
            && forall root :: root in registry.value.projects ==> after.value.projects[root] == registry.value.projects[root]
          else after == registry)
  {
  }

  // ---- a launcher alone ---------------------------------------------------------------------------

  function Acting(s: State, p: nat, n: nat): State {
    if n == 0 then s else Step(Acting(s, p, n - 1), Acts(p))
  }

  lemma ActingOnce(s: State, p: nat, n: nat)
    ensures Acting(s, p, n + 1) == Step(Acting(s, p, n), Acts(p))
  {
  }

  lemma {:induction false} ReturnedStays(s: State, p: nat, n: nat)
    requires p in s.processes && s.processes[p].phase.Returned?
    ensures Acting(s, p, n) == s
  {
    if n > 0 {
      ReturnedStays(s, p, n - 1);
    }
  }

  lemma {:induction false} ActingAgain(s: State, p: nat, k: nat, n: nat)
    ensures Acting(Acting(s, p, k), p, n) == Acting(s, p, k + n)
  {
    if n > 0 {
      ActingAgain(s, p, k, n - 1);
      ActingOnce(s, p, k + n - 1);
    }
  }

  ghost predicate At(s: State, p: nat, task: Task, phase: Phase, registry: Option<Content>, lock: Option<nat>) {
    p in s.processes && s.processes[p] == Process(task, phase) && s.registry == registry && s.lock == lock
  }

  /** The optimistic read ends it when the project is registered, or can never be. */
  lemma ReadAlone(s: State, p: nat, task: Task)
    requires Inv(s) && At(s, p, task, Reading, s.registry, None)
    ensures var r := s.registry; var t := Step(s, Acts(p));
      if Registered(r, task) then At(t, p, task, Returned(Ok(false)), r, None)
      else if r.Some? && (r.value.policy != task.policy || task.root in r.value.projects) then At(t, p, task, Returned(Err), r, None)
      else At(t, p, task, Locking, r, None)
  {
  }

  /** With the lock it looks again, and adds the project if there is room. */
  lemma LockedAlone(s: State, p: nat, task: Task)
    requires Inv(s) && At(s, p, task, Locking, s.registry, None)
    requires s.registry.Some? ==> s.registry.value.policy == task.policy && task.root !in s.registry.value.projects
    ensures var i, t := s.inodes, Acting(s, p, 2);
      if Welcome(s.registry, task) then
        At(t, p, task, Writing(i, s.registry.value.(projects := s.registry.value.projects[task.root := task.tools])), s.registry, Some(i))
      else At(t, p, task, Releasing(i, Err), s.registry, Some(i))
  {
    ActingOnce(s, p, 0);
    ActingOnce(s, p, 1);
    assert At(Acting(s, p, 1), p, task, Locked(s.inodes), s.registry, Some(s.inodes));
  }

  lemma ReleaseAlone(s: State, p: nat, task: Task, i: nat, r: Result<bool>)
    requires At(s, p, task, Releasing(i, r), s.registry, Some(i))
    ensures At(Acting(s, p, 2), p, task, Returned(r), s.registry, None)
  {
    ActingOnce(s, p, 0);
    ActingOnce(s, p, 1);
    assert At(Acting(s, p, 1), p, task, Removing(i, r), s.registry, Some(i));
  }

  /** What is in the registry once the launcher is done. */
  ghost function Outcome(registry: Option<Content>, task: Task): (Option<Content>, Result<bool>) {
    if Registered(registry, task) then (registry, Ok(false))
    else if Welcome(registry, task) then
      (Some(registry.value.(projects := registry.value.projects[task.root := task.tools])), Ok(true))
    else (registry, Err)
  }

  /** A launcher that is not disturbed is done after six steps and leaves no lock; it succeeds if and only if it may. */
  lemma AloneSucceedsIff(s: State, p: nat, task: Task)
    requires Inv(s) && s.lock.None? && p !in s.processes
    ensures var t := Acting(Step(s, Launches(p, task)), p, 6);
      var (registry, r) := Outcome(s.registry, task);
      At(t, p, task, Returned(r), registry, None)
  {
    var s0 := Step(s, Launches(p, task));
    StepKeeps(s, Launches(p, task));
    StepKeeps(s0, Acts(p));
    var s1 := Acting(s0, p, 1);
    ActingOnce(s0, p, 0);
    ReadAlone(s0, p, task);
    ActingAgain(s0, p, 1, 5);
    if s1.processes[p].phase.Returned? {
      ReturnedStays(s1, p, 5);
    } else {
      LockedAlone(s1, p, task);
      ActingAgain(s1, p, 2, 3);
      WriteAlone(Acting(s1, p, 2), p, task, s1.inodes);
    }
  }

  lemma WriteAlone(s: State, p: nat, task: Task, i: nat)
    requires p in s.processes && s.processes[p].task == task && s.lock == Some(i)
    requires s.processes[p].phase.Writing? ==> s.processes[p].phase.inode == i
    requires !s.processes[p].phase.Writing? ==> s.processes[p].phase == Releasing(i, Err)
    ensures if s.processes[p].phase.Writing? then At(Acting(s, p, 3), p, task, Returned(Ok(true)), Some(s.processes[p].phase.content), None)
            else At(Acting(s, p, 3), p, task, Returned(Err), s.registry, None)
  {
    if s.processes[p].phase.Writing? {
      var t := Acting(s, p, 1);
      ActingOnce(s, p, 0);
      ActingAgain(s, p, 1, 2);
      ReleaseAlone(t, p, task, i, Ok(true));
    } else {
      ReleaseAlone(s, p, task, i, Err);
      ActingAgain(s, p, 2, 1);
      ReturnedStays(Acting(s, p, 2), p, 1);
    }
  }
}
