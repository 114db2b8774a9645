/**
 The plugin's bookkeeping of children, changed in place by its event handlers and by the operations
 they put on the chains. Every method is one uninterrupted piece and does exactly one step.
 */
module Lifecycle {
  import opened Wrappers
  import opened ChildLifecycle
  import opened ChildSafety

  class Plugin {
    const config: Config
    var disposed: bool
    var entries: seq<Entry>
    var trackedChildren: map<string, nat>
    var cleanedChildren: seq<string>
    var operations: seq<Operation>
    var lifecycleOperations: map<string, nat>
    ghost var aborts: seq<nat>

    constructor (config: Config)
      ensures this.config == config && Contents() == Initial() && Valid()
    {
      this.config := config;
      disposed, entries, trackedChildren, cleanedChildren := false, [], map[], [];
      operations, lifecycleOperations, aborts := [], map[], [];
      new;
      InitialInv(config);
    }

    ghost function Contents(): State
      reads this
    {
      State(disposed, entries, trackedChildren, cleanedChildren, operations, lifecycleOperations, aborts)
    }

    ghost predicate Valid()
      reads this
    {
      Inv(config, Contents())
    }

    method ReserveChildCandidate(session: string) returns (e: Option<nat>)
      modifies this`entries, this`trackedChildren
      ensures (Contents(), e) == Reserve(config, old(Contents()), session)
      ensures e.Some? <==> !disposed && session !in cleanedChildren && session in trackedChildren
      ensures session in old(trackedChildren) || !Admits(old(Contents()), session, Bound(config)) ==> Contents() == old(Contents())
      ensures forall other :: other in old(trackedChildren) ==> other in trackedChildren && trackedChildren[other] == old(trackedChildren)[other]
      ensures forall other :: other in trackedChildren ==> other in old(trackedChildren) || other == session
    {
      ReserveTracks(config, Contents(), session, session);
      if disposed || session in cleanedChildren {
        return None;
      }
      if session in trackedChildren {
        return Some(trackedChildren[session]);
      }
      if |trackedChildren| >= Bound(config) {
        return None;
      }
      e := Some(|entries|);
      trackedChildren := trackedChildren[session := |entries|];
      entries := entries + [Entry(session, None, false, false)];
    }

    method SerializeLifecycle(session: string, kind: Kind)
      modifies this`operations, this`lifecycleOperations
      ensures Contents() == Serialize(old(Contents()), session, kind)
      ensures Chained(old(Contents())) && !disposed ==>
        (Ready(Contents(), |old(operations)|) <==> DoneBefore(old(Contents()), session, |old(operations)|))
    {
      if Chained(Contents()) && !disposed {
        SerializedWaits(Contents(), session, kind);
      }
      var previous := if session in lifecycleOperations then Some(lifecycleOperations[session]) else None;
      lifecycleOperations := lifecycleOperations[session := |operations|];
      operations := operations + [Operation(session, kind, Queued(previous))];
    }

    method Goes(op: nat, phase: Phase)
      requires op < |operations|
      modifies this`operations
      ensures Contents() == SetPhase(old(Contents()), op, phase)
    {
      operations := operations[op := operations[op].(phase := phase)];
    }

    method AbortTracked(op: nat, e: nat)
      requires op < |operations| && e < |entries|
      modifies this`entries, this`operations, this`aborts
      ensures Contents() == ChildLifecycle.AbortTracked(config, old(Contents()), op, e)
      ensures aborts == if Abortable(config, old(Contents()), old(operations)[op].session, e) then old(aborts) + [e] else old(aborts)
      ensures !Abortable(config, Contents(), old(operations)[op].session, e)
    {
      var tracked := entries[e];
      if disposed || tracked.aborted || tracked.attempted || operations[op].session in cleanedChildren {
        Goes(op, Done);
        return;
      }
      entries := entries[e := tracked.(attempted := true)];
      if !config.canAbort {
        Goes(op, Done);
        return;
      }
      aborts := aborts + [e];
      Goes(op, Aborting(e));
    }

    method TombstoneChild(session: string, confirmedChild: bool) returns (tombstoned: bool)
      modifies this`trackedChildren, this`cleanedChildren
      ensures Contents() == Tombstone(config, old(Contents()), session, confirmedChild)
      ensures tombstoned ==> session !in trackedChildren && session in cleanedChildren
      ensures forall other :: other != session ==> (other in trackedChildren <==> other in old(trackedChildren))
      ensures forall other :: other in old(cleanedChildren) && other !in cleanedChildren ==>
        other == old(cleanedChildren)[0] && |old(cleanedChildren)| >= Bound(config)
      ensures tombstoned && Distinct(old(cleanedChildren)) ==> forall other :: other != session ==>
        (other in cleanedChildren <==>
           other in old(cleanedChildren) && !(|old(cleanedChildren)| >= Bound(config) && other == old(cleanedChildren)[0]))
      ensures !tombstoned ==> Contents() == old(Contents())
      ensures tombstoned <==> confirmedChild || session in old(trackedChildren)
    {
      if !confirmedChild && session !in trackedChildren {
        return false;
      }
      forall other | Distinct(cleanedChildren) {
        TombstoneRemembers(config, Contents(), session, confirmedChild, other);
      }
      trackedChildren := trackedChildren - {session};
      if |cleanedChildren| >= Bound(config) {
        cleanedChildren := cleanedChildren[1..];
      }
      if session !in cleanedChildren {
        cleanedChildren := cleanedChildren + [session];
      }
      return true;
    }

    // ---- events

    method SessionIsCreated(session: string, parent: string, agent: Option<string>)
      requires Valid()
      modifies this
      ensures Contents() == OnCreated(config, old(Contents()), session, parent, agent)
      ensures Follows(config, old(Contents()), SessionCreated(session, parent, agent), Contents()) && Valid()
    {
      StepFollows(config, Contents(), SessionCreated(session, parent, agent));
      if session in cleanedChildren || (session !in trackedChildren && |trackedChildren| >= config.maxTracked) {
        return;
      }
      if session in trackedChildren {
        assert TrackedOk(Contents(), session);
        if entries[trackedChildren[session]].managed.Some? {
          return;
        }
      }
      var e := ReserveChildCandidate(session);
      if e.Some? {
        SerializeLifecycle(session, Confirm(e.value, parent, agent));
      }
    }

    method LimitIsSeen(session: string)
      requires Valid()
      modifies this
      ensures Contents() == OnLimit(config, old(Contents()), session)
      ensures Follows(config, old(Contents()), LimitSeen(session), Contents()) && Valid()
    {
      StepFollows(config, Contents(), LimitSeen(session));
      var e := ReserveChildCandidate(session);
      if e.Some? {
        SerializeLifecycle(session, Recover);
      }
    }

    method SessionHasEnded(session: string, deletedChild: bool)
      requires Valid()
      modifies this
      ensures Contents() == Step(config, old(Contents()), SessionEnded(session, deletedChild))
      ensures Follows(config, old(Contents()), SessionEnded(session, deletedChild), Contents()) && Valid()
    {
      StepFollows(config, Contents(), SessionEnded(session, deletedChild));
      var tombstoned := TombstoneChild(session, deletedChild);
      SerializeLifecycle(session, Nothing);
    }

    // ---- the operations on the chains

    method Begin(op: nat)
      requires Valid() && Ready(Contents(), op)
      modifies this
      ensures Contents() == OnStart(config, old(Contents()), op)
      ensures Follows(config, old(Contents()), Starts(op), Contents()) && Valid()
    {
      StepFollows(config, Contents(), Starts(op));
      match operations[op].kind
      case Nothing => Goes(op, Done);
      case Confirm(e, _, _) => Goes(op, Confirming(e));
      case Recover =>
        ReserveKeeps(config, Contents(), operations[op].session);
        var e := ReserveChildCandidate(operations[op].session);
        if e.None? {
          Goes(op, Done);
        } else if entries[e.value].managed.None? {
          Goes(op, Confirming(e.value));
        } else if entries[e.value].managed.value {
          AbortTracked(op, e.value);
        } else {
          Goes(op, Done);
        }
    }

    method OwnershipIsKnown(op: nat, ownership: Ownership)
      requires Valid() && op < |operations| && operations[op].phase.Confirming? && operations[op].phase.child < |entries|
      modifies this
      ensures Contents() == OnConfirmed(config, old(Contents()), op, old(operations)[op].phase.child, ownership)
      ensures Follows(config, old(Contents()), Confirmed(op, ownership), Contents()) && Valid()
    {
      StepFollows(config, Contents(), Confirmed(op, ownership));
      var e := operations[op].phase.child;
      if disposed || operations[op].session in cleanedChildren {
        Goes(op, Done);
        return;
      }
      match operations[op].kind
      case Nothing =>
      case Confirm(_, parent, agent) =>
        var managed := ownership.Child? && ownership.parent == parent && (agent.Some? ==> ownership.agent == agent.value);
        entries := entries[e := entries[e].(managed := Some(managed))];
        Goes(op, Done);
      case Recover =>
        entries := entries[e := entries[e].(managed := Some(ownership.Child?))];
        if ownership.Child? {
          AbortTracked(op, e);
        } else {
          Goes(op, Done);
        }
    }

    method AbortIsAnswered(op: nat, accepted: bool)
      requires Valid() && op < |operations| && operations[op].phase.Aborting? && operations[op].phase.child < |entries|
      modifies this
      ensures Contents() == OnAbortAnswered(old(Contents()), op, old(operations)[op].phase.child, accepted)
      ensures Follows(config, old(Contents()), AbortAnswered(op, accepted), Contents()) && Valid()
    {
      StepFollows(config, Contents(), AbortAnswered(op, accepted));
      var e := operations[op].phase.child;
      if accepted {
        entries := entries[e := entries[e].(aborted := true)];
      }
      Goes(op, Done);
    }

    method IsFinished(op: nat)
      requires Valid() && op < |operations| && operations[op].phase.Done?
      modifies this
      ensures Contents() == OnFinished(old(Contents()), op)
      ensures Follows(config, old(Contents()), Finished(op), Contents()) && Valid()
    {
      StepFollows(config, Contents(), Finished(op));
      var session := operations[op].session;
      if session in lifecycleOperations && lifecycleOperations[session] == op {
        lifecycleOperations := lifecycleOperations - {session};
      }
    }

    method Dispose()
      requires Valid()
      modifies this
      ensures Contents() == OnDispose(old(Contents()))
      ensures Follows(config, old(Contents()), ChildLifecycle.Dispose, Contents()) && Valid()
    {
      StepFollows(config, Contents(), ChildLifecycle.Dispose);
      if disposed {
        return;
      }
      disposed := true;
      trackedChildren, lifecycleOperations, cleanedChildren := map[], map[], [];
    }
  }
}
