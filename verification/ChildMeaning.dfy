/**
 What each event puts on the chains of the child lifecycle, and how an operation goes on, said without the
 functions of the steps: what is announced gets confirmed, what hits a limit gets recovered.
 */
module ChildMeaning {
  import opened Wrappers
  import opened ChildLifecycle
  import opened ChildSafety

  /** One operation more, behind the last of its session. */
  predicate Appends(s: State, t: State, session: string, kind: Kind) {
    && t.operations == s.operations + [Operation(session, kind, Queued(if session in s.last then Some(s.last[session]) else None))]
    && t.last == s.last[session := |s.operations|] && t.disposed == s.disposed && t.aborts == s.aborts
  }

  /** The operation goes on, and no other does. */
  predicate GoesOn(s: State, t: State, op: nat, phase: Phase)
    requires op < |s.operations|
  {
    t.operations == s.operations[op := s.operations[op].(phase := phase)] && t.last == s.last && t.disposed == s.disposed
  }

  // ---- events ----------------------------------------------------------------------------------------------

  /** A child that can be taken up: it has not ended, and is tracked and not yet confirmed, or there is room. */
  predicate Expected(config: Config, s: State, session: string) {
    && !s.disposed && session !in s.cleaned
    && if session in s.tracked then s.tracked[session] < |s.entries| ==> s.entries[s.tracked[session]].managed.None?
       else |s.tracked| < config.maxTracked
  }

  /** An announced child is tracked and its confirmation queued, exactly if it can be taken up; otherwise nothing happens. */
  lemma AnnouncedIsConfirmed(config: Config, s: State, session: string, parent: string, agent: Option<string>)
    requires Inv(config, s)
    ensures var t := Step(config, s, SessionCreated(session, parent, agent));
      if Expected(config, s, session) then session in t.tracked && Appends(s, t, session, Confirm(t.tracked[session], parent, agent))
      else t == s
  {
    assert session in s.tracked ==> TrackedOk(s, session);
    assert s.disposed ==> Reserve(config, s, session) == (s, None);
  }

  /** A limit queues a recovery exactly if the session has not ended and is tracked or there is room. */
  lemma LimitIsRecovered(config: Config, s: State, session: string)
    ensures var t := Step(config, s, LimitSeen(session));
      if !s.disposed && session !in s.cleaned && (session in s.tracked || |s.tracked| < Bound(config)) then
        session in t.tracked && Appends(s, t, session, Recover)
      else t == s
  {
  }

  /** A status and an end only put a pause on the chain. */
  lemma OthersQueueNothing(config: Config, s: State, session: string, deletedChild: bool)
    ensures Appends(s, Step(config, s, StatusSeen(session)), session, Nothing)
    ensures Appends(s, Step(config, s, SessionEnded(session, deletedChild)), session, Nothing)
    ensures Step(config, s, StatusSeen(session)).tracked == s.tracked && Step(config, s, StatusSeen(session)).entries == s.entries
    ensures Step(config, s, SessionEnded(session, deletedChild)).entries == s.entries
  {
  }

  // ---- operations ---------------------------------------------------------------------------------------------

  /** A confirmation asks OpenCode about the entry it was queued for; a pause is over at once. */
  lemma StartMeaning(config: Config, s: State, op: nat)
    requires Ready(s, op)
    ensures var t, kind := Step(config, s, Starts(op)), s.operations[op].kind;
      && (kind.Nothing? ==> GoesOn(s, t, op, Done) && t.entries == s.entries && t.tracked == s.tracked)
      && (kind.Confirm? ==> GoesOn(s, t, op, Confirming(kind.entry)) && t.entries == s.entries && t.tracked == s.tracked)
  {
  }

  /**
     A recovery is over if its session cannot be tracked or is known not to be a child; it asks OpenCode if nothing is
     known, and for the abort if the child is managed and can be aborted.
   */
  lemma RecoveryMeaning(config: Config, s: State, op: nat)
    requires Inv(config, s) && Ready(s, op) && s.operations[op].kind.Recover?
    ensures var t, session := Step(config, s, Starts(op)), s.operations[op].session;
      if session !in s.tracked then
        if Admits(s, session, Bound(config)) then GoesOn(s, t, op, Confirming(|s.entries|)) && t.tracked == s.tracked[session := |s.entries|]
        else GoesOn(s, t, op, Done) && t.tracked == s.tracked
      else
        var e := s.tracked[session];
        && e < |s.entries| && t.tracked == s.tracked
        && (s.disposed || session in s.cleaned ==> GoesOn(s, t, op, Done))
        && (!s.disposed && session !in s.cleaned ==>
              match s.entries[e].managed
              case None => GoesOn(s, t, op, Confirming(e)) && t.entries == s.entries
              case Some(false) => GoesOn(s, t, op, Done) && t.entries == s.entries
              case Some(true) => GoesOn(s, t, op, if Abortable(config, s, session, e) then Aborting(e) else Done))
  {
    var session := s.operations[op].session;
    assert session in s.tracked ==> TrackedOk(s, session);
  }

  /** What OpenCode answers ends a confirmation; a recovery goes on to the abort if it is a child that can be aborted. */
  lemma ConfirmedMeaning(config: Config, s: State, op: nat, ownership: Ownership)
    requires Inv(config, s) && Enabled(s, Confirmed(op, ownership))
    ensures var t, e := Step(config, s, Confirmed(op, ownership)), s.operations[op].phase.child;
      && t.tracked == s.tracked
      && GoesOn(s, t, op, if s.operations[op].kind.Recover? && ownership.Child? && Abortable(config, s, s.operations[op].session, e)
                          then Aborting(e) else Done)
  {
    assert OperationOk(s, op);
  }

  /** The abort's answer ends the recovery, and only an acceptance is noted. */
  lemma AbortAnsweredMeaning(config: Config, s: State, op: nat, accepted: bool)
    requires Enabled(s, AbortAnswered(op, accepted))
    ensures var t, e := Step(config, s, AbortAnswered(op, accepted)), s.operations[op].phase.child;
      && GoesOn(s, t, op, Done) && t.tracked == s.tracked && |t.entries| == |s.entries|
      && t.entries[e] == s.entries[e].(aborted := s.entries[e].aborted || accepted)
      && forall other :: 0 <= other < |s.entries| && other != e ==> t.entries[other] == s.entries[other]
  {
  }

  /** A chain is dropped with its last operation, and never before. */
  lemma FinishedMeaning(config: Config, s: State, op: nat)
    requires Enabled(s, Finished(op))
    ensures var t, session := Step(config, s, Finished(op)), s.operations[op].session;
      t == s.(last := if session in s.last && s.last[session] == op then s.last - {session} else s.last)
  {
  }

  /** The end of the plugin: nothing is tracked, remembered or chained; what is under way stays as it is. */
  lemma DisposeMeaning(config: Config, s: State)
    ensures var t := Step(config, s, Dispose);
      if s.disposed then t == s
      else
        && t.disposed && t.tracked == map[] && t.cleaned == [] && t.last == map[]
        && t.operations == s.operations && t.entries == s.entries && t.aborts == s.aborts
  {
  }

  /** An entry counts as tried from the moment of the first attempt, whether OpenCode can abort or not. */
  lemma AttemptedIff(config: Config, s: State, op: nat, e: nat)
    requires op < |s.operations| && e < |s.entries|
    ensures var t := AbortTracked(config, s, op, e);
      t.entries[e].attempted <==> s.entries[e].attempted || !(s.disposed || s.entries[e].aborted || s.operations[op].session in s.cleaned)
  {
  }
}
