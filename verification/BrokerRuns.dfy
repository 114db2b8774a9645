/**
 Runs of the permission broker: any sequence of events, each taking effect if the request or record
 it is about is there for it.
 */
module BrokerRuns {
  import opened Wrappers
  import opened BrokerState
  import opened BrokerSafety

  /** Whatever is due can be carried out: nothing that it looks up is ever missing. */
  lemma DueIsKnown(limits: Limits, s: State, e: Event)
    requires Inv(limits, s) && Due(s, e)
    ensures Known(s, e)
  {
    match e
    case Mapped(r, _) => assert RequestOk(s, r);
    case Created(r, _, _) => assert RequestOk(s, r);
    case Replied(session, permission, _) => assert WaiterOk(s, (session, permission));
    case Disconnected(r) => assert RequestOk(s, r);
    case Resumed(r) => assert RequestOk(s, r);
    case _ =>
  }

  lemma StepKeeps(limits: Limits, s: State, e: Event)
    requires Inv(limits, s) && Due(s, e) && Known(s, e)
    ensures Inv(limits, Step(limits, s, e))
  {
    match e
    case Arrive(r, preflight) => ArriveKeeps(limits, s, r, preflight);
    case BodyRead(r, body) => BodyReadKeeps(limits, s, r, body);
    case Mapped(r, mapped) => MappedKeeps(limits, s, r, mapped);
    case MappingFailed(r) => AnswerKeeps(limits, s, r, Reject, None);
    case Created(r, effect, gone) => CreatedKeeps(limits, s, r, effect, gone);
    case Replied(session, permission, reply) => RepliedKeeps(limits, s, (session, permission), reply);
    case Disconnected(r) => HangupKeeps(limits, s, WaiterOf(s, r));
    case Resumed(r) =>
      assert RequestOk(s, r);
      ConcludeKeeps(limits, s, r, s.requests[r], s.requests[r].decision);
    case ToolStarts(session, call, record) => ToolStartsKeeps(limits, s, session, call, record);
    case ToolEnds(session, call) => InvalidateKeeps(limits, s, {(session, call)});
    case SessionDeleted(session) => SessionDeletedKeeps(limits, s, session);
    case Dispose => DisposeKeeps(limits, s);
  }

  lemma {:induction false} RunKeeps(limits: Limits, events: seq<Event>)
    ensures Inv(limits, Run(limits, events))
  {
    if events == [] {
      InitialInv(limits);
    } else {
      var s, e := Run(limits, events[..|events| - 1]), events[|events| - 1];
      RunKeeps(limits, events[..|events| - 1]);
      if Due(s, e) && Known(s, e) {
        StepKeeps(limits, s, e);
      }
    }
  }

  // ---- what only grows --------------------------------------------------------------------------

  function Rank(p: Phase): nat {
    match p
    case Reading => 0
    case Mapping(_, _, _) => 1
    case Creating(_, _, _, _, _) => 2
    case Waiting(_, _, _, _, _) => 3
    case Resolved(_, _, _, _, _) => 4
    case Answered(_, _) => 5
  }

  /** A request goes on from one suspension to the next; what it resolved to is what it answers. */
  predicate PhaseLater(p: Phase, q: Phase) {
    && Rank(p) <= Rank(q)
    && (Rank(p) == Rank(q) ==> p == q)
    && (p.Resolved? && q.Answered? ==> q.decision == p.decision && q.source == Some((p.record, p.id)))
  }

  /** A record keeps its call and every finished decision, forgets no id, and is never valid again. */
  predicate RecordLater(a: Record, b: Record) {
    && a.session == b.session && a.call == b.call && (b.valid ==> a.valid)
    && (forall id :: id in a.replays ==> id in b.replays && b.replays[id].digest == a.replays[id].digest)
    && (forall id :: id in a.replays && a.replays[id].done ==> b.replays[id] == a.replays[id])
  }

  ghost predicate RequestLater(s: State, t: State, r: nat)
    requires r in s.requests
  {
    r in t.requests && PhaseLater(s.requests[r], t.requests[r])
  }

  ghost predicate RecordKept(s: State, t: State, i: nat)
    requires i in s.records
  {
    i in t.records && RecordLater(s.records[i], t.records[i])
  }

  ghost predicate Later(s: State, t: State) {
    && (forall r {:trigger RequestLater(s, t, r)} :: r in s.requests ==> RequestLater(s, t, r))
    && (forall i {:trigger RecordKept(s, t, i)} :: i in s.records ==> RecordKept(s, t, i))
    && s.created <= t.created
    && (s.disposed ==> t.disposed)
  }

  lemma LaterTrans(s: State, t: State, u: State)
    requires Later(s, t) && Later(t, u)
    ensures Later(s, u)
  {
    forall r | r in s.requests
      ensures RequestLater(s, u, r)
    {
      assert RequestLater(s, t, r) && RequestLater(t, u, r);
    }
    forall i | i in s.records
      ensures RecordKept(s, u, i)
    {
      assert RecordKept(s, t, i) && RecordKept(t, u, i);
    }
  }

  lemma InvalidateLater(s: State, keys: set<CallKey>)
    ensures Later(s, InvalidateAll(s, keys))
  {
  }

  lemma SettleLater(s: State, key: WaiterKey, decision: Decision)
    requires key in s.waiters
    ensures Later(s, Settle(s, key, decision))
  {
  }

  lemma RejectLater(s: State, doomed: set<nat>)
    ensures Later(s, RejectWaiters(s, doomed))
  {
  }

  lemma AnswerLater(s: State, r: nat, decision: Decision, source: Option<(nat, string)>)
    requires r in s.requests && Rank(s.requests[r]) < 4
    ensures Later(s, Answer(s, r, decision, source))
  {
  }

  lemma ConcludeLater(s: State, r: nat, p: Phase, decision: Decision, mappings: map<(nat, string), string>)
    requires r in s.requests && s.requests[r] == p && Unfinished(p) && Claims(s, p)
    requires p.Resolved? ==> decision == p.decision
    ensures Later(s, Conclude(s.(mappings := mappings), r, p.record, p.id, p.digest, decision))
  {
  }

  lemma HangupLater(s: State, key: WaiterKey)
    requires key in s.waiters && s.waiters[key].record in s.records
    ensures Later(s, Hangup(s, key))
  {
    var rec := s.records[s.waiters[key].record];
    var t := InvalidateAll(s, {(rec.session, rec.call)});
    InvalidateLater(s, {(rec.session, rec.call)});
    if key in t.waiters {
      SettleLater(t, key, Reject);
      LaterTrans(s, t, Settle(t, key, Reject));
    }
  }

  lemma SuspendedLater(s: State, r: nat, p: Phase)
    requires r in s.requests && s.requests[r] == p && p.Creating? && p.record in s.records
    ensures Later(s, Suspended(s, r, p))
  {
  }

  lemma CreatedLater(s: State, r: nat, p: Phase, effect: Effect, gone: bool)
    requires r in s.requests && s.requests[r] == p && p.Creating? && Claims(s, p)
    ensures Later(s, OnCreated(s, r, p, effect, gone))
  {
    match effect
    case Allow => ConcludeLater(s, r, p, Once, s.mappings);
    case Deny => ConcludeLater(s, r, p, Reject, s.mappings);
    case Ask =>
      SuspendedLater(s, r, p);
      if gone {
        HangupLater(Suspended(s, r, p), (s.records[p.record].session, p.permission));
        LaterTrans(s, Suspended(s, r, p), OnCreated(s, r, p, effect, gone));
      }
  }

  lemma AskingLater(s: State, r: nat, p: Phase, mapped: string)
    requires r in s.requests && s.requests[r] == p && p.Mapping?
    ensures Later(s, Asking(s, r, p, mapped))
  {
  }

  lemma MappedLater(s: State, r: nat, p: Phase, mapped: Option<string>)
    requires r in s.requests && s.requests[r] == p && p.Mapping? && Claims(s, p)
    ensures Later(s, OnMapped(s, r, p, mapped))
  {
    if mapped.None? {
      ConcludeLater(s, r, p, Reject, s.mappings);
    } else {
      ConcludeLater(s, r, p, Always, s.mappings[(p.record, p.id) := mapped.value]);
      AskingLater(s, r, p, mapped.value);
    }
  }

  lemma BodyReadLater(s: State, r: nat, body: Option<Body>)
    requires r in s.requests && s.requests[r].Reading?
    ensures Later(s, OnBodyRead(s, r, body))
  {
    if body.Some? && body.value.wellFormed && Authorized(s, body.value).Some? {
      var record, id := Authorized(s, body.value).value, body.value.id;
      AnswerLater(s, r, Reject, None);
      if id in s.records[record].replays {
        AnswerLater(s, r, s.records[record].replays[id].decision, Some((record, id)));
      } else {
        StartedLater(s, r, record, id, body.value.digest);
      }
    } else {
      AnswerLater(s, r, Reject, None);
    }
  }

  lemma StartedLater(s: State, r: nat, record: nat, id: string, digest: string)
    requires r in s.requests && s.requests[r].Reading? && record in s.records && id !in s.records[record].replays
    ensures Later(s, Started(s, r, record, id, digest))
  {
  }

  lemma ArriveLater(limits: Limits, s: State, r: nat, preflight: Preflight)
    requires r !in s.requests
    ensures Later(s, OnArrive(limits, s, r, preflight))
  {
  }

  lemma CachedLater(s: State, session: string, digest: string)
    ensures Later(s, Cached(s, session, digest))
  {
  }

  lemma RepliedLater(limits: Limits, s: State, key: WaiterKey, reply: Reply)
    requires key in s.waiters && s.waiters[key].record in s.records
    ensures Later(s, OnReplied(limits, s, key, reply))
  {
    var w := s.waiters[key];
    SettleLater(s, key, Reject);
    SettleLater(s, key, Once);
    if reply.ReplyAlways? {
      CachedLater(s, w.session, w.digest);
      SettleLater(Cached(s, w.session, w.digest), key, Always);
      LaterTrans(s, Cached(s, w.session, w.digest), Settle(Cached(s, w.session, w.digest), key, Always));
    }
  }

  lemma NewRecordLater(s: State, session: string, call: string, record: nat)
    requires record !in s.records
    ensures Later(s, s.(records := s.records[record := Record(session, call, true, map[])],
                        invocations := s.invocations[(session, call) := record]))
  {
  }

  lemma ToolStartsLater(s: State, session: string, call: string, record: nat)
    requires record !in s.records
    ensures Later(s, OnToolStarts(s, session, call, record))
  {
    var t := InvalidateAll(s, {(session, call)});
    InvalidateLater(s, {(session, call)});
    NewRecordLater(t, session, call, record);
    LaterTrans(s, t, OnToolStarts(s, session, call, record));
  }

  lemma DisposeLater(s: State)
    ensures Later(s, OnDispose(s))
  {
    if !s.disposed {
      var t := InvalidateAll(s, s.invocations.Keys);
      var u := t.(disposed := true, approvals := map[]);
      InvalidateLater(s, s.invocations.Keys);
      assert Later(t, u);
      RejectLater(u, t.records.Keys);
      LaterTrans(s, t, u);
      LaterTrans(s, u, OnDispose(s));
    }
  }

  lemma SessionDeletedLater(s: State, session: string)
    ensures Later(s, OnSessionDeleted(s, session))
  {
    var t := s.(approvals := s.approvals - {session});
    assert Later(s, t);
    InvalidateLater(t, CallsOf(s.invocations, session));
    LaterTrans(s, t, OnSessionDeleted(s, session));
  }

  lemma StepLater(limits: Limits, s: State, e: Event)
    requires Inv(limits, s) && Due(s, e) && Known(s, e)
    ensures Later(s, Step(limits, s, e))
  {
    match e
    case Arrive(r, preflight) => ArriveLater(limits, s, r, preflight);
    case BodyRead(r, body) => BodyReadLater(s, r, body);
    case Mapped(r, mapped) =>
      assert RequestOk(s, r);
      MappedLater(s, r, s.requests[r], mapped);
    case MappingFailed(r) => AnswerLater(s, r, Reject, None);
    case Created(r, effect, gone) =>
      assert RequestOk(s, r);
      CreatedLater(s, r, s.requests[r], effect, gone);
    case Replied(session, permission, reply) => RepliedLater(limits, s, (session, permission), reply);
    case Disconnected(r) => HangupLater(s, WaiterOf(s, r));
    case Resumed(r) =>
      assert RequestOk(s, r);
      ConcludeLater(s, r, s.requests[r], s.requests[r].decision, s.mappings);
    case ToolStarts(session, call, record) => ToolStartsLater(s, session, call, record);
    case ToolEnds(session, call) => InvalidateLater(s, {(session, call)});
    case SessionDeleted(session) => SessionDeletedLater(s, session);
    case Dispose => DisposeLater(s);
  }

  lemma SameLater(s: State)
    ensures Later(s, s)
  {
  }

  lemma LastStepLater(limits: Limits, events: seq<Event>)
    requires events != []
    ensures Later(Run(limits, events[..|events| - 1]), Run(limits, events))
  {
    var s, e := Run(limits, events[..|events| - 1]), events[|events| - 1];
    RunKeeps(limits, events[..|events| - 1]);
    if Due(s, e) && Known(s, e) {
      StepLater(limits, s, e);
    } else {
      SameLater(s);
    }
  }

  /** Nothing decided is ever undone: a later state of a run extends an earlier one. */
  lemma {:induction false} RunLater(limits: Limits, events: seq<Event>, n: nat)
    requires n <= |events|
    ensures Later(Run(limits, events[..n]), Run(limits, events))
  {
    if n == |events| {
      assert events[..n] == events;
      SameLater(Run(limits, events));
    } else {
      var m := |events| - 1;
      RunLater(limits, events[..m], n);
      assert events[..m][..n] == events[..n];
      LastStepLater(limits, events);
      LaterTrans(Run(limits, events[..n]), Run(limits, events[..m]), Run(limits, events));
    }
  }

  // ---- what holds of every run -----------------------------------------------------------------------

  /** As many requests are counted as are in flight, never more than the limit. */
  lemma PendingIsBounded(limits: Limits, events: seq<Event>)
    ensures Run(limits, events).pendingCount == |InFlight(Run(limits, events))| <= limits.maxPending
  {
    RunKeeps(limits, events);
  }

  /** OpenCode is asked at most once for a request id of a tool call. */
  lemma AskedOnce(limits: Limits, events: seq<Event>, i: nat, j: nat)
    requires i < j < |Run(limits, events).created|
    ensures Run(limits, events).created[i] != Run(limits, events).created[j]
  {
    RunKeeps(limits, events);
  }

  /** A finished decision never changes, and a request that has its decision answers with it. */
  lemma DecisionsStay(limits: Limits, events: seq<Event>, n: nat, record: nat, id: string, r: nat)
    requires n <= |events|
    ensures var s, t := Run(limits, events[..n]), Run(limits, events);
      && (record in s.records && id in s.records[record].replays && s.records[record].replays[id].done ==>
            record in t.records && id in t.records[record].replays
            && t.records[record].replays[id] == s.records[record].replays[id])
      && (r in s.requests && s.requests[r].Answered? ==> r in t.requests && t.requests[r] == s.requests[r])
      && (r in s.requests && s.requests[r].Resolved? ==>
            r in t.requests && (t.requests[r].Resolved? || t.requests[r].Answered?) && t.requests[r].decision == s.requests[r].decision)
  {
    var s, t := Run(limits, events[..n]), Run(limits, events);
    RunLater(limits, events, n);
    if record in s.records {
      assert RecordKept(s, t, record);
    }
    if r in s.requests {
      assert RequestLater(s, t, r);
    }
  }

  // ---- answers and what is remembered of them ------------------------------------------------------------

  /** An answer given for an id of a record is the decision remembered there; any other answer is a rejection. */
  ghost predicate Recorded(s: State, r: nat)
    requires r in s.requests && s.requests[r].Answered?
  {
    match s.requests[r].source
    case None => s.requests[r].decision == Reject
    case Some((record, id)) =>
      && record in s.records && id in s.records[record].replays
      && s.records[record].replays[id].done && s.records[record].replays[id].decision == s.requests[r].decision
  }

  ghost predicate AllRecorded(s: State) {
    forall r {:trigger Recorded(s, r)} :: r in s.requests && s.requests[r].Answered? ==> Recorded(s, r)
  }

  lemma StaysRecorded(s: State, t: State, r: nat)
    requires Later(s, t) && r in s.requests && s.requests[r].Answered? && Recorded(s, r)
    ensures r in t.requests && t.requests[r] == s.requests[r] && Recorded(t, r)
  {
    assert RequestLater(s, t, r);
    if s.requests[r].source.Some? {
      assert RecordKept(s, t, s.requests[r].source.value.0);
    }
  }

  predicate AnsweredNow(s: State, t: State, r: nat) {
    r in t.requests && t.requests[r].Answered? && (r in s.requests ==> !s.requests[r].Answered?)
  }

  lemma InvalidatingAnswersNone(s: State, keys: set<CallKey>, r: nat)
    ensures !AnsweredNow(s, InvalidateAll(s, keys), r)
  {
  }

  lemma HangupAnswersNone(s: State, key: WaiterKey, r: nat)
    requires key in s.waiters && s.waiters[key].record in s.records
    ensures !AnsweredNow(s, Hangup(s, key), r)
  {
    var rec := s.records[s.waiters[key].record];
    InvalidatingAnswersNone(s, {(rec.session, rec.call)}, r);
  }

  lemma ConcludeIsRecorded(s: State, r: nat, record: nat, id: string, digest: string, decision: Decision, q: nat)
    requires record in s.records && AnsweredNow(s, Conclude(s, r, record, id, digest, decision), q)
    ensures Recorded(Conclude(s, r, record, id, digest, decision), q)
  {
  }

  lemma BodyReadIsRecorded(s: State, r: nat, body: Option<Body>, q: nat)
    requires r in s.requests && s.requests[r].Reading? && AnsweredNow(s, OnBodyRead(s, r, body), q)
    ensures Recorded(OnBodyRead(s, r, body), q)
  {
  }

  lemma MappedIsRecorded(s: State, r: nat, p: Phase, mapped: Option<string>, q: nat)
    requires p.Mapping? && p.record in s.records && AnsweredNow(s, OnMapped(s, r, p, mapped), q)
    ensures Recorded(OnMapped(s, r, p, mapped), q)
  {
    if mapped.None? {
      ConcludeIsRecorded(s, r, p.record, p.id, p.digest, Reject, q);
    } else if Approved(s, s.records[p.record].session, mapped.value) {
      ConcludeIsRecorded(s.(mappings := s.mappings[(p.record, p.id) := mapped.value]), r, p.record, p.id, p.digest, Always, q);
    }
  }

  lemma CreatedIsRecorded(s: State, r: nat, p: Phase, effect: Effect, gone: bool, q: nat)
    requires p.Creating? && p.record in s.records && AnsweredNow(s, OnCreated(s, r, p, effect, gone), q)
    ensures Recorded(OnCreated(s, r, p, effect, gone), q)
  {
    match effect
    case Allow => ConcludeIsRecorded(s, r, p.record, p.id, p.digest, Once, q);
    case Deny => ConcludeIsRecorded(s, r, p.record, p.id, p.digest, Reject, q);
    case Ask =>
      if gone {
        HangupAnswersNone(Suspended(s, r, p), (s.records[p.record].session, p.permission), q);
      }
  }

  lemma RepliedAnswersNone(limits: Limits, s: State, key: WaiterKey, reply: Reply, r: nat)
    requires key in s.waiters && s.waiters[key].record in s.records
    ensures !AnsweredNow(s, OnReplied(limits, s, key, reply), r)
  {
  }

  lemma ToolStartsAnswersNone(s: State, session: string, call: string, record: nat, r: nat)
    ensures !AnsweredNow(s, OnToolStarts(s, session, call, record), r)
  {
    InvalidatingAnswersNone(s, {(session, call)}, r);
  }

  lemma SessionDeletedAnswersNone(s: State, session: string, r: nat)
    ensures !AnsweredNow(s, OnSessionDeleted(s, session), r)
  {
    InvalidatingAnswersNone(s.(approvals := s.approvals - {session}), CallsOf(s.invocations, session), r);
  }

  lemma DisposeAnswersNone(s: State, r: nat)
    ensures !AnsweredNow(s, OnDispose(s), r)
  {
    InvalidatingAnswersNone(s, s.invocations.Keys, r);
  }

  lemma StepIsRecorded(limits: Limits, s: State, e: Event, q: nat)
    requires Due(s, e) && Known(s, e) && AnsweredNow(s, Step(limits, s, e), q)
    ensures Recorded(Step(limits, s, e), q)
  {
    match e
    case Arrive(_, _) =>
    case BodyRead(r, body) => BodyReadIsRecorded(s, r, body, q);
    case Mapped(r, mapped) => MappedIsRecorded(s, r, s.requests[r], mapped, q);
    case MappingFailed(_) =>
    case Created(r, effect, gone) => CreatedIsRecorded(s, r, s.requests[r], effect, gone, q);
    case Replied(session, permission, reply) => RepliedAnswersNone(limits, s, (session, permission), reply, q);
    case Disconnected(r) => HangupAnswersNone(s, WaiterOf(s, r), q);
    case Resumed(r) =>
      var p := s.requests[r];
      ConcludeIsRecorded(s, r, p.record, p.id, p.digest, p.decision, q);
    case ToolStarts(session, call, record) => ToolStartsAnswersNone(s, session, call, record, q);
    case ToolEnds(session, call) => InvalidatingAnswersNone(s, {(session, call)}, q);
    case SessionDeleted(session) => SessionDeletedAnswersNone(s, session, q);
    case Dispose => DisposeAnswersNone(s, q);
  }

  lemma {:induction false} AnswersAreRecorded(limits: Limits, events: seq<Event>)
    ensures AllRecorded(Run(limits, events))
  {
    if events != [] {
      var s, e, t := Run(limits, events[..|events| - 1]), events[|events| - 1], Run(limits, events);
      AnswersAreRecorded(limits, events[..|events| - 1]);
      LastStepLater(limits, events);
      forall r | r in t.requests && t.requests[r].Answered?
        ensures Recorded(t, r)
      {
        if r in s.requests && s.requests[r].Answered? {
          StaysRecorded(s, t, r);
        } else {
          StepIsRecorded(limits, s, e, r);
        }
      }
    }
  }

  /**
     Two answers to the same id of the same call agree, whenever they were given. A repetition that came too
     early or with another body was rejected without touching what is remembered, so it has no source.
   */
  lemma AnswersAgree(limits: Limits, events: seq<Event>, n: nat, r: nat, q: nat)
    requires n <= |events| && r in Run(limits, events[..n]).requests && q in Run(limits, events).requests
    requires Run(limits, events[..n]).requests[r].Answered? && Run(limits, events).requests[q].Answered?
    requires Run(limits, events[..n]).requests[r].source.Some?
    requires Run(limits, events[..n]).requests[r].source == Run(limits, events).requests[q].source
    ensures Run(limits, events[..n]).requests[r].decision == Run(limits, events).requests[q].decision
  {
    var s, t := Run(limits, events[..n]), Run(limits, events);
    AnswersAreRecorded(limits, events[..n]);
    AnswersAreRecorded(limits, events);
    assert Recorded(s, r) && Recorded(t, q);
    RunLater(limits, events, n);
    StaysRecorded(s, t, r);
  }

  /** The event is an "always" reply to a waiter of this session and digest whose call is still valid. */
  ghost predicate Grants(s: State, e: Event, session: string, digest: string) {
    && e.Replied? && e.reply.ReplyAlways? && e.session == session && (session, e.permission) in s.waiters
    && s.waiters[(session, e.permission)].digest == digest
    && s.waiters[(session, e.permission)].record in s.records && s.records[s.waiters[(session, e.permission)].record].valid
  }

  lemma RepliedGrants(limits: Limits, s: State, e: Event, session: string, digest: string)
    requires e.Replied? && Due(s, e) && Known(s, e) && WaiterOk(s, (e.session, e.permission))
    requires (session, digest) in OnReplied(limits, s, (e.session, e.permission), e.reply).granted && (session, digest) !in s.granted
    ensures Grants(s, e, session, digest)
  {
  }

  lemma StepGrants(limits: Limits, s: State, e: Event, session: string, digest: string)
    requires Inv(limits, s) && Due(s, e) && Known(s, e)
    requires (session, digest) in Step(limits, s, e).granted && (session, digest) !in s.granted
    ensures Grants(s, e, session, digest)
  {
    if e.Replied? {
      assert WaiterOk(s, (e.session, e.permission));
      RepliedGrants(limits, s, e, session, digest);
    }
  }

  lemma LastGrant(limits: Limits, events: seq<Event>, session: string, digest: string)
    requires events != [] && (session, digest) in Run(limits, events).granted
    ensures (session, digest) in Run(limits, events[..|events| - 1]).granted
      || Grants(Run(limits, events[..|events| - 1]), events[|events| - 1], session, digest)
  {
    var s, e := Run(limits, events[..|events| - 1]), events[|events| - 1];
    RunKeeps(limits, events[..|events| - 1]);
    if Due(s, e) && Known(s, e) && (session, digest) !in s.granted {
      StepGrants(limits, s, e, session, digest);
    }
  }

  lemma {:induction false} GrantWasReplied(limits: Limits, events: seq<Event>, session: string, digest: string)
    requires (session, digest) in Run(limits, events).granted
    ensures exists n :: 0 <= n < |events| && Grants(Run(limits, events[..n]), events[n], session, digest)
  {
    var m := |events| - 1;
    assert events != [];
    LastGrant(limits, events, session, digest);
    if (session, digest) in Run(limits, events[..m]).granted {
      GrantWasReplied(limits, events[..m], session, digest);
      var n :| 0 <= n < m && Grants(Run(limits, events[..m][..n]), events[..m][n], session, digest);
      assert events[..m][..n] == events[..n];
    }
  }

  /** "Always" is answered only for a digest that such a reply accepted for the session, then or before. */
  lemma AlwaysWasReplied(limits: Limits, events: seq<Event>, r: nat)
    requires r in Run(limits, events).requests && Run(limits, events).requests[r].Answered?
    requires Run(limits, events).requests[r].decision == Always
    ensures var s := Run(limits, events);
      s.requests[r].source.Some? && (var (record, id) := s.requests[r].source.value;
        record in s.records && (record, id) in s.mappings
        && exists n :: 0 <= n < |events| && Grants(Run(limits, events[..n]), events[n], s.records[record].session, s.mappings[(record, id)]))
  {
    var s := Run(limits, events);
    RunKeeps(limits, events);
    assert RequestOk(s, r);
    var (record, id) := s.requests[r].source.value;
    GrantWasReplied(limits, events, s.records[record].session, s.mappings[(record, id)]);
  }

  // ---- what permits ------------------------------------------------------------------------------------

  /** What a request was settled with, answered or about to be. */
  function Verdict(s: State, r: nat): Option<Decision> {
    if r in s.requests && (s.requests[r].Resolved? || s.requests[r].Answered?) then Some(s.requests[r].decision) else None
  }

  /** A finished replay, an approval in the cache, OpenCode's own allowance, or the user's reply to this very request. */
  predicate Permits(limits: Limits, s: State, e: Event, r: nat, d: Decision) {
    match e
    case BodyRead(q, Some(body)) =>
      && q == r && body.wellFormed && Authorized(s, body).Some?
      && var replays := s.records[Authorized(s, body).value].replays;
         body.id in replays && replays[body.id] == Replay(body.digest, true, d)
    case Mapped(q, Some(mapped)) =>
      && q == r && d == Always && r in s.requests && s.requests[r].Mapping? && s.requests[r].record in s.records
      && Approved(s, s.records[s.requests[r].record].session, mapped)
    case Created(q, effect, _) => q == r && d == Once && effect.Allow?
    case Replied(session, permission, reply) =>
      && (session, permission) in s.waiters && s.waiters[(session, permission)].request == r
      && s.waiters[(session, permission)].record in s.records
      && (if reply.ReplyAlways? then
            && d == Always && s.records[s.waiters[(session, permission)].record].valid
            && Cacheable(limits, s, session, s.waiters[(session, permission)].digest)
          else reply.ReplyOnce? && d == Once)
    case _ => false
  }

  lemma InvalidatingPermitsNothing(s: State, keys: set<CallKey>, r: nat, d: Decision)
    requires Verdict(s, r).None? && d != Reject
    ensures Verdict(InvalidateAll(s, keys), r) != Some(d)
  {
  }

  lemma HangupPermitsNothing(s: State, key: WaiterKey, r: nat, d: Decision)
    requires key in s.waiters && s.waiters[key].record in s.records && Verdict(s, r).None? && d != Reject
    ensures Verdict(Hangup(s, key), r) != Some(d)
  {
    var rec := s.records[s.waiters[key].record];
    InvalidatingPermitsNothing(s, {(rec.session, rec.call)}, r, d);
  }

  lemma CreatedPermits(s: State, r: nat, effect: Effect, gone: bool, q: nat, d: Decision)
    requires r in s.requests && s.requests[r].Creating? && s.requests[r].record in s.records
    requires Verdict(s, q).None? && d != Reject
    ensures Verdict(OnCreated(s, r, s.requests[r], effect, gone), q) == Some(d) <==> q == r && d == Once && effect.Allow?
  {
    var p := s.requests[r];
    if effect.Ask? && gone {
      HangupPermitsNothing(Suspended(s, r, p), (s.records[p.record].session, p.permission), q, d);
    }
  }

  lemma RepliedPermits(limits: Limits, s: State, key: WaiterKey, reply: Reply, q: nat, d: Decision)
    requires Linked(s) && key in s.waiters && s.waiters[key].record in s.records && Verdict(s, q).None? && d != Reject
    ensures Verdict(OnReplied(limits, s, key, reply), q) == Some(d) <==> Permits(limits, s, Replied(key.0, key.1, reply), q, d)
  {
    assert WaiterOk(s, key);
  }

  lemma DisposePermitsNothing(s: State, r: nat, d: Decision)
    requires Verdict(s, r).None? && d != Reject
    ensures Verdict(OnDispose(s), r) != Some(d)
  {
    if !s.disposed {
      InvalidatingPermitsNothing(s, s.invocations.Keys, r, d);
    }
  }

  lemma BodyReadPermits(limits: Limits, s: State, r: nat, body: Option<Body>, q: nat, d: Decision)
    requires r in s.requests && s.requests[r].Reading? && Verdict(s, q).None? && d != Reject
    ensures Verdict(OnBodyRead(s, r, body), q) == Some(d) <==> Permits(limits, s, BodyRead(r, body), q, d)
  {
  }

  lemma MappedPermits(limits: Limits, s: State, r: nat, mapped: Option<string>, q: nat, d: Decision)
    requires r in s.requests && s.requests[r].Mapping? && s.requests[r].record in s.records && Verdict(s, q).None? && d != Reject
    ensures Verdict(OnMapped(s, r, s.requests[r], mapped), q) == Some(d) <==> Permits(limits, s, Mapped(r, mapped), q, d)
  {
  }

  lemma ResumedPermitsNothing(s: State, r: nat, q: nat, d: Decision)
    requires r in s.requests && s.requests[r].Resolved? && s.requests[r].record in s.records && Verdict(s, q).None?
    ensures Verdict(OnResumed(s, r), q) != Some(d)
  {
  }

  lemma ToolStartsPermitsNothing(s: State, session: string, call: string, record: nat, r: nat, d: Decision)
    requires Verdict(s, r).None? && d != Reject
    ensures Verdict(OnToolStarts(s, session, call, record), r) != Some(d)
  {
    InvalidatingPermitsNothing(s, {(session, call)}, r, d);
  }

  lemma SessionDeletedPermitsNothing(s: State, session: string, r: nat, d: Decision)
    requires Verdict(s, r).None? && d != Reject
    ensures Verdict(OnSessionDeleted(s, session), r) != Some(d)
  {
    InvalidatingPermitsNothing(s.(approvals := s.approvals - {session}), CallsOf(s.invocations, session), r, d);
  }

  /** Nothing else ever lets a request through, and each of these does. */
  lemma PermittedIff(limits: Limits, s: State, e: Event, r: nat, d: Decision)
    requires Inv(limits, s) && Due(s, e) && Known(s, e) && Verdict(s, r).None? && d != Reject
    ensures Verdict(Step(limits, s, e), r) == Some(d) <==> Permits(limits, s, e, r, d)
  {
    match e
    case Arrive(_, _) =>
    case BodyRead(q, body) => BodyReadPermits(limits, s, q, body, r, d);
    case Mapped(q, mapped) => MappedPermits(limits, s, q, mapped, r, d);
    case MappingFailed(_) =>
    case Created(q, effect, gone) => CreatedPermits(s, q, effect, gone, r, d);
    case Replied(session, permission, reply) => RepliedPermits(limits, s, (session, permission), reply, r, d);
    case Disconnected(q) => HangupPermitsNothing(s, WaiterOf(s, q), r, d);
    case Resumed(q) => ResumedPermitsNothing(s, q, r, d);
    case ToolStarts(session, call, record) => ToolStartsPermitsNothing(s, session, call, record, r, d);
    case ToolEnds(session, call) => InvalidatingPermitsNothing(s, {(session, call)}, r, d);
    case SessionDeleted(session) => SessionDeletedPermitsNothing(s, session, r, d);
    case Dispose => DisposePermitsNothing(s, r, d);
  }

  // ---- what each handler can be relied on for ----------------------------------------------------------------

  /** The invariant holds, nothing decided is undone, and a request is let through exactly if the event permits it. */
  ghost predicate Follows(limits: Limits, s: State, e: Event, t: State) {
    && Inv(limits, t) && Later(s, t)
    && forall r: nat, d: Decision :: Verdict(s, r).None? && d != Reject ==> (Verdict(t, r) == Some(d) <==> Permits(limits, s, e, r, d))
  }

  lemma StepFollows(limits: Limits, s: State, e: Event)
    requires Inv(limits, s) && Due(s, e) && Known(s, e)
    ensures Follows(limits, s, e, Step(limits, s, e))
  {
    StepKeeps(limits, s, e);
    StepLater(limits, s, e);
    forall r: nat, d: Decision | Verdict(s, r).None? && d != Reject
      ensures Verdict(Step(limits, s, e), r) == Some(d) <==> Permits(limits, s, e, r, d)
    {
      PermittedIff(limits, s, e, r, d);
    }
  }

  lemma MappedFollows(limits: Limits, s: State, r: nat, mapped: Option<string>)
    requires Inv(limits, s) && r in s.requests && s.requests[r].Mapping? && s.requests[r].record in s.records
    ensures Follows(limits, s, Mapped(r, mapped), OnMapped(s, r, s.requests[r], mapped))
  {
    StepFollows(limits, s, Mapped(r, mapped));
  }

  lemma DisposeFollows(limits: Limits, s: State)
    requires Inv(limits, s)
    ensures Follows(limits, s, Dispose, OnDispose(s))
  {
    StepFollows(limits, s, Dispose);
  }
}
