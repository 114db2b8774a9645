/**
 What each event does to the permission broker, said without its own functions: when a request is refused and
 when it goes on, which calls end and which waiters are rejected with them, and that nothing else changes.
 */
module BrokerMeaning {
  import opened Wrappers
  import opened BrokerState
  import opened BrokerSafety
  import opened BrokerRuns

  // ---- the head and the body of a request ---------------------------------------------------------------

  /** Nothing but these requests changes. */
  ghost predicate OnlyRequest(s: State, t: State, r: nat) {
    && t.requests.Keys == s.requests.Keys + {r} && (forall q :: q in s.requests && q != r ==> t.requests[q] == s.requests[q])
    && t.disposed == s.disposed && t.invocations == s.invocations && t.approvals == s.approvals
  }

  /** And of what is remembered only this id. */
  ghost predicate OnlyReplay(s: State, t: State, record: nat, id: string) {
    && t.records.Keys == s.records.Keys
    && (forall i :: i in s.records ==> t.records[i].(replays := map[]) == s.records[i].(replays := map[]))
    && (forall i :: i in s.records && i != record ==> t.records[i].replays == s.records[i].replays)
    && (record in s.records ==> forall other :: other != id ==>
          (other in t.records[record].replays <==> other in s.records[record].replays)
          && (other in s.records[record].replays ==> t.records[record].replays[other] == s.records[record].replays[other]))
  }

  /** A request is refused at once, or read and counted. */
  lemma ArriveMeaning(limits: Limits, s: State, r: nat, preflight: Preflight)
    requires r !in s.requests
    ensures var t := Step(limits, s, Arrive(r, preflight));
      && OnlyRequest(s, t, r) && t.records == s.records && t.waiters == s.waiters && t.created == s.created
      && (if s.disposed || preflight != Fine || s.pendingCount >= limits.maxPending then
            t.requests[r] == Answered(Reject, None) && t.pendingCount == s.pendingCount
          else t.requests[r] == Reading && t.pendingCount == s.pendingCount + 1)
  {
  }

  /** The body names a running call and presents its secrets. */
  predicate Credentialed(s: State, body: Body, record: nat) {
    && (body.session, body.call) in s.invocations && s.invocations[(body.session, body.call)] == record
    && record in s.records && s.records[record].valid && body.credentials == record
  }

  /** The id is known, but the first request is unfinished or had another body. */
  predicate EarlyOrOther(replays: map<string, Replay>, body: Body) {
    body.id in replays && !(replays[body.id].done && replays[body.id].digest == body.digest)
  }

  predicate BodyRefused(s: State, body: Option<Body>) {
    || body.None? || !body.value.wellFormed
    || !Credentialed(s, body.value, body.value.credentials)
    || EarlyOrOther(s.records[body.value.credentials].replays, body.value)
    || (body.value.id !in s.records[body.value.credentials].replays && |s.records[body.value.credentials].replays| >= 128)
  }

  lemma SetReplayMeaning(s: State, record: nat, id: string, replay: Replay)
    requires record in s.records
    ensures var t := SetReplay(s, record, id, replay);
      && OnlyReplay(s, t, record, id) && id in t.records[record].replays && t.records[record].replays[id] == replay
      && t == s.(records := t.records)
  {
  }

  lemma AuthorizedIff(s: State, body: Body)
    ensures Authorized(s, body) == if Credentialed(s, body, body.credentials) then Some(body.credentials) else None
  {
  }

  /**
     A body is refused exactly if it is malformed or unauthorised, repeats an id too early or with another content, or
     comes after 128 ids.
   */
  lemma RefusedIff(limits: Limits, s: State, r: nat, body: Option<Body>)
    requires r in s.requests && s.requests[r].Reading?
    ensures Step(limits, s, BodyRead(r, body)).requests[r] == Answered(Reject, None) <==> BodyRefused(s, body)
  {
    if body.Some? {
      AuthorizedIff(s, body.value);
    }
  }

  /** Then nothing is remembered of it. */
  lemma RefusedMeaning(limits: Limits, s: State, r: nat, body: Option<Body>)
    requires r in s.requests && s.requests[r].Reading? && BodyRefused(s, body)
    ensures var t := Step(limits, s, BodyRead(r, body));
      && OnlyRequest(s, t, r) && t.records == s.records && t.waiters == s.waiters && t.created == s.created
      && t.pendingCount == s.pendingCount - 1
  {
    if body.Some? {
      AuthorizedIff(s, body.value);
    }
  }

  /** A repetition that is not refused gets the decision of its id. */
  lemma RepeatMeaning(limits: Limits, s: State, r: nat, b: Body)
    requires r in s.requests && s.requests[r].Reading? && !BodyRefused(s, Some(b)) && b.id in s.records[b.credentials].replays
    ensures var t := Step(limits, s, BodyRead(r, Some(b)));
      && OnlyRequest(s, t, r) && t.records == s.records && t.waiters == s.waiters && t.created == s.created
      && t.requests[r] == Answered(s.records[b.credentials].replays[b.id].decision, Some((b.credentials, b.id)))
      && t.pendingCount == s.pendingCount - 1
  {
    AuthorizedIff(s, b);
  }

  /** A new id that is not refused goes on: it is remembered, unfinished, and its request is mapped. */
  lemma FreshMeaning(limits: Limits, s: State, r: nat, b: Body)
    requires r in s.requests && s.requests[r].Reading? && !BodyRefused(s, Some(b)) && b.id !in s.records[b.credentials].replays
    ensures var t := Step(limits, s, BodyRead(r, Some(b)));
      && OnlyRequest(s, t, r) && t.waiters == s.waiters && t.created == s.created && t.pendingCount == s.pendingCount
      && t.requests[r] == Mapping(b.credentials, b.id, b.digest) && OnlyReplay(s, t, b.credentials, b.id)
      && b.id in t.records[b.credentials].replays && !t.records[b.credentials].replays[b.id].done
      && t.records[b.credentials].replays[b.id].digest == b.digest
  {
    AuthorizedIff(s, b);
    SetReplayMeaning(s, b.credentials, b.id, Replay(b.digest, false, Reject));
  }

  // ---- mapping, asking, waiting ------------------------------------------------------------------------------

  /** The request is answered with the decision, which is remembered for its id. */
  ghost predicate Concludes(s: State, t: State, r: nat, p: Phase, d: Decision)
    requires Unfinished(p)
  {
    && OnlyRequest(s, t, r) && t.requests[r] == Answered(d, Some((p.record, p.id))) && t.pendingCount == s.pendingCount - 1
    && t.waiters == s.waiters && t.created == s.created && t.permissions == s.permissions
    && OnlyReplay(s, t, p.record, p.id) && p.record in t.records && p.id in t.records[p.record].replays
    && t.records[p.record].replays[p.id] == Replay(p.digest, true, d)
  }

  lemma ConcludeConcludes(s: State, u: State, r: nat, p: Phase, d: Decision)
    requires Unfinished(p) && p.record in s.records && u == s.(mappings := u.mappings)
    ensures Concludes(s, Conclude(u, r, p.record, p.id, p.digest, d), r, p, d)
  {
    SetReplayMeaning(u, p.record, p.id, Replay(p.digest, true, d));
  }

  /** What cannot be mapped is refused. */
  lemma UnmappedMeaning(limits: Limits, s: State, r: nat)
    requires Due(s, Mapped(r, None)) && Known(s, Mapped(r, None))
    ensures Concludes(s, Step(limits, s, Mapped(r, None)), r, s.requests[r], Reject)
  {
    ConcludeConcludes(s, s, r, s.requests[r], Reject);
  }

  /** The session has approved what the request was mapped to. */
  predicate IsApproved(s: State, r: nat, mapped: string)
    requires r in s.requests && s.requests[r].Mapping? && s.requests[r].record in s.records
  {
    var session := s.records[s.requests[r].record].session;
    session in s.approvals && mapped in s.approvals[session]
  }

  /** What is approved is let through for good. */
  lemma ApprovedIsConcluded(limits: Limits, s: State, r: nat, mapped: string)
    requires Due(s, Mapped(r, Some(mapped))) && Known(s, Mapped(r, Some(mapped))) && IsApproved(s, r, mapped)
    ensures Concludes(s, Step(limits, s, Mapped(r, Some(mapped))), r, s.requests[r], Always)
  {
    var p := s.requests[r];
    ConcludeConcludes(s, s.(mappings := s.mappings[(p.record, p.id) := mapped]), r, p, Always);
  }

  /** For everything else OpenCode is asked, under a new permission. */
  lemma UnapprovedIsAsked(limits: Limits, s: State, r: nat, mapped: string)
    requires Due(s, Mapped(r, Some(mapped))) && Known(s, Mapped(r, Some(mapped))) && !IsApproved(s, r, mapped)
    ensures var t, p := Step(limits, s, Mapped(r, Some(mapped))), s.requests[r];
      && OnlyRequest(s, t, r) && t.records == s.records && t.waiters == s.waiters && t.pendingCount == s.pendingCount
      && t.requests[r] == Creating(p.record, p.id, p.digest, mapped, s.permissions)
      && t.permissions == s.permissions + 1 && t.created == s.created + [(p.record, p.id)]
  {
  }

  lemma MappingFailedMeaning(limits: Limits, s: State, r: nat)
    requires Due(s, MappingFailed(r))
    ensures var t := Step(limits, s, MappingFailed(r));
      && OnlyRequest(s, t, r) && t.requests[r] == Answered(Reject, None) && t.pendingCount == s.pendingCount - 1
      && t.records == s.records && t.waiters == s.waiters && t.created == s.created
  {
  }

  /** OpenCode's own allowance and refusal end the request. */
  lemma DecidedByOpenCode(limits: Limits, s: State, r: nat, effect: Effect, gone: bool)
    requires Due(s, Created(r, effect, gone)) && Known(s, Created(r, effect, gone)) && !effect.Ask?
    ensures Concludes(s, Step(limits, s, Created(r, effect, gone)), r, s.requests[r], if effect.Allow? then Once else Reject)
  {
    ConcludeConcludes(s, s, r, s.requests[r], if effect.Allow? then Once else Reject);
  }

  /** If it asks the user, the request waits under its permission. */
  lemma AskedWaits(limits: Limits, s: State, r: nat)
    requires Due(s, Created(r, Ask, false)) && Known(s, Created(r, Ask, false))
    ensures var t, p := Step(limits, s, Created(r, Ask, false)), s.requests[r];
      var session := s.records[p.record].session;
      && OnlyRequest(s, t, r) && t.records == s.records && t.pendingCount == s.pendingCount && t.created == s.created
      && t.requests[r] == Waiting(p.record, p.id, p.digest, p.mapped, p.permission)
      && t.waiters == s.waiters[(session, p.permission) := Waiter(p.record, session, p.mapped, r)]
  {
  }

  /** The decision that was waited for is remembered and answered. */
  lemma ResumedMeaning(limits: Limits, s: State, r: nat)
    requires Due(s, Resumed(r)) && Known(s, Resumed(r))
    ensures Concludes(s, Step(limits, s, Resumed(r)), r, s.requests[r], s.requests[r].decision)
  {
    ConcludeConcludes(s, s, r, s.requests[r], s.requests[r].decision);
  }

  // ---- replies --------------------------------------------------------------------------------------------------

  function Settled(p: Phase, d: Decision): Phase
    requires p.Waiting?
  {
    Resolved(p.record, p.id, p.digest, p.mapped, d)
  }

  /** There is room for the digest, or it is there. */
  predicate HasRoom(limits: Limits, approvals: map<string, set<string>>, session: string, digest: string) {
    if session in approvals then digest in approvals[session] || |approvals[session]| < limits.maxApprovalsPerSession
    else |approvals| < limits.maxApprovalSessions && 0 < limits.maxApprovalsPerSession
  }

  predicate Accepted(limits: Limits, s: State, key: WaiterKey, reply: Reply)
    requires key in s.waiters && s.waiters[key].record in s.records
  {
    reply.ReplyAlways? && s.records[s.waiters[key].record].valid && HasRoom(limits, s.approvals, key.0, s.waiters[key].digest)
  }

  lemma CacheableIff(limits: Limits, s: State, session: string, digest: string)
    ensures Cacheable(limits, s, session, digest) <==> HasRoom(limits, s.approvals, session, digest)
  {
  }

  function ReplyDecision(limits: Limits, s: State, key: WaiterKey, reply: Reply): Decision
    requires key in s.waiters && s.waiters[key].record in s.records
  {
    if Accepted(limits, s, key, reply) then Always else if reply.ReplyOnce? then Once else Reject
  }

  lemma RepliedIs(limits: Limits, s: State, key: WaiterKey, reply: Reply)
    requires key in s.waiters && s.waiters[key].record in s.records && s.waiters[key].session == key.0
    ensures Step(limits, s, Replied(key.0, key.1, reply)) ==
      Settle(if Accepted(limits, s, key, reply) then Cached(s, key.0, s.waiters[key].digest) else s, key, ReplyDecision(limits, s, key, reply))
  {
    CacheableIff(limits, s, key.0, s.waiters[key].digest);
  }

  /**
     A reply settles the one request that waits under its permission. "Always" needs a call that is still valid and room
     for the digest; without these it refuses.
   */
  lemma RepliedMeaning(limits: Limits, s: State, key: WaiterKey, reply: Reply)
    requires key in s.waiters && WaiterOk(s, key)
    ensures var t, w := Step(limits, s, Replied(key.0, key.1, reply)), s.waiters[key];
      && t.requests == s.requests[w.request := Settled(s.requests[w.request], ReplyDecision(limits, s, key, reply))]
      && t.waiters == s.waiters - {key} && t.records == s.records && t.invocations == s.invocations && t.disposed == s.disposed
      && t.pendingCount == s.pendingCount && t.created == s.created
  {
    RepliedIs(limits, s, key, reply);
  }

  /** And then the digest is approved for the session; no other approval comes or goes. */
  lemma ApprovedMeaning(limits: Limits, s: State, key: WaiterKey, reply: Reply, session: string, digest: string)
    requires key in s.waiters && WaiterOk(s, key)
    ensures var approvals := Step(limits, s, Replied(key.0, key.1, reply)).approvals;
      (session in approvals && digest in approvals[session]) <==>
        || (session in s.approvals && digest in s.approvals[session])
        || (Accepted(limits, s, key, reply) && session == key.0 && digest == s.waiters[key].digest)
  {
    RepliedIs(limits, s, key, reply);
  }

  // ---- calls that end -------------------------------------------------------------------------------------------

  /** The calls in `keys` end: they cannot be looked up, their records are invalid, and who waits for them is refused. */
  ghost predicate CallsEnd(s: State, t: State, keys: set<CallKey>) {
    && t.invocations == s.invocations - keys && t.records.Keys == s.records.Keys && t.requests.Keys == s.requests.Keys
    && t.pendingCount == s.pendingCount && t.created == s.created && t.permissions == s.permissions
    && (forall i :: i in s.records ==>
          t.records[i] == if Ends(s, keys, i) then s.records[i].(valid := false) else s.records[i])
    && (forall q :: q in s.requests ==>
          t.requests[q] == if s.requests[q].Waiting? && Ends(s, keys, s.requests[q].record) then Settled(s.requests[q], Reject)
                           else s.requests[q])
    && (forall k :: k in t.waiters <==> k in s.waiters && !Ends(s, keys, s.waiters[k].record))
    && (forall k :: k in t.waiters ==> t.waiters[k] == s.waiters[k])
  }

  /** The record is that of one of the calls. */
  ghost predicate Ends(s: State, keys: set<CallKey>, i: nat) {
    exists k :: k in keys && k in s.invocations && s.invocations[k] == i
  }

  lemma InvalidateMeaning(s: State, keys: set<CallKey>)
    ensures CallsEnd(s, InvalidateAll(s, keys), keys)
  {
    forall i
      ensures i in RecordsOf(s, keys) <==> Ends(s, keys, i)
    {
    }
  }

  lemma ToolEndsMeaning(limits: Limits, s: State, session: string, call: string)
    ensures var t := Step(limits, s, ToolEnds(session, call));
      CallsEnd(s, t, {(session, call)}) && t.approvals == s.approvals && t.disposed == s.disposed
  {
    InvalidateMeaning(s, {(session, call)});
  }

  /** A call under the same name ends, and the new one can be looked up, valid and with nothing remembered. */
  lemma ToolStartsMeaning(limits: Limits, s: State, session: string, call: string, record: nat) returns (u: State)
    requires record !in s.records
    ensures CallsEnd(s, u, {(session, call)}) && u.approvals == s.approvals && u.disposed == s.disposed
    ensures Step(limits, s, ToolStarts(session, call, record))
      == u.(records := u.records[record := Record(session, call, true, map[])], invocations := u.invocations[(session, call) := record])
  {
    u := InvalidateAll(s, {(session, call)});
    InvalidateMeaning(s, {(session, call)});
  }

  /** Exactly the calls and approvals of the session go. */
  lemma SessionDeletedMeaning(limits: Limits, s: State, session: string)
    ensures var t := Step(limits, s, SessionDeleted(session));
      && CallsEnd(s, t, set k | k in s.invocations && k.0 == session)
      && t.approvals == s.approvals - {session} && t.disposed == s.disposed
  {
    var u := s.(approvals := s.approvals - {session});
    InvalidateMeaning(u, CallsOf(u.invocations, session));
    SameEnds(s, u, CallsOf(s.invocations, session));
  }

  lemma SameEnds(s: State, u: State, keys: set<CallKey>)
    requires u == s.(approvals := u.approvals)
    ensures forall i :: Ends(u, keys, i) <==> Ends(s, keys, i)
    ensures forall t :: CallsEnd(u, t, keys) <==> CallsEnd(s, t, keys)
  {
    forall i
      ensures Ends(u, keys, i) <==> Ends(s, keys, i)
    {
    }
  }

  // ---- peers that are gone, and the end -----------------------------------------------------------------------

  function CallOf(s: State, r: nat): CallKey
    requires r in s.requests && s.requests[r].Waiting? && s.requests[r].record in s.records
  {
    (s.records[s.requests[r].record].session, s.records[s.requests[r].record].call)
  }

  lemma SameEntry<K, V>(m: map<K, V>, k: K)
    requires k in m
    ensures m[k := m[k]] == m
  {
  }

  lemma NoEntry<K, V>(m: map<K, V>, k: K)
    requires k !in m
    ensures m - {k} == m
  {
  }

  lemma HangupMeaning(s: State, key: WaiterKey, r: nat) returns (u: State)
    requires key in s.waiters && s.waiters[key].request == r && s.waiters[key].record in s.records
    requires r in s.requests && s.requests[r].Waiting? && s.requests[r].record == s.waiters[key].record
    ensures CallsEnd(s, u, {CallOf(s, r)}) && u.approvals == s.approvals && u.disposed == s.disposed
    ensures var t := Hangup(s, key);
      && t.requests == u.requests[r := Settled(s.requests[r], Reject)] && t.waiters == u.waiters - {key}
      && t == u.(requests := t.requests, waiters := t.waiters)
  {
    u := InvalidateAll(s, {CallOf(s, r)});
    InvalidateMeaning(s, {CallOf(s, r)});
    if key !in u.waiters {
      NoEntry(u.waiters, key);
      SameEntry(u.requests, r);
    }
  }

  lemma WaiterIsThere(s: State, r: nat)
    requires Linked(s) && r in s.requests && s.requests[r].Waiting?
    ensures s.requests[r].record in s.records && WaiterOf(s, r) in s.waiters
    ensures var w := s.waiters[WaiterOf(s, r)]; w.request == r && w.record == s.requests[r].record
  {
    assert RequestOk(s, r);
  }

  /** A waiting peer is gone: its request is refused, and with it the call as it runs now and whoever waits for that. */
  lemma DisconnectedMeaning(limits: Limits, s: State, r: nat) returns (u: State)
    requires Linked(s) && r in s.requests && s.requests[r].Waiting?
    ensures Due(s, Disconnected(r)) && Known(s, Disconnected(r)) && s.requests[r].record in s.records
    ensures CallsEnd(s, u, {CallOf(s, r)}) && u.approvals == s.approvals && u.disposed == s.disposed
    ensures var t := Step(limits, s, Disconnected(r));
      && t.requests == u.requests[r := Settled(s.requests[r], Reject)] && t.waiters == u.waiters - {WaiterOf(s, r)}
      && t == u.(requests := t.requests, waiters := t.waiters)
  {
    WaiterIsThere(s, r);
    u := HangupMeaning(s, WaiterOf(s, r), r);
  }

  /** A peer that is gone already when OpenCode asks is as one that goes right after. */
  lemma GoneMeaning(limits: Limits, s: State, r: nat)
    requires Due(s, Created(r, Ask, true)) && Known(s, Created(r, Ask, true))
    ensures Due(s, Created(r, Ask, false)) && Known(s, Created(r, Ask, false))
    ensures var u := Step(limits, s, Created(r, Ask, false));
      && Due(u, Disconnected(r)) && Known(u, Disconnected(r))
      && Step(limits, s, Created(r, Ask, true)) == Step(limits, u, Disconnected(r))
  {
  }

  /** The end: no call can be looked up or is valid; a second end is none. */
  lemma DisposeEndsCalls(limits: Limits, s: State)
    requires forall i :: i in s.records ==> RecordOk(s, i)
    ensures var t := Step(limits, s, Dispose);
      if s.disposed then t == s
      else
        && t.disposed && t.invocations == map[] && t.approvals == map[] && t.pendingCount == s.pendingCount && t.created == s.created
        && t.records.Keys == s.records.Keys && forall i :: i in s.records ==> t.records[i] == s.records[i].(valid := false)
  {
    if !s.disposed {
      var keys, t := s.invocations.Keys, Step(limits, s, Dispose);
      InvalidateMeaning(s, keys);
      forall i | i in s.records
        ensures t.records[i] == s.records[i].(valid := false)
      {
        assert RecordOk(s, i);
        if s.records[i].valid {
          assert Ends(s, keys, i);
        }
      }
    }
  }

  /** Nobody waits any more, and every request that did is refused. */
  lemma DisposeRefusesAll(limits: Limits, s: State)
    requires !s.disposed
    requires forall q :: q in s.requests && s.requests[q].Waiting? ==> s.requests[q].record in s.records
    requires forall k :: k in s.waiters ==> s.waiters[k].record in s.records
    ensures var t := Step(limits, s, Dispose);
      && t.waiters == map[] && t.requests.Keys == s.requests.Keys
      && forall q :: q in s.requests ==>
           t.requests[q] == if s.requests[q].Waiting? then Settled(s.requests[q], Reject) else s.requests[q]
  {
  }

}
