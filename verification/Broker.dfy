/**
 The permission broker itself: shared maps that the handlers change in place. Every handler does,
 between two awaits, exactly the step of the state machine.
 */
module Broker {
  import opened Wrappers
  import opened BrokerState
  import opened BrokerSafety
  import opened BrokerRuns

  // ---- settling waiters one by one --------------------------------------------------------------

  /** The waiters `gone` have been rejected. */
  function RejectSome(s: State, gone: set<WaiterKey>): State {
    s.(waiters := s.waiters - gone,
       requests := map r | r in s.requests ::
         if exists k :: k in gone && k in s.waiters && s.waiters[k].request == r then ResolvedPhase(s.requests[r], Reject) else s.requests[r])
  }

  lemma RejectNone(s: State)
    ensures RejectSome(s, {}) == s
  {
    assert s.waiters - {} == s.waiters;
    assert RejectSome(s, {}).requests == s.requests;
  }

  lemma RejectOneMore(s: State, gone: set<WaiterKey>, key: WaiterKey)
    requires key in s.waiters && key !in gone && gone <= s.waiters.Keys && s.waiters[key].request in s.requests
    ensures key in RejectSome(s, gone).waiters
    ensures Settle(RejectSome(s, gone), key, Reject) == RejectSome(s, gone + {key})
  {
    var t, u := Settle(RejectSome(s, gone), key, Reject), RejectSome(s, gone + {key});
    assert t.waiters == u.waiters;
    assert t.requests == u.requests;
  }

  function WaitersOf(s: State, doomed: set<nat>): set<WaiterKey> {
    set k | k in s.waiters && s.waiters[k].record in doomed
  }

  lemma RejectAll(s: State, doomed: set<nat>)
    requires Linked(s)
    ensures RejectSome(s, WaitersOf(s, doomed)) == RejectWaiters(s, doomed)
  {
    var t, u, gone := RejectSome(s, WaitersOf(s, doomed)), RejectWaiters(s, doomed), WaitersOf(s, doomed);
    forall r | r in s.requests
      ensures (exists k :: k in gone && s.waiters[k].request == r) <==> s.requests[r].Waiting? && s.requests[r].record in doomed
    {
      assert RequestOk(s, r);
      if k :| k in gone && s.waiters[k].request == r {
        assert WaiterOk(s, k);
      }
      if s.requests[r].Waiting? && s.requests[r].record in doomed {
        var k := (s.records[s.requests[r].record].session, s.requests[r].permission);
        assert k in gone && s.waiters[k].request == r;
      }
    }
    assert t.requests == u.requests;
    assert t.waiters == u.waiters;
  }

  // ---- invalidating calls one by one ----------------------------------------------------------------

  lemma NothingInvalidated(s: State, keys: set<CallKey>)
    requires keys !! s.invocations.Keys
    ensures InvalidateAll(s, keys) == s
  {
    assert RecordsOf(s, keys) == {};
    assert s.invocations - keys == s.invocations;
    assert Forget(s, keys).records == s.records;
    var t := RejectWaiters(s, {});
    assert t.waiters == s.waiters && t.requests == s.requests;
  }

  lemma RejectTwice(s: State, a: set<nat>, b: set<nat>)
    ensures RejectWaiters(RejectWaiters(s, a), b) == RejectWaiters(s, a + b)
  {
    var t, u := RejectWaiters(RejectWaiters(s, a), b), RejectWaiters(s, a + b);
    assert t.waiters == u.waiters;
    assert t.requests == u.requests;
  }

  lemma ForgetTwice(s: State, a: set<CallKey>, b: set<CallKey>)
    requires a !! b
    ensures Forget(Forget(s, a), b) == Forget(s, a + b)
    ensures RecordsOf(s, a) + RecordsOf(Forget(s, a), b) == RecordsOf(s, a + b)
  {
    var t, u := Forget(Forget(s, a), b), Forget(s, a + b);
    assert t.invocations == u.invocations;
    assert RecordsOf(Forget(s, a), b) == RecordsOf(s, b);
    assert RecordsOf(s, a) + RecordsOf(s, b) == RecordsOf(s, a + b);
    assert t.records == u.records;
  }

  lemma InvalidateTwice(s: State, a: set<CallKey>, b: set<CallKey>)
    requires a !! b
    ensures InvalidateAll(InvalidateAll(s, a), b) == InvalidateAll(s, a + b)
  {
    var f := Forget(s, a);
    ForgetTwice(s, a, b);
    RejectTwice(Forget(f, b), RecordsOf(s, a), RecordsOf(f, b));
    assert Forget(RejectWaiters(f, RecordsOf(s, a)), b) == RejectWaiters(Forget(f, b), RecordsOf(s, a));
    assert RecordsOf(RejectWaiters(f, RecordsOf(s, a)), b) == RecordsOf(f, b);
  }

  lemma NoneVisited(keys: set<CallKey>)
    ensures keys - keys == {}
  {
  }

  lemma OneVisited(keys: set<CallKey>, rest: set<CallKey>, key: CallKey)
    requires key in rest && rest <= keys
    ensures keys - rest !! {key} && keys - rest + {key} == keys - (rest - {key})
    ensures {(key.0, key.1)} == {key}
  {
  }

  lemma AllVisited(keys: set<CallKey>)
    ensures keys - {} == keys
  {
  }

  class PermissionBroker {
    const limits: Limits
    var pendingCount: int
    var disposed: bool
    var requests: map<nat, Phase>
    var records: map<nat, Record>
    var invocations: map<CallKey, nat>
    var waiters: map<WaiterKey, Waiter>
    var approvals: map<string, set<string>>
    var permissions: nat
    ghost var created: seq<(nat, string)>
    ghost var mappings: map<(nat, string), string>
    ghost var granted: set<(string, string)>

    constructor (limits: Limits)
      ensures this.limits == limits && Contents() == Initial() && Valid()
    {
      this.limits := limits;
      pendingCount, disposed, permissions := 0, false, 0;
      requests, records, invocations, waiters, approvals := map[], map[], map[], map[], map[];
      created, mappings, granted := [], map[], {};
      new;
      InitialInv(limits);
    }

    ghost function Contents(): State
      reads this
    {
      State(pendingCount, disposed, requests, records, invocations, waiters, approvals, permissions, created, mappings, granted)
    }

    ghost predicate Valid()
      reads this
    {
      Inv(limits, Contents())
    }

    // ---- shared pieces

    /** Resolves one waiter, which is then gone. */
    method Finish(key: WaiterKey, decision: Decision)
      requires key in waiters && waiters[key].request in requests
      modifies this`waiters, this`requests
      ensures Contents() == Settle(old(Contents()), key, decision)
    {
      var r := waiters[key].request;
      waiters := waiters - {key};
      requests := requests[r := ResolvedPhase(requests[r], decision)];
    }

    /** Visits all waiters, in any order, and rejects those of the records. */
    method RejectEach(doomed: set<nat>)
      requires Linked(Contents())
      modifies this`waiters, this`requests
      ensures Contents() == RejectWaiters(old(Contents()), doomed)
    {
      ghost var s, gone := Contents(), {};
      var rest := waiters.Keys;
      RejectNone(s);
      while rest != {}
        invariant rest <= s.waiters.Keys && gone == WaitersOf(s, doomed) - rest
        invariant Contents() == RejectSome(s, gone)
        decreases rest
      {
        var key :| key in rest;
        rest := rest - {key};
        assert WaiterOk(s, key);
        if waiters[key].record in doomed {
          RejectOneMore(s, gone, key);
          Finish(key, Reject);
          gone := gone + {key};
        }
      }
      assert gone == WaitersOf(s, doomed);
      RejectAll(s, doomed);
    }

    method ForgetCall(session: string, call: string) returns (record: nat)
      requires (session, call) in invocations && CallOk(Contents(), (session, call))
      modifies this`records, this`invocations
      ensures Contents() == Forget(old(Contents()), {(session, call)})
      ensures RecordsOf(old(Contents()), {(session, call)}) == {record}
    {
      record := invocations[(session, call)];
      assert RecordsOf(Contents(), {(session, call)}) == {record};
      ghost var left := Forget(Contents(), {(session, call)}).records;
      invocations := invocations - {(session, call)};
      records := records[record := records[record].(valid := false)];
      assert records == left;
    }

    /** Forgets the call, if it is known, and rejects what waits for it. */
    method Invalidate(session: string, call: string)
      requires Valid()
      modifies this`waiters, this`requests, this`records, this`invocations
      ensures Contents() == InvalidateAll(old(Contents()), {(session, call)}) && Valid()
    {
      ghost var s := Contents();
      InvalidateKeeps(limits, s, {(session, call)});
      if (session, call) !in invocations {
        NothingInvalidated(s, {(session, call)});
      } else {
        assert CallOk(s, (session, call));
        ForgetLinked(s, {(session, call)});
        var record := ForgetCall(session, call);
        RejectEach({record});
      }
    }

    /** Ends a request that was counted. */
    method Respond(r: nat, decision: Decision, source: Option<(nat, string)>)
      modifies this`requests, this`pendingCount
      ensures Contents() == Answer(old(Contents()), r, decision, source)
    {
      requests := requests[r := Answered(decision, source)];
      pendingCount := pendingCount - 1;
    }

    /** Remembers what the request of this id came to, and ends it. */
    method Conclude(r: nat, record: nat, id: string, digest: string, decision: Decision)
      requires record in records
      modifies this`requests, this`pendingCount, this`records
      ensures Contents() == BrokerState.Conclude(old(Contents()), r, record, id, digest, decision)
    {
      var rec := records[record];
      records := records[record := rec.(replays := rec.replays[id := Replay(digest, true, decision)])];
      Respond(r, decision, Some((record, id)));
    }

    method CacheApproval(session: string, digest: string) returns (ok: bool)
      requires CacheOk(limits, Contents())
      modifies this`approvals, this`granted
      ensures ok <==> Cacheable(limits, old(Contents()), session, digest)
      ensures Contents() == if ok then Cached(old(Contents()), session, digest) else old(Contents())
    {
      if session in approvals && digest in approvals[session] {
        assert approvals[session] + {digest} == approvals[session];
        assert approvals[session := approvals[session]] == approvals;
        granted := granted + {(session, digest)};
        return true;
      }
      if session !in approvals && |approvals| >= limits.maxApprovalSessions {
        return false;
      }
      var digests := if session in approvals then approvals[session] else {};
      if |digests| >= limits.maxApprovalsPerSession {
        return false;
      }
      approvals := approvals[session := digests + {digest}];
      granted := granted + {(session, digest)};
      return true;
    }

    // ---- a request from its first line to its answer

    method Arrives(r: nat, preflight: Preflight)
      requires Valid() && r !in requests
      modifies this
      ensures Contents() == OnArrive(limits, old(Contents()), r, preflight)
      ensures Follows(limits, old(Contents()), Arrive(r, preflight), Contents()) && Valid()
    {
      StepFollows(limits, Contents(), Arrive(r, preflight));
      if disposed || preflight.NotFound? || pendingCount >= limits.maxPending || preflight != Fine {
        requests := requests[r := Answered(Reject, None)];
        return;
      }
      pendingCount := pendingCount + 1;
      requests := requests[r := Reading];
    }

    method BodyArrives(r: nat, body: Option<Body>)
      requires Valid() && r in requests && requests[r].Reading?
      modifies this
      ensures Contents() == OnBodyRead(old(Contents()), r, body)
      ensures Follows(limits, old(Contents()), BodyRead(r, body), Contents()) && Valid()
    {
      StepFollows(limits, Contents(), BodyRead(r, body));
      if body.None? || !body.value.wellFormed || (body.value.session, body.value.call) !in invocations {
        Respond(r, Reject, None);
        return;
      }
      var b := body.value;
      var record := invocations[(b.session, b.call)];
      if record !in records || !records[record].valid || b.credentials != record {
        Respond(r, Reject, None);
        return;
      }
      var rec := records[record];
      if b.id in rec.replays {
        var previous := rec.replays[b.id];
        if previous.digest == b.digest && previous.done {
          Respond(r, previous.decision, Some((record, b.id)));
        } else {
          Respond(r, Reject, None);
        }
      } else if |rec.replays| >= MAX_REPLAYS {
        Respond(r, Reject, None);
      } else {
        records := records[record := rec.(replays := rec.replays[b.id := Replay(b.digest, false, Reject)])];
        requests := requests[r := Mapping(record, b.id, b.digest)];
      }
    }

    /** OpenCode is asked under a new permission id. */
    method PutToOpenCode(r: nat, p: Phase, mapped: string)
      requires p.Mapping?
      modifies this`requests, this`permissions, this`created, this`mappings
      ensures Contents() == Asking(old(Contents()), r, p, mapped)
    {
      mappings := mappings[(p.record, p.id) := mapped];
      requests := requests[r := Creating(p.record, p.id, p.digest, mapped, permissions)];
      permissions := permissions + 1;
      created := created + [(p.record, p.id)];
    }

    /** The permission was worked out: it is refused, already approved, or put to OpenCode. */
    method MappingDone(r: nat, mapped: Option<string>)
      requires Valid() && r in requests && requests[r].Mapping? && requests[r].record in records
      modifies this
      ensures Contents() == OnMapped(old(Contents()), r, old(requests)[r], mapped)
      ensures Follows(limits, old(Contents()), Mapped(r, mapped), Contents()) && Valid()
    {
      MappedFollows(limits, Contents(), r, mapped);
      var p := requests[r];
      if mapped.None? {
        Conclude(r, p.record, p.id, p.digest, Reject);
        return;
      }
      var session := records[p.record].session;
      if session in approvals && mapped.value in approvals[session] {
        mappings := mappings[(p.record, p.id) := mapped.value];
        Conclude(r, p.record, p.id, p.digest, Always);
        return;
      }
      PutToOpenCode(r, p, mapped.value);
    }

    method MappingFails(r: nat)
      requires Valid() && r in requests && requests[r].Mapping?
      modifies this
      ensures Contents() == Answer(old(Contents()), r, Reject, None)
      ensures Follows(limits, old(Contents()), MappingFailed(r), Contents()) && Valid()
    {
      StepFollows(limits, Contents(), MappingFailed(r));
      Respond(r, Reject, None);
    }

    method Hangs(key: WaiterKey)
      requires Valid() && key in waiters && waiters[key].record in records
      modifies this`waiters, this`requests, this`records, this`invocations
      ensures Contents() == Hangup(old(Contents()), key) && Valid()
    {
      HangupKeeps(limits, Contents(), key);
      var rec := records[waiters[key].record];
      Invalidate(rec.session, rec.call);
      if key in waiters {
        assert WaiterOk(Contents(), key);
        Finish(key, Reject);
      }
    }

    /** OpenCode has answered the creation; when it asks the user, the request waits for the reply. */
    method CreationDone(r: nat, effect: Effect, gone: bool)
      requires Valid() && r in requests && requests[r].Creating? && requests[r].record in records
      modifies this
      ensures Contents() == OnCreated(old(Contents()), r, old(requests)[r], effect, gone)
      ensures Follows(limits, old(Contents()), Created(r, effect, gone), Contents()) && Valid()
    {
      StepFollows(limits, Contents(), Created(r, effect, gone));
      var p := requests[r];
      if effect.Allow? {
        Conclude(r, p.record, p.id, p.digest, Once);
        return;
      }
      if effect.Deny? {
        Conclude(r, p.record, p.id, p.digest, Reject);
        return;
      }
      SuspendedKeeps(limits, Contents(), r, p);
      var session := records[p.record].session;
      waiters := waiters[(session, p.permission) := Waiter(p.record, session, p.mapped, r)];
      requests := requests[r := Waiting(p.record, p.id, p.digest, p.mapped, p.permission)];
      if gone {
        Hangs((session, p.permission));
      }
    }

    method ReplyArrives(session: string, permission: nat, reply: Reply)
      requires Valid()
      modifies this
      ensures Valid()
      ensures if (session, permission) !in old(waiters) then Contents() == old(Contents())
              else Known(old(Contents()), Replied(session, permission, reply))
                   && Contents() == OnReplied(limits, old(Contents()), (session, permission), reply)
                   && Follows(limits, old(Contents()), Replied(session, permission, reply), Contents())
    {
      var key := (session, permission);
      if key !in waiters {
        return;
      }
      assert WaiterOk(Contents(), key);
      StepFollows(limits, Contents(), Replied(session, permission, reply));
      var w := waiters[key];
      if reply.ReplyAlways? {
        var accepted := false;
        if records[w.record].valid {
          accepted := CacheApproval(w.session, w.digest);
        }
        Finish(key, if accepted then Always else Reject);
      } else {
        Finish(key, if reply.ReplyOnce? then Once else Reject);
      }
    }

    method Resumes(r: nat)
      requires Valid() && r in requests && requests[r].Resolved? && requests[r].record in records
      modifies this
      ensures Contents() == OnResumed(old(Contents()), r)
      ensures Follows(limits, old(Contents()), Resumed(r), Contents()) && Valid()
    {
      StepFollows(limits, Contents(), Resumed(r));
      var p := requests[r];
      Conclude(r, p.record, p.id, p.digest, p.decision);
    }

    // ---- calls, sessions and the end

    method ToolStarts(session: string, call: string, record: nat)
      requires Valid() && record !in records
      modifies this
      ensures Contents() == OnToolStarts(old(Contents()), session, call, record)
      ensures Follows(limits, old(Contents()), BrokerState.ToolStarts(session, call, record), Contents()) && Valid()
    {
      StepFollows(limits, Contents(), BrokerState.ToolStarts(session, call, record));
      Invalidate(session, call);
      records := records[record := Record(session, call, true, map[])];
      invocations := invocations[(session, call) := record];
    }

    /** The calls are invalidated one after the other. */
    method InvalidateEach(keys: set<CallKey>)
      requires Valid()
      modifies this`waiters, this`requests, this`records, this`invocations
      ensures Contents() == InvalidateAll(old(Contents()), keys) && Valid()
    {
      ghost var s := Contents();
      var rest := keys;
      NothingInvalidated(s, {});
      NoneVisited(keys);
      while rest != {}
        invariant rest <= keys
        invariant Contents() == InvalidateAll(s, keys - rest) && Valid()
        decreases rest
      {
        var key :| key in rest;
        OneVisited(keys, rest, key);
        InvalidateTwice(s, keys - rest, {key});
        Invalidate(key.0, key.1);
        rest := rest - {key};
      }
      AllVisited(keys);
    }

    method DropApprovals(session: string)
      requires Valid()
      modifies this`approvals
      ensures Contents() == old(Contents()).(approvals := old(approvals) - {session}) && Valid()
    {
      ApprovalsDropped(limits, Contents(), approvals - {session}, disposed);
      approvals := approvals - {session};
    }

    method SessionDeleted(session: string)
      requires Valid()
      modifies this
      ensures Contents() == OnSessionDeleted(old(Contents()), session)
      ensures Follows(limits, old(Contents()), BrokerState.SessionDeleted(session), Contents()) && Valid()
    {
      StepFollows(limits, Contents(), BrokerState.SessionDeleted(session));
      var keys := CallsOf(invocations, session);
      DropApprovals(session);
      InvalidateEach(keys);
    }

    method Dispose()
      requires Valid()
      modifies this
      ensures Contents() == OnDispose(old(Contents()))
      ensures Follows(limits, old(Contents()), BrokerState.Dispose, Contents()) && Valid()
    {
      DisposeFollows(limits, Contents());
      if disposed {
        return;
      }
      ghost var t := InvalidateAll(Contents(), invocations.Keys);
      InvalidateKeeps(limits, Contents(), invocations.Keys);
      ApprovalsDropped(limits, t, map[], true);
      InvalidateEach(invocations.Keys);
      disposed := true;
      approvals := map[];
      RejectEach(records.Keys);
    }
  }
}
