/**
 What the permission broker keeps over every run, whatever order requests, replies, tool calls and
 disconnections come in.
 */
module BrokerSafety {
  import opened Wrappers
  import opened Basics
  import opened BrokerState

  // ---- the invariant --------------------------------------------------------------------------

  predicate Unfinished(p: Phase) {
    p.Mapping? || p.Creating? || p.Waiting? || p.Resolved?
  }

  predicate Asked(p: Phase) {
    p.Creating? || p.Waiting?
  }

  function InFlight(s: State): set<nat> {
    set r | r in s.requests && !s.requests[r].Answered?
  }

  /** An "always" reply was accepted for what the request of this id was mapped to. */
  ghost predicate Granted(s: State, record: nat, id: string) {
    record in s.records && (record, id) in s.mappings && (s.records[record].session, s.mappings[(record, id)]) in s.granted
  }

  /** Until it is concluded, a request holds the unfinished entry of its id. */
  ghost predicate Claims(s: State, p: Phase) {
    Unfinished(p) ==>
      && p.record in s.records && p.id in s.records[p.record].replays
      && s.records[p.record].replays[p.id] == Replay(p.digest, false, Reject)
  }

  ghost predicate RequestOk(s: State, r: nat)
    requires r in s.requests
  {
    var p := s.requests[r];
    && Claims(s, p)
    && (p.Mapping? ==> (p.record, p.id) !in s.mappings)
    && (Unfinished(p) && !p.Mapping? ==> (p.record, p.id) in s.mappings && s.mappings[(p.record, p.id)] == p.mapped)
    && (Asked(p) ==> p.permission < s.permissions)
    && (p.Waiting? ==> var k := (s.records[p.record].session, p.permission);
                       k in s.waiters && s.waiters[k] == Waiter(p.record, k.0, p.mapped, r))
    && (p.Resolved? && p.decision == Always ==> Granted(s, p.record, p.id))
    && (p.Answered? && p.decision == Always ==> p.source.Some? && Granted(s, p.source.value.0, p.source.value.1))
  }

  /** No two requests hold the same id of a record, or wait under the same permission. */
  ghost predicate PairOk(s: State, r: nat, q: nat)
    requires r in s.requests && q in s.requests
  {
    var a, b := s.requests[r], s.requests[q];
    && (Unfinished(a) && Unfinished(b) && a.record == b.record && a.id == b.id ==> r == q)
    && (Asked(a) && Asked(b) && a.permission == b.permission ==> r == q)
  }

  ghost predicate WaiterOk(s: State, k: WaiterKey)
    requires k in s.waiters
  {
    var w := s.waiters[k];
    && w.record in s.records && w.session == k.0 == s.records[w.record].session
    && w.request in s.requests && s.requests[w.request].Waiting? && s.requests[w.request].record == w.record
    && s.requests[w.request].mapped == w.digest && s.requests[w.request].permission == k.1
  }

  /** The valid records are exactly those that a call can be looked up under. */
  ghost predicate RecordOk(s: State, i: nat)
    requires i in s.records
  {
    var rec := s.records[i];
    && |rec.replays| <= MAX_REPLAYS
    && (rec.valid ==> (rec.session, rec.call) in s.invocations && s.invocations[(rec.session, rec.call)] == i)
    && forall id :: id in rec.replays && rec.replays[id].decision == Always ==> Granted(s, i, id)
  }

  ghost predicate CallOk(s: State, k: CallKey)
    requires k in s.invocations
  {
    var i := s.invocations[k];
    i in s.records && s.records[i].valid && (s.records[i].session, s.records[i].call) == k
  }

  /** No permission is asked for twice for the same id of a record, and only after it was mapped. */
  ghost predicate CreatedOk(s: State) {
    && (forall i, j :: 0 <= i < j < |s.created| ==> s.created[i] != s.created[j])
    && (forall c :: c in s.created ==> c in s.mappings)
    && (forall c :: c in s.mappings ==> c.0 in s.records && c.1 in s.records[c.0].replays)
  }

  ghost predicate CacheOk(limits: Limits, s: State) {
    && |s.approvals| <= limits.maxApprovalSessions
    && forall session :: session in s.approvals ==>
         && |s.approvals[session]| <= limits.maxApprovalsPerSession
         && forall digest :: digest in s.approvals[session] ==> (session, digest) in s.granted
  }

  ghost predicate Counted(limits: Limits, s: State) {
    s.pendingCount == |InFlight(s)| <= limits.maxPending
  }

  ghost predicate Linked(s: State) {
    && (forall r {:trigger RequestOk(s, r)} :: r in s.requests ==> RequestOk(s, r))
    && (forall r, q {:trigger PairOk(s, r, q)} :: r in s.requests && q in s.requests ==> PairOk(s, r, q))
    && (forall k {:trigger WaiterOk(s, k)} :: k in s.waiters ==> WaiterOk(s, k))
    && (forall i {:trigger RecordOk(s, i)} :: i in s.records ==> RecordOk(s, i))
    && (forall k {:trigger CallOk(s, k)} :: k in s.invocations ==> CallOk(s, k))
  }

  ghost predicate Inv(limits: Limits, s: State) {
    Counted(limits, s) && Linked(s) && CreatedOk(s) && CacheOk(limits, s)
  }

  lemma InitialInv(limits: Limits)
    ensures Inv(limits, Initial())
  {
  }

  // ---- what each piece keeps --------------------------------------------------------------------

  /** Links stay if every link of `t` follows from the one of `s`, or can be told from `s` alone. */
  lemma StillLinked(s: State, t: State)
    requires Linked(s)
    requires forall r {:trigger RequestOk(t, r)} :: r in t.requests && (r in s.requests ==> RequestOk(s, r)) ==> RequestOk(t, r)
    requires forall r, q {:trigger PairOk(t, r, q)} ::
      r in t.requests && q in t.requests && (r in s.requests && q in s.requests ==> PairOk(s, r, q)) ==> PairOk(t, r, q)
    requires forall k {:trigger WaiterOk(t, k)} :: k in t.waiters && (k in s.waiters ==> WaiterOk(s, k)) ==> WaiterOk(t, k)
    requires forall i {:trigger RecordOk(t, i)} :: i in t.records && (i in s.records ==> RecordOk(s, i)) ==> RecordOk(t, i)
    requires forall k {:trigger CallOk(t, k)} :: k in t.invocations && (k in s.invocations ==> CallOk(s, k)) ==> CallOk(t, k)
    ensures Linked(t)
  {
    forall r | r in t.requests
      ensures RequestOk(t, r)
    {
      assert r in s.requests ==> RequestOk(s, r);
    }
    forall r, q | r in t.requests && q in t.requests
      ensures PairOk(t, r, q)
    {
      assert r in s.requests && q in s.requests ==> PairOk(s, r, q);
    }
    forall k | k in t.waiters
      ensures WaiterOk(t, k)
    {
      assert k in s.waiters ==> WaiterOk(s, k);
    }
    forall i | i in t.records
      ensures RecordOk(t, i)
    {
      assert i in s.records ==> RecordOk(s, i);
    }
    forall k | k in t.invocations
      ensures CallOk(t, k)
    {
      assert k in s.invocations ==> CallOk(s, k);
    }
  }

  lemma AnswerCounted(limits: Limits, s: State, r: nat, decision: Decision, source: Option<(nat, string)>)
    requires Counted(limits, s) && r in InFlight(s)
    ensures Counted(limits, Answer(s, r, decision, source))
  {
    assert InFlight(Answer(s, r, decision, source)) == InFlight(s) - {r};
  }

  lemma AnswerLinked(s: State, r: nat, decision: Decision, source: Option<(nat, string)>)
    requires Linked(s) && r in InFlight(s) && !s.requests[r].Waiting?
    requires decision == Always ==> source.Some? && Granted(s, source.value.0, source.value.1)
    ensures Linked(Answer(s, r, decision, source))
  {
    var t := Answer(s, r, decision, source);
    StillLinked(s, t);
  }

  lemma SameInFlight(s: State, t: State)
    requires s.requests.Keys == t.requests.Keys
    requires forall r :: r in s.requests ==> (s.requests[r].Answered? <==> t.requests[r].Answered?)
    ensures InFlight(s) == InFlight(t)
  {
  }

  lemma RejectLinked(s: State, doomed: set<nat>)
    requires Linked(s)
    ensures Linked(RejectWaiters(s, doomed))
  {
    var t := RejectWaiters(s, doomed);
    StillLinked(s, t);
  }

  lemma ForgetLinked(s: State, keys: set<CallKey>)
    requires Linked(s)
    ensures Linked(Forget(s, keys))
  {
    var t := Forget(s, keys);
    forall i, k | i in RecordsOf(s, keys) && k in s.invocations && s.invocations[k] == i
      ensures k in keys
    {
      var l :| l in keys && l in s.invocations && s.invocations[l] == i;
      assert CallOk(s, l) && CallOk(s, k);
    }
    StillLinked(s, t);
  }

  lemma SettleLinked(s: State, key: WaiterKey, decision: Decision)
    requires Linked(s) && key in s.waiters
    requires decision == Always ==> (s.waiters[key].session, s.waiters[key].digest) in s.granted
    ensures Linked(Settle(s, key, decision))
  {
    var t, w := Settle(s, key, decision), s.waiters[key];
    assert WaiterOk(s, key) && RequestOk(s, w.request);
    StillLinked(s, t);
  }

  /** Apart from links and counts: what was asked for, and the approvals. */
  ghost predicate Carried(s: State, t: State) {
    && t.created == s.created && t.mappings == s.mappings && t.approvals == s.approvals && s.granted <= t.granted
    && forall i :: i in s.records ==> i in t.records && s.records[i].replays.Keys <= t.records[i].replays.Keys
  }

  lemma CarriedOk(limits: Limits, s: State, t: State)
    requires CreatedOk(s) && CacheOk(limits, s) && Carried(s, t)
    ensures CreatedOk(t) && CacheOk(limits, t)
  {
  }

  lemma InvalidateKeeps(limits: Limits, s: State, keys: set<CallKey>)
    requires Inv(limits, s)
    ensures Inv(limits, InvalidateAll(s, keys))
  {
    var t := InvalidateAll(s, keys);
    ForgetLinked(s, keys);
    RejectLinked(Forget(s, keys), RecordsOf(s, keys));
    SameInFlight(s, t);
    CarriedOk(limits, s, t);
  }

  lemma RejectKeeps(limits: Limits, s: State, doomed: set<nat>)
    requires Inv(limits, s)
    ensures Inv(limits, RejectWaiters(s, doomed))
  {
    RejectLinked(s, doomed);
    SameInFlight(s, RejectWaiters(s, doomed));
    CarriedOk(limits, s, RejectWaiters(s, doomed));
  }

  lemma SettleKeeps(limits: Limits, s: State, key: WaiterKey, decision: Decision)
    requires Inv(limits, s) && key in s.waiters
    requires decision == Always ==> (s.waiters[key].session, s.waiters[key].digest) in s.granted
    ensures Inv(limits, Settle(s, key, decision))
  {
    assert WaiterOk(s, key);
    SettleLinked(s, key, decision);
    SameInFlight(s, Settle(s, key, decision));
    CarriedOk(limits, s, Settle(s, key, decision));
  }

  lemma AnswerKeeps(limits: Limits, s: State, r: nat, decision: Decision, source: Option<(nat, string)>)
    requires Inv(limits, s) && r in InFlight(s) && !s.requests[r].Waiting?
    requires decision == Always ==> source.Some? && Granted(s, source.value.0, source.value.1)
    ensures Inv(limits, Answer(s, r, decision, source))
  {
    AnswerLinked(s, r, decision, source);
    AnswerCounted(limits, s, r, decision, source);
    CarriedOk(limits, s, Answer(s, r, decision, source));
  }

  lemma SameKeys<K, V>(m: map<K, V>, k: K, v: V)
    requires k in m
    ensures m[k := v].Keys == m.Keys && |m[k := v]| == |m|
  {
    assert m[k := v].Keys == m.Keys;
    assert |m[k := v]| == |m[k := v].Keys| && |m| == |m.Keys|;
  }

  lemma ConcludeLinked(s: State, r: nat, p: Phase, decision: Decision)
    requires Linked(s) && r in s.requests && s.requests[r] == p && Unfinished(p) && !p.Waiting? && p.record in s.records
    requires decision == Always ==> Granted(s, p.record, p.id)
    ensures Linked(Conclude(s, r, p.record, p.id, p.digest, decision))
  {
    var t := Conclude(s, r, p.record, p.id, p.digest, decision);
    assert RequestOk(s, r);
    SameKeys(s.records[p.record].replays, p.id, Replay(p.digest, true, decision));
    forall q | q in t.requests
      ensures RequestOk(t, q)
    {
      assert RequestOk(s, q) && PairOk(s, q, r);
    }
    StillLinked(s, t);
  }

  lemma ConcludeKeeps(limits: Limits, s: State, r: nat, p: Phase, decision: Decision)
    requires Inv(limits, s) && r in s.requests && s.requests[r] == p && Unfinished(p) && !p.Waiting? && p.record in s.records
    requires decision == Always ==> Granted(s, p.record, p.id)
    ensures Inv(limits, Conclude(s, r, p.record, p.id, p.digest, decision))
  {
    var t := Conclude(s, r, p.record, p.id, p.digest, decision);
    ConcludeLinked(s, r, p, decision);
    assert InFlight(t) == InFlight(s) - {r};
    CarriedOk(limits, s, t);
  }

  // ---- what each step keeps ------------------------------------------------------------------------

  lemma ArrivedLinked(s: State, r: nat, p: Phase, counted: int)
    requires Linked(s) && r !in s.requests && (p.Reading? || p == Answered(Reject, None))
    ensures Linked(s.(requests := s.requests[r := p], pendingCount := counted))
  {
    var t := s.(requests := s.requests[r := p], pendingCount := counted);
    StillLinked(s, t);
  }

  lemma OneMoreRequest(s: State, t: State, r: nat, p: Phase)
    requires r !in s.requests && t.requests == s.requests[r := p]
    ensures |InFlight(t)| == |InFlight(s)| + if p.Answered? then 0 else 1
  {
    assert InFlight(t) == InFlight(s) + if p.Answered? then {} else {r};
  }

  lemma ArriveCounted(limits: Limits, s: State, r: nat, preflight: Preflight)
    requires Counted(limits, s) && r !in s.requests
    ensures Counted(limits, OnArrive(limits, s, r, preflight))
  {
    var t := OnArrive(limits, s, r, preflight);
    OneMoreRequest(s, t, r, t.requests[r]);
  }

  lemma ArriveKeeps(limits: Limits, s: State, r: nat, preflight: Preflight)
    requires Inv(limits, s) && r !in s.requests
    ensures Inv(limits, OnArrive(limits, s, r, preflight))
  {
    var t := OnArrive(limits, s, r, preflight);
    ArrivedLinked(s, r, t.requests[r], t.pendingCount);
    ArriveCounted(limits, s, r, preflight);
    CarriedOk(limits, s, t);
  }

  function Started(s: State, r: nat, record: nat, id: string, digest: string): State
    requires record in s.records
  {
    SetReplay(s, record, id, Replay(digest, false, Reject)).(requests := s.requests[r := Mapping(record, id, digest)])
  }

  lemma StartedLinked(s: State, r: nat, record: nat, id: string, digest: string)
    requires Linked(s) && CreatedOk(s) && r in s.requests && s.requests[r].Reading?
    requires record in s.records && id !in s.records[record].replays && |s.records[record].replays| < MAX_REPLAYS
    ensures Linked(Started(s, r, record, id, digest))
  {
    var t := Started(s, r, record, id, digest);
    forall q | q in s.requests && Unfinished(s.requests[q]) && s.requests[q].record == record
      ensures s.requests[q].id != id
    {
      assert RequestOk(s, q);
    }
    StillLinked(s, t);
  }

  lemma StartedKeeps(limits: Limits, s: State, r: nat, record: nat, id: string, digest: string)
    requires Inv(limits, s) && r in s.requests && s.requests[r].Reading?
    requires record in s.records && id !in s.records[record].replays && |s.records[record].replays| < MAX_REPLAYS
    ensures Inv(limits, Started(s, r, record, id, digest))
  {
    var t := Started(s, r, record, id, digest);
    StartedLinked(s, r, record, id, digest);
    SameInFlight(s, t);
    CarriedOk(limits, s, t);
  }

  lemma BodyReadKeeps(limits: Limits, s: State, r: nat, body: Option<Body>)
    requires Inv(limits, s) && r in s.requests && s.requests[r].Reading?
    ensures Inv(limits, OnBodyRead(s, r, body))
  {
    if body.Some? && body.value.wellFormed && Authorized(s, body.value).Some? {
      var record, id := Authorized(s, body.value).value, body.value.id;
      assert RecordOk(s, record);
      if id in s.records[record].replays {
        AnswerKeeps(limits, s, r, s.records[record].replays[id].decision, Some((record, id)));
        AnswerKeeps(limits, s, r, Reject, None);
      } else if |s.records[record].replays| >= MAX_REPLAYS {
        AnswerKeeps(limits, s, r, Reject, None);
      } else {
        StartedKeeps(limits, s, r, record, id, body.value.digest);
      }
    } else {
      AnswerKeeps(limits, s, r, Reject, None);
    }
  }

  function Asking(s: State, r: nat, p: Phase, mapped: string): State
    requires p.Mapping?
  {
    s.(mappings := s.mappings[(p.record, p.id) := mapped],
       requests := s.requests[r := Creating(p.record, p.id, p.digest, mapped, s.permissions)],
       permissions := s.permissions + 1, created := s.created + [(p.record, p.id)])
  }

  lemma AskingLinked(s: State, r: nat, p: Phase, mapped: string)
    requires Linked(s) && r in s.requests && s.requests[r] == p && p.Mapping? && p.record in s.records
    ensures Linked(Asking(s, r, p, mapped))
  {
    var t := Asking(s, r, p, mapped);
    assert RequestOk(s, r);
    forall q | q in t.requests
      ensures RequestOk(t, q)
    {
      assert RequestOk(s, q) && PairOk(s, q, r);
    }
    forall q, u | q in t.requests && u in t.requests
      ensures PairOk(t, q, u)
    {
      assert PairOk(s, q, u) && RequestOk(s, q) && RequestOk(s, u);
    }
    StillLinked(s, t);
  }

  lemma AskingKeeps(limits: Limits, s: State, r: nat, p: Phase, mapped: string)
    requires Inv(limits, s) && r in s.requests && s.requests[r] == p && p.Mapping? && p.record in s.records
    ensures Inv(limits, Asking(s, r, p, mapped))
  {
    var t := Asking(s, r, p, mapped);
    assert RequestOk(s, r);
    AskingLinked(s, r, p, mapped);
    SameInFlight(s, t);
  }

  function FromCache(s: State, r: nat, p: Phase, mapped: string): State
    requires p.Mapping? && p.record in s.records
  {
    Conclude(s.(mappings := s.mappings[(p.record, p.id) := mapped]), r, p.record, p.id, p.digest, Always)
  }

  lemma FromCacheGrants(s: State, r: nat, p: Phase, mapped: string)
    requires p.Mapping? && p.record in s.records && (p.record, p.id) !in s.mappings
    requires (s.records[p.record].session, mapped) in s.granted
    ensures forall i, id :: Granted(s, i, id) ==> Granted(FromCache(s, r, p, mapped), i, id)
    ensures Granted(FromCache(s, r, p, mapped), p.record, p.id)
  {
  }

  lemma FromCacheLinked(s: State, r: nat, p: Phase, mapped: string)
    requires Linked(s) && r in s.requests && s.requests[r] == p && p.Mapping? && p.record in s.records
    requires (s.records[p.record].session, mapped) in s.granted
    ensures Linked(FromCache(s, r, p, mapped))
  {
    var t := FromCache(s, r, p, mapped);
    assert RequestOk(s, r);
    FromCacheGrants(s, r, p, mapped);
    SameKeys(s.records[p.record].replays, p.id, Replay(p.digest, true, Always));
    forall q | q in t.requests
      ensures RequestOk(t, q)
    {
      assert RequestOk(s, q) && PairOk(s, q, r);
    }
    StillLinked(s, t);
  }

  lemma FromCacheKeeps(limits: Limits, s: State, r: nat, p: Phase, mapped: string)
    requires Inv(limits, s) && r in s.requests && s.requests[r] == p && p.Mapping? && p.record in s.records
    requires (s.records[p.record].session, mapped) in s.granted
    ensures Inv(limits, FromCache(s, r, p, mapped))
  {
    var t := FromCache(s, r, p, mapped);
    assert RequestOk(s, r);
    FromCacheLinked(s, r, p, mapped);
    assert InFlight(t) == InFlight(s) - {r};
  }

  lemma MappedKeeps(limits: Limits, s: State, r: nat, mapped: Option<string>)
    requires Inv(limits, s) && r in s.requests && s.requests[r].Mapping? && s.requests[r].record in s.records
    ensures Inv(limits, OnMapped(s, r, s.requests[r], mapped))
  {
    var p := s.requests[r];
    if mapped.None? {
      ConcludeKeeps(limits, s, r, p, Reject);
    } else if Approved(s, s.records[p.record].session, mapped.value) {
      FromCacheKeeps(limits, s, r, p, mapped.value);
    } else {
      AskingKeeps(limits, s, r, p, mapped.value);
    }
  }

  function Suspended(s: State, r: nat, p: Phase): State
    requires p.Creating? && p.record in s.records
  {
    var session := s.records[p.record].session;
    s.(waiters := s.waiters[(session, p.permission) := Waiter(p.record, session, p.mapped, r)],
       requests := s.requests[r := Waiting(p.record, p.id, p.digest, p.mapped, p.permission)])
  }

  lemma SuspendedLinked(s: State, r: nat, p: Phase)
    requires Linked(s) && r in s.requests && s.requests[r] == p && p.Creating? && p.record in s.records
    ensures Linked(Suspended(s, r, p))
  {
    var t, key := Suspended(s, r, p), (s.records[p.record].session, p.permission);
    assert RequestOk(s, r);
    forall k | k in s.waiters
      ensures k != key
    {
      assert WaiterOk(s, k) && PairOk(s, r, s.waiters[k].request);
    }
    forall q | q in t.requests
      ensures RequestOk(t, q)
    {
      assert RequestOk(s, q) && PairOk(s, q, r);
    }
    StillLinked(s, t);
  }

  lemma SuspendedKeeps(limits: Limits, s: State, r: nat, p: Phase)
    requires Inv(limits, s) && r in s.requests && s.requests[r] == p && p.Creating? && p.record in s.records
    ensures Inv(limits, Suspended(s, r, p))
  {
    SuspendedLinked(s, r, p);
    SameInFlight(s, Suspended(s, r, p));
    CarriedOk(limits, s, Suspended(s, r, p));
  }

  lemma HangupKeeps(limits: Limits, s: State, key: WaiterKey)
    requires Inv(limits, s) && key in s.waiters && s.waiters[key].record in s.records
    ensures Inv(limits, Hangup(s, key))
  {
    var rec := s.records[s.waiters[key].record];
    var t := InvalidateAll(s, {(rec.session, rec.call)});
    InvalidateKeeps(limits, s, {(rec.session, rec.call)});
    if key in t.waiters {
      SettleKeeps(limits, t, key, Reject);
    }
  }

  lemma CreatedKeeps(limits: Limits, s: State, r: nat, effect: Effect, gone: bool)
    requires Inv(limits, s) && r in s.requests && s.requests[r].Creating? && s.requests[r].record in s.records
    ensures Inv(limits, OnCreated(s, r, s.requests[r], effect, gone))
  {
    var p := s.requests[r];
    match effect
    case Allow => ConcludeKeeps(limits, s, r, p, Once);
    case Deny => ConcludeKeeps(limits, s, r, p, Reject);
    case Ask =>
      SuspendedKeeps(limits, s, r, p);
      if gone {
        HangupKeeps(limits, Suspended(s, r, p), (s.records[p.record].session, p.permission));
      }
  }

  lemma CachedLinked(s: State, session: string, digest: string)
    requires Linked(s)
    ensures Linked(Cached(s, session, digest))
  {
    var t := Cached(s, session, digest);
    StillLinked(s, t);
  }

  lemma CachedOk(limits: Limits, s: State, session: string, digest: string)
    requires CacheOk(limits, s) && Cacheable(limits, s, session, digest)
    ensures CacheOk(limits, Cached(s, session, digest))
  {
    var t := Cached(s, session, digest);
    if session in s.approvals {
      SameKeys(s.approvals, session, t.approvals[session]);
      if digest in s.approvals[session] {
        assert s.approvals[session] + {digest} == s.approvals[session];
      }
    }
  }

  lemma CachedKeeps(limits: Limits, s: State, session: string, digest: string)
    requires Inv(limits, s) && Cacheable(limits, s, session, digest)
    ensures Inv(limits, Cached(s, session, digest))
  {
    CachedLinked(s, session, digest);
    CachedOk(limits, s, session, digest);
    SameInFlight(s, Cached(s, session, digest));
  }

  lemma RepliedKeeps(limits: Limits, s: State, key: WaiterKey, reply: Reply)
    requires Inv(limits, s) && key in s.waiters && s.waiters[key].record in s.records
    ensures Inv(limits, OnReplied(limits, s, key, reply))
  {
    var w := s.waiters[key];
    match reply
    case ReplyAlways =>
      if s.records[w.record].valid && Cacheable(limits, s, w.session, w.digest) {
        CachedKeeps(limits, s, w.session, w.digest);
        SettleKeeps(limits, Cached(s, w.session, w.digest), key, Always);
      } else {
        SettleKeeps(limits, s, key, Reject);
      }
    case ReplyOnce => SettleKeeps(limits, s, key, Once);
    case ReplyOther => SettleKeeps(limits, s, key, Reject);
  }

  lemma NewRecordLinked(s: State, session: string, call: string, record: nat)
    requires Linked(s) && record !in s.records && (session, call) !in s.invocations
    ensures Linked(s.(records := s.records[record := Record(session, call, true, map[])],
                      invocations := s.invocations[(session, call) := record]))
  {
    var t := s.(records := s.records[record := Record(session, call, true, map[])],
                invocations := s.invocations[(session, call) := record]);
    StillLinked(s, t);
  }

  lemma ToolStartsKeeps(limits: Limits, s: State, session: string, call: string, record: nat)
    requires Inv(limits, s) && record !in s.records
    ensures Inv(limits, OnToolStarts(s, session, call, record))
  {
    var u, t := InvalidateAll(s, {(session, call)}), OnToolStarts(s, session, call, record);
    InvalidateKeeps(limits, s, {(session, call)});
    NewRecordLinked(u, session, call, record);
    SameInFlight(u, t);
    CarriedOk(limits, u, t);
  }

  lemma ApprovalsDropped(limits: Limits, s: State, approvals: map<string, set<string>>, disposed: bool)
    requires Inv(limits, s) && approvals.Keys <= s.approvals.Keys
    requires forall session :: session in approvals ==> approvals[session] == s.approvals[session]
    ensures Inv(limits, s.(approvals := approvals, disposed := disposed))
  {
    var t := s.(approvals := approvals, disposed := disposed);
    StillLinked(s, t);
    SameInFlight(s, t);
    SubsetIsNoLarger(approvals.Keys, s.approvals.Keys);
    assert |approvals| == |approvals.Keys| && |s.approvals| == |s.approvals.Keys|;
  }

  lemma SessionDeletedKeeps(limits: Limits, s: State, session: string)
    requires Inv(limits, s)
    ensures Inv(limits, OnSessionDeleted(s, session))
  {
    ApprovalsDropped(limits, s, s.approvals - {session}, s.disposed);
    InvalidateKeeps(limits, s.(approvals := s.approvals - {session}), CallsOf(s.invocations, session));
  }

  lemma DisposeKeeps(limits: Limits, s: State)
    requires Inv(limits, s)
    ensures Inv(limits, OnDispose(s))
  {
    if !s.disposed {
      var t := InvalidateAll(s, s.invocations.Keys);
      InvalidateKeeps(limits, s, s.invocations.Keys);
      ApprovalsDropped(limits, t, map[], true);
      RejectKeeps(limits, t.(disposed := true, approvals := map[]), t.records.Keys);
    }
  }
}
