/**
 The permission broker between its awaits. Requests, OpenCode events and tool calls interleave;
 every step below runs without interruption and is a function from state to state.
 */
module BrokerState {
  import opened Wrappers

  const MAX_REPLAYS := 128

  datatype Limits = Limits(maxPending: nat, maxApprovalSessions: nat, maxApprovalsPerSession: nat)

  datatype Decision = Reject | Once | Always

  /** What is remembered of a request id. */
  datatype Replay = Replay(digest: string, done: bool, decision: Decision)

  /** One tool call that may ask for permissions; requests in flight keep it after it is replaced. */
  datatype Record = Record(session: string, call: string, valid: bool, replays: map<string, Replay>)

  type CallKey = (string, string)

  type WaiterKey = (string, nat)

  datatype Waiter = Waiter(record: nat, session: string, digest: string, request: nat)

  /** Where a request is suspended; `permission` is the random id under which OpenCode is asked. */
  datatype Phase =
    | Reading
    | Mapping(record: nat, id: string, digest: string)
    | Creating(record: nat, id: string, digest: string, mapped: string, permission: nat)
    | Waiting(record: nat, id: string, digest: string, mapped: string, permission: nat)
    | Resolved(record: nat, id: string, digest: string, mapped: string, decision: Decision)
    | Answered(decision: Decision, source: Option<(nat, string)>)

  /**
     `created`, `mappings` and `granted` are history: the permissions asked for, what each request was mapped
     to, and the digests that an "always" reply was accepted for.
   */
  datatype State = State(
    pendingCount: int, disposed: bool, requests: map<nat, Phase>, records: map<nat, Record>, invocations: map<CallKey, nat>,
    waiters: map<WaiterKey, Waiter>, approvals: map<string, set<string>>, permissions: nat,
    created: seq<(nat, string)>, mappings: map<(nat, string), string>, granted: set<(string, string)>)

  function Initial(): State {
    State(0, false, map[], map[], map[], map[], map[], 0, [], map[], {})
  }

  // ---- pieces of steps ----------------------------------------------------------------------

  /** The request is answered and no longer counted. */
  function Answer(s: State, r: nat, decision: Decision, source: Option<(nat, string)>): (t: State)
    ensures t.granted == s.granted
  {
    s.(requests := s.requests[r := Answered(decision, source)], pendingCount := s.pendingCount - 1)
  }

  function SetReplay(s: State, record: nat, id: string, replay: Replay): (t: State)
    ensures t.granted == s.granted
    requires record in s.records
  {
    var rec := s.records[record];
    s.(records := s.records[record := rec.(replays := rec.replays[id := replay])])
  }

  function Conclude(s: State, r: nat, record: nat, id: string, digest: string, decision: Decision): (t: State)
    ensures t.granted == s.granted
    requires record in s.records
  {
    Answer(SetReplay(s, record, id, Replay(digest, true, decision)), r, decision, Some((record, id)))
  }

  function ResolvedPhase(p: Phase, decision: Decision): Phase {
    if p.Waiting? then Resolved(p.record, p.id, p.digest, p.mapped, decision) else p
  }

  /** One waiter is settled: it is gone, and its request will go on with the decision. */
  function Settle(s: State, key: WaiterKey, decision: Decision): (t: State)
    ensures t.granted == s.granted
    requires key in s.waiters
  {
    var r := s.waiters[key].request;
    s.(waiters := s.waiters - {key},
       requests := if r in s.requests then s.requests[r := ResolvedPhase(s.requests[r], decision)] else s.requests)
  }

  /** All waiters of a set of records are rejected. */
  function RejectWaiters(s: State, doomed: set<nat>): (t: State)
    ensures t.granted == s.granted
  {
    s.(waiters := map k | k in s.waiters && s.waiters[k].record !in doomed :: s.waiters[k],
       requests := map r | r in s.requests ::
         if s.requests[r].Waiting? && s.requests[r].record in doomed then ResolvedPhase(s.requests[r], Reject) else s.requests[r])
  }

  function RecordsOf(s: State, keys: set<CallKey>): set<nat> {
    set k | k in keys && k in s.invocations :: s.invocations[k]
  }

  /** The calls can no longer be looked up and their records are invalid. */
  function Forget(s: State, keys: set<CallKey>): (t: State)
    ensures t.granted == s.granted
  {
    var doomed := RecordsOf(s, keys);
    s.(invocations := s.invocations - keys,
       records := map i | i in s.records :: if i in doomed then s.records[i].(valid := false) else s.records[i])
  }

  /** The calls are forgotten and their waiters rejected. */
  function InvalidateAll(s: State, keys: set<CallKey>): (t: State)
    ensures t.granted == s.granted
  {
    RejectWaiters(Forget(s, keys), RecordsOf(s, keys))
  }

  function Approved(s: State, session: string, digest: string): bool {
    session in s.approvals && digest in s.approvals[session]
  }

  /** Whether the digest is in the cache, or fits into it. */
  predicate Cacheable(limits: Limits, s: State, session: string, digest: string) {
    || Approved(s, session, digest)
    || (&& (session in s.approvals || |s.approvals| < limits.maxApprovalSessions)
        && (if session in s.approvals then |s.approvals[session]| else 0) < limits.maxApprovalsPerSession)
  }

  function Cached(s: State, session: string, digest: string): State {
    s.(approvals := s.approvals[session := (if session in s.approvals then s.approvals[session] else {}) + {digest}],
       granted := s.granted + {(session, digest)})
  }

  // ---- the steps ------------------------------------------------------------------------------

  /** What the head of a request fails on, if anything. */
  datatype Preflight = NotFound | NoLength | TooLarge | Fine

  /** A parsed body: whether its fields are acceptable, and the record whose secrets it presents. */
  datatype Body = Body(wellFormed: bool, id: string, session: string, call: string, credentials: nat, digest: string)

  datatype Effect = Allow | Ask | Deny

  datatype Reply = ReplyAlways | ReplyOnce | ReplyOther

  datatype Event =
    | Arrive(request: nat, preflight: Preflight)
    | BodyRead(request: nat, body: Option<Body>)
    | Mapped(request: nat, mapped: Option<string>)
    | MappingFailed(request: nat)
    | Created(request: nat, effect: Effect, gone: bool)
    | Replied(session: string, permission: nat, reply: Reply)
    | Disconnected(request: nat)
    | Resumed(request: nat)
    | ToolStarts(session: string, call: string, record: nat)
    | ToolEnds(session: string, call: string)
    | SessionDeleted(session: string)
    | Dispose

  function OnArrive(limits: Limits, s: State, r: nat, preflight: Preflight): (t: State)
    ensures t.granted == s.granted
  {
    if s.disposed || preflight.NotFound? || s.pendingCount >= limits.maxPending || !preflight.Fine? then
      s.(requests := s.requests[r := Answered(Reject, None)])
    else s.(requests := s.requests[r := Reading], pendingCount := s.pendingCount + 1)
  }

  /** The record that the body names, if its secrets are those of that record. */
  function Authorized(s: State, body: Body): Option<nat> {
    if (body.session, body.call) in s.invocations then
      var i := s.invocations[(body.session, body.call)];
      if i in s.records && s.records[i].valid && body.credentials == i then Some(i) else None
    else None
  }

  function OnBodyRead(s: State, r: nat, body: Option<Body>): (t: State)
    ensures t.granted == s.granted
  {
    if body.None? || !body.value.wellFormed || Authorized(s, body.value).None? then Answer(s, r, Reject, None)
    else
      var record, id, digest := Authorized(s, body.value).value, body.value.id, body.value.digest;
      var replays := s.records[record].replays;
      if id in replays then
        if replays[id].digest == digest && replays[id].done then Answer(s, r, replays[id].decision, Some((record, id)))
        else Answer(s, r, Reject, None)
      else if |replays| >= MAX_REPLAYS then Answer(s, r, Reject, None)
      else
        SetReplay(s, record, id, Replay(digest, false, Reject)).(requests := s.requests[r := Mapping(record, id, digest)])
  }

  function OnMapped(s: State, r: nat, p: Phase, mapped: Option<string>): (t: State)
    ensures t.granted == s.granted
    requires p.Mapping? && p.record in s.records
  {
    if mapped.None? then Conclude(s, r, p.record, p.id, p.digest, Reject)
    else
      var t := s.(mappings := s.mappings[(p.record, p.id) := mapped.value]);
      if Approved(s, s.records[p.record].session, mapped.value) then Conclude(t, r, p.record, p.id, p.digest, Always)
      else
        t.(requests := s.requests[r := Creating(p.record, p.id, p.digest, mapped.value, s.permissions)],
           permissions := s.permissions + 1, created := s.created + [(p.record, p.id)])
  }

  function OnCreated(s: State, r: nat, p: Phase, effect: Effect, gone: bool): (t: State)
    ensures t.granted == s.granted
    requires p.Creating? && p.record in s.records
  {
    match effect
    case Allow => Conclude(s, r, p.record, p.id, p.digest, Once)
    case Deny => Conclude(s, r, p.record, p.id, p.digest, Reject)
    case Ask =>
      var rec := s.records[p.record];
      var key := (rec.session, p.permission);
      var t := s.(waiters := s.waiters[key := Waiter(p.record, rec.session, p.mapped, r)],
                  requests := s.requests[r := Waiting(p.record, p.id, p.digest, p.mapped, p.permission)]);
      if gone then Hangup(t, key) else t
  }

  /** The peer went away: its call is invalidated and the waiter, if still there, rejected. */
  function Hangup(s: State, key: WaiterKey): (t: State)
    ensures t.granted == s.granted
    requires key in s.waiters && s.waiters[key].record in s.records
  {
    var rec := s.records[s.waiters[key].record];
    var t := InvalidateAll(s, {(rec.session, rec.call)});
    if key in t.waiters then Settle(t, key, Reject) else t
  }

  function OnReplied(limits: Limits, s: State, key: WaiterKey, reply: Reply): State
    requires key in s.waiters && s.waiters[key].record in s.records
  {
    var w := s.waiters[key];
    match reply
    case ReplyAlways =>
      if s.records[w.record].valid && Cacheable(limits, s, w.session, w.digest) then Settle(Cached(s, w.session, w.digest), key, Always)
      else Settle(s, key, Reject)
    case ReplyOnce => Settle(s, key, Once)
    case ReplyOther => Settle(s, key, Reject)
  }

  function WaiterOf(s: State, r: nat): WaiterKey
    requires r in s.requests && s.requests[r].Waiting? && s.requests[r].record in s.records
  {
    (s.records[s.requests[r].record].session, s.requests[r].permission)
  }

  function OnResumed(s: State, r: nat): (t: State)
    ensures t.granted == s.granted
    requires r in s.requests && s.requests[r].Resolved? && s.requests[r].record in s.records
  {
    var p := s.requests[r];
    Conclude(s, r, p.record, p.id, p.digest, p.decision)
  }

  function OnToolStarts(s: State, session: string, call: string, record: nat): (t: State)
    ensures t.granted == s.granted
  {
    var t := InvalidateAll(s, {(session, call)});
    t.(records := t.records[record := Record(session, call, true, map[])], invocations := t.invocations[(session, call) := record])
  }

  function CallsOf(invocations: map<CallKey, nat>, session: string): set<CallKey> {
    set k | k in invocations && k.0 == session
  }

  function OnSessionDeleted(s: State, session: string): (t: State)
    ensures t.granted == s.granted
  {
    InvalidateAll(s.(approvals := s.approvals - {session}), CallsOf(s.invocations, session))
  }

  function OnDispose(s: State): (t: State)
    ensures t.granted == s.granted
  {
    if s.disposed then s
    else
      var t := InvalidateAll(s, s.invocations.Keys);
      RejectWaiters(t.(disposed := true, approvals := map[]), t.records.Keys)
  }

  /** Whether the event can happen now: each continuation belongs to one suspended request. */
  predicate Due(s: State, e: Event) {
    match e
    case Arrive(r, _) => r !in s.requests
    case BodyRead(r, _) => r in s.requests && s.requests[r].Reading?
    case Mapped(r, _) => r in s.requests && s.requests[r].Mapping?
    case MappingFailed(r) => r in s.requests && s.requests[r].Mapping?
    case Created(r, _, _) => r in s.requests && s.requests[r].Creating?
    case Replied(session, permission, _) => (session, permission) in s.waiters
    case Disconnected(r) => r in s.requests && s.requests[r].Waiting?
    case Resumed(r) => r in s.requests && s.requests[r].Resolved?
    case ToolStarts(_, _, record) => record !in s.records
    case _ => true
  }

  /** What the step looks up is there; that it always is, is proved of every run. */
  predicate Known(s: State, e: Event) {
    match e
    case Mapped(r, _) => r in s.requests && s.requests[r].Mapping? && s.requests[r].record in s.records
    case Created(r, _, _) => r in s.requests && s.requests[r].Creating? && s.requests[r].record in s.records
    case Replied(session, permission, _) =>
      (session, permission) in s.waiters && s.waiters[(session, permission)].record in s.records
    case Disconnected(r) =>
      && r in s.requests && s.requests[r].Waiting? && s.requests[r].record in s.records
      && WaiterOf(s, r) in s.waiters && s.waiters[WaiterOf(s, r)].record in s.records
    case Resumed(r) => r in s.requests && s.requests[r].Resolved? && s.requests[r].record in s.records
    case _ => true
  }

  function Step(limits: Limits, s: State, e: Event): State
    requires Due(s, e) && Known(s, e)
  {
    match e
    case Arrive(r, preflight) => OnArrive(limits, s, r, preflight)
    case BodyRead(r, body) => OnBodyRead(s, r, body)
    case Mapped(r, mapped) => OnMapped(s, r, s.requests[r], mapped)
    case MappingFailed(r) => Answer(s, r, Reject, None)
    case Created(r, effect, gone) => OnCreated(s, r, s.requests[r], effect, gone)
    case Replied(session, permission, reply) => OnReplied(limits, s, (session, permission), reply)
    case Disconnected(r) => Hangup(s, WaiterOf(s, r))
    case Resumed(r) => OnResumed(s, r)
    case ToolStarts(session, call, record) => OnToolStarts(s, session, call, record)
    case ToolEnds(session, call) => InvalidateAll(s, {(session, call)})
    case SessionDeleted(session) => OnSessionDeleted(s, session)
    case Dispose => OnDispose(s)
  }

  function Run(limits: Limits, events: seq<Event>): State {
    if events == [] then Initial()
    else
      var s, e := Run(limits, events[..|events| - 1]), events[|events| - 1];
      if Due(s, e) && Known(s, e) then Step(limits, s, e) else s
  }
}
