/**
 Durable delivery: events are queued on disk, posted to the collector by any number of flushes at
 once, and deleted after an acknowledgement. Flushes may die anywhere, answers may get lost, and the
 collector may work on a post long after the sender has given up.
 */
module Outbox {
  import opened Wrappers

  datatype WireEvent = WireEvent(id: string, guest: string, project: string, payload: string)

  datatype Row = Row(event: WireEvent, attempts: nat, nextAttempt: int)

  /** The receipt the collector keeps of an event. */
  type Key = (string, string, string)

  function KeyOf(e: WireEvent): Key {
    (e.id, e.guest, e.project)
  }

  /** A request on its way; the collector answers it at most once. */
  datatype Post = Post(event: WireEvent, memory: Option<int>)

  datatype Pending = Pending(event: WireEvent, attempts: nat)

  /** What a flush is about to do with the first of its batch. */
  datatype Stage = Next | Sent(post: nat) | Outcome(success: bool)

  datatype Flush = Flush(batch: seq<Pending>, stage: Stage)

  /** `enqueued` is history: every event that was accepted into the queue. */
  datatype State = State(queue: seq<Row>, posts: seq<Post>, flushes: map<nat, Flush>, memories: seq<WireEvent>,
                         receipts: map<Key, nat>, enqueued: set<WireEvent>)

  function Initial(): State {
    State([], [], map[], [], map[], {})
  }

  const U32_MAX := 0xffff_ffff

  function SaturatingNext(attempts: nat): nat {
    if attempts >= U32_MAX then U32_MAX else attempts + 1
  }

  function Pow2(n: nat): nat {
    if n == 0 then 1 else 2 * Pow2(n - 1)
  }

  /** Seconds until the next attempt. */
  function RetryDelay(attempts: nat): nat {
    if attempts >= 9 then 300 else Pow2(attempts)
  }

  lemma {:induction false} PowMonotone(a: nat, b: nat)
    requires a <= b
    ensures Pow2(a) <= Pow2(b)
    decreases b
  {
    if a < b {
      PowMonotone(a, b - 1);
    }
  }

  /** The delay doubles up to five minutes. */
  lemma RetryDelayIsCapped(attempts: nat)
    ensures RetryDelay(attempts) == if Pow2(attempts) < 300 then Pow2(attempts) else 300
  {
    assert Pow2(8) == 256 by {
      assert Pow2(2) == 4 && Pow2(4) == 16 && Pow2(6) == 64;
    }
    assert Pow2(9) == 2 * Pow2(8);
    if attempts >= 9 {
      PowMonotone(9, attempts);
    } else {
      PowMonotone(attempts, 8);
    }
  }

  // ---- the queue -------------------------------------------------------------------------------

  predicate Queued(queue: seq<Row>, id: string) {
    exists i :: 0 <= i < |queue| && queue[i].event.id == id
  }

  function Deleted(queue: seq<Row>, id: string): (left: seq<Row>)
    ensures forall r :: r in left <==> r in queue && r.event.id != id
  {
    if queue == [] then []
    else (if queue[0].event.id == id then [] else [queue[0]]) + Deleted(queue[1..], id)
  }

  function Rescheduled(queue: seq<Row>, id: string, attempts: nat, next: int): (left: seq<Row>)
    ensures |left| == |queue|
    ensures forall i :: 0 <= i < |queue| ==>
      left[i] == if queue[i].event.id == id then Row(queue[i].event, attempts, next) else queue[i]
  {
    seq(|queue|, i requires 0 <= i < |queue| => if queue[i].event.id == id then Row(queue[i].event, attempts, next) else queue[i])
  }

  predicate QueuedAs(queue: seq<Row>, e: WireEvent) {
    exists i :: 0 <= i < |queue| && queue[i].event == e
  }

  /** An id that is queued is accepted again only with the same event, and then nothing changes. */
  function OnEnqueue(s: State, e: WireEvent): Result<State> {
    if QueuedAs(s.queue, e) then Ok(s)
    else if Queued(s.queue, e.id) then Err
    else Ok(s.(queue := s.queue + [Row(e, 0, 0)], enqueued := s.enqueued + {e}))
  }

  // ---- the collector -----------------------------------------------------------------------------

  /** A receipt decides: the event is stored once, and later deliveries get the memory of the first. Ids are positive. */
  function OnIngest(s: State, i: nat): State
    requires i < |s.posts|
  {
    var e := s.posts[i].event;
    if KeyOf(e) in s.receipts then s.(posts := s.posts[i := Post(e, Some(s.receipts[KeyOf(e)]))])
    else
      s.(memories := s.memories + [e], receipts := s.receipts[KeyOf(e) := |s.memories| + 1],
         posts := s.posts[i := Post(e, Some(|s.memories| + 1))])
  }

  // ---- a flush -------------------------------------------------------------------------------------

  function Pendings(queue: seq<Row>, chosen: seq<nat>): seq<Pending>
    requires forall i :: 0 <= i < |chosen| ==> chosen[i] < |queue|
  {
    seq(|chosen|, i requires 0 <= i < |chosen| => Pending(queue[chosen[i]].event, queue[chosen[i]].attempts))
  }

  function SetFlush(s: State, f: nat, flush: Flush): State {
    s.(flushes := s.flushes[f := flush])
  }

  function OnSend(s: State, f: nat, flush: Flush): State
    requires flush.batch != []
  {
    SetFlush(s.(posts := s.posts + [Post(flush.batch[0].event, None)]), f, flush.(stage := Sent(|s.posts|)))
  }

  /** An answer is an acknowledgement only with a positive memory id. */
  function OnAnswer(s: State, f: nat, flush: Flush, delivered: bool): State
    requires flush.stage.Sent?
  {
    var i := flush.stage.post;
    SetFlush(s, f, flush.(stage := Outcome(delivered && i < |s.posts| && s.posts[i].memory.Some? && s.posts[i].memory.value > 0)))
  }

  /** The row is deleted, or put off. */
  function OnUpdate(s: State, f: nat, flush: Flush, now: int): State
    requires flush.stage.Outcome? && flush.batch != []
  {
    var item := flush.batch[0];
    var queue := if flush.stage.success then Deleted(s.queue, item.event.id)
                 else var attempts := SaturatingNext(item.attempts); Rescheduled(s.queue, item.event.id, attempts, now + 1000 * RetryDelay(attempts));
    SetFlush(s.(queue := queue), f, Flush(flush.batch[1..], Next))
  }

  datatype Event =
    | Enqueue(event: WireEvent)
    | Select(f: nat, chosen: seq<nat>)
    | Send(f: nat)
    | Ingest(post: nat)
    | Answer(f: nat, delivered: bool)
    | Update(f: nat, now: int)
    | Die(f: nat)

  /** Answered posts are not answered again; a flush does one thing after the other. */
  function Step(s: State, e: Event): State {
    match e
    case Enqueue(event) => var r := OnEnqueue(s, event); if r.Ok? then r.value else s
    case Select(f, chosen) =>
      if f !in s.flushes && forall i :: 0 <= i < |chosen| ==> chosen[i] < |s.queue| then
        SetFlush(s, f, Flush(Pendings(s.queue, chosen), Next))
      else s
    case Send(f) => if f in s.flushes && s.flushes[f].batch != [] && s.flushes[f].stage.Next? then OnSend(s, f, s.flushes[f]) else s
    case Ingest(i) => if i < |s.posts| && s.posts[i].memory.None? then OnIngest(s, i) else s
    case Answer(f, delivered) => if f in s.flushes && s.flushes[f].stage.Sent? then OnAnswer(s, f, s.flushes[f], delivered) else s
    case Update(f, now) =>
      if f in s.flushes && s.flushes[f].batch != [] && s.flushes[f].stage.Outcome? then OnUpdate(s, f, s.flushes[f], now) else s
    case Die(f) => s.(flushes := s.flushes - {f})
  }

  function Run(events: seq<Event>): State {
    if events == [] then Initial() else Step(Run(events[..|events| - 1]), events[|events| - 1])
  }

  // ---- what every step keeps ------------------------------------------------------------------------

  /** The collector has a memory of this event, or of one with the same key that came first. */
  ghost predicate Received(s: State, key: Key) {
    key in s.receipts && 0 < s.receipts[key] <= |s.memories| && KeyOf(s.memories[s.receipts[key] - 1]) == key
  }

  ghost predicate ReceivedId(s: State, id: string) {
    exists key: Key :: key.0 == id && Received(s, key)
  }

  ghost predicate FlushOk(s: State, f: nat)
    requires f in s.flushes
  {
    var flush := s.flushes[f];
    && (flush.stage.Sent? ==> flush.batch != [] && flush.stage.post < |s.posts| && s.posts[flush.stage.post].event == flush.batch[0].event)
    && (flush.stage.Outcome? && flush.stage.success ==> flush.batch != [] && Received(s, KeyOf(flush.batch[0].event)))
  }

  ghost predicate Inv(s: State) {
    && (forall f {:trigger FlushOk(s, f)} :: f in s.flushes ==> FlushOk(s, f))
    && (forall i :: 0 <= i < |s.posts| && s.posts[i].memory.Some? ==> Received(s, KeyOf(s.posts[i].event)))
    && (forall key {:trigger Received(s, key)} :: key in s.receipts ==> Received(s, key))
    && (forall i :: 0 <= i < |s.memories| ==> KeyOf(s.memories[i]) in s.receipts && s.receipts[KeyOf(s.memories[i])] == i + 1)
    && DistinctIds(s.queue)
    && (forall e {:trigger Accounted(s, e)} :: e in s.enqueued ==> Accounted(s, e))
  }

  ghost predicate Accounted(s: State, e: WireEvent) {
    Queued(s.queue, e.id) || ReceivedId(s, e.id)
  }

  /** Receipts and memories only grow. */
  ghost predicate Kept(s: State, t: State) {
    && s.memories <= t.memories
    && forall key :: key in s.receipts ==> key in t.receipts && t.receipts[key] == s.receipts[key]
  }

  lemma ReceivedStays(s: State, t: State)
    requires Kept(s, t)
    ensures forall key :: Received(s, key) ==> Received(t, key)
    ensures forall id :: ReceivedId(s, id) ==> ReceivedId(t, id)
  {
    forall id | ReceivedId(s, id)
      ensures ReceivedId(t, id)
    {
      var key: Key :| key.0 == id && Received(s, key);
      assert Received(t, key);
    }
  }

  predicate DistinctIds(queue: seq<Row>) {
    forall i, j :: 0 <= i < j < |queue| ==> queue[i].event.id != queue[j].event.id
  }

  lemma {:induction false} DeletedDistinct(queue: seq<Row>, id: string)
    requires DistinctIds(queue)
    ensures DistinctIds(Deleted(queue, id))
  {
    if queue != [] {
      var rest := Deleted(queue[1..], id);
      DeletedDistinct(queue[1..], id);
      forall j | 0 <= j < |rest|
        ensures rest[j].event.id != queue[0].event.id
      {
        assert rest[j] in rest;
      }
    }
  }

  lemma DeletedQueued(queue: seq<Row>, id: string, other: string)
    ensures Queued(Deleted(queue, id), other) <==> Queued(queue, other) && other != id
  {
    var left := Deleted(queue, id);
    if Queued(queue, other) && other != id {
      var i :| 0 <= i < |queue| && queue[i].event.id == other;
      assert queue[i] in left;
    }
    if Queued(left, other) {
      var i :| 0 <= i < |left| && left[i].event.id == other;
      assert left[i] in queue;
    }
  }

  lemma EnqueueKeeps(s: State, e: WireEvent)
    requires Inv(s) && OnEnqueue(s, e).Ok?
    ensures Inv(OnEnqueue(s, e).value)
  {
    var t := OnEnqueue(s, e).value;
    if t != s {
      ReceivedStays(s, t);
      forall f | f in t.flushes
        ensures FlushOk(t, f)
      {
        assert FlushOk(s, f);
      }
      assert t.queue[|s.queue|].event == e;
      forall other | other in t.enqueued
        ensures Accounted(t, other)
      {
        if other != e {
          assert Accounted(s, other);
          if i :| 0 <= i < |s.queue| && s.queue[i].event.id == other.id {
            assert t.queue[i] == s.queue[i];
          }
        }
      }
    }
  }

  lemma IngestKeeps(s: State, i: nat)
    requires Inv(s) && i < |s.posts| && s.posts[i].memory.None?
    ensures Inv(OnIngest(s, i)) && Kept(s, OnIngest(s, i))
  {
    var t := OnIngest(s, i);
    ReceivedStays(s, t);
    forall f | f in t.flushes
      ensures FlushOk(t, f)
    {
      assert FlushOk(s, f);
    }
    forall e | e in t.enqueued
      ensures Accounted(t, e)
    {
      assert Accounted(s, e);
    }
  }

  lemma UpdateKeeps(s: State, f: nat, now: int)
    requires Inv(s) && f in s.flushes && s.flushes[f].batch != [] && s.flushes[f].stage.Outcome?
    ensures Inv(OnUpdate(s, f, s.flushes[f], now))
  {
    var flush := s.flushes[f];
    var t, id := OnUpdate(s, f, flush, now), flush.batch[0].event.id;
    assert FlushOk(s, f);
    ReceivedStays(s, t);
    DeletedDistinct(s.queue, id);
    forall g | g in t.flushes
      ensures FlushOk(t, g)
    {
      assert g != f ==> FlushOk(s, g);
    }
    forall e | e in t.enqueued
      ensures Accounted(t, e)
    {
      assert Accounted(s, e);
      DeletedQueued(s.queue, id, e.id);
      if !flush.stage.success && Queued(s.queue, e.id) {
        var i :| 0 <= i < |s.queue| && s.queue[i].event.id == e.id;
        assert t.queue[i].event.id == e.id;
      }
      if flush.stage.success && e.id == id {
        assert Received(t, KeyOf(flush.batch[0].event));
      }
    }
  }

  lemma FlushKeeps(s: State, t: State, f: nat)
    requires Inv(s) && t.queue == s.queue && t.memories == s.memories && t.receipts == s.receipts && t.enqueued == s.enqueued
    requires s.posts <= t.posts && forall i :: |s.posts| <= i < |t.posts| ==> t.posts[i].memory.None?
    requires forall g :: g in t.flushes ==> g == f || (g in s.flushes && t.flushes[g] == s.flushes[g])
    requires f in t.flushes ==> FlushOk(t, f)
    ensures Inv(t)
  {
    ReceivedStays(s, t);
    forall g | g in t.flushes
      ensures FlushOk(t, g)
    {
      assert g != f ==> FlushOk(s, g);
    }
    forall e | e in t.enqueued
      ensures Accounted(t, e)
    {
      assert Accounted(s, e);
    }
  }

  lemma StepKeeps(s: State, e: Event)
    requires Inv(s)
    ensures Inv(Step(s, e)) && Kept(s, Step(s, e))
  {
    match e
    case Enqueue(event) =>
      if OnEnqueue(s, event).Ok? {
        EnqueueKeeps(s, event);
      }
    case Select(f, chosen) =>
      assert f in s.flushes ==> FlushOk(s, f);
      FlushKeeps(s, Step(s, e), f);
    case Send(f) =>
      assert f in s.flushes ==> FlushOk(s, f);
      FlushKeeps(s, Step(s, e), f);
    case Ingest(i) =>
      if i < |s.posts| && s.posts[i].memory.None? {
        IngestKeeps(s, i);
      }
    case Answer(f, delivered) =>
      assert f in s.flushes ==> FlushOk(s, f);
      FlushKeeps(s, Step(s, e), f);
    case Update(f, now) =>
      if f in s.flushes && s.flushes[f].batch != [] && s.flushes[f].stage.Outcome? {
        UpdateKeeps(s, f, now);
      }
    case Die(f) => FlushKeeps(s, Step(s, e), f);
  }

  // ---- what holds of every run -----------------------------------------------------------------------

  lemma InitialInv()
    ensures Inv(Initial())
  {
  }

  lemma {:induction false} RunKeeps(events: seq<Event>)
    ensures Inv(Run(events))
  {
    if events == [] {
      InitialInv();
    } else {
      RunKeeps(events[..|events| - 1]);
      StepKeeps(Run(events[..|events| - 1]), events[|events| - 1]);
    }
  }

  /** An id that was accepted is always in the queue, or the collector has an event of that id. */
  lemma NoIdIsLost(events: seq<Event>, e: WireEvent)
    requires e in Run(events).enqueued
    ensures Queued(Run(events).queue, e.id) || ReceivedId(Run(events), e.id)
  {
    RunKeeps(events);
    assert Accounted(Run(events), e);
  }

  /** However often it is posted, an event has one memory. */
  lemma StoredOnce(events: seq<Event>, i: nat, j: nat)
    requires i < j < |Run(events).memories|
    ensures KeyOf(Run(events).memories[i]) != KeyOf(Run(events).memories[j])
  {
    RunKeeps(events);
  }

  /** An id stays in the queue until a flush that was acknowledged for it deletes it. */
  lemma LeavesWhenAcknowledged(s: State, e: Event, id: string)
    requires Inv(s) && Queued(s.queue, id)
    ensures Queued(Step(s, e).queue, id) || (e.Update? && e.f in s.flushes && AcknowledgedFor(s, s.flushes[e.f], id))
  {
    var i :| 0 <= i < |s.queue| && s.queue[i].event.id == id;
    if e.Enqueue? {
      assert Step(s, e).queue[i] == s.queue[i];
    }
    if e.Update? && e.f in s.flushes && s.flushes[e.f].batch != [] && s.flushes[e.f].stage.Outcome? {
      var flush := s.flushes[e.f];
      assert FlushOk(s, e.f);
      DeletedQueued(s.queue, flush.batch[0].event.id, id);
      if !flush.stage.success {
        assert Step(s, e).queue[i].event.id == id;
      }
    }
  }

  /** The collector answered the first of the batch, which is of this id, with the positive id of its memory. */
  ghost predicate AcknowledgedFor(s: State, flush: Flush, id: string) {
    && flush.batch != [] && flush.stage == Outcome(true) && flush.batch[0].event.id == id
    && Received(s, KeyOf(flush.batch[0].event))
  }

  // ---- when ids are not reused -------------------------------------------------------------------------

  /** Everything that is on its way, or has arrived, was accepted into the queue. */
  ghost predicate FromQueue(s: State) {
    && (forall r :: r in s.queue ==> r.event in s.enqueued)
    && (forall p :: p in s.posts ==> p.event in s.enqueued)
    && (forall e :: e in s.memories ==> e in s.enqueued)
    && (forall f, p :: f in s.flushes && p in s.flushes[f].batch ==> p.event in s.enqueued)
  }

  lemma StepFromQueue(s: State, e: Event)
    requires FromQueue(s)
    ensures FromQueue(Step(s, e))
  {
    var t := Step(s, e);
    if e.Update? && t != s && !s.flushes[e.f].stage.success {
      forall r | r in t.queue
        ensures r.event in t.enqueued
      {
        var i :| 0 <= i < |t.queue| && t.queue[i] == r;
        assert s.queue[i] in s.queue;
      }
    }
  }

  lemma {:induction false} RunFromQueue(events: seq<Event>)
    ensures FromQueue(Run(events))
  {
    if events != [] {
      RunFromQueue(events[..|events| - 1]);
      StepFromQueue(Run(events[..|events| - 1]), events[|events| - 1]);
    }
  }

  /** An accepted event itself is in the queue or stored, as long as no id is used for two different events. */
  lemma NoEventIsLost(events: seq<Event>, e: WireEvent)
    requires e in Run(events).enqueued
    requires forall a, b :: a in Run(events).enqueued && b in Run(events).enqueued && a.id == b.id ==> a == b
    ensures QueuedAs(Run(events).queue, e) || e in Run(events).memories
  {
    var s := Run(events);
    NoIdIsLost(events, e);
    RunFromQueue(events);
    if i :| 0 <= i < |s.queue| && s.queue[i].event.id == e.id {
      assert s.queue[i] in s.queue;
    } else {
      var key: Key :| key.0 == e.id && Received(s, key);
      assert s.memories[s.receipts[key] - 1] in s.memories;
    }
  }

  lemma RunOne(events: seq<Event>, e: Event)
    ensures Run(events + [e]) == Step(Run(events), e)
  {
    assert (events + [e])[..|events|] == events;
  }

  function DeliveredBy(f: nat, post: nat): seq<Event> {
    [Send(f), Ingest(post), Answer(f, true), Update(f, 0)]
  }

  /** A flush that is about to deliver `e` alone. */
  ghost predicate Holds(s: State, f: nat, e: WireEvent) {
    f in s.flushes && s.flushes[f] == Flush([Pending(e, 0)], Next)
  }

  lemma Selected(s: State, f: nat, e: WireEvent)
    requires s.queue == [Row(e, 0, 0)] && f !in s.flushes
    ensures Step(s, Select(f, [0])) == s.(flushes := s.flushes[f := Flush([Pending(e, 0)], Next)])
  {
    assert Pendings(s.queue, [0]) == [Pending(e, 0)];
  }

  /** What is sent is stored, unless the collector has its key, and answered. */
  lemma AnsweredAlone(s: State, f: nat, e: WireEvent)
    requires Holds(s, f, e) && (KeyOf(e) in s.receipts ==> s.receipts[KeyOf(e)] > 0)
    ensures var t := Step(Step(Step(s, Send(f)), Ingest(|s.posts|)), Answer(f, true));
      && t.queue == s.queue && t.enqueued == s.enqueued && KeyOf(e) in t.receipts
      && t.flushes == s.flushes[f := Flush([Pending(e, 0)], Outcome(true))]
      && t.memories == if KeyOf(e) in s.receipts then s.memories else s.memories + [e]
  {
    var t := Step(s, Send(f));
    assert t.posts[|s.posts|] == Post(e, None);
    assert t.flushes[f] == Flush([Pending(e, 0)], Sent(|s.posts|));
  }

  lemma DeletedAlone(s: State, f: nat, e: WireEvent, b: WireEvent)
    requires s.queue == [Row(b, 0, 0)] && b.id == e.id && f in s.flushes && s.flushes[f] == Flush([Pending(e, 0)], Outcome(true))
    ensures var t := Step(s, Update(f, 0));
      && t.queue == [] && t.enqueued == s.enqueued && t.memories == s.memories && t.receipts == s.receipts
      && forall g :: g in s.flushes && g != f ==> g in t.flushes && t.flushes[g] == s.flushes[g]
  {
    assert Deleted(s.queue, e.id) == [] by {
      assert s.queue[0].event.id == e.id && s.queue[1..] == [];
    }
  }

  /** The flush deletes the row with the id of what it delivered, whatever event that row holds by then. */
  lemma DeliveredAlone(events: seq<Event>, f: nat, e: WireEvent, b: WireEvent)
    requires Holds(Run(events), f, e) && Run(events).queue == [Row(b, 0, 0)] && b.id == e.id
    ensures var s, t := Run(events), Run(events + DeliveredBy(f, |Run(events).posts|));
      && t.queue == [] && t.enqueued == s.enqueued && KeyOf(e) in t.receipts
      && (forall g :: g in s.flushes && g != f ==> g in t.flushes && t.flushes[g] == s.flushes[g])
      && t.memories == if KeyOf(e) in s.receipts then s.memories else s.memories + [e]
  {
    var s := Run(events);
    RunKeeps(events);
    assert KeyOf(e) in s.receipts ==> Received(s, KeyOf(e));
    var n := |s.posts|;
    RunFour(events, Send(f), Ingest(n), Answer(f, true), Update(f, 0));
    AnsweredAlone(s, f, e);
    DeletedAlone(Step(Step(Step(s, Send(f)), Ingest(n)), Answer(f, true)), f, e, b);
  }

  lemma RunFour(events: seq<Event>, a: Event, b: Event, c: Event, d: Event)
    ensures Run(events + [a, b, c, d]) == Step(Step(Step(Step(Run(events), a), b), c), d)
  {
    RunOne(events, a);
    RunOne(events + [a], b);
    RunOne(events + [a] + [b], c);
    RunOne(events + [a] + [b] + [c], d);
    assert events + [a, b, c, d] == events + [a] + [b] + [c] + [d];
  }

  lemma EnqueuedFirst(a: WireEvent)
    ensures Run([Enqueue(a)]) == Initial().(queue := [Row(a, 0, 0)], enqueued := {a})
  {
    var none: seq<Event> := [];
    RunOne(none, Enqueue(a));
    assert none + [Enqueue(a)] == [Enqueue(a)];
  }

  lemma PickedUpTwice(a: WireEvent) returns (run: seq<Event>)
    ensures Holds(Run(run), 0, a) && Holds(Run(run), 1, a) && Run(run).queue == [Row(a, 0, 0)]
    ensures Run(run).enqueued == {a} && Run(run).memories == [] && Run(run).receipts == map[]
  {
    run := [Enqueue(a)];
    EnqueuedFirst(a);
    Selected(Run(run), 0, a);
    RunOne(run, Select(0, [0]));
    run := run + [Select(0, [0])];
    Selected(Run(run), 1, a);
    RunOne(run, Select(1, [0]));
    run := run + [Select(1, [0])];
  }

  lemma DeliveredAndReplaced(a: WireEvent, b: WireEvent) returns (run: seq<Event>)
    requires a.id == b.id && a != b
    ensures Holds(Run(run), 1, a) && Run(run).queue == [Row(b, 0, 0)]
    ensures Run(run).enqueued == {a, b} && Run(run).memories == [a] && KeyOf(a) in Run(run).receipts
  {
    run := PickedUpTwice(a);
    DeliveredAlone(run, 0, a, a);
    run := run + DeliveredBy(0, |Run(run).posts|);
    RunOne(run, Enqueue(b));
    run := run + [Enqueue(b)];
  }

  /** Two flushes pick up `a`; the second deletes `b`, queued in between under the same id, and never posts it. */
  lemma ReusedIdLosesAnEvent(a: WireEvent, b: WireEvent) returns (run: seq<Event>)
    requires a.id == b.id && a != b
    ensures Run(run).enqueued == {a, b} && Lost(Run(run), b)
  {
    run := DeliveredAndReplaced(a, b);
    DeliveredAlone(run, 1, a, b);
    run := run + DeliveredBy(1, |Run(run).posts|);
  }

  ghost predicate Lost(s: State, e: WireEvent) {
    e in s.enqueued && !QueuedAs(s.queue, e) && e !in s.memories
  }

  /** No run over these events loses one. */
  ghost predicate NeverLost(events: iset<WireEvent>) {
    forall run, e :: (forall x :: x in Run(run).enqueued ==> x in events) ==> !Lost(Run(run), e)
  }

  ghost predicate IdsUnique(events: iset<WireEvent>) {
    forall a, b :: a in events && b in events && a.id == b.id ==> a == b
  }

  /** Delivery loses nothing exactly as long as no id is used for two different events. */
  lemma NothingLostIff(events: iset<WireEvent>)
    ensures NeverLost(events) <==> IdsUnique(events)
  {
    if IdsUnique(events) {
      forall run, e | (forall x :: x in Run(run).enqueued ==> x in events) && e in Run(run).enqueued
        ensures !Lost(Run(run), e)
      {
        NoEventIsLost(run, e);
      }
    } else {
      var a, b :| a in events && b in events && a.id == b.id && a != b;
      var run := ReusedIdLosesAnEvent(a, b);
      assert forall x :: x in Run(run).enqueued ==> x in events;
      assert !NeverLost(events);
    }
  }

  // ---- one flush, in place -------------------------------------------------------------------------------

  /** The memory id of a valid acknowledgement; none when the post failed in any way. */
  type Answered = Option<int>

  predicate Acknowledged(answer: Answered) {
    answer.Some? && answer.value > 0
  }

  /** One item of a batch: deleted, or put off. */
  function Handled(queue: seq<Row>, item: Pending, answer: Answered, now: int): seq<Row> {
    if Acknowledged(answer) then Deleted(queue, item.event.id)
    else Rescheduled(queue, item.event.id, SaturatingNext(item.attempts), now + 1000 * RetryDelay(SaturatingNext(item.attempts)))
  }

  /** The queue after a batch was handled. */
  function Flushed(queue: seq<Row>, batch: seq<Pending>, answers: seq<Answered>, now: int): seq<Row>
    requires |batch| == |answers|
  {
    if batch == [] then queue
    else
      var n := |batch| - 1;
      Handled(Flushed(queue, batch[..n], answers[..n], now), batch[n], answers[n], now)
  }

  lemma FlushedStep(queue: seq<Row>, batch: seq<Pending>, answers: seq<Answered>, now: int, i: nat)
    requires |batch| == |answers| && i < |batch|
    ensures Flushed(queue, batch[..i + 1], answers[..i + 1], now) ==
      Handled(Flushed(queue, batch[..i], answers[..i], now), batch[i], answers[i], now)
  {
    assert batch[..i + 1][..i] == batch[..i] && answers[..i + 1][..i] == answers[..i];
  }

  lemma RescheduledQueued(queue: seq<Row>, id: string, attempts: nat, next: int, other: string)
    ensures Queued(Rescheduled(queue, id, attempts, next), other) <==> Queued(queue, other)
  {
    var left := Rescheduled(queue, id, attempts, next);
    assert forall i :: 0 <= i < |queue| ==> left[i].event.id == queue[i].event.id;
  }

  ghost predicate AnyAcknowledged(batch: seq<Pending>, answers: seq<Answered>, id: string)
    requires |batch| == |answers|
  {
    exists i :: 0 <= i < |batch| && batch[i].event.id == id && Acknowledged(answers[i])
  }

  lemma OneMoreAnswer(batch: seq<Pending>, answers: seq<Answered>, n: nat, id: string)
    requires |batch| == |answers| == n + 1
    ensures AnyAcknowledged(batch, answers, id) <==>
      AnyAcknowledged(batch[..n], answers[..n], id) || (batch[n].event.id == id && Acknowledged(answers[n]))
  {
    if i :| 0 <= i < n && batch[i].event.id == id && Acknowledged(answers[i]) {
      assert batch[..n][i] == batch[i] && answers[..n][i] == answers[i];
    }
  }

  /** A flush takes away exactly the ids it got an acknowledgement for. */
  lemma {:induction false} FlushedQueued(queue: seq<Row>, batch: seq<Pending>, answers: seq<Answered>, now: int, id: string)
    requires |batch| == |answers|
    ensures Queued(Flushed(queue, batch, answers, now), id) <==> Queued(queue, id) && !AnyAcknowledged(batch, answers, id)
  {
    if batch != [] {
      var n := |batch| - 1;
      var before, item := Flushed(queue, batch[..n], answers[..n], now), batch[n];
      FlushedQueued(queue, batch[..n], answers[..n], now, id);
      OneMoreAnswer(batch, answers, n, id);
      DeletedQueued(before, item.event.id, id);
      RescheduledQueued(before, item.event.id, SaturatingNext(item.attempts),
                        now + 1000 * RetryDelay(SaturatingNext(item.attempts)), id);
    }
  }

  class Spool {
    var queue: seq<Row>

    constructor (queue: seq<Row>)
      ensures this.queue == queue
    {
      this.queue := queue;
    }

    /** Deletes the row of an acknowledged event, puts off any other. */
    method Handle(item: Pending, answer: Answered, now: int)
      modifies this
      ensures queue == Handled(old(queue), item, answer, now)
    {
      if Acknowledged(answer) {
        queue := Deleted(queue, item.event.id);
      } else {
        var attempts := SaturatingNext(item.attempts);
        queue := Rescheduled(queue, item.event.id, attempts, now + 1000 * RetryDelay(attempts));
      }
    }

    /** Posts the batch one by one; it fails when any delivery did, after handling them all. */
    method FlushToUrl(batch: seq<Pending>, answers: seq<Answered>, now: int) returns (r: Result<nat>)
      requires |batch| == |answers|
      modifies this
      ensures queue == Flushed(old(queue), batch, answers, now)
      ensures r.Ok? <==> forall i :: 0 <= i < |answers| ==> Acknowledged(answers[i])
      ensures r.Ok? ==> r.value == |batch|
    {
      var sent, failures := 0, 0;
      for i := 0 to |batch|
        invariant queue == Flushed(old(queue), batch[..i], answers[..i], now)
        invariant sent + failures == i && sent >= 0 && failures >= 0
        invariant failures == 0 <==> forall j :: 0 <= j < i ==> Acknowledged(answers[j])
      {
        FlushedStep(old(queue), batch, answers, now, i);
        Handle(batch[i], answers[i], now);
        if Acknowledged(answers[i]) {
          sent := sent + 1;
        } else {
          failures := failures + 1;
        }
      }
      assert batch[..|batch|] == batch && answers[..|answers|] == answers;
      if failures > 0 {
        return Err;
      }
      return Ok(sent);
    }
  }
}
