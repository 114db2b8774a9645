/**
 What a flush leaves of each row of the queue, and what the steps of a delivery come to: a flush that
 is not disturbed stores the event, one that fails puts its row off.
 */
module OutboxMeaning {
  import opened Wrappers
  import opened Outbox

  // ---- the rows after a flush --------------------------------------------------------------------

  /** Its id was chosen by no item of the batch. */
  ghost predicate NotInBatch(batch: seq<Pending>, id: string) {
    forall i :: 0 <= i < |batch| ==> batch[i].event.id != id
  }

  ghost predicate DistinctBatch(batch: seq<Pending>) {
    forall i, j :: 0 <= i < j < |batch| ==> batch[i].event.id != batch[j].event.id
  }

  /** The row is put off: one attempt more, as far as 32 bits count, and twice the delay, up to five minutes. */
  ghost predicate PutOff(row: Row, attempts: nat, now: int, x: Row) {
    && x.event == row.event
    && x.attempts == (if attempts < 0xffff_ffff then attempts + 1 else 0xffff_ffff)
    && x.nextAttempt == now + 1000 * (if Pow2(x.attempts) < 300 then Pow2(x.attempts) else 300)
  }

  lemma HandledOther(queue: seq<Row>, item: Pending, answer: Answered, now: int, x: Row)
    requires x.event.id != item.event.id
    ensures x in Handled(queue, item, answer, now) <==> x in queue
  {
    if !Acknowledged(answer) {
      var left := Handled(queue, item, answer, now);
      if i :| 0 <= i < |queue| && queue[i] == x {
        assert left[i] == x;
      }
      if i :| 0 <= i < |left| && left[i] == x {
        assert queue[i] == x;
      }
    }
  }

  lemma HandledSame(queue: seq<Row>, item: Pending, answer: Answered, now: int, x: Row)
    requires x.event.id == item.event.id
    ensures x in Handled(queue, item, answer, now)
       <==> (answer.None? || answer.value <= 0) && exists r :: r in queue && PutOff(r, item.attempts, now, x)
  {
    if !Acknowledged(answer) {
      var left, attempts := Handled(queue, item, answer, now), SaturatingNext(item.attempts);
      RetryDelayIsCapped(attempts);
      if i :| 0 <= i < |left| && left[i] == x {
        assert queue[i] in queue && PutOff(queue[i], item.attempts, now, x);
      }
      if r :| r in queue && PutOff(r, item.attempts, now, x) {
        var i :| 0 <= i < |queue| && queue[i] == r;
        assert left[i] == x;
      }
    }
  }

  /** A row whose id is not in the batch stays as it is, and no other appears under such an id. */
  lemma {:induction false} OthersStay(queue: seq<Row>, batch: seq<Pending>, answers: seq<Answered>, now: int, x: Row)
    requires |batch| == |answers| && NotInBatch(batch, x.event.id)
    ensures x in Flushed(queue, batch, answers, now) <==> x in queue
  {
    if batch != [] {
      var n := |batch| - 1;
      OthersStay(queue, batch[..n], answers[..n], now, x);
      HandledOther(Flushed(queue, batch[..n], answers[..n], now), batch[n], answers[n], now, x);
    }
  }

  /** The row of an item of the batch is gone after an acknowledgement, and put off after any other answer. */
  lemma {:induction false} BatchIsHandled(queue: seq<Row>, batch: seq<Pending>, answers: seq<Answered>, now: int, i: nat, x: Row)
    requires |batch| == |answers| && DistinctBatch(batch) && i < |batch| && x.event.id == batch[i].event.id
    ensures x in Flushed(queue, batch, answers, now)
       <==> (answers[i].None? || answers[i].value <= 0) && exists r :: r in queue && PutOff(r, batch[i].attempts, now, x)
    decreases |batch|
  {
    var n := |batch| - 1;
    var before := Flushed(queue, batch[..n], answers[..n], now);
    if i < n {
      BatchIsHandled(queue, batch[..n], answers[..n], now, i, x);
      HandledOther(before, batch[n], answers[n], now, x);
    } else {
      HandledSame(before, batch[n], answers[n], now, x);
      SameEvents(queue, batch[..n], answers[..n], now, batch[n].event.id);
      assert forall r: Row :: PutOff(r, batch[n].attempts, now, x) ==> (r in before <==> r in queue);
    }
  }

  lemma SameEvents(queue: seq<Row>, batch: seq<Pending>, answers: seq<Answered>, now: int, id: string)
    requires |batch| == |answers| && NotInBatch(batch, id)
    ensures forall r: Row :: r.event.id == id ==> (r in Flushed(queue, batch, answers, now) <==> r in queue)
  {
    forall r: Row | r.event.id == id
      ensures r in Flushed(queue, batch, answers, now) <==> r in queue
    {
      OthersStay(queue, batch, answers, now, r);
    }
  }

  /** A flush never leaves two rows of one id. */
  lemma {:induction false} FlushedDistinct(queue: seq<Row>, batch: seq<Pending>, answers: seq<Answered>, now: int)
    requires |batch| == |answers| && DistinctIds(queue)
    ensures DistinctIds(Flushed(queue, batch, answers, now))
  {
    if batch != [] {
      var n := |batch| - 1;
      FlushedDistinct(queue, batch[..n], answers[..n], now);
      DeletedDistinct(Flushed(queue, batch[..n], answers[..n], now), batch[n].event.id);
    }
  }

  // ---- the steps -------------------------------------------------------------------------------------

  lemma QueuedIff(queue: seq<Row>, e: WireEvent)
    ensures Queued(queue, e.id) <==> exists r :: r in queue && r.event.id == e.id
    ensures QueuedAs(queue, e) <==> exists r :: r in queue && r.event == e
  {
    if r :| r in queue && r.event.id == e.id {
      var i :| 0 <= i < |queue| && queue[i] == r;
    }
    if r :| r in queue && r.event == e {
      var i :| 0 <= i < |queue| && queue[i] == r;
    }
    if i :| 0 <= i < |queue| && queue[i].event.id == e.id {
      assert queue[i] in queue;
    }
    if i :| 0 <= i < |queue| && queue[i].event == e {
      assert queue[i] in queue;
    }
  }

  lemma SameId(queue: seq<Row>, r: Row, e: WireEvent)
    requires DistinctIds(queue) && r in queue && r.event.id == e.id
    ensures forall q :: q in queue && q.event.id == e.id ==> q == r
  {
  }

  /** An event is refused only while another is queued under its id, and queued with no attempts unless it is there. */
  lemma EnqueueMeaning(s: State, e: WireEvent)
    requires Inv(s)
    ensures OnEnqueue(s, e).Err? <==> exists r :: r in s.queue && r.event.id == e.id && r.event != e
    ensures OnEnqueue(s, e).Ok? ==> OnEnqueue(s, e).value == Step(s, Enqueue(e))
    ensures var t := Step(s, Enqueue(e));
      if exists r :: r in s.queue && r.event.id == e.id then t == s
      else t == s.(queue := s.queue + [Row(e, 0, 0)], enqueued := s.enqueued + {e})
  {
    QueuedIff(s.queue, e);
    if r :| r in s.queue && r.event.id == e.id {
      SameId(s.queue, r, e);
    }
  }

  /** An update of a run is what the flush does with one item of its batch. */
  lemma UpdateHandles(s: State, f: nat, now: int)
    requires f in s.flushes && s.flushes[f].batch != [] && s.flushes[f].stage.Outcome?
    ensures var flush, t := s.flushes[f], Step(s, Update(f, now));
      && t.queue == Handled(s.queue, flush.batch[0], if flush.stage.success then Some(1) else None, now)
      && t.flushes == s.flushes[f := Flush(flush.batch[1..], Next)]
      && t.posts == s.posts && t.memories == s.memories && t.receipts == s.receipts && t.enqueued == s.enqueued
  {
  }

  /** The first delivery of a key is stored; every delivery is answered with the id of what was stored first. */
  lemma IngestMeaning(s: State, i: nat)
    requires Inv(s) && i < |s.posts| && s.posts[i].memory.None?
    ensures var t, key := Step(s, Ingest(i)), KeyOf(s.posts[i].event);
      && (if exists j :: 0 <= j < |s.memories| && KeyOf(s.memories[j]) == key then t.memories == s.memories
          else t.memories == s.memories + [s.posts[i].event])
      && |t.posts| == |s.posts| && t.posts[i].memory.Some? && 0 < t.posts[i].memory.value <= |t.memories|
      && KeyOf(t.memories[t.posts[i].memory.value - 1]) == key
      && t.queue == s.queue && t.flushes == s.flushes
  {
    var key := KeyOf(s.posts[i].event);
    if key in s.receipts {
      assert Received(s, key);
      assert KeyOf(s.memories[s.receipts[key] - 1]) == key;
    } else {
      assert forall j :: 0 <= j < |s.memories| ==> KeyOf(s.memories[j]) in s.receipts;
    }
  }

  // ---- a delivery that is not disturbed ------------------------------------------------------------------

  function Attempt(f: nat, i: nat, post: nat, now: int): seq<Event> {
    [Select(f, [i]), Send(f), Ingest(post), Answer(f, true), Update(f, now)]
  }

  function Failure(f: nat, i: nat, now: int): seq<Event> {
    [Select(f, [i]), Send(f), Answer(f, false), Update(f, now)]
  }

  lemma Chosen(s: State, f: nat, i: nat)
    requires i < |s.queue| && f !in s.flushes
    ensures var item := Pending(s.queue[i].event, s.queue[i].attempts);
      Step(Step(s, Select(f, [i])), Send(f))
        == s.(flushes := s.flushes[f := Flush([item], Sent(|s.posts|))], posts := s.posts + [Post(item.event, None)])
  {
    var item := Pending(s.queue[i].event, s.queue[i].attempts);
    assert Pendings(s.queue, [i]) == [item];
    var t := Step(s, Select(f, [i]));
    assert t.flushes[f] == Flush([item], Next);
    assert t.flushes[f := Flush([item], Sent(|s.posts|))] == s.flushes[f := Flush([item], Sent(|s.posts|))];
  }

  ghost predicate Known(s: State, e: WireEvent) {
    exists j :: 0 <= j < |s.memories| && KeyOf(s.memories[j]) == KeyOf(e)
  }

  /** A request that has been sent, answered by the collector, and the answer taken up. */
  lemma AnsweredAndHandled(s: State, f: nat, item: Pending, n: nat, now: int)
    requires Inv(s) && f in s.flushes && s.flushes[f] == Flush([item], Sent(n))
    requires n < |s.posts| && s.posts[n] == Post(item.event, None)
    ensures var t := Step(Step(Step(s, Ingest(n)), Answer(f, true)), Update(f, now));
      && t.queue == Deleted(s.queue, item.event.id)
      && t.memories == if Known(s, item.event) then s.memories else s.memories + [item.event]
  {
    IngestMeaning(s, n);
    var answered := Step(Step(s, Ingest(n)), Answer(f, true));
    assert answered.flushes[f] == Flush([item], Outcome(true));
    UpdateHandles(answered, f, now);
  }

  lemma AttemptRun(events: seq<Event>, f: nat, i: nat, n: nat, now: int)
    ensures Run(events + Attempt(f, i, n, now)) ==
      Step(Step(Step(Step(Step(Run(events), Select(f, [i])), Send(f)), Ingest(n)), Answer(f, true)), Update(f, now))
  {
    var most := [Select(f, [i]), Send(f), Ingest(n), Answer(f, true)];
    RunFour(events, Select(f, [i]), Send(f), Ingest(n), Answer(f, true));
    RunOne(events + most, Update(f, now));
    assert events + Attempt(f, i, n, now) == events + most + [Update(f, now)];
  }

  /** From any state that a run reaches, the row is gone and its event stored, unless its key was stored before. */
  lemma DeliveryStores(events: seq<Event>, f: nat, i: nat, now: int)
    requires i < |Run(events).queue| && f !in Run(events).flushes
    ensures var s := Run(events);
      var e, t := s.queue[i].event, Run(events + Attempt(f, i, |s.posts|, now));
      && (forall x: Row :: x in t.queue <==> x in s.queue && x.event.id != e.id)
      && t.memories == if Known(s, e) then s.memories else s.memories + [e]
  {
    var s := Run(events);
    AttemptRun(events, f, i, |s.posts|, now);
    RunKeeps(events);
    StepKeeps(s, Select(f, [i]));
    StepKeeps(Step(s, Select(f, [i])), Send(f));
    Chosen(s, f, i);
    AnsweredAndHandled(Step(Step(s, Select(f, [i])), Send(f)), f, Pending(s.queue[i].event, s.queue[i].attempts), |s.posts|, now);
  }

  /** Without an answer the row is put off and everything else is as before. */
  lemma FailurePutsOff(events: seq<Event>, f: nat, i: nat, now: int)
    requires i < |Run(events).queue| && f !in Run(events).flushes
    ensures var s := Run(events);
      var t := Run(events + Failure(f, i, now));
      && |t.queue| == |s.queue| && PutOff(s.queue[i], s.queue[i].attempts, now, t.queue[i])
      && (forall j :: 0 <= j < |s.queue| && j != i ==> t.queue[j] == s.queue[j])
      && t.memories == s.memories
  {
    var s := Run(events);
    var item := Pending(s.queue[i].event, s.queue[i].attempts);
    RunKeeps(events);
    RunFour(events, Select(f, [i]), Send(f), Answer(f, false), Update(f, now));
    Chosen(s, f, i);
    var answered := Step(Step(Step(s, Select(f, [i])), Send(f)), Answer(f, false));
    assert answered.flushes[f] == Flush([item], Outcome(false));
    UpdateHandles(answered, f, now);
    RetryDelayIsCapped(SaturatingNext(item.attempts));
  }
}
