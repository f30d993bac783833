/**
 * The analytics consumer (apps/api/src/workers/analytics-worker.ts): validate, micro-batch, persist, settle.
 *
 * `flushBatch` suspends at its database call, so several activations of it may be open at once. Each one is
 * a Flight; `FlushBatch` is the code up to the await and `ResumeFlush` the code after it. The state machine
 * below is what the broker-wide model in module Pipeline runs; the class at the end implements it.
 */
module Worker {
  import opened Types

  const PREFETCH: nat := 50
  const BATCH_SIZE: nat := 50

  /** A broker delivery. Tags number the deliveries of one channel. */
  datatype Delivery = Delivery(
    tag: nat,
    copy: CopyKey,
    redelivered: bool,
    body: Body,
    messageId: Option<EventId>)

  datatype Pending = Pending(msg: Delivery, parsed: ClickEvent, eventId: EventId)

  /** The calls the worker makes on its channel. */
  datatype Settlement = Ack(msg: Delivery) | Requeue(msg: Delivery) | Reject(msg: Delivery)

  /** Where an activation of flushBatch stands: awaiting the database, answered, or finished. */
  datatype Reply = Waiting | Done(inserted: nat) | Threw | Finished

  datatype Flight = Flight(items: seq<Pending>, reply: Reply) {
    predicate Open() {
      !reply.Finished?
    }
  }

  datatype State = State(
    delivered: nat,
    batch: seq<Pending>,
    timer: bool,
    flights: seq<Flight>,
    settled: seq<Settlement>,
    processed: nat,
    duplicated: nat,
    failed: nat)

  const INITIAL := State(0, [], false, [], [], 0, 0, 0)

  // ---------------------------------------------------------------- handlers as functions

  /** The flush up to its await: clear the timer, splice the batch, send the insert. */
  function Flush(w: State): State {
    if w.batch == [] then w.(timer := false)
    else w.(timer := false, batch := [], flights := w.flights + [Flight(w.batch, Waiting)])
  }

  /** What a click handed to the consumer is queued as: its own event id, or the random one if it has none. */
  ghost predicate QueuedAs(p: Pending, d: Delivery, randomId: EventId) {
    && d.body.Click? && p.msg == d && p.parsed == d.body.click
    && (d.messageId.Some? ==> p.eventId == d.messageId.value)
    && (d.messageId.None? ==> p.eventId == randomId)
  }

  /** A valid delivery joins the batch, which at fifty entries becomes a new flight as it is. */
  ghost predicate Queued(before: State, after: State, d: Delivery, randomId: EventId) {
    var n := |before.batch|;
    if n + 1 >= 50 then
      && after.batch == [] && !after.timer && |after.flights| == |before.flights| + 1 && before.flights <= after.flights
      && var flight := after.flights[|before.flights|];
      && flight.reply.Waiting? && |flight.items| == n + 1 && before.batch <= flight.items
      && QueuedAs(flight.items[n], d, randomId)
    else
      && after.flights == before.flights && after.timer && |after.batch| == n + 1 && before.batch <= after.batch
      && QueuedAs(after.batch[n], d, randomId)
  }

  lemma ConsumeQueues(w: State, d: Delivery, randomId: EventId)
    requires d.body.Click?
    ensures Queued(w, Consume(w, d, randomId), d, randomId)
  {
  }

  function EventIdOf(d: Delivery, randomId: EventId): EventId {
    if d.messageId.Some? then d.messageId.value else randomId
  }

  /** The consume handler. */
  function Consume(w: State, d: Delivery, randomId: EventId): State {
    var w' := w.(delivered := w.delivered + 1);
    match d.body
    case Malformed => w'.(settled := w.settled + [Reject(d)], failed := w.failed + 1)
    case Click(click) =>
      var queued := w'.(batch := w.batch + [Pending(d, click, EventIdOf(d, randomId))]);
      if |queued.batch| >= BATCH_SIZE then Flush(queued) else queued.(timer := true)
  }

  /** The database answers flight f. */
  function Answer(w: State, f: nat, reply: Reply): State
    requires f < |w.flights|
  {
    w.(flights := w.flights[f := w.flights[f].(reply := reply)])
  }

  function Acks(items: seq<Pending>): seq<Settlement> {
    if items == [] then [] else Acks(items[..|items| - 1]) + [Ack(items[|items| - 1].msg)]
  }

  /** First delivery: requeue. Redelivery: dead-letter. */
  function Verdict(d: Delivery): Settlement {
    if d.redelivered then Reject(d) else Requeue(d)
  }

  function Verdicts(items: seq<Pending>): seq<Settlement> {
    if items == [] then [] else Verdicts(items[..|items| - 1]) + [Verdict(items[|items| - 1].msg)]
  }

  /** After a flush its messages are settled in order: acked, or after a failure requeued once and then rejected. */
  ghost predicate Answered(before: seq<Settlement>, after: seq<Settlement>, items: seq<Pending>, inserted: bool) {
    && |after| == |before| + |items| && before <= after
    && forall i :: 0 <= i < |items| ==>
         && after[|before| + i].msg == items[i].msg
         && (inserted ==> after[|before| + i].Ack?)
         && (!inserted && items[i].msg.redelivered ==> after[|before| + i].Reject?)
         && (!inserted && !items[i].msg.redelivered ==> after[|before| + i].Requeue?)
  }

  lemma {:induction false} SettlementsAnswer(log: seq<Settlement>, items: seq<Pending>)
    ensures Answered(log, log + Acks(items), items, true) && Answered(log, log + Verdicts(items), items, false)
  {
    if items != [] {
      SettlementsAnswer(log, items[..|items| - 1]);
    }
  }

  function Redelivered(items: seq<Pending>): nat {
    if items == [] then 0
    else Redelivered(items[..|items| - 1]) + (if items[|items| - 1].msg.redelivered then 1 else 0)
  }

  predicate CanResume(w: State, f: nat) {
    && f < |w.flights|
    && (w.flights[f].reply.Threw? || (w.flights[f].reply.Done? && w.flights[f].reply.inserted <= |w.flights[f].items|))
  }

  /** The flush after its await: count and ack, or requeue and dead-letter. */
  function Resume(w: State, f: nat): State
    requires CanResume(w, f)
  {
    var items := w.flights[f].items;
    var w' := Answer(w, f, Finished);
    match w.flights[f].reply
    case Done(inserted) =>
      w'.(settled := w.settled + Acks(items),
          processed := w.processed + inserted,
          duplicated := w.duplicated + (|items| - inserted))
    case Threw =>
      w'.(settled := w.settled + Verdicts(items), failed := w.failed + Redelivered(items))
  }

  /** What the flush does after its await: the counters, the calls on the channel, and nothing else but its end. */
  ghost predicate Resumed(before: State, after: State, f: nat, outcome: Result<nat, ()>)
    requires f < |before.flights|
  {
    var items := before.flights[f].items;
    && Answered(before.settled, after.settled, items, outcome.Ok?)
    && after.processed == before.processed + (if outcome.Ok? then outcome.value else 0)
    && after.duplicated == before.duplicated + (if outcome.Ok? then |items| - outcome.value else 0)
    && (outcome.Ok? ==> after.failed == before.failed)
    && after.batch == before.batch && after.timer == before.timer && after.delivered == before.delivered
    && |after.flights| == |before.flights| && after.flights[f].reply.Finished?
    && forall g :: 0 <= g < |before.flights| && g != f ==> after.flights[g] == before.flights[g]
  }

  lemma ResumeMeans(w: State, f: nat, outcome: Result<nat, ()>)
    requires f < |w.flights| && (outcome.Ok? ==> outcome.value <= |w.flights[f].items|)
    ensures var reply := if outcome.Ok? then Done(outcome.value) else Threw;
            Resumed(w, Resume(Answer(w, f, reply), f), f, outcome)
  {
    SettlementsAnswer(w.settled, w.flights[f].items);
  }

  // ---------------------------------------------------------------- what every run keeps

  datatype Handler =
    | OnMessage(d: Delivery, randomId: EventId)
    | OnFlush
    | OnAnswer(f: nat, reply: Reply)
    | OnResume(f: nat)

  predicate CanRun(w: State, h: Handler) {
    match h
    case OnMessage(d, _) => d.tag == w.delivered
    case OnFlush => true
    case OnAnswer(f, reply) =>
      && f < |w.flights| && w.flights[f].reply.Waiting?
      && (reply.Threw? || (reply.Done? && reply.inserted <= |w.flights[f].items|))
    case OnResume(f) => CanResume(w, f)
  }

  function Run(w: State, h: Handler): State
    requires CanRun(w, h)
  {
    match h
    case OnMessage(d, randomId) => Consume(w, d, randomId)
    case OnFlush => Flush(w)
    case OnAnswer(f, reply) => Answer(w, f, reply)
    case OnResume(f) => Resume(w, f)
  }

  predicate CanRunAll(w: State, run: seq<Handler>)
    decreases |run|
  {
    run == [] || (CanRun(w, run[0]) && CanRunAll(Run(w, run[0]), run[1..]))
  }

  function RunAll(w: State, run: seq<Handler>): State
    requires CanRunAll(w, run)
    decreases |run|
  {
    if run == [] then w else RunAll(Run(w, run[0]), run[1..])
  }

  /** How often tag t occurs among the items. */
  function Times(items: seq<Pending>, t: nat): nat {
    if items == [] then 0
    else Times(items[..|items| - 1], t) + (if items[|items| - 1].msg.tag == t then 1 else 0)
  }

  /** How often tag t occurs in the flushes still open. */
  function OpenTimes(flights: seq<Flight>, t: nat): nat {
    if flights == [] then 0
    else
      var last := flights[|flights| - 1];
      OpenTimes(flights[..|flights| - 1], t) + (if last.Open() then Times(last.items, t) else 0)
  }

  function SettledTimes(log: seq<Settlement>, t: nat): nat {
    if log == [] then 0
    else SettledTimes(log[..|log| - 1], t) + (if log[|log| - 1].msg.tag == t then 1 else 0)
  }

  function AckCount(log: seq<Settlement>): nat {
    if log == [] then 0 else AckCount(log[..|log| - 1]) + (if log[|log| - 1].Ack? then 1 else 0)
  }

  function RejectCount(log: seq<Settlement>): nat {
    if log == [] then 0 else RejectCount(log[..|log| - 1]) + (if log[|log| - 1].Reject? then 1 else 0)
  }

  /** Every delivery so far is in exactly one place, once. */
  ghost predicate Partitioned(w: State) {
    forall t: nat ::
      Times(w.batch, t) + OpenTimes(w.flights, t) + SettledTimes(w.settled, t) == if t < w.delivered then 1 else 0
  }

  ghost predicate TimerArmed(w: State) {
    |w.batch| < BATCH_SIZE && (w.batch != [] ==> w.timer)
  }

  ghost predicate CountersAgree(w: State) {
    && w.processed + w.duplicated == AckCount(w.settled)
    && w.failed == RejectCount(w.settled)
  }

  ghost predicate RepliesFit(w: State) {
    forall f :: 0 <= f < |w.flights| && w.flights[f].reply.Done? ==> w.flights[f].reply.inserted <= |w.flights[f].items|
  }

  ghost predicate Invariant(w: State) {
    Partitioned(w) && TimerArmed(w) && CountersAgree(w) && RepliesFit(w)
  }

  lemma {:induction false} OpenTimesUpdate(flights: seq<Flight>, f: nat, g: Flight, t: nat)
    requires f < |flights| && g.items == flights[f].items
    ensures g.Open() == flights[f].Open() ==> OpenTimes(flights[f := g], t) == OpenTimes(flights, t)
    ensures flights[f].Open() && !g.Open() ==> OpenTimes(flights, t) == OpenTimes(flights[f := g], t) + Times(g.items, t)
  {
    var init := flights[..|flights| - 1];
    if f == |flights| - 1 {
      assert flights[f := g][..|flights| - 1] == init;
    } else {
      assert flights[f := g][..|flights| - 1] == init[f := g];
      OpenTimesUpdate(init, f, g, t);
    }
  }

  /** Acking a list of messages settles each of them once. */
  lemma {:induction false} AcksAppended(log: seq<Settlement>, items: seq<Pending>, t: nat)
    ensures SettledTimes(log + Acks(items), t) == SettledTimes(log, t) + Times(items, t)
    ensures AckCount(log + Acks(items)) == AckCount(log) + |items|
    ensures RejectCount(log + Acks(items)) == RejectCount(log)
  {
    if items == [] {
      assert log + [] == log;
    } else {
      var init, last := items[..|items| - 1], items[|items| - 1];
      AcksAppended(log, init, t);
      var a := log + Acks(items);
      assert a[..|a| - 1] == log + Acks(init) && a[|a| - 1] == Ack(last.msg);
    }
  }

  /** So does requeueing or rejecting them; the rejects are the redelivered ones. */
  lemma {:induction false} VerdictsAppended(log: seq<Settlement>, items: seq<Pending>, t: nat)
    ensures SettledTimes(log + Verdicts(items), t) == SettledTimes(log, t) + Times(items, t)
    ensures AckCount(log + Verdicts(items)) == AckCount(log)
    ensures RejectCount(log + Verdicts(items)) == RejectCount(log) + Redelivered(items)
  {
    if items == [] {
      assert log + [] == log;
    } else {
      var init, last := items[..|items| - 1], items[|items| - 1];
      VerdictsAppended(log, init, t);
      var v := log + Verdicts(items);
      assert v[..|v| - 1] == log + Verdicts(init) && v[|v| - 1] == Verdict(last.msg);
    }
  }

  lemma FlushKeepsInvariant(w: State)
    requires Partitioned(w) && CountersAgree(w) && RepliesFit(w)
    ensures Invariant(Flush(w))
  {
    if w.batch != [] {
      var flights := w.flights + [Flight(w.batch, Waiting)];
      assert flights[..|flights| - 1] == w.flights;
    }
  }

  lemma OneMoreReject(log: seq<Settlement>, d: Delivery)
    ensures forall t: nat :: SettledTimes(log + [Reject(d)], t) == SettledTimes(log, t) + (if d.tag == t then 1 else 0)
    ensures AckCount(log + [Reject(d)]) == AckCount(log) && RejectCount(log + [Reject(d)]) == RejectCount(log) + 1
  {
    var longer := log + [Reject(d)];
    assert longer[..|longer| - 1] == log && longer[|longer| - 1] == Reject(d);
  }

  lemma RejectKeepsInvariant(w: State, d: Delivery)
    requires Invariant(w) && d.tag == w.delivered
    ensures Invariant(w.(delivered := w.delivered + 1, settled := w.settled + [Reject(d)], failed := w.failed + 1))
  {
    OneMoreReject(w.settled, d);
    var log := w.settled + [Reject(d)];
    forall t: nat
      ensures Times(w.batch, t) + OpenTimes(w.flights, t) + SettledTimes(log, t) == if t < w.delivered + 1 then 1 else 0
    {
      assert Times(w.batch, t) + OpenTimes(w.flights, t) + SettledTimes(w.settled, t) == if t < w.delivered then 1 else 0;
    }
  }

  lemma PushKeepsPartition(w: State, p: Pending)
    requires Invariant(w) && p.msg.tag == w.delivered
    ensures Partitioned(w.(delivered := w.delivered + 1, batch := w.batch + [p]))
  {
    var batch := w.batch + [p];
    assert batch[..|batch| - 1] == w.batch && batch[|batch| - 1] == p;
    forall t: nat
      ensures Times(batch, t) + OpenTimes(w.flights, t) + SettledTimes(w.settled, t) == if t < w.delivered + 1 then 1 else 0
    {
      assert Times(batch, t) == Times(w.batch, t) + (if p.msg.tag == t then 1 else 0);
    }
  }

  lemma ConsumeKeepsInvariant(w: State, d: Delivery, randomId: EventId)
    requires Invariant(w) && d.tag == w.delivered
    ensures Invariant(Consume(w, d, randomId))
  {
    match d.body
    case Malformed => RejectKeepsInvariant(w, d);
    case Click(click) =>
      var p := Pending(d, click, EventIdOf(d, randomId));
      PushKeepsPartition(w, p);
      FlushKeepsInvariant(w.(delivered := w.delivered + 1, batch := w.batch + [p]));
  }

  lemma ResumeKeepsInvariant(w: State, f: nat)
    requires Invariant(w) && CanResume(w, f)
    ensures Invariant(Resume(w, f))
  {
    var items := w.flights[f].items;
    var w' := Resume(w, f);
    AcksAppended(w.settled, items, 0);
    VerdictsAppended(w.settled, items, 0);
    forall t: nat
      ensures Times(w'.batch, t) + OpenTimes(w'.flights, t) + SettledTimes(w'.settled, t) == if t < w'.delivered then 1 else 0
    {
      OpenTimesUpdate(w.flights, f, w.flights[f].(reply := Finished), t);
      AcksAppended(w.settled, items, t);
      VerdictsAppended(w.settled, items, t);
    }
  }

  lemma AnswerKeepsInvariant(w: State, f: nat, reply: Reply)
    requires Invariant(w) && CanRun(w, OnAnswer(f, reply))
    ensures Invariant(Answer(w, f, reply))
  {
    var w' := Answer(w, f, reply);
    forall t: nat
      ensures Times(w'.batch, t) + OpenTimes(w'.flights, t) + SettledTimes(w'.settled, t) == if t < w'.delivered then 1 else 0
    {
      OpenTimesUpdate(w.flights, f, w.flights[f].(reply := reply), t);
    }
  }

  lemma RunKeepsInvariant(w: State, h: Handler)
    requires Invariant(w) && CanRun(w, h)
    ensures Invariant(Run(w, h))
  {
    match h
    case OnMessage(d, randomId) => ConsumeKeepsInvariant(w, d, randomId);
    case OnFlush => FlushKeepsInvariant(w);
    case OnAnswer(f, reply) => AnswerKeepsInvariant(w, f, reply);
    case OnResume(f) => ResumeKeepsInvariant(w, f);
  }

  /**
   * Over every interleaving of deliveries, timer flushes and overlapping database answers: each delivered
   * message is in the batch, in one open flush, or settled, and never in two of these or settled twice; a
   * non-empty batch has an armed timer and is below BATCH_SIZE; the counters equal the acks and the rejects.
   */
  lemma {:induction false} SettlementOverEveryRun(w: State, run: seq<Handler>)
    requires w == INITIAL || Invariant(w)
    requires CanRunAll(w, run)
    ensures var v := RunAll(w, run);
            Partitioned(v) && TimerArmed(v) && CountersAgree(v) && RepliesFit(v)
    decreases |run|
  {
    if run != [] {
      RunKeepsInvariant(w, run[0]);
      SettlementOverEveryRun(Run(w, run[0]), run[1..]);
    }
  }

  // ---------------------------------------------------------------- the worker

  class AnalyticsWorker {
    var batch: seq<Pending>
    var flushTimer: bool
    var flights: seq<Flight>
    var settled: seq<Settlement>
    var eventsProcessed: nat
    var eventsDuplicated: nat
    var eventsFailed: nat
    ghost var delivered: nat

    ghost function View(): State
      reads this
    {
      State(delivered, batch, flushTimer, flights, settled, eventsProcessed, eventsDuplicated, eventsFailed)
    }

    constructor ()
      ensures View() == INITIAL
    {
      batch, flushTimer, flights, settled := [], false, [], [];
      eventsProcessed, eventsDuplicated, eventsFailed := 0, 0, 0;
      delivered := 0;
    }

    /** flushBatch up to its await. The items of the new flight are the parameters of the insert. */
    method FlushBatch()
      modifies this
      ensures View() == Flush(old(View()))
      ensures batch == [] && !flushTimer && settled == old(settled)
      ensures flights == if old(batch) == [] then old(flights) else old(flights) + [Flight(old(batch), Waiting)]
    {
      if flushTimer {
        flushTimer := false;
      }
      if |batch| == 0 {
        return;
      }
      var toFlush := batch;
      batch := [];
      flights := flights + [Flight(toFlush, Waiting)];
    }

    /** flushBatch after its await: `outcome` is the inserted count, or the insert threw. */
    method ResumeFlush(f: nat, outcome: Result<nat, ()>)
      requires f < |flights| && flights[f].reply.Waiting?
      requires outcome.Ok? ==> outcome.value <= |flights[f].items|
      modifies this
      ensures var reply := if outcome.Ok? then Done(outcome.value) else Threw;
              View() == Resume(Answer(old(View()), f, reply), f)
      ensures Resumed(old(View()), View(), f, outcome)
    {
      var toFlush := flights[f].items;
      match outcome {
        case Ok(inserted) =>
          eventsProcessed := eventsProcessed + inserted;
          eventsDuplicated := eventsDuplicated + (|toFlush| - inserted);
          AckAll(toFlush);
        case Err(_) =>
          NackAll(toFlush);
      }
      flights := flights[f := flights[f].(reply := Finished)];
      assert old(flights)[f := flights[f].(reply := if outcome.Ok? then Done(outcome.value) else Threw)][f := flights[f]]
          == flights;
      ResumeMeans(old(View()), f, outcome);
    }

    method AckAll(toFlush: seq<Pending>)
      modifies this`settled
      ensures settled == old(settled) + Acks(toFlush)
    {
      ghost var log := settled;
      for i := 0 to |toFlush|
        invariant settled == log + Acks(toFlush[..i])
      {
        assert toFlush[..i + 1][..i] == toFlush[..i];
        settled := settled + [Ack(toFlush[i].msg)];
      }
      assert toFlush[..|toFlush|] == toFlush;
    }

    /** First delivery: requeue. Redelivery: dead-letter. */
    method NackAll(toFlush: seq<Pending>)
      modifies this`settled, this`eventsFailed
      ensures settled == old(settled) + Verdicts(toFlush)
      ensures eventsFailed == old(eventsFailed) + Redelivered(toFlush)
    {
      ghost var log, failedBefore := settled, eventsFailed;
      for i := 0 to |toFlush|
        invariant settled == log + Verdicts(toFlush[..i])
        invariant eventsFailed == failedBefore + Redelivered(toFlush[..i])
      {
        assert toFlush[..i + 1][..i] == toFlush[..i];
        if toFlush[i].msg.redelivered {
          settled := settled + [Reject(toFlush[i].msg)];
          eventsFailed := eventsFailed + 1;
        } else {
          settled := settled + [Requeue(toFlush[i].msg)];
        }
      }
      assert toFlush[..|toFlush|] == toFlush;
    }

    /** The consume callback. `randomId` is the random id used when a message carries none. */
    method HandleMessage(d: Delivery, randomId: EventId)
      modifies this
      ensures View() == Consume(old(View()), d, randomId)
      ensures d.body.Malformed? ==>
                && batch == old(batch) && flights == old(flights) && flushTimer == old(flushTimer)
                && settled == old(settled) + [Reject(d)] && eventsFailed == old(eventsFailed) + 1
      ensures d.body.Click? ==>
                && Queued(old(View()), View(), d, randomId)
                && settled == old(settled) && eventsFailed == old(eventsFailed)
      ensures eventsProcessed == old(eventsProcessed) && eventsDuplicated == old(eventsDuplicated)
    {
      delivered := delivered + 1;
      match d.body {
        case Malformed =>
          settled := settled + [Reject(d)];
          eventsFailed := eventsFailed + 1;
        case Click(click) =>
          var eventId := if d.messageId.Some? then d.messageId.value else randomId;
          batch := batch + [Pending(d, click, eventId)];
          if |batch| >= BATCH_SIZE {
            FlushBatch();
          } else if !flushTimer {
            flushTimer := true;
          }
      }
    }
  }
}
