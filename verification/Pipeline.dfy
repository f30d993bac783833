/**
 * The click-event pipeline as one state machine: outbox rows, publishers, the broker's copies, workers with
 * their overlapping flushes, the click table, and the dead-letter inspector. Every await of the code is a
 * boundary between two steps; crashes, lost replies and late commits are steps of their own.
 *
 * The transition of each step is written with the functions the classes of modules Outbox, Publisher, Worker
 * and ClickStore are proved to implement.
 */
module Pipeline {
  import opened Types
  import opened ClickStore
  import Outbox
  import Publisher
  import Worker

  /** Where the broker has a copy. A held copy is named by the flush stage of the worker that holds it. */
  datatype Place = Queued | InBatch(worker: nat) | InFlight(worker: nat, flight: nat) | Dead | Inspecting

  datatype Copy = Copy(event: EventId, body: Body, redelivered: bool, place: Place)

  /**
   * The fields from `appended` on are history: they record what happened and no step reads them.
   * `detached` holds inserts whose worker lost its channel while the statement was under way.
   */
  datatype State = State(
    clock: Time,
    outbox: Outbox.Table,
    publishers: map<nat, Publisher.Phase>,
    workers: map<nat, Worker.State>,
    copies: map<CopyKey, Copy>,
    detached: seq<seq<Worker.Pending>>,
    clicks: seq<ClickRow>,
    appended: map<RowId, EventId>,
    bodies: map<EventId, Body>,
    claims: map<RowId, nat>,
    accepted: set<CopyKey>,
    requeued: set<CopyKey>,
    observed: set<EventId>,
    insertions: seq<EventId>)

  datatype Step =
    | Append(e: EventId, body: Body)
    | Tick(elapsed: nat)
    | Connect(p: nat)
    | Claim(p: nat, locked: set<RowId>, replied: bool)
    | Take(p: nat)
    | Confirm(p: nat)
    | Mark(p: nat, replied: bool)
    | PublisherFails(p: nat)
    | PurgeOutbox(cutoff: Time)
    | Deliver(w: nat, k: CopyKey, randomId: EventId)
    | Flush(w: nat)
    | Insert(w: nat, f: nat, replied: bool)
    | InsertFails(w: nat, f: nat)
    | Resume(w: nat, f: nat)
    | WorkerCrashes(w: nat)
    | LateInsert(i: nat)
    | LateInsertFails(i: nat)
    | PurgeClicks(cutoff: Time)
    | Inspect(k: CopyKey)
    | Observe(k: CopyKey, acked: bool)
    | InspectorCrashes

  const DAY: nat := 24 * 3600 * 1000
  /** The hourly purge of the API server keeps published rows 7 days and raw clicks 90 days. */
  const OUTBOX_RETENTION: nat := 7 * DAY
  const CLICK_RETENTION: nat := 90 * DAY

  // ---------------------------------------------------------------- the broker's side of worker steps

  /** The broker handles one call on a worker's channel. */
  function Settled(copies: map<CopyKey, Copy>, call: Worker.Settlement): map<CopyKey, Copy> {
    var k := call.msg.copy;
    if k !in copies then copies
    else
      match call
      case Ack(_) => copies - {k}
      case Requeue(_) => copies[k := copies[k].(place := Queued, redelivered := true)]
      case Reject(_) => copies[k := copies[k].(place := Dead)]
  }

  function SettledAll(copies: map<CopyKey, Copy>, calls: seq<Worker.Settlement>): map<CopyKey, Copy> {
    if calls == [] then copies else Settled(SettledAll(copies, calls[..|calls| - 1]), calls[|calls| - 1])
  }

  /** The batch of worker w has become flight f. */
  function Spliced(copies: map<CopyKey, Copy>, w: nat, f: nat): map<CopyKey, Copy> {
    map k | k in copies :: if copies[k].place == InBatch(w) then copies[k].(place := InFlight(w, f)) else copies[k]
  }

  predicate HeldBy(c: Copy, w: nat) {
    match c.place
    case InBatch(v) => v == w
    case InFlight(v, _) => v == w
    case _ => false
  }

  /** Channel w is gone: everything unsettled on it goes back to the queue, flagged as redelivered. */
  function Recovered(copies: map<CopyKey, Copy>, w: nat): map<CopyKey, Copy> {
    map k | k in copies ::
      if HeldBy(copies[k], w) then copies[k].(place := Queued, redelivered := true) else copies[k]
  }

  /** The inserts of worker w still under way. */
  function Stranded(flights: seq<Worker.Flight>): seq<seq<Worker.Pending>> {
    if flights == [] then []
    else
      var last := flights[|flights| - 1];
      Stranded(flights[..|flights| - 1]) + (if last.reply.Waiting? then [last.items] else [])
  }

  function RowsOf(items: seq<Worker.Pending>): (rows: seq<ClickRow>)
    ensures |rows| == |items|
  {
    seq(|items|, i requires 0 <= i < |items| => ClickRow(items[i].eventId, items[i].parsed))
  }

  /** Ids of the rows a statement added, in order. */
  function NewIds(before: seq<ClickRow>, after: seq<ClickRow>): seq<EventId>
    requires |before| <= |after|
  {
    seq(|after| - |before|, i requires 0 <= i < |after| - |before| => after[|before| + i].eventId)
  }

  function CopiesOf(items: seq<Worker.Pending>): set<CopyKey> {
    set p | p in items :: p.msg.copy
  }

  // ---------------------------------------------------------------- the steps

  predicate HasFlight(s: State, w: nat, f: nat) {
    w in s.workers && f < |s.workers[w].flights|
  }

  predicate Enabled(s: State, step: Step) {
    match step
    case Append(e, _) => e !in s.bodies
    case Tick(_) => true
    case Connect(p) => p in s.publishers && s.publishers[p].Offline?
    case Claim(p, _, _) => p in s.publishers && s.publishers[p].Ready?
    case Take(p) => p in s.publishers && s.publishers[p].Sending? && s.publishers[p].taken < |s.publishers[p].claimed|
    case Confirm(p) => p in s.publishers && s.publishers[p].Sending? && s.publishers[p].taken == |s.publishers[p].claimed|
    case Mark(p, _) => p in s.publishers && s.publishers[p].Marking?
    case PublisherFails(p) => p in s.publishers
    case PurgeOutbox(cutoff) => cutoff <= s.clock - OUTBOX_RETENTION
    case Deliver(w, k, _) =>
      && w in s.workers && k in s.copies && s.copies[k].place == Queued
      && |set c | c in s.copies && HeldBy(s.copies[c], w)| < Worker.PREFETCH
    case Flush(w) => w in s.workers
    case Insert(w, f, _) => HasFlight(s, w, f) && s.workers[w].flights[f].reply.Waiting?
    case InsertFails(w, f) => HasFlight(s, w, f) && s.workers[w].flights[f].reply.Waiting?
    case Resume(w, f) => HasFlight(s, w, f) && Worker.CanResume(s.workers[w], f)
    case WorkerCrashes(w) => w in s.workers
    case LateInsert(i) => i < |s.detached|
    case LateInsertFails(i) => i < |s.detached|
    case PurgeClicks(cutoff) => cutoff <= s.clock - CLICK_RETENTION
    case Inspect(k) => k in s.copies && s.copies[k].place == Dead
    case Observe(k, _) => k in s.copies && s.copies[k].place == Inspecting
    case InspectorCrashes => true
  }

  ghost function DoAppend(s: State, e: EventId, body: Body): State {
    s.(outbox := Outbox.Append(s.outbox, e, body),
       appended := s.appended[s.outbox.next := e],
       bodies := s.bodies[e := body],
       claims := s.claims[s.outbox.next := 0])
  }

  /** The rows a claim takes at this moment. */
  function ClaimedIds(s: State, locked: set<RowId>): (ids: seq<RowId>)
    ensures forall id <- ids :: id in s.outbox.rows
  {
    Outbox.SelectIsFirstDue(s.outbox, 0, s.clock, locked, Outbox.CLAIM_LIMIT);
    Outbox.Select(s.outbox, 0, s.clock, locked, Outbox.CLAIM_LIMIT)
  }

  function DoClaim(s: State, p: nat, locked: set<RowId>, replied: bool): State {
    var ids := ClaimedIds(s, locked);
    s.(outbox := Outbox.Claim(s.outbox, Outbox.IdSet(ids), s.clock),
       claims := map r | r in s.claims :: if r in ids then s.claims[r] + 1 else s.claims[r],
       publishers := s.publishers[p :=
         if replied then Publisher.AfterClaim(Outbox.Records(s.outbox, ids)) else Publisher.Offline])
  }

  function DoTake(s: State, p: nat): State
    requires Enabled(s, Take(p))
  {
    var ph := s.publishers[p];
    var m := Publisher.NextMessage(ph);
    s.(copies := s.copies[m.copy := Copy(m.messageId, m.body, false, Queued)],
       accepted := s.accepted + {m.copy},
       publishers := s.publishers[p := Publisher.Sending(ph.claimed, ph.taken + 1)])
  }

  function DoMark(s: State, p: nat, replied: bool): State
    requires Enabled(s, Mark(p, replied))
  {
    s.(outbox := Outbox.Mark(s.outbox, Outbox.IdSet(Publisher.RowIds(s.publishers[p].claimed)), s.clock),
       publishers := s.publishers[p := if replied then Publisher.Ready else Publisher.Offline])
  }

  function DeliveryOf(s: State, w: nat, k: CopyKey): Worker.Delivery
    requires w in s.workers && k in s.copies
  {
    var c := s.copies[k];
    Worker.Delivery(s.workers[w].delivered, k, c.redelivered, c.body, Some(c.event))
  }

  /** `randomId` is what the worker would use for a message without an id. */
  function DoDeliver(s: State, w: nat, k: CopyKey, randomId: EventId): State
    requires Enabled(s, Deliver(w, k, randomId))
  {
    var d := DeliveryOf(s, w, k);
    var worker := s.workers[w];
    var worker' := Worker.Consume(worker, d, randomId);
    var held := s.copies[k := s.copies[k].(place := InBatch(w))];
    s.(workers := s.workers[w := worker'],
       copies :=
         match s.copies[k].body
         case Malformed => Settled(s.copies, Worker.Reject(d))
         case Click(_) =>
           if |worker.batch| + 1 >= Worker.BATCH_SIZE then Spliced(held, w, |worker.flights|) else held)
  }

  function DoFlush(s: State, w: nat): State
    requires Enabled(s, Flush(w))
  {
    var worker := s.workers[w];
    s.(workers := s.workers[w := Worker.Flush(worker)],
       copies := if worker.batch == [] then s.copies else Spliced(s.copies, w, |worker.flights|))
  }

  /** The insert commits. */
  function Committed(s: State, rows: seq<ClickRow>): State {
    InsertAllRefinesMap(s.clicks, rows);
    var after := InsertAll(s.clicks, rows);
    s.(clicks := after, insertions := s.insertions + NewIds(s.clicks, after))
  }

  function DoInsert(s: State, w: nat, f: nat, replied: bool): State
    requires Enabled(s, Insert(w, f, replied))
  {
    var rows := RowsOf(s.workers[w].flights[f].items);
    var s' := Committed(s, rows);
    InsertAllRefinesMap(s.clicks, rows);
    var reply := if replied then Worker.Done(|s'.clicks| - |s.clicks|) else Worker.Threw;
    s'.(workers := s.workers[w := Worker.Answer(s.workers[w], f, reply)])
  }

  function DoResume(s: State, w: nat, f: nat): State
    requires Enabled(s, Resume(w, f))
  {
    var flight := s.workers[w].flights[f];
    var calls := if flight.reply.Done? then Worker.Acks(flight.items) else Worker.Verdicts(flight.items);
    s.(workers := s.workers[w := Worker.Resume(s.workers[w], f)],
       copies := SettledAll(s.copies, calls),
       requeued := s.requeued + RequeuedBy(s, Resume(w, f)))
  }

  /** The copies a step hands back to the queue with nack. */
  function RequeuedBy(s: State, step: Step): set<CopyKey> {
    if step.Resume? && Enabled(s, step) && s.workers[step.w].flights[step.f].reply.Threw? then
      set p | p in s.workers[step.w].flights[step.f].items && !p.msg.redelivered :: p.msg.copy
    else {}
  }

  function DoCrash(s: State, w: nat): State
    requires Enabled(s, WorkerCrashes(w))
  {
    s.(workers := s.workers[w := Worker.INITIAL],
       copies := Recovered(s.copies, w),
       detached := s.detached + Stranded(s.workers[w].flights))
  }

  function DoLateInsert(s: State, i: nat): State
    requires Enabled(s, LateInsert(i))
  {
    Committed(s, RowsOf(s.detached[i])).(detached := s.detached[..i] + s.detached[i + 1..])
  }

  ghost function Apply(s: State, step: Step): State
    requires Enabled(s, step)
  {
    match step
    case Append(e, body) => DoAppend(s, e, body)
    case Tick(elapsed) => s.(clock := s.clock + elapsed)
    case Connect(p) => s.(publishers := s.publishers[p := Publisher.Ready])
    case Claim(p, locked, replied) => DoClaim(s, p, locked, replied)
    case Take(p) => DoTake(s, p)
    case Confirm(p) => s.(publishers := s.publishers[p := Publisher.Marking(s.publishers[p].claimed)])
    case Mark(p, replied) => DoMark(s, p, replied)
    case PublisherFails(p) => s.(publishers := s.publishers[p := Publisher.Offline])
    case PurgeOutbox(cutoff) => s.(outbox := Outbox.Purge(s.outbox, cutoff))
    case Deliver(w, k, randomId) => DoDeliver(s, w, k, randomId)
    case Flush(w) => DoFlush(s, w)
    case Insert(w, f, replied) => DoInsert(s, w, f, replied)
    case InsertFails(w, f) => s.(workers := s.workers[w := Worker.Answer(s.workers[w], f, Worker.Threw)])
    case Resume(w, f) => DoResume(s, w, f)
    case WorkerCrashes(w) => DoCrash(s, w)
    case LateInsert(i) => DoLateInsert(s, i)
    case LateInsertFails(i) => s.(detached := s.detached[..i] + s.detached[i + 1..])
    case PurgeClicks(cutoff) => s.(clicks := PurgeRows(s.clicks, cutoff))
    case Inspect(k) => s.(copies := s.copies[k := s.copies[k].(place := Inspecting)])
    case Observe(k, acked) =>
      s.(observed := s.observed + {s.copies[k].event},
         copies := if acked then s.copies - {k} else s.copies[k := s.copies[k].(place := Dead, redelivered := true)])
    case InspectorCrashes =>
      s.(copies := map k | k in s.copies ::
           if s.copies[k].place == Inspecting then s.copies[k].(place := Dead, redelivered := true) else s.copies[k])
  }

  ghost predicate Init(s: State) {
    && s.outbox == Outbox.Table(map[], 0)
    && (forall p <- s.publishers :: s.publishers[p] == Publisher.Offline)
    && (forall w <- s.workers :: s.workers[w] == Worker.INITIAL)
    && s.copies == map[] && s.detached == [] && s.clicks == []
    && s.appended == map[] && s.bodies == map[] && s.claims == map[]
    && s.accepted == {} && s.requeued == {} && s.observed == {} && s.insertions == []
  }

  ghost predicate CanExec(s: State, run: seq<Step>)
    decreases |run|
  {
    run == [] || (Enabled(s, run[0]) && CanExec(Apply(s, run[0]), run[1..]))
  }

  ghost function Exec(s: State, run: seq<Step>): State
    requires CanExec(s, run)
    decreases |run|
  {
    if run == [] then s else Exec(Apply(s, run[0]), run[1..])
  }
}
