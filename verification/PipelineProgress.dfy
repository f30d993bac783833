/**
 * Progress of a system without failures: every step that finds work decreases a well-founded measure, the others
 * leave it alone, one that finds work is enabled until nothing is left to do, and then every event that was not
 * already on its way to the dead letters has been inserted.
 */
module PipelineProgress {
  import opened Types
  import opened ClickStore
  import opened Pipeline
  import opened PipelineInvariant
  import Outbox
  import Publisher
  import Worker

  // ---------------------------------------------------------------- healthy steps

  /**
   * A step of a system without failures: the database and the broker answer, and nobody crashes. It may append,
   * poll in vain, claim what a slow publisher still has, let any time pass, and run the purges.
   */
  predicate Healthy(s: State, step: Step) {
    && Enabled(s, step)
    && !step.PublisherFails? && !step.InsertFails? && !step.WorkerCrashes? && !step.LateInsertFails?
    && !step.InspectorCrashes?
    && (step.Claim? || step.Mark? || step.Insert? ==> step.replied)
    && (step.Observe? ==> step.acked)
  }

  predicate AllDue(outbox: Outbox.Table, at: Time) {
    forall r <- outbox.rows :: Outbox.Pending(outbox.rows[r]) ==> Outbox.Due(outbox.rows[r], at)
  }

  /** A step that finds nothing to do: an empty poll or flush, time passing while everything is due, a purge. */
  predicate Idle(s: State, step: Step)
    requires Enabled(s, step)
  {
    match step
    case Tick(elapsed) => elapsed == 0 || AllDue(s.outbox, s.clock)
    case Claim(_, locked, _) => ClaimedIds(s, locked) == []
    case Flush(w) => s.workers[w].batch == []
    case PurgeOutbox(_) => true
    case PurgeClicks(_) => true
    case _ => false
  }

  /** A healthy step that gets some of the work there is done. */
  predicate Productive(s: State, step: Step) {
    Healthy(s, step) && !step.Append? && !Idle(s, step)
  }

  // ---------------------------------------------------------------- the measure

  /** Row r is in a batch that the publisher will mark. */
  ghost predicate InBatchOf(ph: Publisher.Phase, r: RowId) {
    (ph.Sending? || ph.Marking?) && exists i :: 0 <= i < |ph.claimed| && ph.claimed[i].id == r
  }

  ghost predicate Relays(ph: Publisher.Phase, outbox: Outbox.Table) {
    exists r <- Outbox.Backlog(outbox) :: InBatchOf(ph, r)
  }

  /** Publishers that have no pending row. */
  ghost function Free(outbox: Outbox.Table, publishers: map<nat, Publisher.Phase>): set<nat> {
    set p | p in publishers && !Relays(publishers[p], outbox)
  }

  ghost function Untaken(publishers: map<nat, Publisher.Phase>): set<(nat, int)> {
    set p, i | p in publishers && publishers[p].Sending? && publishers[p].taken <= i < |publishers[p].claimed| :: (p, i)
  }

  ghost function SendingOnes(publishers: map<nat, Publisher.Phase>): set<nat> {
    set p | p in publishers && publishers[p].Sending?
  }

  ghost function MarkingOnes(publishers: map<nat, Publisher.Phase>): set<nat> {
    set p | p in publishers && publishers[p].Marking?
  }

  ghost function OfflineOnes(publishers: map<nat, Publisher.Phase>): set<nat> {
    set p | p in publishers && publishers[p].Offline?
  }

  ghost function Flights(workers: map<nat, Worker.State>, kind: nat): set<(nat, int)> {
    set w, f | w in workers && 0 <= f < |workers[w].flights| && KindOf(workers[w].flights[f].reply) == kind :: (w, f)
  }

  function KindOf(reply: Worker.Reply): nat {
    match reply
    case Finished => 0
    case Done(_) => 1
    case Waiting => 2
    case Threw => 3
  }

  ghost function Batches(workers: map<nat, Worker.State>): set<nat> {
    set w | w in workers && workers[w].batch != []
  }

  ghost function At(copies: map<CopyKey, Copy>, place: Place): set<CopyKey> {
    set k | k in copies && copies[k].place == place
  }

  lemma {:induction false} DueHorizon(rows: map<RowId, Outbox.Row>, now: Time) returns (elapsed: nat)
    ensures forall r <- rows :: Outbox.Pending(rows[r]) ==> Outbox.Due(rows[r], now + elapsed)
    decreases |rows|
  {
    if rows == map[] {
      elapsed := 0;
    } else {
      var r :| r in rows;
      var rest := rows - {r};
      assert rest.Keys == rows.Keys - {r} && |rest| < |rows| by {
        assert |rest.Keys| < |rows.Keys|;
        assert |rest.Keys| == |rest| && |rows.Keys| == |rows|;
      }
      elapsed := DueHorizon(rest, now);
      if rows[r].nextAttemptAt.Some? && rows[r].nextAttemptAt.value > now + elapsed {
        elapsed := rows[r].nextAttemptAt.value - now;
      }
      forall q <- rows | Outbox.Pending(rows[q]) ensures Outbox.Due(rows[q], now + elapsed) {
        if q != r {
          assert q in rest && rest[q] == rows[q];
        }
      }
    }
  }

  /** n is the time until every pending row is due. */
  ghost predicate IsWait(outbox: Outbox.Table, now: Time, n: nat) {
    AllDue(outbox, now + n) && (n > 0 ==> !AllDue(outbox, now + n - 1))
  }

  lemma {:induction false} LeastWait(outbox: Outbox.Table, now: Time, enough: nat) returns (n: nat)
    requires AllDue(outbox, now + enough)
    ensures IsWait(outbox, now, n)
  {
    if enough > 0 && AllDue(outbox, now + enough - 1) {
      n := LeastWait(outbox, now, enough - 1);
    } else {
      n := enough;
    }
  }

  lemma WaitExists(outbox: Outbox.Table, now: Time)
    ensures exists n: nat :: IsWait(outbox, now, n)
  {
    var enough := DueHorizon(outbox.rows, now);
    var n := LeastWait(outbox, now, enough);
  }

  lemma StaysDue(outbox: Outbox.Table, at: Time, later: Time)
    requires AllDue(outbox, at) && at <= later
    ensures AllDue(outbox, later)
  {
  }

  ghost function Wait(outbox: Outbox.Table, now: Time): (n: nat)
    ensures IsWait(outbox, now, n)
  {
    WaitExists(outbox, now);
    var n: nat :| IsWait(outbox, now, n);
    n
  }

  lemma WaitIsUnique(outbox: Outbox.Table, now: Time, n: nat)
    requires IsWait(outbox, now, n)
    ensures Wait(outbox, now) == n
  {
    var m := Wait(outbox, now);
    if m < n {
      StaysDue(outbox, now + m, now + n - 1);
    } else if n < m {
      StaysDue(outbox, now + n, now + m - 1);
    }
  }

  /** Passing time uses the wait up. */
  lemma WaitPasses(outbox: Outbox.Table, now: Time, elapsed: nat)
    ensures Wait(outbox, now + elapsed) == if Wait(outbox, now) < elapsed then 0 else Wait(outbox, now) - elapsed
  {
    var n := Wait(outbox, now);
    if n < elapsed {
      StaysDue(outbox, now + n, now + elapsed);
      WaitIsUnique(outbox, now + elapsed, 0);
    } else {
      WaitIsUnique(outbox, now + elapsed, n - elapsed);
    }
  }

  /** Lexicographic: publication first, then failed flushes, then the way of a copy, then waiting. */
  ghost function Measure(s: State): (m: seq<nat>)
    ensures |m| == 14
  {
    [ |Outbox.Backlog(s.outbox)|,
      |Free(s.outbox, s.publishers)|,
      |Untaken(s.publishers)|,
      |SendingOnes(s.publishers)|,
      |MarkingOnes(s.publishers)|,
      |OfflineOnes(s.publishers)|,
      |Flights(s.workers, 3)|,
      |At(s.copies, Queued)|,
      |Batches(s.workers)|,
      |Flights(s.workers, 2)|,
      |Flights(s.workers, 1)|,
      |At(s.copies, Dead)| + |At(s.copies, Inspecting)| + |At(s.copies, Dead)|,
      |s.detached|,
      Wait(s.outbox, s.clock) ]
  }

  /** Strictly smaller in the lexicographic order, written out. */
  ghost predicate Before(a: seq<nat>, b: seq<nat>) {
    && |a| == 14 && |b| == 14
    && ( a[0] < b[0] || (a[0] == b[0] && (
         a[1] < b[1] || (a[1] == b[1] && (
         a[2] < b[2] || (a[2] == b[2] && (
         a[3] < b[3] || (a[3] == b[3] && (
         a[4] < b[4] || (a[4] == b[4] && (
         a[5] < b[5] || (a[5] == b[5] && (
         a[6] < b[6] || (a[6] == b[6] && (
         a[7] < b[7] || (a[7] == b[7] && (
         a[8] < b[8] || (a[8] == b[8] && (
         a[9] < b[9] || (a[9] == b[9] && (
         a[10] < b[10] || (a[10] == b[10] && (
         a[11] < b[11] || (a[11] == b[11] && (
         a[12] < b[12] || (a[12] == b[12] && a[13] < b[13]))))))))))))))))))))))))))
  }

  // ---------------------------------------------------------------- every healthy step decreases it

  /** A publisher moves to a phase with the same rows, and sends nothing it was not sending. */
  lemma PhaseSets(s: State, p: nat, ph: Publisher.Phase)
    requires p in s.publishers && !ph.Sending?
    requires forall r :: InBatchOf(ph, r) <==> InBatchOf(s.publishers[p], r)
    requires s.publishers[p].Sending? ==> s.publishers[p].taken == |s.publishers[p].claimed|
    ensures var publishers := s.publishers[p := ph];
            && Free(s.outbox, publishers) == Free(s.outbox, s.publishers)
            && Untaken(publishers) == Untaken(s.publishers)
            && SendingOnes(publishers) == SendingOnes(s.publishers) - {p}
            && (!ph.Marking? && !s.publishers[p].Marking? ==> MarkingOnes(publishers) == MarkingOnes(s.publishers))
            && (!ph.Offline? ==> OfflineOnes(publishers) == OfflineOnes(s.publishers) - {p})
  {
    SameRelays(s.outbox, s.publishers, p, ph);
  }

  lemma ConnectSets(s: State, p: nat)
    requires Enabled(s, Connect(p))
    ensures var publishers := s.publishers[p := Publisher.Ready];
            && |Free(s.outbox, publishers)| == |Free(s.outbox, s.publishers)|
            && |Untaken(publishers)| == |Untaken(s.publishers)|
            && |SendingOnes(publishers)| == |SendingOnes(s.publishers)|
            && |MarkingOnes(publishers)| == |MarkingOnes(s.publishers)|
            && |OfflineOnes(publishers)| < |OfflineOnes(s.publishers)|
  {
    PhaseSets(s, p, Publisher.Ready);
    assert SendingOnes(s.publishers) - {p} == SendingOnes(s.publishers);
    assert p in OfflineOnes(s.publishers);
  }

  lemma ConnectDecreases(s: State, p: nat)
    requires Enabled(s, Connect(p))
    ensures Before(Measure(s.(publishers := s.publishers[p := Publisher.Ready])), Measure(s))
  {
    ConnectSets(s, p);
  }

  /** A publisher that has the same rows before and after. */
  lemma SameRelays(outbox: Outbox.Table, publishers: map<nat, Publisher.Phase>, p: nat, ph: Publisher.Phase)
    requires p in publishers && forall r :: InBatchOf(ph, r) <==> InBatchOf(publishers[p], r)
    ensures Free(outbox, publishers[p := ph]) == Free(outbox, publishers)
  {
    assert Relays(ph, outbox) <==> Relays(publishers[p], outbox);
  }

  lemma SamePending(a: Outbox.Table, b: Outbox.Table, publishers: map<nat, Publisher.Phase>)
    requires Outbox.Backlog(a) == Outbox.Backlog(b)
    ensures Free(a, publishers) == Free(b, publishers)
  {
    forall p <- publishers ensures Relays(publishers[p], a) <==> Relays(publishers[p], b) {
    }
  }

  /** A claim with anything in it occupies its publisher, whoever else has the rows. */
  lemma ClaimSets(s: State, p: nat, locked: set<RowId>)
    requires Enabled(s, Claim(p, locked, true)) && ClaimedIds(s, locked) != []
    ensures var s' := DoClaim(s, p, locked, true);
            && |Outbox.Backlog(s'.outbox)| == |Outbox.Backlog(s.outbox)|
            && |Free(s'.outbox, s'.publishers)| < |Free(s.outbox, s.publishers)|
  {
    var s' := DoClaim(s, p, locked, true);
    var ids := ClaimedIds(s, locked);
    Outbox.SelectIsFirstDue(s.outbox, 0, s.clock, locked, Outbox.CLAIM_LIMIT);
    assert Outbox.Backlog(s'.outbox) == Outbox.Backlog(s.outbox);
    SamePending(s'.outbox, s.outbox, s'.publishers);
    assert ids[0] in ids && ids[0] in Outbox.Backlog(s.outbox);
    assert s'.publishers[p].claimed[0].id == ids[0];
    assert InBatchOf(s'.publishers[p], ids[0]);
    assert Free(s.outbox, s'.publishers) == Free(s.outbox, s.publishers) - {p};
    assert p in Free(s.outbox, s.publishers);
  }

  lemma ClaimDecreases(s: State, p: nat, locked: set<RowId>)
    requires Enabled(s, Claim(p, locked, true)) && ClaimedIds(s, locked) != []
    ensures Before(Measure(DoClaim(s, p, locked, true)), Measure(s))
  {
    ClaimSets(s, p, locked);
  }

  lemma TakeSets(s: State, p: nat)
    requires Enabled(s, Take(p))
    ensures var s' := DoTake(s, p);
            && s'.outbox == s.outbox
            && |Free(s.outbox, s'.publishers)| == |Free(s.outbox, s.publishers)|
            && |Untaken(s'.publishers)| < |Untaken(s.publishers)|
  {
    var s' := DoTake(s, p);
    SameRelays(s.outbox, s.publishers, p, s'.publishers[p]);
    assert Untaken(s'.publishers) == Untaken(s.publishers) - {(p, s.publishers[p].taken)};
  }

  lemma TakeDecreases(s: State, p: nat)
    requires Enabled(s, Take(p))
    ensures Before(Measure(DoTake(s, p)), Measure(s))
  {
    TakeSets(s, p);
  }

  lemma ConfirmDecreases(s: State, p: nat)
    requires Enabled(s, Confirm(p))
    ensures Before(Measure(s.(publishers := s.publishers[p := Publisher.Marking(s.publishers[p].claimed)])), Measure(s))
  {
    ConfirmSets(s, p);
  }

  lemma ConfirmSets(s: State, p: nat)
    requires Enabled(s, Confirm(p))
    ensures var publishers := s.publishers[p := Publisher.Marking(s.publishers[p].claimed)];
            && |Free(s.outbox, publishers)| == |Free(s.outbox, s.publishers)|
            && |Untaken(publishers)| == |Untaken(s.publishers)|
            && |SendingOnes(publishers)| < |SendingOnes(s.publishers)|
  {
    PhaseSets(s, p, Publisher.Marking(s.publishers[p].claimed));
    assert p in SendingOnes(s.publishers);
  }

  /** Marking takes rows off the pending ones, or at least frees the publisher. */
  lemma MarkSets(s: State, p: nat)
    requires Enabled(s, Mark(p, true))
    ensures var s' := DoMark(s, p, true);
            || |Outbox.Backlog(s'.outbox)| < |Outbox.Backlog(s.outbox)|
            || (&& |Outbox.Backlog(s'.outbox)| == |Outbox.Backlog(s.outbox)|
                && |Free(s'.outbox, s'.publishers)| == |Free(s.outbox, s.publishers)|
                && |Untaken(s'.publishers)| == |Untaken(s.publishers)|
                && |SendingOnes(s'.publishers)| == |SendingOnes(s.publishers)|
                && |MarkingOnes(s'.publishers)| < |MarkingOnes(s.publishers)|)
  {
    var s' := DoMark(s, p, true);
    var claimed := s.publishers[p].claimed;
    var ids := Publisher.RowIds(claimed);
    assert Outbox.Backlog(s'.outbox) <= Outbox.Backlog(s.outbox);
    SubsetSize(Outbox.Backlog(s'.outbox), Outbox.Backlog(s.outbox));
    if Outbox.Backlog(s'.outbox) == Outbox.Backlog(s.outbox) {
      forall r | r in Outbox.Backlog(s.outbox) ensures !InBatchOf(s.publishers[p], r) {
        assert r in Outbox.Backlog(s'.outbox);
        assert r !in Outbox.IdSet(ids);
        forall i | 0 <= i < |claimed| ensures claimed[i].id != r {
          assert ids[i] == claimed[i].id && ids[i] in ids;
        }
      }
      SamePending(s'.outbox, s.outbox, s'.publishers);
      assert Free(s.outbox, s'.publishers) == Free(s.outbox, s.publishers);
      assert Untaken(s'.publishers) == Untaken(s.publishers);
      assert SendingOnes(s'.publishers) == SendingOnes(s.publishers);
      assert MarkingOnes(s'.publishers) == MarkingOnes(s.publishers) - {p};
    }
  }

  lemma MarkDecreases(s: State, p: nat)
    requires Enabled(s, Mark(p, true))
    ensures Before(Measure(DoMark(s, p, true)), Measure(s))
  {
    MarkSets(s, p);
  }

  lemma TickDecreases(s: State, elapsed: nat)
    requires elapsed > 0 && !AllDue(s.outbox, s.clock)
    ensures Before(Measure(s.(clock := s.clock + elapsed)), Measure(s))
  {
    WaitPasses(s.outbox, s.clock, elapsed);
  }

  lemma LateInsertDecreases(s: State, i: nat)
    requires Enabled(s, LateInsert(i))
    ensures Before(Measure(DoLateInsert(s, i)), Measure(s))
  {
  }

  /** A delivery opens no failed flush, and takes exactly its copy off the queue. */
  lemma DeliverEffect(s: State, w: nat, k: CopyKey, randomId: EventId)
    requires Enabled(s, Deliver(w, k, randomId))
    ensures var s' := DoDeliver(s, w, k, randomId);
            && s'.outbox == s.outbox && s'.publishers == s.publishers
            && s'.observed == s.observed && s'.bodies == s.bodies
            && s'.workers.Keys == s.workers.Keys
            && (forall v <- s.workers :: v != w ==> s'.workers[v] == s.workers[v])
            && s.workers[w].flights <= s'.workers[w].flights
            && (forall f :: |s.workers[w].flights| <= f < |s'.workers[w].flights| ==>
                  s'.workers[w].flights[f].reply == Worker.Waiting)
  {
  }

  lemma DeliverPlaces(s: State, w: nat, k: CopyKey, randomId: EventId)
    requires Enabled(s, Deliver(w, k, randomId))
    ensures var copies' := DoDeliver(s, w, k, randomId).copies;
            && copies'.Keys == s.copies.Keys
            && (forall c <- s.copies :: c != k ==>
                  || copies'[c] == s.copies[c]
                  || (s.copies[c].place.InBatch? && copies'[c].place.InFlight?
                      && copies'[c] == s.copies[c].(place := copies'[c].place)))
            && copies'[k] == s.copies[k].(place := copies'[k].place)
            && (if s.copies[k].body.Malformed? then copies'[k].place.Dead?
                else copies'[k].place.InBatch? || copies'[k].place.InFlight?)
  {
  }

  lemma FailedFlightsKept(workers: map<nat, Worker.State>, workers': map<nat, Worker.State>, w: nat)
    requires w in workers && workers'.Keys == workers.Keys
    requires forall v <- workers :: v != w ==> workers'[v] == workers[v]
    requires workers[w].flights <= workers'[w].flights
    requires forall f :: |workers[w].flights| <= f < |workers'[w].flights| ==> workers'[w].flights[f].reply == Worker.Waiting
    ensures Flights(workers', 3) == Flights(workers, 3)
  {
  }

  lemma QueueShrinks(copies: map<CopyKey, Copy>, copies': map<CopyKey, Copy>, k: CopyKey)
    requires k in copies && copies[k].place == Queued && copies'.Keys == copies.Keys
    requires forall c <- copies :: c != k ==> (copies'[c].place.Queued? <==> copies[c].place.Queued?)
    requires !copies'[k].place.Queued?
    ensures |At(copies', Queued)| < |At(copies, Queued)|
  {
    assert At(copies', Queued) == At(copies, Queued) - {k};
  }

  lemma DeliverDecreases(s: State, w: nat, k: CopyKey, randomId: EventId)
    requires Enabled(s, Deliver(w, k, randomId))
    ensures Before(Measure(DoDeliver(s, w, k, randomId)), Measure(s))
  {
    var s' := DoDeliver(s, w, k, randomId);
    DeliverEffect(s, w, k, randomId);
    DeliverPlaces(s, w, k, randomId);
    FailedFlightsKept(s.workers, s'.workers, w);
    QueueShrinks(s.copies, s'.copies, k);
  }

  lemma FlushDecreases(s: State, w: nat)
    requires Enabled(s, Flush(w)) && s.workers[w].batch != []
    ensures Before(Measure(Apply(s, Flush(w))), Measure(s))
  {
    FlushSizes(s.workers, s.copies, w);
  }

  lemma FlushSizes(workers: map<nat, Worker.State>, copies: map<CopyKey, Copy>, w: nat)
    requires w in workers && workers[w].batch != []
    ensures var workers' := workers[w := Worker.Flush(workers[w])];
            && |Flights(workers', 3)| == |Flights(workers, 3)|
            && |At(Spliced(copies, w, |workers[w].flights|), Queued)| == |At(copies, Queued)|
            && |Batches(workers')| < |Batches(workers)|
  {
    var workers' := workers[w := Worker.Flush(workers[w])];
    assert Flights(workers', 3) == Flights(workers, 3);
    assert At(Spliced(copies, w, |workers[w].flights|), Queued) == At(copies, Queued);
    assert Batches(workers') == Batches(workers) - {w};
    assert w in Batches(workers);
  }

  /** One flight changes kind. */
  lemma AnswerSets(workers: map<nat, Worker.State>, w: nat, f: nat, worker': Worker.State)
    requires w in workers && f < |workers[w].flights| && |worker'.flights| == |workers[w].flights|
    requires worker'.batch == workers[w].batch
    requires forall g :: 0 <= g < |worker'.flights| && g != f ==> worker'.flights[g] == workers[w].flights[g]
    ensures var before, after := KindOf(workers[w].flights[f].reply), KindOf(worker'.flights[f].reply);
            var workers' := workers[w := worker'];
            && Batches(workers') == Batches(workers)
            && (before != after ==> |Flights(workers', before)| < |Flights(workers, before)|)
            && (forall kind: nat :: kind != before && kind != after ==> Flights(workers', kind) == Flights(workers, kind))
  {
    var before, after := KindOf(workers[w].flights[f].reply), KindOf(worker'.flights[f].reply);
    var workers' := workers[w := worker'];
    if before != after {
      assert Flights(workers', before) == Flights(workers, before) - {(w, f)};
    }
  }

  lemma InsertEffect(s: State, w: nat, f: nat)
    requires Enabled(s, Insert(w, f, true))
    ensures var s' := DoInsert(s, w, f, true);
            && s'.outbox == s.outbox && s'.publishers == s.publishers && s'.copies == s.copies
            && |s.clicks| <= |s'.clicks|
            && s'.workers == s.workers[w := Worker.Answer(s.workers[w], f, Worker.Done(|s'.clicks| - |s.clicks|))]
  {
    InsertAllRefinesMap(s.clicks, RowsOf(s.workers[w].flights[f].items));
  }

  lemma InsertDecreases(s: State, w: nat, f: nat)
    requires Enabled(s, Insert(w, f, true))
    ensures Before(Measure(Apply(s, Insert(w, f, true))), Measure(s))
  {
    InsertEffect(s, w, f);
    InsertSizes(s, w, f);
  }

  lemma InsertSizes(s: State, w: nat, f: nat)
    requires Enabled(s, Insert(w, f, true))
    ensures var workers' := DoInsert(s, w, f, true).workers;
            && |Flights(workers', 3)| == |Flights(s.workers, 3)|
            && |Batches(workers')| == |Batches(s.workers)|
            && |Flights(workers', 2)| < |Flights(s.workers, 2)|
  {
    InsertEffect(s, w, f);
    AnswerSets(s.workers, w, f, DoInsert(s, w, f, true).workers[w]);
  }

  lemma ResumeEffect(s: State, w: nat, f: nat)
    requires Enabled(s, Resume(w, f))
    ensures var s' := DoResume(s, w, f);
            && s'.outbox == s.outbox && s'.publishers == s.publishers
            && s'.observed == s.observed && s'.bodies == s.bodies
            && s'.workers == s.workers[w := Worker.Resume(s.workers[w], f)]
  {
  }

  lemma ResumeDoneQueue(s: State, w: nat, f: nat)
    requires WorkerSide(s) && Enabled(s, Resume(w, f)) && s.workers[w].flights[f].reply.Done?
    ensures At(DoResume(s, w, f).copies, Queued) == At(s.copies, Queued)
    ensures forall c <- DoResume(s, w, f).copies :: c in s.copies && DoResume(s, w, f).copies[c] == s.copies[c]
  {
    AcksSettled(s.copies, s.workers[w].flights[f].items);
    FlightCopies(s, w, f);
  }

  lemma ResumeSets(s: State, w: nat, f: nat)
    requires Enabled(s, Resume(w, f))
    ensures var workers' := DoResume(s, w, f).workers;
            && Batches(workers') == Batches(s.workers)
            && Flights(workers', 2) == Flights(s.workers, 2)
            && (if s.workers[w].flights[f].reply.Threw? then
                  |Flights(workers', 3)| < |Flights(s.workers, 3)|
                else
                  Flights(workers', 3) == Flights(s.workers, 3) && |Flights(workers', 1)| < |Flights(s.workers, 1)|)
  {
    ResumeEffect(s, w, f);
    AnswerSets(s.workers, w, f, Worker.Resume(s.workers[w], f));
  }

  lemma ResumeThrewDecreases(s: State, w: nat, f: nat)
    requires Enabled(s, Resume(w, f)) && s.workers[w].flights[f].reply.Threw?
    ensures Before(Measure(DoResume(s, w, f)), Measure(s))
  {
    ResumeEffect(s, w, f);
    ResumeSets(s, w, f);
  }

  lemma ResumeDoneDecreases(s: State, w: nat, f: nat)
    requires WorkerSide(s) && Enabled(s, Resume(w, f)) && s.workers[w].flights[f].reply.Done?
    ensures Before(Measure(DoResume(s, w, f)), Measure(s))
  {
    ResumeDoneSizes(s, w, f);
  }

  lemma ResumeDoneSizes(s: State, w: nat, f: nat)
    requires WorkerSide(s) && Enabled(s, Resume(w, f)) && s.workers[w].flights[f].reply.Done?
    ensures var s' := DoResume(s, w, f);
            && s'.outbox == s.outbox && s'.publishers == s.publishers
            && |Flights(s'.workers, 3)| == |Flights(s.workers, 3)|
            && |At(s'.copies, Queued)| == |At(s.copies, Queued)|
            && |Batches(s'.workers)| == |Batches(s.workers)|
            && |Flights(s'.workers, 2)| == |Flights(s.workers, 2)|
            && |Flights(s'.workers, 1)| < |Flights(s.workers, 1)|
  {
    ResumeEffect(s, w, f);
    ResumeSets(s, w, f);
    ResumeDoneQueue(s, w, f);
  }

  lemma ResumeDecreases(s: State, w: nat, f: nat)
    requires WorkerSide(s) && Enabled(s, Resume(w, f))
    ensures Before(Measure(Apply(s, Resume(w, f))), Measure(s))
  {
    if s.workers[w].flights[f].reply.Threw? {
      ResumeThrewDecreases(s, w, f);
    } else {
      ResumeDoneDecreases(s, w, f);
    }
  }

  lemma InspectDecreases(s: State, k: CopyKey)
    requires Enabled(s, Inspect(k))
    ensures Before(Measure(s.(copies := s.copies[k := s.copies[k].(place := Inspecting)])), Measure(s))
  {
    var copies' := s.copies[k := s.copies[k].(place := Inspecting)];
    assert At(copies', Queued) == At(s.copies, Queued);
    assert At(copies', Dead) == At(s.copies, Dead) - {k};
    assert At(copies', Inspecting) == At(s.copies, Inspecting) + {k};
  }

  lemma ObserveDecreases(s: State, k: CopyKey)
    requires Enabled(s, Observe(k, true))
    ensures Before(Measure(Apply(s, Observe(k, true))), Measure(s))
  {
    var copies' := s.copies - {k};
    assert At(copies', Queued) == At(s.copies, Queued);
    assert At(copies', Dead) == At(s.copies, Dead);
    assert At(copies', Inspecting) == At(s.copies, Inspecting) - {k};
    assert Apply(s, Observe(k, true)).copies == copies';
  }

  lemma PublishingDecreases(s: State, step: Step)
    requires Productive(s, step) && (step.Connect? || step.Claim? || step.Take? || step.Confirm? || step.Mark?)
    ensures Before(Measure(Apply(s, step)), Measure(s))
  {
    if step.Connect? {
      ConnectDecreases(s, step.p);
    } else if step.Claim? {
      ClaimDecreases(s, step.p, step.locked);
    } else if step.Take? {
      TakeDecreases(s, step.p);
    } else if step.Confirm? {
      ConfirmDecreases(s, step.p);
    } else {
      MarkDecreases(s, step.p);
    }
  }

  lemma ConsumingDecreases(s: State, step: Step)
    requires WorkerSide(s) && Productive(s, step) && (step.Deliver? || step.Flush? || step.Insert? || step.Resume?)
    ensures Before(Measure(Apply(s, step)), Measure(s))
  {
    if step.Deliver? {
      DeliverDecreases(s, step.w, step.k, step.randomId);
    } else if step.Flush? {
      FlushDecreases(s, step.w);
    } else if step.Insert? {
      InsertDecreases(s, step.w, step.f);
    } else {
      ResumeDecreases(s, step.w, step.f);
    }
  }

  /** Every productive step, in whatever order they come, decreases the measure. */
  lemma HealthyDecreases(s: State, step: Step)
    requires Inv(s) && Productive(s, step)
    ensures Before(Measure(Apply(s, step)), Measure(s))
  {
    if step.Connect? || step.Claim? || step.Take? || step.Confirm? || step.Mark? {
      PublishingDecreases(s, step);
    } else if step.Deliver? || step.Flush? || step.Insert? || step.Resume? {
      ConsumingDecreases(s, step);
    } else if step.Tick? {
      TickDecreases(s, step.elapsed);
    } else {
      SettlingDecreases(s, step);
    }
  }

  lemma SettlingDecreases(s: State, step: Step)
    requires Inv(s) && Productive(s, step) && (step.LateInsert? || step.Inspect? || step.Observe?)
    ensures Before(Measure(Apply(s, step)), Measure(s))
  {
    if step.LateInsert? {
      LateInsertDecreases(s, step.i);
    } else if step.Inspect? {
      InspectDecreases(s, step.k);
    } else {
      ObserveDecreases(s, step.k);
    }
  }

  lemma IdleClaim(s: State, p: nat, locked: set<RowId>)
    requires Enabled(s, Claim(p, locked, true)) && ClaimedIds(s, locked) == []
    ensures DoClaim(s, p, locked, true) == s
  {
    assert Outbox.Claim(s.outbox, {}, s.clock).rows == s.outbox.rows;
    assert Outbox.IdSet([]) == {};
    assert s.publishers[p := Publisher.Ready] == s.publishers;
  }

  lemma IdleFlush(workers: map<nat, Worker.State>, w: nat)
    requires w in workers && workers[w].batch == []
    ensures var workers' := workers[w := Worker.Flush(workers[w])];
            && Batches(workers') == Batches(workers)
            && forall kind: nat :: Flights(workers', kind) == Flights(workers, kind)
  {
  }

  lemma PurgedOutbox(outbox: Outbox.Table, publishers: map<nat, Publisher.Phase>, cutoff: Time, now: Time)
    ensures var purged := Outbox.Purge(outbox, cutoff);
            && Outbox.Backlog(purged) == Outbox.Backlog(outbox) && Free(purged, publishers) == Free(outbox, publishers)
            && Wait(purged, now) == Wait(outbox, now)
  {
    var purged := Outbox.Purge(outbox, cutoff);
    assert Outbox.Backlog(purged) == Outbox.Backlog(outbox);
    SamePending(purged, outbox, publishers);
    forall at ensures AllDue(purged, at) <==> AllDue(outbox, at) {
      forall r <- outbox.rows | Outbox.Pending(outbox.rows[r]) ensures r in purged.rows && purged.rows[r] == outbox.rows[r] {
      }
    }
    WaitIsUnique(purged, now, Wait(outbox, now));
  }

  /** The other healthy steps, short of an append, leave the measure as it is: they never undo any progress. */
  lemma IdleKeepsMeasure(s: State, step: Step)
    requires Healthy(s, step) && Idle(s, step)
    ensures Measure(Apply(s, step)) == Measure(s)
  {
    match step
    case Tick(elapsed) => WaitWhenDue(s, elapsed);
    case Claim(p, locked, _) => IdleClaim(s, p, locked);
    case Flush(w) => IdleFlush(s.workers, w);
    case PurgeOutbox(cutoff) => PurgedOutbox(s.outbox, s.publishers, cutoff, s.clock);
    case PurgeClicks(_) =>
  }

  lemma WaitWhenDue(s: State, elapsed: nat)
    requires elapsed == 0 || AllDue(s.outbox, s.clock)
    ensures Wait(s.outbox, s.clock + elapsed) == Wait(s.outbox, s.clock)
  {
    if elapsed > 0 {
      WaitIsUnique(s.outbox, s.clock, 0);
      WaitPasses(s.outbox, s.clock, elapsed);
    }
  }

  // ---------------------------------------------------------------- one is enabled until nothing is left

  /** No row is pending and the broker has no copy. */
  ghost predicate Quiescent(s: State) {
    Outbox.Backlog(s.outbox) == {} && s.copies == map[]
  }

  ghost predicate Staffed(s: State) {
    s.publishers != map[] && s.workers != map[]
  }

  lemma PublisherStep(s: State, p: nat) returns (step: Step)
    requires Inv(s) && p in s.publishers && !s.publishers[p].Ready?
    ensures Productive(s, step)
  {
    match s.publishers[p]
    case Offline => step := Connect(p);
    case Sending(claimed, taken) =>
      assert PhaseOk(s.publishers[p], s.appended, s.bodies, s.claims, s.accepted);
      step := if taken < |claimed| then Take(p) else Confirm(p);
    case Marking(_) => step := Mark(p, true);
  }

  lemma PendingStep(s: State, r: RowId) returns (step: Step)
    requires Inv(s) && Staffed(s) && IsPending(s.outbox, r)
    requires forall p <- s.publishers :: s.publishers[p].Ready?
    ensures Productive(s, step)
  {
    if AllDue(s.outbox, s.clock) {
      var p :| p in s.publishers;
      var ids := ClaimedIds(s, {});
      Outbox.SelectIsFirstDue(s.outbox, 0, s.clock, {}, Outbox.CLAIM_LIMIT);
      assert Outbox.Claimable(s.outbox, r, s.clock, {});
      assert ids != [];
      step := Claim(p, {}, true);
    } else {
      var elapsed := DueHorizon(s.outbox.rows, s.clock);
      step := Tick(elapsed);
    }
  }

  lemma WorkerStep(s: State, w: nat) returns (step: Step)
    requires Inv(s) && w in s.workers
    requires s.workers[w].batch != [] || exists f :: 0 <= f < |s.workers[w].flights| && s.workers[w].flights[f].Open()
    ensures Productive(s, step)
  {
    if s.workers[w].batch != [] {
      step := Flush(w);
    } else {
      var f :| 0 <= f < |s.workers[w].flights| && s.workers[w].flights[f].Open();
      assert WorkerOk(w, s.workers[w], s.copies);
      step := if s.workers[w].flights[f].reply.Waiting? then Insert(w, f, true) else Resume(w, f);
    }
  }

  lemma CopyStep(s: State, k: CopyKey) returns (step: Step)
    requires Inv(s) && Staffed(s) && k in s.copies
    ensures Productive(s, step)
  {
    assert HeldOk(s.copies[k], k, s.workers);
    match s.copies[k].place
    case Dead => step := Inspect(k);
    case Inspecting => step := Observe(k, true);
    case InBatch(w) => step := WorkerStep(s, w);
    case InFlight(w, f) => step := WorkerStep(s, w);
    case Queued => step := QueuedStep(s, k);
  }

  lemma QueuedStep(s: State, k: CopyKey) returns (step: Step)
    requires Inv(s) && Staffed(s) && k in s.copies && s.copies[k].place == Queued
    ensures Productive(s, step)
  {
    var w :| w in s.workers;
    if s.workers[w].batch != [] || exists f :: 0 <= f < |s.workers[w].flights| && s.workers[w].flights[f].Open() {
      step := WorkerStep(s, w);
    } else {
      IdleHoldsNothing(s, w);
      step := Deliver(w, k, Uuid(0));
    }
  }

  lemma IdleHoldsNothing(s: State, w: nat)
    requires WorkerSide(s) && w in s.workers && s.workers[w].batch == []
    requires forall f :: 0 <= f < |s.workers[w].flights| ==> !s.workers[w].flights[f].Open()
    ensures (set c | c in s.copies && HeldBy(s.copies[c], w)) == {}
  {
    forall c <- s.copies ensures !HeldBy(s.copies[c], w) {
      assert HeldOk(s.copies[c], c, s.workers);
    }
  }

  /** In every reachable state that still has work, a productive step is enabled. */
  lemma HealthyStepExists(s: State) returns (step: Step)
    requires Inv(s) && Staffed(s) && !Quiescent(s)
    ensures Productive(s, step)
  {
    if p :| p in s.publishers && !s.publishers[p].Ready? {
      step := PublisherStep(s, p);
    } else if r :| r in Outbox.Backlog(s.outbox) {
      step := PendingStep(s, r);
    } else {
      var k :| k in s.copies;
      step := CopyStep(s, k);
    }
  }

  // ---------------------------------------------------------------- nothing new is doomed on the way

  ghost predicate DeadLettered(copies: map<CopyKey, Copy>, e: EventId) {
    exists k <- copies :: copies[k].event == e && (copies[k].place.Dead? || copies[k].place.Inspecting?)
  }

  ghost predicate FailingAgain(workers: map<nat, Worker.State>, e: EventId) {
    exists w, f :: w in workers && 0 <= f < |workers[w].flights| && FlightFails(workers[w].flights[f], e)
  }

  ghost predicate FlightFails(flight: Worker.Flight, e: EventId) {
    flight.reply.Threw? && exists p <- flight.items :: p.msg.redelivered && p.eventId == e
  }

  /** Already dead-lettered, or bound to be: malformed, or redelivered in a flush that has already failed. */
  ghost predicate Doomed(s: State, e: EventId) {
    || e in s.observed
    || (e in s.bodies && s.bodies[e].Malformed?)
    || DeadLettered(s.copies, e)
    || FailingAgain(s.workers, e)
  }

  /** Failed flushes stay the same, so do the events they are about to dead-letter. */
  lemma FailuresKept(workers: map<nat, Worker.State>, workers': map<nat, Worker.State>, e: EventId)
    requires workers'.Keys == workers.Keys
    requires forall v <- workers, f :: 0 <= f < |workers'[v].flights| && workers'[v].flights[f].reply.Threw? ==>
      f < |workers[v].flights| && workers[v].flights[f] == workers'[v].flights[f]
    requires FailingAgain(workers', e)
    ensures FailingAgain(workers, e)
  {
    var v, f :| v in workers' && 0 <= f < |workers'[v].flights| && FlightFails(workers'[v].flights[f], e);
    assert FlightFails(workers[v].flights[f], e);
  }

  lemma DeadLettersKept(s: State, copies': map<CopyKey, Copy>, e: EventId)
    requires forall c <- copies' ::
      && c in s.copies && copies'[c].event == s.copies[c].event
      && ((copies'[c].place.Dead? || copies'[c].place.Inspecting?) ==>
            s.copies[c].place.Dead? || s.copies[c].place.Inspecting? || Doomed(s, s.copies[c].event))
    requires DeadLettered(copies', e)
    ensures Doomed(s, e)
  {
    var c :| c in copies' && copies'[c].event == e && (copies'[c].place.Dead? || copies'[c].place.Inspecting?);
    assert c in s.copies;
  }

  lemma DeliverDooms(s: State, w: nat, k: CopyKey, randomId: EventId, e: EventId)
    requires CopiesOk(s.copies, s.accepted, s.appended, s.bodies)
    requires Enabled(s, Deliver(w, k, randomId)) && Doomed(DoDeliver(s, w, k, randomId), e)
    ensures Doomed(s, e)
  {
    var s' := DoDeliver(s, w, k, randomId);
    DeliverEffect(s, w, k, randomId);
    DeliverPlaces(s, w, k, randomId);
    assert s.copies[k].body.Malformed? ==> Doomed(s, s.copies[k].event);
    if DeadLettered(s'.copies, e) {
      DeadLettersKept(s, s'.copies, e);
    } else if FailingAgain(s'.workers, e) {
      FailuresKept(s.workers, s'.workers, e);
    }
  }

  /** The messages a failed flush dead-letters are the redelivered ones it was bound to. */
  lemma ResumeThrewDooms(s: State, w: nat, f: nat, c: CopyKey)
    requires WorkerSide(s) && Enabled(s, Resume(w, f)) && s.workers[w].flights[f].reply.Threw?
    requires c in s.copies && s.copies[c].place == InFlight(w, f) && s.copies[c].redelivered
    ensures Doomed(s, s.copies[c].event)
  {
    FlightCopies(s, w, f);
    var p :| p in s.workers[w].flights[f].items && p.msg.copy == c;
    assert ItemOk(p, s.copies, InFlight(w, f));
    assert FlightFails(s.workers[w].flights[f], s.copies[c].event);
  }

  lemma ResumeDooms(s: State, w: nat, f: nat, e: EventId)
    requires WorkerSide(s) && Enabled(s, Resume(w, f)) && Doomed(DoResume(s, w, f), e)
    ensures Doomed(s, e)
  {
    var s' := DoResume(s, w, f);
    ResumeEffect(s, w, f);
    if DeadLettered(s'.copies, e) {
      if s.workers[w].flights[f].reply.Done? {
        ResumeDoneQueue(s, w, f);
      } else {
        ResumeThrewCopies(s, w, f);
        forall c <- s.copies | s.copies[c].place == InFlight(w, f) && s.copies[c].redelivered
          ensures Doomed(s, s.copies[c].event)
        {
          ResumeThrewDooms(s, w, f, c);
        }
      }
      DeadLettersKept(s, s'.copies, e);
    } else if FailingAgain(s'.workers, e) {
      FailuresKept(s.workers, s'.workers, e);
    }
  }

  lemma WorkerOnlyDooms(s: State, step: Step, e: EventId)
    requires Healthy(s, step) && (step.Flush? || step.Insert?) && Doomed(Apply(s, step), e)
    ensures Doomed(s, e)
  {
    var s' := Apply(s, step);
    if FailingAgain(s'.workers, e) {
      var v, g :| v in s'.workers && 0 <= g < |s'.workers[v].flights| && FlightFails(s'.workers[v].flights[g], e);
      assert s'.workers[v].flights[g] == s.workers[v].flights[g];
    } else if DeadLettered(s'.copies, e) {
      var c :| c in s'.copies && s'.copies[c].event == e && (s'.copies[c].place.Dead? || s'.copies[c].place.Inspecting?);
      assert s'.copies[c] == s.copies[c];
    }
  }

  lemma CopyOnlyDooms(s: State, step: Step, e: EventId)
    requires Healthy(s, step) && (step.Take? || step.Inspect? || step.Observe?) && Doomed(Apply(s, step), e)
    ensures Doomed(s, e)
  {
    var s' := Apply(s, step);
    if DeadLettered(s'.copies, e) {
      var c :| c in s'.copies && s'.copies[c].event == e && (s'.copies[c].place.Dead? || s'.copies[c].place.Inspecting?);
      assert c in s.copies && s.copies[c].event == e && (s.copies[c].place.Dead? || s.copies[c].place.Inspecting?);
    }
  }

  /** No healthy step sets an event on its way to the dead letters. */
  lemma HealthyDoomsNothing(s: State, step: Step, e: EventId)
    requires Inv(s) && Healthy(s, step) && e in s.bodies && Doomed(Apply(s, step), e)
    ensures Doomed(s, e)
  {
    if step.Deliver? {
      DeliverDooms(s, step.w, step.k, step.randomId, e);
    } else if step.Resume? {
      ResumeDooms(s, step.w, step.f, e);
    } else if step.Flush? || step.Insert? {
      WorkerOnlyDooms(s, step, e);
    } else if step.Take? || step.Inspect? || step.Observe? {
      CopyOnlyDooms(s, step, e);
    }
  }

  // ---------------------------------------------------------------- the progress theorem

  ghost predicate HealthyRun(s: State, run: seq<Step>)
    decreases |run|
  {
    run == [] || (Healthy(s, run[0]) && HealthyRun(Apply(s, run[0]), run[1..]))
  }

  lemma HealthyKeepsHistory(s: State, step: Step)
    requires RowsOk(s.outbox, s.appended, s.bodies, s.claims) && Healthy(s, step)
    ensures forall r <- s.appended :: r in Apply(s, step).appended && Apply(s, step).appended[r] == s.appended[r]
  {
  }

  /**
   * Along every run without failures that comes to rest, whatever its timing, its polls and its appends, each event
   * appended before it has been inserted unless it was already dead-lettered or bound to be when the run began.
   */
  lemma {:induction false} HealthyRunInserts(s: State, run: seq<Step>, r: RowId)
    requires Inv(s) && HealthyRun(s, run) && CanExec(s, run) && Quiescent(Exec(s, run))
    requires r in s.appended && !Doomed(s, s.appended[r])
    ensures s.appended[r] in Exec(s, run).insertions
    decreases |run|
  {
    if run == [] {
      assert r !in Outbox.Backlog(s.outbox);
      var a: nat :| CopyKey(r, a) in s.accepted;
      assert CopyKey(r, a) !in s.copies;
    } else {
      var s' := Apply(s, run[0]);
      StepKeeps(s, run[0]);
      HealthyKeepsHistory(s, run[0]);
      if Doomed(s', s.appended[r]) {
        HealthyDoomsNothing(s, run[0], s.appended[r]);
      }
      HealthyRunInserts(s', run[1..], r);
    }
  }

  lemma BeforeTransitive(a: seq<nat>, b: seq<nat>, c: seq<nat>)
    requires Before(a, b) && Before(b, c)
    ensures Before(a, c)
  {
  }

  /** Some step of the run finds work. */
  ghost predicate Works(s: State, run: seq<Step>)
    requires HealthyRun(s, run)
    decreases |run|
  {
    run != [] && (Productive(s, run[0]) || Works(Apply(s, run[0]), run[1..]))
  }

  /**
   * Along every healthy run without appends the measure never grows, and it shrinks if any step finds work. So no
   * such run has infinitely many productive steps, whatever polls and pauses lie between them.
   */
  lemma {:induction false} HealthyRunDescends(s: State, run: seq<Step>)
    requires Inv(s) && HealthyRun(s, run) && CanExec(s, run) && forall i :: 0 <= i < |run| ==> !run[i].Append?
    ensures if Works(s, run) then Before(Measure(Exec(s, run)), Measure(s)) else Measure(Exec(s, run)) == Measure(s)
    decreases |run|
  {
    if run != [] {
      var next := Apply(s, run[0]);
      StepKeeps(s, run[0]);
      assert forall i :: 0 <= i < |run| - 1 ==> run[1..][i] == run[i + 1];
      HealthyRunDescends(next, run[1..]);
      if Productive(s, run[0]) {
        HealthyDecreases(s, run[0]);
        if Works(next, run[1..]) {
          BeforeTransitive(Measure(Exec(s, run)), Measure(next), Measure(s));
        }
      } else {
        IdleKeepsMeasure(s, run[0]);
      }
    }
  }

  lemma Advance(s: State, m: seq<nat>) returns (step: Step, next: State, n: seq<nat>)
    requires Inv(s) && Staffed(s) && !Quiescent(s) && m == Measure(s)
    ensures Productive(s, step) && next == Apply(s, step) && n == Measure(next)
    ensures Inv(next) && Staffed(next) && Before(n, m)
  {
    step := HealthyStepExists(s);
    StepKeeps(s, step);
    HealthyDecreases(s, step);
    StaffKept(s, step);
    next := Apply(s, step);
    n := Measure(next);
  }

  lemma Prepend(s: State, step: Step, rest: seq<Step>)
    requires Healthy(s, step) && HealthyRun(Apply(s, step), rest) && CanExec(Apply(s, step), rest)
    ensures HealthyRun(s, [step] + rest) && CanExec(s, [step] + rest)
    ensures Exec(s, [step] + rest) == Exec(Apply(s, step), rest)
  {
    assert ([step] + rest)[1..] == rest;
  }

  /** From every reachable state healthy steps can be taken until nothing is left, and they cannot go on forever. */
  lemma {:induction false} ComesToRest(s: State, m: seq<nat>) returns (run: seq<Step>)
    requires Inv(s) && Staffed(s) && m == Measure(s)
    ensures HealthyRun(s, run) && CanExec(s, run) && Quiescent(Exec(s, run))
    decreases m[0], m[1], m[2], m[3], m[4], m[5], m[6], m[7], m[8], m[9], m[10], m[11], m[12], m[13]
  {
    if Quiescent(s) {
      run := [];
    } else {
      var step, next, n := Advance(s, m);
      var rest := ComesToRest(next, n);
      Prepend(s, step, rest);
      run := [step] + rest;
    }
  }

  /** The two together: a healthy system started in any reachable state delivers everything not yet doomed. */
  lemma ReachableStatesDrain(s0: State, history: seq<Step>) returns (run: seq<Step>)
    requires Init(s0) && Staffed(s0) && CanExec(s0, history)
    ensures var s := Exec(s0, history);
            && HealthyRun(s, run) && CanExec(s, run) && Quiescent(Exec(s, run))
            && forall r <- s.appended :: !Doomed(s, s.appended[r]) ==> s.appended[r] in Exec(s, run).insertions
  {
    InitHolds(s0);
    RunKeeps(s0, history);
    StaffedKept(s0, history);
    var s := Exec(s0, history);
    run := ComesToRest(s, Measure(s));
    forall r <- s.appended | !Doomed(s, s.appended[r]) ensures s.appended[r] in Exec(s, run).insertions {
      HealthyRunInserts(s, run, r);
    }
  }

  lemma {:induction false} StaffedKept(s: State, run: seq<Step>)
    requires Staffed(s) && CanExec(s, run)
    ensures Staffed(Exec(s, run))
    decreases |run|
  {
    if run != [] {
      StaffKept(s, run[0]);
      StaffedKept(Apply(s, run[0]), run[1..]);
    }
  }

  lemma StaffKept(s: State, step: Step)
    requires Staffed(s) && Enabled(s, step)
    ensures Staffed(Apply(s, step))
  {
  }
}
