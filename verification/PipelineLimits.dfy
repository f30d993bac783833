/**
 * The pipeline's limits, over every run: how long published rows and clicks are kept whatever the purges do, how many
 * messages one worker may hold, and what a worker leaves behind when its channel goes.
 */
module PipelineLimits {
  import opened Types
  import opened ClickStore
  import opened Pipeline
  import opened PipelineInvariant
  import Outbox
  import Publisher
  import Worker

  // ---------------------------------------------------------------- retention

  /** The row is there and, if published, not before the time. */
  ghost predicate KeptSince(s: State, r: RowId, at: Time) {
    && r in s.outbox.rows
    && (s.outbox.rows[r].publishedAt.Some? ==> at <= s.outbox.rows[r].publishedAt.value)
  }

  lemma ClockAdvances(s: State, step: Step)
    requires Enabled(s, step)
    ensures s.clock <= Apply(s, step).clock
  {
  }

  lemma StepKeepsPublished(s: State, step: Step, r: RowId, at: Time)
    requires RowsOk(s.outbox, s.appended, s.bodies, s.claims) && Enabled(s, step)
    requires KeptSince(s, r, at) && at <= s.clock < at + 7 * 24 * 3600 * 1000
    ensures KeptSince(Apply(s, step), r, at)
  {
    if step.Append? {
      AppendKeepsRows(s, step.e, step.body);
    } else if step.PurgeOutbox? {
      PurgeKeepsPublished(s.outbox, step.cutoff, r, at);
    } else if !step.Claim? && !step.Mark? {
      LeavesTable(s, step);
    }
  }

  lemma PurgeKeepsPublished(t: Outbox.Table, cutoff: Time, r: RowId, at: Time)
    requires r in t.rows && (t.rows[r].publishedAt.Some? ==> at <= t.rows[r].publishedAt.value) && cutoff < at
    ensures r in Outbox.Purge(t, cutoff).rows && Outbox.Purge(t, cutoff).rows[r] == t.rows[r]
  {
  }

  lemma LeavesTable(s: State, step: Step)
    requires Enabled(s, step) && !step.Append? && !step.Claim? && !step.Mark? && !step.PurgeOutbox?
    ensures Apply(s, step).outbox == s.outbox
  {
  }

  lemma {:induction false} RunKeepsPublished(s: State, run: seq<Step>, r: RowId, at: Time)
    requires Inv(s) && CanExec(s, run) && KeptSince(s, r, at) && at <= s.clock
    requires Exec(s, run).clock < at + 7 * 24 * 3600 * 1000
    ensures KeptSince(Exec(s, run), r, at)
    decreases |run|
  {
    if run != [] {
      StepKeeps(s, run[0]);
      ClockAdvances(s, run[0]);
      RunAdvances(Apply(s, run[0]), run[1..]);
      StepKeepsPublished(s, run[0], r, at);
      RunKeepsPublished(Apply(s, run[0]), run[1..], r, at);
    }
  }

  lemma {:induction false} RunAdvances(s: State, run: seq<Step>)
    requires CanExec(s, run)
    ensures s.clock <= Exec(s, run).clock
    decreases |run|
  {
    if run != [] {
      ClockAdvances(s, run[0]);
      RunAdvances(Apply(s, run[0]), run[1..]);
    }
  }

  /** A row marked at some time is in the table for the seven days after it, whatever purges run. */
  lemma MarkedRowsStaySevenDays(s0: State, history: seq<Step>, p: nat, replied: bool, run: seq<Step>, i: nat)
    requires Init(s0) && CanExec(s0, history)
    requires var s := Exec(s0, history);
             && Enabled(s, Mark(p, replied)) && i < |s.publishers[p].claimed| && s.publishers[p].claimed[i].id in s.outbox.rows
             && CanExec(DoMark(s, p, replied), run)
             && Exec(DoMark(s, p, replied), run).clock < s.clock + 7 * 24 * 3600 * 1000
    ensures var s := Exec(s0, history);
            s.publishers[p].claimed[i].id in Exec(DoMark(s, p, replied), run).outbox.rows
  {
    var s := Exec(s0, history);
    InitHolds(s0);
    RunKeeps(s0, history);
    StepKeeps(s, Mark(p, replied));
    var claimed := s.publishers[p].claimed;
    assert Publisher.RowIds(claimed)[i] == claimed[i].id;
    RunKeepsPublished(DoMark(s, p, replied), run, claimed[i].id, s.clock);
  }

  lemma StepKeepsClick(s: State, step: Step, row: ClickRow)
    requires Enabled(s, step) && row in s.clicks && s.clock < row.click.clickedAt + 90 * 24 * 3600 * 1000
    ensures row in Apply(s, step).clicks
  {
    if step.PurgeClicks? {
      PurgeKeepsYoungRows(s.clicks, step.cutoff);
    } else if step.Insert? {
      CommitKeepsClick(s, RowsOf(s.workers[step.w].flights[step.f].items), row);
    } else if step.LateInsert? {
      CommitKeepsClick(s, RowsOf(s.detached[step.i]), row);
    }
  }

  lemma CommitKeepsClick(s: State, rows: seq<ClickRow>, row: ClickRow)
    requires row in s.clicks
    ensures row in Committed(s, rows).clicks
  {
    InsertAllRefinesMap(s.clicks, rows);
    var i :| 0 <= i < |s.clicks| && s.clicks[i] == row;
    assert InsertAll(s.clicks, rows)[i] == row;
  }

  /** A stored click is in the table until ninety days after it happened, whatever purges run. */
  lemma {:induction false} ClicksStayNinetyDays(s: State, run: seq<Step>, row: ClickRow)
    requires CanExec(s, run) && row in s.clicks && Exec(s, run).clock < row.click.clickedAt + 90 * 24 * 3600 * 1000
    ensures row in Exec(s, run).clicks
    decreases |run|
  {
    if run != [] {
      ClockAdvances(s, run[0]);
      RunAdvances(Apply(s, run[0]), run[1..]);
      StepKeepsClick(s, run[0], row);
      ClicksStayNinetyDays(Apply(s, run[0]), run[1..], row);
    }
  }

  // ---------------------------------------------------------------- prefetch

  ghost function Held(copies: map<CopyKey, Copy>, w: nat): set<CopyKey> {
    set c | c in copies && (copies[c].place == InBatch(w) || (copies[c].place.InFlight? && copies[c].place.worker == w))
  }

  lemma {:induction false} SettlingReleases(copies: map<CopyKey, Copy>, calls: seq<Worker.Settlement>, w: nat)
    ensures Held(SettledAll(copies, calls), w) <= Held(copies, w)
  {
    if calls != [] {
      SettlingReleases(copies, calls[..|calls| - 1], w);
    }
  }

  lemma DeliverHolds(s: State, v: nat, k: CopyKey, randomId: EventId, w: nat)
    requires Enabled(s, Deliver(v, k, randomId))
    ensures Held(DoDeliver(s, v, k, randomId).copies, w) <= Held(s.copies, w) + (if v == w then {k} else {})
  {
  }

  lemma StepHolds(s: State, step: Step, w: nat)
    requires Enabled(s, step) && !step.Deliver?
    ensures Held(Apply(s, step).copies, w) <= Held(s.copies, w)
  {
    if step.Resume? {
      var flight := s.workers[step.w].flights[step.f];
      SettlingReleases(s.copies, if flight.reply.Done? then Worker.Acks(flight.items) else Worker.Verdicts(flight.items), w);
    }
  }

  lemma StepKeepsPrefetch(s: State, step: Step, w: nat)
    requires Enabled(s, step) && |Held(s.copies, w)| <= 50
    ensures |Held(Apply(s, step).copies, w)| <= 50
  {
    if step.Deliver? {
      DeliverHolds(s, step.w, step.k, step.randomId, w);
      assert Held(s.copies, step.w) == set c | c in s.copies && HeldBy(s.copies[c], step.w);
      SubsetSize(Held(Apply(s, step).copies, w), Held(s.copies, w) + if step.w == w then {step.k} else {});
    } else {
      StepHolds(s, step, w);
      SubsetSize(Held(Apply(s, step).copies, w), Held(s.copies, w));
    }
  }

  /** In every reachable state a worker holds at most fifty unsettled messages, however its flushes overlap. */
  lemma {:induction false} WorkersHoldAtMostFifty(s: State, run: seq<Step>, w: nat)
    requires CanExec(s, run) && (Init(s) || |Held(s.copies, w)| <= 50)
    ensures |Held(Exec(s, run).copies, w)| <= 50
    decreases |run|
  {
    if Init(s) {
      assert Held(s.copies, w) == {};
    }
    if run != [] {
      StepKeepsPrefetch(s, run[0], w);
      WorkersHoldAtMostFifty(Apply(s, run[0]), run[1..], w);
    }
  }

  // ---------------------------------------------------------------- crashes

  lemma {:induction false} StrandedAreWaiting(flights: seq<Worker.Flight>, items: seq<Worker.Pending>)
    ensures items in Stranded(flights) <==> exists f :: 0 <= f < |flights| && flights[f] == Worker.Flight(items, Worker.Waiting)
  {
    if flights != [] {
      var init, last := flights[..|flights| - 1], flights[|flights| - 1];
      StrandedAreWaiting(init, items);
      if f :| 0 <= f < |flights| && flights[f] == Worker.Flight(items, Worker.Waiting) {
        assert f < |init| ==> init[f] == flights[f];
      }
      if g :| 0 <= g < |init| && init[g] == Worker.Flight(items, Worker.Waiting) {
        assert flights[g] == init[g];
      }
      assert last == Worker.Flight(items, Worker.Waiting) ==> flights[|flights| - 1] == Worker.Flight(items, Worker.Waiting);
    }
  }

  /**
   * A worker that loses its channel starts over. Everything it held is back in the queue, flagged, and nothing else
   * moves; its inserts still under way, and only those, may yet commit.
   */
  lemma CrashMeans(s: State, w: nat, k: CopyKey, items: seq<Worker.Pending>)
    requires Enabled(s, WorkerCrashes(w)) && k in s.copies
    ensures var q := Apply(s, WorkerCrashes(w));
            && q.workers[w] == Worker.INITIAL && q.copies.Keys == s.copies.Keys
            && q.copies[k] == (if k in Held(s.copies, w) then Copy(s.copies[k].event, s.copies[k].body, true, Queued) else s.copies[k])
            && (items in q.detached <==>
                  items in s.detached
                  || exists f :: 0 <= f < |s.workers[w].flights| && s.workers[w].flights[f] == Worker.Flight(items, Worker.Waiting))
  {
    StrandedAreWaiting(s.workers[w].flights, items);
    var q := Apply(s, WorkerCrashes(w));
    assert items in q.detached <==> items in s.detached || items in Stranded(s.workers[w].flights);
  }

  /** Letters the inspector had and did not ack are dead letters again, flagged; nothing else moves. */
  lemma InspectorCrashMeans(s: State, k: CopyKey)
    requires k in s.copies
    ensures var q := Apply(s, InspectorCrashes);
            && q.copies.Keys == s.copies.Keys && q.observed == s.observed
            && q.copies[k] == if s.copies[k].place == Inspecting then Copy(s.copies[k].event, s.copies[k].body, true, Dead)
                              else s.copies[k]
  {
  }

  /** The purge steps are the purges of the repositories, no younger than the retention times allow. */
  lemma PurgesMean(s: State, cutoff: Time, row: ClickRow)
    ensures Enabled(s, PurgeOutbox(cutoff)) <==> cutoff <= s.clock - 7 * 24 * 3600 * 1000
    ensures Enabled(s, PurgeOutbox(cutoff)) ==>
              Outbox.Purged(s.outbox.rows, Apply(s, PurgeOutbox(cutoff)).outbox.rows, cutoff)
    ensures Enabled(s, PurgeClicks(cutoff)) <==> cutoff <= s.clock - 90 * 24 * 3600 * 1000
    ensures Enabled(s, PurgeClicks(cutoff)) ==>
              (row in Apply(s, PurgeClicks(cutoff)).clicks <==> row in s.clicks && row.click.clickedAt > cutoff)
  {
    Outbox.PurgeMeans(s.outbox, cutoff);
    PurgeKeepsYoungRows(s.clicks, cutoff);
  }

  /** A failed insert stores nothing and is what its flush learns. */
  lemma FailedInsertMeans(s: State, w: nat, f: nat)
    requires Enabled(s, InsertFails(w, f))
    ensures var q := Apply(s, InsertFails(w, f));
            && q.clicks == s.clicks && q.insertions == s.insertions && q.copies == s.copies
            && |q.workers[w].flights| == |s.workers[w].flights|
            && q.workers[w].flights[f] == Worker.Flight(s.workers[w].flights[f].items, Worker.Threw)
  {
  }

  /** A publisher whose claim or mark commits without an answer has lost its channel; otherwise it goes on. */
  lemma RepliesMean(s: State, p: nat, locked: set<RowId>, replied: bool)
    ensures Enabled(s, Claim(p, locked, replied)) ==>
              var q := Apply(s, Claim(p, locked, replied));
              if !replied then q.publishers[p] == Publisher.Offline
              else if ClaimedIds(s, locked) == [] then q.publishers[p] == Publisher.Ready
              else q.publishers[p].Sending? && q.publishers[p].taken == 0
    ensures Enabled(s, Mark(p, replied)) ==>
              Apply(s, Mark(p, replied)).publishers[p] == if replied then Publisher.Ready else Publisher.Offline
  {
  }
}
