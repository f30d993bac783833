/**
 * Exactly which retention purges are harmless: those that delete no click whose event is still carried. For every
 * other purge there is a way on, without any further purge, that inserts an event a second time.
 */
module PipelineRetentionExact {
  import opened Types
  import opened ClickStore
  import opened Pipeline
  import opened PipelineInvariant
  import opened PipelineRetention
  import Outbox
  import Publisher
  import Worker

  /** A way on from s that purges no clicks and has not inserted anything yet. */
  ghost predicate Quiet(s: State, run: seq<Step>, next: State)
    decreases |run|
  {
    && CanExec(s, run) && Exec(s, run) == next
    && (forall i :: 0 <= i < |run| ==> !run[i].PurgeClicks?)
    && next.clicks == s.clicks && next.insertions == s.insertions && next.bodies == s.bodies
    && next.publishers.Keys == s.publishers.Keys && next.workers.Keys == s.workers.Keys
  }

  lemma QuietStep(s: State, step: Step, next: State)
    requires Enabled(s, step) && next == Apply(s, step) && !step.PurgeClicks?
    requires next.clicks == s.clicks && next.insertions == s.insertions && next.bodies == s.bodies
    requires next.publishers.Keys == s.publishers.Keys && next.workers.Keys == s.workers.Keys
    ensures Quiet(s, [step], next)
  {
    assert CanExec(next, []);
    Cons(s, step, []);
    assert [step] + [] == [step];
  }

  lemma QuietJoins(s: State, a: seq<Step>, mid: State, b: seq<Step>, next: State)
    requires Quiet(s, a, mid) && Quiet(mid, b, next)
    ensures Quiet(s, a + b, next)
  {
    ExecConcat(s, a, b);
    forall i | 0 <= i < |a + b| ensures !(a + b)[i].PurgeClicks? {
      assert (a + b)[i] == if i < |a| then a[i] else b[i - |a|];
    }
  }

  // ---------------------------------------------------------------- from a pending row to a publisher

  lemma Reconnects(s: State, p: nat) returns (next: State)
    requires p in s.publishers
    ensures Quiet(s, [PublisherFails(p)] + [Connect(p)], next)
    ensures next == s.(publishers := next.publishers) && p in next.publishers && next.publishers[p].Ready?
  {
    var mid := s.(publishers := s.publishers[p := Publisher.Offline]);
    next := mid.(publishers := mid.publishers[p := Publisher.Ready]);
    QuietStep(s, PublisherFails(p), mid);
    QuietStep(mid, Connect(p), next);
    QuietJoins(s, [PublisherFails(p)], mid, [Connect(p)], next);
  }

  /** Some publisher reconnects and waits until the row is due. */
  lemma BecomesDue(s: State, p: nat, r: RowId) returns (run: seq<Step>, next: State)
    requires p in s.publishers && IsPending(s.outbox, r)
    ensures Quiet(s, run, next)
    ensures next.outbox == s.outbox && next.accepted == s.accepted && p in next.publishers && next.publishers[p].Ready?
    ensures Outbox.Due(s.outbox.rows[r], next.clock)
  {
    var s2 := Reconnects(s, p);
    var row := s.outbox.rows[r];
    var elapsed: nat :=
      if row.nextAttemptAt.Some? && row.nextAttemptAt.value > s.clock then row.nextAttemptAt.value - s.clock else 0;
    next := s2.(clock := s2.clock + elapsed);
    QuietStep(s2, Tick(elapsed), next);
    QuietJoins(s, [PublisherFails(p)] + [Connect(p)], s2, [Tick(elapsed)], next);
    run := [PublisherFails(p)] + [Connect(p)] + [Tick(elapsed)];
  }

  lemma SelectsIt(t: Outbox.Table, now: Time, r: RowId)
    requires Outbox.Valid(t) && r in t.rows && Outbox.Due(t.rows[r], now)
    ensures r in Outbox.Select(t, 0, now, t.rows.Keys - {r}, Outbox.CLAIM_LIMIT)
  {
    var locked := t.rows.Keys - {r};
    var ids := Outbox.Select(t, 0, now, locked, Outbox.CLAIM_LIMIT);
    Outbox.SelectIsFirstDue(t, 0, now, locked, Outbox.CLAIM_LIMIT);
    assert Outbox.Claimable(t, r, now, locked);
    assert forall id <- ids :: Outbox.Claimable(t, id, now, locked) && id == r;
    assert |ids| > 0 ==> ids[0] in ids;
  }

  /** With every other row locked, a claim takes exactly this one. */
  lemma ClaimsIt(s: State, p: nat, r: RowId) returns (step: Step, next: State)
    requires Outbox.Valid(s.outbox) && p in s.publishers && s.publishers[p].Ready?
    requires IsPending(s.outbox, r) && Outbox.Due(s.outbox.rows[r], s.clock)
    ensures Quiet(s, [step], next)
    ensures p in next.publishers && Awaits(next.publishers[p], s.outbox.rows[r].eventId)
  {
    var locked := s.outbox.rows.Keys - {r};
    step := Claim(p, locked, true);
    next := DoClaim(s, p, locked, true);
    var ids := ClaimedIds(s, locked);
    SelectsIt(s.outbox, s.clock, r);
    var i :| 0 <= i < |ids| && ids[i] == r;
    var recs := Outbox.Records(s.outbox, ids);
    assert recs[i].eventId == s.outbox.rows[r].eventId;
    QuietStep(s, step, next);
  }

  lemma PendingReachesPublisher(s: State, p: nat, e: EventId) returns (run: seq<Step>, next: State)
    requires Inv(s) && p in s.publishers && PendingEvent(s.outbox, e)
    ensures Quiet(s, run, next) && p in next.publishers && Awaits(next.publishers[p], e)
  {
    var r :| r in s.outbox.rows && Outbox.Pending(s.outbox.rows[r]) && s.outbox.rows[r].eventId == e;
    var due, mid := BecomesDue(s, p, r);
    var step;
    step, next := ClaimsIt(mid, p, r);
    QuietJoins(s, due, mid, [step], next);
    run := due + [step];
  }

  // ---------------------------------------------------------------- from a publisher to the broker

  /** The broker takes messages of the batch until it has one of the event. */
  lemma {:induction false} PublisherReachesBroker(s: State, p: nat, e: EventId) returns (run: seq<Step>, next: State)
    requires p in s.publishers && Awaits(s.publishers[p], e)
    ensures Quiet(s, run, next) && LiveCopy(next.copies, e)
    decreases |s.publishers[p].claimed| - s.publishers[p].taken
  {
    var ph := s.publishers[p];
    var mid := DoTake(s, p);
    QuietStep(s, Take(p), mid);
    if ph.claimed[ph.taken].eventId == e {
      assert mid.copies[KeyOf(ph.claimed[ph.taken])].event == e;
      run, next := [Take(p)], mid;
    } else {
      var rest;
      rest, next := PublisherReachesBroker(mid, p, e);
      QuietJoins(s, [Take(p)], mid, rest, next);
      run := [Take(p)] + rest;
    }
  }

  // ---------------------------------------------------------------- from the broker to an insert

  /** A restarted worker: the copy is in the queue, and the worker holds nothing. */
  lemma WorkerRestarts(s: State, k: CopyKey) returns (w: nat, next: State)
    requires Inv(s) && s.workers != map[] && k in s.copies && Live(s.copies[k].place)
    ensures Quiet(s, [WorkerCrashes(w)], next)
    ensures w in next.workers && next.workers[w] == Worker.INITIAL
    ensures k in next.copies && next.copies[k].place == Queued
    ensures next.copies[k].event == s.copies[k].event && next.copies[k].body == s.copies[k].body
    ensures forall c <- next.copies :: !HeldBy(next.copies[c], w)
  {
    assert HeldOk(s.copies[k], k, s.workers);
    if s.copies[k].place.Queued? {
      w :| w in s.workers;
    } else {
      w := s.copies[k].place.worker;
    }
    next := DoCrash(s, w);
    RecoveredCopy(s.copies, w, k);
    QuietStep(s, WorkerCrashes(w), next);
  }

  lemma RecoveredCopy(copies: map<CopyKey, Copy>, w: nat, k: CopyKey)
    requires k in copies && (copies[k].place == Queued || HeldBy(copies[k], w))
    ensures var copies' := Recovered(copies, w);
            && k in copies' && copies'[k].place == Queued
            && copies'[k].event == copies[k].event && copies'[k].body == copies[k].body
            && forall c <- copies' :: !HeldBy(copies'[c], w)
  {
  }

  lemma WorkerTakes(s: State, w: nat, k: CopyKey, click: ClickEvent) returns (item: Worker.Pending, next: State)
    requires w in s.workers && s.workers[w] == Worker.INITIAL
    requires k in s.copies && s.copies[k].place == Queued && s.copies[k].body == Click(click)
    requires forall c <- s.copies :: !HeldBy(s.copies[c], w)
    ensures Quiet(s, [Deliver(w, k, RANDOM)], next)
    ensures item.eventId == s.copies[k].event && item.parsed == click
    ensures w in next.workers && next.workers[w].batch == [item] && next.workers[w].flights == []
  {
    assert (set c | c in s.copies && HeldBy(s.copies[c], w)) == {};
    next := DoDeliver(s, w, k, RANDOM);
    item := Worker.Pending(DeliveryOf(s, w, k), click, s.copies[k].event);
    QuietStep(s, Deliver(w, k, RANDOM), next);
  }

  lemma WorkerFlushes(s: State, w: nat, item: Worker.Pending) returns (next: State)
    requires w in s.workers && s.workers[w].batch == [item] && s.workers[w].flights == []
    ensures Quiet(s, [Flush(w)], next)
    ensures w in next.workers && next.workers[w].flights == [Worker.Flight([item], Worker.Waiting)]
  {
    next := DoFlush(s, w);
    QuietStep(s, Flush(w), next);
  }

  /** An insert of rows whose events are not in the table logs each of them. */
  lemma CommitInserts(s: State, rows: seq<ClickRow>, e: EventId)
    requires e in Ids(rows) && e !in Ids(s.clicks)
    ensures var log := Committed(s, rows).insertions; s.insertions <= log && e in log[|s.insertions|..]
  {
    InsertAllRefinesMap(s.clicks, rows);
    var after := InsertAll(s.clicks, rows);
    var added := NewIds(s.clicks, after);
    assert e in Ids(after);
    var r :| r in after && r.eventId == e;
    var i :| 0 <= i < |after| && after[i] == r;
    assert forall j :: 0 <= j < |s.clicks| ==> after[j] == s.clicks[j] && s.clicks[j] in s.clicks;
    assert added[i - |s.clicks|] == e;
    assert (s.insertions + added)[|s.insertions|..] == added;
  }

  /** The run reaches a further insert of e. */
  ghost predicate InsertsAgain(s: State, run: seq<Step>, e: EventId) {
    && CanExec(s, run)
    && (forall i :: 0 <= i < |run| ==> !run[i].PurgeClicks?)
    && var log := Exec(s, run).insertions;
    && s.insertions <= log && e in log[|s.insertions|..]
  }

  lemma QuietThenInserts(s: State, a: seq<Step>, mid: State, step: Step, e: EventId)
    requires Quiet(s, a, mid) && Enabled(mid, step) && !step.PurgeClicks?
    requires mid.insertions <= Apply(mid, step).insertions && e in Apply(mid, step).insertions[|mid.insertions|..]
    ensures InsertsAgain(s, a + [step], e)
  {
    assert CanExec(Apply(mid, step), []);
    Cons(mid, step, []);
    assert [step] + [] == [step];
    ExecConcat(s, a, [step]);
    forall i | 0 <= i < |a + [step]| ensures !(a + [step])[i].PurgeClicks? {
      assert (a + [step])[i] == if i < |a| then a[i] else step;
    }
  }

  lemma CopyReachesTable(s: State, e: EventId, click: ClickEvent) returns (run: seq<Step>)
    requires Inv(s) && s.workers != map[] && LiveCopy(s.copies, e) && e !in Ids(s.clicks)
    requires e in s.bodies && s.bodies[e] == Click(click)
    ensures InsertsAgain(s, run, e)
  {
    var k :| k in s.copies && s.copies[k].event == e && Live(s.copies[k].place);
    var w, s1 := WorkerRestarts(s, k);
    var item, s2 := WorkerTakes(s1, w, k, click);
    var s3 := WorkerFlushes(s2, w, item);
    QuietJoins(s, [WorkerCrashes(w)], s1, [Deliver(w, k, RANDOM)], s2);
    QuietJoins(s, [WorkerCrashes(w)] + [Deliver(w, k, RANDOM)], s2, [Flush(w)], s3);
    assert RowsOf([item])[0].eventId == e && RowsOf([item])[0] in RowsOf([item]);
    CommitInserts(s3, RowsOf([item]), e);
    run := [WorkerCrashes(w)] + [Deliver(w, k, RANDOM)] + [Flush(w)] + [Insert(w, 0, true)];
    QuietThenInserts(s, [WorkerCrashes(w)] + [Deliver(w, k, RANDOM)] + [Flush(w)], s3, Insert(w, 0, true), e);
  }

  lemma DetachedReachesTable(s: State, e: EventId) returns (run: seq<Step>)
    requires DetachedEvent(s.detached, e) && e !in Ids(s.clicks)
    ensures InsertsAgain(s, run, e)
  {
    var i :| 0 <= i < |s.detached| && Mentions(s.detached[i], e);
    var p :| p in s.detached[i] && p.eventId == e;
    var j :| 0 <= j < |s.detached[i]| && s.detached[i][j] == p;
    assert RowsOf(s.detached[i])[j].eventId == e && RowsOf(s.detached[i])[j] in RowsOf(s.detached[i]);
    CommitInserts(s, RowsOf(s.detached[i]), e);
    assert CanExec(s, []);
    run := [] + [LateInsert(i)];
    QuietThenInserts(s, [], s, LateInsert(i), e);
  }

  lemma QuietPrefix(s: State, a: seq<Step>, mid: State, b: seq<Step>, e: EventId)
    requires Quiet(s, a, mid) && InsertsAgain(mid, b, e)
    ensures InsertsAgain(s, a + b, e)
  {
    ExecConcat(s, a, b);
    forall i | 0 <= i < |a + b| ensures !(a + b)[i].PurgeClicks? {
      assert (a + b)[i] == if i < |a| then a[i] else b[i - |a|];
    }
  }

  /** Whatever carries an event that is not in the table can bring it there. */
  lemma CarriedReachesTable(s: State, e: EventId, click: ClickEvent) returns (run: seq<Step>)
    requires Inv(s) && s.publishers != map[] && s.workers != map[]
    requires Carried(s, e) && e !in Ids(s.clicks) && e in s.bodies && s.bodies[e] == Click(click)
    ensures InsertsAgain(s, run, e)
  {
    if DetachedEvent(s.detached, e) {
      run := DetachedReachesTable(s, e);
    } else if LiveCopy(s.copies, e) {
      run := CopyReachesTable(s, e, click);
    } else {
      var taken, mid := PublishedAtLast(s, e);
      var rest := CopyReachesTable(mid, e, click);
      QuietPrefix(s, taken, mid, rest, e);
      run := taken + rest;
    }
  }

  lemma PublishedAtLast(s: State, e: EventId) returns (run: seq<Step>, next: State)
    requires Inv(s) && s.publishers != map[] && (PendingEvent(s.outbox, e) || UntakenEvent(s.publishers, e))
    ensures Quiet(s, run, next) && LiveCopy(next.copies, e) && Inv(next)
  {
    if UntakenEvent(s.publishers, e) {
      var p :| p in s.publishers && Awaits(s.publishers[p], e);
      run, next := PublisherReachesBroker(s, p, e);
    } else {
      var p :| p in s.publishers;
      var first, mid := PendingReachesPublisher(s, p, e);
      var rest;
      rest, next := PublisherReachesBroker(mid, p, e);
      QuietJoins(s, first, mid, rest, next);
      run := first + rest;
    }
    RunKeeps(s, run);
  }

  // ---------------------------------------------------------------- the exact condition

  /** No way on after the purge, short of another purge, inserts any event twice. */
  ghost predicate Harmless(s: State) {
    forall run: seq<Step> {:trigger CanExec(s, run)} ::
      CanExec(s, run) && (forall i :: 0 <= i < |run| ==> !run[i].PurgeClicks?) ==> NoDuplicates(Exec(s, run).insertions)
  }

  lemma {:induction false} NoPurgeIsSafe(s: State, run: seq<Step>)
    requires CanExec(s, run) && forall i :: 0 <= i < |run| ==> !run[i].PurgeClicks?
    ensures RetentionSafeRun(s, run)
    decreases |run|
  {
    if run != [] {
      assert forall i :: 0 <= i < |run| - 1 ==> run[1..][i] == run[i + 1];
      NoPurgeIsSafe(Apply(s, run[0]), run[1..]);
    }
  }

  lemma SameIdSameRow(rows: seq<ClickRow>, r: ClickRow, q: ClickRow)
    requires Unique(rows) && r in rows && q in rows
    ensures r.eventId == q.eventId ==> r == q
  {
    var i :| 0 <= i < |rows| && rows[i] == r;
    var j :| 0 <= j < |rows| && rows[j] == q;
    assert i != j ==> rows[i].eventId != rows[j].eventId;
  }

  /** A purge that deletes a click whose event is carried can be followed by a second insert of it. */
  lemma UnsafePurgeHarms(s: State, cutoff: Time, r: ClickRow)
    requires Inv(s) && Enabled(s, PurgeClicks(cutoff)) && s.publishers != map[] && s.workers != map[]
    requires r in s.clicks && r.click.clickedAt <= cutoff && Carried(s, r.eventId)
    ensures !Harmless(Apply(s, PurgeClicks(cutoff)))
  {
    var s' := Apply(s, PurgeClicks(cutoff));
    StepKeeps(s, PurgeClicks(cutoff));
    PurgeKeepsYoungRows(s.clicks, cutoff);
    assert RowKnown(r, s.insertions, s.bodies);
    forall q | q in s'.clicks ensures q.eventId != r.eventId {
      SameIdSameRow(s.clicks, r, q);
    }
    var run := CarriedReachesTable(s', r.eventId, r.click);
    TwiceInLog(s', run, r.eventId);
  }

  lemma TwiceInLog(s: State, run: seq<Step>, e: EventId)
    requires InsertsAgain(s, run, e) && e in s.insertions
    ensures !NoDuplicates(Exec(s, run).insertions) && !Harmless(s)
  {
    var log := Exec(s, run).insertions;
    var i :| 0 <= i < |s.insertions| && s.insertions[i] == e;
    var j :| 0 <= j < |log| - |s.insertions| && log[|s.insertions|..][j] == e;
    assert log[i] == log[|s.insertions| + j] == e;
  }

  /**
   * In every reachable state reached with harmless purges only, the next purge is harmless exactly when it deletes
   * no click whose event is still pending, with a publisher, in a live copy, or in an insert under way.
   */
  lemma PurgeIsHarmlessIff(s0: State, history: seq<Step>, cutoff: Time)
    requires Init(s0) && s0.publishers != map[] && s0.workers != map[]
    requires CanExec(s0, history) && RetentionSafeRun(s0, history)
    requires Enabled(Exec(s0, history), PurgeClicks(cutoff))
    ensures var s := Exec(s0, history);
            Harmless(Apply(s, PurgeClicks(cutoff)))
            <==> forall r <- s.clicks :: r.click.clickedAt <= cutoff ==> !Carried(s, r.eventId)
  {
    var s := Exec(s0, history);
    InitHolds(s0);
    RunKeeps(s0, history);
    RunKeepsRetired(s0, history);
    StaffStays(s0, history);
    var step := PurgeClicks(cutoff);
    var s' := Apply(s, step);
    if RetentionSafe(s, step) {
      StepKeeps(s, step);
      StepKeepsRetired(s, step);
      forall run: seq<Step> | CanExec(s', run) && forall i :: 0 <= i < |run| ==> !run[i].PurgeClicks?
        ensures NoDuplicates(Exec(s', run).insertions)
      {
        NoPurgeIsSafe(s', run);
        RunKeepsRetired(s', run);
      }
    } else {
      var r :| r in s.clicks && r.click.clickedAt <= cutoff && Carried(s, r.eventId);
      UnsafePurgeHarms(s, cutoff, r);
    }
  }

  lemma StaffStaysInStep(s: State, step: Step)
    requires Enabled(s, step) && s.publishers != map[] && s.workers != map[]
    ensures Apply(s, step).publishers != map[] && Apply(s, step).workers != map[]
  {
  }

  lemma {:induction false} StaffStays(s: State, run: seq<Step>)
    requires CanExec(s, run) && s.publishers != map[] && s.workers != map[]
    ensures Exec(s, run).publishers != map[] && Exec(s, run).workers != map[]
    decreases |run|
  {
    if run != [] {
      StaffStaysInStep(s, run[0]);
      StaffStays(Apply(s, run[0]), run[1..]);
    }
  }
}
