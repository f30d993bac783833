/** The safety theorems of the pipeline: nothing is lost, and the effect of an event is counted once. */
module PipelineSafety {
  import opened Types
  import opened ClickStore
  import opened Pipeline
  import opened PipelineInvariant
  import Outbox
  import Publisher
  import Worker

  // ---------------------------------------------------------------- no loss

  /** The broker still has a copy of row r: queued, unacked, or in the dead-letter queue. */
  ghost predicate HasCopy(s: State, r: RowId) {
    exists a: nat :: CopyKey(r, a) in s.copies
  }

  /**
   * In every reachable state each committed event is pending, or the broker has a copy of it, or the
   * inspector logged it, or it was inserted into click_events; and a row stops being pending, by its
   * published_at or by the purge, only after the broker took a copy of it.
   */
  lemma NothingIsLost(s0: State, run: seq<Step>, r: RowId)
    requires Init(s0) && CanExec(s0, run)
    requires r in Exec(s0, run).appended
    ensures var s := Exec(s0, run);
            && (IsPending(s.outbox, r) || HasCopy(s, r) || s.appended[r] in s.observed || s.appended[r] in s.insertions)
            && (!IsPending(s.outbox, r) ==> Taken(s.accepted, r))
  {
    InitHolds(s0);
    RunKeeps(s0, run);
    var s := Exec(s0, run);
    if !IsPending(s.outbox, r) {
      assert Taken(s.accepted, r);
      var a: nat :| CopyKey(r, a) in s.accepted;
      assert CopyKey(r, a) in s.copies || s.appended[r] in s.observed || s.appended[r] in s.insertions;
    }
  }

  ghost function CopiesOfRow(accepted: set<CopyKey>, r: RowId): set<CopyKey> {
    set k | k in accepted && k.row == r
  }

  lemma {:induction false} AttemptsBoundCopies(keys: set<CopyKey>, r: RowId, n: nat)
    requires forall k <- keys :: k.row == r && 1 <= k.attempt <= n
    ensures |keys| <= n
  {
    if n == 0 {
      assert forall k :: k !in keys;
      assert keys == {};
    } else {
      var rest := keys - {CopyKey(r, n)};
      AttemptsBoundCopies(rest, r, n - 1);
      assert keys <= rest + {CopyKey(r, n)};
      assert |keys| <= |rest| + 1;
    }
  }

  /** The copies ever published for a row are no more than its claims, which its attempt counter shows. */
  lemma CopiesWithinAttempts(s0: State, run: seq<Step>, r: RowId)
    requires Init(s0) && CanExec(s0, run) && r in Exec(s0, run).claims
    ensures var s := Exec(s0, run);
            && |CopiesOfRow(s.accepted, r)| <= s.claims[r]
            && (r in s.outbox.rows ==> s.claims[r] == s.outbox.rows[r].attempts)
  {
    InitHolds(s0);
    RunKeeps(s0, run);
    var s := Exec(s0, run);
    AttemptsBoundCopies(CopiesOfRow(s.accepted, r), r, s.claims[r]);
  }

  /** A broker copy is handed back to the queue by nack at most once. */
  lemma RequeuedOnce(s0: State, run: seq<Step>, step: Step)
    requires Init(s0) && CanExec(s0, run) && Enabled(Exec(s0, run), step)
    ensures var s := Exec(s0, run);
            RequeuedBy(s, step) !! s.requeued && Apply(s, step).requeued == s.requeued + RequeuedBy(s, step)
  {
    InitHolds(s0);
    RunKeeps(s0, run);
    var s := Exec(s0, run);
    if step.Resume? && s.workers[step.w].flights[step.f].reply.Threw? {
      ResumeThrewCopies(s, step.w, step.f);
      RequeuedAreRedelivered(s, step.w, step.f);
    } else {
      RequeuedByIsEmpty(s, step);
    }
  }

  lemma RequeuedAreRedelivered(s: State, w: nat, f: nat)
    requires RequeuedOk(s.requeued, s.accepted, s.copies)
    requires forall k :: k in RequeuedBy(s, Resume(w, f)) ==> k in s.copies && !s.copies[k].redelivered
    ensures RequeuedBy(s, Resume(w, f)) !! s.requeued
  {
  }

  lemma RequeuedByIsEmpty(s: State, step: Step)
    requires Enabled(s, step) && !(step.Resume? && s.workers[step.w].flights[step.f].reply.Threw?)
    ensures RequeuedBy(s, step) == {} && Apply(s, step).requeued == s.requeued
  {
  }

  // ---------------------------------------------------------------- exactly-once effect

  ghost function Processed(s: State): set<EventId> {
    set e | e in s.insertions
  }

  /** Events appended for one short code. */
  ghost function AppendedFor(s: State, code: string): set<EventId> {
    set e | e in s.bodies && s.bodies[e].Click? && s.bodies[e].click.shortCode == code
  }

  /**
   * Whatever duplicates, redeliveries, crashes and lost replies a run contains, the table has at most one
   * row per event id, each row is the click that was appended under that id, and the count of a short code is
   * the number of distinct events in the table, at most the number appended.
   */
  lemma TableRefinesEvents(s0: State, run: seq<Step>, code: string)
    requires Init(s0) && CanExec(s0, run)
    ensures var s := Exec(s0, run);
            && Unique(s.clicks)
            && Ids(s.clicks) <= Processed(s)
            && (forall r <- s.clicks :: r.eventId in s.bodies && s.bodies[r.eventId] == Click(r.click))
            && CountByShortCode(s.clicks, code) == |EventsOf(s.clicks, code)| <= |AppendedFor(s, code)|
  {
    InitHolds(s0);
    RunKeeps(s0, run);
    var s := Exec(s0, run);
    CountIsDistinctEvents(s.clicks, code);
    forall r <- s.clicks ensures RowKnown(r, s.insertions, s.bodies) {
    }
    assert EventsOf(s.clicks, code) <= AppendedFor(s, code);
    SubsetSize(EventsOf(s.clicks, code), AppendedFor(s, code));
  }

  ghost predicate NoClickPurge(run: seq<Step>) {
    forall i :: 0 <= i < |run| ==> !run[i].PurgeClicks?
  }

  lemma CommittedKeepsAll(s: State, rows: seq<ClickRow>)
    requires Ids(s.clicks) == Processed(s)
    ensures Ids(Committed(s, rows).clicks) == Processed(Committed(s, rows))
  {
    var s' := Committed(s, rows);
    InsertAllRefinesMap(s.clicks, rows);
    var added := NewIds(s.clicks, s'.clicks);
    forall e | e in added ensures e in Ids(s'.clicks) {
      var i :| 0 <= i < |added| && added[i] == e;
      assert s'.clicks[|s.clicks| + i] in s'.clicks;
    }
    forall r <- s'.clicks ensures r.eventId in s'.insertions {
      var i :| 0 <= i < |s'.clicks| && s'.clicks[i] == r;
      if i < |s.clicks| {
        assert s.clicks[i] == r && r.eventId in Ids(s.clicks);
      } else {
        assert added[i - |s.clicks|] == r.eventId;
      }
    }
    assert forall r :: r in s.clicks ==> r in s'.clicks;
  }

  lemma StepWithoutPurge(s: State, step: Step)
    requires Ids(s.clicks) == Processed(s) && Enabled(s, step) && !step.PurgeClicks?
    ensures Ids(Apply(s, step).clicks) == Processed(Apply(s, step))
  {
    if step.Insert? {
      CommittedKeepsAll(s, RowsOf(s.workers[step.w].flights[step.f].items));
    } else if step.LateInsert? {
      CommittedKeepsAll(s, RowsOf(s.detached[step.i]));
    } else {
      assert Apply(s, step).clicks == s.clicks && Apply(s, step).insertions == s.insertions;
    }
  }

  lemma {:induction false} WithoutPurgeTableIsHistory(s: State, run: seq<Step>)
    requires Ids(s.clicks) == Processed(s) && CanExec(s, run) && NoClickPurge(run)
    ensures Ids(Exec(s, run).clicks) == Processed(Exec(s, run))
    decreases |run|
  {
    if run != [] {
      StepWithoutPurge(s, run[0]);
      WithoutPurgeTableIsHistory(Apply(s, run[0]), run[1..]);
    }
  }

  /** Until a retention purge runs, the count of a short code is the number of distinct events processed for it. */
  lemma CountIsProcessed(s0: State, run: seq<Step>, code: string)
    requires Init(s0) && CanExec(s0, run) && NoClickPurge(run)
    ensures var s := Exec(s0, run);
            CountByShortCode(s.clicks, code) == |Processed(s) * AppendedFor(s, code)|
  {
    InitHolds(s0);
    RunKeeps(s0, run);
    var s := Exec(s0, run);
    WithoutPurgeTableIsHistory(s0, run);
    CountIsDistinctEvents(s.clicks, code);
    forall e | e in Processed(s) * AppendedFor(s, code) ensures e in EventsOf(s.clicks, code) {
      assert e in Ids(s.clicks);
      var r :| r in s.clicks && r.eventId == e;
      assert RowKnown(r, s.insertions, s.bodies);
    }
    forall r <- s.clicks ensures RowKnown(r, s.insertions, s.bodies) {
    }
    assert EventsOf(s.clicks, code) == Processed(s) * AppendedFor(s, code);
  }
}
