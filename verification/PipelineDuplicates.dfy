/**
 * When a row is handed to the broker more than once. Two publishers can both deliver it, in spite of SKIP LOCKED;
 * these results say exactly when that is still possible, and that a batch marked before its rows are due again is
 * delivered once.
 */
module PipelineDuplicates {
  import opened Types
  import opened ClickStore
  import opened Pipeline
  import opened PipelineInvariant
  import opened PipelineRetention
  import opened PipelineRetentionExact
  import opened PipelineSafety
  import opened PipelineLimits
  import Outbox
  import Publisher
  import Worker

  /** The publisher has a message of the row on its channel that the broker has not taken. */
  ghost predicate HasUntaken(ph: Publisher.Phase, r: RowId) {
    ph.Sending? && exists i :: ph.taken <= i < |ph.claimed| && ph.claimed[i].id == r
  }

  ghost predicate OnAChannel(publishers: map<nat, Publisher.Phase>, r: RowId) {
    exists p <- publishers :: HasUntaken(publishers[p], r)
  }

  // ---------------------------------------------------------------- delivered for good

  /** No further copy of the row can come: it is not pending, and no publisher has one on its channel. */
  ghost predicate Done(s: State, r: RowId) {
    r in s.appended && !IsPending(s.outbox, r) && !OnAChannel(s.publishers, r)
  }

  lemma ClaimKeepsDone(s: State, p: nat, locked: set<RowId>, replied: bool, r: RowId)
    requires Done(s, r) && p in s.publishers
    ensures Done(DoClaim(s, p, locked, replied), r)
  {
    var s' := DoClaim(s, p, locked, replied);
    var ids := ClaimedIds(s, locked);
    Outbox.SelectIsFirstDue(s.outbox, 0, s.clock, locked, Outbox.CLAIM_LIMIT);
    assert r !in ids;
    forall q | q in s'.publishers ensures !HasUntaken(s'.publishers[q], r) {
      if q == p {
        assert forall i :: 0 <= i < |ids| ==> ids[i] in ids;
      } else {
        assert !HasUntaken(s.publishers[q], r);
      }
    }
  }

  lemma TakeKeepsDone(s: State, p: nat, r: RowId)
    requires Done(s, r) && Enabled(s, Take(p))
    ensures Done(DoTake(s, p), r) && CopiesOfRow(DoTake(s, p).accepted, r) == CopiesOfRow(s.accepted, r)
  {
    var s', ph := DoTake(s, p), s.publishers[p];
    assert !HasUntaken(ph, r);
    assert ph.claimed[ph.taken].id != r;
    forall q | q in s'.publishers ensures !HasUntaken(s'.publishers[q], r) {
      assert !HasUntaken(s.publishers[q], r);
    }
  }

  lemma PhaseKeepsDone(s: State, p: nat, ph: Publisher.Phase, r: RowId)
    requires !OnAChannel(s.publishers, r) && !ph.Sending?
    ensures !OnAChannel(s.publishers[p := ph], r)
  {
    var publishers := s.publishers[p := ph];
    forall q | q in publishers ensures !HasUntaken(publishers[q], r) {
      assert q != p ==> !HasUntaken(s.publishers[q], r);
    }
  }

  /** Consumers, inspectors and click purges leave the publishing side alone. */
  lemma OtherSteps(s: State, step: Step)
    requires Enabled(s, step) && !OutboxStep(step)
    ensures var next := Apply(s, step);
            && next.outbox == s.outbox && next.publishers == s.publishers && next.accepted == s.accepted
            && next.appended == s.appended && next.claims == s.claims && next.clock == s.clock
  {
  }

  ghost predicate PhaseStep(step: Step) {
    step.Connect? || step.Confirm? || step.Mark? || step.PublisherFails?
  }

  lemma PhaseSteps(s: State, step: Step)
    requires Enabled(s, step) && PhaseStep(step)
    ensures var next := Apply(s, step);
            && step.p in next.publishers && !next.publishers[step.p].Sending?
            && next.publishers == s.publishers[step.p := next.publishers[step.p]]
            && next.accepted == s.accepted && next.appended == s.appended && next.claims == s.claims
            && next.clock == s.clock && (step.Mark? || next.outbox == s.outbox)
            && (step.Mark? ==>
                  next.outbox == Outbox.Mark(s.outbox, Outbox.IdSet(Publisher.RowIds(s.publishers[step.p].claimed)), s.clock))
  {
  }

  lemma PhaseStepKeepsDone(s: State, step: Step, r: RowId)
    requires Enabled(s, step) && PhaseStep(step) && Done(s, r)
    ensures Done(Apply(s, step), r) && Apply(s, step).accepted == s.accepted
  {
    PhaseSteps(s, step);
    PhaseKeepsDone(s, step.p, Apply(s, step).publishers[step.p], r);
  }

  lemma StepKeepsDone(s: State, step: Step, r: RowId)
    requires Inv(s) && Enabled(s, step) && Done(s, r)
    ensures Done(Apply(s, step), r) && CopiesOfRow(Apply(s, step).accepted, r) == CopiesOfRow(s.accepted, r)
  {
    if !OutboxStep(step) {
      OtherSteps(s, step);
    } else if step.Claim? {
      ClaimKeepsDone(s, step.p, step.locked, step.replied, r);
    } else if step.Take? {
      TakeKeepsDone(s, step.p, r);
    } else if PhaseStep(step) {
      PhaseStepKeepsDone(s, step, r);
    } else {
      TableStepKeepsDone(s, step, r);
    }
  }

  lemma TableStepKeepsDone(s: State, step: Step, r: RowId)
    requires RowsOk(s.outbox, s.appended, s.bodies, s.claims) && Enabled(s, step) && Done(s, r)
    requires step.Append? || step.Tick? || step.PurgeOutbox?
    ensures Done(Apply(s, step), r) && Apply(s, step).accepted == s.accepted
  {
    if step.Append? {
      AppendKeepsRows(s, step.e, step.body);
    }
  }

  /** A row that is done keeps the copies it has, whatever happens. */
  lemma {:induction false} DoneForGood(s: State, run: seq<Step>, r: RowId)
    requires Inv(s) && CanExec(s, run) && Done(s, r)
    ensures CopiesOfRow(Exec(s, run).accepted, r) == CopiesOfRow(s.accepted, r)
    decreases |run|
  {
    if run != [] {
      StepKeeps(s, run[0]);
      StepKeepsDone(s, run[0], r);
      DoneForGood(Apply(s, run[0]), run[1..], r);
    }
  }

  // ---------------------------------------------------------------- otherwise another copy can come

  /** A way on that brings the row another copy and leaves the table's rows pending as they were. */
  ghost predicate Delivers(s: State, run: seq<Step>, r: RowId) {
    && CanExec(s, run)
    && var next := Exec(s, run);
    && |CopiesOfRow(next.accepted, r)| > |CopiesOfRow(s.accepted, r)|
    && next.publishers.Keys == s.publishers.Keys
    && (IsPending(s.outbox, r) ==> IsPending(next.outbox, r))
    && r in next.appended
  }

  lemma CopyAdded(accepted: set<CopyKey>, k: CopyKey, r: RowId)
    ensures |CopiesOfRow(accepted + {k}, r)| == |CopiesOfRow(accepted, r)| + if k.row == r && k !in accepted then 1 else 0
  {
    if k.row == r && k !in accepted {
      assert CopiesOfRow(accepted + {k}, r) == CopiesOfRow(accepted, r) + {k};
    } else {
      assert CopiesOfRow(accepted + {k}, r) == CopiesOfRow(accepted, r);
    }
  }

  /** One more step in front. */
  lemma StepThenDelivers(s: State, step: Step, next: State, rest: seq<Step>, r: RowId)
    requires Enabled(s, step) && next == Apply(s, step) && Delivers(next, rest, r)
    requires next.publishers.Keys == s.publishers.Keys
    requires |CopiesOfRow(next.accepted, r)| >= |CopiesOfRow(s.accepted, r)|
    requires IsPending(s.outbox, r) ==> IsPending(next.outbox, r)
    ensures Delivers(s, [step] + rest, r)
  {
    Cons(s, step, rest);
  }

  lemma TakeEffect(s: State, p: nat, r: RowId)
    requires Inv(s) && p in s.publishers && HasUntaken(s.publishers[p], r)
    ensures var ph, next := s.publishers[p], DoTake(s, p);
            && Enabled(s, Take(p)) && r in s.appended && r in next.appended
            && next.outbox == s.outbox && next.publishers.Keys == s.publishers.Keys
            && next.publishers[p] == Publisher.Sending(ph.claimed, ph.taken + 1)
            && |CopiesOfRow(next.accepted, r)|
               == |CopiesOfRow(s.accepted, r)| + (if ph.claimed[ph.taken].id == r then 1 else 0)
            && (ph.claimed[ph.taken].id != r ==> HasUntaken(next.publishers[p], r))
  {
    var ph := s.publishers[p];
    assert PhaseOk(ph, s.appended, s.bodies, s.claims, s.accepted);
    UntakenIsKnown(s, ph, r);
    CopyAdded(s.accepted, KeyOf(ph.claimed[ph.taken]), r);
    assert DoTake(s, p).accepted == s.accepted + {KeyOf(ph.claimed[ph.taken])};
  }

  lemma UntakenIsKnown(s: State, ph: Publisher.Phase, r: RowId)
    requires PhaseOk(ph, s.appended, s.bodies, s.claims, s.accepted) && HasUntaken(ph, r)
    ensures r in s.appended && ph.taken < |ph.claimed| && KeyOf(ph.claimed[ph.taken]) !in s.accepted
  {
    var i :| ph.taken <= i < |ph.claimed| && ph.claimed[i].id == r;
    assert RecordOk(ph.claimed[i], s.appended, s.bodies, s.claims);
  }

  /** The broker takes messages of the batch until it has the row's. */
  lemma {:induction false} UntakenDelivers(s: State, p: nat, r: RowId) returns (run: seq<Step>)
    requires Inv(s) && p in s.publishers && HasUntaken(s.publishers[p], r)
    ensures Delivers(s, run, r)
    decreases |s.publishers[p].claimed| - s.publishers[p].taken
  {
    TakeEffect(s, p, r);
    var next := DoTake(s, p);
    if s.publishers[p].claimed[s.publishers[p].taken].id == r {
      OneStepDelivers(s, Take(p), next, r);
      run := [Take(p)] + [];
    } else {
      StepKeeps(s, Take(p));
      var rest := UntakenDelivers(next, p, r);
      StepThenDelivers(s, Take(p), next, rest, r);
      run := [Take(p)] + rest;
    }
  }

  lemma OneStepDelivers(s: State, step: Step, next: State, r: RowId)
    requires Enabled(s, step) && next == Apply(s, step)
    requires |CopiesOfRow(next.accepted, r)| > |CopiesOfRow(s.accepted, r)|
    requires next.publishers.Keys == s.publishers.Keys && next.outbox == s.outbox && r in next.appended
    ensures Delivers(s, [step] + [], r)
  {
    assert CanExec(next, []);
    Cons(s, step, []);
  }

  lemma ClaimsRow(s: State, p: nat, r: RowId) returns (next: State)
    requires Inv(s) && p in s.publishers && s.publishers[p].Ready?
    requires IsPending(s.outbox, r) && Outbox.Due(s.outbox.rows[r], s.clock)
    ensures next == DoClaim(s, p, s.outbox.rows.Keys - {r}, true) && next.publishers.Keys == s.publishers.Keys
    ensures HasUntaken(next.publishers[p], r) && IsPending(next.outbox, r)
  {
    var locked := s.outbox.rows.Keys - {r};
    next := DoClaim(s, p, locked, true);
    SelectsIt(s.outbox, s.clock, r);
    var ids := ClaimedIds(s, locked);
    var i :| 0 <= i < |ids| && ids[i] == r;
    assert Outbox.Records(s.outbox, ids)[i].id == r;
  }

  lemma PendingDelivers(s: State, p: nat, r: RowId) returns (run: seq<Step>)
    requires Inv(s) && p in s.publishers && IsPending(s.outbox, r)
    ensures Delivers(s, run, r)
  {
    var wait, due := BecomesDue(s, p, r);
    RunKeeps(s, wait);
    var rest := DueDelivers(due, p, r);
    QuietThenDelivers(s, wait, due, rest, r);
    run := wait + rest;
  }

  lemma DueDelivers(s: State, p: nat, r: RowId) returns (run: seq<Step>)
    requires Inv(s) && p in s.publishers && s.publishers[p].Ready?
    requires IsPending(s.outbox, r) && Outbox.Due(s.outbox.rows[r], s.clock)
    ensures Delivers(s, run, r)
  {
    var step := Claim(p, s.outbox.rows.Keys - {r}, true);
    var next := ClaimsRow(s, p, r);
    StepKeeps(s, step);
    var rest := UntakenDelivers(next, p, r);
    StepThenDelivers(s, step, next, rest, r);
    run := [step] + rest;
  }

  lemma QuietThenDelivers(s: State, wait: seq<Step>, due: State, run: seq<Step>, r: RowId)
    requires Quiet(s, wait, due) && due.outbox == s.outbox && due.accepted == s.accepted && Delivers(due, run, r)
    ensures Delivers(s, wait + run, r)
  {
    ExecConcat(s, wait, run);
  }

  lemma DeliversTwice(s: State, a: seq<Step>, b: seq<Step>, r: RowId)
    requires Delivers(s, a, r) && Delivers(Exec(s, a), b, r)
    ensures CanExec(s, a + b) && |CopiesOfRow(Exec(s, a + b).accepted, r)| >= |CopiesOfRow(s.accepted, r)| + 2
  {
    ExecConcat(s, a, b);
  }

  // ---------------------------------------------------------------- the exact condition

  /** Some way on gives the broker two copies of the row. */
  ghost predicate MayDouble(s: State, r: RowId) {
    exists run: seq<Step> {:trigger CanExec(s, run)} :: CanExec(s, run) && |CopiesOfRow(Exec(s, run).accepted, r)| >= 2
  }

  lemma CopyExists(s: State, r: RowId)
    requires Inv(s) && r in s.appended && !IsPending(s.outbox, r)
    ensures |CopiesOfRow(s.accepted, r)| >= 1
  {
    assert Taken(s.accepted, r);
    var a: nat :| CopyKey(r, a) in s.accepted;
    assert CopyKey(r, a) in CopiesOfRow(s.accepted, r);
  }

  lemma PendingRowDoubles(s: State, p: nat, r: RowId)
    requires Inv(s) && p in s.publishers && IsPending(s.outbox, r)
    ensures MayDouble(s, r)
  {
    var a := PendingDelivers(s, p, r);
    RunKeeps(s, a);
    var b := PendingDelivers(Exec(s, a), p, r);
    DeliversTwice(s, a, b, r);
  }

  lemma UntakenRowDoubles(s: State, p: nat, r: RowId)
    requires Inv(s) && p in s.publishers && HasUntaken(s.publishers[p], r) && r in s.appended && !IsPending(s.outbox, r)
    ensures MayDouble(s, r)
  {
    CopyExists(s, r);
    var run := UntakenDelivers(s, p, r);
    assert CanExec(s, run);
  }

  lemma LooseRowDoubles(s: State, r: RowId)
    requires Inv(s) && s.publishers != map[] && r in s.appended && !Done(s, r)
    ensures MayDouble(s, r)
  {
    if IsPending(s.outbox, r) {
      var p :| p in s.publishers;
      PendingRowDoubles(s, p, r);
    } else {
      var p :| p in s.publishers && HasUntaken(s.publishers[p], r);
      UntakenRowDoubles(s, p, r);
    }
  }

  /**
   * In every reachable state, a row may yet have two copies with the broker, or has had them already, exactly when
   * it has two, or is still pending, or is on some publisher's channel. Otherwise it is delivered once for good.
   */
  lemma SecondCopyIff(s0: State, history: seq<Step>, r: RowId)
    requires Init(s0) && s0.publishers != map[] && CanExec(s0, history) && r in Exec(s0, history).appended
    ensures var s := Exec(s0, history);
            && (MayDouble(s, r)
                <==> |CopiesOfRow(s.accepted, r)| >= 2 || IsPending(s.outbox, r) || OnAChannel(s.publishers, r))
            && (!MayDouble(s, r) ==> |CopiesOfRow(s.accepted, r)| == 1)
  {
    var s := Exec(s0, history);
    InitHolds(s0);
    RunKeeps(s0, history);
    PublishersStay(s0, history);
    if Done(s, r) {
      CopyExists(s, r);
      assert CanExec(s, []);
      forall run: seq<Step> | CanExec(s, run)
        ensures |CopiesOfRow(Exec(s, run).accepted, r)| == |CopiesOfRow(s.accepted, r)|
      {
        DoneForGood(s, run, r);
      }
    } else {
      LooseRowDoubles(s, r);
    }
  }

  lemma {:induction false} PublishersStay(s: State, run: seq<Step>)
    requires CanExec(s, run) && s.publishers != map[]
    ensures Exec(s, run).publishers != map[]
    decreases |run|
  {
    if run != [] {
      PublishersStayInStep(s, run[0]);
      PublishersStay(Apply(s, run[0]), run[1..]);
    }
  }

  lemma PublishersStayInStep(s: State, step: Step)
    requires Enabled(s, step) && s.publishers != map[]
    ensures Apply(s, step).publishers != map[]
  {
  }

  // ---------------------------------------------------------------- marked in time, delivered once

  /** A row claimed once and marked is done, with one copy. */
  lemma ClaimedOnceIsDone(s: State, q: nat, replied: bool, r: RowId)
    requires Inv(s) && Enabled(s, Mark(q, replied)) && r in Publisher.RowIds(s.publishers[q].claimed)
    requires r in s.appended && s.claims[r] == 1
    ensures Done(DoMark(s, q, replied), r)
    ensures CopiesOfRow(DoMark(s, q, replied).accepted, r) == {CopyKey(r, 1)}
  {
    var claimed := s.publishers[q].claimed;
    assert PhaseOk(s.publishers[q], s.appended, s.bodies, s.claims, s.accepted);
    var i :| 0 <= i < |claimed| && Publisher.RowIds(claimed)[i] == r;
    assert Taken(s.accepted, claimed[i].id);
    var a: nat :| CopyKey(r, a) in s.accepted;
    assert a == 1;
    forall p | p in s.publishers ensures !HasUntaken(s.publishers[p], r) {
      assert PhaseOk(s.publishers[p], s.appended, s.bodies, s.claims, s.accepted);
      if s.publishers[p].Sending? {
        NothingUntaken(s, s.publishers[p], r);
      }
    }
    PhaseKeepsDone(s, q, if replied then Publisher.Ready else Publisher.Offline, r);
    assert CopiesOfRow(s.accepted, r) == {CopyKey(r, 1)};
  }

  lemma NothingUntaken(s: State, ph: Publisher.Phase, r: RowId)
    requires PhaseOk(ph, s.appended, s.bodies, s.claims, s.accepted) && ph.Sending?
    requires r in s.claims && s.claims[r] == 1 && CopyKey(r, 1) in s.accepted
    ensures !HasUntaken(ph, r)
  {
    forall i | ph.taken <= i < |ph.claimed| ensures ph.claimed[i].id != r {
      assert RecordOk(ph.claimed[i], s.appended, s.bodies, s.claims);
      assert KeyOf(ph.claimed[i]) !in s.accepted;
    }
  }

  /** The row was claimed once and, if it is still there unpublished, is not due before the given time. */
  ghost predicate ClaimedOnce(s: State, r: RowId, due: Time) {
    && r in s.appended && r in s.claims && s.claims[r] == 1
    && (IsPending(s.outbox, r) ==> s.outbox.rows[r].nextAttemptAt == Some(due))
  }

  lemma PhaseStepKeepsClaimedOnce(s: State, step: Step, r: RowId, due: Time)
    requires Enabled(s, step) && PhaseStep(step) && ClaimedOnce(s, r, due)
    ensures ClaimedOnce(Apply(s, step), r, due)
  {
    PhaseSteps(s, step);
  }

  lemma StepKeepsClaimedOnce(s: State, step: Step, r: RowId, due: Time)
    requires Inv(s) && Enabled(s, step) && ClaimedOnce(s, r, due) && s.clock < due
    ensures ClaimedOnce(Apply(s, step), r, due)
  {
    if !OutboxStep(step) {
      OtherSteps(s, step);
    } else if PhaseStep(step) {
      PhaseStepKeepsClaimedOnce(s, step, r, due);
    } else if step.Claim? {
      ClaimKeepsClaimedOnce(s, step, r, due);
    } else if step.Append? {
      AppendKeepsRows(s, step.e, step.body);
    }
  }

  lemma ClaimKeepsClaimedOnce(s: State, step: Step, r: RowId, due: Time)
    requires Enabled(s, step) && step.Claim? && ClaimedOnce(s, r, due) && s.clock < due
    ensures ClaimedOnce(DoClaim(s, step.p, step.locked, step.replied), r, due)
  {
    Outbox.SelectIsFirstDue(s.outbox, 0, s.clock, step.locked, Outbox.CLAIM_LIMIT);
    assert r !in ClaimedIds(s, step.locked);
  }

  lemma {:induction false} NotClaimedBeforeDue(s: State, run: seq<Step>, r: RowId, due: Time)
    requires Inv(s) && CanExec(s, run) && ClaimedOnce(s, r, due) && Exec(s, run).clock < due
    ensures ClaimedOnce(Exec(s, run), r, due)
    decreases |run|
  {
    if run != [] {
      RunAdvances(s, run);
      StepKeeps(s, run[0]);
      StepKeepsClaimedOnce(s, run[0], r, due);
      NotClaimedBeforeDue(Apply(s, run[0]), run[1..], r, due);
    }
  }

  lemma FirstClaim(s: State, p: nat, locked: set<RowId>, replied: bool, r: RowId)
    requires Inv(s) && Enabled(s, Claim(p, locked, replied)) && r in ClaimedIds(s, locked)
    requires s.outbox.rows[r].attempts == 0
    ensures ClaimedOnce(DoClaim(s, p, locked, replied), r, s.clock + 2000)
  {
    Outbox.SelectIsFirstDue(s.outbox, 0, s.clock, locked, Outbox.CLAIM_LIMIT);
    assert Outbox.Pow2(1) == 2;
  }

  /**
   * The promise a caller can rely on: a row whose batch is marked within the two seconds of its first claim has one
   * copy with the broker, whatever else happened in between and whatever happens afterwards.
   */
  lemma MarkedInTimeIsDeliveredOnce(s0: State, before: seq<Step>, p: nat, locked: set<RowId>, replied: bool,
                                    between: seq<Step>, q: nat, marked: bool, after: seq<Step>, r: RowId)
    requires Init(s0) && CanExec(s0, before)
    requires var s1 := Exec(s0, before);
             && Enabled(s1, Claim(p, locked, replied)) && r in ClaimedIds(s1, locked) && s1.outbox.rows[r].attempts == 0
             && var s2 := DoClaim(s1, p, locked, replied);
             && CanExec(s2, between)
             && var s3 := Exec(s2, between);
             && s3.clock < s1.clock + 2000
             && Enabled(s3, Mark(q, marked)) && r in Publisher.RowIds(s3.publishers[q].claimed)
             && CanExec(DoMark(s3, q, marked), after)
    ensures var s3 := Exec(DoClaim(Exec(s0, before), p, locked, replied), between);
            CopiesOfRow(Exec(DoMark(s3, q, marked), after).accepted, r) == {CopyKey(r, 1)}
  {
    var s1 := Exec(s0, before);
    InitHolds(s0);
    RunKeeps(s0, before);
    StepKeeps(s1, Claim(p, locked, replied));
    FirstClaim(s1, p, locked, replied, r);
    var s2 := DoClaim(s1, p, locked, replied);
    RunKeeps(s2, between);
    NotClaimedBeforeDue(s2, between, r, s1.clock + 2000);
    var s3 := Exec(s2, between);
    StepKeeps(s3, Mark(q, marked));
    ClaimedOnceIsDone(s3, q, marked, r);
    DoneForGood(DoMark(s3, q, marked), after, r);
  }

  // ---------------------------------------------------------------- a run that delivers twice

  /** The table with one row, claimed so many times. */
  function OneRow(attempts: nat, due: Option<Time>): Outbox.Table {
    Outbox.Table(map[0 := Outbox.Row(EVENT, Click(CLICK), attempts, due, None)], 1)
  }

  function Record(attempt: nat): Outbox.OutboxRecord {
    Outbox.OutboxRecord(0, EVENT, Click(CLICK), attempt)
  }

  lemma ClaimsTheRow(s: State, p: nat, attempts: nat, due: Option<Time>)
    requires s.outbox == OneRow(attempts, due) && attempts < 2 && (due.Some? ==> due.value <= s.clock)
    requires p in s.publishers && s.publishers[p].Ready?
    ensures var s' := DoClaim(s, p, {}, true);
            && s'.publishers == s.publishers[p := Publisher.Sending([Record(attempts + 1)], 0)]
            && s'.outbox == OneRow(attempts + 1, Some(s.clock + Outbox.Backoff(attempts + 1) * 1000))
            && s' == s.(outbox := s'.outbox, claims := s'.claims, publishers := s'.publishers)
  {
    assert Outbox.Claimable(s.outbox, 0, s.clock, {});
    assert Outbox.Select(s.outbox, 1, s.clock, {}, 99) == [];
    assert Outbox.Select(s.outbox, 0, s.clock, {}, 100) == [0];
    assert ClaimedIds(s, {}) == [0];
    assert Outbox.IdSet([0]) == {0};
    assert Outbox.Records(s.outbox, [0]) == [Record(attempts + 1)];
    assert DoClaim(s, p, {}, true).outbox.rows == OneRow(attempts + 1, Some(s.clock + Outbox.Backoff(attempts + 1) * 1000)).rows;
  }

  const SLOW: seq<Step> := [Connect(0), Connect(1), Claim(0, {}, true)]
  const AGAIN: seq<Step> := [Tick(2000), Claim(1, {}, true), Take(0)]

  /** Publisher 0 claims the row and is slow; two seconds later publisher 1 claims it too; the broker takes both. */
  lemma SlowPublisherDeliversTwice(s: State)
    requires s.outbox == Outbox.Table(map[], 0) && s.bodies == map[] && s.accepted == {} && s.clock == 0
    requires s.publishers == map[0 := Publisher.Offline, 1 := Publisher.Offline]
    ensures var run := [Append(EVENT, Click(CLICK))] + (SLOW + (AGAIN + [Take(1)]));
            CanExec(s, run) && Exec(s, run).accepted == {CopyKey(0, 1), CopyKey(0, 2)}
  {
    var s1 := AppendsOne(s);
    var s4 := SlowClaim(s1);
    var s7 := ClaimedAgain(s4);
    assert CanExec(Apply(s7, Take(1)), []);
    Cons(s7, Take(1), []);
    assert [Take(1)] + [] == [Take(1)];
    ExecConcat(s4, AGAIN, [Take(1)]);
    ExecConcat(s1, SLOW, AGAIN + [Take(1)]);
    Cons(s, Append(EVENT, Click(CLICK)), SLOW + (AGAIN + [Take(1)]));
  }

  lemma SlowClaim(s: State) returns (s': State)
    requires s.outbox == OneRow(0, None) && s.accepted == {} && s.clock == 0
    requires s.publishers == map[0 := Publisher.Offline, 1 := Publisher.Offline]
    ensures CanExec(s, SLOW) && s' == Exec(s, SLOW)
    ensures s'.outbox == OneRow(1, Some(2000)) && s'.accepted == {} && s'.clock == 0
    ensures s'.publishers == map[0 := Publisher.Sending([Record(1)], 0), 1 := Publisher.Ready]
  {
    var s1, s2 := BothConnect(s);
    s' := FirstOfTwoClaims(s2);
    ThreeSteps(s, Connect(0), s1, Connect(1), s2, Claim(0, {}, true), s');
  }

  lemma FirstOfTwoClaims(s: State) returns (s': State)
    requires s.outbox == OneRow(0, None) && s.clock == 0
    requires s.publishers == map[0 := Publisher.Ready, 1 := Publisher.Ready]
    ensures Enabled(s, Claim(0, {}, true)) && s' == Apply(s, Claim(0, {}, true))
    ensures s'.outbox == OneRow(1, Some(2000)) && s'.accepted == s.accepted && s'.clock == 0
    ensures s'.publishers == map[0 := Publisher.Sending([Record(1)], 0), 1 := Publisher.Ready]
  {
    ClaimsTheRow(s, 0, 0, None);
    FirstBackoff();
    s' := DoClaim(s, 0, {}, true);
  }

  lemma BothConnect(s: State) returns (s1: State, s2: State)
    requires s.publishers == map[0 := Publisher.Offline, 1 := Publisher.Offline]
    ensures Enabled(s, Connect(0)) && s1 == Apply(s, Connect(0))
    ensures Enabled(s1, Connect(1)) && s2 == Apply(s1, Connect(1))
    ensures s2 == s.(publishers := map[0 := Publisher.Ready, 1 := Publisher.Ready])
  {
    s1 := s.(publishers := map[0 := Publisher.Ready, 1 := Publisher.Offline]);
    s2 := s.(publishers := map[0 := Publisher.Ready, 1 := Publisher.Ready]);
  }

  lemma FirstBackoff()
    ensures Outbox.Backoff(1) == 2
  {
    assert Outbox.Pow2(1) == 2;
  }

  lemma ClaimedAgain(s: State) returns (s': State)
    requires s.outbox == OneRow(1, Some(2000)) && s.accepted == {} && s.clock == 0
    requires s.publishers == map[0 := Publisher.Sending([Record(1)], 0), 1 := Publisher.Ready]
    ensures CanExec(s, AGAIN) && s' == Exec(s, AGAIN)
    ensures s'.accepted == {CopyKey(0, 1)}
    ensures 1 in s'.publishers && s'.publishers[1] == Publisher.Sending([Record(2)], 0)
  {
    var s1 := s.(clock := 2000);
    ClaimsTheRow(s1, 1, 1, Some(2000));
    var s2 := DoClaim(s1, 1, {}, true);
    s' := DoTake(s2, 0);
    ThreeSteps(s, Tick(2000), s1, Claim(1, {}, true), s2, Take(0), s');
  }
}
