/**
 * Insertion at most once over a whole run, retention purges included: it holds when no purge deletes a click
 * whose event something in flight still carries, and a concrete run shows that it fails otherwise.
 */
module PipelineRetention {
  import opened Types
  import opened ClickStore
  import opened Pipeline
  import opened PipelineInvariant
  import Outbox
  import Publisher
  import Worker

  // ---------------------------------------------------------------- what may still lead to an insert

  ghost predicate PendingEvent(outbox: Outbox.Table, e: EventId) {
    exists r <- outbox.rows :: Outbox.Pending(outbox.rows[r]) && outbox.rows[r].eventId == e
  }

  ghost predicate Awaits(ph: Publisher.Phase, e: EventId) {
    ph.Sending? && exists i :: ph.taken <= i < |ph.claimed| && ph.claimed[i].eventId == e
  }

  ghost predicate UntakenEvent(publishers: map<nat, Publisher.Phase>, e: EventId) {
    exists p <- publishers :: Awaits(publishers[p], e)
  }

  predicate Live(place: Place) {
    place.Queued? || place.InBatch? || place.InFlight?
  }

  ghost predicate LiveCopy(copies: map<CopyKey, Copy>, e: EventId) {
    exists k <- copies :: copies[k].event == e && Live(copies[k].place)
  }

  ghost predicate Mentions(items: seq<Worker.Pending>, e: EventId) {
    exists p <- items :: p.eventId == e
  }

  ghost predicate DetachedEvent(detached: seq<seq<Worker.Pending>>, e: EventId) {
    exists i :: 0 <= i < |detached| && Mentions(detached[i], e)
  }

  /** Event e is pending, with a publisher, with the broker outside the dead letters, or in a late insert. */
  ghost predicate Carried(s: State, e: EventId) {
    PendingEvent(s.outbox, e) || UntakenEvent(s.publishers, e) || LiveCopy(s.copies, e) || DetachedEvent(s.detached, e)
  }

  // ---------------------------------------------------------------- an event that left does not come back

  lemma ClaimCarries(s: State, p: nat, locked: set<RowId>, replied: bool, e: EventId)
    requires p in s.publishers
    requires Carried(DoClaim(s, p, locked, replied), e)
    ensures Carried(s, e)
  {
    var s' := DoClaim(s, p, locked, replied);
    var ids := ClaimedIds(s, locked);
    Outbox.SelectIsFirstDue(s.outbox, 0, s.clock, locked, Outbox.CLAIM_LIMIT);
    if UntakenEvent(s'.publishers, e) {
      var q :| q in s'.publishers && Awaits(s'.publishers[q], e);
      if q == p {
        var i :| 0 <= i < |ids| && s'.publishers[p].claimed[i].eventId == e;
        assert ids[i] in ids;
        assert Outbox.Pending(s.outbox.rows[ids[i]]) && s.outbox.rows[ids[i]].eventId == e;
      } else {
        assert Awaits(s.publishers[q], e);
      }
    } else if PendingEvent(s'.outbox, e) {
      var r :| r in s'.outbox.rows && Outbox.Pending(s'.outbox.rows[r]) && s'.outbox.rows[r].eventId == e;
      assert Outbox.Pending(s.outbox.rows[r]);
    }
  }

  lemma TakeCarries(s: State, p: nat, e: EventId)
    requires Enabled(s, Take(p)) && Carried(DoTake(s, p), e)
    ensures Carried(s, e)
  {
    var s' := DoTake(s, p);
    var ph := s.publishers[p];
    if UntakenEvent(s'.publishers, e) {
      var q :| q in s'.publishers && Awaits(s'.publishers[q], e);
      assert Awaits(s.publishers[q], e);
    } else if LiveCopy(s'.copies, e) {
      var k :| k in s'.copies && s'.copies[k].event == e && Live(s'.copies[k].place);
      if k == KeyOf(ph.claimed[ph.taken]) {
        assert Awaits(ph, e);
      } else {
        assert k in s.copies;
      }
    }
  }

  /** Steps that move copies: live copies come from live copies. */
  lemma MovedCopiesCarry(copies: map<CopyKey, Copy>, copies': map<CopyKey, Copy>, e: EventId)
    requires forall k <- copies' ::
      k in copies && copies'[k].event == copies[k].event && (Live(copies'[k].place) ==> Live(copies[k].place))
    requires LiveCopy(copies', e)
    ensures LiveCopy(copies, e)
  {
    var k :| k in copies' && copies'[k].event == e && Live(copies'[k].place);
    assert k in copies;
  }

  lemma CrashCarries(s: State, w: nat, e: EventId)
    requires WorkersOk(s.workers, s.copies) && w in s.workers
    requires Carried(DoCrash(s, w), e)
    ensures Carried(s, e)
  {
    var s' := DoCrash(s, w);
    if LiveCopy(s'.copies, e) {
      MovedCopiesCarry(s.copies, s'.copies, e);
    } else if DetachedEvent(s'.detached, e) {
      var i :| 0 <= i < |s'.detached| && Mentions(s'.detached[i], e);
      if i < |s.detached| {
        assert Mentions(s.detached[i], e);
      } else {
        StrandedAreOpen(s.workers[w].flights);
        assert s'.detached[i] in Stranded(s.workers[w].flights);
        var f :| 0 <= f < |s.workers[w].flights| && s.workers[w].flights[f].reply.Waiting?
              && s.workers[w].flights[f].items == s'.detached[i];
        OpenItemsCarried(s, w, f, e);
      }
    }
  }

  /** The events of an open flush are carried by the copies the broker still holds for it. */
  lemma OpenItemsCarried(s: State, w: nat, f: nat, e: EventId)
    requires WorkersOk(s.workers, s.copies) && HasFlight(s, w, f) && s.workers[w].flights[f].Open()
    requires Mentions(s.workers[w].flights[f].items, e)
    ensures LiveCopy(s.copies, e)
  {
    var p :| p in s.workers[w].flights[f].items && p.eventId == e;
    assert WorkerOk(w, s.workers[w], s.copies);
    assert ItemOk(p, s.copies, InFlight(w, f));
  }

  lemma ResumeCarries(s: State, w: nat, f: nat, e: EventId)
    requires WorkerSide(s) && Enabled(s, Resume(w, f)) && Carried(DoResume(s, w, f), e)
    ensures Carried(s, e)
  {
    var s' := DoResume(s, w, f);
    if LiveCopy(s'.copies, e) {
      if s.workers[w].flights[f].reply.Done? {
        AcksSettled(s.copies, s.workers[w].flights[f].items);
      } else {
        ResumeThrewCopies(s, w, f);
      }
      MovedCopiesCarry(s.copies, s'.copies, e);
    }
  }

  /** An insert still under way after its worker's crash ends, one way or the other. */
  lemma LateInsertCarries(s: State, step: Step, e: EventId)
    requires (step.LateInsert? || step.LateInsertFails?) && Enabled(s, step) && Carried(Apply(s, step), e)
    ensures Carried(s, e)
  {
    var s', i := Apply(s, step), step.i;
    if DetachedEvent(s'.detached, e) {
      var j :| 0 <= j < |s'.detached| && Mentions(s'.detached[j], e);
      assert s'.detached[j] == s.detached[if j < i then j else j + 1];
    }
  }

  lemma DeliverCarries(s: State, w: nat, k: CopyKey, randomId: EventId, e: EventId)
    requires Enabled(s, Deliver(w, k, randomId)) && Carried(DoDeliver(s, w, k, randomId), e)
    ensures Carried(s, e)
  {
    var s' := DoDeliver(s, w, k, randomId);
    if LiveCopy(s'.copies, e) {
      MovedCopiesCarry(s.copies, s'.copies, e);
    }
  }

  lemma PublisherLeavesCarry(s: State, p: nat, ph: Publisher.Phase, e: EventId)
    requires p in s.publishers && !ph.Sending? && UntakenEvent(s.publishers[p := ph], e)
    ensures UntakenEvent(s.publishers, e)
  {
    var q :| q in s.publishers[p := ph] && Awaits(s.publishers[p := ph][q], e);
    assert q != p;
  }

  lemma OutboxCarries(s: State, step: Step, e: EventId)
    requires Enabled(s, step) && e in s.bodies && Carried(Apply(s, step), e)
    requires RowsOk(s.outbox, s.appended, s.bodies, s.claims)
    requires step.Append? || step.Mark? || step.PurgeOutbox? || step.Connect? || step.Confirm? || step.PublisherFails?
    ensures Carried(s, e)
  {
    var s' := Apply(s, step);
    if PendingEvent(s'.outbox, e) {
      var r :| r in s'.outbox.rows && Outbox.Pending(s'.outbox.rows[r]) && s'.outbox.rows[r].eventId == e;
      if step.Append? {
        AppendKeepsRows(s, step.e, step.body);
      }
      assert r in s.outbox.rows && Outbox.Pending(s.outbox.rows[r]) && s.outbox.rows[r].eventId == e;
    } else if UntakenEvent(s'.publishers, e) && !step.Append? && !step.PurgeOutbox? {
      PublisherLeavesCarry(s, step.p, s'.publishers[step.p], e);
    }
  }

  lemma CopyStepCarries(s: State, step: Step, e: EventId)
    requires Enabled(s, step) && Carried(Apply(s, step), e)
    requires step.Flush? || step.Inspect? || step.Observe? || step.InspectorCrashes?
    ensures Carried(s, e)
  {
    var s' := Apply(s, step);
    if LiveCopy(s'.copies, e) {
      MovedCopiesCarry(s.copies, s'.copies, e);
    }
  }

  /** No step brings a known event back once nothing carries it. */
  lemma StepCarries(s: State, step: Step, e: EventId)
    requires Inv(s) && Enabled(s, step) && e in s.bodies
    requires Carried(Apply(s, step), e)
    ensures Carried(s, e)
  {
    if step.Claim? {
      ClaimCarries(s, step.p, step.locked, step.replied, e);
    } else if step.Take? {
      TakeCarries(s, step.p, e);
    } else if step.Deliver? {
      DeliverCarries(s, step.w, step.k, step.randomId, e);
    } else if step.Resume? {
      ResumeCarries(s, step.w, step.f, e);
    } else if step.WorkerCrashes? {
      CrashCarries(s, step.w, e);
    } else if step.LateInsert? || step.LateInsertFails? {
      LateInsertCarries(s, step, e);
    } else {
      OtherStepCarries(s, step, e);
    }
  }

  lemma OtherStepCarries(s: State, step: Step, e: EventId)
    requires RowsOk(s.outbox, s.appended, s.bodies, s.claims) && Enabled(s, step) && e in s.bodies
    requires Carried(Apply(s, step), e)
    requires !step.Claim? && !step.Take? && !step.Deliver? && !step.Resume? && !step.WorkerCrashes?
    requires !step.LateInsert? && !step.LateInsertFails?
    ensures Carried(s, e)
  {
    if step.Flush? || step.Inspect? || step.Observe? || step.InspectorCrashes? {
      CopyStepCarries(s, step, e);
    } else if step.Append? || step.Mark? || step.PurgeOutbox? || step.Connect? || step.Confirm? || step.PublisherFails? {
      OutboxCarries(s, step, e);
    }
  }

  // ---------------------------------------------------------------- insertion at most once

  ghost predicate NoDuplicates(log: seq<EventId>) {
    forall i, j :: 0 <= i < j < |log| ==> log[i] != log[j]
  }

  /** The hypothesis on the retention job: it deletes no click whose event is still carried. */
  ghost predicate RetentionSafe(s: State, step: Step) {
    step.PurgeClicks? ==>
      forall r <- s.clicks :: r.click.clickedAt <= step.cutoff ==> !Carried(s, r.eventId)
  }

  ghost predicate RetentionSafeRun(s: State, run: seq<Step>)
    requires CanExec(s, run)
    decreases |run|
  {
    run == [] || (RetentionSafe(s, run[0]) && RetentionSafeRun(Apply(s, run[0]), run[1..]))
  }

  /** An event inserted before is either in the table or carried by nothing. */
  ghost predicate Retired(s: State) {
    NoDuplicates(s.insertions) && forall e <- s.insertions :: e in Ids(s.clicks) || !Carried(s, e)
  }

  lemma CommitKeepsLog(s: State, rows: seq<ClickRow>)
    requires Retired(s) && Unique(s.clicks)
    requires forall r <- rows :: Carried(s, r.eventId)
    ensures NoDuplicates(Committed(s, rows).insertions)
    ensures forall e <- Committed(s, rows).insertions :: e in s.insertions || e in Ids(Committed(s, rows).clicks)
    ensures Ids(s.clicks) <= Ids(Committed(s, rows).clicks)
  {
    InsertAllRefinesMap(s.clicks, rows);
    var s' := Committed(s, rows);
    var n := |s.clicks|;
    var added := NewIds(s.clicks, s'.clicks);
    forall i | 0 <= i < |added| ensures added[i] !in s.insertions && added[i] in Ids(s'.clicks) {
      assert s'.clicks[n + i] in rows && s'.clicks[n + i] in s'.clicks;
      assert s'.clicks[n + i].eventId !in Ids(s.clicks);
    }
    forall i, j | 0 <= i < j < |s'.insertions| ensures s'.insertions[i] != s'.insertions[j] {
      var m := |s.insertions|;
      if j >= m {
        assert s'.insertions[j] == added[j - m];
        if i >= m {
          assert s'.clicks[n + (i - m)].eventId != s'.clicks[n + (j - m)].eventId;
        } else {
          assert s'.insertions[i] == s.insertions[i] && s.insertions[i] in s.insertions;
        }
      }
    }
  }

  lemma InsertedRowsCarried(s: State, step: Step)
    requires Inv(s) && Enabled(s, step) && (step.Insert? || step.LateInsert?)
    ensures var items := if step.Insert? then s.workers[step.w].flights[step.f].items else s.detached[step.i];
            && Apply(s, step).insertions == Committed(s, RowsOf(items)).insertions
            && Apply(s, step).clicks == Committed(s, RowsOf(items)).clicks
            && forall r <- RowsOf(items) :: Carried(s, r.eventId)
  {
    var items := if step.Insert? then s.workers[step.w].flights[step.f].items else s.detached[step.i];
    forall r <- RowsOf(items) ensures Carried(s, r.eventId) {
      var j :| 0 <= j < |items| && RowsOf(items)[j] == r;
      assert items[j] in items;
      assert Mentions(items, r.eventId);
      if step.Insert? {
        OpenItemsCarried(s, step.w, step.f, r.eventId);
      }
    }
  }

  lemma CommitKeepsRetired(s: State, step: Step)
    requires Inv(s) && Enabled(s, step) && Retired(s) && (step.Insert? || step.LateInsert?)
    requires forall e <- s.insertions :: Carried(Apply(s, step), e) ==> Carried(s, e)
    ensures Retired(Apply(s, step))
  {
    InsertedRowsCarried(s, step);
    CommitKeepsLog(s, RowsOf(if step.Insert? then s.workers[step.w].flights[step.f].items else s.detached[step.i]));
  }

  lemma PurgeKeepsRetired(s: State, step: Step)
    requires Enabled(s, step) && Retired(s) && RetentionSafe(s, step) && step.PurgeClicks?
    requires forall e <- s.insertions :: Carried(Apply(s, step), e) ==> Carried(s, e)
    ensures Retired(Apply(s, step))
  {
    var s' := Apply(s, step);
    PurgeKeepsYoungRows(s.clicks, step.cutoff);
    forall e <- s.insertions ensures e in Ids(s'.clicks) || !Carried(s', e) {
      if e in Ids(s.clicks) {
        var r :| r in s.clicks && r.eventId == e;
        assert r.click.clickedAt > step.cutoff ==> r in s'.clicks;
      }
    }
  }

  lemma StepKeepsRetired(s: State, step: Step)
    requires Inv(s) && Enabled(s, step) && Retired(s) && RetentionSafe(s, step)
    ensures Retired(Apply(s, step))
  {
    var s' := Apply(s, step);
    assert forall e <- s.insertions :: e in s.bodies;
    forall e <- s.insertions ensures Carried(s', e) ==> Carried(s, e) {
      if Carried(s', e) {
        StepCarries(s, step, e);
      }
    }
    if step.Insert? || step.LateInsert? {
      CommitKeepsRetired(s, step);
    } else if step.PurgeClicks? {
      PurgeKeepsRetired(s, step);
    } else {
      assert s'.insertions == s.insertions && s'.clicks == s.clicks;
    }
  }

  lemma {:induction false} RunKeepsRetired(s: State, run: seq<Step>)
    requires Inv(s) && Retired(s) && CanExec(s, run) && RetentionSafeRun(s, run)
    ensures Retired(Exec(s, run))
    decreases |run|
  {
    if run != [] {
      StepKeeps(s, run[0]);
      StepKeepsRetired(s, run[0]);
      RunKeepsRetired(Apply(s, run[0]), run[1..]);
    }
  }

  /** With retention-safe purges every event is inserted at most once in the whole life of the system. */
  lemma InsertedAtMostOnceEver(s0: State, run: seq<Step>)
    requires Init(s0) && CanExec(s0, run) && RetentionSafeRun(s0, run)
    ensures NoDuplicates(Exec(s0, run).insertions)
  {
    InitHolds(s0);
    RunKeepsRetired(s0, run);
  }

  // ---------------------------------------------------------------- without the hypothesis it fails

  const EVENT := Uuid(0)
  /** What a worker would take for the id of a message that has none. */
  const RANDOM := Uuid(1)
  const CLICK := ClickEvent("a", 0, None, None, None, None)
  const KEY := CopyKey(0, 1)
  const ITEM := ClickRow(EVENT, CLICK)

  /** One publisher, one worker, nothing done yet. */
  const START := State(0, Outbox.Table(map[], 0), map[0 := Publisher.Offline], map[0 := Worker.INITIAL],
                       map[], [], [], map[], map[], map[], {}, {}, {}, [])

  lemma Cons(s: State, step: Step, rest: seq<Step>)
    requires Enabled(s, step) && CanExec(Apply(s, step), rest)
    ensures CanExec(s, [step] + rest) && Exec(s, [step] + rest) == Exec(Apply(s, step), rest)
  {
    assert ([step] + rest)[1..] == rest;
  }

  lemma ThreeSteps(s: State, a: Step, s1: State, b: Step, s2: State, c: Step, s3: State)
    requires Enabled(s, a) && s1 == Apply(s, a) && Enabled(s1, b) && s2 == Apply(s1, b) && Enabled(s2, c) && s3 == Apply(s2, c)
    ensures CanExec(s, [a, b, c]) && Exec(s, [a, b, c]) == s3
  {
    assert CanExec(s3, []);
    Cons(s2, c, []);
    assert [c] + [] == [c];
    Cons(s1, b, [c]);
    Cons(s, a, [b] + [c]);
    assert [a] + ([b] + [c]) == [a, b, c];
  }

  function Published(): seq<Step> {
    [Append(EVENT, Click(CLICK)), Connect(0), Claim(0, {}, true), Take(0)]
  }

  lemma AppendsOne(s: State) returns (s': State)
    requires s.outbox == Outbox.Table(map[], 0) && s.bodies == map[]
    ensures Enabled(s, Append(EVENT, Click(CLICK))) && s' == Apply(s, Append(EVENT, Click(CLICK)))
    ensures s'.outbox == Outbox.Table(map[0 := Outbox.NewRow(EVENT, Click(CLICK))], 1)
    ensures s' == s.(outbox := s'.outbox, appended := s'.appended, bodies := s'.bodies, claims := s'.claims)
  {
    s' := Apply(s, Append(EVENT, Click(CLICK)));
  }

  /** A ready publisher claims the one row there is. */
  lemma ClaimsOne(s: State) returns (s': State)
    requires s.outbox == Outbox.Table(map[0 := Outbox.NewRow(EVENT, Click(CLICK))], 1)
    requires s.publishers == map[0 := Publisher.Ready] && s.clock == 0
    ensures Enabled(s, Claim(0, {}, true)) && s' == Apply(s, Claim(0, {}, true))
    ensures s'.publishers == map[0 := Publisher.Sending([Outbox.OutboxRecord(0, EVENT, Click(CLICK), 1)], 0)]
    ensures s' == s.(outbox := s'.outbox, claims := s'.claims, publishers := s'.publishers)
  {
    assert Outbox.Claimable(s.outbox, 0, 0, {});
    assert Outbox.Select(s.outbox, 1, 0, {}, 99) == [];
    assert Outbox.Select(s.outbox, 0, 0, {}, 100) == [0];
    assert ClaimedIds(s, {}) == [0];
    assert Outbox.Records(s.outbox, [0]) == [Outbox.OutboxRecord(0, EVENT, Click(CLICK), 1)];
    s' := Apply(s, Claim(0, {}, true));
  }

  lemma TakesOne(s: State) returns (s': State)
    requires s.publishers == map[0 := Publisher.Sending([Outbox.OutboxRecord(0, EVENT, Click(CLICK), 1)], 0)]
    requires s.copies == map[]
    ensures Enabled(s, Take(0)) && s' == Apply(s, Take(0))
    ensures s'.copies == map[KEY := Copy(EVENT, Click(CLICK), false, Queued)]
    ensures s' == s.(copies := s'.copies, accepted := s'.accepted, publishers := s'.publishers)
  {
    s' := Apply(s, Take(0));
  }

  /** The event appended, claimed and taken by the broker: one queued copy, nothing inserted. */
  lemma AppendedIsTaken(s: State) returns (s': State)
    requires s.outbox == Outbox.Table(map[0 := Outbox.NewRow(EVENT, Click(CLICK))], 1)
    requires s.copies == map[] && s.clock == 0 && s.publishers == map[0 := Publisher.Offline]
    ensures var run := [Connect(0), Claim(0, {}, true), Take(0)]; CanExec(s, run) && s' == Exec(s, run)
    ensures s'.copies == map[KEY := Copy(EVENT, Click(CLICK), false, Queued)]
    ensures s'.workers == s.workers && s'.clicks == s.clicks && s'.insertions == s.insertions && s'.clock == 0
  {
    var s2 := ConnectsOne(s);
    var s3 := ClaimsOne(s2);
    s' := TakesOne(s3);
    ThreeSteps(s, Connect(0), s2, Claim(0, {}, true), s3, Take(0), s');
  }

  lemma ConnectsOne(s: State) returns (s': State)
    requires s.publishers == map[0 := Publisher.Offline]
    ensures Enabled(s, Connect(0)) && s' == Apply(s, Connect(0)) && s' == s.(publishers := map[0 := Publisher.Ready])
  {
    s' := Apply(s, Connect(0));
  }

  lemma PublishedOnce(s: State) returns (s': State)
    requires s.outbox == Outbox.Table(map[], 0) && s.bodies == map[] && s.copies == map[] && s.clock == 0
    requires s.publishers == map[0 := Publisher.Offline]
    ensures CanExec(s, Published()) && s' == Exec(s, Published())
    ensures s'.copies == map[KEY := Copy(EVENT, Click(CLICK), false, Queued)]
    ensures s'.workers == s.workers && s'.clicks == s.clicks && s'.insertions == s.insertions && s'.clock == 0
  {
    var s1 := AppendsOne(s);
    s' := AppendedIsTaken(s1);
    Cons(s, Append(EVENT, Click(CLICK)), [Connect(0), Claim(0, {}, true), Take(0)]);
    assert Published() == [Append(EVENT, Click(CLICK))] + [Connect(0), Claim(0, {}, true), Take(0)];
  }

  function Pass(f: nat, replied: bool): seq<Step> {
    [Deliver(0, KEY, RANDOM), Flush(0), Insert(0, f, replied)]
  }

  /** A lone queued copy reaches an idle worker. */
  lemma PassDelivers(s: State, flag: bool) returns (s': State, item: Worker.Pending)
    requires s.copies == map[KEY := Copy(EVENT, Click(CLICK), flag, Queued)]
    requires 0 in s.workers && s.workers[0].batch == []
    ensures Enabled(s, Deliver(0, KEY, RANDOM)) && s' == Apply(s, Deliver(0, KEY, RANDOM))
    ensures item == Worker.Pending(DeliveryOf(s, 0, KEY), CLICK, EVENT)
    ensures s'.clicks == s.clicks && s'.insertions == s.insertions && s'.clock == s.clock
    ensures 0 in s'.workers && s'.workers[0].batch == [item] && s'.workers[0].flights == s.workers[0].flights
    ensures s'.copies == map[KEY := Copy(EVENT, Click(CLICK), flag, InBatch(0))]
  {
    assert (set c | c in s.copies && HeldBy(s.copies[c], 0)) == {};
    s' := Apply(s, Deliver(0, KEY, RANDOM));
    item := Worker.Pending(DeliveryOf(s, 0, KEY), CLICK, EVENT);
  }

  lemma PassFlushes(s: State, flag: bool, item: Worker.Pending) returns (s': State)
    requires s.copies == map[KEY := Copy(EVENT, Click(CLICK), flag, InBatch(0))]
    requires 0 in s.workers && s.workers[0].batch == [item]
    ensures s' == Apply(s, Flush(0))
    ensures s'.clicks == s.clicks && s'.insertions == s.insertions && s'.clock == s.clock
    ensures 0 in s'.workers && s'.workers[0].batch == []
    ensures s'.workers[0].flights == s.workers[0].flights + [Worker.Flight([item], Worker.Waiting)]
    ensures s'.copies == map[KEY := Copy(EVENT, Click(CLICK), flag, InFlight(0, |s.workers[0].flights|))]
  {
    s' := Apply(s, Flush(0));
  }

  lemma PassCommits(s: State, f: nat, item: Worker.Pending, replied: bool) returns (s': State)
    requires item.eventId == EVENT && item.parsed == CLICK && s.clicks == []
    requires 0 in s.workers && |s.workers[0].flights| == f + 1 && s.workers[0].flights[f] == Worker.Flight([item], Worker.Waiting)
    ensures s' == Apply(s, Insert(0, f, replied))
    ensures s'.clicks == [ITEM] && s'.insertions == s.insertions + [EVENT] && s'.copies == s.copies && s'.clock == s.clock
    ensures 0 in s'.workers && s'.workers[0].batch == s.workers[0].batch && |s'.workers[0].flights| == f + 1
    ensures s'.workers[0].flights[f] == Worker.Flight([item], if replied then Worker.Done(1) else Worker.Threw)
  {
    assert RowsOf([item]) == [ITEM];
    assert InsertAll([], [ITEM]) == [ITEM] by {
      assert [ITEM][..0] == [];
      assert InsertAll([], [ITEM][..0]) == [];
    }
    assert NewIds([], [ITEM]) == [EVENT];
    s' := Apply(s, Insert(0, f, replied));
  }

  /** One pass of the copy through an idle worker: the click is inserted, whatever the log already says. */
  lemma PassInserts(s: State, flag: bool, f: nat, replied: bool) returns (s': State, item: Worker.Pending)
    requires s.copies == map[KEY := Copy(EVENT, Click(CLICK), flag, Queued)]
    requires 0 in s.workers && s.workers[0].batch == [] && |s.workers[0].flights| == f && s.clicks == []
    ensures CanExec(s, Pass(f, replied)) && s' == Exec(s, Pass(f, replied))
    ensures s'.clicks == [ITEM] && s'.insertions == s.insertions + [EVENT] && s'.clock == s.clock
    ensures 0 in s'.workers && s'.workers[0].batch == [] && |s'.workers[0].flights| == f + 1
    ensures s'.workers[0].flights[f] == Worker.Flight([item], if replied then Worker.Done(1) else Worker.Threw)
    ensures item.msg.copy == KEY && item.msg.redelivered == flag
    ensures s'.copies == map[KEY := Copy(EVENT, Click(CLICK), flag, InFlight(0, f))]
  {
    var s1, s2;
    s1, item := PassDelivers(s, flag);
    s2 := PassFlushes(s1, flag, item);
    s' := PassCommits(s2, f, item, replied);
    ThreeSteps(s, Deliver(0, KEY, RANDOM), s1, Flush(0), s2, Insert(0, f, replied), s');
  }

  lemma {:induction false} ExecConcat(s: State, a: seq<Step>, b: seq<Step>)
    requires CanExec(s, a) && CanExec(Exec(s, a), b)
    ensures CanExec(s, a + b) && Exec(s, a + b) == Exec(Exec(s, a), b)
    decreases |a|
  {
    if a == [] {
      assert a + b == b;
    } else {
      ExecConcat(Apply(s, a[0]), a[1..], b);
      Cons(s, a[0], a[1..] + b);
      assert a + b == [a[0]] + (a[1..] + b);
    }
  }

  function PurgeAndRequeue(): seq<Step> {
    [Tick(CLICK_RETENTION), PurgeClicks(0), Resume(0, 0)]
  }

  /** Ninety days pass, the retention job runs, and the failed flush requeues its message. */
  lemma PurgeThenRequeue(s: State, item: Worker.Pending) returns (s': State)
    requires s.clicks == [ITEM] && s.clock == 0 && 0 in s.workers && s.workers[0].batch == []
    requires s.workers[0].flights == [Worker.Flight([item], Worker.Threw)]
    requires item.msg.copy == KEY && !item.msg.redelivered
    requires s.copies == map[KEY := Copy(EVENT, Click(CLICK), false, InFlight(0, 0))]
    ensures CanExec(s, PurgeAndRequeue()) && s' == Exec(s, PurgeAndRequeue())
    ensures s'.clicks == [] && s'.insertions == s.insertions
    ensures 0 in s'.workers && s'.workers[0].batch == [] && |s'.workers[0].flights| == 1
    ensures s'.copies == map[KEY := Copy(EVENT, Click(CLICK), true, Queued)]
  {
    var s1 := s.(clock := CLICK_RETENTION);
    var s2 := PurgeEmpties(s1);
    s' := RequeueAgain(s2, item);
    ThreeSteps(s, Tick(CLICK_RETENTION), s1, PurgeClicks(0), s2, Resume(0, 0), s');
  }

  lemma PurgeEmpties(s: State) returns (s': State)
    requires s.clicks == [ITEM] && s.clock == CLICK_RETENTION
    ensures Enabled(s, PurgeClicks(0)) && s' == Apply(s, PurgeClicks(0)) && s' == s.(clicks := [])
  {
    assert PurgeRows([ITEM], 0) == [] by {
      assert [ITEM][..0] == [];
      assert PurgeRows([ITEM][..0], 0) == [];
    }
    s' := Apply(s, PurgeClicks(0));
  }

  lemma RequeueAgain(s: State, item: Worker.Pending) returns (s': State)
    requires 0 in s.workers && s.workers[0].batch == [] && s.workers[0].flights == [Worker.Flight([item], Worker.Threw)]
    requires item.msg.copy == KEY && !item.msg.redelivered
    requires s.copies == map[KEY := Copy(EVENT, Click(CLICK), false, InFlight(0, 0))]
    ensures Enabled(s, Resume(0, 0)) && s' == Apply(s, Resume(0, 0))
    ensures s'.clicks == s.clicks && s'.insertions == s.insertions
    ensures 0 in s'.workers && s'.workers[0].batch == [] && |s'.workers[0].flights| == 1
    ensures s'.copies == map[KEY := Copy(EVENT, Click(CLICK), true, Queued)]
  {
    assert [item][..0] == [] && Worker.Verdicts([item][..0]) == [];
    var calls := Worker.Verdicts([item]);
    assert calls == [Worker.Requeue(item.msg)];
    assert calls[..0] == [] && SettledAll(s.copies, calls[..0]) == s.copies;
    s' := Apply(s, Resume(0, 0));
  }

  lemma InsertedAgain(s: State, item: Worker.Pending) returns (s': State)
    requires s.clicks == [ITEM] && s.clock == 0 && 0 in s.workers && s.workers[0].batch == []
    requires s.workers[0].flights == [Worker.Flight([item], Worker.Threw)]
    requires item.msg.copy == KEY && !item.msg.redelivered
    requires s.copies == map[KEY := Copy(EVENT, Click(CLICK), false, InFlight(0, 0))]
    ensures var run := PurgeAndRequeue() + Pass(1, true);
            CanExec(s, run) && s' == Exec(s, run) && s'.insertions == s.insertions + [EVENT]
  {
    var s1 := PurgeThenRequeue(s, item);
    var again;
    s', again := PassInserts(s1, true, 1, true);
    ExecConcat(s, PurgeAndRequeue(), Pass(1, true));
  }

  /**
   * An insert that commits but reports failure, a retention purge before the requeued message comes back,
   * and the same event is inserted twice.
   */
  lemma PurgeUnderWayInsertsTwice() returns (run: seq<Step>)
    ensures Init(START) && CanExec(START, run)
    ensures Exec(START, run).insertions == [EVENT, EVENT]
  {
    var s1 := PublishedOnce(START);
    var s2, item := PassInserts(s1, false, 0, false);
    assert s2.workers[0].flights == [Worker.Flight([item], Worker.Threw)];
    var s4 := InsertedAgain(s2, item);
    ExecConcat(s1, Pass(0, false), PurgeAndRequeue() + Pass(1, true));
    run := Published() + (Pass(0, false) + (PurgeAndRequeue() + Pass(1, true)));
    ExecConcat(START, Published(), Pass(0, false) + (PurgeAndRequeue() + Pass(1, true)));
  }
}
