/** What every step of the pipeline keeps, whatever the interleaving, the crashes and the lost replies. */
module PipelineInvariant {
  import opened Types
  import opened ClickStore
  import opened Pipeline
  import Outbox
  import Publisher
  import Worker

  // ---------------------------------------------------------------- the invariant, part by part

  ghost predicate RowsOk(outbox: Outbox.Table, appended: map<RowId, EventId>, bodies: map<EventId, Body>,
                         claims: map<RowId, nat>)
  {
    && Outbox.Valid(outbox)
    && appended.Keys == claims.Keys
    && (forall r <- appended :: r < outbox.next && appended[r] in bodies)
    && (forall r <- appended, q <- appended :: appended[r] == appended[q] ==> r == q)
    && (forall r <- outbox.rows ::
          && r in appended && outbox.rows[r].eventId == appended[r]
          && outbox.rows[r].body == bodies[appended[r]] && outbox.rows[r].attempts == claims[r])
  }

  /** The broker has taken a copy of row r at some time. */
  ghost predicate Taken(accepted: set<CopyKey>, r: RowId) {
    exists a: nat :: CopyKey(r, a) in accepted
  }

  predicate IsPending(outbox: Outbox.Table, r: RowId) {
    r in outbox.rows && Outbox.Pending(outbox.rows[r])
  }

  /** A row that is no longer pending, published or purged, had a copy taken by the broker. */
  ghost predicate PublishedOk(outbox: Outbox.Table, appended: map<RowId, EventId>, accepted: set<CopyKey>) {
    forall r <- appended :: IsPending(outbox, r) || Taken(accepted, r)
  }

  function KeyOf(rec: Outbox.OutboxRecord): CopyKey {
    CopyKey(rec.id, rec.attempts)
  }

  ghost predicate RecordOk(rec: Outbox.OutboxRecord, appended: map<RowId, EventId>, bodies: map<EventId, Body>,
                           claims: map<RowId, nat>)
  {
    && rec.id in appended && rec.eventId == appended[rec.id]
    && rec.eventId in bodies && rec.body == bodies[rec.eventId]
    && rec.id in claims && 1 <= rec.attempts <= claims[rec.id]
  }

  ghost predicate PhaseOk(ph: Publisher.Phase, appended: map<RowId, EventId>, bodies: map<EventId, Body>,
                          claims: map<RowId, nat>, accepted: set<CopyKey>)
  {
    match ph
    case Sending(claimed, taken) =>
      && taken <= |claimed|
      && (forall i :: 0 <= i < |claimed| ==> RecordOk(claimed[i], appended, bodies, claims))
      && (forall i :: 0 <= i < taken ==> Taken(accepted, claimed[i].id))
      && (forall i :: taken <= i < |claimed| ==> KeyOf(claimed[i]) !in accepted)
      && (forall i, j :: 0 <= i < j < |claimed| ==> claimed[i].id < claimed[j].id)
    case Marking(claimed) =>
      forall i :: 0 <= i < |claimed| ==> Taken(accepted, claimed[i].id)
    case _ => true
  }

  ghost predicate PublishersOk(publishers: map<nat, Publisher.Phase>, appended: map<RowId, EventId>,
                               bodies: map<EventId, Body>, claims: map<RowId, nat>, accepted: set<CopyKey>)
  {
    forall p {:trigger PhaseOk(publishers[p], appended, bodies, claims, accepted)} | p in publishers ::
      PhaseOk(publishers[p], appended, bodies, claims, accepted)
  }

  /** Messages not yet taken, of two publishers, are different publications. */
  ghost predicate Disjoint(a: Publisher.Phase, b: Publisher.Phase) {
    a.Sending? && b.Sending? ==>
      forall i, j :: a.taken <= i < |a.claimed| && b.taken <= j < |b.claimed| ==> KeyOf(a.claimed[i]) != KeyOf(b.claimed[j])
  }

  ghost predicate UntakenDistinct(publishers: map<nat, Publisher.Phase>) {
    forall p, q {:trigger Disjoint(publishers[p], publishers[q])} | p in publishers && q in publishers && p != q ::
      Disjoint(publishers[p], publishers[q])
  }

  ghost predicate AcceptedOk(accepted: set<CopyKey>, claims: map<RowId, nat>) {
    forall k <- accepted :: k.row in claims && 1 <= k.attempt <= claims[k.row]
  }

  ghost predicate CopiesOk(copies: map<CopyKey, Copy>, accepted: set<CopyKey>, appended: map<RowId, EventId>,
                           bodies: map<EventId, Body>)
  {
    forall k <- copies ::
      && k in accepted && k.row in appended && copies[k].event == appended[k.row]
      && copies[k].event in bodies && copies[k].body == bodies[copies[k].event]
  }

  /** A copy the broker took is still with it, or its event was dead-lettered and observed, or inserted. */
  ghost predicate Accounted(accepted: set<CopyKey>, copies: map<CopyKey, Copy>, appended: map<RowId, EventId>,
                            observed: set<EventId>, insertions: seq<EventId>)
  {
    forall k <- accepted ::
      k in copies || (k.row in appended && (appended[k.row] in observed || appended[k.row] in insertions))
  }

  ghost predicate RequeuedOk(requeued: set<CopyKey>, accepted: set<CopyKey>, copies: map<CopyKey, Copy>) {
    && requeued <= accepted
    && (forall k <- requeued :: k in copies ==> copies[k].redelivered)
  }

  /** A message the worker holds is the copy the broker has at that place. */
  ghost predicate ItemOk(p: Worker.Pending, copies: map<CopyKey, Copy>, place: Place) {
    && p.msg.copy in copies
    && copies[p.msg.copy] == Copy(p.eventId, Click(p.parsed), p.msg.redelivered, place)
  }

  ghost predicate WorkerOk(w: nat, worker: Worker.State, copies: map<CopyKey, Copy>) {
    && (forall p <- worker.batch :: ItemOk(p, copies, InBatch(w)))
    && (forall f :: 0 <= f < |worker.flights| && worker.flights[f].Open() ==>
          forall p <- worker.flights[f].items :: ItemOk(p, copies, InFlight(w, f)))
    && Worker.RepliesFit(worker)
  }

  ghost predicate WorkersOk(workers: map<nat, Worker.State>, copies: map<CopyKey, Copy>) {
    forall w {:trigger WorkerOk(w, workers[w], copies)} | w in workers :: WorkerOk(w, workers[w], copies)
  }

  /** The holder the broker names has the copy. */
  ghost predicate HeldOk(c: Copy, k: CopyKey, workers: map<nat, Worker.State>) {
    match c.place
    case InBatch(w) => w in workers && k in CopiesOf(workers[w].batch)
    case InFlight(w, f) =>
      w in workers && f < |workers[w].flights| && workers[w].flights[f].Open() && k in CopiesOf(workers[w].flights[f].items)
    case _ => true
  }

  ghost predicate HoldersOk(copies: map<CopyKey, Copy>, workers: map<nat, Worker.State>) {
    forall k {:trigger HeldOk(copies[k], k, workers)} | k in copies :: HeldOk(copies[k], k, workers)
  }

  ghost predicate DoneInserted(workers: map<nat, Worker.State>, insertions: seq<EventId>) {
    forall w <- workers ::
      forall f :: 0 <= f < |workers[w].flights| && workers[w].flights[f].reply.Done? ==>
        forall p <- workers[w].flights[f].items :: p.eventId in insertions
  }

  ghost predicate ItemsKnown(items: seq<Worker.Pending>, bodies: map<EventId, Body>) {
    forall p <- items :: p.eventId in bodies && bodies[p.eventId] == Click(p.parsed)
  }

  ghost predicate DetachedOk(detached: seq<seq<Worker.Pending>>, bodies: map<EventId, Body>) {
    forall i {:trigger ItemsKnown(detached[i], bodies)} | 0 <= i < |detached| :: ItemsKnown(detached[i], bodies)
  }

  ghost predicate RowKnown(r: ClickRow, insertions: seq<EventId>, bodies: map<EventId, Body>) {
    r.eventId in insertions && r.eventId in bodies && bodies[r.eventId] == Click(r.click)
  }

  ghost predicate ClicksOk(clicks: seq<ClickRow>, insertions: seq<EventId>, bodies: map<EventId, Body>) {
    && Unique(clicks)
    && (forall r <- clicks :: RowKnown(r, insertions, bodies))
    && (forall e <- insertions :: e in bodies)
  }

  ghost predicate OutboxSide(s: State) {
    && RowsOk(s.outbox, s.appended, s.bodies, s.claims)
    && PublishedOk(s.outbox, s.appended, s.accepted)
    && PublishersOk(s.publishers, s.appended, s.bodies, s.claims, s.accepted)
    && UntakenDistinct(s.publishers)
    && AcceptedOk(s.accepted, s.claims)
  }

  ghost predicate BrokerSide(s: State) {
    && CopiesOk(s.copies, s.accepted, s.appended, s.bodies)
    && Accounted(s.accepted, s.copies, s.appended, s.observed, s.insertions)
    && RequeuedOk(s.requeued, s.accepted, s.copies)
  }

  ghost predicate WorkerSide(s: State) {
    && WorkersOk(s.workers, s.copies)
    && HoldersOk(s.copies, s.workers)
    && DoneInserted(s.workers, s.insertions)
  }

  ghost predicate StoreSide(s: State) {
    && DetachedOk(s.detached, s.bodies)
    && ClicksOk(s.clicks, s.insertions, s.bodies)
  }

  ghost predicate Inv(s: State) {
    OutboxSide(s) && BrokerSide(s) && WorkerSide(s) && StoreSide(s)
  }

  lemma InitHolds(s: State)
    requires Init(s)
    ensures Inv(s)
  {
  }

  // ---------------------------------------------------------------- outbox and publisher steps

  lemma AppendKeepsRows(s: State, e: EventId, body: Body)
    requires RowsOk(s.outbox, s.appended, s.bodies, s.claims) && e !in s.bodies
    ensures var s' := DoAppend(s, e, body);
            && RowsOk(s'.outbox, s'.appended, s'.bodies, s'.claims)
            && s'.outbox == Outbox.Table(s.outbox.rows[s.outbox.next := Outbox.NewRow(e, body)], s.outbox.next + 1)
            && s.outbox.next !in s.appended
  {
    assert !Outbox.HasEvent(s.outbox, e);
  }

  /** New history leaves everything said about old rows and events as it was. */
  lemma AppendKeepsOutbox(s: State, e: EventId, body: Body)
    requires OutboxSide(s) && e !in s.bodies
    ensures OutboxSide(DoAppend(s, e, body))
  {
    AppendKeepsRows(s, e, body);
    AppendKeepsPublishers(s, e, body);
  }

  lemma AppendKeepsPublishers(s: State, e: EventId, body: Body)
    requires PublishersOk(s.publishers, s.appended, s.bodies, s.claims, s.accepted)
    requires e !in s.bodies && s.outbox.next !in s.appended && s.outbox.next !in s.claims
    ensures var s' := DoAppend(s, e, body);
            PublishersOk(s.publishers, s'.appended, s'.bodies, s'.claims, s.accepted)
  {
    var s' := DoAppend(s, e, body);
    forall p <- s.publishers
      ensures PhaseOk(s.publishers[p], s'.appended, s'.bodies, s'.claims, s.accepted)
    {
      assert PhaseOk(s.publishers[p], s.appended, s.bodies, s.claims, s.accepted);
    }
  }

  lemma AppendKeepsBroker(s: State, e: EventId, body: Body)
    requires BrokerSide(s) && AcceptedOk(s.accepted, s.claims)
    requires RowsOk(s.outbox, s.appended, s.bodies, s.claims) && e !in s.bodies
    ensures BrokerSide(DoAppend(s, e, body))
  {
    AppendKeepsRows(s, e, body);
  }

  lemma AppendKeepsStore(s: State, e: EventId, body: Body)
    requires StoreSide(s) && e !in s.bodies
    ensures StoreSide(DoAppend(s, e, body))
  {
    var s' := DoAppend(s, e, body);
    forall i | 0 <= i < |s.detached| ensures ItemsKnown(s.detached[i], s'.bodies) {
      assert ItemsKnown(s.detached[i], s.bodies);
    }
  }

  lemma AppendKeeps(s: State, e: EventId, body: Body)
    requires Inv(s) && Enabled(s, Append(e, body))
    ensures Inv(Apply(s, Append(e, body)))
  {
    AppendKeepsOutbox(s, e, body);
    AppendKeepsBroker(s, e, body);
    AppendKeepsStore(s, e, body);
  }

  lemma ClaimKeepsRows(s: State, p: nat, locked: set<RowId>, replied: bool)
    requires RowsOk(s.outbox, s.appended, s.bodies, s.claims)
    ensures var s' := DoClaim(s, p, locked, replied);
            && RowsOk(s'.outbox, s'.appended, s'.bodies, s'.claims)
            && (forall r <- s.claims :: s.claims[r] <= s'.claims[r])
  {
  }

  lemma ClaimedRecords(s: State, locked: set<RowId>)
    requires RowsOk(s.outbox, s.appended, s.bodies, s.claims)
    ensures var s' := DoClaim(s, 0, locked, true);
            var recs := Outbox.Records(s.outbox, ClaimedIds(s, locked));
            && (forall i :: 0 <= i < |recs| ==> RecordOk(recs[i], s'.appended, s'.bodies, s'.claims))
            && (forall i :: 0 <= i < |recs| ==> recs[i].id in s.claims && recs[i].attempts == s.claims[recs[i].id] + 1)
            && (forall i, j :: 0 <= i < j < |recs| ==> recs[i].id < recs[j].id)
  {
    var s' := DoClaim(s, 0, locked, true);
    var ids := ClaimedIds(s, locked);
    Outbox.SelectIsFirstDue(s.outbox, 0, s.clock, locked, Outbox.CLAIM_LIMIT);
    forall i | 0 <= i < |ids|
      ensures RecordOk(Outbox.Records(s.outbox, ids)[i], s'.appended, s'.bodies, s'.claims)
    {
      assert ids[i] in ids;
    }
  }

  /** Attempt numbers above all claims so far are of publications nobody else has. */
  lemma FreshRecordsDisjoint(s: State, recs: seq<Outbox.OutboxRecord>, ph: Publisher.Phase)
    requires PhaseOk(ph, s.appended, s.bodies, s.claims, s.accepted)
    requires forall i :: 0 <= i < |recs| ==> recs[i].id in s.claims && recs[i].attempts == s.claims[recs[i].id] + 1
    ensures Disjoint(Publisher.AfterClaim(recs), ph) && Disjoint(ph, Publisher.AfterClaim(recs))
  {
    if ph.Sending? {
      forall i, j | 0 <= i < |recs| && ph.taken <= j < |ph.claimed| ensures KeyOf(recs[i]) != KeyOf(ph.claimed[j]) {
        assert RecordOk(ph.claimed[j], s.appended, s.bodies, s.claims);
      }
    }
  }

  lemma FreshRecordsPhaseOk(s: State, s': State, recs: seq<Outbox.OutboxRecord>)
    requires AcceptedOk(s.accepted, s.claims)
    requires forall i :: 0 <= i < |recs| ==> RecordOk(recs[i], s'.appended, s'.bodies, s'.claims)
    requires forall i :: 0 <= i < |recs| ==> recs[i].id in s.claims && recs[i].attempts == s.claims[recs[i].id] + 1
    requires forall i, j :: 0 <= i < j < |recs| ==> recs[i].id < recs[j].id
    ensures PhaseOk(Publisher.AfterClaim(recs), s'.appended, s'.bodies, s'.claims, s.accepted)
  {
  }

  /** A fresh claim stamps attempt numbers above every publication the broker has taken or may still take. */
  lemma ClaimedPhaseOk(s: State, locked: set<RowId>)
    requires OutboxSide(s)
    ensures var s' := DoClaim(s, 0, locked, true);
            var ph := Publisher.AfterClaim(Outbox.Records(s.outbox, ClaimedIds(s, locked)));
            && PhaseOk(ph, s'.appended, s'.bodies, s'.claims, s.accepted)
            && (forall q <- s.publishers :: Disjoint(ph, s.publishers[q]) && Disjoint(s.publishers[q], ph))
  {
    var recs := Outbox.Records(s.outbox, ClaimedIds(s, locked));
    ClaimedRecords(s, locked);
    FreshRecordsPhaseOk(s, DoClaim(s, 0, locked, true), recs);
    var ph := Publisher.AfterClaim(recs);
    forall q <- s.publishers ensures Disjoint(ph, s.publishers[q]) && Disjoint(s.publishers[q], ph) {
      assert PhaseOk(s.publishers[q], s.appended, s.bodies, s.claims, s.accepted);
      FreshRecordsDisjoint(s, recs, s.publishers[q]);
    }
  }

  lemma ClaimKeepsOutbox(s: State, p: nat, locked: set<RowId>, replied: bool)
    requires OutboxSide(s) && p in s.publishers
    ensures OutboxSide(DoClaim(s, p, locked, replied))
  {
    ClaimKeepsRows(s, p, locked, replied);
    ClaimedPhaseOk(s, locked);
    var s' := DoClaim(s, p, locked, replied);
    forall q <- s.publishers
      ensures PhaseOk(s.publishers[q], s'.appended, s'.bodies, s'.claims, s.accepted)
    {
      assert PhaseOk(s.publishers[q], s.appended, s.bodies, s.claims, s.accepted);
    }
  }

  lemma ClaimKeeps(s: State, p: nat, locked: set<RowId>, replied: bool)
    requires Inv(s) && Enabled(s, Claim(p, locked, replied))
    ensures Inv(Apply(s, Claim(p, locked, replied)))
  {
    ClaimKeepsOutbox(s, p, locked, replied);
  }

  lemma TakenGrows(accepted: set<CopyKey>, k: CopyKey, r: RowId)
    ensures Taken(accepted, r) || r == k.row ==> Taken(accepted + {k}, r)
  {
    if r == k.row {
      assert CopyKey(r, k.attempt) in accepted + {k};
    } else if Taken(accepted, r) {
      var a: nat :| CopyKey(r, a) in accepted;
      assert CopyKey(r, a) in accepted + {k};
    }
  }

  /** A publication taken from another publisher. */
  lemma PhaseOkAfterOtherTake(ph: Publisher.Phase, s: State, k: CopyKey)
    requires PhaseOk(ph, s.appended, s.bodies, s.claims, s.accepted)
    requires ph.Sending? ==> forall i :: ph.taken <= i < |ph.claimed| ==> KeyOf(ph.claimed[i]) != k
    ensures PhaseOk(ph, s.appended, s.bodies, s.claims, s.accepted + {k})
  {
    forall r { TakenGrows(s.accepted, k, r); }
  }

  lemma PhaseOkAfterOwnTake(ph: Publisher.Phase, s: State)
    requires ph.Sending? && ph.taken < |ph.claimed|
    requires PhaseOk(ph, s.appended, s.bodies, s.claims, s.accepted)
    ensures PhaseOk(Publisher.Sending(ph.claimed, ph.taken + 1), s.appended, s.bodies, s.claims,
                    s.accepted + {KeyOf(ph.claimed[ph.taken])})
  {
    forall r { TakenGrows(s.accepted, KeyOf(ph.claimed[ph.taken]), r); }
  }

  lemma TakeShape(s: State, p: nat)
    requires Enabled(s, Take(p))
    ensures var ph := s.publishers[p];
            && DoTake(s, p).accepted == s.accepted + {KeyOf(ph.claimed[ph.taken])}
            && DoTake(s, p).publishers == s.publishers[p := Publisher.Sending(ph.claimed, ph.taken + 1)]
  {
  }

  lemma TakeKeepsPhase(s: State, p: nat, q: nat)
    requires PublishersOk(s.publishers, s.appended, s.bodies, s.claims, s.accepted) && UntakenDistinct(s.publishers)
    requires Enabled(s, Take(p)) && q in s.publishers
    ensures var ph := s.publishers[p];
            PhaseOk(if q == p then Publisher.Sending(ph.claimed, ph.taken + 1) else s.publishers[q],
                    s.appended, s.bodies, s.claims, s.accepted + {KeyOf(ph.claimed[ph.taken])})
  {
    var ph := s.publishers[p];
    if q == p {
      PhaseOkAfterOwnTake(ph, s);
    } else {
      assert Disjoint(s.publishers[q], ph);
      PhaseOkAfterOtherTake(s.publishers[q], s, KeyOf(ph.claimed[ph.taken]));
    }
  }

  lemma TakeKeepsPublishers(s: State, p: nat)
    requires OutboxSide(s) && Enabled(s, Take(p))
    ensures var s' := DoTake(s, p);
            PublishersOk(s'.publishers, s.appended, s.bodies, s.claims, s'.accepted) && UntakenDistinct(s'.publishers)
  {
    TakeShape(s, p);
    TakeKeepsDistinct(s.publishers, p);
    forall q <- s.publishers
      ensures PhaseOk(DoTake(s, p).publishers[q], s.appended, s.bodies, s.claims, DoTake(s, p).accepted)
    {
      TakeKeepsPhase(s, p, q);
    }
  }

  /** A batch of which one more message is taken has no more untaken ones than before. */
  lemma TakeKeepsDistinct(publishers: map<nat, Publisher.Phase>, p: nat)
    requires UntakenDistinct(publishers) && p in publishers && publishers[p].Sending?
    ensures UntakenDistinct(publishers[p := Publisher.Sending(publishers[p].claimed, publishers[p].taken + 1)])
  {
    var after := publishers[p := Publisher.Sending(publishers[p].claimed, publishers[p].taken + 1)];
    forall q <- after, o <- after | q != o ensures Disjoint(after[q], after[o]) {
      assert Disjoint(publishers[q], publishers[o]);
    }
  }

  lemma TakeKeepsOutbox(s: State, p: nat)
    requires OutboxSide(s) && Enabled(s, Take(p))
    ensures OutboxSide(DoTake(s, p))
  {
    TakeKeepsPublishers(s, p);
    assert PhaseOk(s.publishers[p], s.appended, s.bodies, s.claims, s.accepted);
    var rec := s.publishers[p].claimed[s.publishers[p].taken];
    assert RecordOk(rec, s.appended, s.bodies, s.claims);
    forall r { TakenGrows(s.accepted, KeyOf(rec), r); }
  }

  lemma TakeKeeps(s: State, p: nat)
    requires Inv(s) && Enabled(s, Take(p))
    ensures Inv(Apply(s, Take(p)))
  {
    TakeKeepsOutbox(s, p);
    var ph := s.publishers[p];
    assert PhaseOk(ph, s.appended, s.bodies, s.claims, s.accepted);
    TakeKeepsOthers(s, p, ph.claimed[ph.taken]);
  }

  lemma TakeKeepsOthers(s: State, p: nat, rec: Outbox.OutboxRecord)
    requires BrokerSide(s) && WorkerSide(s) && Enabled(s, Take(p)) && rec == s.publishers[p].claimed[s.publishers[p].taken]
    requires RecordOk(rec, s.appended, s.bodies, s.claims) && KeyOf(rec) !in s.accepted
    ensures BrokerSide(DoTake(s, p)) && WorkerSide(DoTake(s, p))
  {
    var s' := DoTake(s, p);
    assert KeyOf(rec) !in s.copies;
    forall w <- s.workers ensures WorkerOk(w, s.workers[w], s'.copies) {
      assert WorkerOk(w, s.workers[w], s.copies);
    }
  }

  /** A publisher that stops sending. */
  lemma PhaseChangeKeeps(s: State, p: nat, ph: Publisher.Phase)
    requires PublishersOk(s.publishers, s.appended, s.bodies, s.claims, s.accepted) && UntakenDistinct(s.publishers)
    requires !ph.Sending? && PhaseOk(ph, s.appended, s.bodies, s.claims, s.accepted)
    ensures var publishers := s.publishers[p := ph];
            PublishersOk(publishers, s.appended, s.bodies, s.claims, s.accepted) && UntakenDistinct(publishers)
  {
    var publishers := s.publishers[p := ph];
    forall q <- publishers ensures PhaseOk(publishers[q], s.appended, s.bodies, s.claims, s.accepted) {
      assert q != p ==> PhaseOk(s.publishers[q], s.appended, s.bodies, s.claims, s.accepted);
    }
    forall q, o | q in publishers && o in publishers && q != o ensures Disjoint(publishers[q], publishers[o]) {
      assert q != p && o != p ==> Disjoint(s.publishers[q], s.publishers[o]);
    }
  }

  /** Marking: the rows marked are rows of which the broker took a copy. */
  lemma MarkKeepsRows(s: State, p: nat)
    requires OutboxSide(s) && p in s.publishers && s.publishers[p].Marking?
    ensures var marked := Outbox.Mark(s.outbox, Outbox.IdSet(Publisher.RowIds(s.publishers[p].claimed)), s.clock);
            RowsOk(marked, s.appended, s.bodies, s.claims) && PublishedOk(marked, s.appended, s.accepted)
  {
    var claimed := s.publishers[p].claimed;
    assert PhaseOk(s.publishers[p], s.appended, s.bodies, s.claims, s.accepted);
    forall r | r in Outbox.IdSet(Publisher.RowIds(claimed)) ensures Taken(s.accepted, r) {
      var i :| 0 <= i < |claimed| && Publisher.RowIds(claimed)[i] == r;
      assert Taken(s.accepted, claimed[i].id);
    }
  }

  lemma MarkKeeps(s: State, p: nat, replied: bool)
    requires Inv(s) && Enabled(s, Mark(p, replied))
    ensures Inv(Apply(s, Mark(p, replied)))
  {
    MarkKeepsRows(s, p);
    PhaseChangeKeeps(s, p, if replied then Publisher.Ready else Publisher.Offline);
  }

  lemma ConfirmKeeps(s: State, p: nat)
    requires Inv(s) && Enabled(s, Confirm(p))
    ensures Inv(Apply(s, Confirm(p)))
  {
    assert PhaseOk(s.publishers[p], s.appended, s.bodies, s.claims, s.accepted);
    PhaseChangeKeeps(s, p, Publisher.Marking(s.publishers[p].claimed));
  }

  lemma PublisherPhaseKeeps(s: State, step: Step)
    requires Inv(s) && Enabled(s, step)
    requires step.Tick? || step.Connect? || step.PublisherFails? || step.PurgeOutbox?
    ensures Inv(Apply(s, step))
  {
    if step.Connect? {
      PhaseChangeKeeps(s, step.p, Publisher.Ready);
    } else if step.PublisherFails? {
      PhaseChangeKeeps(s, step.p, Publisher.Offline);
    }
  }

  // ---------------------------------------------------------------- moving copies between places

  /** Same copies with the same contents, possibly moved and possibly flagged as redelivered. */
  ghost predicate OnlyMoved(before: map<CopyKey, Copy>, after: map<CopyKey, Copy>) {
    && after.Keys == before.Keys
    && (forall k <- before ::
          && after[k].event == before[k].event && after[k].body == before[k].body
          && (before[k].redelivered ==> after[k].redelivered))
  }

  lemma MovingKeepsBroker(s: State, s': State)
    requires BrokerSide(s) && OnlyMoved(s.copies, s'.copies)
    requires s'.accepted == s.accepted && s'.appended == s.appended && s'.bodies == s.bodies
    requires s'.observed == s.observed && s'.requeued == s.requeued
    requires forall e <- s.insertions :: e in s'.insertions
    ensures BrokerSide(s')
  {
    forall k <- s.copies
      ensures s'.copies[k].event == s.copies[k].event && s'.copies[k].body == s.copies[k].body
    {
      assert k in s'.copies;
    }
  }

  /** A worker is not concerned by changes to copies it does not hold. */
  lemma OtherWorkerOk(w: nat, worker: Worker.State, copies: map<CopyKey, Copy>, copies': map<CopyKey, Copy>)
    requires WorkerOk(w, worker, copies)
    requires forall k <- copies :: HeldBy(copies[k], w) ==> k in copies' && copies'[k] == copies[k]
    ensures WorkerOk(w, worker, copies')
  {
    forall p <- worker.batch ensures ItemOk(p, copies', InBatch(w)) {
      assert ItemOk(p, copies, InBatch(w));
    }
    forall f | 0 <= f < |worker.flights| && worker.flights[f].Open()
      ensures forall p <- worker.flights[f].items :: ItemOk(p, copies', InFlight(w, f))
    {
      forall p <- worker.flights[f].items ensures ItemOk(p, copies', InFlight(w, f)) {
        assert ItemOk(p, copies, InFlight(w, f));
      }
    }
  }

  lemma FlushKeepsWorkerSide(workers: map<nat, Worker.State>, copies: map<CopyKey, Copy>, w: nat)
    requires WorkersOk(workers, copies) && HoldersOk(copies, workers)
    requires w in workers && workers[w].batch != []
    ensures var copies' := Spliced(copies, w, |workers[w].flights|);
            var workers' := workers[w := Worker.Flush(workers[w])];
            WorkersOk(workers', copies') && HoldersOk(copies', workers') && OnlyMoved(copies, copies')
  {
    var worker := workers[w];
    var n := |worker.flights|;
    var copies' := Spliced(copies, w, n);
    var worker' := Worker.Flush(worker);
    assert worker'.flights[n].items == worker.batch;
    forall v <- workers | v != w ensures WorkerOk(v, workers[v], copies') {
      OtherWorkerOk(v, workers[v], copies, copies');
    }
    FlushedWorkerOk(w, worker, copies);
    forall k <- copies' ensures HeldOk(copies'[k], k, workers[w := worker']) {
      assert HeldOk(copies[k], k, workers);
    }
  }

  lemma FlushedWorkerOk(w: nat, worker: Worker.State, copies: map<CopyKey, Copy>)
    requires WorkerOk(w, worker, copies) && worker.batch != []
    ensures WorkerOk(w, Worker.Flush(worker), Spliced(copies, w, |worker.flights|))
  {
    var n := |worker.flights|;
    var copies' := Spliced(copies, w, n);
    var worker' := Worker.Flush(worker);
    forall f | 0 <= f < |worker'.flights| && worker'.flights[f].Open()
      ensures forall p <- worker'.flights[f].items :: ItemOk(p, copies', InFlight(w, f))
    {
      forall p <- worker'.flights[f].items ensures ItemOk(p, copies', InFlight(w, f)) {
        if f == n {
          assert ItemOk(p, copies, InBatch(w));
        } else {
          assert worker'.flights[f] == worker.flights[f];
          assert ItemOk(p, copies, InFlight(w, f));
        }
      }
    }
    assert Worker.RepliesFit(worker') by {
      forall f | 0 <= f < |worker'.flights| && worker'.flights[f].reply.Done?
        ensures worker'.flights[f].reply.inserted <= |worker'.flights[f].items|
      {
        assert worker'.flights[f] == worker.flights[f];
      }
    }
  }

  lemma FlushKeepsDone(workers: map<nat, Worker.State>, insertions: seq<EventId>, w: nat)
    requires DoneInserted(workers, insertions) && w in workers
    ensures DoneInserted(workers[w := Worker.Flush(workers[w])], insertions)
  {
    var workers' := workers[w := Worker.Flush(workers[w])];
    forall v <- workers', f | 0 <= f < |workers'[v].flights| && workers'[v].flights[f].reply.Done?
      ensures forall p <- workers'[v].flights[f].items :: p.eventId in insertions
    {
      assert workers'[v].flights[f] == workers[v].flights[f];
    }
  }

  // ---------------------------------------------------------------- deliveries and flushes

  lemma FlushKeeps(s: State, w: nat)
    requires Inv(s) && Enabled(s, Flush(w))
    ensures Inv(Apply(s, Flush(w)))
  {
    FlushKeepsDone(s.workers, s.insertions, w);
    if s.workers[w].batch == [] {
      IdleFlushKeepsWorkerSide(s.workers, s.copies, w);
    } else {
      FlushKeepsWorkerSide(s.workers, s.copies, w);
      MovingKeepsBroker(s, DoFlush(s, w));
    }
  }

  /** A timer that fires on an empty batch. */
  lemma IdleFlushKeepsWorkerSide(workers: map<nat, Worker.State>, copies: map<CopyKey, Copy>, w: nat)
    requires WorkersOk(workers, copies) && HoldersOk(copies, workers)
    requires w in workers && workers[w].batch == []
    ensures var workers' := workers[w := Worker.Flush(workers[w])];
            WorkersOk(workers', copies) && HoldersOk(copies, workers')
  {
    var workers' := workers[w := Worker.Flush(workers[w])];
    forall v <- workers ensures WorkerOk(v, workers'[v], copies) {
      assert WorkerOk(v, workers[v], copies);
    }
    forall k <- copies ensures HeldOk(copies[k], k, workers') {
      assert HeldOk(copies[k], k, workers);
    }
  }

  /** The worker and the broker after a valid message joined the batch, before any flush. */
  lemma PushKeepsWorkerSide(s: State, w: nat, k: CopyKey, click: ClickEvent)
    requires WorkerSide(s) && w in s.workers && k in s.copies && s.copies[k].place == Queued
    requires s.copies[k].body == Click(click)
    ensures var d := DeliveryOf(s, w, k);
            var worker := s.workers[w];
            var pushed := worker.(delivered := worker.delivered + 1,
                                  batch := worker.batch + [Worker.Pending(d, click, s.copies[k].event)]);
            var workers' := s.workers[w := pushed];
            var copies' := s.copies[k := s.copies[k].(place := InBatch(w))];
            WorkersOk(workers', copies') && HoldersOk(copies', workers') && DoneInserted(workers', s.insertions)
            && OnlyMoved(s.copies, copies')
  {
    var d := DeliveryOf(s, w, k);
    var worker := s.workers[w];
    var item := Worker.Pending(d, click, s.copies[k].event);
    var pushed := worker.(delivered := worker.delivered + 1, batch := worker.batch + [item]);
    var workers' := s.workers[w := pushed];
    var copies' := s.copies[k := s.copies[k].(place := InBatch(w))];
    forall v <- s.workers ensures WorkerOk(v, s.workers[v], copies') {
      OtherWorkerOk(v, s.workers[v], s.copies, copies');
    }
    assert ItemOk(item, copies', InBatch(w));
    assert WorkerOk(w, pushed, copies');
    forall c <- copies' ensures HeldOk(copies'[c], c, workers') {
      assert HeldOk(s.copies[c], c, s.workers);
      if c == k {
        assert item in pushed.batch;
      } else {
        assert forall p :: p in worker.batch ==> p in pushed.batch;
      }
    }
  }

  lemma TimerKeepsWorkerSide(workers: map<nat, Worker.State>, copies: map<CopyKey, Copy>, insertions: seq<EventId>, w: nat)
    requires WorkersOk(workers, copies) && HoldersOk(copies, workers) && DoneInserted(workers, insertions) && w in workers
    ensures var workers' := workers[w := workers[w].(timer := true)];
            WorkersOk(workers', copies) && HoldersOk(copies, workers') && DoneInserted(workers', insertions)
  {
    var workers' := workers[w := workers[w].(timer := true)];
    forall v <- workers' ensures WorkerOk(v, workers'[v], copies) {
      assert WorkerOk(v, workers[v], copies);
    }
    forall k <- copies ensures HeldOk(copies[k], k, workers') {
      assert HeldOk(copies[k], k, workers);
    }
  }

  function Pushed(s: State, w: nat, k: CopyKey): Worker.State
    requires w in s.workers && k in s.copies && s.copies[k].body.Click?
  {
    var worker := s.workers[w];
    worker.(delivered := worker.delivered + 1,
            batch := worker.batch + [Worker.Pending(DeliveryOf(s, w, k), s.copies[k].body.click, s.copies[k].event)])
  }

  /** A push, followed by a flush when the batch is full. */
  ghost predicate PushThenFlush(before: State, after: State, w: nat, k: CopyKey, pushed: Worker.State)
    requires k in before.copies
  {
    var copies1 := before.copies[k := before.copies[k].(place := InBatch(w))];
    var workers1 := before.workers[w := pushed];
    if |pushed.batch| >= Worker.BATCH_SIZE then
      && after.workers == workers1[w := Worker.Flush(pushed)]
      && after.copies == Spliced(copies1, w, |pushed.flights|)
    else
      && after.workers == workers1[w := pushed.(timer := true)]
      && after.copies == copies1
  }

  lemma DeliverIsPushThenFlush(s: State, w: nat, k: CopyKey, randomId: EventId)
    requires Enabled(s, Deliver(w, k, randomId)) && s.copies[k].body.Click?
    ensures PushThenFlush(s, DoDeliver(s, w, k, randomId), w, k, Pushed(s, w, k))
  {
  }

  /** The second half of a valid delivery, from the worker and broker with the message just pushed. */
  lemma PushedThenFlushed(workers1: map<nat, Worker.State>, copies1: map<CopyKey, Copy>, insertions: seq<EventId>, w: nat)
    requires WorkersOk(workers1, copies1) && HoldersOk(copies1, workers1) && DoneInserted(workers1, insertions)
    requires w in workers1 && |workers1[w].batch| >= Worker.BATCH_SIZE
    ensures var workers' := workers1[w := Worker.Flush(workers1[w])];
            var copies' := Spliced(copies1, w, |workers1[w].flights|);
            WorkersOk(workers', copies') && HoldersOk(copies', workers') && DoneInserted(workers', insertions)
            && OnlyMoved(copies1, copies')
  {
    FlushKeepsWorkerSide(workers1, copies1, w);
    FlushKeepsDone(workers1, insertions, w);
  }

  lemma DeliverClickWorkerSide(s: State, s': State, w: nat, k: CopyKey)
    requires WorkerSide(s) && w in s.workers && k in s.copies && s.copies[k].place == Queued && s.copies[k].body.Click?
    requires PushThenFlush(s, s', w, k, Pushed(s, w, k)) && s'.insertions == s.insertions
    ensures WorkerSide(s') && OnlyMoved(s.copies, s'.copies)
  {
    PushKeepsWorkerSide(s, w, k, s.copies[k].body.click);
    var pushed := Pushed(s, w, k);
    var copies1 := s.copies[k := s.copies[k].(place := InBatch(w))];
    var workers1 := s.workers[w := pushed];
    if |pushed.batch| >= Worker.BATCH_SIZE {
      PushedThenFlushed(workers1, copies1, s.insertions, w);
      MovedTwice(s.copies, copies1, s'.copies);
    } else {
      TimerKeepsWorkerSide(workers1, copies1, s.insertions, w);
    }
  }

  lemma MovedTwice(a: map<CopyKey, Copy>, b: map<CopyKey, Copy>, c: map<CopyKey, Copy>)
    requires OnlyMoved(a, b) && OnlyMoved(b, c)
    ensures OnlyMoved(a, c)
  {
    assert forall k :: k in a ==> k in b;
  }

  lemma DeliverMalformedWorkerSide(s: State, w: nat, k: CopyKey, randomId: EventId)
    requires WorkerSide(s) && Enabled(s, Deliver(w, k, randomId)) && s.copies[k].body.Malformed?
    ensures var s' := DoDeliver(s, w, k, randomId);
            WorkerSide(s') && OnlyMoved(s.copies, s'.copies)
  {
    var s' := DoDeliver(s, w, k, randomId);
    assert s'.copies == s.copies[k := s.copies[k].(place := Dead)];
    assert s'.workers[w].batch == s.workers[w].batch && s'.workers[w].flights == s.workers[w].flights;
    forall v <- s.workers ensures WorkerOk(v, s'.workers[v], s'.copies) {
      OtherWorkerOk(v, s.workers[v], s.copies, s'.copies);
    }
    forall c <- s'.copies ensures HeldOk(s'.copies[c], c, s'.workers) {
      assert HeldOk(s.copies[c], c, s.workers);
    }
  }

  lemma DeliverKeeps(s: State, w: nat, k: CopyKey, randomId: EventId)
    requires Inv(s) && Enabled(s, Deliver(w, k, randomId))
    ensures Inv(Apply(s, Deliver(w, k, randomId)))
  {
    if s.copies[k].body.Click? {
      DeliverIsPushThenFlush(s, w, k, randomId);
      DeliverClickWorkerSide(s, DoDeliver(s, w, k, randomId), w, k);
    } else {
      DeliverMalformedWorkerSide(s, w, k, randomId);
    }
    MovingKeepsBroker(s, DoDeliver(s, w, k, randomId));
  }

  // ---------------------------------------------------------------- inserts

  /** A committed insert of known items: the table stays well-formed and every item is in the history. */
  lemma InsertedKeepsStore(s: State, rows: seq<ClickRow>)
    requires StoreSide(s)
    requires forall r <- rows :: r.eventId in s.bodies && s.bodies[r.eventId] == Click(r.click)
    ensures StoreSide(Committed(s, rows))
    ensures forall r <- rows :: r.eventId in Committed(s, rows).insertions
    ensures s.insertions <= Committed(s, rows).insertions
  {
    var s' := Committed(s, rows);
    InsertAllRefinesMap(s.clicks, rows);
    var added := NewIds(s.clicks, s'.clicks);
    forall i | 0 <= i < |s'.clicks| ensures RowKnown(s'.clicks[i], s'.insertions, s.bodies) {
      if i < |s.clicks| {
        assert s'.clicks[i] == s.clicks[i] && s.clicks[i] in s.clicks;
      } else {
        assert added[i - |s.clicks|] == s'.clicks[i].eventId;
      }
    }
    forall r <- rows ensures r.eventId in s'.insertions {
      assert r.eventId in Ids(s'.clicks);
    }
    forall e <- s'.insertions ensures e in s.bodies {
      if e !in s.insertions {
        var i :| 0 <= i < |added| && added[i] == e;
        assert RowKnown(s'.clicks[|s.clicks| + i], s'.insertions, s.bodies);
      }
    }
  }

  lemma RowsOfKnown(items: seq<Worker.Pending>, bodies: map<EventId, Body>)
    requires ItemsKnown(items, bodies)
    ensures forall r <- RowsOf(items) :: r.eventId in bodies && bodies[r.eventId] == Click(r.click)
    ensures forall p <- items :: ClickRow(p.eventId, p.parsed) in RowsOf(items)
  {
    forall p <- items ensures ClickRow(p.eventId, p.parsed) in RowsOf(items) {
      var i :| 0 <= i < |items| && items[i] == p;
      assert RowsOf(items)[i] == ClickRow(p.eventId, p.parsed);
    }
  }

  lemma OpenItemsKnown(s: State, w: nat, f: nat)
    requires WorkersOk(s.workers, s.copies) && CopiesOk(s.copies, s.accepted, s.appended, s.bodies)
    requires HasFlight(s, w, f) && s.workers[w].flights[f].Open()
    ensures ItemsKnown(s.workers[w].flights[f].items, s.bodies)
  {
    assert WorkerOk(w, s.workers[w], s.copies);
    forall p <- s.workers[w].flights[f].items ensures p.eventId in s.bodies && s.bodies[p.eventId] == Click(p.parsed) {
      assert ItemOk(p, s.copies, InFlight(w, f));
    }
  }

  /** The database answers a flight: its items stay where they are. */
  lemma AnswerKeepsWorkerSide(s: State, w: nat, f: nat, reply: Worker.Reply)
    requires WorkersOk(s.workers, s.copies) && HoldersOk(s.copies, s.workers) && HasFlight(s, w, f)
    requires s.workers[w].flights[f].reply.Waiting? && !reply.Finished?
    requires reply.Done? ==> reply.inserted <= |s.workers[w].flights[f].items|
    ensures var workers' := s.workers[w := Worker.Answer(s.workers[w], f, reply)];
            WorkersOk(workers', s.copies) && HoldersOk(s.copies, workers')
  {
    var worker := s.workers[w];
    var worker' := Worker.Answer(worker, f, reply);
    assert WorkerOk(w, worker, s.copies);
    forall g | 0 <= g < |worker'.flights| && worker'.flights[g].Open()
      ensures forall p <- worker'.flights[g].items :: ItemOk(p, s.copies, InFlight(w, g))
    {
      assert worker'.flights[g].items == worker.flights[g].items && worker.flights[g].Open();
    }
    assert WorkerOk(w, worker', s.copies);
    forall k <- s.copies ensures HeldOk(s.copies[k], k, s.workers[w := worker']) {
      assert HeldOk(s.copies[k], k, s.workers);
    }
  }

  lemma AnswerKeepsDone(workers: map<nat, Worker.State>, w: nat, f: nat, reply: Worker.Reply, insertions: seq<EventId>)
    requires DoneInserted(workers, insertions) && w in workers && f < |workers[w].flights|
    requires reply.Done? ==> forall p <- workers[w].flights[f].items :: p.eventId in insertions
    ensures DoneInserted(workers[w := Worker.Answer(workers[w], f, reply)], insertions)
  {
    var workers' := workers[w := Worker.Answer(workers[w], f, reply)];
    forall v <- workers', g | 0 <= g < |workers'[v].flights| && workers'[v].flights[g].reply.Done?
      ensures forall p <- workers'[v].flights[g].items :: p.eventId in insertions
    {
      if v == w && g == f {
        assert workers'[v].flights[g].items == workers[w].flights[f].items;
      } else {
        assert workers'[v].flights[g] == workers[v].flights[g];
      }
    }
  }

  lemma DoneInsertedGrows(workers: map<nat, Worker.State>, insertions: seq<EventId>, insertions': seq<EventId>)
    requires DoneInserted(workers, insertions) && insertions <= insertions'
    ensures DoneInserted(workers, insertions')
  {
  }

  lemma InsertKeeps(s: State, w: nat, f: nat, replied: bool)
    requires Inv(s) && Enabled(s, Insert(w, f, replied))
    ensures Inv(Apply(s, Insert(w, f, replied)))
  {
    var items := s.workers[w].flights[f].items;
    OpenItemsKnown(s, w, f);
    RowsOfKnown(items, s.bodies);
    InsertedKeepsStore(s, RowsOf(items));
    InsertAllRefinesMap(s.clicks, RowsOf(items));
    var s1 := Committed(s, RowsOf(items));
    var s' := DoInsert(s, w, f, replied);
    var reply := s'.workers[w].flights[f].reply;
    AnswerKeepsWorkerSide(s, w, f, reply);
    DoneInsertedGrows(s.workers, s.insertions, s1.insertions);
    AnswerKeepsDone(s.workers, w, f, reply, s1.insertions);
    MovingKeepsBroker(s, s');
  }

  lemma InsertFailsKeeps(s: State, w: nat, f: nat)
    requires Inv(s) && Enabled(s, InsertFails(w, f))
    ensures Inv(Apply(s, InsertFails(w, f)))
  {
    AnswerKeepsWorkerSide(s, w, f, Worker.Threw);
    AnswerKeepsDone(s.workers, w, f, Worker.Threw, s.insertions);
  }

  lemma LateInsertKeeps(s: State, i: nat)
    requires Inv(s) && Enabled(s, LateInsert(i))
    ensures Inv(Apply(s, LateInsert(i)))
  {
    var s' := DoLateInsert(s, i);
    assert ItemsKnown(s.detached[i], s.bodies);
    RowsOfKnown(s.detached[i], s.bodies);
    InsertedKeepsStore(s, RowsOf(s.detached[i]));
    DoneInsertedGrows(s.workers, s.insertions, s'.insertions);
    forall j | 0 <= j < |s'.detached| ensures ItemsKnown(s'.detached[j], s.bodies) {
      assert s'.detached[j] == if j < i then s.detached[j] else s.detached[j + 1];
    }
    MovingKeepsBroker(s, s');
  }

  lemma LateInsertFailsKeeps(s: State, i: nat)
    requires Inv(s) && Enabled(s, LateInsertFails(i))
    ensures Inv(Apply(s, LateInsertFails(i)))
  {
    var detached := s.detached[..i] + s.detached[i + 1..];
    forall j | 0 <= j < |detached| ensures ItemsKnown(detached[j], s.bodies) {
      assert detached[j] == if j < i then s.detached[j] else s.detached[j + 1];
      assert ItemsKnown(s.detached[if j < i then j else j + 1], s.bodies);
    }
  }

  lemma PurgeClicksKeeps(s: State, cutoff: Time)
    requires Inv(s) && Enabled(s, PurgeClicks(cutoff))
    ensures Inv(Apply(s, PurgeClicks(cutoff)))
  {
    PurgeKeepsYoungRows(s.clicks, cutoff);
  }

  // ---------------------------------------------------------------- settlements

  lemma {:induction false} AcksSettled(copies: map<CopyKey, Copy>, items: seq<Worker.Pending>)
    ensures SettledAll(copies, Worker.Acks(items)) == map k | k in copies && k !in CopiesOf(items) :: copies[k]
  {
    if items != [] {
      var init, last := items[..|items| - 1], items[|items| - 1];
      AcksSettled(copies, init);
      assert items == init + [last];
      assert CopiesOf(items) == CopiesOf(init) + {last.msg.copy};
      var calls := Worker.Acks(items);
      assert calls[..|calls| - 1] == Worker.Acks(init) && calls[|calls| - 1] == Worker.Ack(last.msg);
    }
  }

  function Punished(c: Copy): Copy {
    if c.redelivered then c.(place := Dead) else c.(place := Queued, redelivered := true)
  }

  /** Each message in a failed flush goes back to the queue once, or to the dead-letter queue. */
  lemma {:induction false} VerdictsSettled(copies: map<CopyKey, Copy>, items: seq<Worker.Pending>)
    requires forall p <- items :: p.msg.copy in copies && copies[p.msg.copy].redelivered == p.msg.redelivered
    ensures SettledAll(copies, Worker.Verdicts(items))
         == map k | k in copies :: if k in CopiesOf(items) then Punished(copies[k]) else copies[k]
  {
    if items != [] {
      var init, last := items[..|items| - 1], items[|items| - 1];
      assert last in items;
      VerdictsSettled(copies, init);
      assert items == init + [last];
      assert CopiesOf(items) == CopiesOf(init) + {last.msg.copy};
      var calls := Worker.Verdicts(items);
      assert calls[..|calls| - 1] == Worker.Verdicts(init) && calls[|calls| - 1] == Worker.Verdict(last.msg);
    }
  }

  /** Closing flight f leaves every message elsewhere untouched. */
  lemma ResumeKeepsWorkerSide(s: State, w: nat, f: nat, copies': map<CopyKey, Copy>)
    requires WorkerSide(s) && Enabled(s, Resume(w, f))
    requires forall k <- s.copies :: s.copies[k].place != InFlight(w, f) ==> k in copies' && copies'[k] == s.copies[k]
    requires forall k <- copies' ::
      k in s.copies && (copies'[k] == s.copies[k] || copies'[k].place == Queued || copies'[k].place == Dead)
    requires forall k <- copies' :: copies'[k].place != InFlight(w, f)
    ensures var workers' := s.workers[w := Worker.Resume(s.workers[w], f)];
            WorkersOk(workers', copies') && HoldersOk(copies', workers') && DoneInserted(workers', s.insertions)
  {
    var worker := s.workers[w];
    var worker' := Worker.Resume(worker, f);
    var workers' := s.workers[w := worker'];
    assert WorkerOk(w, worker, s.copies);
    assert worker'.batch == worker.batch && |worker'.flights| == |worker.flights|;
    forall v <- s.workers | v != w ensures WorkerOk(v, workers'[v], copies') {
      OtherWorkerOk(v, s.workers[v], s.copies, copies');
    }
    forall p <- worker'.batch ensures ItemOk(p, copies', InBatch(w)) {
      assert ItemOk(p, s.copies, InBatch(w));
    }
    forall g | 0 <= g < |worker'.flights| && worker'.flights[g].Open()
      ensures forall p <- worker'.flights[g].items :: ItemOk(p, copies', InFlight(w, g))
    {
      assert g != f && worker'.flights[g] == worker.flights[g];
      forall p <- worker'.flights[g].items ensures ItemOk(p, copies', InFlight(w, g)) {
        assert ItemOk(p, s.copies, InFlight(w, g));
      }
    }
    assert WorkerOk(w, worker', copies');
    forall k <- copies' ensures HeldOk(copies'[k], k, workers') {
      assert HeldOk(s.copies[k], k, s.workers);
    }
    forall v <- workers', g | 0 <= g < |workers'[v].flights| && workers'[v].flights[g].reply.Done?
      ensures forall p <- workers'[v].flights[g].items :: p.eventId in s.insertions
    {
      assert workers'[v].flights[g] == s.workers[v].flights[g];
    }
  }

  lemma FlightCopies(s: State, w: nat, f: nat)
    requires WorkerSide(s) && HasFlight(s, w, f) && s.workers[w].flights[f].Open()
    ensures forall k :: k in CopiesOf(s.workers[w].flights[f].items) <==> k in s.copies && s.copies[k].place == InFlight(w, f)
    ensures forall p <- s.workers[w].flights[f].items :: ItemOk(p, s.copies, InFlight(w, f))
  {
    assert WorkerOk(w, s.workers[w], s.copies);
    forall k <- s.copies | s.copies[k].place == InFlight(w, f) ensures k in CopiesOf(s.workers[w].flights[f].items) {
      assert HeldOk(s.copies[k], k, s.workers);
    }
  }

  lemma ResumeDoneKeeps(s: State, w: nat, f: nat)
    requires Inv(s) && Enabled(s, Resume(w, f)) && s.workers[w].flights[f].reply.Done?
    ensures Inv(DoResume(s, w, f))
  {
    var items := s.workers[w].flights[f].items;
    var s' := DoResume(s, w, f);
    AcksSettled(s.copies, items);
    FlightCopies(s, w, f);
    ResumeKeepsWorkerSide(s, w, f, s'.copies);
    forall k <- s.accepted
      ensures k in s'.copies || (k.row in s.appended && (s.appended[k.row] in s.observed || s.appended[k.row] in s.insertions))
    {
      if k in CopiesOf(items) {
        var p :| p in items && p.msg.copy == k;
        assert ItemOk(p, s.copies, InFlight(w, f));
        assert p.eventId in s.insertions;
      }
    }
  }

  /** What a failed flush does to the broker's copies. */
  lemma ResumeThrewCopies(s: State, w: nat, f: nat)
    requires WorkerSide(s) && Enabled(s, Resume(w, f)) && s.workers[w].flights[f].reply.Threw?
    ensures var s' := DoResume(s, w, f);
            && s'.copies.Keys == s.copies.Keys
            && (forall k <- s.copies ::
                  s'.copies[k] == if s.copies[k].place == InFlight(w, f) then Punished(s.copies[k]) else s.copies[k])
            && (forall k :: k in RequeuedBy(s, Resume(w, f)) <==>
                  k in s.copies && s.copies[k].place == InFlight(w, f) && !s.copies[k].redelivered)
  {
    var items := s.workers[w].flights[f].items;
    FlightCopies(s, w, f);
    forall p <- items ensures s.copies[p.msg.copy].redelivered == p.msg.redelivered {
      assert ItemOk(p, s.copies, InFlight(w, f));
    }
    VerdictsSettled(s.copies, items);
    forall k | k in s.copies && s.copies[k].place == InFlight(w, f) && !s.copies[k].redelivered
      ensures k in RequeuedBy(s, Resume(w, f))
    {
      var p :| p in items && p.msg.copy == k;
      assert ItemOk(p, s.copies, InFlight(w, f));
    }
  }

  lemma ResumeThrewBroker(s: State, s': State, requeued: set<CopyKey>)
    requires BrokerSide(s) && OnlyMoved(s.copies, s'.copies)
    requires s' == s.(workers := s'.workers, copies := s'.copies, requeued := s.requeued + requeued)
    requires forall k <- requeued :: k in s'.copies && s'.copies[k].redelivered
    ensures BrokerSide(s')
  {
    MovingKeepsBroker(s, s'.(requeued := s.requeued));
  }

  lemma ResumeThrewSides(s: State, w: nat, f: nat)
    requires BrokerSide(s) && WorkerSide(s) && Enabled(s, Resume(w, f)) && s.workers[w].flights[f].reply.Threw?
    ensures BrokerSide(DoResume(s, w, f)) && WorkerSide(DoResume(s, w, f))
  {
    var s' := DoResume(s, w, f);
    ResumeThrewCopies(s, w, f);
    ResumeKeepsWorkerSide(s, w, f, s'.copies);
    ResumeThrewBroker(s, s', RequeuedBy(s, Resume(w, f)));
  }

  lemma ResumeThrewKeeps(s: State, w: nat, f: nat)
    requires Inv(s) && Enabled(s, Resume(w, f)) && s.workers[w].flights[f].reply.Threw?
    ensures Inv(DoResume(s, w, f))
  {
    ResumeThrewSides(s, w, f);
  }

  // ---------------------------------------------------------------- crashes and the inspector

  lemma {:induction false} StrandedAreOpen(flights: seq<Worker.Flight>)
    ensures forall x <- Stranded(flights) :: exists f :: 0 <= f < |flights| && flights[f].reply.Waiting? && flights[f].items == x
  {
    if flights != [] {
      var init := flights[..|flights| - 1];
      StrandedAreOpen(init);
      forall x <- Stranded(flights)
        ensures exists f :: 0 <= f < |flights| && flights[f].reply.Waiting? && flights[f].items == x
      {
        if x in Stranded(init) {
          var f :| 0 <= f < |init| && init[f].reply.Waiting? && init[f].items == x;
          assert flights[f].items == x;
        } else {
          assert flights[|flights| - 1].items == x;
        }
      }
    }
  }

  lemma CrashKeepsWorkerSide(s: State, w: nat)
    requires WorkerSide(s) && w in s.workers
    ensures WorkerSide(DoCrash(s, w)) && OnlyMoved(s.copies, DoCrash(s, w).copies)
  {
    var s' := DoCrash(s, w);
    forall v <- s.workers | v != w ensures WorkerOk(v, s'.workers[v], s'.copies) {
      OtherWorkerOk(v, s.workers[v], s.copies, s'.copies);
    }
    forall k <- s'.copies ensures HeldOk(s'.copies[k], k, s'.workers) {
      assert HeldOk(s.copies[k], k, s.workers);
    }
  }

  lemma CrashKeeps(s: State, w: nat)
    requires Inv(s) && Enabled(s, WorkerCrashes(w))
    ensures Inv(Apply(s, WorkerCrashes(w)))
  {
    var s' := DoCrash(s, w);
    CrashKeepsWorkerSide(s, w);
    MovingKeepsBroker(s, s');
    StrandedAreOpen(s.workers[w].flights);
    forall i | 0 <= i < |s'.detached| ensures ItemsKnown(s'.detached[i], s.bodies) {
      if i < |s.detached| {
        assert s'.detached[i] == s.detached[i];
      } else {
        assert s'.detached[i] in Stranded(s.workers[w].flights);
        var f :| 0 <= f < |s.workers[w].flights| && s.workers[w].flights[f].reply.Waiting?
              && s.workers[w].flights[f].items == s'.detached[i];
        OpenItemsKnown(s, w, f);
      }
    }
  }

  lemma InspectorKeepsWorkerSide(s: State, copies': map<CopyKey, Copy>)
    requires WorkerSide(s)
    requires forall k <- s.copies ::
      s.copies[k].place.Dead? || s.copies[k].place.Inspecting? || (k in copies' && copies'[k] == s.copies[k])
    requires forall k <- copies' ::
      k in s.copies && (copies'[k] == s.copies[k] || copies'[k].place.Dead? || copies'[k].place.Inspecting?)
    ensures WorkersOk(s.workers, copies') && HoldersOk(copies', s.workers)
  {
    forall v <- s.workers ensures WorkerOk(v, s.workers[v], copies') {
      OtherWorkerOk(v, s.workers[v], s.copies, copies');
    }
    forall k <- copies' ensures HeldOk(copies'[k], k, s.workers) {
      assert HeldOk(s.copies[k], k, s.workers);
    }
  }

  /** Dead letters change hands. */
  lemma DeadLettersMove(s: State, copies': map<CopyKey, Copy>)
    requires BrokerSide(s) && WorkerSide(s) && OnlyMoved(s.copies, copies')
    requires forall k <- s.copies ::
      || copies'[k] == s.copies[k]
      || ((s.copies[k].place.Dead? || s.copies[k].place.Inspecting?) && (copies'[k].place.Dead? || copies'[k].place.Inspecting?))
    ensures BrokerSide(s.(copies := copies')) && WorkerSide(s.(copies := copies'))
  {
    InspectorKeepsWorkerSide(s, copies');
    MovingKeepsBroker(s, s.(copies := copies'));
  }

  lemma InspectKeeps(s: State, k: CopyKey)
    requires Inv(s) && Enabled(s, Inspect(k))
    ensures Inv(Apply(s, Inspect(k)))
  {
    DeadLettersMove(s, s.copies[k := s.copies[k].(place := Inspecting)]);
  }

  lemma InspectorCrashKeeps(s: State)
    requires Inv(s)
    ensures Inv(Apply(s, InspectorCrashes))
  {
    DeadLettersMove(s, Apply(s, InspectorCrashes).copies);
  }

  lemma ObserveKeeps(s: State, k: CopyKey)
    requires Inv(s) && Enabled(s, Observe(k, true))
    ensures Inv(Apply(s, Observe(k, true)))
  {
    var copies' := s.copies - {k};
    InspectorKeepsWorkerSide(s, copies');
    ObservedBroker(s, k);
    assert Apply(s, Observe(k, true)).copies == copies';
  }

  lemma ObservedBroker(s: State, k: CopyKey)
    requires BrokerSide(s) && k in s.copies
    ensures BrokerSide(s.(observed := s.observed + {s.copies[k].event}, copies := s.copies - {k}))
  {
  }

  /** Logged, but the ack was lost with the channel: the dead letter will be logged again. */
  lemma ObserveUnackedKeeps(s: State, k: CopyKey)
    requires Inv(s) && Enabled(s, Observe(k, false))
    ensures Inv(Apply(s, Observe(k, false)))
  {
    var copies' := s.copies[k := s.copies[k].(place := Dead, redelivered := true)];
    DeadLettersMove(s, copies');
    assert Accounted(s.accepted, copies', s.appended, s.observed + {s.copies[k].event}, s.insertions);
  }

  // ---------------------------------------------------------------- every step, every run

  predicate OutboxStep(step: Step) {
    || step.Append? || step.Tick? || step.Connect? || step.Claim? || step.Take? || step.Confirm? || step.Mark?
    || step.PublisherFails? || step.PurgeOutbox?
  }

  lemma OutboxStepKeeps(s: State, step: Step)
    requires Inv(s) && Enabled(s, step) && OutboxStep(step)
    ensures Inv(Apply(s, step))
  {
    match step
    case Append(e, body) => AppendKeeps(s, e, body);
    case Claim(p, locked, replied) => ClaimKeeps(s, p, locked, replied);
    case Take(p) => TakeKeeps(s, p);
    case Confirm(p) => ConfirmKeeps(s, p);
    case Mark(p, replied) => MarkKeeps(s, p, replied);
    case Tick(_) => PublisherPhaseKeeps(s, step);
    case Connect(_) => PublisherPhaseKeeps(s, step);
    case PublisherFails(_) => PublisherPhaseKeeps(s, step);
    case PurgeOutbox(_) => PublisherPhaseKeeps(s, step);
  }

  lemma StepKeeps(s: State, step: Step)
    requires Inv(s) && Enabled(s, step)
    ensures Inv(Apply(s, step))
  {
    if OutboxStep(step) {
      OutboxStepKeeps(s, step);
    } else if step.Deliver? || step.Flush? || step.Insert? || step.InsertFails? || step.Resume? || step.WorkerCrashes? {
      WorkerStepKeeps(s, step);
    } else if step.LateInsert? {
      LateInsertKeeps(s, step.i);
    } else if step.LateInsertFails? {
      LateInsertFailsKeeps(s, step.i);
    } else if step.PurgeClicks? {
      PurgeClicksKeeps(s, step.cutoff);
    } else if step.Inspect? {
      InspectKeeps(s, step.k);
    } else if step.Observe? && step.acked {
      ObserveKeeps(s, step.k);
    } else if step.Observe? {
      ObserveUnackedKeeps(s, step.k);
    } else {
      InspectorCrashKeeps(s);
    }
  }

  lemma WorkerStepKeeps(s: State, step: Step)
    requires Inv(s) && Enabled(s, step)
    requires step.Deliver? || step.Flush? || step.Insert? || step.InsertFails? || step.Resume? || step.WorkerCrashes?
    ensures Inv(Apply(s, step))
  {
    if step.Deliver? {
      DeliverKeeps(s, step.w, step.k, step.randomId);
    } else if step.Flush? {
      FlushKeeps(s, step.w);
    } else if step.Insert? {
      InsertKeeps(s, step.w, step.f, step.replied);
    } else if step.InsertFails? {
      InsertFailsKeeps(s, step.w, step.f);
    } else if step.WorkerCrashes? {
      CrashKeeps(s, step.w);
    } else if s.workers[step.w].flights[step.f].reply.Done? {
      ResumeDoneKeeps(s, step.w, step.f);
    } else {
      ResumeThrewKeeps(s, step.w, step.f);
    }
  }

  lemma {:induction false} RunKeeps(s: State, run: seq<Step>)
    requires Inv(s) && CanExec(s, run)
    ensures Inv(Exec(s, run))
    decreases |run|
  {
    if run != [] {
      StepKeeps(s, run[0]);
      RunKeeps(Apply(s, run[0]), run[1..]);
    }
  }
}
