/**
 * The outbox table and its repository (apps/api/src/outbox/outbox-repository.ts).
 *
 * The first half specifies the SQL on table values and proves what the claim protocol keeps over every
 * run; the second half is the repository, whose methods are proved against that specification.
 */
module Outbox {
  import opened Types

  datatype Row = Row(
    eventId: EventId,
    body: Body,
    attempts: nat,
    nextAttemptAt: Option<Time>,
    publishedAt: Option<Time>)

  datatype OutboxRecord = OutboxRecord(id: RowId, eventId: EventId, body: Body, attempts: nat)

  /** Rows by id; ids below `next` have been handed out by the sequence. */
  datatype Table = Table(rows: map<RowId, Row>, next: RowId)

  const CLAIM_LIMIT: nat := 100

  ghost predicate Valid(t: Table) {
    && (forall id <- t.rows :: id < t.next)
    && (forall id <- t.rows, id' <- t.rows :: t.rows[id].eventId == t.rows[id'].eventId ==> id == id')
  }

  // ---------------------------------------------------------------- backoff

  function Pow2(n: nat): nat {
    if n == 0 then 1 else 2 * Pow2(n - 1)
  }

  /** Seconds until a row claimed for the `attempts`-th time is due again. */
  function Backoff(attempts: nat): nat {
    Min(Pow2(Min(attempts, 11)), 3600)
  }

  lemma {:induction false} Pow2Monotone(a: nat, b: nat)
    requires a <= b
    ensures 1 <= Pow2(a) <= Pow2(b)
  {
    if b == 0 {
    } else if a < b {
      Pow2Monotone(a, b - 1);
    } else {
      Pow2Monotone(a - 1, b - 1);
    }
  }

  /** The exponent is clipped at 11, so the cap is 2048 seconds and the 3600-second bound is never reached. */
  lemma BackoffRange(a: nat, b: nat)
    requires 1 <= a <= b
    ensures 2 <= Backoff(a) <= Backoff(b) <= 2048
    ensures Backoff(a) == Pow2(Min(a, 11))
  {
    assert Pow2(1) == 2;
    assert Pow2(11) == 2048 by {
      assert Pow2(4) == 16;
      assert Pow2(7) == 8 * Pow2(4);
      assert Pow2(10) == 8 * Pow2(7);
    }
    Pow2Monotone(1, Min(a, 11));
    Pow2Monotone(Min(a, 11), Min(b, 11));
    Pow2Monotone(Min(b, 11), 11);
  }

  // ---------------------------------------------------------------- claims

  function IdSet(ids: seq<RowId>): set<RowId> {
    set id | id in ids
  }

  predicate Pending(r: Row) {
    r.publishedAt.None?
  }

  /** The WHERE clause of the claim query. */
  predicate Due(r: Row, now: Time) {
    Pending(r) && (r.nextAttemptAt.None? || r.nextAttemptAt.value <= now)
  }

  /** Due and not locked by a concurrent claim. */
  predicate Claimable(t: Table, id: RowId, now: Time, locked: set<RowId>) {
    id in t.rows && Due(t.rows[id], now) && id !in locked
  }

  /** ORDER BY id LIMIT limit FOR UPDATE SKIP LOCKED, scanning ids from `from`. */
  function Select(t: Table, from: RowId, now: Time, locked: set<RowId>, limit: nat): (ids: seq<RowId>)
    ensures |ids| <= limit
    decreases t.next - from
  {
    if t.next <= from || limit == 0 then []
    else if Claimable(t, from, now, locked) then [from] + Select(t, from + 1, now, locked, limit - 1)
    else Select(t, from + 1, now, locked, limit)
  }

  /** Exactly the first `limit` claimable rows, in id order. */
  lemma {:induction false} SelectIsFirstDue(t: Table, from: RowId, now: Time, locked: set<RowId>, limit: nat)
    ensures var ids := Select(t, from, now, locked, limit);
            && (forall i, j :: 0 <= i < j < |ids| ==> ids[i] < ids[j])
            && (forall id <- ids :: from <= id < t.next && Claimable(t, id, now, locked))
            && (forall id :: from <= id < t.next && Claimable(t, id, now, locked) && id !in ids ==>
                  |ids| == limit && forall c <- ids :: c < id)
    decreases t.next - from
  {
    if t.next <= from || limit == 0 {
    } else if Claimable(t, from, now, locked) {
      SelectIsFirstDue(t, from + 1, now, locked, limit - 1);
      var rest := Select(t, from + 1, now, locked, limit - 1);
      var ids := Select(t, from, now, locked, limit);
      assert ids == [from] + rest;
      assert forall j :: 1 <= j < |ids| ==> ids[j] == rest[j - 1] && rest[j - 1] in rest;
      assert forall c :: c in ids ==> c == from || c in rest;
    } else {
      SelectIsFirstDue(t, from + 1, now, locked, limit);
    }
  }

  function Stamp(r: Row, now: Time): Row {
    r.(attempts := r.attempts + 1, nextAttemptAt := Some(now + Backoff(r.attempts + 1) * 1000))
  }

  /** The table after a claim of `ids` commits. */
  function Claim(t: Table, ids: set<RowId>, now: Time): (t': Table)
    ensures t'.rows.Keys == t.rows.Keys && t'.next == t.next
  {
    Table(map id | id in t.rows :: if id in ids then Stamp(t.rows[id], now) else t.rows[id], t.next)
  }

  /** Claiming one row after another. */
  lemma ClaimOneMore(t: Table, due: seq<RowId>, i: nat, now: Time)
    requires i < |due| && due[i] in t.rows && forall j :: 0 <= j < i ==> due[j] < due[i]
    ensures var before := Claim(t, IdSet(due[..i]), now).rows;
            && before[due[i]] == t.rows[due[i]]
            && Claim(t, IdSet(due[..i + 1]), now).rows == before[due[i] := Stamp(t.rows[due[i]], now)]
  {
    assert due[i] !in due[..i];
    assert due[..i + 1] == due[..i] + [due[i]];
  }

  /** What the claim returns to the publisher: the rows as claimed, with the new attempt number. */
  function Records(t: Table, ids: seq<RowId>): (recs: seq<OutboxRecord>)
    requires forall id <- ids :: id in t.rows
    ensures |recs| == |ids|
    ensures forall i | 0 <= i < |ids| ::
      recs[i] == OutboxRecord(ids[i], t.rows[ids[i]].eventId, t.rows[ids[i]].body, t.rows[ids[i]].attempts + 1)
  {
    seq(|ids|, i requires 0 <= i < |ids| =>
      OutboxRecord(ids[i], t.rows[ids[i]].eventId, t.rows[ids[i]].body, t.rows[ids[i]].attempts + 1))
  }

  /** What a claim takes, returns and writes of one row, column by column. */
  ghost predicate ClaimedRow(before: map<RowId, Row>, after: map<RowId, Row>, rec: OutboxRecord, now: Time, locked: set<RowId>) {
    && rec.id in before && rec.id in after && rec.id !in locked
    && var row := before[rec.id];
    && row.publishedAt.None? && (row.nextAttemptAt.None? || row.nextAttemptAt.value <= now)
    && rec.eventId == row.eventId && rec.body == row.body && rec.attempts == row.attempts + 1
    && after[rec.id] == Row(row.eventId, row.body, rec.attempts, Some(now + Pow2(Min(rec.attempts, 11)) * 1000), None)
  }

  /** Every other row stays as it is. */
  ghost predicate OthersStay(before: map<RowId, Row>, after: map<RowId, Row>, claimed: seq<OutboxRecord>) {
    && after.Keys == before.Keys
    && forall id <- before :: after[id] == before[id] || exists i :: 0 <= i < |claimed| && claimed[i].id == id
  }

  ghost predicate Ascending(claimed: seq<OutboxRecord>) {
    forall i, j :: 0 <= i < j < |claimed| ==> claimed[i].id < claimed[j].id
  }

  /** A row that is due and free is left only when the claim is full, of older rows. */
  ghost predicate OldestFirst(t: Table, claimed: seq<OutboxRecord>, now: Time, locked: set<RowId>, limit: nat) {
    forall id <- t.rows ::
      && id < t.next && id !in locked && t.rows[id].publishedAt.None?
      && (t.rows[id].nextAttemptAt.Some? ==> t.rows[id].nextAttemptAt.value <= now)
      && (forall i :: 0 <= i < |claimed| ==> claimed[i].id != id)
      ==> |claimed| == limit && forall i :: 0 <= i < |claimed| ==> claimed[i].id < id
  }

  lemma ClaimedRowMeans(t: Table, due: seq<RowId>, i: nat, now: Time, locked: set<RowId>)
    requires i < |due| && (forall id <- due :: id in t.rows && Claimable(t, id, now, locked))
    ensures ClaimedRow(t.rows, Claim(t, IdSet(due), now).rows, Records(t, due)[i], now, locked)
  {
    assert due[i] in due;
    var attempts := t.rows[due[i]].attempts + 1;
    BackoffRange(attempts, attempts);
  }

  lemma OthersStayMeans(t: Table, due: seq<RowId>, now: Time)
    requires forall id <- due :: id in t.rows
    ensures OthersStay(t.rows, Claim(t, IdSet(due), now).rows, Records(t, due))
  {
    var recs := Records(t, due);
    forall id <- t.rows | id in due ensures exists i :: 0 <= i < |recs| && recs[i].id == id {
      var i :| 0 <= i < |due| && due[i] == id;
      assert recs[i].id == id;
    }
  }

  lemma OldestFirstMeans(t: Table, now: Time, locked: set<RowId>, limit: nat)
    ensures var due := Select(t, 0, now, locked, limit);
            (forall id <- due :: id in t.rows) && OldestFirst(t, Records(t, due), now, locked, limit)
  {
    var due := Select(t, 0, now, locked, limit);
    SelectIsFirstDue(t, 0, now, locked, limit);
    var recs := Records(t, due);
    forall id | id in t.rows && id in due ensures exists i :: 0 <= i < |recs| && recs[i].id == id {
      var i :| 0 <= i < |due| && due[i] == id;
      assert recs[i].id == id;
    }
    forall i | 0 <= i < |recs| ensures recs[i].id in due {
      assert recs[i].id == due[i];
    }
  }

  lemma ClaimMeans(t: Table, now: Time, locked: set<RowId>, limit: nat)
    ensures var due := Select(t, 0, now, locked, limit);
            && (forall id <- due :: id in t.rows)
            && var claimed, rows := Records(t, due), Claim(t, IdSet(due), now).rows;
            && Ascending(claimed) && OthersStay(t.rows, rows, claimed) && OldestFirst(t, claimed, now, locked, limit)
            && forall i {:trigger claimed[i]} | 0 <= i < |claimed| :: ClaimedRow(t.rows, rows, claimed[i], now, locked)
  {
    var due := Select(t, 0, now, locked, limit);
    SelectIsFirstDue(t, 0, now, locked, limit);
    OthersStayMeans(t, due, now);
    OldestFirstMeans(t, now, locked, limit);
    forall i | 0 <= i < |due| ensures ClaimedRow(t.rows, Claim(t, IdSet(due), now).rows, Records(t, due)[i], now, locked) {
      ClaimedRowMeans(t, due, i, now, locked);
    }
  }

  // ---------------------------------------------------------------- other statements

  function Mark(t: Table, ids: set<RowId>, at: Time): (t': Table)
    ensures t'.rows.Keys == t.rows.Keys && t'.next == t.next
  {
    Table(map id | id in t.rows :: if id in ids then t.rows[id].(publishedAt := Some(at)) else t.rows[id], t.next)
  }

  predicate Purgeable(r: Row, cutoff: Time) {
    r.publishedAt.Some? && r.publishedAt.value <= cutoff
  }

  function Purge(t: Table, cutoff: Time): Table {
    Table(map id | id in t.rows && !Purgeable(t.rows[id], cutoff) :: t.rows[id], t.next)
  }

  ghost function PublishedUpTo(rows: map<RowId, Row>, at: Time): set<RowId> {
    set id | id in rows && rows[id].publishedAt.Some? && rows[id].publishedAt.value <= at
  }

  /** Exactly the rows that are pending or were published after the cutoff are left, as they were. */
  ghost predicate Purged(before: map<RowId, Row>, after: map<RowId, Row>, cutoff: Time) {
    && after.Keys == before.Keys - PublishedUpTo(before, cutoff)
    && forall id <- after :: after[id] == before[id]
  }

  lemma PurgeMeans(t: Table, cutoff: Time)
    ensures Purged(t.rows, Purge(t, cutoff).rows, cutoff)
    ensures |PublishedUpTo(t.rows, cutoff)| == |t.rows| - |Purge(t, cutoff).rows|
  {
    var gone, kept := PublishedUpTo(t.rows, cutoff), Purge(t, cutoff).rows;
    assert t.rows.Keys == kept.Keys + gone;
    assert |t.rows| == |t.rows.Keys| && |kept| == |kept.Keys|;
  }

  ghost predicate HasEvent(t: Table, e: EventId) {
    exists id <- t.rows :: t.rows[id].eventId == e
  }

  function NewRow(e: EventId, body: Body): Row {
    Row(e, body, 0, None, None)
  }

  /** INSERT guarded by the unique event_id: a repeated id leaves the table as it is. */
  ghost function Append(t: Table, e: EventId, body: Body): Table {
    if HasEvent(t, e) then t else Table(t.rows[t.next := NewRow(e, body)], t.next + 1)
  }

  // ---------------------------------------------------------------- the backlog

  ghost function Backlog(t: Table): set<RowId> {
    set id | id in t.rows && Pending(t.rows[id])
  }

  lemma SelectedIsBacklog(t: Table, now: Time, limit: nat)
    ensures var ids := Select(t, 0, now, {}, limit);
            (forall id <- ids :: id in Backlog(t)) && (Backlog(t) == {} ==> ids == [])
  {
    SelectIsFirstDue(t, 0, now, {}, limit);
    var ids := Select(t, 0, now, {}, limit);
    assert ids == [] || ids[0] in ids;
  }

  /** The backlog is empty exactly when no claim, however late, however large and with nothing locked, finds a row. */
  lemma BacklogIsClaimable(t: Table)
    requires Valid(t)
    ensures |Backlog(t)| == 0 <==> forall now, limit {:trigger Select(t, 0, now, {}, limit)} :: Select(t, 0, now, {}, limit) == []
  {
    if id :| id in Backlog(t) {
      var due := t.rows[id].nextAttemptAt;
      var now := if due.Some? then due.value else 0;
      SelectIsFirstDue(t, 0, now, {}, 1);
      assert Claimable(t, id, now, {});
      assert Select(t, 0, now, {}, 1) != [];
    } else {
      forall now, limit ensures Select(t, 0, now, {}, limit) == [] {
        SelectedIsBacklog(t, now, limit);
      }
    }
  }


  /** The statements that any mix of instances may commit, in commit order. */
  datatype Statement =
    | AppendRow(event: EventId, body: Body)
    | ClaimRows(limit: nat, now: Time, locked: set<RowId>)
    | MarkRows(ids: set<RowId>, at: Time)
    | PurgeRows(cutoff: Time)

  function Claimed(t: Table, st: Statement): (ids: seq<RowId>)
    requires st.ClaimRows?
  {
    Select(t, 0, st.now, st.locked, st.limit)
  }

  ghost function Commit(t: Table, st: Statement): Table {
    match st
    case AppendRow(e, body) => Append(t, e, body)
    case ClaimRows(limit, now, locked) => Claim(t, IdSet(Claimed(t, st)), now)
    case MarkRows(ids, at) => Mark(t, ids, at)
    case PurgeRows(cutoff) => Purge(t, cutoff)
  }

  ghost function CommitAll(t: Table, run: seq<Statement>): Table
    decreases |run|
  {
    if run == [] then t else CommitAll(Commit(t, run[0]), run[1..])
  }

  /** Rows that a mark of the run reached. */
  ghost function Marked(t: Table, run: seq<Statement>): set<RowId>
    decreases |run|
  {
    if run == [] then {}
    else
      (if run[0].MarkRows? then set id | id in run[0].ids && id < t.next else {})
      + Marked(Commit(t, run[0]), run[1..])
  }

  /**
   * Over every run, the backlog is what it was and what was appended since, less what was marked. Claims and purges,
   * whatever their limit or cutoff, take nothing from it.
   */
  lemma {:induction false} BacklogOverEveryRun(t: Table, run: seq<Statement>)
    requires Valid(t)
    ensures var after := CommitAll(t, run);
            && t.next <= after.next
            && forall id | id < after.next ::
                 id in Backlog(after) <==> (id in Backlog(t) || t.next <= id) && id !in Marked(t, run)
    decreases |run|
  {
    if run != [] {
      var mid := Commit(t, run[0]);
      assert Valid(mid) && t.next <= mid.next;
      BacklogOverEveryRun(mid, run[1..]);
    }
  }

  /** The `now` of every claim of row `id` along a run, in order. */
  ghost function ClaimTimes(t: Table, run: seq<Statement>, id: RowId): seq<Time>
    decreases |run|
  {
    if run == [] then []
    else
      (if run[0].ClaimRows? && id in Claimed(t, run[0]) then [run[0].now] else [])
      + ClaimTimes(Commit(t, run[0]), run[1..], id)
  }

  ghost predicate Spaced(times: seq<Time>, attempts: nat) {
    forall i :: 0 <= i < |times| - 1 ==> times[i + 1] >= times[i] + Backoff(attempts + i + 1) * 1000
  }

  lemma {:induction false} CommitKeepsRow(t: Table, st: Statement, id: RowId)
    requires Valid(t) && id < t.next
    ensures Valid(Commit(t, st)) && id < Commit(t, st).next
    ensures id in Commit(t, st).rows ==> id in t.rows
    ensures var t' := Commit(t, st);
            id in t'.rows ==>
              if st.ClaimRows? && id in Claimed(t, st) then t'.rows[id] == Stamp(t.rows[id], st.now)
              else t'.rows[id].attempts == t.rows[id].attempts && t'.rows[id].nextAttemptAt == t.rows[id].nextAttemptAt
    ensures st.ClaimRows? && id in Claimed(t, st) ==> id in t.rows && Due(t.rows[id], st.now) && id in Commit(t, st).rows
  {
    if st.ClaimRows? {
      SelectIsFirstDue(t, 0, st.now, st.locked, st.limit);
    }
  }

  lemma {:induction false} ClaimSpacingFrom(t: Table, run: seq<Statement>, id: RowId)
    requires Valid(t) && id < t.next
    ensures var times := ClaimTimes(t, run, id);
            && (times != [] ==> id in t.rows)
            && (id in t.rows ==>
                  && Spaced(times, t.rows[id].attempts)
                  && (times != [] && t.rows[id].nextAttemptAt.Some? ==> times[0] >= t.rows[id].nextAttemptAt.value))
            && (id in CommitAll(t, run).rows ==>
                  id in t.rows && CommitAll(t, run).rows[id].attempts == t.rows[id].attempts + |times|)
    decreases |run|
  {
    if run != [] {
      CommitKeepsRow(t, run[0], id);
      ClaimSpacingFrom(Commit(t, run[0]), run[1..], id);
    }
  }

  /** Seconds between the first and the k-th claim when every claim comes as early as it may. */
  function Elapsed(k: nat): nat
    requires k >= 1
  {
    if k == 1 then 0 else Elapsed(k - 1) + Backoff(k - 1)
  }

  lemma {:induction false} ElapsedClosedForm(k: nat)
    requires k >= 1
    ensures k <= 12 ==> Elapsed(k) == Pow2(k) - 2
    ensures k > 12 ==> Elapsed(k) == 4094 + 2048 * (k - 12)
  {
    if k > 1 {
      ElapsedClosedForm(k - 1);
      BackoffRange(k - 1, k - 1);
      BackoffRange(11, 11);
      assert Pow2(12) == 2 * Pow2(11) && Pow2(11) == 2048 by {
        assert Pow2(4) == 16;
        assert Pow2(7) == 8 * Pow2(4);
        assert Pow2(10) == 8 * Pow2(7);
      }
    }
  }

  lemma {:induction false} SpacedSpan(times: seq<Time>, k: nat)
    requires 1 <= k <= |times| && Spaced(times, 0)
    ensures times[k - 1] - times[0] >= Elapsed(k) * 1000
  {
    if k > 1 {
      SpacedSpan(times, k - 1);
      assert times[k - 2 + 1] >= times[k - 2] + Backoff(0 + (k - 2) + 1) * 1000;
    }
  }

  /**
   * Over every run of statements by any number of instances, a row that starts unclaimed is claimed as
   * often as its attempt counter says, consecutive claims respect the backoff, and reaching attempt k
   * takes at least 2^k - 2 seconds (k up to 12; 2048 more for each further attempt).
   */
  lemma ClaimSpacing(t: Table, run: seq<Statement>, id: RowId, k: nat)
    requires Valid(t) && id in t.rows && t.rows[id].attempts == 0
    requires 1 <= k <= |ClaimTimes(t, run, id)|
    ensures var times := ClaimTimes(t, run, id);
            && (id in CommitAll(t, run).rows ==> CommitAll(t, run).rows[id].attempts == |times|)
            && (forall i :: 0 <= i < |times| - 1 ==> times[i + 1] >= times[i] + Backoff(i + 1) * 1000)
            && times[k - 1] - times[0] >= (if k <= 12 then Pow2(k) - 2 else 4094 + 2048 * (k - 12)) * 1000
  {
    ClaimSpacingFrom(t, run, id);
    SpacedSpan(ClaimTimes(t, run, id), k);
    ElapsedClosedForm(k);
  }

  // ---------------------------------------------------------------- the repository

  class OutboxRepository {
    var rows: map<RowId, Row>
    var next: RowId

    ghost function State(): Table
      reads this
    {
      Table(rows, next)
    }

    constructor ()
      ensures State() == Table(map[], 0)
    {
      rows, next := map[], 0;
    }

    method FindByEventId(e: EventId) returns (found: Option<OutboxRecord>)
      requires Valid(State())
      ensures found.Some? <==> HasEvent(State(), e)
      ensures found.Some? ==>
        && found.value.id in rows
        && var r := rows[found.value.id];
           found.value == OutboxRecord(found.value.id, r.eventId, r.body, r.attempts) && r.eventId == e
    {
      for id := 0 to next
        invariant forall i <- rows :: i < id ==> rows[i].eventId != e
      {
        if id in rows && rows[id].eventId == e {
          return Some(OutboxRecord(id, rows[id].eventId, rows[id].body, rows[id].attempts));
        }
      }
      return None;
    }

    /** Idempotent: a known event id stores nothing and returns the row it has. */
    method AppendEvent(e: EventId, body: Body) returns (rec: OutboxRecord)
      requires Valid(State())
      modifies this
      ensures State() == Append(old(State()), e, body) && Valid(State())
      ensures if exists id <- old(rows) :: old(rows)[id].eventId == e then rows == old(rows) && next == old(next)
              else rows == old(rows)[old(next) := Row(e, body, 0, None, None)] && next == old(next) + 1
      ensures rec.id in rows && rec.eventId == e
      ensures rec == OutboxRecord(rec.id, rows[rec.id].eventId, rows[rec.id].body, rows[rec.id].attempts)
    {
      var existing := FindByEventId(e);
      match existing
      case Some(found) => rec := found;
      case None =>
        rows := rows[next := NewRow(e, body)];
        rec := OutboxRecord(next, e, body, 0);
        next := next + 1;
    }

    method SelectDue(limit: nat, now: Time, locked: set<RowId>) returns (due: seq<RowId>)
      ensures due == Select(State(), 0, now, locked, limit)
    {
      due := [];
      var id := 0;
      while id < next && |due| < limit
        invariant |due| <= limit
        invariant Select(State(), 0, now, locked, limit) == due + Select(State(), id, now, locked, limit - |due|)
      {
        if id in rows && Due(rows[id], now) && id !in locked {
          due := due + [id];
        }
        id := id + 1;
      }
    }

    /** One transaction: claim up to `limit` due rows, bumping attempts with backoff. */
    method ClaimBatch(limit: nat, now: Time, locked: set<RowId>) returns (claimed: seq<OutboxRecord>)
      modifies this
      ensures var due := Select(old(State()), 0, now, locked, limit);
              && (forall id <- due :: id in old(rows))
              && claimed == Records(old(State()), due)
              && State() == Claim(old(State()), IdSet(due), now)
      ensures |claimed| <= limit && Ascending(claimed) && next == old(next)
      ensures forall i {:trigger claimed[i]} | 0 <= i < |claimed| :: ClaimedRow(old(rows), rows, claimed[i], now, locked)
      ensures OthersStay(old(rows), rows, claimed) && OldestFirst(old(State()), claimed, now, locked, limit)
    {
      ghost var t := State();
      var due := SelectDue(limit, now, locked);
      SelectIsFirstDue(t, 0, now, locked, limit);
      claimed := StampAll(due, now);
      ClaimMeans(t, now, locked, limit);
    }

    /** The UPDATE of each selected row within that transaction. */
    method StampAll(due: seq<RowId>, now: Time) returns (claimed: seq<OutboxRecord>)
      requires forall id <- due :: id in rows
      requires forall i, j :: 0 <= i < j < |due| ==> due[i] < due[j]
      modifies this
      ensures claimed == Records(old(State()), due)
      ensures State() == Claim(old(State()), IdSet(due), now)
    {
      ghost var t := State();
      claimed := [];
      assert rows == Claim(t, IdSet(due[..0]), now).rows;
      for i := 0 to |due|
        invariant State() == Claim(t, IdSet(due[..i]), now)
        invariant claimed == Records(t, due)[..i]
      {
        assert due[i] in due;
        ClaimOneMore(t, due, i, now);
        var row := rows[due[i]];
        var attempts := row.attempts + 1;
        var backoffSeconds := Backoff(attempts);
        rows := rows[due[i] := row.(attempts := attempts, nextAttemptAt := Some(now + backoffSeconds * 1000))];
        claimed := claimed + [OutboxRecord(due[i], row.eventId, row.body, attempts)];
      }
      assert due[..|due|] == due;
    }

    method MarkPublishedBatch(ids: seq<RowId>, at: Time)
      modifies this
      ensures State() == Mark(old(State()), IdSet(ids), at)
      ensures rows.Keys == old(rows).Keys && next == old(next)
      ensures forall id <- old(rows) ::
                rows[id] == old(rows)[id].(publishedAt := if id in ids then Some(at) else old(rows)[id].publishedAt)
    {
      if |ids| == 0 {
        assert rows == Mark(State(), {}, at).rows;
        return;
      }
      rows := map id | id in rows :: if id in ids then rows[id].(publishedAt := Some(at)) else rows[id];
    }

    /** Deletes rows published at or before the cutoff and returns how many; pending rows are safe. */
    method PurgePublished(olderThanDays: nat, now: Time) returns (deleted: nat)
      modifies this
      ensures State() == Purge(old(State()), now - olderThanDays * 24 * 3600 * 1000)
      ensures next == old(next)
      ensures Purged(old(rows), rows, now - olderThanDays * 24 * 3600 * 1000)
      ensures deleted == |PublishedUpTo(old(rows), now - olderThanDays * 24 * 3600 * 1000)|
      ensures deleted == |old(rows)| - |rows|
      ensures forall id <- old(rows) :: Pending(old(rows)[id]) ==> id in rows && rows[id] == old(rows)[id]
    {
      var cutoff := now - olderThanDays * 24 * 3600 * 1000;
      PurgeMeans(State(), cutoff);
      var gone := set id | id in rows && Purgeable(rows[id], cutoff);
      assert gone == PublishedUpTo(rows, cutoff);
      deleted := |gone|;
      rows := map id | id in rows && !Purgeable(rows[id], cutoff) :: rows[id];
    }

    /** The size of the backlog; BacklogIsClaimable and BacklogOverEveryRun say what the number means. */
    method CountPending() returns (n: nat)
      requires Valid(State())
      ensures n == |Backlog(State())|
    {
      n := 0;
      ghost var seen: set<RowId> := {};
      for id := 0 to next
        invariant seen == set i | i in rows && Pending(rows[i]) && i < id
        invariant n == |seen|
      {
        if id in rows && Pending(rows[id]) {
          n := n + 1;
          seen := seen + {id};
        }
      }
      assert seen == Backlog(State());
    }
  }
}
