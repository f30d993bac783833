/**
 * The relay from outbox to broker (apps/api/src/workers/publisher.ts).
 *
 * `publishBatch` suspends three times: at the claim transaction, at waitForConfirms and at the mark
 * statement. The phases below are where an instance stands between those awaits.
 */
module Publisher {
  import opened Types
  import opened Outbox

  /** What is handed to the confirm channel for one row. */
  datatype Message = Message(routingKey: string, messageId: EventId, body: Body, copy: CopyKey)

  const CLICKS_ROUTING_KEY := "url.clicked"

  /**
   * Offline: no channel. Ready: connected, between batches. Sending: a batch handed to the channel, of which
   * the broker has taken the first `taken`. Marking: every message confirmed, the mark statement to come.
   */
  datatype Phase =
    | Offline
    | Ready
    | Sending(claimed: seq<OutboxRecord>, taken: nat)
    | Marking(claimed: seq<OutboxRecord>)

  datatype PublishError = NotConnected

  function MessageOf(r: OutboxRecord): Message {
    Message(CLICKS_ROUTING_KEY, r.eventId, r.body, CopyKey(r.id, r.attempts))
  }

  function Messages(claimed: seq<OutboxRecord>): (ms: seq<Message>)
    ensures |ms| == |claimed|
  {
    seq(|claimed|, i requires 0 <= i < |claimed| => MessageOf(claimed[i]))
  }

  /** What the broker takes next of a batch: the first message on the channel that it has not taken. */
  function NextMessage(ph: Phase): (m: Message)
    requires ph.Sending? && ph.taken < |ph.claimed|
    ensures var r := ph.claimed[ph.taken]; Announces(m, r.id, r.eventId, r.body, r.attempts)
  {
    Messages(ph.claimed)[ph.taken]
  }

  /** The message tells consumers of this attempt to publish this row. */
  ghost predicate Announces(m: Message, id: RowId, e: EventId, body: Body, attempt: nat) {
    m.routingKey == "url.clicked" && m.messageId == e && m.body == body && m.copy == CopyKey(id, attempt)
  }

  /** One message for each claimed row, in claim order, after what was on the channel before. */
  ghost predicate Announced(before: seq<Message>, after: seq<Message>, due: seq<RowId>, rows: map<RowId, Row>) {
    && |after| == |before| + |due| && before <= after
    && forall i :: 0 <= i < |due| ==>
         && due[i] in rows
         && Announces(after[|before| + i], due[i], rows[due[i]].eventId, rows[due[i]].body, rows[due[i]].attempts + 1)
  }

  lemma BatchIsAnnounced(before: seq<Message>, t: Table, due: seq<RowId>)
    requires forall id <- due :: id in t.rows
    ensures Announced(before, before + Messages(Records(t, due)), due, t.rows)
    ensures forall k :: 0 <= k < |due| ==>
              NextMessage(Sending(Records(t, due), k)) == (before + Messages(Records(t, due)))[|before| + k]
  {
    var claimed := Records(t, due);
    forall k | 0 <= k < |due| ensures
        && (before + Messages(claimed))[|before| + k] == Messages(claimed)[k]
        && NextMessage(Sending(claimed, k)) == Messages(claimed)[k]
    {
    }
  }

  function RowIds(claimed: seq<OutboxRecord>): (ids: seq<RowId>)
    ensures |ids| == |claimed|
  {
    seq(|claimed|, i requires 0 <= i < |claimed| => claimed[i].id)
  }

  lemma MarkedIds(claimed: seq<OutboxRecord>)
    ensures forall id :: id in RowIds(claimed) <==> exists i :: 0 <= i < |claimed| && claimed[i].id == id
  {
    forall id | exists i :: 0 <= i < |claimed| && claimed[i].id == id ensures id in RowIds(claimed) {
      var i :| 0 <= i < |claimed| && claimed[i].id == id;
      assert RowIds(claimed)[i] == id;
    }
  }

  /** The phase after a claim returned `claimed`. */
  function AfterClaim(claimed: seq<OutboxRecord>): Phase {
    if claimed == [] then Ready else Sending(claimed, 0)
  }

  class Publisher {
    const outbox: OutboxRepository
    var phase: Phase
    /** Messages on the confirm channel, in the order they were published. */
    var channel: seq<Message>
    var eventsPublished: nat

    constructor (outbox: OutboxRepository)
      ensures this.outbox == outbox && phase == Offline && channel == [] && eventsPublished == 0
    {
      this.outbox := outbox;
      phase, channel, eventsPublished := Offline, [], 0;
    }

    method Connect()
      requires phase.Offline?
      modifies this
      ensures phase == Ready && channel == [] && eventsPublished == old(eventsPublished)
    {
      phase, channel := Ready, [];
    }

    /** The catch branch of the loop: the channel is gone, whatever it still held. */
    method Disconnect()
      modifies this
      ensures phase == Offline && channel == [] && eventsPublished == old(eventsPublished)
    {
      phase, channel := Offline, [];
    }

    /** publishBatch up to waitForConfirms: claim, then hand every row to the channel in claim order. */
    method StartBatch(now: Time, locked: set<RowId>) returns (r: Result<nat, PublishError>)
      requires phase.Offline? || phase.Ready?
      requires this as object != outbox as object
      modifies this, outbox
      ensures old(phase).Offline? ==> r == Err(NotConnected) && unchanged(this) && unchanged(outbox)
      ensures old(phase).Ready? ==>
        var due := Select(old(outbox.State()), 0, now, locked, CLAIM_LIMIT);
        && (forall id <- due :: id in old(outbox.rows))
        && var claimed := Records(old(outbox.State()), due);
        && r == Ok(|claimed|)
        && phase == AfterClaim(claimed)
        && channel == old(channel) + Messages(claimed)
        && |due| <= 100 && Announced(old(channel), channel, due, old(outbox.rows))
        && (forall k :: 0 <= k < |due| ==> NextMessage(Sending(claimed, k)) == channel[|old(channel)| + k])
        && outbox.State() == Claim(old(outbox.State()), IdSet(due), now)
    {
      if phase.Offline? {
        return Err(NotConnected);
      }
      var claimed := outbox.ClaimBatch(CLAIM_LIMIT, now, locked);
      ghost var before := channel;
      for i := 0 to |claimed|
        invariant channel == before + Messages(claimed)[..i]
        modifies this`channel
      {
        channel := channel + [MessageOf(claimed[i])];
      }
      phase := AfterClaim(claimed);
      ghost var due := Select(old(outbox.State()), 0, now, locked, CLAIM_LIMIT);
      BatchIsAnnounced(before, old(outbox.State()), due);
      assert channel == before + Messages(claimed);
      return Ok(|claimed|);
    }

    /** publishBatch after waitForConfirms: mark the whole batch and count it. */
    method FinishBatch(at: Time) returns (published: nat)
      requires phase.Marking?
      requires this as object != outbox as object
      modifies this, outbox
      ensures outbox.State() == Mark(old(outbox.State()), IdSet(RowIds(old(phase).claimed)), at)
      ensures outbox.rows.Keys == old(outbox.rows).Keys
      ensures forall id <- old(outbox.rows) :: outbox.rows[id] == old(outbox.rows)[id].(publishedAt :=
                if exists i :: 0 <= i < |old(phase).claimed| && old(phase).claimed[i].id == id then Some(at)
                else old(outbox.rows)[id].publishedAt)
      ensures phase == Ready && published == |old(phase).claimed| && channel == old(channel)
      ensures eventsPublished == old(eventsPublished) + published
    {
      var claimed := phase.claimed;
      var ids := [];
      for i := 0 to |claimed|
        invariant ids == RowIds(claimed)[..i]
      {
        ids := ids + [claimed[i].id];
      }
      MarkedIds(claimed);
      outbox.MarkPublishedBatch(ids, at);
      eventsPublished := eventsPublished + |claimed|;
      phase := Ready;
      published := |claimed|;
    }
  }
}
