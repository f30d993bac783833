/**
 * The consumer of the dead-letter queue (apps/api/src/workers/dlq-inspector.ts): log, count, ack, in this order.
 * Module Pipeline runs it as the steps Inspect, Observe and InspectorCrashes.
 */
module DlqInspector {
  import opened Types
  import Worker

  const MAX_PAYLOAD_LOG_CHARS: nat := 500

  datatype DeadLetterInfo = DeadLetterInfo(messageId: Option<EventId>, redelivered: bool, payloadPreview: string)

  /** What the inspector does to the outside world, in order. */
  datatype Action = Log(info: DeadLetterInfo) | Ack(msg: Worker.Delivery)

  function Preview(raw: string): string {
    if |raw| <= MAX_PAYLOAD_LOG_CHARS then raw else raw[..MAX_PAYLOAD_LOG_CHARS]
  }

  function InfoOf(msg: Worker.Delivery, raw: string): DeadLetterInfo {
    DeadLetterInfo(msg.messageId, msg.redelivered, Preview(raw))
  }

  /** Every ack comes right after the log entry of the same letter. */
  ghost predicate LoggedFirst(actions: seq<Action>) {
    forall i {:trigger actions[i].Ack?} | 0 <= i < |actions| && actions[i].Ack? ::
      i > 0 && exists raw :: actions[i - 1] == Log(InfoOf(actions[i].msg, raw))
  }

  function AckCount(actions: seq<Action>): nat {
    if actions == [] then 0 else AckCount(actions[..|actions| - 1]) + if actions[|actions| - 1].Ack? then 1 else 0
  }

  function LogCount(actions: seq<Action>): nat {
    if actions == [] then 0 else LogCount(actions[..|actions| - 1]) + if actions[|actions| - 1].Log? then 1 else 0
  }

  /** However the process is cut off, no letter was acked that was not logged, and none stands for two. */
  lemma {:induction false} AckedWasLogged(actions: seq<Action>, n: nat)
    requires LoggedFirst(actions) && n <= |actions|
    ensures var done := actions[..n];
            && LoggedFirst(done) && AckCount(done) <= LogCount(done)
            && (n > 0 && done[n - 1].Log? ==> AckCount(done) < LogCount(done))
  {
    if n > 0 {
      var done := actions[..n];
      AckedWasLogged(actions, n - 1);
      assert done[..n - 1] == actions[..n - 1];
      if done[n - 1].Ack? {
        assert actions[n - 1].Ack?;
        assert actions[..n - 1][n - 2].Log?;
      }
      assert forall i {:trigger done[i]} | 0 <= i < n :: done[i] == actions[i];
    }
  }

  class Inspector {
    var dlqTotal: nat
    var dlqDepth: nat
    var actions: seq<Action>

    ghost predicate Valid()
      reads this
    {
      LoggedFirst(actions) && dlqTotal == AckCount(actions) == LogCount(actions)
    }

    constructor ()
      ensures Valid() && actions == [] && dlqDepth == 0
    {
      dlqTotal, dlqDepth, actions := 0, 0, [];
    }

    method HandleMessage(msg: Worker.Delivery, raw: string)
      requires Valid()
      modifies this
      ensures Valid() && dlqDepth == old(dlqDepth) && dlqTotal == old(dlqTotal) + 1
      ensures actions == old(actions) + [Log(InfoOf(msg, raw)), Ack(msg)]
      ensures var info := DeadLetterInfo(msg.messageId, msg.redelivered, if |raw| <= 500 then raw else raw[..500]);
              actions == old(actions) + [Log(info), Ack(msg)]
    {
      actions := actions + [Log(DeadLetterInfo(msg.messageId, msg.redelivered, Preview(raw)))];
      dlqTotal := dlqTotal + 1;
      actions := actions + [Ack(msg)];
      ghost var logged := old(actions) + [Log(InfoOf(msg, raw))];
      assert logged[..|logged| - 1] == old(actions) && actions[..|actions| - 1] == logged;
    }

    /** A failed queue check keeps the last depth. */
    method UpdateDepth(checked: Option<nat>)
      requires Valid()
      modifies this
      ensures Valid() && actions == old(actions) && dlqTotal == old(dlqTotal)
      ensures dlqDepth == if checked.Some? then checked.value else old(dlqDepth)
    {
      if checked.Some? {
        dlqDepth := checked.value;
      }
    }
  }
}
