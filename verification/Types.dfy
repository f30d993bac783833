/**
 * What the modules share: error-carrying results, the entities of the click pipeline, and a fact about finite
 * sets.
 */
module Types {
  datatype Option<+T> = None | Some(value: T)

  datatype Result<+T, +E> = Ok(value: T) | Err(error: E)

  /** Milliseconds since the epoch, as a JavaScript Date holds them. */
  type Time = int

  /** A random UUID, compared only for equality. */
  datatype EventId = Uuid(value: nat)

  /** Row ids come from a sequence; they are never reused. */
  type RowId = nat

  /**
   * A `url.clicked` event with the columns the worker derives from it.
   * Enrichment is a pure function of the event, so it travels with it here.
   */
  datatype ClickEvent = ClickEvent(
    shortCode: string,
    clickedAt: Time,
    country: Option<string>,
    deviceType: Option<string>,
    browser: Option<string>,
    referrer: Option<string>)

  /** What the consumer sees after JSON.parse and schema validation. */
  datatype Body = Click(click: ClickEvent) | Malformed

  /** One publication of one outbox row: the attempt number is in the message header. */
  datatype CopyKey = CopyKey(row: RowId, attempt: nat)

  function Min(a: int, b: int): int {
    if a < b then a else b
  }

  lemma {:induction false} SubsetSize<T>(a: set<T>, b: set<T>)
    requires a <= b
    ensures |a| <= |b| && (a != b ==> |a| < |b|)
  {
    if a != {} {
      var x :| x in a;
      SubsetSize(a - {x}, b - {x});
    } else if b != {} {
      assert |b| != 0;
    }
  }
}
