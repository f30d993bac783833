/**
 * The cache of resolutions (apps/api/src/cache/url-cache.ts) and the two ways of answering a short code: the rule
 * over a database row and the rule over a cached entry (apps/api/src/services/url.service.ts).
 */
module UrlCache {
  import opened Types

  datatype Reason = Deactivated | Expired

  /** The columns of a link that a redirect depends on. */
  datatype Link = Link(originalUrl: string, expiresAt: Option<Time>, isActive: bool)

  datatype CachedEntry = Url(link: Link) | Gone(reason: Reason) | Missing

  datatype Answer = Redirect(originalUrl: string) | NotFound | GoneFor(reason: Reason)

  /** A Redis key; it is gone from its deadline on. */
  datatype Slot = Slot(entry: CachedEntry, deadline: Time)

  type Keys = map<string, Slot>

  const NEGATIVE_TTL_SECONDS: nat := 60

  // ---------------------------------------------------------------- the rules

  /** The answer of the database alone. */
  function Rule(link: Option<Link>, now: Time): Answer {
    match link
    case None => NotFound
    case Some(l) =>
      if !l.isActive then GoneFor(Deactivated)
      else if l.expiresAt.Some? && l.expiresAt.value <= now then GoneFor(Expired)
      else Redirect(l.originalUrl)
  }

  /** What a resolution stores after asking the database. */
  function EntryOf(link: Option<Link>, now: Time): CachedEntry {
    match link
    case None => Missing
    case Some(l) =>
      if !l.isActive then Gone(Deactivated)
      else if l.expiresAt.Some? && l.expiresAt.value <= now then Gone(Expired)
      else Url(l)
  }

  /** fromCache: a hit, with lazy expiry on cached rows. */
  function FromCache(entry: CachedEntry, now: Time): Answer {
    match entry
    case Missing => NotFound
    case Gone(reason) => GoneFor(reason)
    case Url(l) =>
      if !l.isActive then GoneFor(Deactivated)
      else if l.expiresAt.Some? && l.expiresAt.value <= now then GoneFor(Expired)
      else Redirect(l.originalUrl)
  }

  /** An entry made from a link answers like that link for as long as it may live. */
  lemma EntryAnswersLikeLink(link: Option<Link>, readAt: Time, now: Time)
    requires readAt <= now
    ensures FromCache(EntryOf(link, readAt), now) == Rule(link, now)
  {
  }

  function TtlOf(entry: CachedEntry, ttlSeconds: nat): nat {
    if entry.Url? then ttlSeconds else NEGATIVE_TTL_SECONDS
  }

  function Lookup(keys: Keys, code: string, now: Time): Option<CachedEntry> {
    if code in keys && now < keys[code].deadline then Some(keys[code].entry) else None
  }

  function Put(keys: Keys, code: string, entry: CachedEntry, ttlSeconds: nat, now: Time): Keys {
    keys[code := Slot(entry, now + TtlOf(entry, ttlSeconds) * 1000)]
  }

  // ---------------------------------------------------------------- two rows that answer differently

  ghost predicate Differ(a: Option<Link>, b: Option<Link>, from: Time, to: Time) {
    exists t {:trigger Rule(a, t)} :: from <= t <= to && Rule(a, t) != Rule(b, t)
  }

  function ExpiryOf(link: Option<Link>, otherwise: Time): Time {
    if link.Some? && link.value.expiresAt.Some? then link.value.expiresAt.value else otherwise
  }

  predicate DifferAt(a: Option<Link>, b: Option<Link>, from: Time, to: Time, t: Time) {
    from <= t <= to && Rule(a, t) != Rule(b, t)
  }

  /** Looking at the first moment and at the two expiry times is enough. */
  predicate SeenToDiffer(a: Option<Link>, b: Option<Link>, from: Time, to: Time) {
    || DifferAt(a, b, from, to, from)
    || DifferAt(a, b, from, to, ExpiryOf(a, from))
    || DifferAt(a, b, from, to, ExpiryOf(b, from))
  }

  /** A rule changes its answer only when its link expires. */
  lemma RuleIsSteady(link: Option<Link>, t: Time, u: Time)
    requires t <= u && !(t < ExpiryOf(link, t) <= u)
    ensures Rule(link, t) == Rule(link, u)
  {
  }

  lemma DifferIsSeen(a: Option<Link>, b: Option<Link>, from: Time, to: Time)
    ensures Differ(a, b, from, to) <==> SeenToDiffer(a, b, from, to)
  {
    if t :| from <= t <= to && Rule(a, t) != Rule(b, t) {
      var ea, eb := ExpiryOf(a, from), ExpiryOf(b, from);
      var seen := if from <= ea <= t && (eb <= ea || t < eb) then ea else if from <= eb <= t then eb else from;
      RuleIsSteady(a, seen, t);
      RuleIsSteady(b, seen, t);
      assert DifferAt(a, b, from, to, seen);
    }
  }

  // ---------------------------------------------------------------- the store

  /** Never throws: a Redis command that does not take effect (`up` is false) is a miss or a no-op. */
  class Cache {
    const ttlSeconds: nat
    var keys: Keys

    constructor (ttlSeconds: nat)
      ensures this.ttlSeconds == ttlSeconds && keys == map[]
    {
      this.ttlSeconds := ttlSeconds;
      keys := map[];
    }

    method Find(code: string, now: Time, up: bool) returns (hit: Option<CachedEntry>)
      ensures hit == if up then Lookup(keys, code, now) else None
      ensures hit.Some? <==> up && code in keys && now < keys[code].deadline
      ensures hit.Some? ==> hit.value == keys[code].entry
    {
      if !up || code !in keys || keys[code].deadline <= now {
        return None;
      }
      return Some(keys[code].entry);
    }

    method Store(code: string, entry: CachedEntry, now: Time, up: bool)
      modifies this
      ensures keys == if up then Put(old(keys), code, entry, ttlSeconds, now) else old(keys)
      ensures up ==> keys == old(keys)[code := Slot(entry, now + (if entry.Url? then ttlSeconds else 60) * 1000)]
    {
      var ttl := if entry.Url? then ttlSeconds else NEGATIVE_TTL_SECONDS;
      if up {
        keys := keys[code := Slot(entry, now + ttl * 1000)];
      }
    }

    method Invalidate(code: string, up: bool)
      modifies this
      ensures keys == if up then old(keys) - {code} else old(keys)
    {
      if up {
        keys := keys - {code};
      }
    }
  }
}
