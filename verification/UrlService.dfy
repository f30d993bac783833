/**
 * The URL service over the table and the cache (apps/api/src/services/url.service.ts), one completed operation
 * after another. Module Staleness treats overlapping ones.
 */
module UrlService {
  import opened Types
  import opened Urls
  import opened UrlCache

  /** The database, the cache, and the clock they are read at. */
  datatype World = World(db: Db, keys: Keys, clock: Time)

  datatype ServiceError = AliasConflict | GuestAliasForbidden | AnchorGone | AnchorReferenced | Exhausted

  const MAX_RETRIES: nat := 5

  function LinkOf(found: Option<UrlRecord>): Option<Link> {
    match found
    case None => None
    case Some(row) => Some(Link(row.originalUrl, row.expiresAt, row.isActive))
  }

  /** The link behind a short code. */
  function LinkAt(db: Db, code: string): Option<Link> {
    LinkOf(FindByShortCode(db, code))
  }

  // ---------------------------------------------------------------- the operations

  function Invalidated(keys: Keys, code: string, up: bool): Keys {
    if up then keys - {code} else keys
  }

  /** Cache-aside resolution. A failed lookup is a miss, a failed store is ignored. */
  function Resolve(w: World, code: string, ttl: nat, lookupUp: bool, storeUp: bool): (World, Answer) {
    var hit := if lookupUp then Lookup(w.keys, code, w.clock) else None;
    match hit
    case Some(entry) => (w, FromCache(entry, w.clock))
    case None =>
      var link := LinkAt(w.db, code);
      (if storeUp then w.(keys := Put(w.keys, code, EntryOf(link, w.clock), ttl, w.clock)) else w,
       Rule(link, w.clock))
  }

  /** The retry loop over generated codes: only a taken code is tried again. */
  function CreateGenerated(w: World, input: CreateUrlInput, codes: seq<string>, up: bool)
    : (World, Result<UrlRecord, ServiceError>)
    decreases |codes|
  {
    if codes == [] then (w, Err(Exhausted))
    else
      var (db, r) := Create(w.db, input.(shortCode := codes[0], customAlias := None));
      match r
      case Ok(row) => (w.(db := db, keys := Invalidated(w.keys, row.shortCode, up)), Ok(row))
      case Err(e) =>
        if e == ShortCodeTaken then CreateGenerated(w.(db := db), input, codes[1..], up)
        else (w.(db := db), Err(AnchorGone))
  }

  /** With an alias, any conflict is on the alias. */
  function CreateAliased(w: World, input: CreateUrlInput, alias: string, up: bool)
    : (World, Result<UrlRecord, ServiceError>)
  {
    var (db, r) := Create(w.db, input.(shortCode := alias, customAlias := Some(alias)));
    match r
    case Ok(row) => (w.(db := db, keys := Invalidated(w.keys, alias, up)), Ok(row))
    case Err(_) => (w.(db := db), Err(AliasConflict))
  }

  /** An account create. `codes` are the random codes the retry loop would draw. */
  function CreateShortUrl(w: World, url: string, alias: Option<string>, expiresAt: Option<Time>, user: UserId,
                          codes: seq<string>, up: bool)
    : (World, Result<UrlRecord, ServiceError>)
  {
    var input := CreateUrlInput("", url, None, expiresAt, Some(user), None);
    if alias.Some? then CreateAliased(w, input, alias.value, up) else CreateGenerated(w, input, codes, up)
  }

  /** A guest create: an unknown or absent anchor is replaced by a new one, which the answer carries. */
  function CreateGuestUrl(w: World, url: string, alias: Option<string>, expiresAt: Option<Time>,
                          anchor: Option<GuestId>, codes: seq<string>, up: bool)
    : (World, Result<(UrlRecord, Option<GuestId>), ServiceError>)
  {
    if alias.Some? then (w, Err(GuestAliasForbidden))
    else
      var known := anchor.Some? && anchor.value in w.db.guests;
      var (db, guest) := if known then (w.db, anchor.value) else CreateGuest(w.db);
      var (w', r) := CreateGenerated(w.(db := db), CreateUrlInput("", url, None, expiresAt, None, Some(guest)), codes, up);
      match r
      case Ok(row) => (w', Ok((row, if known then None else Some(guest))))
      case Err(e) => (w', Err(e))
  }

  /** updateUrl, and with DEACTIVATION deactivateUrl: invalidate only when a row was written. */
  function UpdateUrl(w: World, code: string, patch: UpdateUrlPatch, user: UserId, up: bool): World {
    var db := Update(w.db, code, patch, user);
    w.(db := db, keys := if FindOwned(db, code, user).Some? then Invalidated(w.keys, code, up) else w.keys)
  }

  /** A claim moves owners only, so it leaves the cache alone. The anchor goes afterwards if nothing refers to it. */
  function ClaimLinks(w: World, guest: GuestId, user: UserId): World {
    w.(db := DeleteGuest(Urls.Claim(w.db, guest, user), guest).0)
  }

  // ---------------------------------------------------------------- what a create does

  /** The first code that is free, if one is. */
  ghost predicate FirstFree(db: Db, codes: seq<string>, code: string) {
    exists i :: 0 <= i < |codes| && codes[i] == code && !CodeTaken(db, code) && forall j :: 0 <= j < i ==> CodeTaken(db, codes[j])
  }

  /** One row with the first free code, and nothing else changed; or all codes were taken and no row is added. */
  lemma {:induction false} GeneratedOutcome(w: World, input: CreateUrlInput, codes: seq<string>, up: bool)
    requires Urls.Valid(w.db) && (input.guestId.Some? ==> input.guestId.value in w.db.guests)
    ensures var (w', r) := CreateGenerated(w, input, codes, up);
            && w'.db.guests == w.db.guests && w'.clock == w.clock
            && match r
               case Ok(row) =>
                 && FirstFree(w.db, codes, row.shortCode) && row.id !in w.db.rows
                 && row == RowOf(row.id, input.(shortCode := row.shortCode, customAlias := None))
                 && w'.db.rows == w.db.rows[row.id := row]
                 && w'.keys == Invalidated(w.keys, row.shortCode, up)
               case Err(e) =>
                 && e == Exhausted && (forall c <- codes :: CodeTaken(w.db, c))
                 && w'.db.rows == w.db.rows && w'.keys == w.keys
    decreases |codes|
  {
    if codes != [] {
      var attempt := input.(shortCode := codes[0], customAlias := None);
      CreateKeepsValid(w.db, attempt);
      if CodeTaken(w.db, codes[0]) {
        var next := w.(db := Create(w.db, attempt).0);
        GeneratedOutcome(next, input, codes[1..], up);
        var r := CreateGenerated(next, input, codes[1..], up).1;
        if r.Ok? {
          var i :| 0 <= i < |codes| - 1 && codes[1..][i] == r.value.shortCode && !CodeTaken(next.db, r.value.shortCode)
                && forall j :: 0 <= j < i ==> CodeTaken(next.db, codes[1..][j]);
          assert codes[i + 1] == r.value.shortCode;
          forall j | 0 <= j < i + 1 ensures CodeTaken(w.db, codes[j]) {
            assert j > 0 ==> CodeTaken(next.db, codes[1..][j - 1]);
          }
        } else {
          forall c <- codes ensures CodeTaken(w.db, c) {
            assert c == codes[0] || c in codes[1..];
          }
        }
      }
    }
  }

  /** An account's link belongs to the account; an alias is taken as the code, and refused exactly if it is in use. */
  lemma AccountOutcome(w: World, url: string, alias: Option<string>, expiresAt: Option<Time>, user: UserId,
                       codes: seq<string>, up: bool)
    requires Urls.Valid(w.db)
    ensures var (w', r) := CreateShortUrl(w, url, alias, expiresAt, user, codes, up);
            && (r.Ok? ==>
                  && var row := r.value;
                  && row == UrlRecord(row.id, row.shortCode, url, alias, Some(user), None, expiresAt, true)
                  && w'.db.rows == w.db.rows[row.id := row] && row.id !in w.db.rows
                  && (if alias.Some? then row.shortCode == alias.value else FirstFree(w.db, codes, row.shortCode)))
            && (r.Err? ==> w'.db.rows == w.db.rows)
            && (r == Err(AliasConflict) <==> alias.Some? && (CodeTaken(w.db, alias.value) || AliasInUse(w.db, alias.value)))
  {
    var input := CreateUrlInput("", url, None, expiresAt, Some(user), None);
    if alias.Some? {
      CreateKeepsValid(w.db, input.(shortCode := alias.value, customAlias := alias));
    } else {
      GeneratedOutcome(w, input, codes, up);
    }
  }

  /** A guest's link hangs on the anchor given if that is known, otherwise on a new one, which is then returned. */
  lemma GuestOutcome(w: World, url: string, alias: Option<string>, expiresAt: Option<Time>, anchor: Option<GuestId>,
                     codes: seq<string>, up: bool)
    requires Urls.Valid(w.db)
    ensures var (w', r) := CreateGuestUrl(w, url, alias, expiresAt, anchor, codes, up);
            && (r == Err(GuestAliasForbidden) <==> alias.Some?)
            && (r.Ok? ==>
                  && var (row, minted) := r.value;
                  && (minted.None? <==> anchor.Some? && anchor.value in w.db.guests)
                  && (minted.Some? ==> minted.value !in w.db.guests)
                  && var owner := if minted.Some? then minted else anchor;
                  && row == UrlRecord(row.id, row.shortCode, url, None, None, owner, expiresAt, true)
                  && owner.value in w'.db.guests
                  && FirstFree(w.db, codes, row.shortCode) && w'.db.rows == w.db.rows[row.id := row])
  {
    if alias.None? {
      var known := anchor.Some? && anchor.value in w.db.guests;
      var (db, guest) := if known then (w.db, anchor.value) else CreateGuest(w.db);
      if !known {
        GuestChangesNoLink(w.db, "");
      }
      GeneratedOutcome(w.(db := db), CreateUrlInput("", url, None, expiresAt, None, Some(guest)), codes, up);
      assert forall c :: CodeTaken(db, c) <==> CodeTaken(w.db, c);
    }
  }

  // ---------------------------------------------------------------- runs of completed operations

  datatype Operation =
    | CreateOp(url: string, alias: Option<string>, expiresAt: Option<Time>, user: UserId, codes: seq<string>, up: bool)
    | GuestCreateOp(url: string, alias: Option<string>, expiresAt: Option<Time>, anchor: Option<GuestId>,
                    codes: seq<string>, up: bool)
    | UpdateOp(code: string, patch: UpdateUrlPatch, user: UserId, up: bool)
    | ClaimOp(guest: GuestId, claimant: UserId)
    | ResolveOp(code: string, lookupUp: bool, storeUp: bool)
    | EvictOp(code: string)
    | TickOp(elapsed: nat)

  function Perform(w: World, op: Operation, ttl: nat): World {
    match op
    case CreateOp(url, alias, expiresAt, user, codes, up) => CreateShortUrl(w, url, alias, expiresAt, user, codes, up).0
    case GuestCreateOp(url, alias, expiresAt, anchor, codes, up) => CreateGuestUrl(w, url, alias, expiresAt, anchor, codes, up).0
    case UpdateOp(code, patch, user, up) => UpdateUrl(w, code, patch, user, up)
    case ClaimOp(guest, user) => ClaimLinks(w, guest, user)
    case ResolveOp(code, lookupUp, storeUp) => Resolve(w, code, ttl, lookupUp, storeUp).0
    case EvictOp(code) => w.(keys := w.keys - {code})
    case TickOp(elapsed) => w.(clock := w.clock + elapsed)
  }

  /** The answers to the resolutions of a run. */
  function Answers(w: World, run: seq<Operation>, ttl: nat): seq<Answer>
    decreases |run|
  {
    if run == [] then []
    else
      (if run[0].ResolveOp? then [Resolve(w, run[0].code, ttl, run[0].lookupUp, run[0].storeUp).1] else [])
      + Answers(Perform(w, run[0], ttl), run[1..], ttl)
  }

  /** The same run without a cache: every resolution asks the database. */
  function UncachedAnswers(w: World, run: seq<Operation>, ttl: nat): seq<Answer>
    decreases |run|
  {
    if run == [] then []
    else
      (if run[0].ResolveOp? then [Rule(LinkAt(w.db, run[0].code), w.clock)] else [])
      + UncachedAnswers(Perform(w, run[0], ttl).(keys := map[]), run[1..], ttl)
  }

  /** Every write's invalidation takes effect; lookups and stores may fail. */
  predicate Invalidates(op: Operation) {
    (op.CreateOp? || op.GuestCreateOp? || op.UpdateOp?) ==> op.up
  }

  // ---------------------------------------------------------------- the cache is invisible

  /** Whatever is cached and still live answers like the database, from now on. */
  ghost predicate SlotOk(w: World, code: string)
    requires code in w.keys
  {
    forall t {:trigger FromCache(w.keys[code].entry, t)} | w.clock <= t < w.keys[code].deadline ::
      FromCache(w.keys[code].entry, t) == Rule(LinkAt(w.db, code), t)
  }

  ghost predicate Faithful(w: World) {
    Urls.Valid(w.db) && forall code {:trigger SlotOk(w, code)} | code in w.keys :: SlotOk(w, code)
  }

  /** The two tables answer a code alike. */
  lemma SameLink(a: Db, b: Db, code: string)
    requires Urls.Valid(a) && Urls.Valid(b)
    requires forall id <- a.rows :: a.rows[id].shortCode == code ==>
               id in b.rows && b.rows[id].shortCode == code && LinkOf(Some(a.rows[id])) == LinkOf(Some(b.rows[id]))
    requires forall id <- b.rows :: b.rows[id].shortCode == code ==> id in a.rows && a.rows[id].shortCode == code
    ensures LinkAt(a, code) == LinkAt(b, code)
  {
    FindFinds(a, code);
    FindFinds(b, code);
  }

  /** Keys may go, the clock may advance, and links of codes that are still cached may not change. */
  lemma StillFaithful(w: World, w': World)
    requires Faithful(w) && Urls.Valid(w'.db) && w.clock <= w'.clock
    requires forall code <- w'.keys ::
               code in w.keys && w'.keys[code] == w.keys[code] && LinkAt(w'.db, code) == LinkAt(w.db, code)
    ensures Faithful(w')
  {
    forall code | code in w'.keys ensures SlotOk(w', code) {
      assert SlotOk(w, code);
    }
  }

  lemma CreateChangesOneCode(db: Db, input: CreateUrlInput, code: string)
    requires Urls.Valid(db)
    ensures var (db', r) := Create(db, input);
            Urls.Valid(db') && (r.Err? || code != input.shortCode ==> LinkAt(db', code) == LinkAt(db, code))
  {
    CreateKeepsValid(db, input);
    IdsInUse(db);
    var (db', r) := Create(db, input);
    if r.Err? || code != input.shortCode {
      SameLink(db, db', code);
    }
  }

  lemma UpdateChangesOneCode(db: Db, code: string, patch: UpdateUrlPatch, user: UserId, other: string)
    requires Urls.Valid(db)
    ensures var db' := Update(db, code, patch, user);
            Urls.Valid(db') && (other != code || FindOwned(db', code, user).None? ==> LinkAt(db', other) == LinkAt(db, other))
  {
    UpdateKeepsValid(db, code, patch, user);
    var db' := Update(db, code, patch, user);
    FindFinds(db', code);
    if other != code || FindOwned(db', code, user).None? {
      assert forall id <- db.rows :: OwnedBy(db.rows[id], code, user) ==> OwnedBy(db'.rows[id], code, user);
      SameLink(db, db', other);
    }
  }

  lemma ClaimChangesNoLink(db: Db, guest: GuestId, user: UserId, code: string)
    requires Urls.Valid(db)
    ensures var db' := DeleteGuest(Urls.Claim(db, guest, user), guest).0;
            Urls.Valid(db') && LinkAt(db', code) == LinkAt(db, code)
  {
    ClaimKeepsValid(db, guest, user);
    var claimed := Urls.Claim(db, guest, user);
    var db' := DeleteGuest(claimed, guest).0;
    forall id | id in db'.rows ensures RowOk(db', id) {
      assert RowOk(claimed, id);
    }
    SameLink(db, db', code);
  }

  lemma GuestChangesNoLink(db: Db, code: string)
    requires Urls.Valid(db)
    ensures Urls.Valid(CreateGuest(db).0) && LinkAt(CreateGuest(db).0, code) == LinkAt(db, code)
  {
    var db' := CreateGuest(db).0;
    forall id | id in db'.rows ensures RowOk(db', id) {
      assert RowOk(db, id);
    }
    SameLink(db, db', code);
  }

  // ---------------------------------------------------------------- each operation keeps the cache faithful

  lemma CreateOnceFaithful(w: World, input: CreateUrlInput)
    requires Faithful(w)
    ensures var (db, r) := Create(w.db, input);
            Faithful(w.(db := db, keys := if r.Ok? then w.keys - {input.shortCode} else w.keys))
  {
    var (db, r) := Create(w.db, input);
    var w' := w.(db := db, keys := if r.Ok? then w.keys - {input.shortCode} else w.keys);
    CreateChangesOneCode(w.db, input, input.shortCode);
    forall code <- w'.keys ensures LinkAt(w'.db, code) == LinkAt(w.db, code) {
      CreateChangesOneCode(w.db, input, code);
    }
    StillFaithful(w, w');
  }

  lemma {:induction false} CreateGeneratedFaithful(w: World, input: CreateUrlInput, codes: seq<string>)
    requires Faithful(w)
    ensures Faithful(CreateGenerated(w, input, codes, true).0)
    decreases |codes|
  {
    if codes != [] {
      var attempt := input.(shortCode := codes[0], customAlias := None);
      CreateOnceFaithful(w, attempt);
      var (db, r) := Create(w.db, attempt);
      if r == Err(ShortCodeTaken) {
        assert w.(db := db, keys := w.keys) == w.(db := db);
        CreateGeneratedFaithful(w.(db := db), input, codes[1..]);
      }
    }
  }

  lemma GuestCreateFaithful(w: World, url: string, expiresAt: Option<Time>, anchor: Option<GuestId>, codes: seq<string>)
    requires Faithful(w)
    ensures Faithful(CreateGuestUrl(w, url, None, expiresAt, anchor, codes, true).0)
  {
    var known := anchor.Some? && anchor.value in w.db.guests;
    var (db, guest) := if known then (w.db, anchor.value) else CreateGuest(w.db);
    if !known {
      GuestChangesNoLink(w.db, "");
      forall code <- w.keys ensures LinkAt(db, code) == LinkAt(w.db, code) {
        GuestChangesNoLink(w.db, code);
      }
    }
    StillFaithful(w, w.(db := db));
    CreateGeneratedFaithful(w.(db := db), CreateUrlInput("", url, None, expiresAt, None, Some(guest)), codes);
  }

  lemma UpdateFaithful(w: World, code: string, patch: UpdateUrlPatch, user: UserId)
    requires Faithful(w)
    ensures Faithful(UpdateUrl(w, code, patch, user, true))
  {
    var w' := UpdateUrl(w, code, patch, user, true);
    UpdateChangesOneCode(w.db, code, patch, user, code);
    forall c <- w'.keys ensures LinkAt(w'.db, c) == LinkAt(w.db, c) {
      UpdateChangesOneCode(w.db, code, patch, user, c);
    }
    StillFaithful(w, w');
  }

  lemma ClaimFaithful(w: World, guest: GuestId, user: UserId)
    requires Faithful(w)
    ensures Faithful(ClaimLinks(w, guest, user))
  {
    ClaimChangesNoLink(w.db, guest, user, "");
    forall c <- w.keys ensures LinkAt(ClaimLinks(w, guest, user).db, c) == LinkAt(w.db, c) {
      ClaimChangesNoLink(w.db, guest, user, c);
    }
    StillFaithful(w, ClaimLinks(w, guest, user));
  }

  /** A resolution answers like the database, and what it stores does too. */
  lemma ResolveFaithful(w: World, code: string, ttl: nat, lookupUp: bool, storeUp: bool)
    requires Faithful(w)
    ensures Faithful(Resolve(w, code, ttl, lookupUp, storeUp).0)
    ensures Resolve(w, code, ttl, lookupUp, storeUp).1 == Rule(LinkAt(w.db, code), w.clock)
  {
    if code in w.keys {
      assert SlotOk(w, code);
    }
    var w' := Resolve(w, code, ttl, lookupUp, storeUp).0;
    forall c | c in w'.keys ensures SlotOk(w', c) {
      if c in w.keys && w'.keys[c] == w.keys[c] {
        assert SlotOk(w, c);
      } else {
        var link := LinkAt(w.db, code);
        forall t | w.clock <= t ensures FromCache(w'.keys[c].entry, t) == Rule(link, t) {
          EntryAnswersLikeLink(link, w.clock, t);
        }
      }
    }
  }

  lemma PerformFaithful(w: World, op: Operation, ttl: nat)
    requires Faithful(w) && Invalidates(op)
    ensures Faithful(Perform(w, op, ttl))
  {
    match op
    case CreateOp(url, alias, expiresAt, user, codes, up) =>
      var input := CreateUrlInput("", url, None, expiresAt, Some(user), None);
      if alias.Some? {
        CreateOnceFaithful(w, input.(shortCode := alias.value, customAlias := Some(alias.value)));
      } else {
        CreateGeneratedFaithful(w, input, codes);
      }
    case GuestCreateOp(url, alias, expiresAt, anchor, codes, up) =>
      if alias.None? {
        GuestCreateFaithful(w, url, expiresAt, anchor, codes);
      }
    case UpdateOp(code, patch, user, up) => UpdateFaithful(w, code, patch, user);
    case ClaimOp(guest, user) => ClaimFaithful(w, guest, user);
    case ResolveOp(code, lookupUp, storeUp) => ResolveFaithful(w, code, ttl, lookupUp, storeUp);
    case EvictOp(code) => StillFaithful(w, w.(keys := w.keys - {code}));
    case TickOp(elapsed) => StillFaithful(w, w.(clock := w.clock + elapsed));
  }

  /** When nothing overlaps, a claim always retires its anchor: no row is left that refers to it. */
  lemma ClaimRetiresAnchor(w: World, guest: GuestId, user: UserId)
    requires forall id <- w.db.rows :: w.db.rows[id].userId.None? || w.db.rows[id].guestId.None?
    ensures guest !in ClaimLinks(w, guest, user).db.guests
    ensures forall id <- ClaimLinks(w, guest, user).db.rows :: ClaimLinks(w, guest, user).db.rows[id].guestId != Some(guest)
  {
    var claimed := Urls.Claim(w.db, guest, user);
    forall id | id in claimed.rows ensures claimed.rows[id].guestId != Some(guest) {
      assert w.db.rows[id].userId.None? || w.db.rows[id].guestId.None?;
    }
  }

  // ---------------------------------------------------------------- the uncached system does the same writes

  lemma {:induction false} CreateGeneratedIgnoresCache(w: World, keys: Keys, input: CreateUrlInput, codes: seq<string>, up: bool)
    ensures var (a, r) := CreateGenerated(w, input, codes, up);
            var (b, s) := CreateGenerated(w.(keys := keys), input, codes, up);
            a.db == b.db && a.clock == b.clock && r == s
    decreases |codes|
  {
    if codes != [] {
      var db := Create(w.db, input.(shortCode := codes[0], customAlias := None)).0;
      CreateGeneratedIgnoresCache(w.(db := db), keys, input, codes[1..], up);
    }
  }

  lemma PerformIgnoresCache(w: World, keys: Keys, op: Operation, ttl: nat)
    ensures var a, b := Perform(w, op, ttl), Perform(w.(keys := keys), op, ttl);
            a.db == b.db && a.clock == b.clock
  {
    if op.CreateOp? && op.alias.None? {
      CreateGeneratedIgnoresCache(w, keys, CreateUrlInput("", op.url, None, op.expiresAt, Some(op.user), None), op.codes, op.up);
    } else if op.GuestCreateOp? && op.alias.None? {
      var known := op.anchor.Some? && op.anchor.value in w.db.guests;
      var (db, guest) := if known then (w.db, op.anchor.value) else CreateGuest(w.db);
      var input := CreateUrlInput("", op.url, None, op.expiresAt, None, Some(guest));
      CreateGeneratedIgnoresCache(w.(db := db), keys, input, op.codes, op.up);
    }
  }

  /**
   * The cache is invisible: over every sequence of completed creates, guest creates, updates, deactivations,
   * claims, resolutions, evictions and clock steps whose invalidations take effect, every resolution answers
   * exactly as it would without a cache, including the reason a link is gone for.
   */
  lemma {:induction false} CacheIsTransparent(w: World, keys: Keys, run: seq<Operation>, ttl: nat)
    requires Faithful(w) && forall op <- run :: Invalidates(op)
    ensures Answers(w, run, ttl) == UncachedAnswers(w.(keys := keys), run, ttl)
    decreases |run|
  {
    if run != [] {
      var op := run[0];
      PerformFaithful(w, op, ttl);
      PerformIgnoresCache(w, keys, op, ttl);
      if op.ResolveOp? {
        ResolveFaithful(w, op.code, ttl, op.lookupUp, op.storeUp);
      }
      CacheIsTransparent(Perform(w, op, ttl), map[], run[1..], ttl);
      var next := Perform(w, op, ttl).(keys := map[]);
      assert next == Perform(w.(keys := keys), op, ttl).(keys := map[]);
    }
  }

  /**
   * The first resolution after an invalidated update answers by the row as patched: the columns given are in force
   * at once, whatever was cached before, and the others are those the row had.
   */
  lemma UpdateTakesEffect(w: World, code: string, patch: UpdateUrlPatch, user: UserId, ttl: nat, now: Time,
                          lookupUp: bool, storeUp: bool)
    requires Urls.Valid(w.db) && FindOwned(w.db, code, user).Some?
    ensures var row := FindOwned(w.db, code, user).value;
            var target := if patch.originalUrl.Some? then patch.originalUrl.value else row.originalUrl;
            var expiry := if patch.expiresAt.Some? then patch.expiresAt.value else row.expiresAt;
            var active := if patch.isActive.Some? then patch.isActive.value else row.isActive;
            var answer := Resolve(UpdateUrl(w, code, patch, user, true).(clock := now), code, ttl, lookupUp, storeUp).1;
            && (active && (expiry.None? || now < expiry.value) ==> answer == Redirect(target))
            && (active && expiry.Some? && expiry.value <= now ==> answer == GoneFor(Expired))
            && (!active ==> answer == GoneFor(Deactivated))
  {
    var db, row := Update(w.db, code, patch, user), FindOwned(w.db, code, user).value;
    UpdateKeepsValid(w.db, code, patch, user);
    UpdateMeans(w.db, code, patch, user);
    FindFinds(w.db, code);
    FindFinds(db, code);
    assert row.id in w.db.rows && PatchApplied(row, db.rows[row.id], patch);
    assert FindByShortCode(db, code) == Some(db.rows[row.id]);
  }

  // ---------------------------------------------------------------- exactly when it is invisible

  /** From this world on, every run whose invalidations take effect answers as it would without a cache. */
  ghost predicate Transparent(w: World, ttl: nat) {
    forall run: seq<Operation> {:trigger Answers(w, run, ttl)} | (forall op <- run :: Invalidates(op)) ::
      Answers(w, run, ttl) == UncachedAnswers(w.(keys := map[]), run, ttl)
  }

  /** Wait until t, then resolve. */
  lemma ResolveAt(w: World, code: string, t: Time, ttl: nat)
    requires w.clock <= t
    ensures var run := [TickOp(t - w.clock), ResolveOp(code, true, true)];
            && Answers(w, run, ttl) == [Resolve(w.(clock := t), code, ttl, true, true).1]
            && UncachedAnswers(w.(keys := map[]), run, ttl) == [Rule(LinkAt(w.db, code), t)]
  {
    var run := [TickOp(t - w.clock), ResolveOp(code, true, true)];
    assert run[1..] == [ResolveOp(code, true, true)] && run[1..][1..] == [];
    var next := Perform(w, run[0], ttl);
    assert Answers(w, run, ttl) == Answers(next, run[1..], ttl);
    assert Answers(next, run[1..], ttl) == [Resolve(next, code, ttl, true, true).1] + [];
    var bare := Perform(w.(keys := map[]), run[0], ttl).(keys := map[]);
    assert UncachedAnswers(w.(keys := map[]), run, ttl) == UncachedAnswers(bare, run[1..], ttl);
    assert UncachedAnswers(bare, run[1..], ttl) == [Rule(LinkAt(w.db, code), t)] + [];
  }

  /** The hypothesis of transparency is not just enough but needed: it is what a cache has to be for it. */
  lemma FaithfulIsExact(w: World, ttl: nat)
    requires Urls.Valid(w.db)
    ensures Transparent(w, ttl) <==> Faithful(w)
  {
    if Faithful(w) {
      forall run: seq<Operation> | forall op <- run :: Invalidates(op)
        ensures Answers(w, run, ttl) == UncachedAnswers(w.(keys := map[]), run, ttl)
      {
        CacheIsTransparent(w, map[], run, ttl);
      }
    } else {
      var code :| code in w.keys && !SlotOk(w, code);
      var t :| w.clock <= t < w.keys[code].deadline && FromCache(w.keys[code].entry, t) != Rule(LinkAt(w.db, code), t);
      ResolveAt(w, code, t, ttl);
      var run := [TickOp(t - w.clock), ResolveOp(code, true, true)];
      assert forall op <- run :: Invalidates(op);
      assert Answers(w, run, ttl) != UncachedAnswers(w.(keys := map[]), run, ttl);
    }
  }

  predicate Live(w: World, code: string) {
    code in w.keys && w.clock < w.keys[code].deadline
  }

  /** The key is live, and before it expires the two rows answer differently. */
  predicate Exposes(w: World, code: string, before: Option<Link>, after: Option<Link>) {
    Live(w, code) && SeenToDiffer(before, after, w.clock, w.keys[code].deadline - 1)
  }

  /** One code's row changes and its key stays. */
  lemma UninvalidatedChange(w: World, db: Db, code: string, ttl: nat)
    requires Faithful(w) && Urls.Valid(db)
    requires forall c {:trigger LinkAt(db, c)} :: c != code ==> LinkAt(db, c) == LinkAt(w.db, c)
    ensures Transparent(w.(db := db), ttl) <==> !Exposes(w, code, LinkAt(w.db, code), LinkAt(db, code))
  {
    var w' := w.(db := db);
    FaithfulIsExact(w', ttl);
    forall c | c in w.keys && c != code ensures SlotOk(w', c) {
      assert SlotOk(w, c);
    }
    if code in w.keys {
      assert SlotOk(w, code);
      DifferIsSeen(LinkAt(w.db, code), LinkAt(db, code), w.clock, w.keys[code].deadline - 1);
      if Exposes(w, code, LinkAt(w.db, code), LinkAt(db, code)) {
        var t :| w.clock <= t <= w.keys[code].deadline - 1 && Rule(LinkAt(w.db, code), t) != Rule(LinkAt(db, code), t);
        assert FromCache(w.keys[code].entry, t) != Rule(LinkAt(db, code), t);
        assert !SlotOk(w', code);
      } else {
        forall t | w.clock <= t < w.keys[code].deadline ensures FromCache(w.keys[code].entry, t) == Rule(LinkAt(db, code), t) {
          assert Rule(LinkAt(w.db, code), t) == Rule(LinkAt(db, code), t);
        }
        assert SlotOk(w', code);
      }
    }
  }

  /**
   * An update whose invalidation fails is harmless if and only if the code has no live key, or the old and the patched
   * row answer alike until that key expires; both can be told before the call.
   */
  lemma FailedInvalidationHarmlessIff(w: World, code: string, patch: UpdateUrlPatch, user: UserId, ttl: nat)
    requires Faithful(w) && FindOwned(w.db, code, user).Some?
    ensures var row := FindOwned(w.db, code, user).value;
            Transparent(UpdateUrl(w, code, patch, user, false), ttl)
            <==> !Exposes(w, code, LinkOf(Some(row)), LinkOf(Some(Patched(row, patch))))
  {
    var db := Update(w.db, code, patch, user);
    UpdateChangesOneCode(w.db, code, patch, user, code);
    forall c | c != code ensures LinkAt(db, c) == LinkAt(w.db, c) {
      UpdateChangesOneCode(w.db, code, patch, user, c);
    }
    UninvalidatedChange(w, db, code, ttl);
    FindFinds(w.db, code);
    FindFinds(db, code);
    var row := FindOwned(w.db, code, user).value;
    assert db.rows[row.id] == Patched(row, patch);
    assert UpdateUrl(w, code, patch, user, false) == w.(db := db);
  }

  /** For a deactivation: harmless if and only if no key is live or the link was inactive already. */
  lemma FailedDeactivationHarmlessIff(w: World, code: string, user: UserId, ttl: nat)
    requires Faithful(w) && FindOwned(w.db, code, user).Some?
    ensures Transparent(UpdateUrl(w, code, DEACTIVATION, user, false), ttl)
            <==> !Live(w, code) || !FindOwned(w.db, code, user).value.isActive
  {
    FailedInvalidationHarmlessIff(w, code, DEACTIVATION, user, ttl);
    var row := FindOwned(w.db, code, user).value;
    var before, after := LinkOf(Some(row)), LinkOf(Some(Patched(row, DEACTIVATION)));
    assert forall t :: Rule(after, t) == GoneFor(Deactivated);
    assert row.isActive ==> Rule(before, w.clock) != GoneFor(Deactivated);
    assert !row.isActive ==> forall t :: Rule(before, t) == GoneFor(Deactivated);
    if Live(w, code) && row.isActive {
      assert DifferAt(before, after, w.clock, w.keys[code].deadline - 1, w.clock);
    }
  }

  /** For a create under an alias: harmless if and only if no earlier miss of it is still cached. */
  lemma FailedCreateHarmlessIff(w: World, url: string, alias: string, expiresAt: Option<Time>, user: UserId, ttl: nat)
    requires Faithful(w) && !CodeTaken(w.db, alias) && !AliasInUse(w.db, alias)
    ensures Transparent(CreateShortUrl(w, url, Some(alias), expiresAt, user, [], false).0, ttl) <==> !Live(w, alias)
  {
    var input := CreateUrlInput(alias, url, Some(alias), expiresAt, Some(user), None);
    var (db, r) := Create(w.db, input);
    CreateKeepsValid(w.db, input);
    forall c | c != alias ensures LinkAt(db, c) == LinkAt(w.db, c) {
      CreateChangesOneCode(w.db, input, c);
    }
    UninvalidatedChange(w, db, alias, ttl);
    FindFinds(w.db, alias);
    FindFinds(db, alias);
    assert db.rows[w.db.nextId] == r.value;
    var after := LinkAt(db, alias);
    assert LinkAt(w.db, alias) == None && after.Some? && Rule(after, w.clock) != NotFound;
    if Live(w, alias) {
      assert DifferAt(None, after, w.clock, w.keys[alias].deadline - 1, w.clock);
    }
  }

  /** Without the hypothesis it fails: a deactivation whose invalidation fails leaves a live entry redirecting. */
  lemma FailedInvalidationShows(w: World, code: string, user: UserId, ttl: nat)
    requires Faithful(w) && FindOwned(w.db, code, user).Some?
    requires code in w.keys && w.clock < w.keys[code].deadline && FromCache(w.keys[code].entry, w.clock).Redirect?
    ensures var w' := UpdateUrl(w, code, DEACTIVATION, user, false);
            && Resolve(w', code, ttl, true, true).1.Redirect?
            && Rule(LinkAt(w'.db, code), w'.clock) == GoneFor(Deactivated)
  {
    var w' := UpdateUrl(w, code, DEACTIVATION, user, false);
    UpdateKeepsValid(w.db, code, DEACTIVATION, user);
    FindFinds(w.db, code);
    FindFinds(w'.db, code);
    var row := FindOwned(w.db, code, user).value;
    assert w'.db.rows[row.id] == row.(isActive := false);
  }

  const EMPTY: Db := Db(map[], 1, {}, 0)

  lemma FreshSystemIsTransparent(clock: Time, ttl: nat)
    ensures Transparent(World(EMPTY, map[], clock), ttl)
  {
    FaithfulIsExact(World(EMPTY, map[], clock), ttl);
  }

  /** Create, resolve, deactivate with Redis down, resolve. */
  function CreateAndDeactivate(url: string, alias: string, user: UserId): seq<Operation> {
    [CreateOp(url, Some(alias), None, user, [], true)]
    + ([ResolveOp(alias, true, true)] + ([UpdateOp(alias, DEACTIVATION, user, false)] + [ResolveOp(alias, true, true)]))
  }

  /** What the first three operations make of a fresh system. */
  lemma Deactivates(clock: Time, url: string, alias: string, user: UserId, ttl: nat) returns (w1: World, w2: World, w3: World)
    ensures var w, ops := World(EMPTY, map[], clock), CreateAndDeactivate(url, alias, user);
            w1 == Perform(w, ops[0], ttl) && w2 == Perform(w1, ops[1], ttl) && w3 == Perform(w2, ops[2], ttl)
    ensures w1.keys == map[] && w1.clock == w2.clock == w3.clock == clock
    ensures w2.keys == w3.keys == map[alias := Slot(Url(Link(url, None, true)), clock + ttl * 1000)]
    ensures LinkAt(w1.db, alias) == Some(Link(url, None, true)) && LinkAt(w3.db, alias) == Some(Link(url, None, false))
  {
    var row := UrlRecord(1, alias, url, Some(alias), Some(user), None, None, true);
    w1 := World(Db(map[1 := row], 2, {}, 0), map[], clock);
    w2 := w1.(keys := map[alias := Slot(Url(Link(url, None, true)), clock + ttl * 1000)]);
    w3 := w2.(db := Db(map[1 := row.(isActive := false)], 2, {}, 0));
    OneRowLink(w1.db, row);
    OneRowLink(w3.db, row.(isActive := false));
    assert Create(EMPTY, CreateUrlInput(alias, url, Some(alias), None, Some(user), None)) == (w1.db, Ok(row));
    assert Update(w2.db, alias, DEACTIVATION, user) == w3.db;
  }

  /** From a fresh system: the deactivated link redirects once more. */
  lemma DeactivatedLinkRedirects(clock: Time, url: string, alias: string, user: UserId, ttl: nat)
    requires ttl > 0
    ensures var w, run := World(EMPTY, map[], clock), CreateAndDeactivate(url, alias, user);
            && Answers(w, run, ttl) == [Redirect(url), Redirect(url)]
            && UncachedAnswers(w, run, ttl) == [Redirect(url), GoneFor(Deactivated)]
  {
    var w, ops := World(EMPTY, map[], clock), CreateAndDeactivate(url, alias, user);
    var w1, w2, w3 := Deactivates(clock, url, alias, user, ttl);
    AnswersFrom(w, ops[0], [ops[1]] + ([ops[2]] + [ops[3]]), ttl);
    AnswersFrom(w1, ops[1], [ops[2]] + [ops[3]], ttl);
    AnswersFrom(w2, ops[2], [ops[3]], ttl);
    AnswersFrom(w3, ops[3], [], ttl);
    assert [ops[3]] + [] == [ops[3]];
  }

  lemma OneRowLink(db: Db, row: UrlRecord)
    requires db == Db(map[1 := row], 2, {}, 0)
    ensures FindByShortCode(db, row.shortCode) == Some(row)
  {
    assert FindFrom(db, row.shortCode, 1) == Some(row);
  }

  lemma AnswersFrom(w: World, op: Operation, rest: seq<Operation>, ttl: nat)
    ensures Answers(w, [op] + rest, ttl)
            == (if op.ResolveOp? then [Resolve(w, op.code, ttl, op.lookupUp, op.storeUp).1] else [])
               + Answers(Perform(w, op, ttl), rest, ttl)
    ensures UncachedAnswers(w.(keys := map[]), [op] + rest, ttl)
            == (if op.ResolveOp? then [Rule(LinkAt(w.db, op.code), w.clock)] else [])
               + UncachedAnswers(Perform(w, op, ttl).(keys := map[]), rest, ttl)
  {
    assert ([op] + rest)[1..] == rest;
    PerformIgnoresCache(w, map[], op, ttl);
    var bare := Perform(w.(keys := map[]), op, ttl).(keys := map[]);
    assert bare == Perform(w, op, ttl).(keys := map[]);
  }

  // ---------------------------------------------------------------- a resolution case by case

  /** The answer for the columns of a link: inactive before expired before redirect; it expires at its time. */
  ghost predicate AnswersColumns(isActive: bool, expiresAt: Option<Time>, originalUrl: string, now: Time, answer: Answer) {
    && (!isActive ==> answer == GoneFor(Deactivated))
    && (isActive && expiresAt.Some? && expiresAt.value <= now ==> answer == GoneFor(Expired))
    && (isActive && (expiresAt.None? || now < expiresAt.value) ==> answer == Redirect(originalUrl))
  }

  ghost predicate AnswersHit(entry: CachedEntry, now: Time, answer: Answer) {
    match entry
    case Missing => answer == NotFound
    case Gone(reason) => answer == GoneFor(reason)
    case Url(link) => AnswersColumns(link.isActive, link.expiresAt, link.originalUrl, now, answer)
  }

  /** What a miss stores: the columns of a link that redirects, for the configured time, and the rest for a minute. */
  ghost predicate Stores(row: Option<UrlRecord>, answer: Answer, slot: Slot, ttlSeconds: nat, now: Time) {
    match answer
    case NotFound => slot == Slot(Missing, now + 60_000)
    case GoneFor(reason) => slot == Slot(Gone(reason), now + 60_000)
    case Redirect(_) =>
      row.Some? && slot == Slot(Url(Link(row.value.originalUrl, row.value.expiresAt, true)), now + ttlSeconds * 1000)
  }

  /** `row` is the row with the code, if there is one. */
  ghost predicate AnswersMiss(db: Db, code: string, row: Option<UrlRecord>, now: Time, answer: Answer) {
    && (row.None? ==> answer == NotFound && forall id <- db.rows :: db.rows[id].shortCode != code)
    && (row.Some? ==>
          && row.value.id in db.rows && db.rows[row.value.id] == row.value && row.value.shortCode == code
          && AnswersColumns(row.value.isActive, row.value.expiresAt, row.value.originalUrl, now, answer))
  }

  lemma ResolveMeans(w: World, code: string, ttl: nat, lookupUp: bool, storeUp: bool)
    ensures var (w', answer) := Resolve(w, code, ttl, lookupUp, storeUp);
            if lookupUp && code in w.keys && w.clock < w.keys[code].deadline then
              AnswersHit(w.keys[code].entry, w.clock, answer) && w' == w
            else
              && (Urls.Valid(w.db) ==> AnswersMiss(w.db, code, FindByShortCode(w.db, code), w.clock, answer))
              && w'.db == w.db && w'.clock == w.clock
              && (!storeUp ==> w'.keys == w.keys)
              && (storeUp ==>
                    && code in w'.keys && w'.keys == w.keys[code := w'.keys[code]]
                    && Stores(FindByShortCode(w.db, code), answer, w'.keys[code], ttl, w.clock))
  {
    if Urls.Valid(w.db) {
      FindFinds(w.db, code);
    }
  }

  // ---------------------------------------------------------------- the service

  class UrlService {
    const db: Database
    const repo: UrlRepository
    const guests: AuthRepository
    const cache: Cache

    ghost predicate Wired()
      reads this
    {
      repo.db == db && guests.db == db && cache as object != db as object
    }

    ghost function At(now: Time): World
      reads db, cache
    {
      World(db.State(), cache.keys, now)
    }

    constructor (db: Database, cache: Cache)
      requires cache as object != db as object
      ensures Wired() && this.db == db && this.cache == cache
    {
      this.db, this.cache := db, cache;
      repo := new UrlRepository(db);
      guests := new AuthRepository(db);
    }

    method ResolveUrl(code: string, now: Time, lookupUp: bool, storeUp: bool) returns (answer: Answer)
      requires Wired()
      modifies cache
      ensures (At(now), answer) == Resolve(old(At(now)), code, cache.ttlSeconds, lookupUp, storeUp)
      ensures if lookupUp && code in old(cache.keys) && now < old(cache.keys)[code].deadline then
                AnswersHit(old(cache.keys)[code].entry, now, answer) && cache.keys == old(cache.keys)
              else
                && (Urls.Valid(db.State()) ==>
                      AnswersMiss(db.State(), code, FindByShortCode(db.State(), code), now, answer))
                && (!storeUp ==> cache.keys == old(cache.keys))
                && (storeUp ==>
                      && code in cache.keys && cache.keys == old(cache.keys)[code := cache.keys[code]]
                      && Stores(FindByShortCode(db.State(), code), answer, cache.keys[code], cache.ttlSeconds, now))
    {
      ResolveMeans(At(now), code, cache.ttlSeconds, lookupUp, storeUp);
      var cached := cache.Find(code, now, lookupUp);
      if cached.Some? {
        return FromCache(cached.value, now);
      }
      var record := repo.FindCode(code);
      if record.None? {
        cache.Store(code, Missing, now, storeUp);
        return NotFound;
      }
      var row := record.value;
      if !row.isActive {
        cache.Store(code, Gone(Deactivated), now, storeUp);
        return GoneFor(Deactivated);
      }
      if row.expiresAt.Some? && row.expiresAt.value <= now {
        cache.Store(code, Gone(Expired), now, storeUp);
        return GoneFor(Expired);
      }
      cache.Store(code, Url(Link(row.originalUrl, row.expiresAt, row.isActive)), now, storeUp);
      return Redirect(row.originalUrl);
    }

    /** The retry loop both creates share. */
    method InsertWithGeneratedCode(input: CreateUrlInput, codes: seq<string>, ghost now: Time, up: bool)
      returns (r: Result<UrlRecord, ServiceError>)
      requires Wired()
      modifies db, cache
      ensures (At(now), r) == CreateGenerated(old(At(now)), input, codes, up)
    {
      ghost var before := At(now);
      for attempt := 0 to |codes|
        invariant CreateGenerated(before, input, codes, up) == CreateGenerated(At(now), input, codes[attempt..], up)
      {
        assert codes[attempt..][1..] == codes[attempt + 1..];
        var created := repo.CreateUrl(input.(shortCode := codes[attempt], customAlias := None));
        match created
        case Ok(row) =>
          cache.Invalidate(row.shortCode, up);
          return Ok(row);
        case Err(e) =>
          if e != ShortCodeTaken {
            return Err(AnchorGone);
          }
      }
      return Err(Exhausted);
    }

    method CreateShort(url: string, alias: Option<string>, expiresAt: Option<Time>, user: UserId,
                       codes: seq<string>, ghost now: Time, up: bool)
      returns (r: Result<UrlRecord, ServiceError>)
      requires Wired() && |codes| == MAX_RETRIES
      modifies db, cache
      ensures (At(now), r) == CreateShortUrl(old(At(now)), url, alias, expiresAt, user, codes, up)
    {
      if alias.Some? {
        var created := repo.CreateUrl(CreateUrlInput(alias.value, url, alias, expiresAt, Some(user), None));
        match created
        case Ok(row) =>
          cache.Invalidate(alias.value, up);
          return Ok(row);
        case Err(_) =>
          return Err(AliasConflict);
      }
      r := InsertWithGeneratedCode(CreateUrlInput("", url, None, expiresAt, Some(user), None), codes, now, up);
    }

    method CreateGuestShort(url: string, alias: Option<string>, expiresAt: Option<Time>, anchor: Option<GuestId>,
                            codes: seq<string>, ghost now: Time, up: bool)
      returns (r: Result<(UrlRecord, Option<GuestId>), ServiceError>)
      requires Wired() && |codes| == MAX_RETRIES
      modifies db, cache
      ensures (At(now), r) == CreateGuestUrl(old(At(now)), url, alias, expiresAt, anchor, codes, up)
    {
      if alias.Some? {
        return Err(GuestAliasForbidden);
      }
      var known := false;
      if anchor.Some? {
        known := guests.GuestExists(anchor.value);
      }
      var guest;
      if known {
        guest := anchor.value;
      } else {
        guest := guests.MintGuest();
      }
      var created := InsertWithGeneratedCode(CreateUrlInput("", url, None, expiresAt, None, Some(guest)), codes, now, up);
      match created
      case Ok(row) => return Ok((row, if known then None else Some(guest)));
      case Err(e) => return Err(e);
    }

    method UpdateLink(code: string, patch: UpdateUrlPatch, user: UserId, ghost now: Time, up: bool)
      returns (row: Option<UrlRecord>)
      requires Wired() && Urls.Valid(db.State())
      modifies db, cache
      ensures At(now) == UpdateUrl(old(At(now)), code, patch, user, up)
      ensures row == FindOwned(db.State(), code, user)
      ensures Updated(old(db.rows), db.rows, code, patch, user) && OwnRow(db.rows, code, user, row)
      ensures cache.keys == if row.Some? && up then old(cache.keys) - {code} else old(cache.keys)
    {
      row := repo.UpdateUrl(code, patch, user);
      if row.Some? {
        cache.Invalidate(code, up);
      }
    }

    method DeactivateLink(code: string, user: UserId, ghost now: Time, up: bool) returns (row: Option<UrlRecord>)
      requires Wired() && Urls.Valid(db.State())
      modifies db, cache
      ensures At(now) == UpdateUrl(old(At(now)), code, DEACTIVATION, user, up)
      ensures row == FindOwned(db.State(), code, user) && OwnRow(db.rows, code, user, row)
      ensures db.rows.Keys == old(db.rows).Keys && forall id <- old(db.rows) ::
                db.rows[id] == if old(db.rows)[id].shortCode == code && old(db.rows)[id].userId == Some(user)
                               then old(db.rows)[id].(isActive := false) else old(db.rows)[id]
      ensures cache.keys == if row.Some? && up then old(cache.keys) - {code} else old(cache.keys)
    {
      row := repo.DeactivateUrl(code, user);
      if row.Some? {
        cache.Invalidate(code, up);
      }
    }

    /** Returns what moved. If the anchor cannot be deleted the call fails, although the links have moved. */
    method ClaimGuest(guest: GuestId, user: UserId, ghost now: Time) returns (r: Result<seq<string>, ServiceError>)
      requires Wired() && Urls.Valid(db.State())
      modifies db
      ensures At(now) == ClaimLinks(old(At(now)), guest, user)
      ensures r == if guest in db.guests then Err(AnchorReferenced) else Ok(ClaimCodes(old(db.State()), guest, 0))
      ensures Reassigned(old(db.rows), db.rows, guest, user, ClaimCodes(old(db.State()), guest, 0))
      ensures r.Err? <==> guest in old(db.guests) && exists id <- db.rows :: db.rows[id].guestId == Some(guest)
    {
      var claimed := repo.ClaimGuestLinks(guest, user);
      var deleted := guests.RemoveGuest(guest);
      return if deleted.Err? then Err(AnchorReferenced) else Ok(claimed);
    }
  }
}
