/**
 * The urls and guests tables with the statements over them (apps/api/src/repositories/url.repository.ts and
 * apps/api/src/auth/auth.repository.ts).
 *
 * The first part specifies the SQL on table values; the second part is the two repositories, which share one
 * database.
 */
module Urls {
  import opened Types

  type UserId = string

  /** A guest anchor: an opaque UUID, minted fresh. */
  datatype GuestId = Guest(value: nat)

  datatype UrlRecord = UrlRecord(
    id: RowId,
    shortCode: string,
    originalUrl: string,
    customAlias: Option<string>,
    userId: Option<UserId>,
    guestId: Option<GuestId>,
    expiresAt: Option<Time>,
    isActive: bool)

  datatype CreateUrlInput = CreateUrlInput(
    shortCode: string,
    originalUrl: string,
    customAlias: Option<string>,
    expiresAt: Option<Time>,
    userId: Option<UserId>,
    guestId: Option<GuestId>)

  /** None in a field means: leave the column unchanged. */
  datatype UpdateUrlPatch = UpdateUrlPatch(
    originalUrl: Option<string>,
    expiresAt: Option<Option<Time>>,
    isActive: Option<bool>)

  datatype DbError = ShortCodeTaken | AliasTaken | ForeignKey

  /** Ids start at 1. Ids below `nextId` and guests below `nextGuest` have been handed out. */
  datatype Db = Db(rows: map<RowId, UrlRecord>, nextId: RowId, guests: set<GuestId>, nextGuest: nat)

  ghost predicate RowOk(db: Db, id: RowId)
    requires id in db.rows
  {
    db.rows[id].id == id && 1 <= id < db.nextId
  }

  ghost predicate Valid(db: Db) {
    && 1 <= db.nextId
    && (forall id {:trigger RowOk(db, id)} | id in db.rows :: RowOk(db, id))
    && (forall i, j | i in db.rows && j in db.rows :: db.rows[i].shortCode == db.rows[j].shortCode ==> i == j)
    && (forall g <- db.guests :: g.value < db.nextGuest)
  }

  // ---------------------------------------------------------------- statements

  predicate CodeTaken(db: Db, code: string) {
    exists id <- db.rows :: db.rows[id].shortCode == code
  }

  predicate AliasInUse(db: Db, alias: string) {
    exists id <- db.rows :: db.rows[id].customAlias == Some(alias)
  }

  function RowOf(id: RowId, input: CreateUrlInput): UrlRecord {
    UrlRecord(id, input.shortCode, input.originalUrl, input.customAlias, input.userId, input.guestId, input.expiresAt, true)
  }

  /** INSERT: the sequence moves on even if a constraint rejects the row. */
  function Create(db: Db, input: CreateUrlInput): (Db, Result<UrlRecord, DbError>) {
    var moved := db.(nextId := db.nextId + 1);
    if CodeTaken(db, input.shortCode) then (moved, Err(ShortCodeTaken))
    else if input.customAlias.Some? && AliasInUse(db, input.customAlias.value) then (moved, Err(AliasTaken))
    else if input.guestId.Some? && input.guestId.value !in db.guests then (moved, Err(ForeignKey))
    else
      var row := RowOf(db.nextId, input);
      (moved.(rows := db.rows[db.nextId := row]), Ok(row))
  }

  /** The rows of a table with the given code, from id `from` on; there is at most one. */
  function FindFrom(db: Db, code: string, from: RowId): (found: Option<UrlRecord>)
    decreases db.nextId - from
  {
    if db.nextId <= from then None
    else if from in db.rows && db.rows[from].shortCode == code then Some(db.rows[from])
    else FindFrom(db, code, from + 1)
  }

  function FindByShortCode(db: Db, code: string): Option<UrlRecord> {
    FindFrom(db, code, 0)
  }

  predicate OwnedBy(row: UrlRecord, code: string, user: UserId) {
    row.shortCode == code && row.userId == Some(user)
  }

  function FindOwned(db: Db, code: string, user: UserId): Option<UrlRecord> {
    var found := FindByShortCode(db, code);
    if found.Some? && OwnedBy(found.value, code, user) then found else None
  }

  function Patched(row: UrlRecord, patch: UpdateUrlPatch): UrlRecord {
    row.(originalUrl := if patch.originalUrl.Some? then patch.originalUrl.value else row.originalUrl,
         expiresAt := if patch.expiresAt.Some? then patch.expiresAt.value else row.expiresAt,
         isActive := if patch.isActive.Some? then patch.isActive.value else row.isActive)
  }

  /** UPDATE … WHERE short_code = code AND user_id = user. */
  function Update(db: Db, code: string, patch: UpdateUrlPatch, user: UserId): Db {
    db.(rows := map id | id in db.rows ::
          if OwnedBy(db.rows[id], code, user) then Patched(db.rows[id], patch) else db.rows[id])
  }

  const DEACTIVATION: UpdateUrlPatch := UpdateUrlPatch(None, None, Some(false))

  /** The WHERE clause of a claim. */
  predicate Unclaimed(row: UrlRecord, guest: GuestId) {
    row.guestId == Some(guest) && row.userId == None
  }

  function Moved(row: UrlRecord, guest: GuestId, user: UserId): UrlRecord {
    if Unclaimed(row, guest) then row.(userId := Some(user), guestId := None) else row
  }

  function Claim(db: Db, guest: GuestId, user: UserId): Db {
    db.(rows := map id | id in db.rows :: Moved(db.rows[id], guest, user))
  }

  /** The codes a claim returns, from id `from` on. */
  function ClaimCodes(db: Db, guest: GuestId, from: RowId): seq<string>
    decreases db.nextId - from
  {
    if db.nextId <= from then []
    else
      (if from in db.rows && Unclaimed(db.rows[from], guest) then [db.rows[from].shortCode] else [])
      + ClaimCodes(db, guest, from + 1)
  }

  predicate Referenced(db: Db, guest: GuestId) {
    exists id <- db.rows :: db.rows[id].guestId == Some(guest)
  }

  function CreateGuest(db: Db): (Db, GuestId) {
    (db.(guests := db.guests + {Guest(db.nextGuest)}, nextGuest := db.nextGuest + 1), Guest(db.nextGuest))
  }

  /** DELETE of a guest fails while a link references it; an unknown guest deletes nothing. */
  function DeleteGuest(db: Db, guest: GuestId): (Db, Result<(), DbError>) {
    if guest in db.guests && Referenced(db, guest) then (db, Err(ForeignKey))
    else (db.(guests := db.guests - {guest}), Ok(()))
  }

  // ---------------------------------------------------------------- what the statements mean

  /** A lookup finds the row with the code if there is one. */
  lemma {:induction false} FindFromFinds(db: Db, code: string, from: RowId)
    requires Valid(db)
    ensures var found := FindFrom(db, code, from);
            && (found.Some? ==>
                  found.value.id in db.rows && db.rows[found.value.id] == found.value && found.value.shortCode == code)
            && (forall id <- db.rows :: from <= id && db.rows[id].shortCode == code ==> found == Some(db.rows[id]))
    decreases db.nextId - from
  {
    if from < db.nextId {
      FindFromFinds(db, code, from + 1);
      if from in db.rows {
        assert RowOk(db, from);
      }
    } else {
      IdsInUse(db);
    }
  }

  lemma FindFinds(db: Db, code: string)
    requires Valid(db)
    ensures var found := FindByShortCode(db, code);
            && (found.Some? <==> CodeTaken(db, code))
            && (found.Some? ==>
                  found.value.id in db.rows && db.rows[found.value.id] == found.value && found.value.shortCode == code)
            && (forall id <- db.rows :: db.rows[id].shortCode == code ==> found == Some(db.rows[id]))
  {
    FindFromFinds(db, code, 0);
  }

  lemma IdsInUse(db: Db)
    requires Valid(db)
    ensures forall id <- db.rows :: 1 <= id < db.nextId
  {
    forall id | id in db.rows ensures 1 <= id < db.nextId {
      assert RowOk(db, id);
    }
  }

  /** Codes stay unique whatever is created. */
  lemma CreateKeepsValid(db: Db, input: CreateUrlInput)
    requires Valid(db)
    ensures Valid(Create(db, input).0)
    ensures db.nextId !in db.rows
  {
    var db' := Create(db, input).0;
    IdsInUse(db);
    forall id | id in db'.rows ensures RowOk(db', id) {
      if id in db.rows {
        assert RowOk(db, id);
      }
    }
  }

  lemma UpdateKeepsValid(db: Db, code: string, patch: UpdateUrlPatch, user: UserId)
    requires Valid(db)
    ensures Valid(Update(db, code, patch, user))
  {
    var db' := Update(db, code, patch, user);
    forall id | id in db'.rows ensures RowOk(db', id) {
      assert RowOk(db, id);
    }
  }

  lemma ClaimKeepsValid(db: Db, guest: GuestId, user: UserId)
    requires Valid(db)
    ensures Valid(Claim(db, guest, user))
  {
    var db' := Claim(db, guest, user);
    forall id | id in db'.rows ensures RowOk(db', id) {
      assert RowOk(db, id);
    }
  }

  /** Some row from id `from` on is unclaimed by the guest and has the code. */
  ghost predicate Claimable(db: Db, guest: GuestId, from: RowId, code: string) {
    exists id <- db.rows :: from <= id && Unclaimed(db.rows[id], guest) && db.rows[id].shortCode == code
  }

  ghost predicate Distinct(codes: seq<string>) {
    forall i, j :: 0 <= i < j < |codes| ==> codes[i] != codes[j]
  }

  /** A claim returns the codes of exactly the rows it moves, each once. */
  lemma {:induction false} ClaimCodesAreUnclaimed(db: Db, guest: GuestId, from: RowId)
    requires Valid(db)
    ensures Distinct(ClaimCodes(db, guest, from))
    ensures forall c :: c in ClaimCodes(db, guest, from) <==> Claimable(db, guest, from, c)
    decreases db.nextId - from
  {
    if from < db.nextId {
      ClaimCodesAreUnclaimed(db, guest, from + 1);
      var codes, rest := ClaimCodes(db, guest, from), ClaimCodes(db, guest, from + 1);
      if from in db.rows && Unclaimed(db.rows[from], guest) {
        var c := db.rows[from].shortCode;
        assert codes == [c] + rest;
        assert !Claimable(db, guest, from + 1, c);
        assert c !in rest;
        assert forall d :: Claimable(db, guest, from, d) <==> d == c || Claimable(db, guest, from + 1, d);
      } else {
        assert codes == rest;
        assert forall d :: Claimable(db, guest, from, d) <==> Claimable(db, guest, from + 1, d);
      }
    } else {
      IdsInUse(db);
    }
  }

  // ---------------------------------------------------------------- the statements column by column

  /** What an insert may answer, and the row it adds. */
  ghost predicate Inserted(before: Db, after: Db, input: CreateUrlInput, r: Result<UrlRecord, DbError>) {
    var codeTaken := exists id <- before.rows :: before.rows[id].shortCode == input.shortCode;
    var aliasTaken := input.customAlias.Some? && exists id <- before.rows :: before.rows[id].customAlias == input.customAlias;
    var unknownGuest := input.guestId.Some? && input.guestId.value !in before.guests;
    && after.nextId == before.nextId + 1 && after.guests == before.guests && after.nextGuest == before.nextGuest
    && (r == Err(ShortCodeTaken) <==> codeTaken)
    && (r == Err(AliasTaken) <==> !codeTaken && aliasTaken)
    && (r == Err(ForeignKey) <==> !codeTaken && !aliasTaken && unknownGuest)
    && (r.Err? ==> after.rows == before.rows)
    && (r.Ok? ==>
          && r.value == UrlRecord(before.nextId, input.shortCode, input.originalUrl, input.customAlias, input.userId,
                                  input.guestId, input.expiresAt, true)
          && after.rows == before.rows[before.nextId := r.value])
  }

  /** A column given in the patch is what the row has afterwards; the others, and the row's identity, stay. */
  ghost predicate PatchApplied(before: UrlRecord, after: UrlRecord, patch: UpdateUrlPatch) {
    && (patch.originalUrl.Some? ==> after.originalUrl == patch.originalUrl.value)
    && (patch.originalUrl.None? ==> after.originalUrl == before.originalUrl)
    && (patch.expiresAt.Some? ==> after.expiresAt == patch.expiresAt.value)
    && (patch.expiresAt.None? ==> after.expiresAt == before.expiresAt)
    && (patch.isActive.Some? ==> after.isActive == patch.isActive.value)
    && (patch.isActive.None? ==> after.isActive == before.isActive)
    && after.id == before.id && after.shortCode == before.shortCode && after.customAlias == before.customAlias
    && after.userId == before.userId && after.guestId == before.guestId
  }

  /** The patch is applied to the user's row with the code and to no other. */
  ghost predicate Updated(before: map<RowId, UrlRecord>, after: map<RowId, UrlRecord>, code: string, patch: UpdateUrlPatch,
                          user: UserId)
  {
    && after.Keys == before.Keys
    && forall id <- before ::
         if before[id].shortCode == code && before[id].userId == Some(user) then PatchApplied(before[id], after[id], patch)
         else after[id] == before[id]
  }

  /** The row answered is the stored one, if the user has one with the code. */
  ghost predicate OwnRow(rows: map<RowId, UrlRecord>, code: string, user: UserId, row: Option<UrlRecord>) {
    && (row.Some? ==> row.value.id in rows && rows[row.value.id] == row.value
                      && row.value.shortCode == code && row.value.userId == Some(user))
    && (row.None? ==> forall id <- rows :: rows[id].shortCode == code ==> rows[id].userId != Some(user))
  }

  /** The guest's links without an owner, and only those, are the user's now; their codes are the answer. */
  ghost predicate Reassigned(before: map<RowId, UrlRecord>, after: map<RowId, UrlRecord>, guest: GuestId, user: UserId,
                             codes: seq<string>)
  {
    && after.Keys == before.Keys
    && (forall id <- before ::
          if before[id].guestId == Some(guest) && before[id].userId.None? then
            after[id] == before[id].(userId := Some(user), guestId := None)
          else
            after[id] == before[id])
    && (forall c :: c in codes <==>
          exists id <- before :: before[id].shortCode == c && before[id].guestId == Some(guest) && before[id].userId.None?)
    && forall i, j :: 0 <= i < j < |codes| ==> codes[i] != codes[j]
  }

  lemma CreateMeans(db: Db, input: CreateUrlInput)
    ensures Inserted(db, Create(db, input).0, input, Create(db, input).1)
  {
  }

  lemma UpdateMeans(db: Db, code: string, patch: UpdateUrlPatch, user: UserId)
    ensures Updated(db.rows, Update(db, code, patch, user).rows, code, patch, user)
  {
  }

  lemma FindOwnedMeans(db: Db, code: string, user: UserId)
    requires Valid(db)
    ensures OwnRow(db.rows, code, user, FindOwned(db, code, user))
  {
    FindFinds(db, code);
  }

  lemma ClaimMeans(db: Db, guest: GuestId, user: UserId)
    requires Valid(db)
    ensures Reassigned(db.rows, Claim(db, guest, user).rows, guest, user, ClaimCodes(db, guest, 0))
  {
    ClaimCodesAreUnclaimed(db, guest, 0);
    forall c
      ensures Claimable(db, guest, 0, c) <==>
        exists id <- db.rows :: db.rows[id].shortCode == c && db.rows[id].guestId == Some(guest) && db.rows[id].userId.None?
    {
      assert forall id <- db.rows :: Unclaimed(db.rows[id], guest) <==> db.rows[id].guestId == Some(guest) && db.rows[id].userId.None?;
    }
  }

  // ---------------------------------------------------------------- the repositories

  class Database {
    var rows: map<RowId, UrlRecord>
    var nextId: RowId
    var guests: set<GuestId>
    var nextGuest: nat

    ghost function State(): Db
      reads this
    {
      Db(rows, nextId, guests, nextGuest)
    }

    constructor ()
      ensures State() == Db(map[], 1, {}, 0)
    {
      rows, nextId, guests, nextGuest := map[], 1, {}, 0;
    }
  }

  class UrlRepository {
    const db: Database

    constructor (db: Database)
      ensures this.db == db
    {
      this.db := db;
    }

    method CreateUrl(input: CreateUrlInput) returns (r: Result<UrlRecord, DbError>)
      modifies db
      ensures (db.State(), r) == Create(old(db.State()), input)
      ensures Inserted(old(db.State()), db.State(), input, r)
    {
      CreateMeans(db.State(), input);
      var id := db.nextId;
      db.nextId := id + 1;
      if exists i <- db.rows :: db.rows[i].shortCode == input.shortCode {
        return Err(ShortCodeTaken);
      }
      if input.customAlias.Some? && exists i <- db.rows :: db.rows[i].customAlias == Some(input.customAlias.value) {
        return Err(AliasTaken);
      }
      if input.guestId.Some? && input.guestId.value !in db.guests {
        return Err(ForeignKey);
      }
      var row := RowOf(id, input);
      db.rows := db.rows[id := row];
      return Ok(row);
    }

    method FindCode(code: string) returns (found: Option<UrlRecord>)
      ensures found == FindByShortCode(db.State(), code)
      ensures Valid(db.State()) ==>
                && (found.Some? ==> found.value.id in db.rows && db.rows[found.value.id] == found.value
                                    && found.value.shortCode == code)
                && (found.None? ==> forall id <- db.rows :: db.rows[id].shortCode != code)
    {
      if Valid(db.State()) {
        FindFinds(db.State(), code);
      }
      var id := 0;
      while id < db.nextId
        invariant FindByShortCode(db.State(), code) == FindFrom(db.State(), code, id)
      {
        if id in db.rows && db.rows[id].shortCode == code {
          return Some(db.rows[id]);
        }
        id := id + 1;
      }
      return None;
    }

    method FindOwnedCode(code: string, user: UserId) returns (found: Option<UrlRecord>)
      ensures found == FindOwned(db.State(), code, user)
    {
      found := FindCode(code);
      if found.Some? && !OwnedBy(found.value, code, user) {
        found := None;
      }
    }

    /** An empty patch reads the row and writes nothing. */
    method UpdateUrl(code: string, patch: UpdateUrlPatch, user: UserId) returns (row: Option<UrlRecord>)
      requires Valid(db.State())
      modifies db
      ensures db.State() == Update(old(db.State()), code, patch, user) && Valid(db.State())
      ensures Updated(old(db.rows), db.rows, code, patch, user) && OwnRow(db.rows, code, user, row)
      ensures row == FindOwned(db.State(), code, user)
      ensures row.None? <==> FindOwned(old(db.State()), code, user).None?
    {
      ghost var before := db.State();
      var found := FindOwnedCode(code, user);
      UpdateKeepsValid(before, code, patch, user);
      UpdateMeans(before, code, patch, user);
      FindOwnedMeans(Update(before, code, patch, user), code, user);
      FindFinds(before, code);
      FindFinds(Update(before, code, patch, user), code);
      if found.None? {
        assert Update(before, code, patch, user).rows == before.rows;
        return None;
      }
      if patch == UpdateUrlPatch(None, None, None) {
        assert Update(before, code, patch, user).rows == before.rows;
        return found;
      }
      db.rows := db.rows[found.value.id := Patched(found.value, patch)];
      assert db.rows == Update(before, code, patch, user).rows;
      return Some(db.rows[found.value.id]);
    }

    method DeactivateUrl(code: string, user: UserId) returns (row: Option<UrlRecord>)
      requires Valid(db.State())
      modifies db
      ensures db.State() == Update(old(db.State()), code, DEACTIVATION, user) && Valid(db.State())
      ensures db.rows.Keys == old(db.rows).Keys && OwnRow(db.rows, code, user, row)
      ensures forall id <- old(db.rows) ::
                db.rows[id] == if old(db.rows)[id].shortCode == code && old(db.rows)[id].userId == Some(user)
                               then old(db.rows)[id].(isActive := false) else old(db.rows)[id]
      ensures row == FindOwned(db.State(), code, user)
      ensures row.None? <==> FindOwned(old(db.State()), code, user).None?
    {
      row := UpdateUrl(code, DEACTIVATION, user);
    }

    /** One UPDATE over the unclaimed rows of a guest, returning their codes. */
    method ClaimGuestLinks(guest: GuestId, user: UserId) returns (codes: seq<string>)
      requires Valid(db.State())
      modifies db`rows
      ensures db.State() == Claim(old(db.State()), guest, user)
      ensures codes == ClaimCodes(old(db.State()), guest, 0)
      ensures Reassigned(old(db.rows), db.rows, guest, user, codes)
    {
      ClaimMeans(db.State(), guest, user);
      var rows;
      rows, codes := MoveLinks(Db(db.rows, db.nextId, db.guests, db.nextGuest), guest, user);
      db.rows := rows;
    }
  }

  /** SET … WHERE … RETURNING, row by row. */
  method MoveLinks(db: Db, guest: GuestId, user: UserId) returns (rows: map<RowId, UrlRecord>, codes: seq<string>)
    requires Valid(db)
    ensures rows == Claim(db, guest, user).rows && codes == ClaimCodes(db, guest, 0)
  {
    rows, codes := db.rows, [];
    ClaimEnds(db, guest, user);
    for id := 0 to db.nextId
      invariant rows == ClaimBelow(db, guest, user, id)
      invariant ClaimCodes(db, guest, 0) == codes + ClaimCodes(db, guest, id)
    {
      ClaimNext(db, guest, user, id, rows);
      if id in rows && Unclaimed(rows[id], guest) {
        codes := codes + [rows[id].shortCode];
        rows := rows[id := rows[id].(userId := Some(user), guestId := None)];
      }
    }
  }

  /** A claim that has got as far as id n. */
  ghost function ClaimBelow(db: Db, guest: GuestId, user: UserId, n: RowId): map<RowId, UrlRecord> {
    map id | id in db.rows :: if id < n then Moved(db.rows[id], guest, user) else db.rows[id]
  }

  lemma ClaimNext(db: Db, guest: GuestId, user: UserId, n: RowId, done: map<RowId, UrlRecord>)
    requires done == ClaimBelow(db, guest, user, n) && n < db.nextId
    ensures ClaimBelow(db, guest, user, n + 1) ==
              if n in done && Unclaimed(done[n], guest) then done[n := done[n].(userId := Some(user), guestId := None)] else done
    ensures ClaimCodes(db, guest, n) ==
              (if n in done && Unclaimed(done[n], guest) then [done[n].shortCode] else []) + ClaimCodes(db, guest, n + 1)
  {
  }

  lemma ClaimEnds(db: Db, guest: GuestId, user: UserId)
    requires Valid(db)
    ensures ClaimBelow(db, guest, user, 0) == db.rows
    ensures ClaimBelow(db, guest, user, db.nextId) == Claim(db, guest, user).rows
    ensures ClaimCodes(db, guest, db.nextId) == []
  {
    IdsInUse(db);
  }

  class AuthRepository {
    const db: Database

    constructor (db: Database)
      ensures this.db == db
    {
      this.db := db;
    }

    method MintGuest() returns (guest: GuestId)
      modifies db
      ensures (db.State(), guest) == CreateGuest(old(db.State()))
      ensures db.rows == old(db.rows) && db.guests == old(db.guests) + {guest}
      ensures Valid(old(db.State())) ==> guest !in old(db.guests)
    {
      guest := Guest(db.nextGuest);
      db.guests := db.guests + {guest};
      db.nextGuest := db.nextGuest + 1;
    }

    method GuestExists(guest: GuestId) returns (known: bool)
      ensures known <==> guest in db.guests
    {
      known := guest in db.guests;
    }

    method RemoveGuest(guest: GuestId) returns (r: Result<(), DbError>)
      modifies db
      ensures (db.State(), r) == DeleteGuest(old(db.State()), guest)
      ensures r.Err? <==> guest in old(db.guests) && exists id <- old(db.rows) :: old(db.rows)[id].guestId == Some(guest)
      ensures db.rows == old(db.rows) && db.guests == if r.Ok? then old(db.guests) - {guest} else old(db.guests)
    {
      if guest in db.guests && exists id <- db.rows :: db.rows[id].guestId == Some(guest) {
        return Err(ForeignKey);
      }
      db.guests := db.guests - {guest};
      return Ok(());
    }
  }
}
