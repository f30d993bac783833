/**
 * Who owns a link, over every interleaving of guest creates and claims
 * (createGuestUrl and claimGuestLinks in apps/api/src/services/url.service.ts).
 *
 * A guest create checks or mints its anchor in one transaction and inserts the link in a later one. A claim moves
 * the links in one transaction and deletes the anchor in a later one, which the foreign key may refuse. Anything
 * may happen in between.
 */
module Ownership {
  import opened Types
  import opened Urls

  /** What a request under way will do next. */
  datatype Op = Minting | Inserting(anchor: GuestId, failures: nat) | Deleting(guest: GuestId)

  /** The answer of a committed claim. */
  datatype ClaimRecord = ClaimRecord(guest: GuestId, user: UserId, codes: seq<string>)

  /** `claims` is history. */
  datatype State = State(db: Db, ops: map<nat, Op>, claims: seq<ClaimRecord>)

  const MAX_RETRIES: nat := 5

  datatype Step =
    | CheckAnchor(op: nat, anchor: Option<GuestId>)
    | Mint(op: nat)
    | InsertGuestLink(op: nat, code: string, url: string, expiresAt: Option<Time>)
    | InsertOwnedLink(user: UserId, code: string, alias: Option<string>, url: string, expiresAt: Option<Time>)
    | ClaimLinks(op: nat, guest: GuestId, user: UserId)
    | DeleteAnchor(op: nat)
    | UpdateLink(code: string, patch: UpdateUrlPatch, user: UserId)
    | RequestDies(op: nat)

  predicate Enabled(s: State, step: Step) {
    match step
    case CheckAnchor(op, _) => op !in s.ops
    case Mint(op) => op in s.ops && s.ops[op].Minting?
    case InsertGuestLink(op, _, _, _) => op in s.ops && s.ops[op].Inserting?
    case InsertOwnedLink(_, _, _, _, _) => true
    case ClaimLinks(op, _, _) => op !in s.ops
    case DeleteAnchor(op) => op in s.ops && s.ops[op].Deleting?
    case UpdateLink(_, _, _) => true
    case RequestDies(op) => op in s.ops
  }

  function GuestInput(anchor: GuestId, code: string, url: string, expiresAt: Option<Time>): CreateUrlInput {
    CreateUrlInput(code, url, None, expiresAt, None, Some(anchor))
  }

  /** A taken code is tried again with another, a few times; anything else ends the request. */
  function AfterInsert(s: State, op: nat, db: Db, r: Result<UrlRecord, DbError>): State
    requires op in s.ops && s.ops[op].Inserting?
  {
    var o := s.ops[op];
    if r == Err(ShortCodeTaken) && o.failures + 1 < MAX_RETRIES then
      s.(db := db, ops := s.ops[op := o.(failures := o.failures + 1)])
    else
      s.(db := db, ops := s.ops - {op})
  }

  function Apply(s: State, step: Step): State
    requires Enabled(s, step)
  {
    match step
    case CheckAnchor(op, anchor) =>
      s.(ops := s.ops[op :=
           if anchor.Some? && anchor.value in s.db.guests then Inserting(anchor.value, 0) else Minting])
    case Mint(op) =>
      var (db, guest) := CreateGuest(s.db);
      s.(db := db, ops := s.ops[op := Inserting(guest, 0)])
    case InsertGuestLink(op, code, url, expiresAt) =>
      var (db, r) := Create(s.db, GuestInput(s.ops[op].anchor, code, url, expiresAt));
      AfterInsert(s, op, db, r)
    case InsertOwnedLink(user, code, alias, url, expiresAt) =>
      s.(db := Create(s.db, CreateUrlInput(code, url, alias, expiresAt, Some(user), None)).0)
    case ClaimLinks(op, guest, user) =>
      s.(db := Urls.Claim(s.db, guest, user),
         ops := s.ops[op := Deleting(guest)],
         claims := s.claims + [ClaimRecord(guest, user, ClaimCodes(s.db, guest, 0))])
    case DeleteAnchor(op) =>
      s.(db := DeleteGuest(s.db, s.ops[op].guest).0, ops := s.ops - {op})
    case UpdateLink(code, patch, user) => s.(db := Update(s.db, code, patch, user))
    case RequestDies(op) => s.(ops := s.ops - {op})
  }

  ghost predicate CanRun(s: State, run: seq<Step>)
    decreases |run|
  {
    run == [] || (Enabled(s, run[0]) && CanRun(Apply(s, run[0]), run[1..]))
  }

  ghost function Run(s: State, run: seq<Step>): State
    requires CanRun(s, run)
    decreases |run|
  {
    if run == [] then s else Run(Apply(s, run[0]), run[1..])
  }

  // ---------------------------------------------------------------- the invariant

  /** Ids below `legacy` are rows from before accounts and guests, which may have neither. */
  predicate RowAnchored(db: Db, legacy: RowId, id: RowId)
    requires id in db.rows
  {
    var row := db.rows[id];
    && (row.userId.None? || row.guestId.None?)
    && (row.userId.None? && row.guestId.None? ==> id < legacy)
    && (row.guestId.Some? ==> row.guestId.value in db.guests)
  }

  ghost predicate Anchored(db: Db, legacy: RowId) {
    && legacy <= db.nextId
    && forall id {:trigger RowAnchored(db, legacy, id)} | id in db.rows :: RowAnchored(db, legacy, id)
  }

  /** The user owns a link with this code. */
  ghost predicate Owns(db: Db, user: UserId, code: string) {
    exists id <- db.rows :: OwnedBy(db.rows[id], code, user)
  }

  ghost predicate Honoured(db: Db, claim: ClaimRecord) {
    forall c <- claim.codes :: Owns(db, claim.user, c)
  }

  ghost predicate Disjoint(a: seq<string>, b: seq<string>) {
    forall c <- a :: c !in b
  }

  ghost predicate ClaimsOk(db: Db, claims: seq<ClaimRecord>) {
    && (forall i {:trigger Honoured(db, claims[i])} | 0 <= i < |claims| :: Honoured(db, claims[i]))
    && (forall i, j {:trigger Disjoint(claims[i].codes, claims[j].codes)} | 0 <= i < j < |claims| ::
          Disjoint(claims[i].codes, claims[j].codes))
  }

  ghost predicate Inv(s: State, legacy: RowId) {
    Urls.Valid(s.db) && Anchored(s.db, legacy) && ClaimsOk(s.db, s.claims)
  }

  // ---------------------------------------------------------------- ownership only grows

  /** Links stay, keep their code, and keep their owner once they have one. */
  ghost predicate Keeps(before: Db, after: Db) {
    forall id <- before.rows ::
      && id in after.rows
      && after.rows[id].shortCode == before.rows[id].shortCode
      && (before.rows[id].userId.Some? ==> after.rows[id].userId == before.rows[id].userId)
  }

  lemma StepKeepsOwners(s: State, step: Step)
    requires Urls.Valid(s.db) && Enabled(s, step)
    ensures Keeps(s.db, Apply(s, step).db)
  {
    if step.InsertGuestLink? || step.InsertOwnedLink? {
      IdsInUse(s.db);
    }
  }

  lemma KeepsHonours(before: Db, after: Db, claims: seq<ClaimRecord>)
    requires Keeps(before, after) && ClaimsOk(before, claims)
    ensures ClaimsOk(after, claims)
  {
    forall i | 0 <= i < |claims| ensures Honoured(after, claims[i]) {
      assert Honoured(before, claims[i]);
      forall c <- claims[i].codes ensures Owns(after, claims[i].user, c) {
        assert Owns(before, claims[i].user, c);
        var id :| id in before.rows && OwnedBy(before.rows[id], c, claims[i].user);
        assert OwnedBy(after.rows[id], c, claims[i].user);
      }
    }
  }

  // ---------------------------------------------------------------- each statement

  lemma CreateKeepsAnchors(db: Db, legacy: RowId, input: CreateUrlInput)
    requires Urls.Valid(db) && Anchored(db, legacy) && input.userId.Some? != input.guestId.Some?
    ensures Anchored(Create(db, input).0, legacy)
  {
    IdsInUse(db);
    var db' := Create(db, input).0;
    forall id | id in db'.rows ensures RowAnchored(db', legacy, id) {
      if id in db.rows {
        assert RowAnchored(db, legacy, id);
      }
    }
  }

  lemma ClaimKeepsAnchors(db: Db, legacy: RowId, guest: GuestId, user: UserId)
    requires Anchored(db, legacy)
    ensures Anchored(Urls.Claim(db, guest, user), legacy)
  {
    var db' := Urls.Claim(db, guest, user);
    forall id | id in db'.rows ensures RowAnchored(db', legacy, id) {
      assert RowAnchored(db, legacy, id);
    }
  }

  lemma UpdateKeepsAnchors(db: Db, legacy: RowId, code: string, patch: UpdateUrlPatch, user: UserId)
    requires Anchored(db, legacy)
    ensures Anchored(Update(db, code, patch, user), legacy)
  {
    var db' := Update(db, code, patch, user);
    forall id | id in db'.rows ensures RowAnchored(db', legacy, id) {
      assert RowAnchored(db, legacy, id);
    }
  }

  lemma GuestsKeepAnchors(db: Db, legacy: RowId, guest: GuestId)
    requires Anchored(db, legacy)
    ensures Anchored(CreateGuest(db).0, legacy) && Anchored(DeleteGuest(db, guest).0, legacy)
  {
    forall id | id in db.rows
      ensures RowAnchored(CreateGuest(db).0, legacy, id) && RowAnchored(DeleteGuest(db, guest).0, legacy, id)
    {
      assert RowAnchored(db, legacy, id);
      assert db.rows[id].guestId == Some(guest) ==> Referenced(db, guest);
    }
  }

  /** A claim's codes are owned by its user afterwards, and by nobody before. */
  lemma ClaimIsHonoured(db: Db, guest: GuestId, user: UserId, code: string)
    requires Urls.Valid(db) && code in ClaimCodes(db, guest, 0)
    ensures Owns(Urls.Claim(db, guest, user), user, code)
    ensures forall u :: !Owns(db, u, code)
  {
    ClaimCodesAreUnclaimed(db, guest, 0);
    assert Claimable(db, guest, 0, code);
    var id :| id in db.rows && Unclaimed(db.rows[id], guest) && db.rows[id].shortCode == code;
    assert OwnedBy(Urls.Claim(db, guest, user).rows[id], code, user);
  }

  lemma ClaimKeepsClaims(s: State, guest: GuestId, user: UserId)
    requires Urls.Valid(s.db) && ClaimsOk(s.db, s.claims)
    ensures ClaimsOk(Urls.Claim(s.db, guest, user), s.claims + [ClaimRecord(guest, user, ClaimCodes(s.db, guest, 0))])
  {
    var db', last := Urls.Claim(s.db, guest, user), ClaimRecord(guest, user, ClaimCodes(s.db, guest, 0));
    var claims := s.claims + [last];
    KeepsHonours(s.db, db', s.claims);
    forall i | 0 <= i < |claims| ensures Honoured(db', claims[i]) {
      if i < |s.claims| {
        assert Honoured(db', s.claims[i]);
      } else {
        forall c <- last.codes ensures Owns(db', user, c) {
          ClaimIsHonoured(s.db, guest, user, c);
        }
      }
    }
    forall i, j | 0 <= i < j < |claims| ensures Disjoint(claims[i].codes, claims[j].codes) {
      if j < |s.claims| {
        assert Disjoint(s.claims[i].codes, s.claims[j].codes);
      } else {
        assert Honoured(s.db, s.claims[i]);
        forall c <- claims[i].codes ensures c !in last.codes {
          if c in last.codes {
            ClaimIsHonoured(s.db, guest, user, c);
          }
        }
      }
    }
  }

  // ---------------------------------------------------------------- every run

  lemma StepKeepsValid(s: State, step: Step)
    requires Urls.Valid(s.db) && Enabled(s, step)
    ensures Urls.Valid(Apply(s, step).db)
  {
    match step
    case Mint(_) => SameRowsValid(s.db, CreateGuest(s.db).0);
    case InsertGuestLink(op, code, url, expiresAt) =>
      CreateKeepsValid(s.db, GuestInput(s.ops[op].anchor, code, url, expiresAt));
    case InsertOwnedLink(user, code, alias, url, expiresAt) =>
      CreateKeepsValid(s.db, CreateUrlInput(code, url, alias, expiresAt, Some(user), None));
    case ClaimLinks(_, guest, user) => ClaimKeepsValid(s.db, guest, user);
    case DeleteAnchor(op) => SameRowsValid(s.db, DeleteGuest(s.db, s.ops[op].guest).0);
    case UpdateLink(code, patch, user) => UpdateKeepsValid(s.db, code, patch, user);
    case CheckAnchor(_, _) =>
    case RequestDies(_) =>
  }

  lemma StepKeepsAnchors(s: State, legacy: RowId, step: Step)
    requires Urls.Valid(s.db) && Anchored(s.db, legacy) && Enabled(s, step)
    ensures Anchored(Apply(s, step).db, legacy)
  {
    match step
    case Mint(_) => GuestsKeepAnchors(s.db, legacy, Guest(0));
    case InsertGuestLink(op, code, url, expiresAt) =>
      CreateKeepsAnchors(s.db, legacy, GuestInput(s.ops[op].anchor, code, url, expiresAt));
    case InsertOwnedLink(user, code, alias, url, expiresAt) =>
      CreateKeepsAnchors(s.db, legacy, CreateUrlInput(code, url, alias, expiresAt, Some(user), None));
    case ClaimLinks(_, guest, user) => ClaimKeepsAnchors(s.db, legacy, guest, user);
    case DeleteAnchor(op) => GuestsKeepAnchors(s.db, legacy, s.ops[op].guest);
    case UpdateLink(code, patch, user) => UpdateKeepsAnchors(s.db, legacy, code, patch, user);
    case CheckAnchor(_, _) =>
    case RequestDies(_) =>
  }

  lemma SameRowsValid(db: Db, db': Db)
    requires Urls.Valid(db) && db'.rows == db.rows && db'.nextId == db.nextId
    requires forall g <- db'.guests :: g.value < db'.nextGuest
    ensures Urls.Valid(db')
  {
    forall id | id in db'.rows ensures RowOk(db', id) {
      assert RowOk(db, id);
    }
  }

  lemma StepKeeps(s: State, legacy: RowId, step: Step)
    requires Inv(s, legacy) && Enabled(s, step)
    ensures Inv(Apply(s, step), legacy)
  {
    StepKeepsValid(s, step);
    StepKeepsAnchors(s, legacy, step);
    StepKeepsOwners(s, step);
    KeepsHonours(s.db, Apply(s, step).db, s.claims);
    if step.ClaimLinks? {
      ClaimKeepsClaims(s, step.guest, step.user);
    }
  }

  lemma {:induction false} RunKeeps(s: State, legacy: RowId, run: seq<Step>)
    requires Inv(s, legacy) && CanRun(s, run)
    ensures Inv(Run(s, run), legacy) && Keeps(s.db, Run(s, run).db)
    decreases |run|
  {
    if run != [] {
      StepKeeps(s, legacy, run[0]);
      StepKeepsOwners(s, run[0]);
      RunKeeps(Apply(s, run[0]), legacy, run[1..]);
      KeepsTransitive(s.db, Apply(s, run[0]).db, Run(s, run).db);
    }
  }

  lemma KeepsTransitive(a: Db, b: Db, c: Db)
    requires Keeps(a, b) && Keeps(b, c)
    ensures Keeps(a, c)
  {
  }

  // ---------------------------------------------------------------- main results

  /**
   * From a database where no link has both owners and no anchor dangles, after every run: a link never has both a
   * user and a guest, one created since then has exactly one of them, its guest exists, links keep their owner
   * once they have one, and no code was handed out by two claims.
   */
  lemma OwnershipOverEveryRun(s: State, run: seq<Step>, id: RowId, i: nat, j: nat)
    requires Urls.Valid(s.db) && Anchored(s.db, s.db.nextId) && s.claims == [] && CanRun(s, run)
    ensures var after := Run(s, run);
            && (id in after.db.rows ==>
                  && var row := after.db.rows[id];
                  && !(row.userId.Some? && row.guestId.Some?)
                  && (id >= s.db.nextId ==> row.userId.Some? || row.guestId.Some?)
                  && (row.guestId.Some? ==> row.guestId.value in after.db.guests))
            && (id in s.db.rows && s.db.rows[id].userId.Some? ==>
                  id in after.db.rows && after.db.rows[id].userId == s.db.rows[id].userId)
            && (i < j < |after.claims| ==> forall c <- after.claims[i].codes :: c !in after.claims[j].codes)
  {
    RunKeeps(s, s.db.nextId, run);
    var after := Run(s, run);
    if id in after.db.rows {
      assert RowAnchored(after.db, s.db.nextId, id);
    }
    if i < j < |after.claims| {
      assert Disjoint(after.claims[i].codes, after.claims[j].codes);
    }
  }

  /** A link gets an owner only by a claim of its own guest. */
  lemma OwnerComesFromClaim(s: State, step: Step, id: RowId)
    requires Urls.Valid(s.db) && Enabled(s, step) && id in s.db.rows && s.db.rows[id].userId.None?
    ensures id in Apply(s, step).db.rows
    ensures Apply(s, step).db.rows[id].userId.Some? ==>
              && step.ClaimLinks? && s.db.rows[id].guestId == Some(step.guest)
              && Apply(s, step).db.rows[id].userId == Some(step.user)
              && s.db.rows[id].shortCode in Apply(s, step).claims[|s.claims|].codes
  {
    IdsInUse(s.db);
    if step.ClaimLinks? && Unclaimed(s.db.rows[id], step.guest) {
      ClaimCodesAreUnclaimed(s.db, step.guest, 0);
      assert Claimable(s.db, step.guest, 0, s.db.rows[id].shortCode);
    }
  }

  ghost predicate NothingUnclaimed(db: Db, guest: GuestId) {
    forall id <- db.rows :: !Unclaimed(db.rows[id], guest)
  }

  lemma NothingToClaim(db: Db, guest: GuestId)
    requires Urls.Valid(db)
    ensures NothingUnclaimed(db, guest) <==> ClaimCodes(db, guest, 0) == []
  {
    ClaimCodesAreUnclaimed(db, guest, 0);
    if ClaimCodes(db, guest, 0) != [] {
      assert Claimable(db, guest, 0, ClaimCodes(db, guest, 0)[0]);
    }
    if !NothingUnclaimed(db, guest) {
      var id :| id in db.rows && Unclaimed(db.rows[id], guest);
      assert Claimable(db, guest, 0, db.rows[id].shortCode);
    }
  }

  /** The run inserts no link for the guest. */
  ghost predicate NoLinkFor(s: State, run: seq<Step>, guest: GuestId)
    requires CanRun(s, run)
    decreases |run|
  {
    run == []
    || (!(run[0].InsertGuestLink? && s.ops[run[0].op].anchor == guest) && NoLinkFor(Apply(s, run[0]), run[1..], guest))
  }

  lemma {:induction false} NothingAppears(s: State, run: seq<Step>, guest: GuestId)
    requires Urls.Valid(s.db) && CanRun(s, run) && NothingUnclaimed(s.db, guest)
    requires NoLinkFor(s, run, guest) || (guest !in s.db.guests && guest.value < s.db.nextGuest)
    ensures Urls.Valid(Run(s, run).db) && NothingUnclaimed(Run(s, run).db, guest)
    decreases |run|
  {
    if run != [] {
      StepKeepsValid(s, run[0]);
      NothingAppearsInStep(s, run[0], guest);
      NothingAppears(Apply(s, run[0]), run[1..], guest);
    }
  }

  lemma NothingAppearsInStep(s: State, step: Step, guest: GuestId)
    requires Enabled(s, step) && NothingUnclaimed(s.db, guest)
    requires !(step.InsertGuestLink? && s.ops[step.op].anchor == guest) || guest !in s.db.guests
    ensures NothingUnclaimed(Apply(s, step).db, guest)
    ensures guest !in s.db.guests && guest.value < s.db.nextGuest ==>
              guest !in Apply(s, step).db.guests && guest.value < Apply(s, step).db.nextGuest
  {
  }

  /** Claiming again returns nothing, whatever happened in between, unless a link was inserted for the guest. */
  lemma RepeatedClaimIsEmpty(s: State, op: nat, guest: GuestId, user: UserId, run: seq<Step>)
    requires Urls.Valid(s.db) && op !in s.ops
    requires CanRun(Apply(s, ClaimLinks(op, guest, user)), run) && NoLinkFor(Apply(s, ClaimLinks(op, guest, user)), run, guest)
    ensures ClaimCodes(Run(Apply(s, ClaimLinks(op, guest, user)), run).db, guest, 0) == []
  {
    var claimed := Apply(s, ClaimLinks(op, guest, user));
    ClaimKeepsValid(s.db, guest, user);
    NothingAppears(claimed, run, guest);
    NothingToClaim(Run(claimed, run).db, guest);
  }

  /** Once its anchor is deleted, a guest has nothing to claim ever again: a late insert fails on the foreign key. */
  lemma RetiredAnchorIsEmptyForever(s: State, legacy: RowId, op: nat, run: seq<Step>)
    requires Inv(s, legacy) && op in s.ops && s.ops[op].Deleting?
    requires s.ops[op].guest.value < s.db.nextGuest
    requires CanRun(Apply(s, DeleteAnchor(op)), run)
    requires DeleteGuest(s.db, s.ops[op].guest).1.Ok?
    ensures ClaimCodes(Run(Apply(s, DeleteAnchor(op)), run).db, s.ops[op].guest, 0) == []
  {
    var guest, after := s.ops[op].guest, Apply(s, DeleteAnchor(op));
    StepKeepsValid(s, DeleteAnchor(op));
    StepKeepsAnchors(s, legacy, DeleteAnchor(op));
    forall id <- after.db.rows ensures !Unclaimed(after.db.rows[id], guest) {
      assert RowAnchored(after.db, legacy, id);
    }
    NothingAppears(after, run, guest);
    NothingToClaim(Run(after, run).db, guest);
  }

  // ---------------------------------------------------------------- when a claim's deletion is refused

  /** The step commits a new link of the guest. */
  predicate LinkInserted(s: State, step: Step, guest: GuestId)
    requires Enabled(s, step)
  {
    && step.InsertGuestLink? && s.ops[step.op].anchor == guest
    && Create(s.db, GuestInput(guest, step.code, step.url, step.expiresAt)).1.Ok?
  }

  ghost predicate NoClaimOf(run: seq<Step>, guest: GuestId) {
    forall step <- run :: !(step.ClaimLinks? && step.guest == guest)
  }

  /** Somewhere along the run a link of the guest is committed that no later claim of the guest moves. */
  ghost predicate LinkLeftBehind(s: State, run: seq<Step>, guest: GuestId)
    requires CanRun(s, run)
    decreases |run|
  {
    run != []
    && ((LinkInserted(s, run[0], guest) && NoClaimOf(run[1..], guest)) || LinkLeftBehind(Apply(s, run[0]), run[1..], guest))
  }

  lemma ClaimLeavesNone(db: Db, legacy: RowId, guest: GuestId, user: UserId)
    requires Anchored(db, legacy)
    ensures !Referenced(Urls.Claim(db, guest, user), guest)
  {
    var db' := Urls.Claim(db, guest, user);
    forall id <- db'.rows ensures db'.rows[id].guestId != Some(guest) {
      assert RowAnchored(db, legacy, id);
    }
  }

  lemma InsertReferences(s: State, legacy: RowId, step: Step, guest: GuestId)
    requires Inv(s, legacy) && Enabled(s, step) && step.InsertGuestLink?
    ensures Referenced(Apply(s, step).db, guest) <==> Referenced(s.db, guest) || LinkInserted(s, step, guest)
  {
    IdsInUse(s.db);
    var db' := Apply(s, step).db;
    assert forall id <- s.db.rows :: id in db'.rows && db'.rows[id] == s.db.rows[id];
    if LinkInserted(s, step, guest) {
      assert db'.rows[s.db.nextId].guestId == Some(guest);
    }
  }

  lemma StepReferences(s: State, legacy: RowId, step: Step, guest: GuestId)
    requires Inv(s, legacy) && Enabled(s, step)
    ensures Referenced(Apply(s, step).db, guest) <==>
              !(step.ClaimLinks? && step.guest == guest) && (Referenced(s.db, guest) || LinkInserted(s, step, guest))
  {
    var db' := Apply(s, step).db;
    if step.InsertGuestLink? {
      InsertReferences(s, legacy, step, guest);
    } else if step.ClaimLinks? && step.guest == guest {
      ClaimLeavesNone(s.db, legacy, guest, step.user);
    } else {
      IdsInUse(s.db);
      assert forall id <- s.db.rows :: id in db'.rows && (db'.rows[id].guestId == Some(guest) <==> s.db.rows[id].guestId == Some(guest));
      assert forall id <- db'.rows :: id in s.db.rows || db'.rows[id].guestId.None?;
    }
  }

  lemma {:induction false} RunReferences(s: State, legacy: RowId, run: seq<Step>, guest: GuestId)
    requires Inv(s, legacy) && CanRun(s, run)
    ensures Referenced(Run(s, run).db, guest) <==>
              (Referenced(s.db, guest) && NoClaimOf(run, guest)) || LinkLeftBehind(s, run, guest)
    decreases |run|
  {
    if run != [] {
      StepKeeps(s, legacy, run[0]);
      StepReferences(s, legacy, run[0], guest);
      RunReferences(Apply(s, run[0]), legacy, run[1..], guest);
      assert run == [run[0]] + run[1..];
      assert NoClaimOf(run, guest) <==> !(run[0].ClaimLinks? && run[0].guest == guest) && NoClaimOf(run[1..], guest);
    }
  }

  /**
   * "The anchor is retired afterwards either way" with its exact condition: whatever happens between the claim's two
   * transactions, the foreign key refuses the deletion if and only if a create committed a link of the same guest in
   * between that no other claim of the guest has moved since. The claimed links belong to the user all the same.
   */
  lemma DeletionRefusedIff(s: State, legacy: RowId, op: nat, guest: GuestId, user: UserId, run: seq<Step>, code: string)
    requires Inv(s, legacy) && op !in s.ops
    requires CanRun(Apply(s, ClaimLinks(op, guest, user)), run)
    requires var after := Run(Apply(s, ClaimLinks(op, guest, user)), run);
             op in after.ops && after.ops[op] == Deleting(guest)
    ensures var claimed := Apply(s, ClaimLinks(op, guest, user));
            var after := Run(claimed, run);
            && (DeleteGuest(after.db, guest).1 == Err(ForeignKey) <==> LinkLeftBehind(claimed, run, guest))
            && (guest in Apply(after, DeleteAnchor(op)).db.guests <==> LinkLeftBehind(claimed, run, guest))
            && (code in ClaimCodes(s.db, guest, 0) ==> Owns(Apply(after, DeleteAnchor(op)).db, user, code))
  {
    var claimed := Apply(s, ClaimLinks(op, guest, user));
    var after := Run(claimed, run);
    StepKeeps(s, legacy, ClaimLinks(op, guest, user));
    ClaimLeavesNone(s.db, legacy, guest, user);
    RunReferences(claimed, legacy, run, guest);
    RunKeeps(claimed, legacy, run);
    ReferencedIsKnown(after.db, legacy, guest);
    if code in ClaimCodes(s.db, guest, 0) {
      ClaimIsHonoured(s.db, guest, user, code);
      var id :| id in claimed.db.rows && OwnedBy(claimed.db.rows[id], code, user);
      assert OwnedBy(after.db.rows[id], code, user);
    }
  }

  lemma ReferencedIsKnown(db: Db, legacy: RowId, guest: GuestId)
    requires Anchored(db, legacy)
    ensures Referenced(db, guest) ==> guest in db.guests
  {
    if id :| id in db.rows && db.rows[id].guestId == Some(guest) {
      assert RowAnchored(db, legacy, id);
    }
  }

  /** A create that has checked its anchor slips in between the claim and its deletion. */
  function SlippedIn(guest: GuestId, user: UserId, code: string, url: string): seq<Step> {
    [CheckAnchor(0, Some(guest)), ClaimLinks(1, guest, user), InsertGuestLink(0, code, url, None)]
  }

  lemma ThreeSteps(s: State, a: Step, s1: State, b: Step, s2: State, c: Step, s3: State)
    requires Enabled(s, a) && s1 == Apply(s, a) && Enabled(s1, b) && s2 == Apply(s1, b) && Enabled(s2, c) && s3 == Apply(s2, c)
    ensures CanRun(s, [a, b, c]) && Run(s, [a, b, c]) == s3
  {
    assert [a, b, c][1..] == [b, c] && [b, c][1..] == [c] && [c][1..] == [];
    assert CanRun(s3, []) && CanRun(s2, [c]) && CanRun(s1, [b, c]);
    assert Run(s2, [c]) == s3 && Run(s1, [b, c]) == s3;
  }

  /** The claim has moved the guest's links and handed out their codes, and then fails. */
  lemma ClaimFailsAfterMoving(s: State, guest: GuestId, user: UserId, code: string, url: string)
    requires Urls.Valid(s.db) && s.ops == map[] && guest in s.db.guests && !CodeTaken(s.db, code)
    ensures var run := SlippedIn(guest, user, code, url);
            && CanRun(s, run)
            && var after := Run(s, run);
            && after.claims == s.claims + [ClaimRecord(guest, user, ClaimCodes(s.db, guest, 0))]
            && Enabled(after, DeleteAnchor(1))
            && DeleteGuest(after.db, after.ops[1].guest).1 == Err(ForeignKey)
  {
    var s1 := s.(ops := map[0 := Inserting(guest, 0)]);
    var s2 := Apply(s1, ClaimLinks(1, guest, user));
    var s3 := Apply(s2, InsertGuestLink(0, code, url, None));
    IdsInUse(s.db);
    assert !CodeTaken(s2.db, code);
    assert s3.db.rows[s.db.nextId].guestId == Some(guest);
    ThreeSteps(s, CheckAnchor(0, Some(guest)), s1, ClaimLinks(1, guest, user), s2, InsertGuestLink(0, code, url, None), s3);
  }
}
