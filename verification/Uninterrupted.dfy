/**
 * The models that take requests apart agree with the service when nothing comes in between: a guest create, an
 * account create, a claim and a resolution, run step after step, do to the tables and the cache what module UrlService
 * says of the whole request. So what those models prove of all interleavings is about the service's own requests.
 */
module Uninterrupted {
  import opened Types
  import opened Urls
  import Ownership
  import Staleness
  import UrlCache
  import UrlService

  // ---------------------------------------------------------------- creates and claims

  type OwnershipStep = Ownership.Step

  lemma Then(s: Ownership.State, step: OwnershipStep, rest: seq<OwnershipStep>)
    requires Ownership.Enabled(s, step) && Ownership.CanRun(Ownership.Apply(s, step), rest)
    ensures Ownership.CanRun(s, [step] + rest)
    ensures Ownership.Run(s, [step] + rest) == Ownership.Run(Ownership.Apply(s, step), rest)
  {
    assert ([step] + rest)[1..] == rest;
  }

  /** The retry loop of a guest create: a taken code is followed by the next, and after five of them the request ends. */
  lemma {:induction false} GuestAttempts(s: Ownership.State, op: nat, anchor: GuestId, failures: nat, w: UrlService.World,
                                         url: string, expiresAt: Option<Time>, codes: seq<string>, up: bool)
    returns (run: seq<OwnershipStep>)
    requires op in s.ops && s.ops[op] == Ownership.Inserting(anchor, failures) && failures + |codes| == 5 && codes != []
    requires w.db == s.db
    ensures Ownership.CanRun(s, run)
    ensures var input := CreateUrlInput("", url, None, expiresAt, None, Some(anchor));
            Ownership.Run(s, run) == s.(db := UrlService.CreateGenerated(w, input, codes, up).0.db, ops := s.ops - {op})
    decreases |codes|
  {
    var step := Ownership.InsertGuestLink(op, codes[0], url, expiresAt);
    var input := CreateUrlInput("", url, None, expiresAt, None, Some(anchor));
    var attempt := Ownership.GuestInput(anchor, codes[0], url, expiresAt);
    assert attempt == input.(shortCode := codes[0], customAlias := None);
    var (db, r) := Create(s.db, attempt);
    var next := Ownership.Apply(s, step);
    if r == Err(ShortCodeTaken) && |codes| > 1 {
      var rest := GuestAttempts(next, op, anchor, failures + 1, w.(db := db), url, expiresAt, codes[1..], up);
      assert next.ops - {op} == s.ops - {op};
      Then(s, step, rest);
      run := [step] + rest;
    } else {
      assert codes[1..] == [] || r != Err(ShortCodeTaken);
      assert next == s.(db := db, ops := s.ops - {op});
      Then(s, step, []);
      run := [step] + [];
    }
  }

  /** A guest create: the anchor is checked or replaced in one transaction, the link inserted in later ones. */
  lemma UninterruptedGuestCreate(s: Ownership.State, op: nat, w: UrlService.World, url: string, expiresAt: Option<Time>,
                                 anchor: Option<GuestId>, codes: seq<string>, up: bool)
    returns (run: seq<OwnershipStep>)
    requires op !in s.ops && w.db == s.db && |codes| == 5
    ensures Ownership.CanRun(s, run)
    ensures Ownership.Run(s, run) == s.(db := UrlService.CreateGuestUrl(w, url, None, expiresAt, anchor, codes, up).0.db)
  {
    var check := Ownership.CheckAnchor(op, anchor);
    var checked := Ownership.Apply(s, check);
    if anchor.Some? && anchor.value in s.db.guests {
      var rest := GuestAttempts(checked, op, anchor.value, 0, w, url, expiresAt, codes, up);
      assert checked.ops - {op} == s.ops;
      Then(s, check, rest);
      run := [check] + rest;
    } else {
      var mint := Ownership.Mint(op);
      var (db, guest) := CreateGuest(s.db);
      var minted := Ownership.Apply(checked, mint);
      var rest := GuestAttempts(minted, op, guest, 0, w.(db := db), url, expiresAt, codes, up);
      assert minted.ops - {op} == s.ops;
      Then(checked, mint, rest);
      Then(s, check, [mint] + rest);
      run := [check] + ([mint] + rest);
    }
  }

  /** An account create, under an alias or with generated codes. */
  lemma {:induction false} AccountAttempts(s: Ownership.State, user: UserId, w: UrlService.World, url: string,
                                           expiresAt: Option<Time>, codes: seq<string>, up: bool)
    returns (run: seq<OwnershipStep>)
    requires w.db == s.db
    ensures Ownership.CanRun(s, run)
    ensures var input := CreateUrlInput("", url, None, expiresAt, Some(user), None);
            Ownership.Run(s, run) == s.(db := UrlService.CreateGenerated(w, input, codes, up).0.db)
    decreases |codes|
  {
    if codes == [] {
      run := [];
    } else {
      var step := Ownership.InsertOwnedLink(user, codes[0], None, url, expiresAt);
      var input := CreateUrlInput("", url, None, expiresAt, Some(user), None);
      var attempt := CreateUrlInput(codes[0], url, None, expiresAt, Some(user), None);
      assert attempt == input.(shortCode := codes[0], customAlias := None);
      var (db, r) := Create(s.db, attempt);
      var next := Ownership.Apply(s, step);
      var rest := [];
      if r == Err(ShortCodeTaken) {
        rest := AccountAttempts(next, user, w.(db := db), url, expiresAt, codes[1..], up);
      }
      Then(s, step, rest);
      run := [step] + rest;
    }
  }

  lemma UninterruptedCreate(s: Ownership.State, user: UserId, w: UrlService.World, url: string, alias: Option<string>,
                            expiresAt: Option<Time>, codes: seq<string>, up: bool)
    returns (run: seq<OwnershipStep>)
    requires w.db == s.db
    ensures Ownership.CanRun(s, run)
    ensures Ownership.Run(s, run) == s.(db := UrlService.CreateShortUrl(w, url, alias, expiresAt, user, codes, up).0.db)
  {
    if alias.Some? {
      var step := Ownership.InsertOwnedLink(user, alias.value, alias, url, expiresAt);
      Then(s, step, []);
      run := [step] + [];
    } else {
      run := AccountAttempts(s, user, w, url, expiresAt, codes, up);
    }
  }

  /** A claim: the links move and their codes are recorded, then the anchor goes if nothing refers to it. */
  lemma UninterruptedClaim(s: Ownership.State, op: nat, w: UrlService.World, guest: GuestId, user: UserId)
    requires op !in s.ops && w.db == s.db
    ensures var run := [Ownership.ClaimLinks(op, guest, user)] + ([Ownership.DeleteAnchor(op)] + []);
            && Ownership.CanRun(s, run)
            && Ownership.Run(s, run) ==
                 s.(db := UrlService.ClaimLinks(w, guest, user).db,
                    claims := s.claims + [Ownership.ClaimRecord(guest, user, ClaimCodes(s.db, guest, 0))])
  {
    var claim, delete := Ownership.ClaimLinks(op, guest, user), Ownership.DeleteAnchor(op);
    var claimed := Ownership.Apply(s, claim);
    assert claimed.ops - {op} == s.ops;
    Then(claimed, delete, []);
    Then(s, claim, [delete] + []);
  }

  /** An update or a deactivation is one statement; a request that dies leaves the tables as they are. */
  lemma UninterruptedRest(s: Ownership.State, op: nat, w: UrlService.World, code: string, patch: UpdateUrlPatch, user: UserId,
                          up: bool)
    requires w.db == s.db
    ensures Ownership.Enabled(s, Ownership.UpdateLink(code, patch, user))
    ensures Ownership.Apply(s, Ownership.UpdateLink(code, patch, user))
         == s.(db := UrlService.UpdateUrl(w, code, patch, user, up).db)
    ensures op in s.ops ==> Ownership.Enabled(s, Ownership.RequestDies(op))
                            && Ownership.Apply(s, Ownership.RequestDies(op)) == s.(ops := s.ops - {op})
  {
  }

  /** Every guest create makes at most five inserts, however it is interleaved with others. */
  lemma {:induction false} AtMostFiveInserts(s: Ownership.State, run: seq<OwnershipStep>)
    requires Ownership.CanRun(s, run) && forall op <- s.ops :: s.ops[op].Inserting? ==> s.ops[op].failures < 5
    ensures forall op <- Ownership.Run(s, run).ops ::
              Ownership.Run(s, run).ops[op].Inserting? ==> Ownership.Run(s, run).ops[op].failures < 5
    decreases |run|
  {
    if run != [] {
      AtMostFiveInserts(Ownership.Apply(s, run[0]), run[1..]);
    }
  }

  // ---------------------------------------------------------------- resolutions

  type StalenessStep = Staleness.Step

  /** The two models are about the same row, key and time. */
  ghost predicate SameCode(s: Staleness.State, w: UrlService.World, code: string) {
    && s.versions != [] && Staleness.Current(s) == UrlService.LinkAt(w.db, code) && s.clock == w.clock
    && (s.slot.Some? <==> code in w.keys)
    && (s.slot.Some? ==> w.keys[code] == UrlCache.Slot(s.slot.value.entry, s.slot.value.deadline))
  }

  lemma FourSteps(s: Staleness.State, a: StalenessStep, s1: Staleness.State, b: StalenessStep, s2: Staleness.State,
                  c: StalenessStep, s3: Staleness.State, d: StalenessStep, s4: Staleness.State)
    requires s.versions != [] && s1.versions != [] && s2.versions != [] && s3.versions != []
    requires Staleness.Enabled(s, a) && s1 == Staleness.Apply(s, a) && Staleness.Enabled(s1, b) && s2 == Staleness.Apply(s1, b)
    requires Staleness.Enabled(s2, c) && s3 == Staleness.Apply(s2, c) && Staleness.Enabled(s3, d) && s4 == Staleness.Apply(s3, d)
    ensures var run := [a] + ([b] + ([c] + ([d] + []))); Staleness.CanRun(s, run) && Staleness.Run(s, run) == s4
  {
    Staleness.Then(s3, d, s4, []);
    Staleness.Then(s2, c, s3, [d] + []);
    Staleness.Then(s1, b, s2, [c] + ([d] + []));
    Staleness.Then(s, a, s1, [b] + ([c] + ([d] + [])));
  }

  /** A look-up that finds the key live and Redis up answers by it. */
  lemma UninterruptedHit(s: Staleness.State, r: nat, w: UrlService.World, code: string, storeUp: bool)
    requires SameCode(s, w, code) && r !in s.readers && s.slot.Some? && s.clock < s.slot.value.deadline
    ensures var run := [Staleness.LookUp(r, true)] + ([Staleness.AnswerHit(r)] + []);
            && Staleness.CanRun(s, run)
            && var q := Staleness.Run(s, run);
            var (w', answer) := UrlService.Resolve(w, code, s.ttlSeconds, true, storeUp);
            && SameCode(q, w', code) && q.readers == s.readers && q.versions == s.versions
            && |q.given| == |s.given| + 1 && s.given <= q.given
            && q.given[|s.given|].answer == answer && q.given[|s.given|].at == w.clock && q.given[|s.given|].cached
  {
    var look, answer := Staleness.LookUp(r, true), Staleness.AnswerHit(r);
    var s1 := Staleness.Apply(s, look);
    var s2 := Staleness.Apply(s1, answer);
    assert s1.readers - {r} == s.readers;
    Staleness.Then(s1, answer, s2, []);
    Staleness.Then(s, look, s1, [answer] + []);
  }

  /** Otherwise the row is read, evaluated, answered and, if Redis is up, stored. */
  lemma UninterruptedMiss(s: Staleness.State, r: nat, w: UrlService.World, code: string, lookupUp: bool, storeUp: bool)
    requires SameCode(s, w, code) && r !in s.readers
    requires !lookupUp || s.slot.None? || s.slot.value.deadline <= s.clock
    ensures var run := [Staleness.LookUp(r, lookupUp)]
                       + ([Staleness.Read(r)] + ([Staleness.Evaluate(r)] + ([Staleness.Store(r, storeUp)] + [])));
            && Staleness.CanRun(s, run)
            && var q := Staleness.Run(s, run);
            var (w', answer) := UrlService.Resolve(w, code, s.ttlSeconds, lookupUp, storeUp);
            && SameCode(q, w', code) && q.readers == s.readers && q.versions == s.versions
            && |q.given| == |s.given| + 1 && s.given <= q.given
            && q.given[|s.given|].answer == answer && q.given[|s.given|].at == w.clock && !q.given[|s.given|].cached
  {
    var look, read := Staleness.LookUp(r, lookupUp), Staleness.Read(r);
    var evaluate, store := Staleness.Evaluate(r), Staleness.Store(r, storeUp);
    var s1 := Staleness.Apply(s, look);
    var s2 := Staleness.Apply(s1, read);
    var s3 := Staleness.Apply(s2, evaluate);
    var s4 := Staleness.Apply(s3, store);
    assert s3.readers - {r} == s.readers;
    FourSteps(s, look, s1, read, s2, evaluate, s3, store, s4);
  }

  /** The write and the invalidation of an update, with Redis up, are those of the service. */
  lemma UninterruptedUpdate(s: Staleness.State, w: UrlService.World, code: string, patch: UpdateUrlPatch, user: UserId)
    requires SameCode(s, w, code) && Urls.Valid(w.db) && FindOwned(w.db, code, user).Some?
    ensures var w' := UrlService.UpdateUrl(w, code, patch, user, true);
            var run := [Staleness.Write(UrlService.LinkAt(w'.db, code))] + ([Staleness.Invalidate] + []);
            Staleness.CanRun(s, run) && SameCode(Staleness.Run(s, run), w', code) && Staleness.Run(s, run).given == s.given
  {
    UpdateKeepsValid(w.db, code, patch, user);
    FindFinds(w.db, code);
    FindFinds(Update(w.db, code, patch, user), code);
    UpdateMeans(w.db, code, patch, user);
    var w' := UrlService.UpdateUrl(w, code, patch, user, true);
    var row := FindOwned(w.db, code, user).value;
    assert w'.db.rows[row.id].shortCode == code && w'.db.rows[row.id].userId == Some(user);
    var write := Staleness.Write(UrlService.LinkAt(w'.db, code));
    var s1 := Staleness.Apply(s, write);
    var s2 := Staleness.Apply(s1, Staleness.Invalidate);
    Staleness.Then(s1, Staleness.Invalidate, s2, []);
    Staleness.Then(s, write, s1, [Staleness.Invalidate] + []);
  }

  /** A reader that dies stores and answers nothing. */
  lemma DeadReader(s: Staleness.State, r: nat)
    requires s.versions != [] && r in s.readers
    ensures Staleness.Apply(s, Staleness.ReaderDies(r)) == s.(readers := s.readers - {r})
  {
  }
}
