/**
 * Keyset pages of an owner's links, newest first (`listUrls` in apps/api/src/repositories/url.repository.ts),
 * and clients that follow the cursor from page to page.
 */
module Pagination {
  import opened Types
  import opened Urls
  import Cursor
  import Like

  type Filter = UrlRecord -> bool

  /** The owner and the search condition of a list request. */
  datatype Query = Query(user: UserId, found: Filter)

  datatype Page = Page(items: seq<UrlRecord>, nextCursor: Option<string>)

  // ---------------------------------------------------------------- one page

  /** The OR of the three ILIKE conditions. */
  predicate AnyLike(term: string, fold: Like.Fold, row: UrlRecord) {
    var pattern := Like.SearchPattern(term);
    || Like.Matches(fold, pattern, row.shortCode)
    || Like.Matches(fold, pattern, row.originalUrl)
    || (row.customAlias.Some? && Like.Matches(fold, pattern, row.customAlias.value))
  }

  /** No term, or an empty one, filters nothing. */
  function SearchFilter(search: Option<string>, fold: Like.Fold): Filter {
    row => search.None? || search.value == "" || AnyLike(search.value, fold, row)
  }

  /** The term occurs, up to case, in the short code, the target or the alias. */
  ghost predicate Contains(term: string, fold: Like.Fold, row: UrlRecord) {
    || Like.Occurs(fold, term, row.shortCode)
    || Like.Occurs(fold, term, row.originalUrl)
    || (row.customAlias.Some? && Like.Occurs(fold, term, row.customAlias.value))
  }

  /** A search finds what contains the term literally, whatever characters the term has. */
  lemma SearchIsLiteral(search: Option<string>, fold: Like.Fold, row: UrlRecord)
    ensures SearchFilter(search, fold)(row) <==> search.None? || search.value == "" || Contains(search.value, fold, row)
  {
    if search.Some? {
      Like.SearchFindsSubstrings(fold, search.value, row.shortCode);
      Like.SearchFindsSubstrings(fold, search.value, row.originalUrl);
      if row.customAlias.Some? {
        Like.SearchFindsSubstrings(fold, search.value, row.customAlias.value);
      }
    }
  }

  predicate Matching(q: Query, row: UrlRecord) {
    row.userId == Some(q.user) && q.found(row)
  }

  /** What a list request asks for: the user's own links, and with a term only those that contain it. */
  ghost predicate Wanted(user: UserId, search: Option<string>, fold: Like.Fold, row: UrlRecord) {
    row.userId == Some(user) && (search.None? || search.value == "" || Contains(search.value, fold, row))
  }

  function QueryOf(user: UserId, search: Option<string>, fold: Like.Fold): Query {
    Query(user, SearchFilter(search, fold))
  }

  lemma MatchingIsWanted(user: UserId, search: Option<string>, fold: Like.Fold)
    ensures forall row {:trigger Matching(QueryOf(user, search, fold), row)} ::
              Matching(QueryOf(user, search, fold), row) <==> Wanted(user, search, fold, row)
  {
    forall row: UrlRecord ensures Matching(QueryOf(user, search, fold), row) <==> Wanted(user, search, fold, row) {
      SearchIsLiteral(search, fold, row);
    }
  }

  predicate MatchingAt(db: Db, q: Query, id: RowId) {
    id in db.rows && Matching(q, db.rows[id])
  }

  /** Matching rows with ids below `below`, newest first, at most `limit` of them. */
  function Select(db: Db, q: Query, below: RowId, limit: nat): (rows: seq<UrlRecord>)
    ensures |rows| <= limit
  {
    if below == 0 || limit == 0 then []
    else if MatchingAt(db, q, below - 1) then [db.rows[below - 1]] + Select(db, q, below - 1, limit - 1)
    else Select(db, q, below - 1, limit)
  }

  /** Where the page starts: below the cursor's id, or at the newest row. */
  function Start(db: Db, cursorId: Option<nat>): nat {
    if cursorId.Some? && cursorId.value < db.nextId then cursorId.value else db.nextId
  }

  /** One page, and the id of its last row if there is more. */
  datatype Cut = Cut(items: seq<UrlRecord>, last: Option<RowId>)

  function CutPage(rows: seq<UrlRecord>, limit: nat): Cut {
    if |rows| > limit && limit > 0 then Cut(rows[..limit], Some(rows[limit - 1].id))
    else if |rows| > limit then Cut([], None)
    else Cut(rows, None)
  }

  function CutOf(db: Db, q: Query, cursorId: Option<nat>, limit: nat): Cut {
    CutPage(Select(db, q, Start(db, cursorId), limit + 1), limit)
  }

  function ListUrls(db: Db, q: Query, cursorId: Option<nat>, limit: nat): Page {
    var cut := CutOf(db, q, cursorId, limit);
    Page(cut.items, if cut.last.Some? then Some(Cursor.EncodeCursor(cut.last.value)) else None)
  }

  // ---------------------------------------------------------------- what a selection holds

  ghost predicate Descending(rows: seq<UrlRecord>) {
    forall i, j :: 0 <= i < j < |rows| ==> rows[i].id > rows[j].id
  }

  lemma NewestFirst(first: UrlRecord, rest: seq<UrlRecord>)
    requires Descending(rest) && forall r <- rest :: r.id < first.id
    ensures Descending([first] + rest)
    ensures forall r :: r in [first] + rest <==> r == first || r in rest
  {
    var rows := [first] + rest;
    assert forall j | 1 <= j < |rows| :: rows[j] == rest[j - 1] && rest[j - 1] in rest;
  }

  /** Exactly the newest matching rows below the start, in strictly descending order. */
  lemma {:induction false} SelectIsNewest(db: Db, q: Query, below: RowId, limit: nat)
    requires Urls.Valid(db)
    ensures var rows := Select(db, q, below, limit);
            && Descending(rows)
            && (forall r <- rows :: r.id < below && MatchingAt(db, q, r.id) && db.rows[r.id] == r)
            && (forall id: nat :: id < below && MatchingAt(db, q, id) && db.rows[id] !in rows ==>
                  |rows| == limit && forall r <- rows :: id < r.id)
  {
    if below > 0 && limit > 0 {
      var id := below - 1;
      if MatchingAt(db, q, id) {
        assert RowOk(db, id);
        SelectIsNewest(db, q, id, limit - 1);
        NewestFirst(db.rows[id], Select(db, q, id, limit - 1));
      } else {
        SelectIsNewest(db, q, id, limit);
      }
    }
  }

  /** A longer selection starts with the shorter one and goes on below its last row. */
  lemma {:induction false} SelectContinues(db: Db, q: Query, below: RowId, limit: nat, all: nat)
    requires Urls.Valid(db) && 0 < limit < |Select(db, q, below, all)|
    ensures var rows := Select(db, q, below, limit);
            && |rows| == limit && 1 <= rows[limit - 1].id <= below - limit
            && Select(db, q, below, all) == rows + Select(db, q, rows[limit - 1].id, all - limit)
    decreases below
  {
    var id := below - 1;
    if MatchingAt(db, q, id) {
      assert RowOk(db, id);
      if limit > 1 {
        SelectContinues(db, q, id, limit - 1, all - 1);
        var rest := Select(db, q, id, limit - 1);
        assert ([db.rows[id]] + rest)[limit - 1] == rest[limit - 2];
      } else {
        assert Select(db, q, id, 0) == [];
        assert Select(db, q, below, 1) == [db.rows[id]];
      }
    } else {
      SelectContinues(db, q, id, limit, all);
    }
  }

  lemma {:induction false} SelectPrefix(db: Db, q: Query, below: RowId, a: nat, b: nat)
    requires a <= b
    ensures Select(db, q, below, a) <= Select(db, q, below, b)
    ensures |Select(db, q, below, b)| <= a ==> Select(db, q, below, a) == Select(db, q, below, b)
  {
    if below > 0 && a > 0 {
      if MatchingAt(db, q, below - 1) {
        SelectPrefix(db, q, below - 1, a - 1, b - 1);
      } else {
        SelectPrefix(db, q, below - 1, a, b);
      }
    }
  }

  lemma {:induction false} SelectSize(db: Db, q: Query, below: RowId, limit: nat)
    ensures |Select(db, q, below, limit)| <= below
  {
    if below > 0 && limit > 0 {
      SelectSize(db, q, below - 1, if MatchingAt(db, q, below - 1) then limit - 1 else limit);
    }
  }

  // ---------------------------------------------------------------- what a page holds

  /** The newest matching rows below the cursor, at most `limit` of them. */
  lemma PageIsNewest(db: Db, q: Query, cursorId: Option<nat>, limit: nat)
    requires Urls.Valid(db)
    ensures var items := ListUrls(db, q, cursorId, limit).items;
            && |items| <= limit && Descending(items)
            && (forall r <- items :: (cursorId.Some? ==> r.id < cursorId.value) && r.id in db.rows && db.rows[r.id] == r
                                     && Matching(q, r))
            && (forall id <- db.rows :: (cursorId.Some? ==> id < cursorId.value) && Matching(q, db.rows[id])
                                        && db.rows[id] !in items ==>
                  |items| == limit && forall r <- items :: id < r.id)
  {
    var rows := Select(db, q, Start(db, cursorId), limit + 1);
    SelectIsNewest(db, q, Start(db, cursorId), limit + 1);
    CutKeepsNewest(rows, limit);
    IdsInUse(db);
  }

  lemma CutKeepsNewest(rows: seq<UrlRecord>, limit: nat)
    requires Descending(rows)
    ensures var items := CutPage(rows, limit).items;
            && |items| <= limit && Descending(items)
            && (forall r <- items :: r in rows)
            && (|rows| > limit ==> |items| == limit)
            && (forall r <- rows :: r !in items ==> |items| == limit && forall c <- items :: r.id < c.id)
  {
    var items := CutPage(rows, limit).items;
    assert forall k :: 0 <= k < |items| ==> items[k] == rows[k] && items[k] in items;
    forall r <- rows | r !in items ensures |items| == limit && forall c <- items :: r.id < c.id {
      var i :| 0 <= i < |rows| && rows[i] == r;
      forall c <- items ensures r.id < c.id {
        var j :| 0 <= j < |items| && items[j] == c;
        assert rows[j] == c;
      }
    }
  }

  /**
   * The page of a list request: only the user's own links that contain the term, all below the cursor, newest first;
   * one that is wanted and not on the page is older than all of them, and the page is full.
   */
  ghost predicate Shows(db: Db, user: UserId, search: Option<string>, fold: Like.Fold, cursorId: Option<nat>, limit: nat,
                        items: seq<UrlRecord>)
  {
    && |items| <= limit && Descending(items)
    && (forall r <- items :: (cursorId.Some? ==> r.id < cursorId.value) && r.id in db.rows && db.rows[r.id] == r
                             && Wanted(user, search, fold, r))
    && (forall id <- db.rows :: (cursorId.Some? ==> id < cursorId.value) && Wanted(user, search, fold, db.rows[id])
                                && db.rows[id] !in items ==>
          |items| == limit && forall r <- items :: id < r.id)
  }

  /** There is a next cursor exactly when a wanted row is older than the page, and it names the page's last id. */
  ghost predicate Continues(db: Db, user: UserId, search: Option<string>, fold: Like.Fold, cursorId: Option<nat>, page: Page) {
    var items := page.items;
    && (page.nextCursor.Some? ==>
          && items != [] && page.nextCursor == Some(Cursor.EncodeCursor(items[|items| - 1].id))
          && exists id <- db.rows :: id < items[|items| - 1].id && Wanted(user, search, fold, db.rows[id]))
    && (page.nextCursor.None? ==>
          forall id <- db.rows :: (cursorId.Some? ==> id < cursorId.value) && Wanted(user, search, fold, db.rows[id]) ==>
            db.rows[id] in items)
  }

  lemma PageContinues(db: Db, user: UserId, search: Option<string>, fold: Like.Fold, cursorId: Option<nat>, limit: nat)
    requires Urls.Valid(db) && limit > 0
    ensures Continues(db, user, search, fold, cursorId, ListUrls(db, QueryOf(user, search, fold), cursorId, limit))
  {
    var q := QueryOf(user, search, fold);
    var rows := Select(db, q, Start(db, cursorId), limit + 1);
    SelectIsNewest(db, q, Start(db, cursorId), limit + 1);
    MatchingIsWanted(user, search, fold);
    IdsInUse(db);
    if |rows| > limit {
      assert rows[limit] in rows && rows[limit].id < rows[limit - 1].id;
    }
  }

  lemma PageShows(db: Db, user: UserId, search: Option<string>, fold: Like.Fold, cursorId: Option<nat>, limit: nat)
    requires Urls.Valid(db)
    ensures Shows(db, user, search, fold, cursorId, limit, ListUrls(db, QueryOf(user, search, fold), cursorId, limit).items)
  {
    PageIsNewest(db, QueryOf(user, search, fold), cursorId, limit);
    MatchingIsWanted(user, search, fold);
  }

  // ---------------------------------------------------------------- following the cursor on a fixed table

  /** Ids are handed to clients as JavaScript numbers, so they have to be safe integers. */
  ghost predicate SafeIds(db: Db) {
    db.nextId <= Cursor.MAX_SAFE_INTEGER + 1
  }

  lemma CutSplits(db: Db, q: Query, cursorId: Option<nat>, limit: nat)
    requires Urls.Valid(db) && limit > 0
    ensures var start := Start(db, cursorId);
            var cut := CutOf(db, q, cursorId, limit);
            var all := Select(db, q, start, start);
            if cut.last.None? then cut.items == all
            else
              && |cut.items| == limit
              && var last := cut.items[limit - 1].id;
              && 1 <= last < start && cut.last == Some(last)
              && all == cut.items + Select(db, q, last, last)
  {
    var start := Start(db, cursorId);
    var all := Select(db, q, start, start);
    SelectSize(db, q, start, start);
    SelectSize(db, q, start, limit + 1);
    if |all| <= limit {
      AllIsAll(db, q, start, limit + 1);
    } else {
      SelectContinues(db, q, start, limit, start);
      SelectPrefix(db, q, start, limit, limit + 1);
      SelectPrefix(db, q, start, limit + 1, start);
      AllReaches(db, q, start, limit + 1);
      var page := Select(db, q, start, limit);
      assert Select(db, q, start, limit + 1)[..limit] == page;
      AllIsAll(db, q, page[limit - 1].id, start - limit);
    }
  }

  /** The page carries the cut, with the last id behind a cursor that decodes to it. */
  lemma PageOfCut(db: Db, q: Query, cursorId: Option<nat>, limit: nat)
    requires Urls.Valid(db) && SafeIds(db) && limit > 0
    ensures var page, cut := ListUrls(db, q, cursorId, limit), CutOf(db, q, cursorId, limit);
            && page.items == cut.items
            && (page.nextCursor.None? <==> cut.last.None?)
            && (page.nextCursor.Some? ==> Cursor.DecodeCursor(page.nextCursor.value) == cut.last)
  {
    CutSplits(db, q, cursorId, limit);
    var cut := CutOf(db, q, cursorId, limit);
    if cut.last.Some? {
      Cursor.DecodeOfEncode(cut.last.value);
    }
  }

  /** What one page means for the rest of the list. */
  lemma PageSplits(db: Db, q: Query, cursorId: Option<nat>, limit: nat)
    requires Urls.Valid(db) && SafeIds(db) && limit > 0
    ensures var start := Start(db, cursorId);
            var page := ListUrls(db, q, cursorId, limit);
            var all := Select(db, q, start, start);
            if page.nextCursor.None? then page.items == all
            else
              && |page.items| == limit
              && var last := page.items[limit - 1].id;
              && 1 <= last < start
              && Cursor.DecodeCursor(page.nextCursor.value) == Some(last)
              && all == page.items + Select(db, q, last, last)
  {
    CutSplits(db, q, cursorId, limit);
    PageOfCut(db, q, cursorId, limit);
  }

  /** With room for every id below the start, a selection does not depend on its limit. */
  lemma {:induction false} AllIsAll(db: Db, q: Query, below: RowId, limit: nat)
    requires |Select(db, q, below, below)| <= limit || below <= limit
    ensures Select(db, q, below, limit) == Select(db, q, below, below)
  {
    SelectSize(db, q, below, below);
    SelectSize(db, q, below, limit);
    if limit <= below {
      SelectPrefix(db, q, below, limit, below);
    } else {
      SelectPrefix(db, q, below, below, limit);
    }
  }

  /** A selection that leaves rows out is full. */
  lemma {:induction false} AllReaches(db: Db, q: Query, below: RowId, limit: nat)
    requires limit <= |Select(db, q, below, below)|
    ensures |Select(db, q, below, limit)| == limit
  {
    SelectSize(db, q, below, below);
    SelectPrefix(db, q, below, limit, below);
    if |Select(db, q, below, limit)| < limit {
      NotFullIsAll(db, q, below, limit, below);
    }
  }

  lemma {:induction false} NotFullIsAll(db: Db, q: Query, below: RowId, limit: nat, all: nat)
    requires |Select(db, q, below, limit)| < limit <= all
    ensures Select(db, q, below, all) == Select(db, q, below, limit)
  {
    if below > 0 {
      if MatchingAt(db, q, below - 1) {
        NotFullIsAll(db, q, below - 1, limit - 1, all - 1);
      } else {
        NotFullIsAll(db, q, below - 1, limit, all);
      }
    }
  }

  /** Every page from a cursor on: the client sends back each nextCursor until there is none. */
  ghost function Follow(db: Db, q: Query, cursorId: Option<nat>, limit: nat): (pages: seq<Page>)
    requires Urls.Valid(db) && SafeIds(db) && limit > 0
    decreases Start(db, cursorId)
  {
    PageSplits(db, q, cursorId, limit);
    var page := ListUrls(db, q, cursorId, limit);
    [page] + if page.nextCursor.None? then [] else Follow(db, q, Cursor.DecodeCursor(page.nextCursor.value), limit)
  }

  function ItemsOf(pages: seq<Page>): seq<UrlRecord> {
    if pages == [] then [] else pages[0].items + ItemsOf(pages[1..])
  }

  lemma {:induction false} FollowYieldsAll(db: Db, q: Query, cursorId: Option<nat>, limit: nat)
    requires Urls.Valid(db) && SafeIds(db) && limit > 0
    ensures ItemsOf(Follow(db, q, cursorId, limit)) == Select(db, q, Start(db, cursorId), Start(db, cursorId))
    decreases Start(db, cursorId)
  {
    PageSplits(db, q, cursorId, limit);
    var page := ListUrls(db, q, cursorId, limit);
    var pages := Follow(db, q, cursorId, limit);
    if page.nextCursor.None? {
      assert pages == [page] && pages[1..] == [];
    } else {
      var next := Cursor.DecodeCursor(page.nextCursor.value);
      FollowYieldsAll(db, q, next, limit);
      assert pages[1..] == Follow(db, q, next, limit);
      assert Start(db, next) == next.value;
    }
  }

  /** Following the cursor ends, and the pages together hold the matching rows, each exactly once, newest first. */
  lemma FollowYieldsMatching(db: Db, q: Query, limit: nat)
    requires Urls.Valid(db) && SafeIds(db) && limit > 0
    ensures var items := ItemsOf(Follow(db, q, None, limit));
            && Descending(items)
            && forall row: UrlRecord :: row in items <==> row.id in db.rows && db.rows[row.id] == row && Matching(q, row)
  {
    FollowYieldsAll(db, q, None, limit);
    SelectIsNewest(db, q, db.nextId, db.nextId);
    SelectSize(db, q, db.nextId, db.nextId);
    var items := Select(db, q, db.nextId, db.nextId);
    forall row: UrlRecord | row.id in db.rows && db.rows[row.id] == row && Matching(q, row) ensures row in items {
      assert RowOk(db, row.id);
      EverythingFits(db, q, db.nextId, row.id);
    }
  }

  /**
   * On a table that does not change, following the cursor ends, and the pages together hold the user's own links that
   * contain the term, and no others, each exactly once, in strictly descending order of id.
   */
  lemma FollowingTheCursor(db: Db, user: UserId, search: Option<string>, fold: Like.Fold, limit: nat)
    requires Urls.Valid(db) && SafeIds(db) && limit > 0
    ensures var items := ItemsOf(Follow(db, QueryOf(user, search, fold), None, limit));
            && Descending(items)
            && forall row: UrlRecord :: row in items <==>
                 row.id in db.rows && db.rows[row.id] == row && Wanted(user, search, fold, row)
  {
    FollowYieldsMatching(db, QueryOf(user, search, fold), limit);
    MatchingIsWanted(user, search, fold);
  }

  lemma {:induction false} EverythingFits(db: Db, q: Query, below: RowId, id: RowId)
    requires id < below && MatchingAt(db, q, id)
    ensures db.rows[id] in Select(db, q, below, below)
  {
    if id < below - 1 {
      EverythingFits(db, q, below - 1, id);
      AllIsAll(db, q, below - 1, below);
    }
  }

  // ---------------------------------------------------------------- following the cursor on a changing table

  /** Page k is read from the k-th snapshot; the walk ends with the snapshots or when there is no next cursor. */
  ghost function Walk(dbs: seq<Db>, q: Query, cursorId: Option<nat>, limit: nat): seq<Page>
    decreases |dbs|
  {
    if dbs == [] then []
    else
      var page := ListUrls(dbs[0], q, cursorId, limit);
      [page] + if page.nextCursor.None? then [] else Walk(dbs[1..], q, Cursor.DecodeCursor(page.nextCursor.value), limit)
  }

  ghost predicate Snapshots(dbs: seq<Db>) {
    forall db <- dbs :: Urls.Valid(db) && SafeIds(db)
  }

  /** The last page had no next cursor. */
  ghost predicate Finished(pages: seq<Page>) {
    pages != [] && pages[|pages| - 1].nextCursor.None?
  }

  ghost predicate Below(rows: seq<UrlRecord>, bound: Option<nat>) {
    bound.Some? ==> forall r <- rows :: r.id < bound.value
  }

  lemma CutBelow(db: Db, q: Query, cursorId: Option<nat>, limit: nat)
    requires Urls.Valid(db) && limit > 0
    ensures var cut := CutOf(db, q, cursorId, limit);
            Descending(cut.items) && Below(cut.items, cursorId) && (cut.last.Some? ==> cut.items != [])
  {
    SelectIsNewest(db, q, Start(db, cursorId), limit + 1);
    var rows := Select(db, q, Start(db, cursorId), limit + 1);
    var items := CutOf(db, q, cursorId, limit).items;
    assert items <= rows;
    forall r | r in items ensures r in rows {
      var i :| 0 <= i < |items| && items[i] == r;
      assert rows[i] == r;
    }
  }

  /** A page read at a cursor lies below it, and the next cursor lies at the end of the page. */
  lemma PageBelow(db: Db, q: Query, cursorId: Option<nat>, limit: nat)
    requires Urls.Valid(db) && SafeIds(db) && limit > 0
    ensures var page := ListUrls(db, q, cursorId, limit);
            && Descending(page.items) && Below(page.items, cursorId)
            && (page.nextCursor.Some? ==>
                  && page.items != []
                  && Cursor.DecodeCursor(page.nextCursor.value) == Some(page.items[|page.items| - 1].id))
  {
    CutBelow(db, q, cursorId, limit);
    PageSplits(db, q, cursorId, limit);
    PageOfCut(db, q, cursorId, limit);
  }

  lemma DescendingJoin(a: seq<UrlRecord>, b: seq<UrlRecord>)
    requires a != [] && Descending(a) && Descending(b) && Below(b, Some(a[|a| - 1].id))
    ensures Descending(a + b)
  {
    var c := a + b;
    forall i, j | 0 <= i < j < |c| ensures c[i].id > c[j].id {
      if i < |a| <= j {
        assert c[j] in b;
        assert c[i].id >= a[|a| - 1].id;
      }
    }
  }

  /** Whatever happens to the table between pages, no row is listed twice and the order is strict. */
  lemma {:induction false} WalkNeverRepeats(dbs: seq<Db>, q: Query, cursorId: Option<nat>, limit: nat)
    requires Snapshots(dbs) && limit > 0
    ensures Descending(ItemsOf(Walk(dbs, q, cursorId, limit)))
    ensures Below(ItemsOf(Walk(dbs, q, cursorId, limit)), cursorId)
    decreases |dbs|
  {
    if dbs != [] {
      PageBelow(dbs[0], q, cursorId, limit);
      var page := ListUrls(dbs[0], q, cursorId, limit);
      var pages := Walk(dbs, q, cursorId, limit);
      if page.nextCursor.Some? {
        var next := Cursor.DecodeCursor(page.nextCursor.value);
        WalkNeverRepeats(dbs[1..], q, next, limit);
        assert pages[1..] == Walk(dbs[1..], q, next, limit);
        DescendingJoin(page.items, ItemsOf(pages[1..]));
        assert page.items[|page.items| - 1] in page.items;
      } else {
        assert pages == [page] && pages[1..] == [];
        assert ItemsOf(pages) == page.items;
      }
    }
  }

  ghost predicate Listed(pages: seq<Page>, id: RowId) {
    exists r <- ItemsOf(pages) :: r.id == id
  }

  /** A finished walk lists every row that matched in every snapshot. */
  lemma {:induction false} WalkListsMatching(dbs: seq<Db>, q: Query, cursorId: Option<nat>, limit: nat, id: RowId)
    requires Snapshots(dbs) && limit > 0 && Finished(Walk(dbs, q, cursorId, limit))
    requires forall db <- dbs :: MatchingAt(db, q, id)
    requires cursorId.Some? ==> id < cursorId.value
    ensures Listed(Walk(dbs, q, cursorId, limit), id)
    decreases |dbs|
  {
    var db := dbs[0];
    var page := ListUrls(db, q, cursorId, limit);
    var pages := Walk(dbs, q, cursorId, limit);
    assert pages[0] == page;
    PageSplits(db, q, cursorId, limit);
    PageBelow(db, q, cursorId, limit);
    IdsInUse(db);
    var start := Start(db, cursorId);
    assert RowOk(db, id);
    EverythingFits(db, q, start, id);
    var row := db.rows[id];
    if row in page.items {
      assert row in ItemsOf(pages);
    } else {
      var last := page.items[|page.items| - 1].id;
      SelectIsNewest(db, q, last, last);
      var next := Cursor.DecodeCursor(page.nextCursor.value);
      assert pages[1..] == Walk(dbs[1..], q, next, limit);
      assert pages[|pages| - 1] == pages[1..][|pages| - 2];
      WalkListsMatching(dbs[1..], q, next, limit, id);
      var r :| r in ItemsOf(pages[1..]) && r.id == id;
      assert r in ItemsOf(pages);
    }
  }

  /** The last id of a full page is at least `limit` below its start. */
  lemma FullPageSpans(db: Db, q: Query, cursorId: Option<nat>, limit: nat)
    requires Urls.Valid(db) && SafeIds(db) && limit > 0 && ListUrls(db, q, cursorId, limit).nextCursor.Some?
    ensures var next := Cursor.DecodeCursor(ListUrls(db, q, cursorId, limit).nextCursor.value);
            next.Some? && next.value + limit <= Start(db, cursorId)
  {
    PageOfCut(db, q, cursorId, limit);
    var start := Start(db, cursorId);
    SelectContinues(db, q, start, limit, limit + 1);
    SelectPrefix(db, q, start, limit, limit + 1);
  }

  lemma OneMorePage(pages: nat, limit: nat, last: nat, start: nat)
    requires (pages - 1) * limit <= last && last + limit <= start
    ensures pages * limit <= start
  {
    assert pages * limit == (pages - 1) * limit + limit;
  }

  ghost predicate WantedAt(db: Db, user: UserId, search: Option<string>, fold: Like.Fold, id: RowId) {
    id in db.rows && Wanted(user, search, fold, db.rows[id])
  }

  /**
   * A finished walk lists every link of the user that contained the term in every snapshot, whatever was inserted,
   * claimed, changed or lost from the list in between.
   */
  lemma WalkMissesNothing(dbs: seq<Db>, user: UserId, search: Option<string>, fold: Like.Fold, cursorId: Option<nat>,
                          limit: nat, id: RowId)
    requires Snapshots(dbs) && limit > 0 && Finished(Walk(dbs, QueryOf(user, search, fold), cursorId, limit))
    requires forall db <- dbs :: WantedAt(db, user, search, fold, id)
    requires cursorId.Some? ==> id < cursorId.value
    ensures Listed(Walk(dbs, QueryOf(user, search, fold), cursorId, limit), id)
  {
    MatchingIsWanted(user, search, fold);
    WalkListsMatching(dbs, QueryOf(user, search, fold), cursorId, limit, id);
  }

  /** And it lists nothing but links that were the user's and contained the term in some snapshot. */
  lemma {:induction false} WalkListsOnlyOwn(dbs: seq<Db>, user: UserId, search: Option<string>, fold: Like.Fold,
                                            cursorId: Option<nat>, limit: nat, row: UrlRecord)
    requires Snapshots(dbs) && limit > 0 && row in ItemsOf(Walk(dbs, QueryOf(user, search, fold), cursorId, limit))
    ensures Wanted(user, search, fold, row) && exists db <- dbs :: row.id in db.rows && db.rows[row.id] == row
    decreases |dbs|
  {
    var q := QueryOf(user, search, fold);
    var page, pages := ListUrls(dbs[0], q, cursorId, limit), Walk(dbs, q, cursorId, limit);
    assert ItemsOf(pages) == page.items + ItemsOf(pages[1..]);
    if row in page.items {
      MatchingIsWanted(user, search, fold);
      PageIsNewest(dbs[0], q, cursorId, limit);
      assert dbs[0] in dbs;
    } else {
      var next := Cursor.DecodeCursor(page.nextCursor.value);
      assert pages[1..] == Walk(dbs[1..], q, next, limit);
      WalkListsOnlyOwn(dbs[1..], user, search, fold, next, limit, row);
    }
  }

  /** Every page but the last is full, and pages only go down: the first start bounds how many there can be. */
  lemma {:induction false} WalkIsBounded(dbs: seq<Db>, q: Query, cursorId: Option<nat>, limit: nat)
    requires Snapshots(dbs) && limit > 0 && dbs != []
    ensures (|Walk(dbs, q, cursorId, limit)| - 1) * limit <= Start(dbs[0], cursorId)
    decreases |dbs|
  {
    var next := FirstOfWalk(dbs, q, cursorId, limit);
    if |Walk(dbs, q, cursorId, limit)| > 1 {
      WalkIsBounded(dbs[1..], q, Some(next), limit);
      OneMorePage(|Walk(dbs[1..], q, Some(next), limit)|, limit, next, Start(dbs[0], cursorId));
    } else {
      ProductsGrow(|Walk(dbs, q, cursorId, limit)| - 1, 0, limit);
    }
  }

  lemma {:induction false} WalkIsNoLonger(dbs: seq<Db>, q: Query, cursorId: Option<nat>, limit: nat)
    ensures |Walk(dbs, q, cursorId, limit)| <= |dbs|
    decreases |dbs|
  {
    if dbs != [] {
      var page := ListUrls(dbs[0], q, cursorId, limit);
      if page.nextCursor.Some? {
        WalkIsNoLonger(dbs[1..], q, Cursor.DecodeCursor(page.nextCursor.value), limit);
      }
    }
  }

  lemma FirstOfWalk(dbs: seq<Db>, q: Query, cursorId: Option<nat>, limit: nat) returns (next: nat)
    requires Snapshots(dbs) && limit > 0 && dbs != []
    ensures |Walk(dbs, q, cursorId, limit)| > 1 ==>
              && |dbs| > 1 && |Walk(dbs, q, cursorId, limit)| == 1 + |Walk(dbs[1..], q, Some(next), limit)|
              && next + limit <= Start(dbs[0], cursorId)
  {
    var page := ListUrls(dbs[0], q, cursorId, limit);
    WalkIsNoLonger(dbs, q, cursorId, limit);
    if page.nextCursor.Some? {
      assert dbs[0] in dbs;
      FullPageSpans(dbs[0], q, cursorId, limit);
      next := Cursor.DecodeCursor(page.nextCursor.value).value;
      assert Cursor.DecodeCursor(page.nextCursor.value) == Some(next);
    } else {
      next := 0;
    }
  }

  lemma ProductsGrow(a: int, b: int, limit: nat)
    ensures a <= b ==> a * limit <= b * limit
  {
  }

  lemma FewerPages(pages: nat, snapshots: nat, limit: nat, start: nat)
    requires (pages - 1) * limit <= start < (snapshots - 1) * limit
    ensures pages < snapshots
  {
    ProductsGrow(snapshots - 1, pages - 1, limit);
  }

  /** So a walk over a table that keeps changing ends, if it goes on for long enough. */
  lemma WalkEnds(dbs: seq<Db>, q: Query, cursorId: Option<nat>, limit: nat)
    requires Snapshots(dbs) && limit > 0 && dbs != [] && Start(dbs[0], cursorId) < (|dbs| - 1) * limit
    ensures Finished(Walk(dbs, q, cursorId, limit))
  {
    WalkIsBounded(dbs, q, cursorId, limit);
    FewerPages(|Walk(dbs, q, cursorId, limit)|, |dbs|, limit, Start(dbs[0], cursorId));
    UnfinishedUsesAll(dbs, q, cursorId, limit);
  }

  lemma {:induction false} UnfinishedUsesAll(dbs: seq<Db>, q: Query, cursorId: Option<nat>, limit: nat)
    ensures Finished(Walk(dbs, q, cursorId, limit)) || |Walk(dbs, q, cursorId, limit)| == |dbs|
    decreases |dbs|
  {
    if dbs != [] {
      var page, pages := ListUrls(dbs[0], q, cursorId, limit), Walk(dbs, q, cursorId, limit);
      if page.nextCursor.Some? {
        var next := Cursor.DecodeCursor(page.nextCursor.value);
        UnfinishedUsesAll(dbs[1..], q, next, limit);
        assert pages[1..] == Walk(dbs[1..], q, next, limit);
      }
    }
  }

  // ---------------------------------------------------------------- the query

  /** SELECT … ORDER BY id DESC LIMIT limit. */
  method Fetch(db: Database, q: Query, start: nat, limit: nat) returns (rows: seq<UrlRecord>)
    ensures rows == Select(db.State(), q, start, limit)
  {
    var below := start;
    rows := [];
    while below > 0 && |rows| < limit
      invariant |rows| <= limit
      invariant Select(db.State(), q, start, limit) == rows + Select(db.State(), q, below, limit - |rows|)
    {
      below := below - 1;
      if below in db.rows && Matching(q, db.rows[below]) {
        rows := rows + [db.rows[below]];
      }
    }
  }

  /** The code: fetch one row more than asked for, and cut it off if it is there. */
  method List(db: Database, user: UserId, search: Option<string>, fold: Like.Fold, cursorId: Option<nat>, limit: nat)
    returns (page: Page)
    ensures page == ListUrls(db.State(), QueryOf(user, search, fold), cursorId, limit)
    ensures Urls.Valid(db.State()) ==> Shows(db.State(), user, search, fold, cursorId, limit, page.items)
    ensures limit == 0 ==> page == Page([], None)
    ensures Urls.Valid(db.State()) && limit > 0 ==> Continues(db.State(), user, search, fold, cursorId, page)
  {
    page := FetchPage(db, QueryOf(user, search, fold), cursorId, limit);
    if Urls.Valid(db.State()) {
      PageShows(db.State(), user, search, fold, cursorId, limit);
      if limit > 0 {
        PageContinues(db.State(), user, search, fold, cursorId, limit);
      }
    }
  }

  method FetchPage(db: Database, q: Query, cursorId: Option<nat>, limit: nat) returns (page: Page)
    ensures page == ListUrls(db.State(), q, cursorId, limit)
  {
    var start := if cursorId.Some? && cursorId.value < db.nextId then cursorId.value else db.nextId;
    var rows := Fetch(db, q, start, limit + 1);
    var hasMore := |rows| > limit;
    var items := if hasMore then rows[..limit] else rows;
    return Page(items, if hasMore && items != [] then Some(Cursor.EncodeCursor(items[|items| - 1].id)) else None);
  }
}
