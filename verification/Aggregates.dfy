/**
 * The click aggregates (apps/api/src/analytics/click-event-repository.ts, and the click counts of `listUrls` in
 * apps/api/src/repositories/url.repository.ts) on one state of the tables.
 *
 * GROUP BY may return its groups in any order; the results below hold for every answer it may give.
 */
module Aggregates {
  import opened Types
  import opened ClickStore
  import Urls

  /** One row of a GROUP BY result. */
  datatype Group = Group(key: string, count: nat)

  datatype Column = Country | Device | Browser | Referrer

  /** COALESCE(column, fallback) */
  function Folded(column: Column, click: ClickEvent): string {
    var value :=
      match column
      case Country => click.country
      case Device => click.deviceType
      case Browser => click.browser
      case Referrer => click.referrer;
    match value
    case Some(v) => v
    case None => if column.Referrer? then "direct" else "unknown"
  }

  type Bucket = ClickEvent -> string

  function BucketOf(column: Column): Bucket {
    click => Folded(column, click)
  }

  // ---------------------------------------------------------------- GROUP BY

  function Times(keys: seq<string>, k: string): nat {
    if keys == [] then 0 else (if keys[0] == k then 1 else 0) + Times(keys[1..], k)
  }

  ghost predicate DistinctKeys(groups: seq<Group>) {
    forall i, j :: 0 <= i < j < |groups| ==> groups[i].key != groups[j].key
  }

  /** The groups of a multiset of keys, in some order. */
  ghost predicate IsGroupBy(groups: seq<Group>, keys: seq<string>) {
    && DistinctKeys(groups)
    && (forall g <- groups :: g.count == Times(keys, g.key))
    && (forall k <- keys :: exists g <- groups :: g.key == k)
  }

  function SumOf(groups: seq<Group>): nat {
    if groups == [] then 0 else groups[0].count + SumOf(groups[1..])
  }

  function Without(keys: seq<string>, k: string): seq<string> {
    if keys == [] then [] else (if keys[0] == k then [] else [keys[0]]) + Without(keys[1..], k)
  }

  lemma {:induction false} WithoutCounts(keys: seq<string>, k: string, other: string)
    ensures |Without(keys, k)| + Times(keys, k) == |keys|
    ensures Times(Without(keys, k), other) == if other == k then 0 else Times(keys, other)
    ensures other in Without(keys, k) <==> other in keys && other != k
  {
    if keys != [] {
      WithoutCounts(keys[1..], k, other);
      var rest := Without(keys[1..], k);
      if keys[0] == k {
        assert Without(keys, k) == rest;
      } else {
        assert Without(keys, k) == [keys[0]] + rest;
        assert Without(keys, k)[1..] == rest;
      }
      assert keys == [keys[0]] + keys[1..];
    }
  }

  lemma NoGroupsNoKeys(groups: seq<Group>, keys: seq<string>)
    requires IsGroupBy(groups, keys)
    ensures keys != [] ==> groups != []
  {
    if keys != [] {
      assert keys[0] in keys;
      var g :| g in groups && g.key == keys[0];
    }
  }

  /** Whatever order the groups come in, their counts add up to the number of rows grouped. */
  lemma {:induction false} GroupsAddUp(groups: seq<Group>, keys: seq<string>)
    requires IsGroupBy(groups, keys)
    ensures SumOf(groups) == |keys|
  {
    NoGroupsNoKeys(groups, keys);
    if groups != [] {
      var k, rest, left := groups[0].key, groups[1..], Without(keys, groups[0].key);
      WithoutCounts(keys, k, k);
      forall g | g in rest ensures g.count == Times(left, g.key) {
        WithoutCounts(keys, k, g.key);
        assert g.key != k;
      }
      forall x | x in left ensures exists g <- rest :: g.key == x {
        WithoutCounts(keys, k, x);
        var g :| g in groups && g.key == x;
        assert g in rest;
      }
      GroupsAddUp(rest, left);
    }
  }

  /** There always is such an answer. */
  function GroupsOf(keys: seq<string>): seq<Group>
    decreases |keys|
  {
    if keys == [] then []
    else
      WithoutCounts(keys, keys[0], keys[0]);
      [Group(keys[0], Times(keys, keys[0]))] + GroupsOf(Without(keys, keys[0]))
  }

  lemma {:induction false} GroupsOfIsGroupBy(keys: seq<string>)
    ensures IsGroupBy(GroupsOf(keys), keys)
    ensures forall g <- GroupsOf(keys) :: g.key in keys
    decreases |keys|
  {
    if keys != [] {
      var k := keys[0];
      var left := Without(keys, k);
      WithoutCounts(keys, k, k);
      GroupsOfIsGroupBy(left);
      var groups := GroupsOf(keys);
      assert groups == [Group(k, Times(keys, k))] + GroupsOf(left);
      forall g | g in GroupsOf(left) ensures g.count == Times(keys, g.key) && g.key != k && g.key in keys {
        WithoutCounts(keys, k, g.key);
      }
      forall x | x in keys ensures exists g <- groups :: g.key == x {
        WithoutCounts(keys, k, x);
        if x == k {
          assert groups[0] in groups;
        } else {
          var g :| g in GroupsOf(left) && g.key == x;
          assert g in groups;
        }
      }
    }
  }

  // ---------------------------------------------------------------- breakdown objects

  /** Assigning a number to this property of a plain object runs a setter that ignores it. */
  const PROTO: string := "__proto__"

  function Assign(out: map<string, nat>, g: Group): map<string, nat> {
    if g.key == PROTO then out else out[g.key := g.count]
  }

  /** The object the loop over the groups builds. */
  function RecordOf(groups: seq<Group>): map<string, nat> {
    if groups == [] then map[] else Assign(RecordOf(groups[..|groups| - 1]), groups[|groups| - 1])
  }

  method BuildRecord(groups: seq<Group>) returns (out: map<string, nat>)
    ensures out == RecordOf(groups)
  {
    out := map[];
    for i := 0 to |groups|
      invariant out == RecordOf(groups[..i])
    {
      assert groups[..i + 1][..i] == groups[..i];
      if groups[i].key != PROTO {
        out := out[groups[i].key := groups[i].count];
      }
    }
    assert groups[..|groups|] == groups;
  }

  /** The sum of an object's values. */
  ghost function Total(out: map<string, nat>): nat
    decreases |out|
  {
    if out == map[] then 0
    else
      var k :| k in out;
      assert |out - {k}| < |out| by {
        assert out.Keys == (out - {k}).Keys + {k};
      }
      out[k] + Total(out - {k})
  }

  lemma {:induction false} TotalWithout(out: map<string, nat>, k: string)
    requires k in out
    ensures Total(out) == out[k] + Total(out - {k})
    decreases |out|
  {
    var j :| j in out && Total(out) == out[j] + Total(out - {j});
    if j != k {
      assert out.Keys == (out - {j}).Keys + {j};
      assert |out - {j}| < |out|;
      TotalWithout(out - {j}, k);
      assert out - {j} - {k} == out - {k} - {j};
      assert |out - {k}| < |out| by {
        assert out.Keys == (out - {k}).Keys + {k};
      }
      TotalWithout(out - {k}, j);
    }
  }

  lemma {:induction false} RecordKeys(groups: seq<Group>, k: string)
    requires DistinctKeys(groups)
    ensures k in RecordOf(groups) <==> k != PROTO && exists g <- groups :: g.key == k
    ensures k != PROTO ==> forall g <- groups :: g.key == k ==> k in RecordOf(groups) && RecordOf(groups)[k] == g.count
  {
    if groups != [] {
      var init, last := groups[..|groups| - 1], groups[|groups| - 1];
      RecordKeys(init, k);
      assert groups == init + [last];
      if last.key == k && k != PROTO {
        assert last in groups;
      }
    }
  }

  /** What the object loses: the count of the one key that cannot be assigned. */
  function Lost(groups: seq<Group>): nat {
    if groups == [] then 0
    else Lost(groups[..|groups| - 1]) + if groups[|groups| - 1].key == PROTO then groups[|groups| - 1].count else 0
  }

  lemma {:induction false} SumOfJoins(a: seq<Group>, g: Group)
    ensures SumOf(a + [g]) == SumOf(a) + g.count
  {
    if a == [] {
      assert [] + [g] == [g] && [g][1..] == [];
    } else {
      assert (a + [g])[1..] == a[1..] + [g];
      SumOfJoins(a[1..], g);
    }
  }

  lemma {:induction false} RecordTotal(groups: seq<Group>)
    requires DistinctKeys(groups)
    ensures Total(RecordOf(groups)) + Lost(groups) == SumOf(groups)
  {
    if groups != [] {
      var init, last := groups[..|groups| - 1], groups[|groups| - 1];
      RecordTotal(init);
      assert groups == init + [last];
      SumOfJoins(init, last);
      if last.key != PROTO {
        RecordKeys(init, last.key);
        var out := RecordOf(groups);
        TotalWithout(out, last.key);
        assert out - {last.key} == RecordOf(init);
      }
    }
  }

  lemma {:induction false} LostIsProto(groups: seq<Group>, keys: seq<string>)
    requires DistinctKeys(groups) && forall g <- groups :: g.count == Times(keys, g.key)
    ensures Lost(groups) == if exists g <- groups :: g.key == PROTO then Times(keys, PROTO) else 0
  {
    if groups != [] {
      var init, last := groups[..|groups| - 1], groups[|groups| - 1];
      assert groups == init + [last];
      LostIsProto(init, keys);
      if last.key == PROTO {
        assert last in groups;
        assert forall g <- init :: g.key != PROTO;
      }
    }
  }

  lemma {:induction false} TimesIsMembership(keys: seq<string>, k: string)
    ensures Times(keys, k) > 0 <==> k in keys
  {
    if keys != [] {
      TimesIsMembership(keys[1..], k);
    }
  }

  /**
   * A breakdown object adds up to the number of rows grouped exactly when no row has the one key JavaScript
   * drops; otherwise it is short by that key's rows.
   */
  lemma BreakdownAddsUp(groups: seq<Group>, keys: seq<string>)
    requires IsGroupBy(groups, keys)
    ensures Total(RecordOf(groups)) + Times(keys, PROTO) == |keys|
    ensures Total(RecordOf(groups)) == |keys| <==> PROTO !in keys
  {
    GroupsAddUp(groups, keys);
    RecordTotal(groups);
    LostIsProto(groups, keys);
    TimesIsMembership(keys, PROTO);
  }

  /** And it holds the right count for every other key. */
  lemma BreakdownCounts(groups: seq<Group>, keys: seq<string>, k: string)
    requires IsGroupBy(groups, keys) && k != PROTO && k in keys
    ensures k in RecordOf(groups) && RecordOf(groups)[k] == Times(keys, k)
  {
    RecordKeys(groups, k);
    var g :| g in groups && g.key == k;
  }

  // ---------------------------------------------------------------- one link

  /** The bucket of every click of a short code: what its GROUP BY groups. */
  function KeysOf(rows: seq<ClickRow>, code: string, bucket: Bucket): seq<string> {
    if rows == [] then []
    else
      var last := rows[|rows| - 1].click;
      KeysOf(rows[..|rows| - 1], code, bucket) + (if last.shortCode == code then [bucket(last)] else [])
  }

  lemma {:induction false} KeysOfCounts(rows: seq<ClickRow>, code: string, bucket: Bucket)
    ensures |KeysOf(rows, code, bucket)| == CountByShortCode(rows, code)
  {
    if rows != [] {
      KeysOfCounts(rows[..|rows| - 1], code, bucket);
    }
  }

  datatype ClickStats = ClickStats(totalClicks: nat, clicksByDay: seq<Group>, breakdowns: map<Column, map<string, nat>>)

  /** The groups of the four column queries, as the database happened to order them. */
  type ColumnGroups = map<Column, seq<Group>>

  ghost predicate Complete(groups: ColumnGroups) {
    forall c: Column :: c in groups
  }

  /** What the queries of getStats may return on one table state. */
  ghost predicate Queried(rows: seq<ClickRow>, code: string, day: Bucket, days: seq<Group>, groups: ColumnGroups) {
    && IsGroupBy(days, KeysOf(rows, code, day))
    && Complete(groups)
    && forall c: Column {:trigger BucketOf(c)} :: IsGroupBy(groups[c], KeysOf(rows, code, BucketOf(c)))
  }

  /**
   * On one table state, the day buckets add up to the total, which is the link's click count; and a breakdown
   * adds up to it exactly when no click has the dropped key in that column. Days are whatever the database's time
   * zone makes of a time.
   */
  lemma StatsAgree(rows: seq<ClickRow>, code: string, day: Bucket, days: seq<Group>, groups: ColumnGroups, c: Column)
    requires Queried(rows, code, day, days, groups)
    ensures SumOf(days) == CountByShortCode(rows, code)
    ensures Total(RecordOf(groups[c])) == CountByShortCode(rows, code) <==> PROTO !in KeysOf(rows, code, BucketOf(c))
  {
    KeysOfCounts(rows, code, day);
    GroupsAddUp(days, KeysOf(rows, code, day));
    KeysOfCounts(rows, code, BucketOf(c));
    BreakdownAddsUp(groups[c], KeysOf(rows, code, BucketOf(c)));
  }

  /**
   * The answer of getStats: one bucket for each day that has clicks, with its number, together the total; and each
   * breakdown has exactly the values of its column with their numbers, save the dropped key.
   */
  ghost predicate AddsUp(stats: ClickStats, rows: seq<ClickRow>, code: string, day: Bucket) {
    && stats.totalClicks == CountByShortCode(rows, code)
    && IsGroupBy(stats.clicksByDay, KeysOf(rows, code, day)) && SumOf(stats.clicksByDay) == stats.totalClicks
    && forall c: Column {:trigger BucketOf(c)} ::
         && c in stats.breakdowns
         && (Total(stats.breakdowns[c]) == stats.totalClicks <==> PROTO !in KeysOf(rows, code, BucketOf(c)))
         && forall k {:trigger k in stats.breakdowns[c]} | k in KeysOf(rows, code, BucketOf(c)) && k != PROTO ::
              k in stats.breakdowns[c] && stats.breakdowns[c][k] == Times(KeysOf(rows, code, BucketOf(c)), k)
  }

  lemma AnswerAddsUp(rows: seq<ClickRow>, code: string, day: Bucket, days: seq<Group>, groups: ColumnGroups, stats: ClickStats)
    requires Queried(rows, code, day, days, groups)
    requires stats.totalClicks == CountByShortCode(rows, code) && stats.clicksByDay == days
    requires forall c: Column :: c in stats.breakdowns && stats.breakdowns[c] == RecordOf(groups[c])
    ensures AddsUp(stats, rows, code, day)
  {
    StatsAgree(rows, code, day, days, groups, Country);
    forall c: Column
      ensures Total(stats.breakdowns[c]) == stats.totalClicks <==> PROTO !in KeysOf(rows, code, BucketOf(c))
    {
      StatsAgree(rows, code, day, days, groups, c);
    }
    forall c: Column, k | k in KeysOf(rows, code, BucketOf(c)) && k != PROTO
      ensures k in stats.breakdowns[c] && stats.breakdowns[c][k] == Times(KeysOf(rows, code, BucketOf(c)), k)
    {
      assert IsGroupBy(groups[c], KeysOf(rows, code, BucketOf(c)));
      BreakdownCounts(groups[c], KeysOf(rows, code, BucketOf(c)), k);
    }
  }

  // ---------------------------------------------------------------- columns

  type ColumnOf = ClickEvent -> Option<string>

  /** How many clicks of the code have this value in the column, or have none and the value is the fallback. */
  function Tally(rows: seq<ClickRow>, code: string, column: ColumnOf, fallback: string, value: string): nat {
    if rows == [] then 0
    else
      var click := rows[|rows| - 1].click;
      Tally(rows[..|rows| - 1], code, column, fallback, value)
      + if click.shortCode == code && (column(click) == Some(value) || (column(click).None? && value == fallback)) then 1 else 0
  }

  /** The object counts the clicks by that column, for every value but the dropped one. */
  ghost predicate Tallies(counts: map<string, nat>, rows: seq<ClickRow>, code: string, column: ColumnOf, fallback: string) {
    forall value {:trigger value in counts} | value != PROTO ::
      Tally(rows, code, column, fallback, value) == if value in counts then counts[value] else 0
  }

  lemma {:induction false} TimesJoins(keys: seq<string>, last: string, k: string)
    ensures Times(keys + [last], k) == Times(keys, k) + if last == k then 1 else 0
  {
    if keys == [] {
      assert [] + [last] == [last] && [last][1..] == [];
    } else {
      assert (keys + [last])[1..] == keys[1..] + [last];
      TimesJoins(keys[1..], last, k);
    }
  }

  lemma {:induction false} TallyIsTimes(rows: seq<ClickRow>, code: string, c: Column, column: ColumnOf, fallback: string, value: string)
    requires forall click {:trigger Folded(c, click)} ::
               Folded(c, click) == if column(click).Some? then column(click).value else fallback
    ensures Tally(rows, code, column, fallback, value) == Times(KeysOf(rows, code, BucketOf(c)), value)
  {
    if rows != [] {
      var init, last := rows[..|rows| - 1], rows[|rows| - 1].click;
      TallyIsTimes(init, code, c, column, fallback, value);
      var keys := KeysOf(init, code, BucketOf(c));
      assert BucketOf(c)(last) == Folded(c, last);
      TimesJoins(keys, BucketOf(c)(last), value);
      assert last.shortCode != code ==> KeysOf(rows, code, BucketOf(c)) == keys;
    }
  }

  lemma ColumnTallies(rows: seq<ClickRow>, code: string, c: Column, groups: seq<Group>, column: ColumnOf, fallback: string)
    requires IsGroupBy(groups, KeysOf(rows, code, BucketOf(c)))
    requires forall click {:trigger Folded(c, click)} ::
               Folded(c, click) == if column(click).Some? then column(click).value else fallback
    ensures Tallies(RecordOf(groups), rows, code, column, fallback)
  {
    var keys := KeysOf(rows, code, BucketOf(c));
    forall value | value != PROTO
      ensures Tally(rows, code, column, fallback, value) == if value in RecordOf(groups) then RecordOf(groups)[value] else 0
    {
      TallyIsTimes(rows, code, c, column, fallback, value);
      RecordKeys(groups, value);
      TimesIsMembership(keys, value);
      if value in RecordOf(groups) {
        var g :| g in groups && g.key == value;
      }
    }
  }

  /** Each breakdown counts by its own column, with "direct" for a missing referrer and "unknown" for the others. */
  ghost predicate ColumnsTallied(breakdowns: map<Column, map<string, nat>>, rows: seq<ClickRow>, code: string) {
    && (forall c: Column :: c in breakdowns)
    && Tallies(breakdowns[Country], rows, code, (click: ClickEvent) => click.country, "unknown")
    && Tallies(breakdowns[Device], rows, code, (click: ClickEvent) => click.deviceType, "unknown")
    && Tallies(breakdowns[Browser], rows, code, (click: ClickEvent) => click.browser, "unknown")
    && Tallies(breakdowns[Referrer], rows, code, (click: ClickEvent) => click.referrer, "direct")
  }

  lemma AnswerTallies(rows: seq<ClickRow>, code: string, groups: ColumnGroups, breakdowns: map<Column, map<string, nat>>)
    requires Complete(groups)
    requires forall c: Column {:trigger BucketOf(c)} :: IsGroupBy(groups[c], KeysOf(rows, code, BucketOf(c)))
    requires forall c: Column :: c in breakdowns && breakdowns[c] == RecordOf(groups[c])
    ensures ColumnsTallied(breakdowns, rows, code)
  {
    ColumnTallies(rows, code, Country, groups[Country], (click: ClickEvent) => click.country, "unknown");
    ColumnTallies(rows, code, Device, groups[Device], (click: ClickEvent) => click.deviceType, "unknown");
    ColumnTallies(rows, code, Browser, groups[Browser], (click: ClickEvent) => click.browser, "unknown");
    ColumnTallies(rows, code, Referrer, groups[Referrer], (click: ClickEvent) => click.referrer, "direct");
  }

  /** getStats: the count query, and the loops over the grouped answers. */
  method GetStats(rows: seq<ClickRow>, code: string, days: seq<Group>, groups: ColumnGroups, ghost day: Bucket)
    returns (stats: ClickStats)
    requires Complete(groups)
    ensures stats.totalClicks == CountByShortCode(rows, code) && stats.clicksByDay == days
    ensures forall c: Column :: c in stats.breakdowns && stats.breakdowns[c] == RecordOf(groups[c])
    ensures Queried(rows, code, day, days, groups) ==>
              AddsUp(stats, rows, code, day) && ColumnsTallied(stats.breakdowns, rows, code)
  {
    var total := 0;
    for i := 0 to |rows|
      invariant total == CountByShortCode(rows[..i], code)
    {
      assert rows[..i + 1][..i] == rows[..i];
      if rows[i].click.shortCode == code {
        total := total + 1;
      }
    }
    assert rows[..|rows|] == rows;
    var countries := BuildRecord(groups[Country]);
    var devices := BuildRecord(groups[Device]);
    var browsers := BuildRecord(groups[Browser]);
    var referrers := BuildRecord(groups[Referrer]);
    stats := ClickStats(total, days, map[Country := countries, Device := devices, Browser := browsers, Referrer := referrers]);
    forall c: Column ensures c in stats.breakdowns && stats.breakdowns[c] == RecordOf(groups[c]) {
      match c {
        case Country =>
        case Device =>
        case Browser =>
        case Referrer =>
      }
    }
    if Queried(rows, code, day, days, groups) {
      AnswerAddsUp(rows, code, day, days, groups, stats);
      AnswerTallies(rows, code, groups, stats.breakdowns);
    }
  }

  // ---------------------------------------------------------------- the LEFT JOIN of the list

  function ClicksOf(rows: seq<ClickRow>, code: string): seq<ClickRow> {
    if rows == [] then []
    else ClicksOf(rows[..|rows| - 1], code) + (if rows[|rows| - 1].click.shortCode == code then [rows[|rows| - 1]] else [])
  }

  /** The rows a link contributes to the join: its clicks, or one row of NULLs. */
  function LeftJoined(rows: seq<ClickRow>, code: string): (joined: seq<Option<ClickRow>>)
    ensures joined != []
  {
    var clicks := ClicksOf(rows, code);
    if clicks == [] then [None] else seq(|clicks|, i requires 0 <= i < |clicks| => Some(clicks[i]))
  }

  /** count(column) counts the rows where the column is not NULL. */
  function CountNotNull(joined: seq<Option<ClickRow>>): nat {
    if joined == [] then 0 else (if joined[0].Some? then 1 else 0) + CountNotNull(joined[1..])
  }

  lemma {:induction false} AllNotNull(joined: seq<Option<ClickRow>>)
    requires forall j <- joined :: j.Some?
    ensures CountNotNull(joined) == |joined|
  {
    if joined != [] {
      AllNotNull(joined[1..]);
    }
  }

  lemma {:induction false} ClicksOfCounts(rows: seq<ClickRow>, code: string)
    ensures |ClicksOf(rows, code)| == CountByShortCode(rows, code)
  {
    if rows != [] {
      ClicksOfCounts(rows[..|rows| - 1], code);
    }
  }

  /** The list shows the same number as the detail page, zero for a link nobody clicked. */
  lemma ListCountIsClickCount(rows: seq<ClickRow>, code: string)
    ensures CountNotNull(LeftJoined(rows, code)) == CountByShortCode(rows, code)
  {
    ClicksOfCounts(rows, code);
    var joined := LeftJoined(rows, code);
    if ClicksOf(rows, code) != [] {
      AllNotNull(joined);
    } else {
      assert joined == [None] && joined[1..] == [];
    }
  }

  // ---------------------------------------------------------------- all links of a user

  predicate OwnedAt(db: Urls.Db, user: Urls.UserId, id: RowId) {
    id in db.rows && db.rows[id].userId == Some(user)
  }

  /** How many of the user's links below id n carry the code. */
  function LinksWith(db: Urls.Db, user: Urls.UserId, code: string, n: RowId): nat {
    if n == 0 then 0
    else LinksWith(db, user, code, n - 1) + if OwnedAt(db, user, n - 1) && db.rows[n - 1].shortCode == code then 1 else 0
  }

  function Copies(key: string, n: nat): seq<string> {
    seq(n, i => key)
  }

  /** The bucket of every row of clicks INNER JOIN the user's links. */
  function JoinedKeys(rows: seq<ClickRow>, db: Urls.Db, user: Urls.UserId, bucket: Bucket): seq<string> {
    if rows == [] then []
    else
      var last := rows[|rows| - 1].click;
      JoinedKeys(rows[..|rows| - 1], db, user, bucket) + Copies(bucket(last), LinksWith(db, user, last.shortCode, db.nextId))
  }

  /** countForUser: the size of the join. */
  function CountForUser(rows: seq<ClickRow>, db: Urls.Db, user: Urls.UserId): nat {
    if rows == [] then 0
    else CountForUser(rows[..|rows| - 1], db, user) + LinksWith(db, user, rows[|rows| - 1].click.shortCode, db.nextId)
  }

  /** With `since`, only clicks from then on. */
  function Since(rows: seq<ClickRow>, since: Time): seq<ClickRow> {
    if rows == [] then []
    else Since(rows[..|rows| - 1], since) + (if rows[|rows| - 1].click.clickedAt >= since then [rows[|rows| - 1]] else [])
  }

  /** The click counts of the user's links below id n, added up. */
  function SumOverLinks(rows: seq<ClickRow>, db: Urls.Db, user: Urls.UserId, n: RowId): nat {
    if n == 0 then 0
    else
      SumOverLinks(rows, db, user, n - 1)
      + if OwnedAt(db, user, n - 1) then CountByShortCode(rows, db.rows[n - 1].shortCode) else 0
  }

  lemma {:induction false} OneMoreClick(rows: seq<ClickRow>, db: Urls.Db, user: Urls.UserId, n: RowId)
    requires rows != []
    ensures SumOverLinks(rows, db, user, n)
         == SumOverLinks(rows[..|rows| - 1], db, user, n) + LinksWith(db, user, rows[|rows| - 1].click.shortCode, n)
  {
    if n > 0 {
      OneMoreClick(rows, db, user, n - 1);
    }
  }

  lemma {:induction false} NoClicks(db: Urls.Db, user: Urls.UserId, n: RowId)
    ensures SumOverLinks([], db, user, n) == 0
  {
    if n > 0 {
      NoClicks(db, user, n - 1);
    }
  }

  /** The user's total is the sum over the user's links. */
  lemma {:induction false} UserTotalIsSumOverLinks(rows: seq<ClickRow>, db: Urls.Db, user: Urls.UserId)
    ensures CountForUser(rows, db, user) == SumOverLinks(rows, db, user, db.nextId)
  {
    if rows == [] {
      NoClicks(db, user, db.nextId);
    } else {
      UserTotalIsSumOverLinks(rows[..|rows| - 1], db, user);
      OneMoreClick(rows, db, user, db.nextId);
    }
  }

  /** Short codes are unique, so a click joins at most one link: it is counted once if its link is the user's. */
  lemma {:induction false} ClickCountsOnce(db: Urls.Db, user: Urls.UserId, code: string, n: RowId)
    requires Urls.Valid(db) && n <= db.nextId
    ensures LinksWith(db, user, code, n)
         == if exists id <- db.rows :: id < n && Urls.OwnedBy(db.rows[id], code, user) then 1 else 0
  {
    if n > 0 {
      ClickCountsOnce(db, user, code, n - 1);
      if OwnedAt(db, user, n - 1) && db.rows[n - 1].shortCode == code {
        assert Urls.OwnedBy(db.rows[n - 1], code, user);
        assert forall id <- db.rows :: id < n - 1 ==> !Urls.OwnedBy(db.rows[id], code, user);
      }
    }
  }

  /** The clicks whose link the user owns. */
  ghost function OwnedClicks(rows: seq<ClickRow>, db: Urls.Db, user: Urls.UserId): nat {
    if rows == [] then 0
    else
      OwnedClicks(rows[..|rows| - 1], db, user)
      + if Urls.FindOwned(db, rows[|rows| - 1].click.shortCode, user).Some? then 1 else 0
  }

  lemma {:induction false} UserTotalCountsOwnedClicks(rows: seq<ClickRow>, db: Urls.Db, user: Urls.UserId)
    requires Urls.Valid(db)
    ensures CountForUser(rows, db, user) == OwnedClicks(rows, db, user)
  {
    if rows != [] {
      UserTotalCountsOwnedClicks(rows[..|rows| - 1], db, user);
      var code := rows[|rows| - 1].click.shortCode;
      ClickCountsOnce(db, user, code, db.nextId);
      Urls.FindFinds(db, code);
      Urls.IdsInUse(db);
    }
  }

  lemma {:induction false} JoinedKeysCount(rows: seq<ClickRow>, db: Urls.Db, user: Urls.UserId, bucket: Bucket)
    ensures |JoinedKeys(rows, db, user, bucket)| == CountForUser(rows, db, user)
  {
    if rows != [] {
      JoinedKeysCount(rows[..|rows| - 1], db, user, bucket);
    }
  }

  /**
   * The dashboard agrees with itself: every user-level breakdown adds up to the user's click total (under the
   * same condition on keys), and that total is the sum of the click counts of the user's links.
   */
  lemma UserStatsAgree(rows: seq<ClickRow>, db: Urls.Db, user: Urls.UserId, groups: seq<Group>, c: Column)
    requires IsGroupBy(groups, JoinedKeys(rows, db, user, BucketOf(c)))
    ensures CountForUser(rows, db, user) == SumOverLinks(rows, db, user, db.nextId)
    ensures Total(RecordOf(groups)) == CountForUser(rows, db, user) <==> PROTO !in JoinedKeys(rows, db, user, BucketOf(c))
  {
    UserTotalIsSumOverLinks(rows, db, user);
    JoinedKeysCount(rows, db, user, BucketOf(c));
    BreakdownAddsUp(groups, JoinedKeys(rows, db, user, BucketOf(c)));
  }

  /** Today's clicks are among the clicks: a count since some time never exceeds the total. */
  lemma {:induction false} SinceIsPart(rows: seq<ClickRow>, db: Urls.Db, user: Urls.UserId, since: Time)
    ensures CountForUser(Since(rows, since), db, user) <= CountForUser(rows, db, user)
    ensures forall r :: r in Since(rows, since) <==> r in rows && r.click.clickedAt >= since
  {
    if rows != [] {
      var init, last := rows[..|rows| - 1], rows[|rows| - 1];
      SinceIsPart(init, db, user, since);
      if last.click.clickedAt >= since {
        var kept := Since(rows, since);
        assert kept == Since(init, since) + [last];
        assert kept[..|kept| - 1] == Since(init, since);
      } else {
        assert Since(rows, since) == Since(init, since);
      }
    }
  }
}
