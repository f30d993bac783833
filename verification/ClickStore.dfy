/**
 * The click_events table and its idempotent writer (apps/api/src/analytics/click-event-repository.ts).
 *
 * The table is a list of rows under a unique constraint on event_id; the lemmas show that it refines a
 * map keyed by event id whatever duplicates the transport produces.
 */
module ClickStore {
  import opened Types

  datatype ClickRow = ClickRow(eventId: EventId, click: ClickEvent)

  datatype RecordClickResult = Inserted | Duplicate

  predicate HasId(rows: seq<ClickRow>, e: EventId) {
    exists i :: 0 <= i < |rows| && rows[i].eventId == e
  }

  function Ids(rows: seq<ClickRow>): set<EventId> {
    set r | r in rows :: r.eventId
  }

  ghost predicate Unique(rows: seq<ClickRow>) {
    forall i, j :: 0 <= i < j < |rows| ==> rows[i].eventId != rows[j].eventId
  }

  lemma HasIdIsMembership(rows: seq<ClickRow>, e: EventId)
    ensures HasId(rows, e) <==> e in Ids(rows)
  {
    if HasId(rows, e) {
      var i :| 0 <= i < |rows| && rows[i].eventId == e;
      assert rows[i] in rows;
    }
  }

  // ---------------------------------------------------------------- INSERT … ON CONFLICT DO NOTHING

  function InsertOne(rows: seq<ClickRow>, item: ClickRow): seq<ClickRow> {
    if HasId(rows, item.eventId) then rows else rows + [item]
  }

  /** A multi-row insert: a conflict with the table or with an earlier item of the same statement skips the item. */
  function InsertAll(rows: seq<ClickRow>, items: seq<ClickRow>): seq<ClickRow> {
    if items == [] then rows
    else InsertOne(InsertAll(rows, items[..|items| - 1]), items[|items| - 1])
  }

  /**
   * What one statement does, whatever duplicates it carries: the old rows stay in place, each new row is
   * one of the items, the ids present are those of the table and of the items, and no id is there twice.
   */
  lemma {:induction false} InsertAllRefinesMap(rows: seq<ClickRow>, items: seq<ClickRow>)
    ensures var rows' := InsertAll(rows, items);
            && rows <= rows' && |rows'| <= |rows| + |items|
            && (Unique(rows) ==> Unique(rows'))
            && (forall i :: |rows| <= i < |rows'| ==> rows'[i] in items && rows'[i].eventId !in Ids(rows))
            && Ids(rows') == Ids(rows) + Ids(items)
  {
    if items != [] {
      var init, last := items[..|items| - 1], items[|items| - 1];
      InsertAllRefinesMap(rows, init);
      var before := InsertAll(rows, init);
      HasIdIsMembership(before, last.eventId);
      assert items == init + [last];
      assert Ids(items) == Ids(init) + {last.eventId};
      var after := InsertOne(before, last);
      if !HasId(before, last.eventId) {
        assert after == before + [last];
        assert Ids(after) == Ids(before) + {last.eventId};
      }
    }
  }

  /** The table as the map it refines. */
  function AsMap(rows: seq<ClickRow>): map<EventId, ClickEvent> {
    if rows == [] then map[]
    else AsMap(rows[..|rows| - 1])[rows[|rows| - 1].eventId := rows[|rows| - 1].click]
  }

  lemma OneMoreKey(m: map<EventId, ClickEvent>, e: EventId, click: ClickEvent)
    requires e !in m
    ensures |m[e := click]| == |m| + 1
  {
    assert m[e := click].Keys == m.Keys + {e};
  }

  lemma {:induction false} AsMapKeys(rows: seq<ClickRow>)
    ensures AsMap(rows).Keys == Ids(rows)
  {
    if rows != [] {
      var init, last := rows[..|rows| - 1], rows[|rows| - 1];
      AsMapKeys(init);
      assert rows == init + [last];
      assert Ids(rows) == Ids(init) + {last.eventId};
    }
  }

  /** The map has one entry for each row. */
  lemma {:induction false} AsMapLookup(rows: seq<ClickRow>)
    requires Unique(rows)
    ensures AsMap(rows).Keys == Ids(rows) && |AsMap(rows)| == |rows|
    ensures forall i :: 0 <= i < |rows| ==> rows[i].eventId in AsMap(rows) && AsMap(rows)[rows[i].eventId] == rows[i].click
  {
    AsMapKeys(rows);
    if rows != [] {
      var init, last := rows[..|rows| - 1], rows[|rows| - 1];
      AsMapLookup(init);
      OneMoreKey(AsMap(init), last.eventId, last.click);
      forall i | 0 <= i < |rows|
        ensures rows[i].eventId in AsMap(rows) && AsMap(rows)[rows[i].eventId] == rows[i].click
      {
        assert i < |init| ==> init[i] == rows[i];
      }
    }
  }

  /** First write wins: an id the table already had keeps its click. */
  lemma InsertKeepsMap(rows: seq<ClickRow>, items: seq<ClickRow>, e: EventId)
    requires Unique(rows) && e in AsMap(rows)
    ensures e in AsMap(InsertAll(rows, items)) && AsMap(InsertAll(rows, items))[e] == AsMap(rows)[e]
  {
    InsertAllRefinesMap(rows, items);
    AsMapLookup(rows);
    AsMapLookup(InsertAll(rows, items));
    var i :| 0 <= i < |rows| && rows[i].eventId == e;
    assert InsertAll(rows, items)[i] == rows[i];
  }

  // ---------------------------------------------------------------- retention and counting

  function PurgeRows(rows: seq<ClickRow>, cutoff: Time): seq<ClickRow> {
    if rows == [] then []
    else
      PurgeRows(rows[..|rows| - 1], cutoff)
      + (if rows[|rows| - 1].click.clickedAt <= cutoff then [] else [rows[|rows| - 1]])
  }

  lemma {:induction false} PurgeKeepsYoungRows(rows: seq<ClickRow>, cutoff: Time)
    ensures forall r :: r in PurgeRows(rows, cutoff) <==> r in rows && r.click.clickedAt > cutoff
    ensures Unique(rows) ==> Unique(PurgeRows(rows, cutoff))
  {
    if rows != [] {
      var init, last := rows[..|rows| - 1], rows[|rows| - 1];
      PurgeKeepsYoungRows(init, cutoff);
      assert rows == init + [last];
      if Unique(rows) {
        forall r | r in PurgeRows(init, cutoff) ensures r.eventId != last.eventId {
          assert r in init;
        }
      }
    }
  }

  /** SELECT count(*) … WHERE short_code = code. */
  function CountByShortCode(rows: seq<ClickRow>, code: string): nat {
    if rows == [] then 0
    else CountByShortCode(rows[..|rows| - 1], code) + (if rows[|rows| - 1].click.shortCode == code then 1 else 0)
  }

  ghost function EventsOf(rows: seq<ClickRow>, code: string): set<EventId> {
    set r | r in rows && r.click.shortCode == code :: r.eventId
  }

  lemma {:induction false} CountIsDistinctEvents(rows: seq<ClickRow>, code: string)
    requires Unique(rows)
    ensures CountByShortCode(rows, code) == |EventsOf(rows, code)|
  {
    if rows != [] {
      var init, last := rows[..|rows| - 1], rows[|rows| - 1];
      CountIsDistinctEvents(init, code);
      assert rows == init + [last];
      if last.click.shortCode == code {
        assert EventsOf(rows, code) == EventsOf(init, code) + {last.eventId};
        assert last.eventId !in EventsOf(init, code);
      } else {
        assert EventsOf(rows, code) == EventsOf(init, code);
      }
    }
  }

  // ---------------------------------------------------------------- the repository

  class ClickEventRepository {
    var rows: seq<ClickRow>

    constructor ()
      ensures rows == []
    {
      rows := [];
    }

    method RecordClick(event: ClickEvent, eventId: EventId) returns (r: RecordClickResult)
      modifies this
      ensures rows == InsertAll(old(rows), [ClickRow(eventId, event)])
      ensures r.Duplicate? <==> eventId in Ids(old(rows))
      ensures rows == if exists i :: 0 <= i < |old(rows)| && old(rows)[i].eventId == eventId then old(rows)
                      else old(rows) + [ClickRow(eventId, event)]
    {
      HasIdIsMembership(rows, eventId);
      ghost var item := ClickRow(eventId, event);
      assert [item][..0] == [];
      assert InsertAll(rows, []) == rows;
      assert InsertAll(rows, [item]) == InsertOne(InsertAll(rows, [item][..0]), [item][0]);
      if HasId(rows, eventId) {
        r := Duplicate;
      } else {
        rows := rows + [ClickRow(eventId, event)];
        r := Inserted;
      }
    }

    /** One statement for the whole batch; the two counts always add up to the batch. */
    method RecordClickBatch(events: seq<ClickRow>) returns (inserted: nat, duplicated: nat)
      modifies this
      ensures rows == InsertAll(old(rows), events)
      ensures inserted == |rows| - |old(rows)| && inserted + duplicated == |events|
      ensures old(rows) <= rows && Ids(rows) == Ids(old(rows)) + Ids(events) && (Unique(old(rows)) ==> Unique(rows))
      ensures forall i :: |old(rows)| <= i < |rows| ==> rows[i] in events && rows[i].eventId !in Ids(old(rows))
    {
      InsertAllRefinesMap(rows, events);
      if |events| == 0 {
        return 0, 0;
      }
      ghost var before := rows;
      inserted := 0;
      for i := 0 to |events|
        invariant rows == InsertAll(before, events[..i])
        invariant inserted == |rows| - |before| <= i
      {
        assert events[..i + 1][..i] == events[..i];
        if !HasId(rows, events[i].eventId) {
          rows := rows + [events[i]];
          inserted := inserted + 1;
        }
      }
      assert events[..|events|] == events;
      duplicated := |events| - inserted;
    }

    method PurgeClicksOlderThan(olderThanDays: nat, now: Time) returns (deleted: nat)
      modifies this
      ensures rows == PurgeRows(old(rows), now - olderThanDays * 24 * 3600 * 1000)
      ensures deleted == |old(rows)| - |rows|
      ensures forall r :: r in rows <==> r in old(rows) && r.click.clickedAt > now - olderThanDays * 24 * 3600 * 1000
    {
      var cutoff := now - olderThanDays * 24 * 3600 * 1000;
      var kept := [];
      for i := 0 to |rows|
        invariant kept == PurgeRows(rows[..i], cutoff) && |kept| <= i
      {
        assert rows[..i + 1][..i] == rows[..i];
        if rows[i].click.clickedAt > cutoff {
          kept := kept + [rows[i]];
        }
      }
      assert rows[..|rows|] == rows;
      PurgeKeepsYoungRows(rows, cutoff);
      deleted := |rows| - |kept|;
      rows := kept;
    }
  }
}
