/** The local database: a durable event queue, scan cursors and the last heartbeat of each session. */
module LocalStore {
  import opened Domain
  import opened LocalTables
  import opened Projection
  import Ranging
  import Sorting

  class Store {
    /** The text of an instant in the database. */
    const stamp: Time -> string
    var events: map<string, Row>
    var cursors: map<string, Cursor>
    var metricCursors: map<string, MetricCursor>
    var heartbeats: map<string, HookHeartbeat>
    var parserErrors: seq<(string, nat)>

    constructor (stamp: Time -> string)
      ensures this.stamp == stamp
      ensures events == map[] && cursors == map[] && metricCursors == map[] && heartbeats == map[] && parserErrors == []
    {
      this.stamp := stamp;
      events, cursors, metricCursors, heartbeats, parserErrors := map[], map[], map[], map[], [];
    }

    method InsertEvents(batch: seq<Event>) returns (table: map<string, Row>)
      ensures table == InsertAll(events, batch)
    {
      table := events;
      for i := 0 to |batch|
        invariant table == InsertAll(events, batch[..i])
      {
        assert batch[..i + 1] == batch[..i] + [batch[i]];
        InsertAllSnoc(events, batch[..i], batch[i]);
        if !(batch[i].id in table || SlotTaken(table, batch[i])) {
          table := table[batch[i].id := Row(batch[i], Pending)];
        }
      }
      assert batch[..|batch|] == batch;
    }

    /** Events and cursor are committed together. */
    method CommitParsed(path: string, cursor: Cursor, batch: seq<Event>)
      modifies this`events, this`cursors
      ensures events == InsertAll(old(events), batch)
      ensures cursors == old(cursors)[path := cursor]
    {
      events := InsertEvents(batch);
      cursors := cursors[path := cursor];
    }

    method CommitMetrics(path: string, cursor: MetricCursor, batch: seq<Event>)
      modifies this`events, this`metricCursors
      ensures events == InsertAll(old(events), batch)
      ensures metricCursors == old(metricCursors)[path := cursor]
    {
      events := InsertEvents(batch);
      metricCursors := metricCursors[path := cursor];
    }

    method CursorFor(path: string) returns (cursor: Cursor)
      ensures cursor == if path in cursors then cursors[path] else NO_CURSOR
    {
      cursor := if path in cursors then cursors[path] else NO_CURSOR;
    }

    method MetricCursorFor(path: string) returns (cursor: MetricCursor)
      ensures cursor == if path in metricCursors then metricCursors[path] else NO_METRIC_CURSOR
    {
      cursor := if path in metricCursors then metricCursors[path] else NO_METRIC_CURSOR;
    }

    method RecordParserError(path: string, offset: nat)
      modifies this`parserErrors
      ensures parserErrors == old(parserErrors) + [(path, offset)]
    {
      parserErrors := parserErrors + [(path, offset)];
    }

    method ResetCursors()
      modifies this`cursors, this`parserErrors
      ensures cursors == map[] && parserErrors == []
    {
      cursors := map[];
      parserErrors := [];
    }

    /** All the events, or none when one of them meets another row in its slot. */
    method Enqueue(batch: seq<Event>) returns (ok: bool)
      modifies this`events
      ensures ok <==> UpsertAll(old(events), batch).Some?
      ensures events == if ok then UpsertAll(old(events), batch).value else old(events)
    {
      var table := events;
      for i := 0 to |batch|
        invariant UpsertAll(events, batch[..i]) == Some(table) && events == old(events)
      {
        assert batch[..i + 1][..i] == batch[..i];
        var next := Upsert(table, batch[i]);
        if next.None? {
          UpsertAllFails(events, batch, i + 1);
          return false;
        }
        table := next.value;
      }
      assert batch[..|batch|] == batch;
      events := table;
      ok := true;
    }

    /** The events of some rows, each once, in the order of their texts of time. */
    method OrderedEvents(ids: set<string>) returns (log: seq<Event>)
      requires ids <= events.Keys
      ensures |log| == |ids| && ListsEvents(log, events, ids)
      ensures Sorting.SortedBy(ByStamp(stamp), log)
      ensures KeyedRows(events) ==> Ranging.Distinct(log)
    {
      var order := Ranging.Enumerate(ids);
      Ranging.ListsLength(order, ids);
      var rows: seq<Event> := [];
      for i := 0 to |order|
        invariant |rows| == i
        invariant forall k :: 0 <= k < i ==> order[k] in ids && rows[k] == events[order[k]].event
      {
        assert order[i] in Ranging.Elements(order);
        rows := rows + [events[order[i]].event];
      }
      RowsListed(events, ids, order, rows);
      ByStampTotalPreorder(stamp);
      Sorting.SortSorts(ByStamp(stamp), rows);
      Sorting.SortPermutes(ByStamp(stamp), rows);
      log := Sorting.Sort(ByStamp(stamp), rows);
      assert |multiset(log)| == |multiset(rows)|;
      SameListing(events, ids, rows, log);
    }

    /** The events whose texts of time lie in the window. */
    method Events(from: Time, to: Time) returns (log: seq<Event>)
      ensures ListsEvents(log, events, WindowRows(stamp, events, from, to))
      ensures forall i, j :: 0 <= i < j < |log| ==> StringLe(stamp(log[i].occurredAt), stamp(log[j].occurredAt))
    {
      log := OrderedEvents(WindowRows(stamp, events, from, to));
      assert forall i, j :: 0 <= i < j < |log| ==> ByStamp(stamp)(log[i], log[j]);
    }

    /** At most `limit` pending events, each once, and those with the earliest texts of time. */
    method PendingEvents(limit: nat) returns (batch: seq<Event>)
      ensures |batch| == if |PendingRows(events)| < limit then |PendingRows(events)| else limit
      ensures forall e :: e in batch ==> exists id :: id in events && events[id] == Row(e, Pending)
      ensures forall i, j :: 0 <= i < j < |batch| ==> StringLe(stamp(batch[i].occurredAt), stamp(batch[j].occurredAt))
      ensures forall id, e :: id in PendingRows(events) && events[id].event !in batch && e in batch ==>
                StringLe(stamp(e.occurredAt), stamp(events[id].event.occurredAt))
      ensures KeyedRows(events) ==> Ranging.Distinct(batch)
    {
      var log := OrderedEvents(PendingRows(events));
      batch := if |log| < limit then log else log[..limit];
      forall e | e in batch
        ensures exists id :: id in events && events[id] == Row(e, Pending)
      {
        assert e in log;
        var id :| id in PendingRows(events) && events[id].event == e;
        assert events[id] == Row(e, Pending);
      }
      forall id, e | id in PendingRows(events) && events[id].event !in batch && e in batch
        ensures StringLe(stamp(e.occurredAt), stamp(events[id].event.occurredAt))
      {
        assert events[id].event in log;
        LeftOutLater(ByStamp(stamp), log, batch, e, events[id].event);
      }
      assert forall i, j :: 0 <= i < j < |batch| ==> ByStamp(stamp)(log[i], log[j]);
    }

    method MarkAcknowledged(ids: seq<string>)
      modifies this`events
      ensures events == AckAll(old(events), ids)
    {
      var table := events;
      for i := 0 to |ids|
        invariant table == AckAll(old(events), ids[..i]) && events == old(events)
      {
        assert ids[..i + 1] == ids[..i] + [ids[i]];
        if ids[i] in table {
          table := table[ids[i] := table[ids[i]].(sync := Acknowledged)];
        }
      }
      assert ids[..|ids|] == ids;
      events := table;
    }

    method AdvanceHookHeartbeat(heartbeat: HookHeartbeat, timeout: int) returns (interval: Option<HookInterval>)
      modifies this`heartbeats
      ensures (heartbeats, interval) == Advance(old(heartbeats), heartbeat, timeout)
    {
      var s := heartbeat.sessionId;
      var hadPrevious := s in heartbeats;
      var previous := heartbeat;
      if hadPrevious {
        previous := heartbeats[s];
        if !(heartbeat.occurredAt > previous.occurredAt) {
          return None;
        }
      }
      heartbeats := heartbeats[s := heartbeat];
      if !hadPrevious {
        return None;
      }
      var gap := heartbeat.occurredAt - previous.occurredAt;
      if gap <= 0 || gap > timeout {
        return None;
      }
      interval := Some(HookInterval(previous.occurredAt, heartbeat.occurredAt, previous.sessionId, previous.project,
                                    previous.model));
    }
  }

  lemma LeftOutLater(le: (Event, Event) -> bool, log: seq<Event>, front: seq<Event>, a: Event, b: Event)
    requires Sorting.SortedBy(le, log) && front <= log
    requires a in front && b in log && b !in front
    ensures le(a, b)
  {
    var i :| 0 <= i < |front| && front[i] == a;
    var j :| 0 <= j < |log| && log[j] == b;
    assert forall k :: 0 <= k < |front| ==> log[k] in front;
  }

  lemma RowsListed(table: map<string, Row>, ids: set<string>, order: seq<string>, rows: seq<Event>)
    requires ids <= table.Keys && Ranging.Lists(order, ids) && |rows| == |order|
    requires forall k :: 0 <= k < |order| ==> order[k] in ids && rows[k] == table[order[k]].event
    ensures ListsEvents(rows, table, ids)
    ensures KeyedRows(table) ==> Ranging.Distinct(rows)
  {
    forall id | id in ids
      ensures table[id].event in rows
    {
      assert id in Ranging.Elements(order);
      var k :| 0 <= k < |order| && order[k] == id;
      assert rows[k] == table[id].event;
    }
  }

  lemma SameListing(table: map<string, Row>, ids: set<string>, rows: seq<Event>, log: seq<Event>)
    requires multiset(rows) == multiset(log) && ListsEvents(rows, table, ids)
    ensures ListsEvents(log, table, ids)
    ensures Ranging.Distinct(rows) ==> Ranging.Distinct(log)
  {
    if Ranging.Distinct(rows) {
      Ranging.DistinctPermutes(rows, log);
    }
    assert forall e :: e in log <==> e in multiset(log);
    assert forall e :: e in rows <==> e in multiset(rows);
  }
}
