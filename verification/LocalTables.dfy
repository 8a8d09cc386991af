/** The local database's tables as values, and what its statements do to them. */
module LocalTables {
  import opened Domain
  import opened EventOrder
  import opened Projection
  import Sorting

  datatype SyncState = Pending | Acknowledged
  datatype Row = Row(event: Event, sync: SyncState)

  /** Progress of the transcript parser through one file. */
  datatype Cursor = Cursor(
    fileIdentity: string, byteOffset: nat, lastEventId: string, lastSequence: int,
    sessionId: string, project: ProjectInfo, cwd: string)

  const NO_CURSOR := Cursor("", 0, "", 0, "", NO_PROJECT, "")

  datatype MetricState = MetricState(
    sessionId: string, project: ProjectInfo, activeTurn: string, model: string, effort: string,
    baseline: Tokens, current: Tokens, last: Tokens)

  const NO_METRICS := MetricState("", NO_PROJECT, "", "", "", NO_TOKENS, NO_TOKENS, NO_TOKENS)

  /** Progress of the metric scanner through one file. */
  datatype MetricCursor = MetricCursor(fileIdentity: string, byteOffset: nat, state: MetricState)

  const NO_METRIC_CURSOR := MetricCursor("", 0, NO_METRICS)

  datatype HookHeartbeat = HookHeartbeat(sessionId: string, project: ProjectInfo, model: string, occurredAt: Time)

  datatype HookInterval = HookInterval(startedAt: Time, endedAt: Time, sessionId: string, project: ProjectInfo,
                                       model: string)

  // ----- events: unique id, unique (machine, session, sequence) -----

  predicate SlotTaken(table: map<string, Row>, e: Event) {
    exists id :: id in table && SameSlot(table[id].event, e)
  }

  /** Some unique key of the table already holds the event's key. */
  predicate Present(table: map<string, Row>, e: Event) {
    e.id in table || SlotTaken(table, e)
  }

  /** INSERT ... ON CONFLICT DO NOTHING */
  function InsertIgnore(table: map<string, Row>, e: Event): map<string, Row> {
    if Present(table, e) then table else table[e.id := Row(e, Pending)]
  }

  function InsertAll(table: map<string, Row>, events: seq<Event>): map<string, Row> {
    if |events| == 0 then table else InsertIgnore(InsertAll(table, events[..|events| - 1]), events[|events| - 1])
  }

  /** INSERT ... ON CONFLICT(id) DO UPDATE, for a Wakapi row whose time or payload changed; another
      row in the slot fails the statement. */
  function Upsert(table: map<string, Row>, e: Event): Option<map<string, Row>> {
    if e.id in table then
      var stored := table[e.id].event;
      if stored.source == Wakapi && (stored.occurredAt != e.occurredAt || stored.payload != e.payload) then
        Some(table[e.id := Row(stored.(occurredAt := e.occurredAt, payload := e.payload), Pending)])
      else Some(table)
    else if SlotTaken(table, e) then None
    else Some(table[e.id := Row(e, Pending)])
  }

  function UpsertAll(table: map<string, Row>, events: seq<Event>): Option<map<string, Row>> {
    if |events| == 0 then Some(table)
    else
      var before := UpsertAll(table, events[..|events| - 1]);
      if before.None? then None else Upsert(before.value, events[|events| - 1])
  }

  lemma {:induction false} UpsertAllFails(table: map<string, Row>, events: seq<Event>, i: nat)
    requires i <= |events| && UpsertAll(table, events[..i]).None?
    ensures UpsertAll(table, events).None?
    decreases |events| - i
  {
    if i < |events| {
      assert events[..i + 1][..i] == events[..i];
      UpsertAllFails(table, events, i + 1);
    } else {
      assert events[..i] == events;
    }
  }

  /** ORDER BY occurred_at, which is text. */
  function ByStamp(stamp: Time -> string): (Event, Event) -> bool {
    (a: Event, b: Event) => StringLe(stamp(a.occurredAt), stamp(b.occurredAt))
  }

  /** WHERE occurred_at >= from AND occurred_at < to, which compares texts. */
  predicate InWindow(stamp: Time -> string, from: Time, to: Time, e: Event) {
    StringLe(stamp(from), stamp(e.occurredAt)) && !StringLe(stamp(to), stamp(e.occurredAt))
  }

  function WindowRows(stamp: Time -> string, table: map<string, Row>, from: Time, to: Time): set<string> {
    set id | id in table && InWindow(stamp, from, to, table[id].event)
  }

  ghost predicate KeyedRows(table: map<string, Row>) {
    forall id :: id in table ==> table[id].event.id == id
  }

  /** The log lists the events of the rows. */
  ghost predicate ListsEvents(log: seq<Event>, table: map<string, Row>, ids: set<string>) {
    forall e :: e in log <==> exists id :: id in ids && id in table && table[id].event == e
  }

  lemma ByStampTotalPreorder(stamp: Time -> string)
    ensures Sorting.TotalPreorder(ByStamp(stamp))
  {
    forall a, b
      ensures Sorting.Comparable(ByStamp(stamp), a, b)
    {
      StringLeTotal(stamp(a.occurredAt), stamp(b.occurredAt));
    }
    forall a, b, c
      ensures Sorting.Chained(ByStamp(stamp), a, b, c)
    {
      if ByStamp(stamp)(a, b) && ByStamp(stamp)(b, c) {
        StringLeTransitive(stamp(a.occurredAt), stamp(b.occurredAt), stamp(c.occurredAt));
      }
    }
  }

  function AckAll(table: map<string, Row>, ids: seq<string>): map<string, Row> {
    map id | id in table :: if id in ids then table[id].(sync := Acknowledged) else table[id]
  }

  function PendingRows(table: map<string, Row>): set<string> {
    set id | id in table && table[id].sync == Pending
  }

  // ----- hook_heartbeats -----

  /** Stores a later heartbeat; two that are close enough bound an interval of work. */
  function Advance(table: map<string, HookHeartbeat>, heartbeat: HookHeartbeat, timeout: int)
    : (map<string, HookHeartbeat>, Option<HookInterval>)
  {
    var s := heartbeat.sessionId;
    if s in table && heartbeat.occurredAt <= table[s].occurredAt then (table, None)
    else
      var table' := table[s := heartbeat];
      if s !in table then (table', None)
      else
        var previous := table[s];
        if heartbeat.occurredAt - previous.occurredAt > timeout then (table', None)
        else
          (table', Some(HookInterval(previous.occurredAt, heartbeat.occurredAt, previous.sessionId, previous.project,
                                     previous.model)))
  }

  // ----- Inserting is idempotent -----

  lemma InsertAllSnoc(table: map<string, Row>, events: seq<Event>, e: Event)
    ensures InsertAll(table, events + [e]) == InsertIgnore(InsertAll(table, events), e)
  {
    assert (events + [e])[..|events|] == events;
  }

  lemma {:induction false} InsertAllConcat(table: map<string, Row>, a: seq<Event>, b: seq<Event>)
    ensures InsertAll(table, a + b) == InsertAll(InsertAll(table, a), b)
  {
    if |b| == 0 {
      assert a + b == a;
    } else {
      var b', e := b[..|b| - 1], b[|b| - 1];
      InsertAllConcat(table, a, b');
      assert a + b == (a + b') + [e];
      InsertAllSnoc(table, a + b', e);
    }
  }

  lemma InsertKeeps(table: map<string, Row>, e: Event, x: Event)
    requires Present(table, x)
    ensures Present(InsertIgnore(table, e), x)
  {
    var table' := InsertIgnore(table, e);
    if x.id !in table {
      var id :| id in table && SameSlot(table[id].event, x);
      assert id in table' && SameSlot(table'[id].event, x);
    }
  }

  lemma InsertPresent(table: map<string, Row>, e: Event)
    ensures Present(InsertIgnore(table, e), e)
  {
  }

  lemma {:induction false} InsertAllKeeps(table: map<string, Row>, events: seq<Event>, x: Event)
    requires Present(table, x) || x in events
    ensures Present(InsertAll(table, events), x)
  {
    if |events| > 0 {
      var before, e := events[..|events| - 1], events[|events| - 1];
      assert events == before + [e];
      if x == e {
        InsertPresent(InsertAll(table, before), e);
      } else {
        InsertAllKeeps(table, before, x);
        InsertKeeps(InsertAll(table, before), e, x);
      }
    }
  }

  lemma {:induction false} InsertPresentNothing(table: map<string, Row>, events: seq<Event>)
    requires forall e :: e in events ==> Present(table, e)
    ensures InsertAll(table, events) == table
  {
    if |events| > 0 {
      var before, e := events[..|events| - 1], events[|events| - 1];
      assert events == before + [e];
      InsertPresentNothing(table, before);
    }
  }

  /** Committing a stretch of events again changes nothing, whatever came in between. */
  lemma InsertAgain(table: map<string, Row>, events: seq<Event>, between: seq<Event>)
    ensures var after := InsertAll(InsertAll(table, events), between);
            InsertAll(after, events) == after
  {
    var after := InsertAll(InsertAll(table, events), between);
    forall e | e in events
      ensures Present(after, e)
    {
      InsertAllKeeps(table, events, e);
      InsertAllKeeps(InsertAll(table, events), between, e);
    }
    InsertPresentNothing(after, events);
  }

  // ----- What an upsert leaves -----

  /** The event that a queue row holds after a batch: a Wakapi row takes time and payload from the last event sent
      under its id, any other row keeps what it first held. */
  ghost predicate HoldsLatest(table: map<string, Row>, events: seq<Event>, after: map<string, Row>, id: string) {
    && (forall j :: 0 <= j < |events| && events[j].id == id ==> id in after)
    && (id in table ==> id in after && after[id].event.id == table[id].event.id
                        && after[id].event.source == table[id].event.source)
    && (id in after && after[id].event.source == Wakapi ==>
          forall j :: 0 <= j < |events| && events[j].id == id && (forall k :: j < k < |events| ==> events[k].id != id)
            ==> after[id].event.occurredAt == events[j].occurredAt && after[id].event.payload == events[j].payload)
    && (id in table && table[id].event.source != Wakapi ==> after[id] == table[id])
  }

  /** A row that was not there, or whose event changed, is pending, whatever it was; any other row stays as it is. */
  ghost predicate PendingAgain(table: map<string, Row>, after: map<string, Row>, id: string) {
    && (id in after && id !in table ==> after[id].sync == Pending)
    && (id in table && id in after && after[id] != table[id] ==> after[id].sync == Pending)
  }

  lemma UpsertOne(table: map<string, Row>, before: map<string, Row>, events: seq<Event>, e: Event, id: string)
    requires HoldsLatest(table, events, before, id) && PendingAgain(table, before, id) && Upsert(before, e).Some?
    requires KeyedRows(before)
    ensures
      var after := Upsert(before, e).value;
      KeyedRows(after) && HoldsLatest(table, events + [e], after, id) && PendingAgain(table, after, id)
  {
    var after, all := Upsert(before, e).value, events + [e];
    if id in after && after[id].event.source == Wakapi {
      forall j | 0 <= j < |all| && all[j].id == id && (forall k :: j < k < |all| ==> all[k].id != id)
        ensures after[id].event.occurredAt == all[j].occurredAt && after[id].event.payload == all[j].payload
      {
        if j < |events| {
          assert all[|events|].id != id;
          assert forall k :: j < k < |events| ==> events[k] == all[k];
        }
      }
    }
    assert forall j :: 0 <= j < |all| && all[j].id == id ==> j == |events| || events[j].id == id;
  }

  lemma {:induction false} UpsertAllTold(table: map<string, Row>, events: seq<Event>, id: string)
    requires KeyedRows(table) && UpsertAll(table, events).Some?
    ensures
      var after := UpsertAll(table, events).value;
      KeyedRows(after) && HoldsLatest(table, events, after, id) && PendingAgain(table, after, id)
  {
    if |events| > 0 {
      var front, e := events[..|events| - 1], events[|events| - 1];
      assert events == front + [e];
      UpsertAllTold(table, front, id);
      UpsertOne(table, UpsertAll(table, front).value, front, e, id);
    }
  }

  /** When texts sort like the times they stand for, the window is the half-open interval of times. */
  lemma WindowIsTimes(stamp: Time -> string, from: Time, to: Time, e: Event)
    requires forall s, t :: StringLe(stamp(s), stamp(t)) <==> s <= t
    ensures InWindow(stamp, from, to, e) <==> from <= e.occurredAt < to
  {
  }
}
