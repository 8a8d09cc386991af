/** Inputs at which the program does less than one would expect. */
module Findings {
  import opened Domain
  import opened ProjectTable
  import opened Projection
  import opened Rebuilding
  import opened ServerTables
  import opened WorkUnits
  import L = LocalTables
  import MetricRows
  import Metrics
  import Parser
  import Ranging
  import ServerHistory
  import SyncClient
  import Termination
  import Transcript
  import Wakapi

  // ----- A completion after the session was closed -----

  /** After a session was closed, the run's own completion is ignored: a log of three events that shows it. */
  lemma SessionEndIsNotCorrected(start: Event, closed: Event, end: Event)
    requires start.kind == RunStarted && closed.kind == SessionClosed && end.kind == RunCompleted
    requires start.runId == end.runId != "" && start.sessionId == closed.sessionId == end.sessionId
    requires start.sequence < closed.sequence < end.sequence
    requires start.id != "" && closed.id != "" && end.id != ""
    requires start.id != closed.id && start.id != end.id && closed.id != end.id
    ensures
      var runs := ProjectedRuns([start, closed, end]);
      start.runId in runs && runs[start.runId].status == Interrupted && runs[start.runId].closeReason == SessionEnd
  {
    ProjectInSequence([start, closed, end]);
    SessionEndStays(start, closed, end);
  }

  lemma SessionEndStays(start: Event, closed: Event, end: Event)
    requires start.kind == RunStarted && closed.kind == SessionClosed && end.kind == RunCompleted
    requires start.runId == end.runId != "" && start.sessionId == closed.sessionId == end.sessionId
    ensures
      var runs := Fold([start, closed, end]).runs;
      start.runId in runs && runs[start.runId].status == Interrupted && runs[start.runId].closeReason == SessionEnd
  {
    StartThenClose(start, closed);
    Termination.InferredClosureCorrected([start, closed], end, start.runId);
    assert [start, closed] + [end] == [start, closed, end];
  }

  lemma StartThenClose(start: Event, closed: Event)
    requires start.kind == RunStarted && closed.kind == SessionClosed
    requires start.runId != "" && start.sessionId == closed.sessionId
    ensures
      var runs := Fold([start, closed]).runs;
      start.runId in runs && runs[start.runId].status == Interrupted && runs[start.runId].closeReason == SessionEnd
  {
    FoldSnoc([], start);
    assert [] + [start] == [start];
    assert Fold([start]) == Alone(FreshRun(start), start.sessionId);
    FoldSnoc([start], closed);
    assert [start] + [closed] == [start, closed];
  }

  // ----- Two Wakapi projects whose names differ in case only -----

  ghost predicate Fresh(events: seq<Event>) {
    forall i, j :: 0 <= i < j < |events| ==> events[i].id != events[j].id && !SameSlot(events[i], events[j])
  }

  /** A batch of new, valid events is accepted as it stands. */
  lemma {:induction false} IngestFresh(isUuid: string -> bool, machineId: string, batch: seq<Event>)
    requires Fresh(batch)
    requires forall e :: e in batch ==> Verdict(isUuid, e).None? && e.machineId == machineId
    ensures
      var r := IngestAll(isUuid, map[], machineId, batch);
      && r.Ingesting? && Keyed(r.table)
      && (forall e :: e in batch ==> e.id in r.table && r.table[e.id] == e)
      && (forall id :: id in r.table ==> r.table[id] in batch)
      && r.touched == set e | e in batch :: e.sessionId
  {
    if |batch| > 0 {
      var before, e := batch[..|batch| - 1], batch[|batch| - 1];
      assert batch == before + [e];
      IngestFresh(isUuid, machineId, before);
      var r := IngestAll(isUuid, map[], machineId, before);
      forall x | x in before
        ensures x.id != e.id && !SameSlot(x, e)
      {
        var i :| 0 <= i < |before| && before[i] == x;
        assert batch[i] == x && batch[|before|] == e;
      }
      OneFresh(isUuid, machineId, r, before, e);
    }
  }

  lemma OneFresh(isUuid: string -> bool, machineId: string, r: Ingestion, before: seq<Event>, e: Event)
    requires r.Ingesting? && Keyed(r.table) && Verdict(isUuid, e).None? && e.machineId == machineId
    requires forall x :: x in before ==> x.id in r.table && r.table[x.id] == x && x.id != e.id && !SameSlot(x, e)
    requires forall id :: id in r.table ==> r.table[id] in before
    requires r.touched == set x | x in before :: x.sessionId
    ensures
      var r' := Absorb(isUuid, machineId, r, e);
      && r'.Ingesting? && Keyed(r'.table)
      && (forall x :: x in before + [e] ==> x.id in r'.table && r'.table[x.id] == x)
      && (forall id :: id in r'.table ==> r'.table[id] in before + [e])
      && r'.touched == set x | x in before + [e] :: x.sessionId
  {
    assert e.(machineId := machineId) == e;
    assert e.id !in r.table;
    assert !SlotTaken(r.table, e);
  }

  /** Two imported intervals of projects that differ in name, but not in lower case. */
  ghost predicate Clash(naming: Naming, a: Wakapi.Interval, b: Wakapi.Interval) {
    && CollisionFree(naming)
    && a.project != "" && b.project != "" && a.project != b.project
    && naming.lower(a.project) == naming.lower(b.project)
    && 0 < a.startedAt < a.endedAt <= b.startedAt < b.endedAt
  }

  function Import(naming: Naming, machineId: string, a: Wakapi.Interval, b: Wakapi.Interval): seq<Event> {
    Wakapi.WakapiUnit(naming, machineId, a).events + Wakapi.WakapiUnit(naming, machineId, b).events
  }

  function SessionOf(naming: Naming, item: Wakapi.Interval): string {
    "wakapi:" + Wakapi.WakapiRunId(naming, item)
  }

  function ProjectOf(naming: Naming, item: Wakapi.Interval): ProjectInfo {
    Wakapi.WakapiPayload(naming, item).project
  }

  lemma ImportFresh(naming: Naming, machineId: string, a: Wakapi.Interval, b: Wakapi.Interval)
    requires Clash(naming, a, b)
    ensures Fresh(Import(naming, machineId, a, b))
    ensures SessionOf(naming, a) != SessionOf(naming, b)
  {
    var us, vs := Wakapi.WakapiUnit(naming, machineId, a), Wakapi.WakapiUnit(naming, machineId, b);
    Wakapi.WakapiUnitsApart(naming, machineId, a, b);
    UnitFacts(naming, machineId, a);
    UnitFacts(naming, machineId, b);
    assert us.run.sessionId == SessionOf(naming, a) && vs.run.sessionId == SessionOf(naming, b);
    FreshTogether(us.events, vs.events);
  }

  lemma FreshTogether(a: seq<Event>, b: seq<Event>)
    requires Fresh(a) && Fresh(b)
    requires forall x, y :: x in a && y in b ==> x.id != y.id && x.sessionId != y.sessionId
    ensures Fresh(a + b)
  {
  }

  /** What every event of the interval's unit is like. */
  ghost predicate OfItem(naming: Naming, machineId: string, item: Wakapi.Interval, e: Event) {
    && e.machineId == machineId && e.sessionId == SessionOf(naming, item)
    && (e.occurredAt == item.startedAt || e.occurredAt == item.endedAt)
    && (e.payload.project == ProjectOf(naming, item) || e.payload.project == NO_PROJECT)
    && (exists parts :: e.id == naming.uuid(parts)) && (e.runId == "" || exists parts :: e.runId == naming.uuid(parts))
  }

  lemma UnitFacts(naming: Naming, machineId: string, item: Wakapi.Interval)
    requires CollisionFree(naming)
    ensures
      var events := Wakapi.WakapiUnit(naming, machineId, item).events;
      && |events| == 3 && Fresh(events) && events[0].payload.project == ProjectOf(naming, item)
      && forall e :: e in events ==> OfItem(naming, machineId, item, e)
  {
    UnitFresh(naming, machineId, item);
    UnitOfItem(naming, machineId, item);
  }

  lemma UnitOfItem(naming: Naming, machineId: string, item: Wakapi.Interval)
    ensures
      var events := Wakapi.WakapiUnit(naming, machineId, item).events;
      && |events| == 3 && events[0].payload.project == ProjectOf(naming, item)
      && forall e :: e in events ==> OfItem(naming, machineId, item, e)
  {
    var events := Wakapi.WakapiUnit(naming, machineId, item).events;
    assert OfItem(naming, machineId, item, events[0]);
    assert OfItem(naming, machineId, item, events[1]);
    assert OfItem(naming, machineId, item, events[2]);
  }

  lemma UnitFresh(naming: Naming, machineId: string, item: Wakapi.Interval)
    requires CollisionFree(naming)
    ensures Fresh(Wakapi.WakapiUnit(naming, machineId, item).events)
  {
    var runId := Wakapi.WakapiRunId(naming, item);
    EventIdsDiffer(naming, "wakapi", runId, "session_started", runId, "run_started");
    EventIdsDiffer(naming, "wakapi", runId, "session_started", runId, "run_completed");
    EventIdsDiffer(naming, "wakapi", runId, "run_started", runId, "run_completed");
    var events := Wakapi.WakapiUnit(naming, machineId, item).events;
    ThreeFresh(events[0], events[1], events[2]);
  }

  lemma ThreeFresh(a: Event, b: Event, c: Event)
    requires a.id != b.id && a.id != c.id && b.id != c.id
    requires a.sequence < b.sequence < c.sequence
    ensures Fresh([a, b, c])
  {
  }

  /** Different ids and names, and one fingerprint. */
  lemma ClashingProjects(naming: Naming, a: Wakapi.Interval, b: Wakapi.Interval)
    requires Clash(naming, a, b)
    ensures
      var p, q := ProjectOf(naming, a), ProjectOf(naming, b);
      && p.id == naming.uuid(["wakapi-project", a.project]) != ""
      && q.id == naming.uuid(["wakapi-project", b.project]) != ""
      && p.id != q.id && NameOf(p) != NameOf(q) && FingerprintOf(p) == FingerprintOf(q)
  {
    DifferAt(["wakapi-project", a.project], ["wakapi-project", b.project], 1);
  }

  /** The tables after the batch, before any rebuild. */
  ghost predicate Imported(naming: Naming, machineId: string, a: Wakapi.Interval, b: Wakapi.Interval,
                           events: map<string, Event>) {
    && Keyed(events)
    && (forall e :: e in Import(naming, machineId, a, b) <==> e.id in events && events[e.id] == e)
  }

  lemma ImportedProject(naming: Naming, machineId: string, a: Wakapi.Interval, b: Wakapi.Interval,
                        events: map<string, Event>,
                        item: Wakapi.Interval)
    requires Clash(naming, a, b) && Imported(naming, machineId, a, b, events) && (item == a || item == b)
    ensures SessionProject(events, SessionOf(naming, item)) == ProjectOf(naming, item)
  {
    ImportFresh(naming, machineId, a, b);
    UnitFacts(naming, machineId, a);
    UnitFacts(naming, machineId, b);
    ClashingProjects(naming, a, b);
    var us, vs := Wakapi.WakapiUnit(naming, machineId, a).events, Wakapi.WakapiUnit(naming, machineId, b).events;
    ProjectAmong(naming, machineId, a, b, events, us, vs, item);
  }

  lemma ProjectAmong(naming: Naming, machineId: string, a: Wakapi.Interval, b: Wakapi.Interval,
                     events: map<string, Event>,
                     us: seq<Event>, vs: seq<Event>, item: Wakapi.Interval)
    requires Keyed(events) && forall e :: e in us + vs <==> e.id in events && events[e.id] == e
    requires forall e :: e in us ==> OfItem(naming, machineId, a, e)
    requires forall e :: e in vs ==> OfItem(naming, machineId, b, e)
    requires |us| > 0 && |vs| > 0
    requires us[0].payload.project == ProjectOf(naming, a) && vs[0].payload.project == ProjectOf(naming, b)
    requires SessionOf(naming, a) != SessionOf(naming, b) && (item == a || item == b)
               && ProjectOf(naming, item).id != ""
    ensures SessionProject(events, SessionOf(naming, item)) == ProjectOf(naming, item)
  {
    var e := if item == a then us[0] else vs[0];
    assert e in us + vs;
    OneProject(events, us + vs, SessionOf(naming, item), ProjectOf(naming, item), e);
  }

  /** Whichever of the two sessions is rebuilt first, the rebuild of the other one fails: its project is new, with the
      fingerprint of the first. */
  lemma SecondRebuildFails(isUuid: string -> bool, events: map<string, Event>, s: string, t: string, p: ProjectInfo,
                           q: ProjectInfo)
    requires SessionProject(events, s) == p && SessionProject(events, t) == q
    requires isUuid(p.id) && p.id != "" && q.id != "" && p.id != q.id && NameOf(p) != NameOf(q)
    requires FingerprintOf(p) == FingerprintOf(q)
    ensures RebuildEach(isUuid, events, Rows([], map[]), [s]).Some?
    ensures RebuildEach(isUuid, events, Rows([], map[]), [s, t]).None?
  {
    var none := Rows([], map[]);
    assert [s][..0] == [] && [s, t][..1] == [s];
    assert Stored([], p) == [ProjectRow(p.id, FingerprintOf(p), NameOf(p), p.remoteHash)];
    var after := RebuildOnce(isUuid, events, none, s).value;
    assert RebuildEach(isUuid, events, none, [s]) == Some(after);
    assert after.projects[0].fingerprint == FingerprintOf(q);
    assert !Accepts(after.projects, q);
  }

  /** Importing "Foo" and "foo": the batch is committed, one of the two rebuilds fails in either order, and sending the
      batch again rebuilds nothing. */
  lemma FooAndFoo(isUuid: string -> bool, naming: Naming, machineId: string, order: seq<string>)
    requires CollisionFree(naming) && naming.lower("Foo") == naming.lower("foo")
    requires UuidsParse(isUuid, naming)
    ensures
      var batch := Import(naming, machineId, Wakapi.Interval("Foo", 1, 2), Wakapi.Interval("foo", 2, 3));
      var r := IngestAll(isUuid, map[], machineId, batch);
      && r.Ingesting?
      && (Ranging.Lists(order, r.touched) ==> RebuildEach(isUuid, r.table, Rows([], map[]), order).None?)
      && IngestAll(isUuid, r.table, machineId, batch) == Ingesting(r.table, 0, |batch|, [], {})
  {
    Clashing(isUuid, naming, machineId, Wakapi.Interval("Foo", 1, 2), Wakapi.Interval("foo", 2, 3), order);
  }

  ghost predicate UuidsParse(isUuid: string -> bool, naming: Naming) {
    forall parts :: isUuid(naming.uuid(parts))
  }

  lemma ProjectParses(isUuid: string -> bool, naming: Naming, item: Wakapi.Interval)
    requires UuidsParse(isUuid, naming)
    ensures isUuid(ProjectOf(naming, item).id)
  {
  }

  lemma Clashing(isUuid: string -> bool, naming: Naming, machineId: string, a: Wakapi.Interval, b: Wakapi.Interval,
                 order: seq<string>)
    requires Clash(naming, a, b) && UuidsParse(isUuid, naming)
    ensures
      var batch := Import(naming, machineId, a, b);
      var r := IngestAll(isUuid, map[], machineId, batch);
      && r.Ingesting?
      && (Ranging.Lists(order, r.touched) ==> RebuildEach(isUuid, r.table, Rows([], map[]), order).None?)
      && IngestAll(isUuid, r.table, machineId, batch) == Ingesting(r.table, 0, |batch|, [], {})
  {
    var batch := Import(naming, machineId, a, b);
    ImportFresh(naming, machineId, a, b);
    ImportValid(isUuid, naming, machineId, a, b, batch);
    IngestFresh(isUuid, machineId, batch);
    var r := IngestAll(isUuid, map[], machineId, batch);
    ServerHistory.RedeliveryRebuildsNothing(isUuid, r.table, machineId, batch);
    if Ranging.Lists(order, r.touched) {
      TouchedByImport(naming, machineId, a, b);
      OneRebuildFails(isUuid, naming, machineId, a, b, r.table, order);
    }
  }

  lemma OneRebuildFails(isUuid: string -> bool, naming: Naming, machineId: string, a: Wakapi.Interval,
                        b: Wakapi.Interval,
                        events: map<string, Event>, order: seq<string>)
    requires Clash(naming, a, b) && UuidsParse(isUuid, naming) && Imported(naming, machineId, a, b, events)
    requires Ranging.Lists(order, {SessionOf(naming, a), SessionOf(naming, b)})
    ensures RebuildEach(isUuid, events, Rows([], map[]), order).None?
  {
    ImportFresh(naming, machineId, a, b);
    TwoListed(order, SessionOf(naming, a), SessionOf(naming, b));
    ProjectParses(isUuid, naming, a);
    ProjectParses(isUuid, naming, b);
    ImportClashes(isUuid, naming, machineId, a, b, events);
    EitherOrder(isUuid, events, SessionOf(naming, a), SessionOf(naming, b));
  }

  /** Two sessions with different projects of one fingerprint. */
  ghost predicate OneFingerprint(isUuid: string -> bool, events: map<string, Event>, s: string, t: string) {
    var p, q := SessionProject(events, s), SessionProject(events, t);
    && isUuid(p.id) && isUuid(q.id) && p.id != "" && q.id != "" && p.id != q.id && NameOf(p) != NameOf(q)
    && FingerprintOf(p) == FingerprintOf(q)
  }

  lemma ImportClashes(isUuid: string -> bool, naming: Naming, machineId: string, a: Wakapi.Interval, b: Wakapi.Interval,
                      events: map<string, Event>)
    requires Clash(naming, a, b) && Imported(naming, machineId, a, b, events)
    requires isUuid(ProjectOf(naming, a).id) && isUuid(ProjectOf(naming, b).id)
    ensures OneFingerprint(isUuid, events, SessionOf(naming, a), SessionOf(naming, b))
  {
    assert SessionProject(events, SessionOf(naming, a)) == ProjectOf(naming, a) by {
      ImportedProject(naming, machineId, a, b, events, a);
    }
    assert SessionProject(events, SessionOf(naming, b)) == ProjectOf(naming, b) by {
      ImportedProject(naming, machineId, a, b, events, b);
    }
    ClashingProjects(naming, a, b);
  }

  lemma EitherOrder(isUuid: string -> bool, events: map<string, Event>, s: string, t: string)
    requires OneFingerprint(isUuid, events, s, t)
    ensures RebuildEach(isUuid, events, Rows([], map[]), [s, t]).None?
    ensures RebuildEach(isUuid, events, Rows([], map[]), [t, s]).None?
  {
    SecondRebuildFails(isUuid, events, s, t, SessionProject(events, s), SessionProject(events, t));
    SecondRebuildFails(isUuid, events, t, s, SessionProject(events, t), SessionProject(events, s));
  }

  lemma ImportValid(isUuid: string -> bool, naming: Naming, machineId: string, a: Wakapi.Interval, b: Wakapi.Interval,
                    batch: seq<Event>)
    requires Clash(naming, a, b) && batch == Import(naming, machineId, a, b) && UuidsParse(isUuid, naming)
    ensures forall e :: e in batch ==> Verdict(isUuid, e).None? && e.machineId == machineId
  {
    UnitFacts(naming, machineId, a);
    UnitFacts(naming, machineId, b);
    forall e | e in batch
      ensures Verdict(isUuid, e).None? && e.machineId == machineId
    {
      assert e.sessionId[0] == 'w';
    }
  }

  lemma TouchedByImport(naming: Naming, machineId: string, a: Wakapi.Interval, b: Wakapi.Interval)
    requires CollisionFree(naming)
    ensures (set e | e in Import(naming, machineId, a, b) :: e.sessionId) ==
              {SessionOf(naming, a), SessionOf(naming, b)}
  {
    UnitFacts(naming, machineId, a);
    UnitFacts(naming, machineId, b);
    var batch := Import(naming, machineId, a, b);
    assert batch[0] in batch && batch[3] in batch;
  }

  lemma TwoListed(order: seq<string>, s: string, t: string)
    requires s != t && Ranging.Lists(order, {s, t})
    ensures order == [s, t] || order == [t, s]
  {
    Ranging.ListsLength(order, {s, t});
    assert order[0] in Ranging.Elements(order) && order[1] in Ranging.Elements(order);
  }

  // ----- A completed turn in which nothing grew -----

  function Message(kind: string, turn: string, total: Tokens): Transcript.Decoded {
    Transcript.Record(1, "event_msg",
                      Transcript.Envelope(kind, "", "", turn, "", "", "", "", None, None, total, total))
  }

  function Opening(): Transcript.Decoded {
    Transcript.Record(1, "session_meta",
                      Transcript.Envelope("", "s", "s", "", "/work", "", "", "", None, None, NO_TOKENS, NO_TOKENS))
  }

  /** A turn that counts ten tokens, then a turn that counts none. */
  function TwoTurns(): seq<Transcript.Decoded> {
    [Opening(), Message("task_started", "t1", NO_TOKENS), Message("token_count", "", Tokens(10, 0, 0, 0)),
     Message("task_complete", "t1", NO_TOKENS), Message("task_started", "t2", NO_TOKENS),
     Message("task_complete", "t2", NO_TOKENS)]
  }

  /** Twenty tokens are emitted for the ten that were counted. */
  lemma TwoTurnsRepeat(config: Transcript.Config)
    requires config.resolve("/work").id != ""
    ensures Metrics.Regular(config, ZERO_TIME, L.NO_METRICS, TwoTurns())
    ensures Metrics.Repeated(config, L.NO_METRICS, TwoTurns()) == Tokens(10, 0, 0, 0)
    ensures
      var emitted := Metrics.UsageOf(Metrics.Units(config, ZERO_TIME, L.NO_METRICS, TwoTurns()));
      var outside := Metrics.Growth(Metrics.Marks(TwoTurns()), NO_TOKENS, false);
      emitted.Plus(outside) != Metrics.FinalTotal(Metrics.Marks(TwoTurns()), NO_TOKENS)
  {
    var ten := Tokens(10, 0, 0, 0);
    var records := TwoTurns();
    var named := L.NO_METRICS.(sessionId := "s", project := config.resolve("/work"));
    var counted := named.(activeTurn := "t1", current := ten, last := ten);
    var between := counted.(activeTurn := "", baseline := ten);
    assert Metrics.StateAfter(config, L.NO_METRICS, records[0]) == named;
    LastTurn(config, between);
    FirstTurn(config, named, counted, records[4..]);
    assert records[1..] == [records[1], records[2], records[3]] + records[4..];
    Metrics.RegularConserved(config, ZERO_TIME, records);
  }

  /** The turn that counts ten repeats nothing. */
  lemma FirstTurn(config: Transcript.Config, named: L.MetricState, counted: L.MetricState,
                  rest: seq<Transcript.Decoded>)
    requires named.project.id != "" && named.activeTurn == "" && named.baseline == named.current == NO_TOKENS
    requires counted == named.(activeTurn := "t1", current := Tokens(10, 0, 0, 0), last := Tokens(10, 0, 0, 0))
    ensures
      var ten := Tokens(10, 0, 0, 0);
      var records := [Message("task_started", "t1", NO_TOKENS), Message("token_count", "", ten),
                      Message("task_complete", "t1", NO_TOKENS)] + rest;
      var between := counted.(activeTurn := "", baseline := ten);
      && (Metrics.Regular(config, ZERO_TIME, named, records) <==> Metrics.Regular(config, ZERO_TIME, between, rest))
      && Metrics.Repeated(config, named, records) == Metrics.Repeated(config, between, rest)
  {
    var ten := Tokens(10, 0, 0, 0);
    var r1, r2, r3 := Message("task_started", "t1", NO_TOKENS), Message("token_count", "", ten),
                      Message("task_complete", "t1", NO_TOKENS);
    var started := named.(activeTurn := "t1");
    assert [r1, r2, r3] + rest == [r1] + ([r2] + ([r3] + rest));
    OneRecord(config, named, r1, started, [r2] + ([r3] + rest));
    OneRecord(config, started, r2, counted, [r3] + rest);
    OneRecord(config, counted, r3, counted.(activeTurn := "", baseline := ten), rest);
  }

  lemma OneRecord(config: Transcript.Config, state: L.MetricState, record: Transcript.Decoded, next: L.MetricState,
                  rest: seq<Transcript.Decoded>)
    requires Metrics.StateAfter(config, state, record) == next && record.Record? && record.kind == "event_msg"
    requires record.payload.kind == "token_count" ==> state.current.AtMost(record.payload.total)
    requires record.payload.kind == "task_complete" ==>
               state.activeTurn != "" && state.project.id != "" && state.current != state.baseline
    ensures Metrics.Regular(config, ZERO_TIME, state, [record] + rest) <==>
              Metrics.Regular(config, ZERO_TIME, next, rest)
    ensures Metrics.Repeated(config, state, [record] + rest) == Metrics.Repeated(config, next, rest)
  {
    assert ([record] + rest)[1..] == rest;
  }

  lemma LastTurn(config: Transcript.Config, between: L.MetricState)
    requires between.project.id != "" && between.activeTurn == "" && between.baseline == between.current
    ensures
      var records := TwoTurns()[4..];
      Metrics.Regular(config, ZERO_TIME, between, records)
          && Metrics.Repeated(config, between, records) == between.last.Plus(NO_TOKENS)
  {
    var r5, r6 := Message("task_started", "t2", NO_TOKENS), Message("task_complete", "t2", NO_TOKENS);
    var records := TwoTurns()[4..];
    assert records == [r5, r6] && records[1..] == [r6] && records[1..][1..] == [];
    var started := between.(activeTurn := "t2");
    assert Metrics.StateAfter(config, between, r5) == started;
    assert Metrics.UnitOfRecord(config, ZERO_TIME, started, r6).Some?;
  }

  // ----- A turn that completes twice -----

  /** The turn counts some tokens, completes, starts again, counts more and completes again. */
  function TurnTwice(some: Tokens, more: Tokens): seq<Transcript.Decoded> {
    [Opening()] + OneTurn(some) + OneTurn(more)
  }

  function OneTurn(total: Tokens): seq<Transcript.Decoded> {
    [Message("task_started", "t1", NO_TOKENS), Message("token_count", "", total),
     Message("task_complete", "t1", NO_TOKENS)]
  }

  function Between(state: L.MetricState, total: Tokens): L.MetricState {
    state.(activeTurn := "", baseline := total, current := total, last := total)
  }

  lemma UnitsStep(config: Transcript.Config, state: L.MetricState, record: Transcript.Decoded, next: L.MetricState,
                  rest: seq<Transcript.Decoded>)
    requires Metrics.StateAfter(config, state, record) == next
    ensures
      var unit := Metrics.UnitOfRecord(config, ZERO_TIME, state, record);
      Metrics.Units(config, ZERO_TIME, state, [record] + rest) ==
      (if unit.Some? then [unit.value] else []) + Metrics.Units(config, ZERO_TIME, next, rest)
  {
    assert ([record] + rest)[1..] == rest;
  }

  /** One turn, from counters at rest, is one unit with its growth. */
  lemma TurnUnit(config: Transcript.Config, state: L.MetricState, total: Tokens, rest: seq<Transcript.Decoded>)
      returns (unit: Unit)
    requires state.project.id != "" && state.activeTurn == "" && state.current == state.baseline
    requires state.current.AtMost(total) && state.current != total
    ensures Metrics.Units(config, ZERO_TIME, state, OneTurn(total) + rest) ==
            [unit] + Metrics.Units(config, ZERO_TIME, Between(state, total), rest)
    ensures unit.run.tokens == total.Minus(state.current)
    ensures unit.run.id == config.naming.uuid(["metric-run", state.sessionId, "t1"])
  {
    var r1, r2, r3 := OneTurn(total)[0], OneTurn(total)[1], OneTurn(total)[2];
    var started := state.(activeTurn := "t1", baseline := state.current);
    var counted := started.(current := total, last := total);
    assert OneTurn(total) + rest == [r1] + ([r2] + ([r3] + rest));
    UnitsStep(config, state, r1, started, [r2] + ([r3] + rest));
    UnitsStep(config, started, r2, counted, [r3] + rest);
    UnitsStep(config, counted, r3, Between(state, total), rest);
    Metrics.GrowthIsDelta(total, state.current);
    unit := Metrics.UnitOfRecord(config, ZERO_TIME, counted, r3).value;
    NothingBefore(Metrics.Units(config, ZERO_TIME, started, [r2] + ([r3] + rest)));
    NothingBefore(Metrics.Units(config, ZERO_TIME, counted, [r3] + rest));
  }

  lemma NothingBefore<T>(s: seq<T>)
    ensures [] + s == s
  {
  }

  lemma OpeningUnits(config: Transcript.Config, rest: seq<Transcript.Decoded>) returns (named: L.MetricState)
    ensures named == L.NO_METRICS.(sessionId := "s", project := config.resolve("/work"))
    ensures Metrics.Units(config, ZERO_TIME, L.NO_METRICS, [Opening()] + rest) ==
            Metrics.Units(config, ZERO_TIME, named, rest)
  {
    named := L.NO_METRICS.(sessionId := "s", project := config.resolve("/work"));
    UnitsStep(config, L.NO_METRICS, Opening(), named, rest);
    NothingBefore(Metrics.Units(config, ZERO_TIME, named, rest));
  }

  lemma BothTurns(config: Transcript.Config, named: L.MetricState, ten: Tokens, all: Tokens)
      returns (first: Unit, second: Unit)
    requires named.project.id != "" && named.activeTurn == "" && named.current == named.baseline == NO_TOKENS
    requires NO_TOKENS.AtMost(ten) && ten != NO_TOKENS && ten.AtMost(all) && ten != all
    ensures Metrics.Units(config, ZERO_TIME, named, OneTurn(ten) + OneTurn(all)) == [first] + ([second] + [])
    ensures first.run.id == second.run.id
    ensures first.run.tokens == ten.Minus(NO_TOKENS) && second.run.tokens == all.Minus(ten)
  {
    NothingAfter(OneTurn(all));
    first := TurnUnit(config, named, ten, OneTurn(all));
    second := TurnUnit(config, Between(named, ten), all, []);
  }

  lemma NothingAfter<T>(s: seq<T>)
    ensures s + [] == s
  {
  }

  lemma Opened(a: seq<Transcript.Decoded>, b: seq<Transcript.Decoded>)
    ensures [Opening()] + a + b == [Opening()] + (a + b)
  {
  }

  /** All tokens are counted and emitted, but the second completion repeats the keys of the first, so the table, and
      with it every report, keeps what the first counted. */
  lemma TurnCompletedTwice(config: Transcript.Config, some: Tokens, more: Tokens)
    requires config.resolve("/work").id != ""
    requires NO_TOKENS.AtMost(some) && some != NO_TOKENS && some.AtMost(more) && some != more
    ensures
      var units := Metrics.Units(config, ZERO_TIME, L.NO_METRICS, TurnTwice(some, more));
      Metrics.UsageOf(units) == more && Metrics.UsageOf(MetricRows.Firsts(units)) == some
  {
    Opened(OneTurn(some), OneTurn(more));
    var named := OpeningUnits(config, OneTurn(some) + OneTurn(more));
    var first, second := BothTurns(config, named, some, more);
    TwoUnits(first, second);
  }

  /** Ten tokens, then fifteen more: twenty-five are emitted and ten are stored. */
  lemma TenOfTwentyFive(config: Transcript.Config)
    requires config.resolve("/work").id != ""
    ensures
      var units := Metrics.Units(config, ZERO_TIME, L.NO_METRICS, TurnTwice(Tokens(10, 0, 0, 0), Tokens(25, 0, 0, 0)));
      Metrics.UsageOf(units) == Tokens(25, 0, 0, 0) && Metrics.UsageOf(MetricRows.Firsts(units)) == Tokens(10, 0, 0, 0)
  {
    TurnCompletedTwice(config, Tokens(10, 0, 0, 0), Tokens(25, 0, 0, 0));
  }

  lemma TwoUnits(first: Unit, second: Unit)
    requires first.run.id == second.run.id
    ensures Metrics.UsageOf([first] + ([second] + [])) == first.run.tokens.Plus(second.run.tokens)
    ensures Metrics.UsageOf(MetricRows.Firsts([first] + ([second] + []))) == first.run.tokens
  {
    Metrics.UsageOfCons(first, [second] + []);
    Metrics.UsageOfCons(second, []);
    var units := [first] + ([second] + []);
    assert units[..1] == [first] && [first][..0] == [];
    assert MetricRows.Firsts([first]) == [first];
    assert first in [first];
    assert MetricRows.Firsts(units) == [first];
    Metrics.UsageOfCons(first, []);
    assert [first] + [] == [first];
  }

  // ----- Events before the session is known -----

  /** A token count on the first line of a transcript becomes an event without a session; the server refuses it in
      every round, so a queue that holds it is never drained. */
  lemma SessionlessEventNeverDrains(isUuid: string -> bool, config: Transcript.Config, identity: string, line: string,
                                    timestamp: Time, payload: Transcript.Envelope)
    requires config.decode(line) == Transcript.Record(timestamp, "event_msg", payload) && payload.kind == "token_count"
    ensures
      var scan := Parser.StepLine(config, L.NO_CURSOR.(fileIdentity := identity), line);
      && |scan.events| == 1 && scan.events[0].sessionId == ""
      && var e := scan.events[0];
         SyncClient.RefusedRows(isUuid, L.InsertAll(map[], [e])) == {e.id}
  {
    var e := Parser.StepLine(config, L.NO_CURSOR.(fileIdentity := identity), line).events[0];
    assert L.InsertAll(map[], [e]) == map[e.id := L.Row(e, L.Pending)];
  }
}
