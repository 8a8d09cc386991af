/** Self-contained groups of events, each with a session and one completed run of its own. */
module WorkUnits {
  import opened Domain
  import opened Projection
  import opened EventOrder
  import opened SessionLocality
  import Sorting
  import Projector
  import Ranging

  /** The hash behind deterministic ids, the texts of instants and numbers that go into it, and lower-casing. */
  datatype Naming = Naming(
    uuid: seq<string> -> string, stamp: Time -> string, number: int -> string, lower: string -> string)

  /** No collisions, and no empty id. */
  ghost predicate CollisionFree(naming: Naming) {
    && (forall a, b :: naming.uuid(a) == naming.uuid(b) ==> a == b)
    && (forall a :: naming.uuid(a) != "")
    && (forall s, t :: naming.stamp(s) == naming.stamp(t) ==> s == t)
    && (forall m, n :: naming.number(m) == naming.number(n) ==> m == n)
  }

  /** Quoted so that where one part ends can be told from what follows. */
  function Quote(part: string): string {
    if |part| == 0 then ";" else [':', part[0]] + Quote(part[1..])
  }

  function Join(parts: seq<string>): string {
    if |parts| == 0 then "." else Quote(parts[0]) + Join(parts[1..])
  }

  function Unary(n: int): string {
    if n < 0 then "-" + seq(-n, i => '1') else seq(n, i => '1')
  }

  lemma {:induction false} QuoteInjective(a: string, b: string, s: string, t: string)
    requires Quote(a) + s == Quote(b) + t
    ensures a == b && s == t
  {
    var x, y := Quote(a) + s, Quote(b) + t;
    assert x[0] == y[0];
    if |a| == 0 {
      assert x[1..] == s && y[1..] == t;
    } else {
      assert x[1] == a[0] && y[1] == b[0];
      assert x[2..] == Quote(a[1..]) + s && y[2..] == Quote(b[1..]) + t;
      QuoteInjective(a[1..], b[1..], s, t);
      assert a == [a[0]] + a[1..] && b == [b[0]] + b[1..];
    }
  }

  lemma JoinStart(parts: seq<string>)
    ensures |Join(parts)| > 0 && (Join(parts)[0] == '.' <==> parts == [])
  {
    if |parts| > 0 {
      assert Join(parts)[0] == Quote(parts[0])[0];
    }
  }

  lemma {:induction false} JoinInjective(a: seq<string>, b: seq<string>)
    requires Join(a) == Join(b)
    ensures a == b
  {
    JoinStart(a);
    JoinStart(b);
    if |a| > 0 && |b| > 0 {
      QuoteInjective(a[0], b[0], Join(a[1..]), Join(b[1..]));
      JoinInjective(a[1..], b[1..]);
      assert a == [a[0]] + a[1..] && b == [b[0]] + b[1..];
    }
  }

  lemma UnaryInjective(m: int, n: int)
    requires Unary(m) == Unary(n)
    ensures m == n
  {
    assert |Unary(m)| == (if m < 0 then 1 - m else m) && |Unary(n)| == (if n < 0 then 1 - n else n);
    assert |Unary(m)| > 0 ==> (Unary(m)[0] == '-' <==> m < 0);
    assert |Unary(n)| > 0 ==> (Unary(n)[0] == '-' <==> n < 0);
  }

  /** Some naming is free of collisions, so what is proved under that assumption is not proved of nothing. */
  lemma CollisionFreeExists() returns (naming: Naming)
    ensures CollisionFree(naming)
  {
    naming := Naming(Join, Unary, Unary, (text: string) => text);
    forall a, b | naming.uuid(a) == naming.uuid(b)
      ensures a == b
    {
      JoinInjective(a, b);
    }
    forall a
      ensures naming.uuid(a) != ""
    {
      assert |Join(a)| > 0;
    }
    forall m, n | Unary(m) == Unary(n)
      ensures m == n
    {
      UnaryInjective(m, n);
    }
  }

  /** A group of events together with the run it describes. */
  datatype Unit = Unit(events: seq<Event>, run: Run)

  function CompletedRun(id: string, sessionId: string, payload: Payload, start: Time, end: Time, tokens: Tokens): Run {
    Run(id, sessionId, payload.project.id, start, Some(end), end, Completed, payload.model, payload.effort, tokens,
        ExplicitCompletion)
  }

  ghost predicate InSequence(events: seq<Event>) {
    && (forall i :: 0 <= i < |events| ==> events[i].id != "" && events[i].sessionId == events[0].sessionId)
    && (forall i, j :: 0 <= i < j < |events| ==>
        events[i].sequence < events[j].sequence && events[i].id != events[j].id)
  }

  lemma {:induction false} DistinctKept(events: seq<Event>)
    requires InSequence(events)
    ensures Kept(events) == events
  {
    if |events| > 0 {
      var before, e := events[..|events| - 1], events[|events| - 1];
      assert events == before + [e];
      assert before != [] ==> before[0] == events[0];
      DistinctKept(before);
      assert forall i :: 0 <= i < |before| ==> before[i].id != e.id;
    }
  }

  /** Events already numbered in order are projected as they stand. */
  lemma ProjectInSequence(events: seq<Event>)
    requires InSequence(events)
    ensures ProjectedState(events) == Fold(events)
  {
    assert Sorting.SortedBy(EventLe, events);
    Sorting.SortedStays(EventLe, events);
    DistinctKept(events);
  }

  function Alone(run: Run, s: string): State {
    State(map[run.id := run], map[s := run.id])
  }

  lemma StepAlone(run: Run, e: Event)
    requires run.id != "" && e.runId == run.id
    ensures Alone(run, e.sessionId).Valid()
    ensures e.kind == TokenUsage ==> Step(Alone(run, e.sessionId), e) == Alone(CountTokens(run, e), e.sessionId)
    ensures e.kind == RunCompleted && run.endedAt.None? ==>
              Step(Alone(run, e.sessionId), e).runs ==
                  map[run.id := CloseRun(run, e.occurredAt, Completed, ExplicitCompletion)]
  {
  }

  lemma FoldToStart(session: Event, start: Event)
    requires session.kind == SessionStarted && start.kind == RunStarted && start.runId != ""
    ensures Fold([session, start]) == Alone(FreshRun(start), start.sessionId)
  {
    FoldSnoc([], session);
    assert [] + [session] == [session];
    assert Fold([session]) == EMPTY;
    FoldSnoc([session], start);
    assert [session] + [start] == [session, start];
    assert Step(EMPTY, start) == StepStart(EMPTY, start);
  }

  lemma ThreeEvents(session: Event, start: Event, end: Event)
    requires InSequence([session, start, end])
    requires session.kind == SessionStarted && start.kind == RunStarted && end.kind == RunCompleted
    requires start.runId == end.runId != "" && start.sessionId == end.sessionId && start.occurredAt <= end.occurredAt
    ensures ProjectedRuns([session, start, end]) ==
            map[start.runId := CompletedRun(start.runId, start.sessionId, start.payload, start.occurredAt,
                                            end.occurredAt, NO_TOKENS)]
  {
    ProjectInSequence([session, start, end]);
    FoldToStart(session, start);
    StepAlone(FreshRun(start), end);
    FoldSnoc([session, start], end);
    assert [session, start] + [end] == [session, start, end];
  }

  lemma FourEvents(session: Event, start: Event, usage: Event, end: Event)
    requires InSequence([session, start, usage, end])
    requires session.kind == SessionStarted && start.kind == RunStarted && usage.kind == TokenUsage
               && end.kind == RunCompleted
    requires start.runId == usage.runId == end.runId != ""
    requires start.sessionId == usage.sessionId == end.sessionId
    requires start.occurredAt == usage.occurredAt == end.occurredAt
    ensures ProjectedRuns([session, start, usage, end]) ==
            map[start.runId := CompletedRun(start.runId, start.sessionId, start.payload, start.occurredAt,
                                            end.occurredAt, usage.payload.usage)]
  {
    ProjectInSequence([session, start, usage, end]);
    FoldToStart(session, start);
    StepAlone(FreshRun(start), usage);
    FoldSnoc([session, start], usage);
    assert [session, start] + [usage] == [session, start, usage];
    StepAlone(CountTokens(FreshRun(start), usage), end);
    FoldSnoc([session, start, usage], end);
    assert [session, start, usage] + [end] == [session, start, usage, end];
  }

  // ----- An interval of work as three events -----

  function EventId(naming: Naming, tag: string, runId: string, step: string): string {
    naming.uuid([tag + "-event", runId, step])
  }

  /** The events of one interval: a session of its own, and a run from `start` to `end`. */
  function IntervalEvents(naming: Naming, tag: string, source: Source, machineId: string, runId: string,
                          payload: Payload, start: Time, end: Time): seq<Event> {
    var sessionId := tag + ":" + runId;
    [Event(EventId(naming, tag, runId, "session_started"), machineId, sessionId, "", 1, start, SessionStarted, source,
           payload),
     Event(EventId(naming, tag, runId, "run_started"), machineId, sessionId, runId, 2, start, RunStarted, source,
           payload),
     Event(EventId(naming, tag, runId, "run_completed"), machineId, sessionId, runId, 3, end, RunCompleted, source,
           NO_PAYLOAD)]
  }

  function IntervalUnit(naming: Naming, tag: string, source: Source, machineId: string, runId: string,
                        payload: Payload, start: Time, end: Time): Unit {
    Unit(IntervalEvents(naming, tag, source, machineId, runId, payload, start, end),
         CompletedRun(runId, tag + ":" + runId, payload, start, end, NO_TOKENS))
  }

  lemma DifferAt(a: seq<string>, b: seq<string>, i: nat)
    requires i < |a| && i < |b| && a[i] != b[i]
    ensures a != b
  {
  }

  lemma EventIdsDiffer(naming: Naming, tag: string, runId: string, step: string, runId': string, step': string)
    requires CollisionFree(naming) && (runId != runId' || step != step')
    ensures EventId(naming, tag, runId, step) != EventId(naming, tag, runId', step')
  {
    DifferAt([tag + "-event", runId, step], [tag + "-event", runId', step'], if runId != runId' then 1 else 2);
  }

  lemma WellFormedThree(unit: Unit, session: Event, start: Event, end: Event)
    requires unit.events == [session, start, end]
    requires InSequence([session, start, end])
    requires session.kind == SessionStarted && start.kind == RunStarted && end.kind == RunCompleted
    requires session.runId == "" && start.runId == end.runId != "" && start.occurredAt <= end.occurredAt
    requires session.sessionId == start.sessionId == end.sessionId
    requires unit.run == CompletedRun(start.runId, start.sessionId, start.payload, start.occurredAt, end.occurredAt,
                                      NO_TOKENS)
    ensures WellFormed(unit)
  {
    ThreeEvents(session, start, end);
  }

  lemma WellFormedFour(unit: Unit, session: Event, start: Event, usage: Event, end: Event)
    requires unit.events == [session, start, usage, end]
    requires InSequence([session, start, usage, end])
    requires session.kind == SessionStarted && start.kind == RunStarted && usage.kind == TokenUsage
               && end.kind == RunCompleted
    requires session.runId == "" && start.runId == usage.runId == end.runId != ""
    requires session.sessionId == start.sessionId == usage.sessionId == end.sessionId
    requires start.occurredAt == usage.occurredAt == end.occurredAt
    requires unit.run == CompletedRun(start.runId, start.sessionId, start.payload, start.occurredAt, end.occurredAt,
                                      usage.payload.usage)
    ensures WellFormed(unit)
  {
    FourEvents(session, start, usage, end);
  }

  lemma IntervalUnitWellFormed(naming: Naming, tag: string, source: Source, machineId: string, runId: string,
                               payload: Payload, start: Time, end: Time)
    requires CollisionFree(naming) && runId != "" && start <= end
    ensures WellFormed(IntervalUnit(naming, tag, source, machineId, runId, payload, start, end))
    ensures forall e :: e in IntervalEvents(naming, tag, source, machineId, runId, payload, start, end) ==>
              && e.source == source && e.machineId == machineId && start <= e.occurredAt <= end
              && (e.kind == SessionStarted ==> e.occurredAt == start && e.payload == payload)
  {
    EventIdsDiffer(naming, tag, runId, "session_started", runId, "run_started");
    EventIdsDiffer(naming, tag, runId, "session_started", runId, "run_completed");
    EventIdsDiffer(naming, tag, runId, "run_started", runId, "run_completed");
    var events := IntervalEvents(naming, tag, source, machineId, runId, payload, start, end);
    ThreeInSequence(events[0], events[1], events[2]);
    WellFormedThree(IntervalUnit(naming, tag, source, machineId, runId, payload, start, end), events[0], events[1],
                    events[2]);
  }

  lemma ThreeInSequence(a: Event, b: Event, c: Event)
    requires a.id != "" && b.id != "" && c.id != "" && a.id != b.id && a.id != c.id && b.id != c.id
    requires a.sessionId == b.sessionId == c.sessionId && a.sequence < b.sequence < c.sequence
    ensures InSequence([a, b, c])
  {
  }

  lemma SamePrefix(p: string, a: string, b: string)
    requires p + a == p + b
    ensures a == b
  {
    assert (p + a)[|p|..] == a && (p + b)[|p|..] == b;
  }

  /** Units named after different runs share nothing. */
  lemma DifferentRunsApart(naming: Naming, tag: string, prefix: string, a: Unit, b: Unit)
    requires CollisionFree(naming) && a.run.id != b.run.id
    requires a.run.sessionId == prefix + a.run.id && b.run.sessionId == prefix + b.run.id
    requires NamedAfter(naming, tag, a) && NamedAfter(naming, tag, b)
    ensures Apart(a, b)
  {
    if a.run.sessionId == b.run.sessionId {
      SamePrefix(prefix, a.run.id, b.run.id);
    }
    forall x, y | x in a.events && y in b.events
      ensures x.id != y.id
    {
      var k :| x.id == EventId(naming, tag, a.run.id, k);
      var l :| y.id == EventId(naming, tag, b.run.id, l);
      EventIdsDiffer(naming, tag, a.run.id, k, b.run.id, l);
    }
  }

  ghost predicate NamedAfter(naming: Naming, tag: string, unit: Unit) {
    forall e :: e in unit.events ==> exists step :: e.id == EventId(naming, tag, unit.run.id, step)
  }

  lemma IntervalUnitNamed(naming: Naming, tag: string, source: Source, machineId: string, runId: string,
                          payload: Payload, start: Time, end: Time)
    ensures NamedAfter(naming, tag, IntervalUnit(naming, tag, source, machineId, runId, payload, start, end))
  {
  }

  lemma IntervalUnitsApart(naming: Naming, tag: string, source: Source, machineId: string,
                           r1: string, payload1: Payload, start1: Time, end1: Time,
                           r2: string, payload2: Payload, start2: Time, end2: Time)
    requires CollisionFree(naming) && r1 != r2
    ensures Apart(IntervalUnit(naming, tag, source, machineId, r1, payload1, start1, end1),
                  IntervalUnit(naming, tag, source, machineId, r2, payload2, start2, end2))
  {
    IntervalUnitNamed(naming, tag, source, machineId, r1, payload1, start1, end1);
    IntervalUnitNamed(naming, tag, source, machineId, r2, payload2, start2, end2);
    DifferentRunsApart(naming, tag, tag + ":", IntervalUnit(naming, tag, source, machineId, r1, payload1, start1, end1),
                       IntervalUnit(naming, tag, source, machineId, r2, payload2, start2, end2));
  }

  // ----- Many units in one log -----

  ghost predicate WellFormed(unit: Unit) {
    && |unit.events| > 0
    && (forall e :: e in unit.events ==>
          e.id != "" && e.sessionId == unit.run.sessionId && (e.runId == "" || e.runId == unit.run.id))
    && ProjectedRuns(unit.events) == map[unit.run.id := unit.run]
  }

  /** Different units share neither session, nor run, nor event ids. */
  ghost predicate Apart(a: Unit, b: Unit) {
    && a.run.sessionId != b.run.sessionId && a.run.id != b.run.id
    && forall x, y :: x in a.events && y in b.events ==> x.id != y.id
  }

  ghost predicate AllApart(units: seq<Unit>) {
    && (forall i :: 0 <= i < |units| ==> WellFormed(units[i]))
    && (forall i, j :: 0 <= i < j < |units| ==> Apart(units[i], units[j]))
  }

  function EventsOf(units: seq<Unit>): seq<Event> {
    if |units| == 0 then [] else EventsOf(units[..|units| - 1]) + units[|units| - 1].events
  }

  lemma EventsOfSnoc(units: seq<Unit>, unit: Unit)
    ensures EventsOf(units + [unit]) == EventsOf(units) + unit.events
  {
    assert (units + [unit])[..|units|] == units;
  }

  lemma {:induction false} EventsOfCons(unit: Unit, units: seq<Unit>)
    ensures EventsOf([unit] + units) == unit.events + EventsOf(units)
  {
    if |units| == 0 {
      assert [unit] + units == [] + [unit];
      EventsOfSnoc([], unit);
    } else {
      var units', last := units[..|units| - 1], units[|units| - 1];
      EventsOfCons(unit, units');
      assert [unit] + units == ([unit] + units') + [last];
      EventsOfSnoc([unit] + units', last);
    }
  }

  function RunsOf(units: seq<Unit>): (runs: seq<Run>)
    ensures |runs| == |units|
    ensures forall i :: 0 <= i < |units| ==> runs[i] == units[i].run
  {
    if |units| == 0 then [] else RunsOf(units[..|units| - 1]) + [units[|units| - 1].run]
  }

  lemma {:induction false} EventsOfMembers(units: seq<Unit>)
    ensures forall e :: e in EventsOf(units) <==> exists i :: 0 <= i < |units| && e in units[i].events
  {
    if |units| > 0 {
      var units', u := units[..|units| - 1], units[|units| - 1];
      EventsOfMembers(units');
      forall e
        ensures e in EventsOf(units) <==> exists i :: 0 <= i < |units| && e in units[i].events
      {
        if e in EventsOf(units') {
          var i :| 0 <= i < |units'| && e in units'[i].events;
          assert e in units[i].events;
        }
        if e in u.events {
          assert e in units[|units| - 1].events;
        }
        if i :| 0 <= i < |units| && e in units[i].events {
          assert i < |units'| ==> e in units'[i].events;
        }
      }
    }
  }

  lemma UnitOf(units: seq<Unit>, e: Event) returns (i: nat)
    requires e in EventsOf(units)
    ensures i < |units| && e in units[i].events
  {
    EventsOfMembers(units);
    i :| 0 <= i < |units| && e in units[i].events;
  }

  lemma PairPerSession(units: seq<Unit>, i: nat, j: nat, a: Event, b: Event)
    requires AllApart(units) && i < |units| && j < |units|
    requires a in units[i].events && b in units[j].events
    ensures a.runId == b.runId && a.runId != "" ==> a.sessionId == b.sessionId
    ensures a.id == b.id ==> a.sessionId == b.sessionId
    ensures a.sessionId == b.sessionId ==> i == j
  {
    assert WellFormed(units[i]) && WellFormed(units[j]);
    if i < j {
      assert Apart(units[i], units[j]);
    } else if j < i {
      assert Apart(units[j], units[i]);
    }
  }

  lemma UnitsPerSession(units: seq<Unit>)
    requires AllApart(units)
    ensures RunIdsPerSession(EventsOf(units)) && EventIdsPerSession(EventsOf(units))
  {
    forall a, b | a in EventsOf(units) && b in EventsOf(units)
      ensures a.runId == b.runId && a.runId != "" ==> a.sessionId == b.sessionId
      ensures a.id == b.id ==> a.sessionId == b.sessionId
    {
      var i := UnitOf(units, a);
      var j := UnitOf(units, b);
      PairPerSession(units, i, j, a, b);
    }
  }

  lemma {:induction false} FilterAll(s: string, events: seq<Event>)
    requires forall e :: e in events ==> e.sessionId == s
    ensures SessionEvents(s, events) == events
  {
    if |events| > 0 {
      FilterAll(s, events[..|events| - 1]);
      assert events == events[..|events| - 1] + [events[|events| - 1]];
    }
  }

  lemma {:induction false} FilterNone(s: string, events: seq<Event>)
    requires forall e :: e in events ==> e.sessionId != s
    ensures SessionEvents(s, events) == []
  {
    if |events| > 0 {
      FilterNone(s, events[..|events| - 1]);
    }
  }

  lemma OtherSession(units: seq<Unit>, u: Unit, e: Event)
    requires AllApart(units + [u]) && e in EventsOf(units)
    ensures e.sessionId != u.run.sessionId
  {
    var i := UnitOf(units, e);
    var all := units + [u];
    assert WellFormed(all[i]) && Apart(all[i], all[|units|]);
  }

  lemma FrontApart(units: seq<Unit>)
    requires AllApart(units) && |units| > 0
    ensures AllApart(units[..|units| - 1])
  {
  }

  lemma LastElsewhere(units: seq<Unit>)
    requires AllApart(units) && |units| > 0
    ensures SessionEvents(units[|units| - 1].run.sessionId, EventsOf(units[..|units| - 1])) == []
  {
    var front, u := units[..|units| - 1], units[|units| - 1];
    assert front + [u] == units;
    OtherSessions(front, u);
  }

  lemma {:induction false} UnitEvents(units: seq<Unit>, i: nat)
    requires AllApart(units) && i < |units|
    ensures SessionEvents(units[i].run.sessionId, EventsOf(units)) == units[i].events
  {
    LastUnitsEvents(units, units[i].run.sessionId);
    OneUnitsEvents(units, i, |units| - 1);
    if i < |units| - 1 {
      FrontApart(units);
      UnitEvents(units[..|units| - 1], i);
    } else {
      LastElsewhere(units);
    }
  }

  lemma LastUnitsEvents(units: seq<Unit>, s: string)
    requires |units| > 0
    ensures SessionEvents(s, EventsOf(units)) ==
            SessionEvents(s, EventsOf(units[..|units| - 1])) + SessionEvents(s, units[|units| - 1].events)
  {
    Sorting.FilterConcat(InSession(s), EventsOf(units[..|units| - 1]), units[|units| - 1].events);
  }

  lemma OneUnitsEvents(units: seq<Unit>, i: nat, j: nat)
    requires AllApart(units) && i <= j < |units|
    ensures SessionEvents(units[i].run.sessionId, units[j].events) == if i == j then units[i].events else []
  {
    assert WellFormed(units[j]);
    if i < j {
      assert Apart(units[i], units[j]);
      FilterNone(units[i].run.sessionId, units[j].events);
    } else {
      FilterAll(units[i].run.sessionId, units[j].events);
    }
  }

  lemma OtherSessions(units: seq<Unit>, u: Unit)
    requires AllApart(units + [u])
    ensures SessionEvents(u.run.sessionId, EventsOf(units)) == []
  {
    forall e | e in EventsOf(units)
      ensures e.sessionId != u.run.sessionId
    {
      OtherSession(units, u, e);
    }
    FilterNone(u.run.sessionId, EventsOf(units));
  }

  /** The projection of a log of separate units has exactly one run for each unit. */
  lemma ProjectUnits(units: seq<Unit>)
    requires AllApart(units)
    ensures forall i :: 0 <= i < |units| ==>
              units[i].run.id in ProjectedRuns(EventsOf(units))
                  && ProjectedRuns(EventsOf(units))[units[i].run.id] == units[i].run
    ensures forall id :: id in ProjectedRuns(EventsOf(units)) ==> exists i :: 0 <= i < |units| && id == units[i].run.id
  {
    forall i | 0 <= i < |units|
      ensures units[i].run.id in ProjectedRuns(EventsOf(units))
                && ProjectedRuns(EventsOf(units))[units[i].run.id] == units[i].run
    {
      ProjectUnit(units, i);
    }
    forall id | id in ProjectedRuns(EventsOf(units))
      ensures exists i :: 0 <= i < |units| && id == units[i].run.id
    {
      var i := RunUnit(units, id);
      ProjectUnit(units, i);
    }
  }

  lemma ProjectUnit(units: seq<Unit>, i: nat)
    requires AllApart(units) && i < |units|
    ensures
      var runs, run := ProjectedRuns(EventsOf(units)), units[i].run;
      && run.id in runs && runs[run.id] == run
      && forall id :: id in runs && runs[id].sessionId == run.sessionId ==> id == run.id
  {
    var st, run := ProjectedState(EventsOf(units)), units[i].run;
    UnitAlone(units, i);
    var own := Restrict(st, run.sessionId);
    assert run.id in own.runs;
    assert forall id :: id in st.runs && st.runs[id].sessionId == run.sessionId ==> id in own.runs;
  }

  lemma UnitAlone(units: seq<Unit>, i: nat)
    requires AllApart(units) && i < |units|
    ensures Restrict(ProjectedState(EventsOf(units)), units[i].run.sessionId).runs ==
              map[units[i].run.id := units[i].run]
  {
    UnitsPerSession(units);
    UnitEvents(units, i);
    SessionAlone(EventsOf(units), units[i]);
  }

  lemma SessionAlone(events: seq<Event>, unit: Unit)
    requires WellFormed(unit) && RunIdsPerSession(events) && EventIdsPerSession(events)
    requires SessionEvents(unit.run.sessionId, events) == unit.events
    ensures Restrict(ProjectedState(events), unit.run.sessionId).runs == map[unit.run.id := unit.run]
  {
    ProjectionIsLocal(events, unit.run.sessionId);
  }

  lemma RunUnit(units: seq<Unit>, id: string) returns (i: nat)
    requires AllApart(units) && id in ProjectedRuns(EventsOf(units))
    ensures i < |units| && ProjectedRuns(EventsOf(units))[id].sessionId == units[i].run.sessionId
  {
    var all := EventsOf(units);
    var kept := Kept(Ordered(all));
    UnitsPerSession(units);
    OrderedMembers(all);
    KeptSubset(Ordered(all));
    SubsetPerSession(kept, all);
    FoldOwned(kept);
    assert Begun(kept, id, Fold(kept).runs[id].sessionId);
    var e :| e in kept && e.runId == id && e.sessionId == Fold(kept).runs[id].sessionId;
    i := UnitOf(units, e);
    assert WellFormed(units[i]);
  }

  /** What `Project` returns for such a log is the list of the units' runs, in some order. */
  lemma ListedUnits(units: seq<Unit>, result: seq<Run>)
    requires AllApart(units)
    requires Projector.ListsRuns(result, ProjectedRuns(EventsOf(units)))
    ensures multiset(result) == multiset(RunsOf(units))
  {
    ProjectUnits(units);
    var runs, expected := ProjectedRuns(EventsOf(units)), RunsOf(units);
    forall i, j | 0 <= i < j < |expected|
      ensures expected[i] != expected[j]
    {
      assert Apart(units[i], units[j]);
    }
    Ranging.DistinctMultiset(expected);
    forall run
      ensures run in runs.Values <==> run in expected
    {
      if run in runs.Values {
        var id :| id in runs && runs[id] == run;
        var i :| 0 <= i < |units| && id == units[i].run.id;
        assert expected[i] == run;
      }
      if run in expected {
        var i :| 0 <= i < |expected| && expected[i] == run;
        assert runs[units[i].run.id] == run;
      }
    }
    assert Ranging.Elements(expected) == runs.Values;
  }
}
