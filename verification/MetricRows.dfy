/** Which completions of a turn reach the event table, and what a report then adds for them. */
module MetricRows {
  import opened Domain
  import opened LocalTables
  import opened Metrics
  import opened TokenSums
  import opened Transcript
  import opened WorkUnits
  import EventOrder
  import Parser
  import Projection
  import Projector
  import Summaries

  const STEPS := ["session", "start", "tokens", "complete"]

  /** The unit's four events carry the keys that its run id gives them. */
  ghost predicate Shaped(config: Config, unit: Unit) {
    && |unit.events| == 4
    && forall k :: 0 <= k < 4 ==>
         && unit.events[k].id == EventId(config.naming, "metric", unit.run.id, STEPS[k])
         && unit.events[k].machineId == config.machineId && unit.events[k].sessionId == "metrics:" + unit.run.id
         && unit.events[k].sequence == k + 1
  }

  lemma {:induction false} UnitsShaped(config: Config, cutover: Time, state: MetricState, records: seq<Decoded>)
    ensures forall unit :: unit in Units(config, cutover, state, records) ==> Shaped(config, unit)
    decreases |records|
  {
    if |records| > 0 {
      UnitsShaped(config, cutover, StateAfter(config, state, records[0]), records[1..]);
      RecordShaped(config, cutover, state, records[0]);
    }
  }

  lemma RecordShaped(config: Config, cutover: Time, state: MetricState, record: Decoded)
    ensures
      var unit := UnitOfRecord(config, cutover, state, record);
      unit.Some? ==> Shaped(config, unit.value)
  {
  }

  function RunIds(units: seq<Unit>): set<string> {
    set unit | unit in units :: unit.run.id
  }

  /** The first completion of each session and turn. */
  function Firsts(units: seq<Unit>): seq<Unit> {
    if |units| == 0 then []
    else
      var front, last := Firsts(units[..|units| - 1]), units[|units| - 1];
      if last.run.id in RunIds(front) then front else front + [last]
  }

  /** The later ones. */
  function Laters(units: seq<Unit>): seq<Unit> {
    if |units| == 0 then []
    else
      var last := units[|units| - 1];
      Laters(units[..|units| - 1]) + (if last.run.id in RunIds(Firsts(units[..|units| - 1])) then [last] else [])
  }

  lemma {:induction false} FirstsFacts(units: seq<Unit>)
    ensures forall unit :: unit in Firsts(units) ==> unit in units
    ensures DistinctRuns(Firsts(units))
  {
    if |units| > 0 {
      var front, last := units[..|units| - 1], units[|units| - 1];
      assert units == front + [last];
      FirstsFacts(front);
      forall i | 0 <= i < |Firsts(front)| && last.run.id !in RunIds(Firsts(front))
        ensures Firsts(front)[i].run.id != last.run.id
      {
        assert Firsts(front)[i] in Firsts(front);
      }
    }
  }

  function UnitTokens(): Unit -> Tokens {
    (unit: Unit) => unit.run.tokens
  }

  lemma {:induction false} UsageTotals(units: seq<Unit>)
    ensures UsageOf(units) == SumTokens(UnitTokens(), units)
  {
    if |units| > 0 {
      var front, last := units[..|units| - 1], units[|units| - 1];
      UsageTotals(front);
      UsageOfSnoc(front, last);
      assert units == front + [last];
    }
  }

  lemma TotalsOneMore(f: Unit -> Tokens, front: seq<Unit>, firsts: seq<Unit>, laters: seq<Unit>, last: Unit)
    requires SumTokens(f, front) == SumTokens(f, firsts).Plus(SumTokens(f, laters))
    ensures SumTokens(f, front + [last]) == SumTokens(f, firsts + [last]).Plus(SumTokens(f, laters))
    ensures SumTokens(f, front + [last]) == SumTokens(f, firsts).Plus(SumTokens(f, laters + [last]))
  {
    SumTokensSnoc(f, front, last);
    SumTokensSnoc(f, firsts, last);
    SumTokensSnoc(f, laters, last);
    PlusLaws(SumTokens(f, firsts), SumTokens(f, laters), f(last));
  }

  lemma SplitSnoc(units: seq<Unit>)
    requires |units| > 0
    ensures
      var front, last := units[..|units| - 1], units[|units| - 1];
      || (Firsts(units) == Firsts(front) + [last] && Laters(units) == Laters(front))
      || (Firsts(units) == Firsts(front) && Laters(units) == Laters(front) + [last])
  {
  }

  lemma {:induction false} TotalsSplit(f: Unit -> Tokens, units: seq<Unit>)
    ensures SumTokens(f, units) == SumTokens(f, Firsts(units)).Plus(SumTokens(f, Laters(units)))
  {
    if |units| > 0 {
      var front, last := units[..|units| - 1], units[|units| - 1];
      assert units == front + [last];
      TotalsSplit(f, front);
      TotalsOneMore(f, front, Firsts(front), Laters(front), last);
      SplitSnoc(units);
    }
  }

  /** Every completion is a first or a later one. */
  lemma UsageSplits(units: seq<Unit>)
    ensures UsageOf(units) == UsageOf(Firsts(units)).Plus(UsageOf(Laters(units)))
  {
    TotalsSplit(UnitTokens(), units);
    UsageTotals(units);
    UsageTotals(Firsts(units));
    UsageTotals(Laters(units));
  }

  // ----- The rows -----

  lemma LastApart(events: seq<Event>, more: seq<Event>)
    requires |more| > 0
    requires forall i, j :: 0 <= i < j < |more| ==> more[i].id != more[j].id && !SameSlot(more[i], more[j])
    requires forall x, e :: x in events && e in more ==> x.id != e.id && !SameSlot(x, e)
    ensures forall x :: x in events + more[..|more| - 1] ==>
              x.id != more[|more| - 1].id && !SameSlot(x, more[|more| - 1])
  {
    var front, last := more[..|more| - 1], more[|more| - 1];
    forall x | x in events + front
      ensures x.id != last.id && !SameSlot(x, last)
    {
      if x in front {
        var i :| 0 <= i < |front| && front[i] == x;
        assert more[i] == x && more[|front|] == last;
      }
    }
  }

  /** Events with ids and slots of their own get rows of their own. */
  lemma {:induction false} InsertAllNew(table: map<string, Row>, events: seq<Event>, more: seq<Event>)
    requires Parser.RowsAre(table, events)
    requires forall i, j :: 0 <= i < j < |more| ==> more[i].id != more[j].id && !SameSlot(more[i], more[j])
    requires forall x, e :: x in events && e in more ==> x.id != e.id && !SameSlot(x, e)
    ensures Parser.RowsAre(InsertAll(table, more), events + more)
  {
    if |more| == 0 {
      assert events + more == events;
    } else {
      var front, last := more[..|more| - 1], more[|more| - 1];
      assert more == front + [last] && events + more == (events + front) + [last];
      InsertAllNew(table, events, front);
      LastApart(events, more);
      Parser.InsertNew(InsertAll(table, front), events + front, last);
    }
  }

  lemma ShapedFresh(config: Config, unit: Unit)
    requires CollisionFree(config.naming) && Shaped(config, unit)
    ensures forall i, j :: 0 <= i < j < |unit.events| ==>
              unit.events[i].id != unit.events[j].id && !SameSlot(unit.events[i], unit.events[j])
  {
    MetricIdsDiffer(config.naming, unit.run.id);
  }

  lemma ShapedApart(config: Config, a: Unit, b: Unit, x: Event, y: Event)
    requires CollisionFree(config.naming) && Shaped(config, a) && Shaped(config, b) && a.run.id != b.run.id
    requires x in a.events && y in b.events
    ensures x.id != y.id && !SameSlot(x, y)
  {
    var i :| 0 <= i < |a.events| && a.events[i] == x;
    var j :| 0 <= j < |b.events| && b.events[j] == y;
    EventIdsDiffer(config.naming, "metric", a.run.id, STEPS[i], b.run.id, STEPS[j]);
    if x.sessionId == y.sessionId {
      SamePrefix("metrics:", a.run.id, b.run.id);
    }
  }

  /** A turn that completes again repeats the keys of its first completion. */
  lemma AgainPresent(config: Config, table: map<string, Row>, firsts: seq<Unit>, unit: Unit, e: Event)
    requires Parser.RowsAre(table, EventsOf(firsts)) && unit.run.id in RunIds(firsts)
    requires Shaped(config, unit) && e in unit.events && forall u :: u in firsts ==> Shaped(config, u)
    ensures Present(table, e)
  {
    var first :| first in firsts && first.run.id == unit.run.id;
    var i :| 0 <= i < |firsts| && firsts[i] == first;
    var k :| 0 <= k < |unit.events| && unit.events[k] == e;
    EventsOfMembers(firsts);
    assert first.events[k] in firsts[i].events && first.events[k] in EventsOf(firsts);
    assert first.events[k].id == e.id;
  }

  /** The table holds exactly the events of the first completion of each turn. */
  lemma {:induction false} TableKeepsFirsts(config: Config, units: seq<Unit>)
    requires CollisionFree(config.naming) && forall unit :: unit in units ==> Shaped(config, unit)
    ensures Parser.RowsAre(InsertAll(map[], EventsOf(units)), EventsOf(Firsts(units)))
  {
    if |units| > 0 {
      var front, last := units[..|units| - 1], units[|units| - 1];
      assert units == front + [last];
      TableKeepsFirsts(config, front);
      FirstsFacts(front);
      InsertAllConcat(map[], EventsOf(front), last.events);
      OneMoreUnit(config, InsertAll(map[], EventsOf(front)), Firsts(front), last);
    }
  }

  lemma OneMoreUnit(config: Config, table: map<string, Row>, firsts: seq<Unit>, unit: Unit)
    requires CollisionFree(config.naming) && Shaped(config, unit) && forall u :: u in firsts ==> Shaped(config, u)
    requires Parser.RowsAre(table, EventsOf(firsts))
    ensures Parser.RowsAre(InsertAll(table, unit.events),
                           EventsOf(if unit.run.id in RunIds(firsts) then firsts else firsts + [unit]))
  {
    if unit.run.id in RunIds(firsts) {
      forall e | e in unit.events
        ensures Present(table, e)
      {
        AgainPresent(config, table, firsts, unit, e);
      }
      InsertPresentNothing(table, unit.events);
    } else {
      ShapedFresh(config, unit);
      forall x, e | x in EventsOf(firsts) && e in unit.events
        ensures x.id != e.id && !SameSlot(x, e)
      {
        var i := UnitOf(firsts, x);
        assert firsts[i] in firsts;
        ShapedApart(config, firsts[i], unit, x, e);
      }
      InsertAllNew(table, EventsOf(firsts), unit.events);
      EventsOfSnoc(firsts, unit);
    }
  }

  // ----- The report -----

  /** The database after the events of a scan are committed. */
  function Committed(config: Config, cutover: Time, state: MetricState, records: seq<Decoded>): map<string, Row> {
    InsertAll(map[], EventsOf(Units(config, cutover, state, records)))
  }

  lemma SameProjection(config: Config, units: seq<Unit>, log: seq<Event>)
    requires CollisionFree(config.naming) && forall unit :: unit in units ==> Shaped(config, unit)
    requires ListsEvents(log, InsertAll(map[], EventsOf(units)), InsertAll(map[], EventsOf(units)).Keys)
    ensures Projection.ProjectedRuns(log) == Projection.ProjectedRuns(EventsOf(Firsts(units)))
  {
    TableKeepsFirsts(config, units);
    EventOrder.ProjectionOfSet(log, EventsOf(Firsts(units)));
  }

  /** Added to any report, the stored metric runs add exactly the usage of the first completion of each session and
      turn, and leave every time, the concurrency of every instant and the number of runs as they were. They add all
      that was emitted if and only if the later completions add up to nothing. */
  lemma MetricsAddTokensOnly(config: Config, cutover: Time, state: MetricState, records: seq<Decoded>, log: seq<Event>,
                             result: seq<Run>, others: seq<Run>, now: Time, from: Time, to: Time)
    requires CollisionFree(config.naming)
    requires ListsEvents(log, Committed(config, cutover, state, records),
                         Committed(config, cutover, state, records).Keys)
    requires Projector.ListsRuns(result, Projection.ProjectedRuns(log))
    requires forall run :: run in result ==> from <= run.startedAt < to
    ensures
      var units := Units(config, cutover, state, records);
      var before := Summaries.TokensIn(others, now, from, to);
      var after := Summaries.TokensIn(others + result, now, from, to);
      && after == before.Plus(UsageOf(Firsts(units)))
      && (after == before.Plus(UsageOf(units)) <==> UsageOf(Laters(units)) == NO_TOKENS)
    ensures SameTimes(others + result, others, now, from, to)
  {
    UnitsShaped(config, cutover, state, records);
    UnitsMomentary(config, cutover, state, records);
    StoredAdd(config, Units(config, cutover, state, records), log, result, others, now, from, to);
  }

  lemma StoredAdd(config: Config, units: seq<Unit>, log: seq<Event>, result: seq<Run>, others: seq<Run>,
                  now: Time, from: Time, to: Time)
    requires CollisionFree(config.naming)
    requires forall unit :: unit in units ==> Shaped(config, unit) && Momentary(config, unit)
    requires ListsEvents(log, InsertAll(map[], EventsOf(units)), InsertAll(map[], EventsOf(units)).Keys)
    requires Projector.ListsRuns(result, Projection.ProjectedRuns(log))
    requires forall run :: run in result ==> from <= run.startedAt < to
    ensures
      var before := Summaries.TokensIn(others, now, from, to);
      var after := Summaries.TokensIn(others + result, now, from, to);
      && after == before.Plus(UsageOf(Firsts(units)))
      && (after == before.Plus(UsageOf(units)) <==> UsageOf(Laters(units)) == NO_TOKENS)
    ensures SameTimes(others + result, others, now, from, to)
  {
    FirstsFacts(units);
    UsageSplits(units);
    SameProjection(config, units, log);
    MomentaryAdd(config, Firsts(units), result, others, now, from, to);
    PlusCancels(Summaries.TokensIn(others, now, from, to), UsageOf(Firsts(units)), UsageOf(Laters(units)));
  }

  lemma PlusCancels(a: Tokens, b: Tokens, c: Tokens)
    ensures a.Plus(b) == a.Plus(b.Plus(c)) <==> c == NO_TOKENS
  {
  }
}
