/** Imported and hook intervals on either side of the cutover: the imported ones end by it, hooks start no earlier. */
module Cutover {
  import opened Domain
  import opened Sums
  import opened WorkUnits
  import Heartbeats
  import L = LocalTables
  import Measures
  import Projection
  import Projector
  import Summaries
  import Wakapi

  /** An imported and a hook interval share neither session, nor run, nor event ids. */
  lemma ImportAndHookApart(naming: Naming, machineId: string, a: Wakapi.Interval, b: L.HookInterval)
    requires CollisionFree(naming)
    ensures Apart(Wakapi.WakapiUnit(naming, machineId, a), Heartbeats.HookUnit(naming, machineId, b))
  {
    var us, vs := Wakapi.WakapiUnit(naming, machineId, a), Heartbeats.HookUnit(naming, machineId, b);
    assert us.run.sessionId != vs.run.sessionId by {
      assert us.run.sessionId[0] == 'w' && vs.run.sessionId[0] == 'h';
    }
    RunIdsApart(naming, a, b);
    assert NamedAfter(naming, "wakapi", us) by {
      IntervalUnitNamed(naming, "wakapi", Wakapi, machineId, us.run.id, Wakapi.WakapiPayload(naming, a),
                        a.startedAt, a.endedAt);
    }
    assert NamedAfter(naming, "hook", vs) by {
      IntervalUnitNamed(naming, "hook", Hook, machineId, vs.run.id, Heartbeats.HookPayload(b), b.startedAt, b.endedAt);
    }
    EventsApart(naming, us, vs);
  }

  lemma RunIdsApart(naming: Naming, a: Wakapi.Interval, b: L.HookInterval)
    requires CollisionFree(naming)
    ensures Wakapi.WakapiRunId(naming, a) != Heartbeats.HookRunId(naming, b)
  {
    DifferAt(["wakapi-run", a.project, naming.stamp(a.startedAt)],
             ["hook-run", b.sessionId, b.project.id, naming.stamp(b.startedAt), naming.stamp(b.endedAt)], 0);
  }

  lemma EventsApart(naming: Naming, us: Unit, vs: Unit)
    requires CollisionFree(naming) && NamedAfter(naming, "wakapi", us) && NamedAfter(naming, "hook", vs)
    ensures forall x, y :: x in us.events && y in vs.events ==> x.id != y.id
  {
    forall x, y | x in us.events && y in vs.events
      ensures x.id != y.id
    {
      var k :| x.id == EventId(naming, "wakapi", us.run.id, k);
      var l :| y.id == EventId(naming, "hook", vs.run.id, l);
      TagsApart(naming, us.run.id, k, vs.run.id, l);
    }
  }

  lemma TagsApart(naming: Naming, a: string, k: string, b: string, l: string)
    requires CollisionFree(naming)
    ensures EventId(naming, "wakapi", a, k) != EventId(naming, "hook", b, l)
  {
    assert "wakapi" + "-event" != "hook" + "-event" by {
      assert ("wakapi" + "-event")[0] == 'w' && ("hook" + "-event")[0] == 'h';
    }
    DifferAt(["wakapi" + "-event", a, k], ["hook" + "-event", b, l], 0);
  }

  function BothUnits(naming: Naming, machineId: string, imported: seq<Wakapi.Interval>, hooks: seq<L.HookInterval>)
      : seq<Unit> {
    Wakapi.WakapiUnits(naming, machineId, imported) + Heartbeats.HookUnits(naming, machineId, hooks)
  }

  lemma BothApart(naming: Naming, machineId: string, imported: seq<Wakapi.Interval>, hooks: seq<L.HookInterval>,
                  from: Time, to: Time)
    requires CollisionFree(naming) && Wakapi.Coalesced(imported) && Heartbeats.Separate(hooks, from, to)
    ensures AllApart(BothUnits(naming, machineId, imported, hooks))
  {
    var a, b := Wakapi.WakapiUnits(naming, machineId, imported), Heartbeats.HookUnits(naming, machineId, hooks);
    Wakapi.WakapiUnitsAllApart(naming, machineId, imported);
    Heartbeats.HookUnitsAllApart(naming, machineId, hooks, from, to);
    forall i, j | 0 <= i < |a| && 0 <= j < |b|
      ensures Apart(a[i], b[j])
    {
      ImportAndHookApart(naming, machineId, imported[i], hooks[j]);
    }
    AllApartConcat(a, b);
  }

  lemma AllApartConcat(a: seq<Unit>, b: seq<Unit>)
    requires AllApart(a) && AllApart(b) && forall i, j :: 0 <= i < |a| && 0 <= j < |b| ==> Apart(a[i], b[j])
    ensures AllApart(a + b)
  {
    var all := a + b;
    forall i | 0 <= i < |all|
      ensures WellFormed(all[i])
    {
      assert all[i] == if i < |a| then a[i] else b[i - |a|];
    }
    forall i, j | 0 <= i < j < |all|
      ensures Apart(all[i], all[j])
    {
      if j < |a| {
        assert Apart(a[i], a[j]);
      } else if i < |a| {
        assert Apart(a[i], b[j - |a|]);
      } else {
        assert Apart(b[i - |a|], b[j - |a|]);
      }
    }
  }

  lemma RunsOfConcat(a: seq<Unit>, b: seq<Unit>)
    ensures RunsOf(a + b) == RunsOf(a) + RunsOf(b)
  {
  }

  lemma OneAfterAnotherConcat(a: seq<Run>, b: seq<Run>, now: Time, cutover: Time)
    requires Measures.OneAfterAnother(a, now) && Measures.OneAfterAnother(b, now)
    requires forall i :: 0 <= i < |a| ==> Summaries.Span(a[i], now).end <= cutover
    requires forall i :: 0 <= i < |b| ==> cutover <= Summaries.Span(b[i], now).start
    ensures Measures.OneAfterAnother(a + b, now)
  {
  }

  lemma ImportedInOrder(naming: Naming, machineId: string, imported: seq<Wakapi.Interval>, now: Time, cutover: Time)
    requires Wakapi.Coalesced(imported) && Wakapi.EndsBy(imported, cutover)
    ensures
      var runs := RunsOf(Wakapi.WakapiUnits(naming, machineId, imported));
      && Measures.OneAfterAnother(runs, now)
      && forall i :: 0 <= i < |runs| ==> Summaries.Span(runs[i], now).end <= cutover
  {
    var runs := RunsOf(Wakapi.WakapiUnits(naming, machineId, imported));
    Wakapi.AllEndBy(imported, cutover);
    forall i | 0 <= i < |runs|
      ensures runs[i].startedAt == imported[i].startedAt && runs[i].endedAt == Some(imported[i].endedAt)
    {
    }
    forall i, j | 0 <= i < j < |runs|
      ensures Summaries.Span(runs[i], now).end <= Summaries.Span(runs[j], now).start
    {
      assert Wakapi.Precedes(imported[i], imported[j]);
    }
  }

  /** Where no instant has two runs, lengths are time on the clock. */
  lemma OnTheClock(runs: seq<Run>, now: Time, from: Time, to: Time)
    requires Measures.OneAfterAnother(runs, now)
    ensures Summaries.WallClock(runs, now, from, to) == SumBy(Measures.VisibleLength(now, from, to), runs)
  {
    forall t | from <= t < to
      ensures Summaries.ActiveAt(runs, now, t) <= 1
    {
      Measures.OneAtATime(runs, now, t);
    }
    Measures.NoOverlap(runs, now, from, to);
    Measures.AreaIsLengths(runs, now, from, to);
  }

  lemma {:induction false} CutStarts(exported: seq<Wakapi.Interval>, cutover: Time, from: Time)
    requires forall i :: 0 <= i < |exported| ==> from <= exported[i].startedAt
    ensures forall item :: item in Wakapi.Before(exported, cutover) ==> from <= item.startedAt
  {
    if |exported| > 0 {
      CutStarts(exported[..|exported| - 1], cutover, from);
    }
  }

  /** Intervals that end by the cutover and hook intervals of one session that start no earlier take turns. */
  lemma BothInOrder(naming: Naming, machineId: string, imported: seq<Wakapi.Interval>, hooks: seq<L.HookInterval>,
                    s: string, cutover: Time, now: Time, to: Time)
    requires Wakapi.Coalesced(imported) && Wakapi.EndsBy(imported, cutover)
    requires Heartbeats.Separate(hooks, cutover, to) && forall i :: 0 <= i < |hooks| ==> hooks[i].sessionId == s
    ensures Measures.OneAfterAnother(RunsOf(BothUnits(naming, machineId, imported, hooks)), now)
  {
    ImportedInOrder(naming, machineId, imported, now, cutover);
    Heartbeats.OneAfterAnother(naming, machineId, hooks, now, cutover, to);
    RunsOfConcat(Wakapi.WakapiUnits(naming, machineId, imported), Heartbeats.HookUnits(naming, machineId, hooks));
    OneAfterAnotherConcat(RunsOf(Wakapi.WakapiUnits(naming, machineId, imported)),
                          RunsOf(Heartbeats.HookUnits(naming, machineId, hooks)), now, cutover);
  }

  lemma BothLengths(naming: Naming, machineId: string, imported: seq<Wakapi.Interval>, hooks: seq<L.HookInterval>,
                    now: Time, from: Time, to: Time)
    requires forall i :: 0 <= i < |imported| ==> from <= imported[i].startedAt < imported[i].endedAt <= to
    requires Heartbeats.Separate(hooks, from, to)
    ensures SumBy(Measures.VisibleLength(now, from, to), RunsOf(BothUnits(naming, machineId, imported, hooks))) ==
            SumBy(Wakapi.SpanFor(None), imported) + SumBy(Heartbeats.ItemLength(), hooks)
  {
    var a, b := Wakapi.WakapiUnits(naming, machineId, imported), Heartbeats.HookUnits(naming, machineId, hooks);
    RunsOfConcat(a, b);
    SumByConcat(Measures.VisibleLength(now, from, to), RunsOf(a), RunsOf(b));
    Wakapi.UnitLengths(naming, machineId, imported, now, from, to);
    Heartbeats.UnitLengths(naming, machineId, hooks, now, from, to);
  }

  lemma BothOnTheClock(naming: Naming, machineId: string, imported: seq<Wakapi.Interval>, hooks: seq<L.HookInterval>,
                       s: string, cutover: Time, result: seq<Run>, now: Time, from: Time, to: Time)
    requires CollisionFree(naming) && Wakapi.Coalesced(imported) && Wakapi.EndsBy(imported, cutover)
    requires forall i :: 0 <= i < |imported| ==> from <= imported[i].startedAt < imported[i].endedAt <= to
    requires Heartbeats.Separate(hooks, cutover, to) && Heartbeats.Separate(hooks, from, to)
    requires forall i :: 0 <= i < |hooks| ==> hooks[i].sessionId == s
    requires Projector.ListsRuns(result,
               Projection.ProjectedRuns(EventsOf(BothUnits(naming, machineId, imported, hooks))))
    ensures Summaries.WallClock(result, now, from, to) ==
            SumBy(Wakapi.SpanFor(None), imported) + SumBy(Heartbeats.ItemLength(), hooks)
  {
    var units := BothUnits(naming, machineId, imported, hooks);
    BothApart(naming, machineId, imported, hooks, from, to);
    ListedUnits(units, result);
    Measures.ReportIgnoresOrder(result, RunsOf(units), now, from, to);
    BothInOrder(naming, machineId, imported, hooks, s, cutover, now, to);
    OnTheClock(RunsOf(units), now, from, to);
    BothLengths(naming, machineId, imported, hooks, now, from, to);
  }

  /** Nothing is counted twice at the cutover: with the import cut there and all heartbeats later, the report's
      wall-clock time is the imported time plus the session's accepted gaps. */
  lemma CutoverAdds(naming: Naming, machineId: string, exported: seq<Wakapi.Interval>, cutover: Time,
                    stream: seq<L.HookHeartbeat>, timeout: int, s: string, result: seq<Run>,
                    now: Time, from: Time, to: Time)
    requires CollisionFree(naming) && Wakapi.Coalesced(exported) && cutover <= to
    requires forall i :: 0 <= i < |exported| ==> from <= exported[i].startedAt
    requires forall i :: 0 <= i < |stream| ==> from <= stream[i].occurredAt <= to && cutover <= stream[i].occurredAt
    requires Projector.ListsRuns(
               result, Projection.ProjectedRuns(EventsOf(BothUnits(naming, machineId, Wakapi.Before(exported, cutover),
                                                                   Heartbeats.EmittedFor(s, stream, timeout)))))
    ensures Summaries.WallClock(result, now, from, to) ==
            SumBy(Wakapi.SpanFor(None), Wakapi.Before(exported, cutover)) +
            Heartbeats.Gaps(Heartbeats.Accepted(stream, s), timeout)
  {
    var imported, hooks := Wakapi.Before(exported, cutover), Heartbeats.EmittedFor(s, stream, timeout);
    Heartbeats.EmittedForShape(s, stream, timeout, from, to);
    Heartbeats.EmittedForShape(s, stream, timeout, cutover, to);
    assert Wakapi.Coalesced(imported) && Wakapi.EndsBy(imported, cutover) by {
      Wakapi.CutShape(exported, cutover);
    }
    forall i | 0 <= i < |imported|
      ensures from <= imported[i].startedAt < imported[i].endedAt <= to
    {
      CutStarts(exported, cutover, from);
      Wakapi.AllEndBy(imported, cutover);
      assert imported[i] in imported;
    }
    BothOnTheClock(naming, machineId, imported, hooks, s, cutover, result, now, from, to);
  }
}
