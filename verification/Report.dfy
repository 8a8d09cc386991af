/** The local report: project, reconcile, summarise. */
module Report {
  import opened Domain
  import opened Sums
  import EventOrder
  import LocalStore
  import LocalTables
  import Measures
  import Projection
  import Projector
  import Reconcile
  import RunHistory
  import Summaries

  const LOOKBACK: int := 12 * HOUR

  /** The report reads the clock twice: at `t1` to expire leases, at `t2` to measure open runs. */
  method Report(store: LocalStore.Store, from: Time, to: Time, t1: Time, t2: Time)
      returns (summary: Summaries.Summary, ghost log: seq<Event>, ghost runs: seq<Run>)
    ensures ReadsWindow(log, store.stamp, store.events, from, to)
    ensures Reported(log, t1, runs)
    ensures summary.sessionAgentTime == Summaries.SessionAgentTime(runs, t2, from, to)
    ensures summary.agentTime == Summaries.AgentTime(runs, t2, from, to)
    ensures summary.wallClock == Summaries.WallClock(runs, t2, from, to)
    ensures summary.projectSpan.Keys == Summaries.VisibleProjects(runs, t2, from, to)
    ensures forall p :: p in summary.projectSpan ==>
              summary.projectSpan[p] == Summaries.ProjectSpan(p, runs, t2, from, to)
    ensures Summaries.IsWindowPeak(summary.parallelismPeak, runs, t2, from, to)
    ensures summary.parallelismAverage ==
            if summary.wallClock > 0 then summary.sessionAgentTime as real / summary.wallClock as real else 0.0
    ensures summary.runCount == Summaries.VisibleRuns(runs, t2, from, to)
    ensures summary.tokens == Summaries.TokensIn(runs, t2, from, to)
  {
    var events := store.Events(from - LOOKBACK, to);
    var projected := Projector.Project(events);
    var reconciled := Reconcile.ReconcileOpen(projected, t1, Reconcile.LEASE_GRACE, Reconcile.LEASE_MAXIMUM);
    summary := Summaries.Summarize(reconciled, from, to, t2);
    log, runs := events, reconciled;
  }

  /** The events of the window and of the twelve hours before it, as the texts of their times tell. */
  ghost predicate ReadsWindow(log: seq<Event>, stamp: Time -> string, table: map<string, LocalTables.Row>, from: Time,
                              to: Time) {
    LocalTables.ListsEvents(log, table, LocalTables.WindowRows(stamp, table, from - 12 * HOUR, to))
  }

  /** The runs are a reconciled listing of the log's projection. */
  ghost predicate Reported(events: seq<Event>, now: Time, runs: seq<Run>) {
    exists projected :: Projector.ListsRuns(projected, Projection.ProjectedRuns(events))
      && Reconcile.Reconciled(runs, projected, now, Reconcile.LEASE_GRACE, Reconcile.LEASE_MAXIMUM)
  }

  /** Each reported run is a projected one that kept its lease of 90 seconds past its last activity and twelve hours
      in all, and every projected run is reported so. */
  lemma ReportedLeases(events: seq<Event>, now: Time, runs: seq<Run>)
    requires Reported(events, now, runs)
    ensures
      var table := Projection.ProjectedRuns(events);
      && (forall run :: run in runs ==>
            exists id :: id in table && Reconcile.HoldsLease(table[id], run, now, 90 * SECOND, 12 * HOUR))
      && (forall id :: id in table ==>
            exists run :: run in runs && Reconcile.HoldsLease(table[id], run, now, 90 * SECOND, 12 * HOUR))
  {
    var table := Projection.ProjectedRuns(events);
    var projected :| Projector.ListsRuns(projected, table)
      && Reconcile.Reconciled(runs, projected, now, Reconcile.LEASE_GRACE, Reconcile.LEASE_MAXIMUM);
    Projector.OnceInSet(projected, table.Values);
    forall run | run in runs
      ensures exists id :: id in table && Reconcile.HoldsLease(table[id], run, now, 90 * SECOND, 12 * HOUR)
    {
      var i :| 0 <= i < |runs| && runs[i] == run;
      assert projected[i] in projected;
      var id :| id in table && table[id] == projected[i];
      Reconcile.ReconcileHoldsLease(projected[i], now, Reconcile.LEASE_GRACE, Reconcile.LEASE_MAXIMUM);
    }
    forall id | id in table
      ensures exists run :: run in runs && Reconcile.HoldsLease(table[id], run, now, 90 * SECOND, 12 * HOUR)
    {
      assert table[id] in projected;
      var i :| 0 <= i < |projected| && projected[i] == table[id];
      Reconcile.ReconcileHoldsLease(projected[i], now, Reconcile.LEASE_GRACE, Reconcile.LEASE_MAXIMUM);
      assert runs[i] in runs;
    }
  }

  /** Looking back twelve hours is enough for unfinished runs: one that reaches into the window started within them. */
  lemma LookbackSuffices(run: Run, from: Time, t1: Time, t2: Time)
    requires run.endedAt.None? && from <= t1 <= t2
    requires
      var reported := Reconcile.ReconcileRun(run, t1, Reconcile.LEASE_GRACE, Reconcile.LEASE_MAXIMUM);
      from < Summaries.Span(reported, t2).end
    ensures from - LOOKBACK < run.startedAt
  {
  }

  function ReconcileEach(runs: seq<Run>, now: Time): seq<Run> {
    if |runs| == 0 then []
    else
      ReconcileEach(runs[..|runs| - 1], now)
        + [Reconcile.ReconcileRun(runs[|runs| - 1], now, Reconcile.LEASE_GRACE, Reconcile.LEASE_MAXIMUM)]
  }

  lemma {:induction false} ReconciledEach(result: seq<Run>, runs: seq<Run>, now: Time)
    requires Reconcile.Reconciled(result, runs, now, Reconcile.LEASE_GRACE, Reconcile.LEASE_MAXIMUM)
    ensures result == ReconcileEach(runs, now)
  {
    if |runs| > 0 {
      ReconciledEach(result[..|runs| - 1], runs[..|runs| - 1], now);
      assert result == result[..|runs| - 1] + [result[|runs| - 1]];
    }
  }

  function Times(run: Run, now: Time): Run -> int {
    (x: Run) => if Reconcile.ReconcileRun(x, now, Reconcile.LEASE_GRACE, Reconcile.LEASE_MAXIMUM) == run then 1 else 0
  }

  /** How often a run appears among the reconciled ones is a sum over the original ones. */
  lemma {:induction false} Multiplicity(runs: seq<Run>, now: Time, run: Run)
    ensures multiset(ReconcileEach(runs, now))[run] == SumBy(Times(run, now), runs)
  {
    if |runs| > 0 {
      Multiplicity(runs[..|runs| - 1], now, run);
    }
  }

  lemma ReconcilePermutes(a: seq<Run>, b: seq<Run>, now: Time)
    requires multiset(a) == multiset(b)
    ensures multiset(ReconcileEach(a, now)) == multiset(ReconcileEach(b, now))
  {
    forall run
      ensures multiset(ReconcileEach(a, now))[run] == multiset(ReconcileEach(b, now))[run]
    {
      Multiplicity(a, now, run);
      Multiplicity(b, now, run);
      SumByPermutation(Times(run, now), a, b);
    }
  }

  /** The whole report is a function of the set of events and of the two times: neither the order of the events, nor
      repetitions, nor the order in which runs come out of the projector shows in any figure. */
  lemma ReportOfSet(a: seq<Event>, b: seq<Event>, runsA: seq<Run>, runsB: seq<Run>, t1: Time, t2: Time, from: Time,
                    to: Time)
    requires EventOrder.IdsIdentify(a) && EventOrder.IdsIdentify(b)
    requires forall e: Event :: e.id != "" ==> (e in a <==> e in b)
    requires Reported(a, t1, runsA) && Reported(b, t1, runsB)
    ensures Measures.SameReport(runsA, runsB, t2, from, to)
  {
    EventOrder.ProjectionOfSet(a, b);
    var projectedA :| Projector.ListsRuns(projectedA, Projection.ProjectedRuns(a))
      && Reconcile.Reconciled(runsA, projectedA, t1, Reconcile.LEASE_GRACE, Reconcile.LEASE_MAXIMUM);
    var projectedB :| Projector.ListsRuns(projectedB, Projection.ProjectedRuns(b))
      && Reconcile.Reconciled(runsB, projectedB, t1, Reconcile.LEASE_GRACE, Reconcile.LEASE_MAXIMUM);
    ReconciledEach(runsA, projectedA, t1);
    ReconciledEach(runsB, projectedB, t1);
    ReconcilePermutes(projectedA, projectedB, t1);
    Measures.ReportIgnoresOrder(runsA, runsB, t2, from, to);
  }

  /** Two reports on one database at the same times show the same figures. */
  lemma ReportOfTable(stamp: Time -> string, table: map<string, LocalTables.Row>, from: Time, to: Time, t1: Time,
                      t2: Time,
                      a: seq<Event>, b: seq<Event>, runsA: seq<Run>, runsB: seq<Run>)
    requires LocalTables.KeyedRows(table)
    requires ReadsWindow(a, stamp, table, from, to) && ReadsWindow(b, stamp, table, from, to)
    requires Reported(a, t1, runsA) && Reported(b, t1, runsB)
    ensures Measures.SameReport(runsA, runsB, t2, from, to)
  {
    ReportOfSet(a, b, runsA, runsB, t1, t2, from, to);
  }

  // ----- Which runs a report can show -----

  /** Texts of times sort like the times. */
  ghost predicate Ordered(stamp: Time -> string) {
    forall s, t :: Projection.StringLe(stamp(s), stamp(t)) <==> s <= t
  }

  lemma BegunIffStarted(log: seq<Event>, r: string)
    ensures RunHistory.Begun(log, r) <==> exists e :: e in log && RunHistory.Starts(e, r)
  {
    var k := RunHistory.FirstStart(log, r);
    if k.Some? {
      assert log[k.value] in log;
    }
  }

  predicate StartsWithin(e: Event, r: string, from: Time, to: Time) {
    RunHistory.Starts(e, r) && from <= e.occurredAt < to
  }

  /** A run is reported if and only if some start of it was stored for a time of the window or of the twelve hours
      before it. */
  lemma ReportedIffStartRead(stamp: Time -> string, table: map<string, LocalTables.Row>, from: Time, to: Time,
                             log: seq<Event>, r: string)
    requires Ordered(stamp) && LocalTables.KeyedRows(table) && ReadsWindow(log, stamp, table, from, to)
    ensures r in Projection.ProjectedRuns(log) <==>
              exists id :: id in table && id != "" && StartsWithin(table[id].event, r, from - 12 * HOUR, to)
  {
    ProjectedIffStarted(log, r);
    if e :| e in log && e.id != "" && RunHistory.Starts(e, r) {
      ReadWithin(stamp, table, from, to, log, e);
      assert table[e.id].event == e;
    }
    if id :| id in table && id != "" && StartsWithin(table[id].event, r, from - 12 * HOUR, to) {
      ReadWithin(stamp, table, from, to, log, table[id].event);
    }
  }

  lemma ProjectedIffStarted(log: seq<Event>, r: string)
    requires EventOrder.IdsIdentify(log)
    ensures r in Projection.ProjectedRuns(log) <==> exists e :: e in log && e.id != "" && RunHistory.Starts(e, r)
  {
    var kept := Projection.Kept(Projection.Ordered(log));
    RunHistory.RunsTellTheirHistory(log, r);
    BegunIffStarted(kept, r);
    EventOrder.KeptOrderedMembers(log);
  }

  /** What is read is what is stored for a time of the window or of the twelve hours before it. */
  lemma ReadWithin(stamp: Time -> string, table: map<string, LocalTables.Row>, from: Time, to: Time, log: seq<Event>,
                   e: Event)
    requires Ordered(stamp) && LocalTables.KeyedRows(table) && ReadsWindow(log, stamp, table, from, to)
    ensures e in log <==> e.id in table && table[e.id].event == e && from - 12 * HOUR <= e.occurredAt < to
  {
    LocalTables.WindowIsTimes(stamp, from - 12 * HOUR, to, e);
    if e.id in table && table[e.id].event == e && from - 12 * HOUR <= e.occurredAt < to {
      assert e.id in LocalTables.WindowRows(stamp, table, from - 12 * HOUR, to);
    }
  }

  /** A completed run that fills the window is missing from the report when it started more than twelve hours before
      it. */
  lemma LongRunMissed(stamp: Time -> string, start: Event, end: Event, from: Time, to: Time, log: seq<Event>)
    requires Ordered(stamp) && start.id != "" && end.id != "" && start.id != end.id
    requires start.kind == RunStarted && end.kind == RunCompleted && start.runId == end.runId != ""
    requires start.occurredAt < from - 12 * HOUR && from <= to <= end.occurredAt
    requires
      var table := map[start.id := LocalTables.Row(start, LocalTables.Pending),
                       end.id := LocalTables.Row(end, LocalTables.Pending)];
      ReadsWindow(log, stamp, table, from, to)
    ensures start.runId !in Projection.ProjectedRuns(log)
  {
    ReportedIffStartRead(stamp, map[start.id := LocalTables.Row(start, LocalTables.Pending),
                                    end.id := LocalTables.Row(end, LocalTables.Pending)], from, to, log, start.runId);
  }
}
