/** Expiring the lease of unfinished runs, and how much unfinished work can be charged. */
module Reconcile {
  import opened Domain
  import opened Sums
  import Projection
  import RunInvariants
  import Summaries
  import Measures

  const LEASE_GRACE: int := 90 * SECOND
  const LEASE_MAXIMUM: int := 12 * HOUR

  function Deadline(run: Run, grace: int, maximum: int): Time {
    var deadline := run.lastActivityAt + grace;
    var maximumDeadline := run.startedAt + maximum;
    if maximumDeadline < deadline then maximumDeadline else deadline
  }

  function ReconcileRun(run: Run, now: Time, grace: int, maximum: int): Run {
    var deadline := Deadline(run, grace, maximum);
    if run.endedAt.Some? || now < deadline then run
    else Projection.CloseRun(run, deadline, Abandoned, LeaseExpired)
  }

  ghost predicate Reconciled(result: seq<Run>, runs: seq<Run>, now: Time, grace: int, maximum: int) {
    && |result| == |runs|
    && forall i :: 0 <= i < |runs| ==> result[i] == ReconcileRun(runs[i], now, grace, maximum)
  }

  /** An open run stays as it is while less than `grace` has passed since its last activity and less than `maximum`
      since its start; then it is abandoned, and ends when the first of the two had passed, though not before it
      started. An ended run stays as it is. */
  ghost predicate HoldsLease(run: Run, next: Run, now: Time, grace: int, maximum: int) {
    if run.endedAt.Some? || (now < run.lastActivityAt + grace && now < run.startedAt + maximum) then next == run
    else
      var end := Later(run.startedAt, Earlier(run.lastActivityAt + grace, run.startedAt + maximum));
      next == run.(endedAt := Some(end), lastActivityAt := end, status := Abandoned, closeReason := LeaseExpired)
  }

  lemma ReconcileHoldsLease(run: Run, now: Time, grace: int, maximum: int)
    ensures HoldsLease(run, ReconcileRun(run, now, grace, maximum), now, grace, maximum)
  {
  }

  method ReconcileOpen(runs: seq<Run>, now: Time, grace: int, maximum: int) returns (result: seq<Run>)
    ensures Reconciled(result, runs, now, grace, maximum)
    ensures forall i :: 0 <= i < |runs| ==> HoldsLease(runs[i], result[i], now, grace, maximum)
  {
    result := runs;
    for i := 0 to |result|
      invariant |result| == |runs|
      invariant forall k :: 0 <= k < i ==> result[k] == ReconcileRun(runs[k], now, grace, maximum)
      invariant forall k :: i <= k < |runs| ==> result[k] == runs[k]
    {
      if result[i].endedAt.Some? {
        continue;
      }
      var deadline := result[i].lastActivityAt + grace;
      var maximumDeadline := result[i].startedAt + maximum;
      if maximumDeadline < deadline {
        deadline := maximumDeadline;
      }
      if !(now < deadline) {
        var run := result[i];
        var at := if deadline < run.startedAt then run.startedAt else deadline;
        result := result[i := run.(endedAt := Some(at), lastActivityAt := at, status := Abandoned,
                                   closeReason := LeaseExpired)];
      }
    }
  }

  /** Reading at `t1` and again at `t2` leaves what reading at `t2` alone leaves. */
  lemma ReconcileComposes(run: Run, t1: Time, t2: Time, grace: int, maximum: int)
    requires t1 <= t2
    ensures ReconcileRun(ReconcileRun(run, t1, grace, maximum), t2, grace, maximum) ==
            ReconcileRun(run, t2, grace, maximum)
  {
  }

  /** The server's expiring UPDATE: no clamp to the start. */
  function ExpireRow(run: Run, now: Time): Run {
    var deadline := Deadline(run, LEASE_GRACE, LEASE_MAXIMUM);
    if run.endedAt.None? && now >= deadline then
      run.(endedAt := Some(deadline), lastActivityAt := deadline, status := Abandoned, closeReason := LeaseExpired)
    else run
  }

  lemma ExpireIsReconcile(run: Run, now: Time)
    ensures run.startedAt <= run.lastActivityAt ==>
              ExpireRow(run, now) == ReconcileRun(run, now, LEASE_GRACE, LEASE_MAXIMUM)
    ensures ExpireRow(run, now).startedAt == run.startedAt
    ensures run.endedAt.None? && ExpireRow(run, now).endedAt.None? ==> ExpireRow(run, now) == run
  {
  }

  /** The server keeps a run open while less than 90 seconds have passed since its last activity and less than twelve
      hours since its start, and abandons it when the first of the two had passed. */
  lemma ExpireHoldsLease(run: Run, now: Time)
    ensures ExpireRow(run, now) == run <==>
              run.endedAt.Some? || (now < run.lastActivityAt + 90 * SECOND && now < run.startedAt + 12 * HOUR)
    ensures ExpireRow(run, now) != run ==>
              var end := Earlier(run.lastActivityAt + 90 * SECOND, run.startedAt + 12 * HOUR);
              ExpireRow(run, now) == run.(endedAt := Some(end), lastActivityAt := end, status := Abandoned,
                                          closeReason := LeaseExpired)
  {
  }

  /** Every run the projector leaves expires on the server as `ReconcileOpen` expires it. */
  lemma ProjectedRunsExpireAlike(events: seq<Event>, id: string, now: Time)
    requires id in Projection.ProjectedRuns(events)
    ensures
      var run := Projection.ProjectedRuns(events)[id];
      && ExpireRow(run, now) == ReconcileRun(run, now, LEASE_GRACE, LEASE_MAXIMUM)
      && HoldsLease(run, ExpireRow(run, now), now, 90 * SECOND, 12 * HOUR)
  {
    RunInvariants.FoldSound(Projection.Kept(Projection.Ordered(events)));
    assert RunInvariants.RunSound(Projection.ProjectedState(events), id);
  }

  // ----- Bounded charging -----

  /** Leases expire at `t1` and runs are measured at `t2`: an unfinished run is charged at most `grace` past its last
      activity and at most `maximum` in all, and what passes between the two times. */
  lemma UnfinishedChargeBounded(run: Run, t1: Time, t2: Time, grace: int, maximum: int)
    requires run.endedAt.None? && run.startedAt <= run.lastActivityAt
    requires 0 <= grace && 0 <= maximum && t1 <= t2
    ensures
      var iv := Summaries.Span(ReconcileRun(run, t1, grace, maximum), t2);
      && iv.end <= run.lastActivityAt + grace + (t2 - t1)
      && iv.end - iv.start <= maximum + (t2 - t1)
  {
  }

  lemma {:induction false} SumByAtMost(f: Run -> int, runs: seq<Run>, bound: int)
    requires forall run :: run in runs ==> f(run) <= bound
    ensures SumBy(f, runs) <= |runs| * bound
  {
    if |runs| > 0 {
      var runs', run := runs[..|runs| - 1], runs[|runs| - 1];
      assert runs == runs' + [run];
      SumByAtMost(f, runs', bound);
      assert |runs| * bound == |runs'| * bound + bound;
    }
  }

  /** Forgotten runs cannot inflate a report: `n` unfinished runs add at most `n * maximum` of agent time, and what
      passes between the report's two readings of the clock. */
  lemma UnfinishedWorkBounded(runs: seq<Run>, result: seq<Run>, from: Time, to: Time, t1: Time, t2: Time, grace: int,
                              maximum: int)
    requires 0 <= grace && 0 <= maximum && t1 <= t2
    requires forall run :: run in runs ==> run.endedAt.None? && run.startedAt <= run.lastActivityAt
    requires Reconciled(result, runs, t1, grace, maximum)
    ensures Summaries.SessionAgentTime(result, t2, from, to) <= |runs| * (maximum + (t2 - t1))
  {
    var length, bound := Measures.VisibleLength(t2, from, to), maximum + (t2 - t1);
    forall run | run in result
      ensures length(run) <= bound
    {
      var i :| 0 <= i < |result| && result[i] == run;
      assert runs[i] in runs;
      UnfinishedChargeBounded(runs[i], t1, t2, grace, maximum);
    }
    SumByAtMost(length, result, bound);
    Measures.AreaIsLengths(result, t2, from, to);
  }
}
