/** How the figures of a report relate to each other, to the window and to the list of runs. */
module Measures {
  import opened Domain
  import opened Sums
  import opened TokenSums
  import opened Intervals
  import opened Summaries
  import Sorting

  // ----- Ordering -----

  lemma {:induction false} ProjectsBounded(runs: seq<Run>, now: Time, t: Time)
    ensures |ProjectsAt(runs, now, t)| <= ActiveAt(runs, now, t)
  {
    if |runs| > 0 {
      var runs', run := runs[..|runs| - 1], runs[|runs| - 1];
      ProjectsBounded(runs', now, t);
      assert runs == runs' + [run];
      if Contains(Span(run, now), t) {
        assert ProjectsAt(runs, now, t) == ProjectsAt(runs', now, t) + {run.projectId};
      } else {
        assert ProjectsAt(runs, now, t) == ProjectsAt(runs', now, t);
      }
    }
  }

  lemma BusyMeansProject(runs: seq<Run>, now: Time, t: Time)
    ensures Busy(runs, now)(t) <= |ProjectsAt(runs, now, t)|
  {
    ActiveMeansRun(runs, now, t);
    if ActiveAt(runs, now, t) > 0 {
      var run :| run in runs && Contains(Span(run, now), t);
      assert run.projectId in ProjectsAt(runs, now, t);
    }
  }

  lemma TimesOrdered(runs: seq<Run>, now: Time, from: Time, to: Time)
    ensures WallClock(runs, now, from, to) <= AgentTime(runs, now, from, to) <= SessionAgentTime(runs, now, from, to)
  {
    forall t | from <= t < to
      ensures Busy(runs, now)(t) <= BusyProjects(runs, now)(t) <= Concurrency(runs, now)(t)
    {
      BusyMeansProject(runs, now, t);
      ProjectsBounded(runs, now, t);
    }
    SumOverLe(Busy(runs, now), BusyProjects(runs, now), from, to);
    SumOverLe(BusyProjects(runs, now), Concurrency(runs, now), from, to);
  }

  lemma SpanWithinWallClock(project: string, runs: seq<Run>, now: Time, from: Time, to: Time)
    ensures ProjectSpan(project, runs, now, from, to) <= WallClock(runs, now, from, to)
  {
    forall t | from <= t < to
      ensures Busy(RunsOf(project, runs), now)(t) <= Busy(runs, now)(t)
    {
      ProjectBusy(project, runs, now, t);
      ActiveMeansRun(runs, now, t);
    }
    SumOverLe(Busy(RunsOf(project, runs), now), Busy(runs, now), from, to);
  }

  lemma WallClockWithinWindow(runs: seq<Run>, now: Time, from: Time, to: Time)
    requires from <= to
    ensures 0 <= WallClock(runs, now, from, to) <= to - from
  {
    var one, zero := (t: Time) => 1, (t: Time) => 0;
    SumOverLe(Busy(runs, now), one, from, to);
    SumOverLe(zero, Busy(runs, now), from, to);
    SumOverConst(one, 1, from, to);
    SumOverConst(zero, 0, from, to);
  }

  lemma WeightedWithinPeak(peak: int, runs: seq<Run>, now: Time, from: Time, to: Time)
    requires IsWindowPeak(peak, runs, now, from, to)
    ensures WallClock(runs, now, from, to) <= SessionAgentTime(runs, now, from, to)
    ensures SessionAgentTime(runs, now, from, to) <= peak * WallClock(runs, now, from, to)
  {
    TimesOrdered(runs, now, from, to);
    var bound := (t: Time) => peak * Busy(runs, now)(t);
    forall t | from <= t < to
      ensures Concurrency(runs, now)(t) <= bound(t)
    {
      ActiveMeansRun(runs, now, t);
    }
    SumOverLe(Concurrency(runs, now), bound, from, to);
    SumOverScale(bound, Busy(runs, now), peak, from, to);
  }

  /** When the clock ran at all, the average parallelism lies between one and the peak. */
  lemma AverageBetweenOneAndPeak(peak: int, runs: seq<Run>, now: Time, from: Time, to: Time)
    requires IsWindowPeak(peak, runs, now, from, to)
    requires WallClock(runs, now, from, to) > 0
    ensures
      var average := SessionAgentTime(runs, now, from, to) as real / WallClock(runs, now, from, to) as real;
      1.0 <= average <= peak as real
  {
    WeightedWithinPeak(peak, runs, now, from, to);
    Quotient(SessionAgentTime(runs, now, from, to), WallClock(runs, now, from, to), peak);
  }

  lemma Scaled(x: real, y: real, b: real)
    requires 0.0 < b && x * b <= y * b
    ensures x <= y
  {
  }

  lemma Quotient(a: int, b: int, k: int)
    requires 0 < b <= a <= k * b
    ensures 1.0 <= a as real / b as real <= k as real
  {
    var q := a as real / b as real;
    assert q * b as real == a as real;
    assert (k * b) as real == k as real * b as real;
    Scaled(1.0, q, b as real);
    Scaled(q, k as real, b as real);
  }

  // ----- Adding runs one at a time -----

  /** What one run occupies of the window. */
  function VisibleLength(now: Time, from: Time, to: Time): Run -> int {
    (run: Run) => var (iv, ok) := Clip(Span(run, now), from, to); if ok then iv.end - iv.start else 0
  }

  lemma {:induction false} OneSpan(f: Time -> int, iv: Interval, from: Time, to: Time)
    requires forall t :: f(t) == if Contains(iv, t) then 1 else 0
    ensures SumOver(f, from, to) == var (c, ok) := Clip(iv, from, to); if ok then c.end - c.start else 0
    decreases if to <= from then 0 else to - from
  {
    if from < to {
      OneSpan(f, iv, from, to - 1);
    }
  }

  lemma {:induction false} AreaIsLengths(runs: seq<Run>, now: Time, from: Time, to: Time)
    ensures SessionAgentTime(runs, now, from, to) == SumBy(VisibleLength(now, from, to), runs)
  {
    if |runs| == 0 {
      SumOverZero(Concurrency(runs, now), from, to);
    } else {
      var runs', run := runs[..|runs| - 1], runs[|runs| - 1];
      AreaIsLengths(runs', now, from, to);
      var one := (t: Time) => if Contains(Span(run, now), t) then 1 else 0;
      OneSpan(one, Span(run, now), from, to);
      SumOverPlus(Concurrency(runs, now), Concurrency(runs', now), one, from, to);
    }
  }

  /** When no two runs overlap, agent time is wall-clock time. */
  lemma NoOverlap(runs: seq<Run>, now: Time, from: Time, to: Time)
    requires forall t :: from <= t < to ==> ActiveAt(runs, now, t) <= 1
    ensures SessionAgentTime(runs, now, from, to) == AgentTime(runs, now, from, to) == WallClock(runs, now, from, to)
  {
    TimesOrdered(runs, now, from, to);
    forall t | from <= t < to
      ensures Concurrency(runs, now)(t) == Busy(runs, now)(t)
    {
      ActiveMeansRun(runs, now, t);
    }
    SumOverAgree(Concurrency(runs, now), Busy(runs, now), from, to);
  }

  /** Each run ends before the next one starts, or as it starts. */
  ghost predicate OneAfterAnother(runs: seq<Run>, now: Time) {
    && (forall i :: 0 <= i < |runs| ==> Span(runs[i], now).start <= Span(runs[i], now).end)
    && (forall i, j :: 0 <= i < j < |runs| ==> Span(runs[i], now).end <= Span(runs[j], now).start)
  }

  lemma {:induction false} OneAtATime(runs: seq<Run>, now: Time, t: Time)
    requires OneAfterAnother(runs, now)
    ensures ActiveAt(runs, now, t) <= 1
  {
    if |runs| > 0 {
      var runs', run := runs[..|runs| - 1], runs[|runs| - 1];
      OneAtATime(runs', now, t);
      ActiveMeansRun(runs', now, t);
      if ActiveAt(runs', now, t) > 0 {
        var other :| other in runs' && Contains(Span(other, now), t);
        var i :| 0 <= i < |runs'| && runs'[i] == other;
        assert Span(runs[i], now).end <= Span(runs[|runs'|], now).start;
      }
    }
  }

  function LengthIn(project: string, now: Time): Run -> int {
    (run: Run) => if run.projectId == project then Span(run, now).end - Span(run, now).start else 0
  }

  lemma {:induction false} ProjectAfterAnother(project: string, runs: seq<Run>, now: Time)
    requires OneAfterAnother(runs, now)
    ensures OneAfterAnother(RunsOf(project, runs), now)
  {
    if |runs| > 0 {
      var front, run := runs[..|runs| - 1], runs[|runs| - 1];
      ProjectAfterAnother(project, front, now);
      Sorting.FilterMembers(InProject(project), front);
      var own := RunsOf(project, front);
      forall i | 0 <= i < |own|
        ensures Span(own[i], now).end <= Span(run, now).start
      {
        assert own[i] in front;
        var k :| 0 <= k < |front| && front[k] == own[i];
        assert Span(runs[k], now).end <= Span(runs[|front|], now).start;
      }
      assert own + [] == own;
    }
  }

  lemma {:induction false} ProjectLengths(project: string, runs: seq<Run>, now: Time, from: Time, to: Time)
    requires forall run :: run in runs ==> from <= Span(run, now).start <= Span(run, now).end <= to
    ensures SumBy(VisibleLength(now, from, to), RunsOf(project, runs)) == SumBy(LengthIn(project, now), runs)
  {
    if |runs| > 0 {
      var front, run := runs[..|runs| - 1], runs[|runs| - 1];
      assert runs == front + [run] && run in runs;
      ProjectLengths(project, front, now, from, to);
      SumBySnoc(VisibleLength(now, from, to), RunsOf(project, front), run);
      assert RunsOf(project, front) + [] == RunsOf(project, front);
    }
  }

  /** When runs follow one another within the window, each project's span is the length of its runs. */
  lemma ProjectShare(project: string, runs: seq<Run>, now: Time, from: Time, to: Time)
    requires OneAfterAnother(runs, now)
    requires forall run :: run in runs ==> from <= Span(run, now).start <= Span(run, now).end <= to
    ensures ProjectSpan(project, runs, now, from, to) == SumBy(LengthIn(project, now), runs)
  {
    var own := RunsOf(project, runs);
    ProjectAfterAnother(project, runs, now);
    forall t | from <= t < to
      ensures ActiveAt(own, now, t) <= 1
    {
      OneAtATime(own, now, t);
    }
    NoOverlap(own, now, from, to);
    AreaIsLengths(own, now, from, to);
    ProjectLengths(project, runs, now, from, to);
  }

  // ----- Runs of no length -----

  ghost predicate NoLength(runs: seq<Run>) {
    forall run :: run in runs ==> run.endedAt == Some(run.startedAt)
  }

  function AllTokens(): Run -> Tokens {
    (run: Run) => run.tokens
  }

  function TokensOf(runs: seq<Run>): Tokens {
    SumTokens(AllTokens(), runs)
  }

  lemma {:induction false} NoLengthIdle(runs: seq<Run>, extra: seq<Run>, now: Time, t: Time)
    requires NoLength(extra)
    ensures ActiveAt(runs + extra, now, t) == ActiveAt(runs, now, t)
    ensures ProjectsAt(runs + extra, now, t) == ProjectsAt(runs, now, t)
  {
    SumByConcat(Occupies(now, t), runs, extra);
    ActiveMeansRun(extra, now, t);
    assert forall run :: run in runs + extra <==> run in runs || run in extra;
  }

  lemma NoLengthCharged(extra: seq<Run>, now: Time, from: Time, to: Time)
    requires NoLength(extra)
    requires forall run :: run in extra ==> from <= run.startedAt < to
    ensures TokensIn(extra, now, from, to) == TokensOf(extra)
    ensures VisibleRuns(extra, now, from, to) == 0
  {
    forall run | run in extra
      ensures Momentary(run, now, from, to) && !Visible(run, now, from, to)
    {
    }
    SumTokensAgree(Charge(now, from, to), AllTokens(), extra);
    SumByZero(IfVisible(now, from, to), extra);
  }

  /** Runs of no length inside the window add their tokens and nothing else. */
  lemma NoLengthAddsTokensOnly(runs: seq<Run>, extra: seq<Run>, now: Time, from: Time, to: Time)
    requires NoLength(extra)
    requires forall run :: run in extra ==> from <= run.startedAt < to
    ensures SessionAgentTime(runs + extra, now, from, to) == SessionAgentTime(runs, now, from, to)
    ensures AgentTime(runs + extra, now, from, to) == AgentTime(runs, now, from, to)
    ensures WallClock(runs + extra, now, from, to) == WallClock(runs, now, from, to)
    ensures forall t :: ActiveAt(runs + extra, now, t) == ActiveAt(runs, now, t)
    ensures VisibleRuns(runs + extra, now, from, to) == VisibleRuns(runs, now, from, to)
    ensures TokensIn(runs + extra, now, from, to) == TokensIn(runs, now, from, to).Plus(TokensOf(extra))
  {
    forall t
      ensures ActiveAt(runs + extra, now, t) == ActiveAt(runs, now, t)
      ensures ProjectsAt(runs + extra, now, t) == ProjectsAt(runs, now, t)
    {
      NoLengthIdle(runs, extra, now, t);
    }
    SumOverAgree(Concurrency(runs + extra, now), Concurrency(runs, now), from, to);
    SumOverAgree(BusyProjects(runs + extra, now), BusyProjects(runs, now), from, to);
    SumOverAgree(Busy(runs + extra, now), Busy(runs, now), from, to);
    NoLengthCharged(extra, now, from, to);
    SumTokensConcat(Charge(now, from, to), runs, extra);
    SumByConcat(IfVisible(now, from, to), runs, extra);
  }

  // ----- Additivity over windows -----

  lemma WindowsAddUp(runs: seq<Run>, now: Time, from: Time, mid: Time, to: Time)
    requires from <= mid <= to
    ensures WallClock(runs, now, from, to) == WallClock(runs, now, from, mid) + WallClock(runs, now, mid, to)
    ensures AgentTime(runs, now, from, to) == AgentTime(runs, now, from, mid) + AgentTime(runs, now, mid, to)
    ensures SessionAgentTime(runs, now, from, to) ==
            SessionAgentTime(runs, now, from, mid) + SessionAgentTime(runs, now, mid, to)
    ensures forall p :: ProjectSpan(p, runs, now, from, to) ==
                        ProjectSpan(p, runs, now, from, mid) + ProjectSpan(p, runs, now, mid, to)
  {
    SumOverSplit(Busy(runs, now), from, mid, to);
    SumOverSplit(BusyProjects(runs, now), from, mid, to);
    SumOverSplit(Concurrency(runs, now), from, mid, to);
    forall p
      ensures ProjectSpan(p, runs, now, from, to) ==
              ProjectSpan(p, runs, now, from, mid) + ProjectSpan(p, runs, now, mid, to)
    {
      SumOverSplit(Busy(RunsOf(p, runs), now), from, mid, to);
    }
  }

  /** The run is under way on both sides of `mid`, so both half windows show it. */
  predicate Straddles(run: Run, now: Time, from: Time, mid: Time, to: Time) {
    var iv := Span(run, now);
    iv.start < mid < iv.end && from < mid < to
  }

  function StraddlingCharge(now: Time, from: Time, mid: Time, to: Time): Run -> Tokens {
    (run: Run) => if Straddles(run, now, from, mid, to) then run.tokens else NO_TOKENS
  }

  lemma ChargeSplits(run: Run, now: Time, from: Time, mid: Time, to: Time)
    requires from <= mid <= to
    ensures Counted(run, now, from, to) <==> Counted(run, now, from, mid) || Counted(run, now, mid, to)
    ensures Straddles(run, now, from, mid, to) <==> Counted(run, now, from, mid) && Counted(run, now, mid, to)
  {
  }

  /** The tokens of exactly the runs that straddle the cut are counted twice. */
  function StraddlingTokens(runs: seq<Run>, now: Time, from: Time, mid: Time, to: Time): Tokens {
    SumTokens(StraddlingCharge(now, from, mid, to), runs)
  }

  lemma TokensAddUp(runs: seq<Run>, now: Time, from: Time, mid: Time, to: Time)
    requires from <= mid <= to
    ensures TokensIn(runs, now, from, mid).Plus(TokensIn(runs, now, mid, to)) ==
            TokensIn(runs, now, from, to).Plus(StraddlingTokens(runs, now, from, mid, to))
  {
    forall run | run in runs
      ensures Charge(now, from, mid)(run).Plus(Charge(now, mid, to)(run)) ==
              Charge(now, from, to)(run).Plus(StraddlingCharge(now, from, mid, to)(run))
    {
      ChargeSplits(run, now, from, mid, to);
    }
    SumTokensBalance(Charge(now, from, mid), Charge(now, mid, to), Charge(now, from, to),
                     StraddlingCharge(now, from, mid, to), runs);
  }

  /** Ten instants of work cut in the middle: every token is counted twice. */
  lemma StraddlingTokensTwice(run: Run, tokens: Tokens, now: Time)
    requires run.startedAt == 0 && run.endedAt == Some(10) && run.tokens == tokens != NO_TOKENS
    ensures TokensIn([run], now, 0, 10) == tokens
    ensures TokensIn([run], now, 0, 5) == TokensIn([run], now, 5, 10) == tokens
    ensures TokensIn([run], now, 0, 5).Plus(TokensIn([run], now, 5, 10)) != TokensIn([run], now, 0, 10)
  {
    OneRunCharged(run, now, 0, 10);
    OneRunCharged(run, now, 0, 5);
    OneRunCharged(run, now, 5, 10);
  }

  lemma OneRunCharged(run: Run, now: Time, from: Time, to: Time)
    ensures TokensIn([run], now, from, to) == Charge(now, from, to)(run)
  {
    SumTokensSnoc(Charge(now, from, to), [], run);
    assert [] + [run] == [run];
  }

  /** A momentary run is counted in exactly one half of a window that counts it. */
  lemma MomentaryCountedOnce(run: Run, now: Time, from: Time, mid: Time, to: Time)
    requires from <= mid <= to && Momentary(run, now, from, to)
    ensures Counted(run, now, from, mid) != Counted(run, now, mid, to)
  {
  }

  // ----- The order of the runs does not matter -----

  ghost predicate SameReport(a: seq<Run>, b: seq<Run>, now: Time, from: Time, to: Time) {
    && SessionAgentTime(a, now, from, to) == SessionAgentTime(b, now, from, to)
    && WallClock(a, now, from, to) == WallClock(b, now, from, to)
    && AgentTime(a, now, from, to) == AgentTime(b, now, from, to)
    && VisibleProjects(a, now, from, to) == VisibleProjects(b, now, from, to)
    && VisibleRuns(a, now, from, to) == VisibleRuns(b, now, from, to)
    && TokensIn(a, now, from, to) == TokensIn(b, now, from, to)
    && (forall t :: ActiveAt(a, now, t) == ActiveAt(b, now, t))
    && (forall p :: ProjectSpan(p, a, now, from, to) == ProjectSpan(p, b, now, from, to))
  }

  lemma SameMembers<T>(a: seq<T>, b: seq<T>)
    requires multiset(a) == multiset(b)
    ensures forall x :: x in a <==> x in b
  {
    assert forall x :: x in a <==> x in multiset(a);
  }

  lemma BusyPermutes(a: seq<Run>, b: seq<Run>, now: Time, from: Time, to: Time)
    requires multiset(a) == multiset(b)
    ensures forall t :: ActiveAt(a, now, t) == ActiveAt(b, now, t)
    ensures SessionAgentTime(a, now, from, to) == SessionAgentTime(b, now, from, to)
    ensures WallClock(a, now, from, to) == WallClock(b, now, from, to)
  {
    forall t
      ensures ActiveAt(a, now, t) == ActiveAt(b, now, t)
    {
      SumByPermutation(Occupies(now, t), a, b);
    }
    SumOverAgree(Concurrency(a, now), Concurrency(b, now), from, to);
    SumOverAgree(Busy(a, now), Busy(b, now), from, to);
  }

  lemma {:induction false} FilterPermutes<T>(p: T -> bool, a: seq<T>)
    ensures multiset(Sorting.Filter(p, a)) <= multiset(a)
    ensures forall x :: multiset(Sorting.Filter(p, a))[x] == if p(x) then multiset(a)[x] else 0
  {
    if |a| > 0 {
      FilterPermutes(p, a[..|a| - 1]);
      assert a == a[..|a| - 1] + [a[|a| - 1]];
    }
  }

  lemma FilterSame<T>(p: T -> bool, a: seq<T>, b: seq<T>)
    requires multiset(a) == multiset(b)
    ensures multiset(Sorting.Filter(p, a)) == multiset(Sorting.Filter(p, b))
  {
    FilterPermutes(p, a);
    FilterPermutes(p, b);
  }

  lemma ProjectsPermute(a: seq<Run>, b: seq<Run>, now: Time, from: Time, to: Time)
    requires multiset(a) == multiset(b)
    ensures AgentTime(a, now, from, to) == AgentTime(b, now, from, to)
    ensures VisibleProjects(a, now, from, to) == VisibleProjects(b, now, from, to)
  {
    SameMembers(a, b);
    forall t | from <= t < to
      ensures BusyProjects(a, now)(t) == BusyProjects(b, now)(t)
    {
      assert ProjectsAt(a, now, t) == ProjectsAt(b, now, t);
    }
    SumOverAgree(BusyProjects(a, now), BusyProjects(b, now), from, to);
  }

  lemma TokensPermute(a: seq<Run>, b: seq<Run>, now: Time, from: Time, to: Time)
    requires multiset(a) == multiset(b)
    ensures TokensIn(a, now, from, to) == TokensIn(b, now, from, to)
    ensures VisibleRuns(a, now, from, to) == VisibleRuns(b, now, from, to)
  {
    SumTokensPermutation(Charge(now, from, to), a, b);
    SumByPermutation(IfVisible(now, from, to), a, b);
  }

  /** Runs that start together may arrive in any order: the report is the same. */
  lemma ReportIgnoresOrder(a: seq<Run>, b: seq<Run>, now: Time, from: Time, to: Time)
    requires multiset(a) == multiset(b)
    ensures SameReport(a, b, now, from, to)
  {
    BusyPermutes(a, b, now, from, to);
    ProjectsPermute(a, b, now, from, to);
    TokensPermute(a, b, now, from, to);
    forall p
      ensures ProjectSpan(p, a, now, from, to) == ProjectSpan(p, b, now, from, to)
    {
      FilterSame(InProject(p), a, b);
      BusyPermutes(RunsOf(p, a), RunsOf(p, b), now, from, to);
    }
  }
}
