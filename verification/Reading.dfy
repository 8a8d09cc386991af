/** Reading the run table: the rows a query returns show what all rows of the table would show. */
module Reading {
  import opened Domain
  import opened Intervals
  import opened Measures
  import opened Summaries
  import opened Sums
  import opened TokenSums
  import Projector
  import Server
  import Sorting

  // ----- Leaving out runs that the window does not show -----

  function Kept(keep: Run -> bool, runs: seq<Run>): seq<Run> {
    Sorting.Filter(keep, runs)
  }

  /** Only runs that occupy no instant of the window are left out. */
  ghost predicate KeepsVisible(keep: Run -> bool, runs: seq<Run>, now: Time, from: Time, to: Time) {
    forall run :: run in runs && Visible(run, now, from, to) ==> keep(run)
  }

  /** Two lists of runs show the same of the window, tokens apart. */
  ghost predicate ShowsSame(a: seq<Run>, b: seq<Run>, now: Time, from: Time, to: Time) {
    && SessionAgentTime(a, now, from, to) == SessionAgentTime(b, now, from, to)
    && WallClock(a, now, from, to) == WallClock(b, now, from, to)
    && AgentTime(a, now, from, to) == AgentTime(b, now, from, to)
    && VisibleProjects(a, now, from, to) == VisibleProjects(b, now, from, to)
    && VisibleRuns(a, now, from, to) == VisibleRuns(b, now, from, to)
    && (forall p :: ProjectSpan(p, a, now, from, to) == ProjectSpan(p, b, now, from, to))
    && (forall peak :: IsWindowPeak(peak, a, now, from, to) <==> IsWindowPeak(peak, b, now, from, to))
  }

  lemma {:induction false} KeptActive(keep: Run -> bool, runs: seq<Run>, now: Time, from: Time, to: Time, t: Time)
    requires KeepsVisible(keep, runs, now, from, to) && from <= t < to
    ensures ActiveAt(Kept(keep, runs), now, t) == ActiveAt(runs, now, t)
  {
    if |runs| > 0 {
      var front, run := runs[..|runs| - 1], runs[|runs| - 1];
      assert runs == front + [run] && run in runs;
      KeptActive(keep, front, now, from, to, t);
      if keep(run) {
        SumBySnoc(Occupies(now, t), Kept(keep, front), run);
      } else {
        assert Kept(keep, front) + [] == Kept(keep, front);
        NotThere(run, now, from, to, t);
      }
    }
  }

  lemma NotThere(run: Run, now: Time, from: Time, to: Time, t: Time)
    requires !Visible(run, now, from, to) && from <= t < to
    ensures !Contains(Span(run, now), t)
  {
    var clipped := Clip(Span(run, now), from, to);
  }

  lemma KeptProjectsAt(keep: Run -> bool, runs: seq<Run>, now: Time, from: Time, to: Time, t: Time)
    requires KeepsVisible(keep, runs, now, from, to) && from <= t < to
    ensures ProjectsAt(Kept(keep, runs), now, t) == ProjectsAt(runs, now, t)
  {
    Sorting.FilterMembers(keep, runs);
    forall run | run in runs && Contains(Span(run, now), t)
      ensures run in Kept(keep, runs)
    {
      if !Visible(run, now, from, to) {
        NotThere(run, now, from, to, t);
      }
    }
  }

  lemma {:induction false} KeptVisible(keep: Run -> bool, runs: seq<Run>, now: Time, from: Time, to: Time)
    requires KeepsVisible(keep, runs, now, from, to)
    ensures VisibleRuns(Kept(keep, runs), now, from, to) == VisibleRuns(runs, now, from, to)
    ensures VisibleProjects(Kept(keep, runs), now, from, to) == VisibleProjects(runs, now, from, to)
  {
    Sorting.FilterMembers(keep, runs);
    if |runs| > 0 {
      var front, run := runs[..|runs| - 1], runs[|runs| - 1];
      assert runs == front + [run] && run in runs;
      KeptVisible(keep, front, now, from, to);
      if keep(run) {
        SumBySnoc(IfVisible(now, from, to), Kept(keep, front), run);
      } else {
        assert Kept(keep, front) + [] == Kept(keep, front);
      }
    }
  }

  lemma KeptTimes(keep: Run -> bool, runs: seq<Run>, now: Time, from: Time, to: Time)
    requires KeepsVisible(keep, runs, now, from, to)
    ensures
      var kept := Kept(keep, runs);
      && SessionAgentTime(kept, now, from, to) == SessionAgentTime(runs, now, from, to)
      && WallClock(kept, now, from, to) == WallClock(runs, now, from, to)
      && AgentTime(kept, now, from, to) == AgentTime(runs, now, from, to)
      && forall t :: from <= t < to ==> ActiveAt(kept, now, t) == ActiveAt(runs, now, t)
  {
    var kept := Kept(keep, runs);
    forall t | from <= t < to
      ensures ActiveAt(kept, now, t) == ActiveAt(runs, now, t)
      ensures BusyProjects(kept, now)(t) == BusyProjects(runs, now)(t)
    {
      KeptActive(keep, runs, now, from, to, t);
      KeptProjectsAt(keep, runs, now, from, to, t);
    }
    SumOverAgree(Concurrency(kept, now), Concurrency(runs, now), from, to);
    SumOverAgree(Busy(kept, now), Busy(runs, now), from, to);
    SumOverAgree(BusyProjects(kept, now), BusyProjects(runs, now), from, to);
  }

  /** Selecting a project and leaving out runs commute. */
  lemma {:induction false} FiltersCommute(p: Run -> bool, q: Run -> bool, runs: seq<Run>)
    ensures Sorting.Filter(p, Sorting.Filter(q, runs)) == Sorting.Filter(q, Sorting.Filter(p, runs))
  {
    if |runs| > 0 {
      var front, run := runs[..|runs| - 1], runs[|runs| - 1];
      FiltersCommute(p, q, front);
      Sorting.FilterSnoc(p, Sorting.Filter(q, front), run);
      Sorting.FilterSnoc(q, Sorting.Filter(p, front), run);
      assert Sorting.Filter(q, front) + [] == Sorting.Filter(q, front);
      assert Sorting.Filter(p, front) + [] == Sorting.Filter(p, front);
    }
  }

  lemma KeptSpans(keep: Run -> bool, runs: seq<Run>, now: Time, from: Time, to: Time, p: string)
    requires KeepsVisible(keep, runs, now, from, to)
    ensures ProjectSpan(p, Kept(keep, runs), now, from, to) == ProjectSpan(p, runs, now, from, to)
  {
    FiltersCommute(InProject(p), keep, runs);
    Sorting.FilterMembers(InProject(p), runs);
    KeptTimes(keep, RunsOf(p, runs), now, from, to);
  }

  /** Leaving out runs that occupy no instant of the window changes no time, span, peak or run count. */
  lemma KeptShowsSame(keep: Run -> bool, runs: seq<Run>, now: Time, from: Time, to: Time)
    requires KeepsVisible(keep, runs, now, from, to)
    ensures ShowsSame(Kept(keep, runs), runs, now, from, to)
  {
    KeptTimes(keep, runs, now, from, to);
    KeptVisible(keep, runs, now, from, to);
    forall p
      ensures ProjectSpan(p, Kept(keep, runs), now, from, to) == ProjectSpan(p, runs, now, from, to)
    {
      KeptSpans(keep, runs, now, from, to, p);
    }
  }

  function ChargeUnless(keep: Run -> bool, now: Time, from: Time, to: Time): Run -> Tokens {
    (run: Run) => if keep(run) then NO_TOKENS else Charge(now, from, to)(run)
  }

  lemma {:induction false} KeptTokens(keep: Run -> bool, runs: seq<Run>, now: Time, from: Time, to: Time)
    ensures TokensIn(runs, now, from, to) ==
            TokensIn(Kept(keep, runs), now, from, to).Plus(SumTokens(ChargeUnless(keep, now, from, to), runs))
  {
    if |runs| > 0 {
      var front, run := runs[..|runs| - 1], runs[|runs| - 1];
      assert runs == front + [run];
      KeptTokens(keep, front, now, from, to);
      KeptCharge(keep, front, run, Charge(now, from, to));
      OneMoreCharge(TokensIn(Kept(keep, front), now, from, to), SumTokens(ChargeUnless(keep, now, from, to), front),
                    Charge(now, from, to)(run));
    }
  }

  lemma KeptCharge(keep: Run -> bool, front: seq<Run>, run: Run, charge: Run -> Tokens)
    ensures SumTokens(charge, Kept(keep, front + [run])) ==
            if keep(run) then SumTokens(charge, Kept(keep, front)).Plus(charge(run))
            else SumTokens(charge, Kept(keep, front))
  {
    Sorting.FilterSnoc(keep, front, run);
    OptionalCharge(charge, Kept(keep, front), run, keep(run));
  }

  lemma OptionalCharge(charge: Run -> Tokens, kept: seq<Run>, run: Run, more: bool)
    ensures SumTokens(charge, kept + (if more then [run] else [])) ==
            if more then SumTokens(charge, kept).Plus(charge(run)) else SumTokens(charge, kept)
  {
    if more {
      SumTokensSnoc(charge, kept, run);
    } else {
      assert kept + [] == kept;
    }
  }

  lemma OneMoreCharge(a: Tokens, b: Tokens, c: Tokens)
    ensures a.Plus(b).Plus(c) == a.Plus(c).Plus(b.Plus(NO_TOKENS)) == a.Plus(b.Plus(c))
  {
  }

  // ----- What a read selects -----

  /** A row of the wanted project, or any row when no project is wanted. */
  predicate Wanted(run: Run, projectId: string) {
    projectId == "" || run.projectId == projectId
  }

  function WantedRuns(runs: map<string, Run>, projectId: string): map<string, Run> {
    map id | id in runs && Wanted(runs[id], projectId) :: runs[id]
  }

  /** The row has begun before the window ends, and goes on after the window starts. */
  predicate Meets(run: Run, now: Time, from: Time, to: Time) {
    run.startedAt < to && from < Span(run, now).end
  }

  /** A read returns exactly the wanted rows that meet the window, and of these only the open ones when it is asked
      for active runs. */
  lemma ReadExactly(runs: map<string, Run>, from: Time, to: Time, now: Time, activeOnly: bool, projectId: string,
                    result: seq<Run>, run: Run)
    requires Projector.ListsRuns(result, Server.SelectedRuns(runs, from, to, now, activeOnly, projectId))
    ensures run in result <==>
              run in runs.Values && Wanted(run, projectId) && Meets(run, now, from, to)
              && (activeOnly ==> run.endedAt.None?)
  {
    var selected := Server.SelectedRuns(runs, from, to, now, activeOnly, projectId);
    Projector.OnceInSet(result, selected.Values);
    if run in runs.Values {
      var id :| id in runs && runs[id] == run;
      assert id in selected <==> Server.Selected(run, from, to, now, activeOnly, projectId);
    }
  }

  function Meeting(now: Time, from: Time, to: Time): Run -> bool {
    (run: Run) => Meets(run, now, from, to)
  }

  lemma ReadIsFilter(runs: map<string, Run>, from: Time, to: Time, now: Time, projectId: string, result: seq<Run>,
                     all: seq<Run>)
    requires Projector.ListsRuns(result, Server.SelectedRuns(runs, from, to, now, false, projectId))
    requires Projector.ListsRuns(all, WantedRuns(runs, projectId))
    ensures multiset(result) == multiset(Kept(Meeting(now, from, to), all))
  {
    FilterPermutes(Meeting(now, from, to), all);
    var selected, wanted := Server.SelectedRuns(runs, from, to, now, false, projectId), WantedRuns(runs, projectId);
    forall run
      ensures run in selected.Values <==> run in wanted.Values && Meets(run, now, from, to)
    {
      SelectedValue(runs, from, to, now, projectId, run);
    }
    forall run
      ensures multiset(result)[run] == multiset(Kept(Meeting(now, from, to), all))[run]
    {
    }
  }

  lemma SelectedValue(runs: map<string, Run>, from: Time, to: Time, now: Time, projectId: string, run: Run)
    ensures run in Server.SelectedRuns(runs, from, to, now, false, projectId).Values <==>
            run in WantedRuns(runs, projectId).Values && Meets(run, now, from, to)
  {
    var selected, wanted := Server.SelectedRuns(runs, from, to, now, false, projectId), WantedRuns(runs, projectId);
    if run in selected.Values {
      var id :| id in selected && selected[id] == run;
      assert id in wanted && wanted[id] == run;
    }
    if run in wanted.Values && Meets(run, now, from, to) {
      var id :| id in wanted && wanted[id] == run;
      assert id in selected && selected[id] == run;
    }
  }

  /** The tokens of the momentary runs right at the start of the window. */
  function TokensAtStart(from: Time, to: Time, now: Time): Run -> Tokens {
    (run: Run) => if run.startedAt == Span(run, now).end == from < to then run.tokens else NO_TOKENS
  }

  lemma SameReportShowsSame(a: seq<Run>, b: seq<Run>, c: seq<Run>, now: Time, from: Time, to: Time)
    requires SameReport(a, b, now, from, to) && ShowsSame(b, c, now, from, to)
    ensures ShowsSame(a, c, now, from, to)
  {
    forall peak
      ensures IsWindowPeak(peak, a, now, from, to) <==> IsWindowPeak(peak, b, now, from, to)
    {
    }
  }

  lemma MissedTokens(all: seq<Run>, from: Time, to: Time, now: Time)
    ensures TokensIn(all, now, from, to) ==
            TokensIn(Kept(Meeting(now, from, to), all), now, from, to)
              .Plus(SumTokens(TokensAtStart(from, to, now), all))
  {
    var keep := Meeting(now, from, to);
    KeptTokens(keep, all, now, from, to);
    forall run | run in all
      ensures ChargeUnless(keep, now, from, to)(run) == TokensAtStart(from, to, now)(run)
    {
    }
    SumTokensAgree(ChargeUnless(keep, now, from, to), TokensAtStart(from, to, now), all);
  }

  /** What a read returns shows the same times, spans, peak and run count as all rows of the project together; of the
      tokens it misses exactly those of momentary runs right at the start of the window. */
  lemma ReadLosesNothing(runs: map<string, Run>, from: Time, to: Time, now: Time, projectId: string, result: seq<Run>,
                         all: seq<Run>)
    requires Projector.ListsRuns(result, Server.SelectedRuns(runs, from, to, now, false, projectId))
    requires Projector.ListsRuns(all, WantedRuns(runs, projectId))
    ensures ShowsSame(result, all, now, from, to)
    ensures TokensIn(all, now, from, to) ==
            TokensIn(result, now, from, to).Plus(SumTokens(TokensAtStart(from, to, now), all))
  {
    var kept := Kept(Meeting(now, from, to), all);
    ReadIsFilter(runs, from, to, now, projectId, result, all);
    ReportIgnoresOrder(result, kept, now, from, to);
    KeptShowsSame(Meeting(now, from, to), all, now, from, to);
    SameReportShowsSame(result, kept, all, now, from, to);
    MissedTokens(all, from, to, now);
  }
}
