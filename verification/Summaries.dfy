/** What a report measures, as sums over instants, and the one-pass `Summarize` that computes it. */
module Summaries {
  import opened Domain
  import opened Sums
  import opened TokenSums
  import opened Intervals
  import Sorting
  import Sweep
  import Ranging

  // ----- Reference measures: what holds at an instant, summed over the window -----

  /** The instants a run occupies; an open run lasts until `now`. */
  function Span(run: Run, now: Time): Interval {
    Interval(run.startedAt, if run.endedAt.Some? then run.endedAt.value else now)
  }

  function Occupies(now: Time, t: Time): Run -> int {
    (run: Run) => if Contains(Span(run, now), t) then 1 else 0
  }

  /** Concurrency: how many runs occupy the instant `t`. */
  function ActiveAt(runs: seq<Run>, now: Time, t: Time): int {
    SumBy(Occupies(now, t), runs)
  }

  function Concurrency(runs: seq<Run>, now: Time): Time -> int {
    (t: Time) => ActiveAt(runs, now, t)
  }

  function Busy(runs: seq<Run>, now: Time): Time -> int {
    (t: Time) => if ActiveAt(runs, now, t) > 0 then 1 else 0
  }

  function ProjectsAt(runs: seq<Run>, now: Time, t: Time): set<string> {
    set run | run in runs && Contains(Span(run, now), t) :: run.projectId
  }

  function BusyProjects(runs: seq<Run>, now: Time): Time -> int {
    (t: Time) => |ProjectsAt(runs, now, t)|
  }

  function InProject(project: string): Run -> bool {
    (run: Run) => run.projectId == project
  }

  function RunsOf(project: string, runs: seq<Run>): seq<Run> {
    Sorting.Filter(InProject(project), runs)
  }

  function SessionAgentTime(runs: seq<Run>, now: Time, from: Time, to: Time): int {
    SumOver(Concurrency(runs, now), from, to)
  }

  function WallClock(runs: seq<Run>, now: Time, from: Time, to: Time): int {
    SumOver(Busy(runs, now), from, to)
  }

  function AgentTime(runs: seq<Run>, now: Time, from: Time, to: Time): int {
    SumOver(BusyProjects(runs, now), from, to)
  }

  function ProjectSpan(project: string, runs: seq<Run>, now: Time, from: Time, to: Time): int {
    WallClock(RunsOf(project, runs), now, from, to)
  }

  /** The run occupies some instant of the window. */
  predicate Visible(run: Run, now: Time, from: Time, to: Time) {
    Clip(Span(run, now), from, to).1
  }

  /** A run of no length, whose single instant lies in the window. */
  predicate Momentary(run: Run, now: Time, from: Time, to: Time) {
    var iv := Span(run, now);
    iv.start == iv.end && from <= iv.start < to
  }

  predicate Counted(run: Run, now: Time, from: Time, to: Time) {
    Visible(run, now, from, to) || Momentary(run, now, from, to)
  }

  function Charge(now: Time, from: Time, to: Time): Run -> Tokens {
    (run: Run) => if Counted(run, now, from, to) then run.tokens else NO_TOKENS
  }

  /** The tokens of the runs counted in the window. */
  function TokensIn(runs: seq<Run>, now: Time, from: Time, to: Time): Tokens {
    SumTokens(Charge(now, from, to), runs)
  }

  function IfVisible(now: Time, from: Time, to: Time): Run -> int {
    (run: Run) => if Visible(run, now, from, to) then 1 else 0
  }

  function VisibleRuns(runs: seq<Run>, now: Time, from: Time, to: Time): int {
    SumBy(IfVisible(now, from, to), runs)
  }

  // ----- The clipped intervals the code works on -----

  function Clipped(runs: seq<Run>, now: Time, from: Time, to: Time): seq<Interval> {
    if |runs| == 0 then []
    else
      var (iv, ok) := Clip(Span(runs[|runs| - 1], now), from, to);
      Clipped(runs[..|runs| - 1], now, from, to) + (if ok then [iv] else [])
  }

  lemma ClippedSnoc(runs: seq<Run>, run: Run, now: Time, from: Time, to: Time)
    ensures Clipped(runs + [run], now, from, to) == Clipped(runs, now, from, to) +
              (if Visible(run, now, from, to) then [Clip(Span(run, now), from, to).0] else [])
  {
    assert (runs + [run])[..|runs|] == runs;
  }

  lemma {:induction false} ClippedWithin(runs: seq<Run>, now: Time, from: Time, to: Time)
    ensures Sweep.NonEmptyIn(Clipped(runs, now, from, to), from, to)
  {
    if |runs| > 0 {
      ClippedWithin(runs[..|runs| - 1], now, from, to);
    }
  }

  /** Inside the window, the clipped intervals cover what the runs occupy. */
  lemma {:induction false} ClippedCoverage(runs: seq<Run>, now: Time, from: Time, to: Time, t: Time)
    ensures Cov(Clipped(runs, now, from, to), t) == if from <= t < to then ActiveAt(runs, now, t) else 0
  {
    if |runs| > 0 {
      var runs', run := runs[..|runs| - 1], runs[|runs| - 1];
      ClippedCoverage(runs', now, from, to, t);
      var (iv, ok) := Clip(Span(run, now), from, to);
      if ok {
        SumBySnoc(At(t), Clipped(runs', now, from, to), iv);
      }
      assert Clipped(runs', now, from, to) + [] == Clipped(runs', now, from, to);
    }
  }

  lemma {:induction false} EmptyWindow(runs: seq<Run>, now: Time, from: Time, to: Time)
    requires to < from
    ensures Clipped(runs, now, from, to) == []
  {
    if |runs| > 0 {
      EmptyWindow(runs[..|runs| - 1], now, from, to);
    }
  }

  lemma ClippedArea(runs: seq<Run>, now: Time, from: Time, to: Time)
    requires from <= to
    ensures SumOver(CovOf(Clipped(runs, now, from, to)), from, to) == SessionAgentTime(runs, now, from, to)
    ensures SumOver(Covered(Clipped(runs, now, from, to)), from, to) == WallClock(runs, now, from, to)
  {
    var ivs := Clipped(runs, now, from, to);
    forall t | from <= t < to
      ensures CovOf(ivs)(t) == Concurrency(runs, now)(t) && Covered(ivs)(t) == Busy(runs, now)(t)
    {
      ClippedCoverage(runs, now, from, to, t);
    }
    SumOverAgree(CovOf(ivs), Concurrency(runs, now), from, to);
    SumOverAgree(Covered(ivs), Busy(runs, now), from, to);
  }

  lemma ClippedLengths(runs: seq<Run>, now: Time, from: Time, to: Time)
    ensures SumBy(Length(), Clipped(runs, now, from, to)) == SessionAgentTime(runs, now, from, to)
  {
    var ivs := Clipped(runs, now, from, to);
    if from <= to {
      ClippedWithin(runs, now, from, to);
      LengthsAreCoverage(ivs, from, to);
      ClippedArea(runs, now, from, to);
    } else {
      EmptyWindow(runs, now, from, to);
    }
  }

  method UnionDuration(ivs: seq<Interval>, ghost runs: seq<Run>, ghost now: Time, ghost from: Time, ghost to: Time)
      returns (total: int)
    requires ivs == Clipped(runs, now, from, to)
    ensures total == WallClock(runs, now, from, to)
  {
    ghost var merged;
    total, merged := MergedDuration(ivs);
    UnionOfClipped(merged, runs, now, from, to);
  }

  // ----- Summing project spans gives agent time -----

  function SpansAt(projects: set<string>, runs: seq<Run>, now: Time): Time -> int {
    (t: Time) => |projects * ProjectsAt(runs, now, t)|
  }

  lemma {:induction false} ActiveMeansRun(runs: seq<Run>, now: Time, t: Time)
    ensures 0 <= ActiveAt(runs, now, t)
    ensures ActiveAt(runs, now, t) > 0 <==> exists run :: run in runs && Contains(Span(run, now), t)
  {
    if |runs| > 0 {
      var runs', run := runs[..|runs| - 1], runs[|runs| - 1];
      ActiveMeansRun(runs', now, t);
      assert runs == runs' + [run];
      if Contains(Span(run, now), t) {
        assert run in runs;
      }
    }
  }

  lemma ProjectBusy(project: string, runs: seq<Run>, now: Time, t: Time)
    ensures ActiveAt(RunsOf(project, runs), now, t) > 0 <==> project in ProjectsAt(runs, now, t)
  {
    Sorting.FilterMembers(InProject(project), runs);
    ActiveMeansRun(RunsOf(project, runs), now, t);
  }

  /** Adding a project's span to the total adds the instants at which that project is busy. */
  lemma AddProject(done: set<string>, project: string, runs: seq<Run>, now: Time, from: Time, to: Time)
    requires project !in done
    ensures SumOver(SpansAt(done + {project}, runs, now), from, to) ==
            SumOver(SpansAt(done, runs, now), from, to) + ProjectSpan(project, runs, now, from, to)
  {
    var one := Busy(RunsOf(project, runs), now);
    forall t | from <= t < to
      ensures SpansAt(done + {project}, runs, now)(t) == SpansAt(done, runs, now)(t) + one(t)
    {
      ProjectBusy(project, runs, now, t);
      OneMoreHere(done, project, ProjectsAt(runs, now, t));
    }
    SumOverPlus(SpansAt(done + {project}, runs, now), SpansAt(done, runs, now), one, from, to);
  }

  lemma OneMoreHere(done: set<string>, project: string, here: set<string>)
    requires project !in done
    ensures |(done + {project}) * here| == |done * here| + if project in here then 1 else 0
  {
    if project in here {
      assert (done + {project}) * here == done * here + {project};
    } else {
      assert (done + {project}) * here == done * here;
    }
  }

  /** The projects with a run in the window account for every busy project of every instant. */
  lemma AllProjects(projects: set<string>, runs: seq<Run>, now: Time, from: Time, to: Time)
    requires forall run :: run in runs && Visible(run, now, from, to) ==> run.projectId in projects
    ensures SumOver(SpansAt(projects, runs, now), from, to) == AgentTime(runs, now, from, to)
  {
    forall t | from <= t < to
      ensures SpansAt(projects, runs, now)(t) == BusyProjects(runs, now)(t)
    {
      var here := ProjectsAt(runs, now, t);
      forall p | p in here
        ensures p in projects
      {
        var run :| run in runs && Contains(Span(run, now), t) && run.projectId == p;
        assert Contains(Span(run, now), t) && from <= t < to;
      }
      assert projects * here == here;
    }
    SumOverAgree(SpansAt(projects, runs, now), BusyProjects(runs, now), from, to);
  }

  // ----- Summarize -----

  datatype Summary = Summary(
    agentTime: int, sessionAgentTime: int, wallClock: int, projectSpan: map<string, int>,
    parallelismPeak: int, parallelismAverage: real, runCount: int, tokens: Tokens)

  function VisibleProjects(runs: seq<Run>, now: Time, from: Time, to: Time): set<string> {
    set run | run in runs && Visible(run, now, from, to) :: run.projectId
  }

  /** `peak` is the largest concurrency of any instant of the window, and 0 when no instant is occupied. */
  ghost predicate IsWindowPeak(peak: int, runs: seq<Run>, now: Time, from: Time, to: Time) {
    && 0 <= peak
    && (forall t :: from <= t < to ==> ActiveAt(runs, now, t) <= peak)
    && (peak > 0 ==> exists t :: from <= t < to && ActiveAt(runs, now, t) == peak)
  }

  /** The intervals grouped by project, as the grouping loop leaves them. */
  ghost predicate Grouped(byProject: map<string, seq<Interval>>, runs: seq<Run>, now: Time, from: Time, to: Time) {
    && byProject.Keys == VisibleProjects(runs, now, from, to)
    && forall p :: p in byProject ==> byProject[p] == Clipped(RunsOf(p, runs), now, from, to)
  }

  lemma {:induction false} InvisibleProject(p: string, runs: seq<Run>, now: Time, from: Time, to: Time)
    requires p !in VisibleProjects(runs, now, from, to)
    ensures Clipped(RunsOf(p, runs), now, from, to) == []
  {
    if |runs| > 0 {
      var runs', run := runs[..|runs| - 1], runs[|runs| - 1];
      assert runs == runs' + [run] && run in runs;
      assert p !in VisibleProjects(runs', now, from, to);
      InvisibleProject(p, runs', now, from, to);
      if run.projectId == p {
        ClippedSnoc(RunsOf(p, runs'), run, now, from, to);
      } else {
        assert RunsOf(p, runs) == RunsOf(p, runs');
      }
    }
  }

  lemma ClippedGroup(q: string, runs: seq<Run>, run: Run, now: Time, from: Time, to: Time)
    ensures Clipped(RunsOf(q, runs + [run]), now, from, to) == Clipped(RunsOf(q, runs), now, from, to) +
              (if q == run.projectId && Visible(run, now, from, to) then [Clip(Span(run, now), from, to).0] else [])
  {
    Sorting.FilterSnoc(InProject(q), runs, run);
    ClippedSnoc(RunsOf(q, runs), run, now, from, to);
    assert RunsOf(q, runs) + [] == RunsOf(q, runs);
    assert Clipped(RunsOf(q, runs), now, from, to) + [] == Clipped(RunsOf(q, runs), now, from, to);
  }

  lemma GroupStep(byProject: map<string, seq<Interval>>, runs: seq<Run>, run: Run, now: Time, from: Time, to: Time)
    requires Grouped(byProject, runs, now, from, to)
    ensures
      var iv := Clip(Span(run, now), from, to).0;
      var p := run.projectId;
      var group := if p in byProject then byProject[p] else [];
      Grouped(if Visible(run, now, from, to) then byProject[p := group + [iv]] else byProject,
              runs + [run], now, from, to)
  {
    var iv, p := Clip(Span(run, now), from, to).0, run.projectId;
    var group := if p in byProject then byProject[p] else [];
    var byProject' := if Visible(run, now, from, to) then byProject[p := group + [iv]] else byProject;
    assert byProject'.Keys == VisibleProjects(runs + [run], now, from, to) by {
      VisibleSnoc(runs, run, now, from, to);
    }
    assert group == Clipped(RunsOf(p, runs), now, from, to) by {
      if p !in byProject {
        InvisibleProject(p, runs, now, from, to);
      }
    }
    GroupValues(byProject, byProject', group, runs, run, now, from, to);
  }

  lemma GroupValues(byProject: map<string, seq<Interval>>, byProject': map<string, seq<Interval>>, group: seq<Interval>,
                    runs: seq<Run>, run: Run, now: Time, from: Time, to: Time)
    requires forall q :: q in byProject ==> byProject[q] == Clipped(RunsOf(q, runs), now, from, to)
    requires group == Clipped(RunsOf(run.projectId, runs), now, from, to)
    requires byProject' == if Visible(run, now, from, to)
                           then byProject[run.projectId := group + [Clip(Span(run, now), from, to).0]] else byProject
    ensures forall q :: q in byProject' ==> byProject'[q] == Clipped(RunsOf(q, runs + [run]), now, from, to)
  {
    forall q | q in byProject'
      ensures byProject'[q] == Clipped(RunsOf(q, runs + [run]), now, from, to)
    {
      ClippedGroup(q, runs, run, now, from, to);
      var before := Clipped(RunsOf(q, runs), now, from, to);
      assert before + [] == before;
    }
  }

  lemma VisibleSnoc(runs: seq<Run>, run: Run, now: Time, from: Time, to: Time)
    ensures VisibleProjects(runs + [run], now, from, to) ==
            VisibleProjects(runs, now, from, to) + (if Visible(run, now, from, to) then {run.projectId} else {})
  {
    assert forall r :: r in runs + [run] <==> r in runs || r == run;
  }

  lemma PeakInWindow(peak: int, runs: seq<Run>, now: Time, from: Time, to: Time)
    requires Sweep.IsPeak(peak, Clipped(runs, now, from, to))
    ensures IsWindowPeak(peak, runs, now, from, to)
  {
    var ivs := Clipped(runs, now, from, to);
    forall t
      ensures Cov(ivs, t) == if from <= t < to then ActiveAt(runs, now, t) else 0
      ensures 0 <= Cov(ivs, t)
    {
      ClippedCoverage(runs, now, from, to, t);
      CoversIffPositive(ivs, t);
    }
    var t :| Cov(ivs, t) == peak;
  }

  method SweepPoints(points: seq<Sweep.Point>, ghost runs: seq<Run>, ghost now: Time, ghost from: Time, ghost to: Time)
      returns (peak: int, weighted: int)
    requires points == Sweep.PointsOf(Clipped(runs, now, from, to))
    ensures weighted == SessionAgentTime(runs, now, from, to)
    ensures IsWindowPeak(peak, runs, now, from, to)
  {
    ghost var ivs := Clipped(runs, now, from, to);
    ghost var hi := if from <= to then to else from;
    ClippedWithin(runs, now, from, to);
    if to < from {
      EmptyWindow(runs, now, from, to);
    }
    peak, weighted := Sweep.SweepLine(points, ivs, from, hi);
    PeakInWindow(peak, runs, now, from, to);
    if from <= to {
      ClippedArea(runs, now, from, to);
    }
  }

  method Collect(runs: seq<Run>, from: Time, to: Time, now: Time)
      returns (all: seq<Interval>, byProject: map<string, seq<Interval>>, points: seq<Sweep.Point>,
               runCount: int, sessionAgentTime: int, tokens: Tokens)
    ensures all == Clipped(runs, now, from, to)
    ensures Grouped(byProject, runs, now, from, to)
    ensures points == Sweep.PointsOf(all)
    ensures runCount == VisibleRuns(runs, now, from, to)
    ensures sessionAgentTime == SessionAgentTime(runs, now, from, to)
    ensures tokens == TokensIn(runs, now, from, to)
  {
    all, byProject, points := [], map[], [];
    runCount, sessionAgentTime, tokens := 0, 0, NO_TOKENS;
    for i := 0 to |runs|
      invariant all == Clipped(runs[..i], now, from, to)
      invariant Grouped(byProject, runs[..i], now, from, to)
      invariant points == Sweep.PointsOf(all)
      invariant runCount == VisibleRuns(runs[..i], now, from, to)
      invariant sessionAgentTime == SumBy(Length(), all)
      invariant tokens == TokensIn(runs[..i], now, from, to)
    {
      var run := runs[i];
      assert runs[..i + 1] == runs[..i] + [run] && runs[..i + 1][..i] == runs[..i];
      GroupStep(byProject, runs[..i], run, now, from, to);
      ClippedSnoc(runs[..i], run, now, from, to);
      SumTokensSnoc(Charge(now, from, to), runs[..i], run);
      SumBySnoc(IfVisible(now, from, to), runs[..i], run);
      var end := if run.endedAt.Some? then run.endedAt.value else now;
      var (iv, ok) := Clip(Interval(run.startedAt, end), from, to);
      if !ok {
        if run.startedAt == end && !(run.startedAt < from) && run.startedAt < to {
          tokens := tokens.Plus(run.tokens);
        }
        continue;
      }
      runCount := runCount + 1;
      sessionAgentTime := sessionAgentTime + (iv.end - iv.start);
      tokens := tokens.Plus(run.tokens);
      SumBySnoc(Length(), all, iv);
      assert (all + [iv])[..|all|] == all;
      all := all + [iv];
      byProject := byProject[run.projectId := (if run.projectId in byProject then byProject[run.projectId] else [])
                             + [iv]];
      points := points + [Sweep.Point(iv.start, 1), Sweep.Point(iv.end, -1)];
    }
    assert runs[..|runs|] == runs;
    ClippedLengths(runs, now, from, to);
  }

  function SpanOf(runs: seq<Run>, now: Time, from: Time, to: Time): string -> int {
    (project: string) => ProjectSpan(project, runs, now, from, to)
  }

  function SpanTotal(runs: seq<Run>, now: Time, from: Time, to: Time): set<string> -> int {
    (projects: set<string>) => SumOver(SpansAt(projects, runs, now), from, to)
  }

  /** `total` adds up `span` one project at a time. */
  ghost predicate AddsUp(span: string -> int, total: set<string> -> int) {
    && total({}) == 0
    && forall done, p :: p !in done ==> total(done + {p}) == total(done) + span(p)
  }

  lemma SpansAddUp(runs: seq<Run>, now: Time, from: Time, to: Time)
    ensures AddsUp(SpanOf(runs, now, from, to), SpanTotal(runs, now, from, to))
  {
    SumOverZero(SpansAt({}, runs, now), from, to);
    forall done: set<string>, p | p !in done
      ensures SpanTotal(runs, now, from, to)(done + {p}) ==
              SpanTotal(runs, now, from, to)(done) + SpanOf(runs, now, from, to)(p)
    {
      AddProject(done, p, runs, now, from, to);
    }
  }

  ghost predicate Tabulates(m: map<string, int>, keys: set<string>, f: string -> int) {
    m.Keys == keys && forall k :: k in keys ==> m[k] == f(k)
  }

  lemma TabulateStep(m: map<string, int>, keys: set<string>, f: string -> int, key: string)
    requires Tabulates(m, keys, f)
    ensures Tabulates(m[key := f(key)], keys + {key}, f)
  {
  }

  lemma {:induction false} TotalOfListing(span: string -> int, total: set<string> -> int, order: seq<string>,
                                          keys: set<string>)
    requires AddsUp(span, total) && Ranging.Lists(order, keys)
    ensures SumBy(span, order) == total(keys)
  {
    if |order| == 0 {
      assert keys == {};
    } else {
      var front, last := order[..|order| - 1], order[|order| - 1];
      Ranging.ListsFront(order, keys);
      TotalOfListing(span, total, front, keys - {last});
      assert keys - {last} + {last} == keys;
    }
  }

  method MergedDuration(intervals: seq<Interval>) returns (duration: int, ghost merged: seq<Interval>)
    ensures Canonical(merged) && SameCover(merged, intervals) && duration == SumBy(Length(), merged)
  {
    var union := Merge(intervals);
    duration := Duration(union);
    merged := union;
  }

  method SpanLoop(byProject: map<string, seq<Interval>>, ghost span: string -> int)
      returns (projectSpan: map<string, int>, agentTime: int, ghost order: seq<string>)
    requires forall p, m :: p in byProject && Canonical(m) && SameCover(m, byProject[p]) ==>
               SumBy(Length(), m) == span(p)
    ensures Tabulates(projectSpan, byProject.Keys, span)
    ensures Ranging.Lists(order, byProject.Keys) && agentTime == SumBy(span, order)
  {
    var projects := Ranging.Enumerate(byProject.Keys);
    projectSpan, agentTime, order := map[], 0, projects;
    for i := 0 to |projects|
      invariant Tabulates(projectSpan, Ranging.Elements(projects[..i]), span)
      invariant agentTime == SumBy(span, projects[..i])
    {
      var project := projects[i];
      assert project in Ranging.Elements(projects);
      var duration, merged := MergedDuration(byProject[project]);
      TabulateStep(projectSpan, Ranging.Elements(projects[..i]), span, project);
      SumBySnoc(span, projects[..i], project);
      Ranging.ElementsSnoc(projects, i);
      assert projects[..i + 1] == projects[..i] + [project];
      projectSpan := projectSpan[project := duration];
      agentTime := agentTime + projectSpan[project];
    }
    assert projects[..|projects|] == projects;
  }

  lemma UnionOfClipped(m: seq<Interval>, runs: seq<Run>, now: Time, from: Time, to: Time)
    requires Canonical(m) && SameCover(m, Clipped(runs, now, from, to))
    ensures SumBy(Length(), m) == WallClock(runs, now, from, to)
  {
    if from <= to {
      ClippedWithin(runs, now, from, to);
      UnionLength(m, Clipped(runs, now, from, to), from, to);
      ClippedArea(runs, now, from, to);
    } else {
      EmptyWindow(runs, now, from, to);
      NonEmptyCovers(m);
    }
  }

  method SumProjects(byProject: map<string, seq<Interval>>, ghost runs: seq<Run>, ghost now: Time, ghost from: Time,
                     ghost to: Time)
      returns (projectSpan: map<string, int>, agentTime: int)
    requires Grouped(byProject, runs, now, from, to)
    ensures projectSpan.Keys == VisibleProjects(runs, now, from, to)
    ensures forall p :: p in projectSpan ==> projectSpan[p] == ProjectSpan(p, runs, now, from, to)
    ensures agentTime == AgentTime(runs, now, from, to)
  {
    ghost var span, total := SpanOf(runs, now, from, to), SpanTotal(runs, now, from, to);
    SpansAddUp(runs, now, from, to);
    forall p, m | p in byProject && Canonical(m) && SameCover(m, byProject[p])
      ensures SumBy(Length(), m) == span(p)
    {
      UnionOfClipped(m, RunsOf(p, runs), now, from, to);
    }
    ghost var order;
    projectSpan, agentTime, order := SpanLoop(byProject, span);
    TotalOfListing(span, total, order, byProject.Keys);
    AllProjects(byProject.Keys, runs, now, from, to);
  }

  /** Every field of the summary is the measure it is named after. */
  method Summarize(runs: seq<Run>, from: Time, to: Time, now: Time) returns (result: Summary)
    ensures result.sessionAgentTime == SessionAgentTime(runs, now, from, to)
    ensures result.wallClock == WallClock(runs, now, from, to)
    ensures result.agentTime == AgentTime(runs, now, from, to)
    ensures result.projectSpan.Keys == VisibleProjects(runs, now, from, to)
    ensures forall p :: p in result.projectSpan ==> result.projectSpan[p] == ProjectSpan(p, runs, now, from, to)
    ensures IsWindowPeak(result.parallelismPeak, runs, now, from, to)
    ensures result.parallelismAverage ==
            if result.wallClock > 0 then result.sessionAgentTime as real / result.wallClock as real else 0.0
    ensures result.runCount == VisibleRuns(runs, now, from, to)
    ensures result.tokens == TokensIn(runs, now, from, to)
  {
    var all, byProject, points, runCount, sessionAgentTime, tokens := Collect(runs, from, to, now);
    var wallClock := UnionDuration(all, runs, now, from, to);
    var projectSpan, agentTime := SumProjects(byProject, runs, now, from, to);
    var peak, weighted := SweepPoints(points, runs, now, from, to);
    var average := 0.0;
    if wallClock > 0 {
      average := weighted as real / wallClock as real;
    }
    result := Summary(agentTime, sessionAgentTime, wallClock, projectSpan, peak, average, runCount, tokens);
  }
}
