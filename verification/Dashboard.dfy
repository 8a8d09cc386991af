/** The dashboard's own union of intervals, and why it shows what the report computes. */
module Dashboard {
  import opened Domain
  import opened EventOrder
  import opened Intervals
  import opened Projection
  import Sorting
  import Ranging
  import Summaries

  predicate StartLe(a: Interval, b: Interval) {
    a.start <= b.start
  }

  method SortByStart(intervals: seq<Interval>) returns (sorted: seq<Interval>)
    requires forall k :: 0 <= k < |intervals| ==> intervals[k].start < intervals[k].end
    ensures Sorting.SortedBy(StartLe, sorted) && SameCover(sorted, intervals)
    ensures forall k :: 0 <= k < |sorted| ==> sorted[k].start < sorted[k].end
  {
    assert Sorting.TotalPreorder(StartLe);
    sorted := Sorting.Sort(StartLe, intervals);
    Sorting.SortSorts(StartLe, intervals);
    Sorting.SortPermutes(StartLe, intervals);
    CoversPermutation(sorted, intervals);
    forall k | 0 <= k < |sorted|
      ensures sorted[k].start < sorted[k].end
    {
      assert sorted[k] in multiset(sorted);
    }
  }

  /** Sorts by start alone and extends the last interval to the larger end. */
  method MergeIntervals(intervals: seq<Interval>) returns (merged: seq<Interval>)
    requires forall k :: 0 <= k < |intervals| ==> intervals[k].start < intervals[k].end
    ensures Canonical(merged) && SameCover(merged, intervals)
  {
    var sorted := SortByStart(intervals);
    merged := [];
    for i := 0 to |sorted|
      invariant Canonical(merged) && SameCover(merged, sorted[..i])
      invariant |merged| > 0 && i < |sorted| ==> merged[|merged| - 1].start <= sorted[i].start
    {
      var interval := sorted[i];
      assert sorted[..i + 1] == sorted[..i] + [interval];
      assert i + 1 < |sorted| ==> StartLe(interval, sorted[i + 1]);
      if |merged| > 0 && interval.start <= merged[|merged| - 1].end {
        var previous := merged[|merged| - 1];
        var end := if previous.end >= interval.end then previous.end else interval.end;
        MergeExtend(merged, sorted[..i], interval, merged[|merged| - 1 := previous.(end := end)]);
        merged := merged[|merged| - 1 := previous.(end := end)];
      } else {
        MergeAppend(merged, sorted[..i], interval);
        merged := merged + [interval];
      }
    }
    assert sorted[..|sorted|] == sorted;
  }

  /** A project's line of the chart; `color` indexes the eight project colours. */
  datatype Activity = Activity(
    id: string, name: string, color: nat, intervals: seq<Interval>, total: int, lastActivity: Time)

  const COLORS: nat := 8

  /** An open run is drawn up to its last activity, whatever the clock says. */
  function Drawn(run: Run): Run {
    if run.endedAt.Some? then run else run.(endedAt := Some(run.lastActivityAt))
  }

  function DrawnRuns(runs: seq<Run>): (r: seq<Run>)
    ensures |r| == |runs|
  {
    if |runs| == 0 then [] else DrawnRuns(runs[..|runs| - 1]) + [Drawn(runs[|runs| - 1])]
  }

  method GroupRuns(runs: seq<Run>, rangeStart: Time, rangeEnd: Time) returns (grouped: map<string, seq<Interval>>)
    ensures Summaries.Grouped(grouped, DrawnRuns(runs), 0, rangeStart, rangeEnd)
  {
    grouped := map[];
    for i := 0 to |runs|
      invariant Summaries.Grouped(grouped, DrawnRuns(runs[..i]), 0, rangeStart, rangeEnd)
    {
      var run := runs[i];
      assert runs[..i + 1][..i] == runs[..i];
      Summaries.GroupStep(grouped, DrawnRuns(runs[..i]), Drawn(run), 0, rangeStart, rangeEnd);
      var endedAt := if run.endedAt.Some? then run.endedAt.value else run.lastActivityAt;
      var start := if rangeStart >= run.startedAt then rangeStart else run.startedAt;
      var end := if rangeEnd <= endedAt then rangeEnd else endedAt;
      if end <= start {
        continue;
      }
      var group := if run.projectId in grouped then grouped[run.projectId] else [];
      grouped := grouped[run.projectId := group + [Interval(start, end)]];
    }
    assert runs[..|runs|] == runs;
  }

  ghost predicate IsLastEnd(t: Time, intervals: seq<Interval>) {
    (forall iv :: iv in intervals ==> iv.end <= t) && exists iv :: iv in intervals && iv.end == t
  }

  /** The one canonical list of the project's activity, its length, and when it last ended. */
  ghost predicate Shows(activity: Activity, project: string, runs: seq<Run>, rangeStart: Time, rangeEnd: Time) {
    && activity.id == project
    && Canonical(activity.intervals)
    && SameCover(activity.intervals, Summaries.Clipped(Summaries.RunsOf(project, runs), 0, rangeStart, rangeEnd))
    && activity.total == Summaries.ProjectSpan(project, runs, 0, rangeStart, rangeEnd)
    && IsLastEnd(activity.lastActivity, activity.intervals)
  }

  method LastEnd(intervals: seq<Interval>) returns (t: Time)
    requires |intervals| > 0
    ensures IsLastEnd(t, intervals)
  {
    t := intervals[0].end;
    for i := 1 to |intervals|
      invariant IsLastEnd(t, intervals[..i])
    {
      assert intervals[..i + 1] == intervals[..i] + [intervals[i]];
      if intervals[i].end > t {
        t := intervals[i].end;
      }
    }
    assert intervals[..|intervals|] == intervals;
  }

  lemma {:induction false} VisibleClipped(project: string, runs: seq<Run>, from: Time, to: Time)
    requires project in Summaries.VisibleProjects(runs, 0, from, to)
    ensures Summaries.Clipped(Summaries.RunsOf(project, runs), 0, from, to) != []
  {
    var front, run := runs[..|runs| - 1], runs[|runs| - 1];
    assert runs == front + [run];
    Summaries.ClippedGroup(project, front, run, 0, from, to);
    if !(run.projectId == project && Summaries.Visible(run, 0, from, to)) {
      Summaries.VisibleSnoc(front, run, 0, from, to);
      VisibleClipped(project, front, from, to);
    }
  }

  lemma NonEmptyCover(merged: seq<Interval>, intervals: seq<Interval>)
    requires SameCover(merged, intervals) && |intervals| > 0 && intervals[0].start < intervals[0].end
    ensures merged != []
  {
    assert Contains(intervals[0], intervals[0].start);
    assert Covers(merged, intervals[0].start);
  }

  method DrawProject(id: string, name: string, color: nat, intervals: seq<Interval>,
                     ghost runs: seq<Run>, ghost rangeStart: Time, ghost rangeEnd: Time) returns (activity: Activity)
    requires intervals == Summaries.Clipped(Summaries.RunsOf(id, runs), 0, rangeStart, rangeEnd) != []
    ensures Shows(activity, id, runs, rangeStart, rangeEnd)
    ensures activity.name == name && activity.color == color
  {
    ghost var own := Summaries.RunsOf(id, runs);
    Summaries.ClippedWithin(own, 0, rangeStart, rangeEnd);
    var merged := MergeIntervals(intervals);
    NonEmptyCover(merged, intervals);
    var total := Duration(merged);
    var lastActivity := LastEnd(merged);
    Summaries.UnionOfClipped(merged, own, 0, rangeStart, rangeEnd);
    activity := Activity(id, name, color, merged, total, lastActivity);
  }

  /** Of the pairs for one id the last counts; a missing or empty name falls back to the start of the id. */
  function NameFor(projects: seq<(string, string)>, id: string): string
    decreases |projects|
  {
    if |projects| == 0 then (if |id| < 8 then id else id[..8])
    else
      var last := projects[|projects| - 1];
      if last.0 == id then (if last.1 != "" then last.1 else NameFor([], id))
          else NameFor(projects[..|projects| - 1], id)
  }

  predicate LaterFirst(a: Activity, b: Activity) {
    a.lastActivity >= b.lastActivity
  }

  lemma StringOrder()
    ensures Sorting.TotalPreorder(StringLe)
  {
    forall a, b
      ensures Sorting.Comparable(StringLe, a, b)
    {
      StringLeTotal(a, b);
    }
    forall a, b, c
      ensures Sorting.Chained(StringLe, a, b, c)
    {
      if StringLe(a, b) && StringLe(b, c) {
        StringLeTransitive(a, b, c);
      }
    }
  }

  /** The ids in the order of their text, which gives them their colours. */
  method SortIds(ids: set<string>) returns (order: seq<string>)
    ensures Ranging.Lists(order, ids) && Sorting.SortedBy(StringLe, order)
  {
    var listed := Ranging.Enumerate(ids);
    StringOrder();
    Sorting.SortSorts(StringLe, listed);
    Sorting.SortPermutes(StringLe, listed);
    order := Sorting.Sort(StringLe, listed);
    Ranging.DistinctPermutes(listed, order);
    assert forall x :: x in order <==> x in multiset(order);
    assert forall x :: x in listed <==> x in multiset(listed);
  }

  ghost predicate DrawnAt(a: Activity, order: seq<string>, k: nat, projects: seq<(string, string)>, runs: seq<Run>,
                          rangeStart: Time, rangeEnd: Time) {
    && k < |order| && a.id == order[k] && a.name == NameFor(projects, a.id) && a.color == k % 8
    && Shows(a, a.id, runs, rangeStart, rangeEnd)
  }

  method DrawProjects(grouped: map<string, seq<Interval>>, order: seq<string>, projects: seq<(string, string)>,
                      ghost runs: seq<Run>, ghost rangeStart: Time, ghost rangeEnd: Time) returns (drawn: seq<Activity>)
    requires Ranging.Lists(order, grouped.Keys) && Summaries.Grouped(grouped, runs, 0, rangeStart, rangeEnd)
    ensures |drawn| == |order|
    ensures forall k :: 0 <= k < |order| ==> DrawnAt(drawn[k], order, k, projects, runs, rangeStart, rangeEnd)
  {
    drawn := [];
    for i := 0 to |order|
      invariant |drawn| == i
      invariant forall k :: 0 <= k < i ==> DrawnAt(drawn[k], order, k, projects, runs, rangeStart, rangeEnd)
    {
      var id := order[i];
      assert id in Ranging.Elements(order);
      VisibleClipped(id, runs, rangeStart, rangeEnd);
      var activity := DrawProject(id, NameFor(projects, id), i % COLORS, grouped[id], runs, rangeStart, rangeEnd);
      drawn := drawn + [activity];
    }
  }

  /** Each visible project once, the latest activity first: its name, its colour by the place of its id among the
      sorted ids, and its activity. */
  ghost predicate ShowsAll(result: seq<Activity>, order: seq<string>, projects: seq<(string, string)>, runs: seq<Run>,
                           rangeStart: Time, rangeEnd: Time) {
    && Ranging.Lists(order, Summaries.VisibleProjects(runs, 0, rangeStart, rangeEnd))
    && Sorting.SortedBy(StringLe, order)
    && (forall i, j :: 0 <= i < j < |result| ==> result[i].lastActivity >= result[j].lastActivity)
    && |result| == |order| && (forall i, j :: 0 <= i < j < |result| ==> result[i].id != result[j].id)
    && forall a :: a in result ==> exists k :: DrawnAt(a, order, k, projects, runs, rangeStart, rangeEnd)
  }

  lemma DrawnOnce(drawn: seq<Activity>, result: seq<Activity>, order: seq<string>)
    requires multiset(drawn) == multiset(result) && |drawn| == |order| && Ranging.Distinct(order)
    requires forall k :: 0 <= k < |order| ==> drawn[k].id == order[k]
    ensures |result| == |order| && forall i, j :: 0 <= i < j < |result| ==> result[i].id != result[j].id
    ensures forall a :: a in result <==> a in drawn
  {
    assert |multiset(drawn)| == |multiset(result)|;
    assert forall a :: a in result <==> a in multiset(result);
    assert forall a :: a in drawn <==> a in multiset(drawn);
    forall i, j | 0 <= i < j < |drawn|
      ensures drawn[i] != drawn[j]
    {
      assert order[i] != order[j];
    }
    Ranging.DistinctPermutes(drawn, result);
    forall i, j | 0 <= i < j < |result|
      ensures result[i].id != result[j].id
    {
      assert result[i] in result && result[j] in result;
      var k :| 0 <= k < |drawn| && drawn[k] == result[i];
      var l :| 0 <= l < |drawn| && drawn[l] == result[j];
      assert order[k] != order[l];
    }
  }

  method GroupByProject(runs: seq<Run>, projects: seq<(string, string)>, rangeStart: Time, rangeEnd: Time)
      returns (result: seq<Activity>)
    ensures exists order :: ShowsAll(result, order, projects, DrawnRuns(runs), rangeStart, rangeEnd)
  {
    var grouped := GroupRuns(runs, rangeStart, rangeEnd);
    var sorted := SortIds(grouped.Keys);
    var drawn := DrawProjects(grouped, sorted, projects, DrawnRuns(runs), rangeStart, rangeEnd);
    assert Sorting.TotalPreorder(LaterFirst);
    Sorting.SortSorts(LaterFirst, drawn);
    Sorting.SortPermutes(LaterFirst, drawn);
    result := Sorting.Sort(LaterFirst, drawn);
    assert forall i, j :: 0 <= i < j < |result| ==> LaterFirst(result[i], result[j]);
    DrawnOnce(drawn, result, sorted);
    forall a | a in result
      ensures exists k :: DrawnAt(a, sorted, k, projects, DrawnRuns(runs), rangeStart, rangeEnd)
    {
      var k :| 0 <= k < |drawn| && drawn[k] == a;
      assert DrawnAt(a, sorted, k, projects, DrawnRuns(runs), rangeStart, rangeEnd);
    }
    assert ShowsAll(result, sorted, projects, DrawnRuns(runs), rangeStart, rangeEnd);
  }

  lemma {:induction false} ClosedRunsDrawnAsIs(runs: seq<Run>)
    requires forall run :: run in runs ==> run.endedAt.Some?
    ensures DrawnRuns(runs) == runs
  {
    if |runs| > 0 {
      assert runs[|runs| - 1] in runs;
      ClosedRunsDrawnAsIs(runs[..|runs| - 1]);
      assert runs == runs[..|runs| - 1] + [runs[|runs| - 1]];
    }
  }

  lemma {:induction false} ClosedRunsIgnoreNow(runs: seq<Run>, now: Time, now': Time, from: Time, to: Time)
    requires forall run :: run in runs ==> run.endedAt.Some?
    ensures Summaries.Clipped(runs, now, from, to) == Summaries.Clipped(runs, now', from, to)
  {
    if |runs| > 0 {
      assert runs[|runs| - 1] in runs;
      ClosedRunsIgnoreNow(runs[..|runs| - 1], now, now', from, to);
    }
  }

  /** For closed runs the dashboard draws exactly the intervals the report merges, with the report's total. */
  lemma TwoUnionsAgree(activity: Activity, merged: seq<Interval>, project: string, runs: seq<Run>, now: Time,
                       from: Time, to: Time)
    requires forall run :: run in runs ==> run.endedAt.Some?
    requires Shows(activity, project, DrawnRuns(runs), from, to)
    requires Canonical(merged)
    requires SameCover(merged, Summaries.Clipped(Summaries.RunsOf(project, runs), now, from, to))
    ensures activity.intervals == merged
    ensures activity.total == Summaries.ProjectSpan(project, runs, now, from, to)
  {
    ClosedRunsDrawnAsIs(runs);
    Sorting.FilterMembers(Summaries.InProject(project), runs);
    ClosedRunsIgnoreNow(Summaries.RunsOf(project, runs), 0, now, from, to);
    CanonicalUnique(activity.intervals, merged);
    Summaries.UnionOfClipped(merged, Summaries.RunsOf(project, runs), now, from, to);
    Summaries.UnionOfClipped(merged, Summaries.RunsOf(project, runs), 0, from, to);
  }

  // ----- What is drawn, in terms of the runs -----

  /** The run is under way at the instant; an open run until its last activity. */
  predicate UnderWay(run: Run, t: Time) {
    run.startedAt <= t && (if run.endedAt.Some? then t < run.endedAt.value else t < run.lastActivityAt)
  }

  lemma {:induction false} DrawnUnderWay(runs: seq<Run>, project: string, t: Time)
    ensures (exists drawn :: drawn in Summaries.RunsOf(project, DrawnRuns(runs))
                             && Contains(Summaries.Span(drawn, 0), t)) <==>
            (exists run :: run in runs && run.projectId == project && UnderWay(run, t))
  {
    Sorting.FilterMembers(Summaries.InProject(project), DrawnRuns(runs));
    DrawnMembers(runs);
    if run :| run in runs && run.projectId == project && UnderWay(run, t) {
      assert Drawn(run) in DrawnRuns(runs);
    }
    if drawn :| drawn in Summaries.RunsOf(project, DrawnRuns(runs)) && Contains(Summaries.Span(drawn, 0), t) {
      var run :| run in runs && drawn == Drawn(run);
      assert UnderWay(run, t);
    }
  }

  lemma {:induction false} DrawnMembers(runs: seq<Run>)
    ensures forall drawn :: drawn in DrawnRuns(runs) <==> exists run :: run in runs && drawn == Drawn(run)
  {
    if |runs| > 0 {
      var front, last := runs[..|runs| - 1], runs[|runs| - 1];
      assert runs == front + [last];
      DrawnMembers(front);
    }
  }

  /** A project's line covers exactly the instants of the range at which one of its runs is under way, an open run
      counting until its last activity. */
  lemma LineShowsRuns(activity: Activity, project: string, runs: seq<Run>, rangeStart: Time, rangeEnd: Time, t: Time)
    requires Shows(activity, project, DrawnRuns(runs), rangeStart, rangeEnd)
    ensures Covers(activity.intervals, t) <==>
              rangeStart <= t < rangeEnd && exists run :: run in runs && run.projectId == project && UnderWay(run, t)
  {
    var own := Summaries.RunsOf(project, DrawnRuns(runs));
    Summaries.ClippedCoverage(own, 0, rangeStart, rangeEnd, t);
    CoversIffPositive(Summaries.Clipped(own, 0, rangeStart, rangeEnd), t);
    Summaries.ActiveMeansRun(own, 0, t);
    DrawnUnderWay(runs, project, t);
  }

  predicate IsLastFor(projects: seq<(string, string)>, id: string, k: int) {
    0 <= k < |projects| && projects[k].0 == id && forall l :: k < l < |projects| ==> projects[l].0 != id
  }

  /** The name given last for the id, unless it is empty or there is none: then the first eight characters of the id. */
  lemma {:induction false} NameGivenLast(projects: seq<(string, string)>, id: string)
    ensures (forall k :: 0 <= k < |projects| ==> projects[k].0 != id) ==>
              NameFor(projects, id) == if |id| < 8 then id else id[..8]
    ensures forall k :: IsLastFor(projects, id, k) ==>
              NameFor(projects, id) ==
              if projects[k].1 != "" then projects[k].1 else if |id| < 8 then id else id[..8]
  {
    if |projects| > 0 {
      var front := projects[..|projects| - 1];
      NameGivenLast(front, id);
      forall k | IsLastFor(projects, id, k)
        ensures k == |front| || IsLastFor(front, id, k)
      {
        assert forall l :: 0 <= l < |front| ==> front[l] == projects[l];
      }
    }
  }
}
