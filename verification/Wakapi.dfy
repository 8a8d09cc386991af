/** Importing Wakapi: heartbeats to coalesced intervals, cut at the hook's start, to events and a report. */
module Wakapi {
  import opened Domain
  import opened Sums
  import opened WorkUnits
  import Projection
  import Projector
  import Sorting
  import Summaries
  import Measures

  const DEFAULT_TIMEOUT: int := 10 * MINUTE

  datatype Beat = Beat(time: Time, project: string)
  datatype Interval = Interval(project: string, startedAt: Time, endedAt: Time)

  predicate TimeLe(a: Beat, b: Beat) {
    a.time <= b.time
  }

  function Label(project: string): string {
    if project == "" then "unknown" else project
  }

  /** The gap between two consecutive heartbeats counts when it is positive and shorter than the timeout. */
  predicate Counts(a: Beat, b: Beat, timeout: int) {
    0 < b.time - a.time < timeout
  }

  // ----- What the export loop does -----

  /** Extends the last interval when it is of the same project and ends where the new one starts. */
  function Coalesce(intervals: seq<Interval>, project: string, start: Time, end: Time): seq<Interval> {
    var last := |intervals| - 1;
    if last >= 0 && intervals[last].project == project && intervals[last].endedAt == start then
      intervals[last := intervals[last].(endedAt := end)]
    else intervals + [Interval(project, start, end)]
  }

  function AddDay(intervals: seq<Interval>, beats: seq<Beat>, timeout: int): seq<Interval> {
    if |beats| < 2 then intervals
    else
      var before := AddDay(intervals, beats[..|beats| - 1], timeout);
      var a, b := beats[|beats| - 2], beats[|beats| - 1];
      if Counts(a, b, timeout) then Coalesce(before, Label(a.project), a.time, b.time) else before
  }

  function AddDays(days: seq<seq<Beat>>, timeout: int): seq<Interval> {
    if |days| == 0 then []
    else AddDay(AddDays(days[..|days| - 1], timeout), Sorting.Sort(TimeLe, days[|days| - 1]), timeout)
  }

  /** One project, or with `None` all of them. */
  predicate Selects(which: Option<string>, project: string) {
    which.None? || which.value == project
  }

  /** The length of a selected interval, zero for others. */
  function SpanFor(which: Option<string>): Interval -> int {
    (item: Interval) => if Selects(which, item.project) then item.endedAt - item.startedAt else 0
  }

  /** The raw gaps of a sorted day that count for the selected projects. */
  function DayGaps(which: Option<string>, beats: seq<Beat>, timeout: int): int {
    if |beats| < 2 then 0
    else
      var a, b := beats[|beats| - 2], beats[|beats| - 1];
      DayGaps(which, beats[..|beats| - 1], timeout)
        + (if 0 < b.time - a.time < timeout && Selects(which, if a.project == "" then "unknown" else a.project)
           then b.time - a.time else 0)
  }

  function RawGaps(which: Option<string>, days: seq<seq<Beat>>, timeout: int): int {
    if |days| == 0 then 0
    else
      RawGaps(which, days[..|days| - 1], timeout)
        + DayGaps(which, Sorting.Sort(TimeLe, days[|days| - 1]), timeout)
  }

  lemma CoalesceSpan(which: Option<string>, intervals: seq<Interval>, project: string, start: Time, end: Time)
    ensures SumBy(SpanFor(which), Coalesce(intervals, project, start, end)) ==
            SumBy(SpanFor(which), intervals) + SpanFor(which)(Interval(project, start, end))
  {
    var last := |intervals| - 1;
    if last >= 0 && intervals[last].project == project && intervals[last].endedAt == start {
      var grown := intervals[last].(endedAt := end);
      assert Coalesce(intervals, project, start, end) == intervals[..last] + [grown];
      SumBySnoc(SpanFor(which), intervals[..last], grown);
    } else {
      SumBySnoc(SpanFor(which), intervals, Interval(project, start, end));
    }
  }

  lemma {:induction false} DayTotals(intervals: seq<Interval>, beats: seq<Beat>, timeout: int, which: Option<string>)
    ensures SumBy(SpanFor(which), AddDay(intervals, beats, timeout)) ==
            SumBy(SpanFor(which), intervals) + DayGaps(which, beats, timeout)
  {
    if |beats| >= 2 {
      DayTotals(intervals, beats[..|beats| - 1], timeout, which);
      var before := AddDay(intervals, beats[..|beats| - 1], timeout);
      var a, b := beats[|beats| - 2], beats[|beats| - 1];
      CoalesceSpan(which, before, Label(a.project), a.time, b.time);
    }
  }

  /** Each project's intervals, and all of them together, add up to the accepted raw gaps. */
  lemma {:induction false} TotalsAreRawGaps(days: seq<seq<Beat>>, timeout: int, which: Option<string>)
    ensures SumBy(SpanFor(which), AddDays(days, timeout)) == RawGaps(which, days, timeout)
  {
    if |days| > 0 {
      TotalsAreRawGaps(days[..|days| - 1], timeout, which);
      DayTotals(AddDays(days[..|days| - 1], timeout), Sorting.Sort(TimeLe, days[|days| - 1]), timeout, which);
    }
  }

  // ----- Shape -----

  /** Ends by the time the other starts, and before it when they are of one project. */
  predicate Precedes(a: Interval, b: Interval) {
    a.endedAt <= b.startedAt && (a.project == b.project ==> a.endedAt < b.startedAt)
  }

  /** Sorted, non-empty, without overlap, and never two of one project touching. */
  ghost predicate Coalesced(intervals: seq<Interval>) {
    && (forall i :: 0 <= i < |intervals| ==> intervals[i].startedAt < intervals[i].endedAt)
    && (forall i, j :: 0 <= i < j < |intervals| ==> Precedes(intervals[i], intervals[j]))
  }

  lemma CoalescedSnoc(intervals: seq<Interval>, item: Interval)
    ensures Coalesced(intervals + [item]) <==>
              Coalesced(intervals) && item.startedAt < item.endedAt && forall x :: x in intervals ==> Precedes(x, item)
  {
    var all := intervals + [item];
    if Coalesced(all) {
      forall i | 0 <= i < |intervals|
        ensures intervals[i].startedAt < intervals[i].endedAt && Precedes(intervals[i], item)
        ensures forall k :: 0 <= k < i ==> Precedes(intervals[k], intervals[i])
      {
        assert all[i] == intervals[i] && all[|intervals|] == item;
        assert forall k :: 0 <= k < i ==> all[k] == intervals[k];
      }
    }
  }

  ghost predicate EndsBy(intervals: seq<Interval>, t: Time) {
    |intervals| > 0 ==> intervals[|intervals| - 1].endedAt <= t
  }

  lemma AllEndBy(intervals: seq<Interval>, t: Time)
    requires Coalesced(intervals) && EndsBy(intervals, t)
    ensures forall i :: 0 <= i < |intervals| ==> intervals[i].endedAt <= t
    ensures forall i :: 0 <= i < |intervals| - 1 ==> intervals[i].endedAt < t
  {
    var last := |intervals| - 1;
    forall i | 0 <= i < last
      ensures intervals[i].endedAt < t
    {
      assert Precedes(intervals[i], intervals[last]);
    }
  }

  lemma CoalesceShape(intervals: seq<Interval>, project: string, start: Time, end: Time)
    requires Coalesced(intervals) && EndsBy(intervals, start) && start < end
    ensures Coalesced(Coalesce(intervals, project, start, end))
    ensures EndsBy(Coalesce(intervals, project, start, end), end)
  {
    AllEndBy(intervals, start);
    var last := |intervals| - 1;
    if last >= 0 && intervals[last].project == project && intervals[last].endedAt == start {
      var front, grown := intervals[..last], intervals[last].(endedAt := end);
      assert intervals == front + [intervals[last]] && Coalesce(intervals, project, start, end) == front + [grown];
      CoalescedSnoc(front, intervals[last]);
      CoalescedSnoc(front, grown);
    } else {
      CoalescedSnoc(intervals, Interval(project, start, end));
    }
  }

  lemma {:induction false} DayShape(intervals: seq<Interval>, beats: seq<Beat>, timeout: int)
    requires Sorting.SortedBy(TimeLe, beats)
    requires Coalesced(intervals) && (|beats| > 0 ==> EndsBy(intervals, beats[0].time))
    ensures Coalesced(AddDay(intervals, beats, timeout))
    ensures |beats| > 0 ==> EndsBy(AddDay(intervals, beats, timeout), beats[|beats| - 1].time)
    ensures |beats| == 0 ==> AddDay(intervals, beats, timeout) == intervals
  {
    if |beats| >= 2 {
      DayShape(intervals, beats[..|beats| - 1], timeout);
      var a, b := beats[|beats| - 2], beats[|beats| - 1];
      assert TimeLe(a, b);
      if Counts(a, b, timeout) {
        CoalesceShape(AddDay(intervals, beats[..|beats| - 1], timeout), Label(a.project), a.time, b.time);
      }
    }
  }

  /** Every heartbeat of an earlier day comes no later than any of a later day. */
  ghost predicate DaysInOrder(days: seq<seq<Beat>>) {
    forall i, j :: 0 <= i < j < |days| ==> forall a, b :: a in days[i] && b in days[j] ==> a.time <= b.time
  }

  ghost predicate EndsByBeat(intervals: seq<Interval>, days: seq<seq<Beat>>) {
    |intervals| > 0 ==>
      exists i, b: Beat :: 0 <= i < |days| && b in days[i] && intervals[|intervals| - 1].endedAt <= b.time
  }

  lemma SortDay(day: seq<Beat>)
    ensures Sorting.SortedBy(TimeLe, Sorting.Sort(TimeLe, day))
    ensures forall b :: b in Sorting.Sort(TimeLe, day) <==> b in day
  {
    assert Sorting.TotalPreorder(TimeLe);
    Sorting.SortSorts(TimeLe, day);
    Sorting.SortPermutes(TimeLe, day);
    Measures.SameMembers(Sorting.Sort(TimeLe, day), day);
  }

  /** With the days in order, the export is sorted, without overlap and fully coalesced. */
  lemma {:induction false} ExportShape(days: seq<seq<Beat>>, timeout: int)
    requires DaysInOrder(days)
    ensures Coalesced(AddDays(days, timeout)) && EndsByBeat(AddDays(days, timeout), days)
  {
    if |days| > 0 {
      var days', day := days[..|days| - 1], days[|days| - 1];
      ExportShape(days', timeout);
      SortDay(day);
      var before, beats := AddDays(days', timeout), Sorting.Sort(TimeLe, day);
      if |beats| > 0 {
        assert beats[0] in day && beats[|beats| - 1] in day;
        if |before| > 0 {
          var i, b: Beat :| 0 <= i < |days'| && b in days'[i] && before[|before| - 1].endedAt <= b.time;
          assert b in days[i] && beats[0] in days[|days| - 1];
        }
      }
      DayShape(before, beats, timeout);
      StillEnds(before, days', day, beats, timeout);
    }
  }

  lemma StillEnds(before: seq<Interval>, days: seq<seq<Beat>>, day: seq<Beat>, beats: seq<Beat>, timeout: int)
    requires EndsByBeat(before, days)
    requires forall b :: b in beats ==> b in day
    requires |beats| > 0 ==> EndsBy(AddDay(before, beats, timeout), beats[|beats| - 1].time)
    requires |beats| == 0 ==> AddDay(before, beats, timeout) == before
    ensures EndsByBeat(AddDay(before, beats, timeout), days + [day])
  {
    var all := days + [day];
    if |beats| > 0 {
      assert beats[|beats| - 1] in all[|days|];
    } else if |before| > 0 {
      var i, b: Beat :| 0 <= i < |days| && b in days[i] && before[|before| - 1].endedAt <= b.time;
      assert b in all[i];
    }
  }

  // ----- The loops -----

  lemma AddDayStep(intervals: seq<Interval>, beats: seq<Beat>, timeout: int, i: nat)
    requires i + 1 < |beats|
    ensures
      var a, b := beats[i], beats[i + 1];
      var before := AddDay(intervals, beats[..i + 1], timeout);
      && AddDay(intervals, beats[..i + 2], timeout) ==
         (if Counts(a, b, timeout) then Coalesce(before, Label(a.project), a.time, b.time) else before)
      && DayGaps(None, beats[..i + 2], timeout) ==
         DayGaps(None, beats[..i + 1], timeout) + (if Counts(a, b, timeout) then b.time - a.time else 0)
  {
    assert beats[..i + 2][..i + 1] == beats[..i + 1];
  }

  method AddInterval(intervals: seq<Interval>, project: string, startedAt: Time, endedAt: Time)
      returns (result: seq<Interval>)
    ensures result == Coalesce(intervals, project, startedAt, endedAt)
  {
    result := intervals;
    var last := |result| - 1;
    if last >= 0 && result[last].project == project && result[last].endedAt == startedAt {
      result := result[last := result[last].(endedAt := endedAt)];
    } else {
      result := result + [Interval(project, startedAt, endedAt)];
    }
  }

  method ExportDay(intervals: seq<Interval>, data: seq<Beat>, timeout: int)
      returns (result: seq<Interval>, duration: int)
    ensures result == AddDay(intervals, Sorting.Sort(TimeLe, data), timeout)
    ensures duration == DayGaps(None, Sorting.Sort(TimeLe, data), timeout)
  {
    var beats := Sorting.Sort(TimeLe, data);
    result, duration := intervals, 0;
    var i := 0;
    while i + 1 < |beats|
      invariant 0 <= i && (i < |beats| || i == 0)
      invariant |beats| > 0 ==> result == AddDay(intervals, beats[..i + 1], timeout)
      invariant |beats| > 0 ==> duration == DayGaps(None, beats[..i + 1], timeout)
      invariant |beats| == 0 ==> result == intervals && duration == 0
    {
      AddDayStep(intervals, beats, timeout, i);
      var gap := beats[i + 1].time - beats[i].time;
      if gap <= 0 || gap >= timeout {
        i := i + 1;
        continue;
      }
      var project := if beats[i].project == "" then "unknown" else beats[i].project;
      result := AddInterval(result, project, beats[i].time, beats[i + 1].time);
      duration := duration + (beats[i + 1].time - beats[i].time);
      i := i + 1;
    }
    assert |beats| > 0 ==> beats[..i + 1] == beats;
  }

  /** Per-project totals hold for any days; the shape needs the days in order. */
  method Export(days: seq<seq<Beat>>, timeout: int) returns (intervals: seq<Interval>, duration: int)
    ensures intervals == AddDays(days, if timeout <= 0 then 10 * MINUTE else timeout)
    ensures duration == SumBy(SpanFor(None), intervals)
  {
    var limit := if timeout <= 0 then DEFAULT_TIMEOUT else timeout;
    intervals, duration := [], 0;
    for d := 0 to |days|
      invariant intervals == AddDays(days[..d], limit)
      invariant duration == RawGaps(None, days[..d], limit)
    {
      assert days[..d + 1][..d] == days[..d];
      var added;
      intervals, added := ExportDay(intervals, days[d], limit);
      duration := duration + added;
    }
    assert days[..|days|] == days;
    TotalsAreRawGaps(days, limit, None);
  }

  // ----- Cutting at the first hook -----

  function Cut(item: Interval, cutover: Time): Interval {
    if item.endedAt > cutover then item.(endedAt := cutover) else item
  }

  function Before(intervals: seq<Interval>, cutover: Time): seq<Interval> {
    if |intervals| == 0 then []
    else
      var item := intervals[|intervals| - 1];
      var before := Before(intervals[..|intervals| - 1], cutover);
      if item.startedAt < cutover && Cut(item, cutover).endedAt > item.startedAt then before + [Cut(item, cutover)]
      else before
  }

  /** The part of a selected interval that lies before the cut. */
  function SpanBefore(which: Option<string>, cutover: Time): Interval -> int {
    (item: Interval) =>
      if Selects(which, item.project) && item.startedAt < cutover then Earlier(item.endedAt, cutover) - item.startedAt
      else 0
  }

  method IntervalsBefore(intervals: seq<Interval>, cutover: Time) returns (result: seq<Interval>, duration: int)
    ensures result == Before(intervals, cutover)
    ensures duration == SumBy(SpanFor(None), result)
  {
    result := [];
    for i := 0 to |intervals|
      invariant result == Before(intervals[..i], cutover)
    {
      assert intervals[..i + 1][..i] == intervals[..i];
      var item := intervals[i];
      if !(item.startedAt < cutover) {
        continue;
      }
      if item.endedAt > cutover {
        item := item.(endedAt := cutover);
      }
      if item.endedAt > item.startedAt {
        result := result + [item];
      }
    }
    assert intervals[..|intervals|] == intervals;
    duration := TotalSpan(result);
  }

  method TotalSpan(items: seq<Interval>) returns (duration: int)
    ensures duration == SumBy(SpanFor(None), items)
  {
    duration := 0;
    for i := 0 to |items|
      invariant duration == SumBy(SpanFor(None), items[..i])
    {
      assert items[..i + 1] == items[..i] + [items[i]];
      SumBySnoc(SpanFor(None), items[..i], items[i]);
      duration := duration + (items[i].endedAt - items[i].startedAt);
    }
    assert items[..|items|] == items;
  }

  /** Cutting leaves the selected projects exactly what lies before the cut. */
  lemma {:induction false} CutTotals(intervals: seq<Interval>, cutover: Time, which: Option<string>)
    requires forall i :: 0 <= i < |intervals| ==> intervals[i].startedAt < intervals[i].endedAt
    ensures SumBy(SpanFor(which), Before(intervals, cutover)) == SumBy(SpanBefore(which, cutover), intervals)
  {
    if |intervals| > 0 {
      var item := intervals[|intervals| - 1];
      CutTotals(intervals[..|intervals| - 1], cutover, which);
      SumBySnoc(SpanFor(which), Before(intervals[..|intervals| - 1], cutover), Cut(item, cutover));
    }
  }

  lemma {:induction false} CutNothing(intervals: seq<Interval>, cutover: Time)
    requires forall x :: x in intervals ==> x.startedAt < x.endedAt <= cutover
    ensures Before(intervals, cutover) == intervals
  {
    if |intervals| > 0 {
      var intervals', item := intervals[..|intervals| - 1], intervals[|intervals| - 1];
      assert intervals == intervals' + [item] && item in intervals;
      CutNothing(intervals', cutover);
    }
  }

  /** Cutting keeps the shape and ends everything by the cut. */
  lemma {:induction false} CutShape(intervals: seq<Interval>, cutover: Time)
    requires Coalesced(intervals)
    ensures Coalesced(Before(intervals, cutover)) && EndsBy(Before(intervals, cutover), cutover)
  {
    if |intervals| > 0 {
      var intervals', item := intervals[..|intervals| - 1], intervals[|intervals| - 1];
      assert intervals == intervals' + [item];
      CoalescedSnoc(intervals', item);
      if item.startedAt < cutover {
        CutNothing(intervals', cutover);
        CoalescedSnoc(intervals', Cut(item, cutover));
      } else {
        CutShape(intervals', cutover);
      }
    }
  }

  // ----- Intervals as events -----

  function WakapiRunId(naming: Naming, item: Interval): string {
    naming.uuid(["wakapi-run", item.project, naming.stamp(item.startedAt)])
  }

  function WakapiPayload(naming: Naming, item: Interval): Payload {
    NO_PAYLOAD.(project := NO_PROJECT.(id := naming.uuid(["wakapi-project", item.project]), name := item.project,
                                       fingerprint := "wakapi:" + naming.lower(item.project)))
  }

  function WakapiUnit(naming: Naming, machineId: string, item: Interval): Unit {
    IntervalUnit(naming, "wakapi", Wakapi, machineId, WakapiRunId(naming, item), WakapiPayload(naming, item),
                 item.startedAt, item.endedAt)
  }

  function WakapiUnits(naming: Naming, machineId: string, items: seq<Interval>): (units: seq<Unit>)
    ensures |units| == |items|
    ensures forall i :: 0 <= i < |items| ==> units[i] == WakapiUnit(naming, machineId, items[i])
  {
    if |items| == 0 then []
    else WakapiUnits(naming, machineId, items[..|items| - 1]) + [WakapiUnit(naming, machineId, items[|items| - 1])]
  }

  method WakapiEvents(naming: Naming, machineId: string, items: seq<Interval>) returns (events: seq<Event>)
    ensures events == EventsOf(WakapiUnits(naming, machineId, items))
  {
    events := [];
    for i := 0 to |items|
      invariant events == EventsOf(WakapiUnits(naming, machineId, items[..i]))
    {
      assert items[..i + 1][..i] == items[..i];
      var item := items[i];
      var units := WakapiUnits(naming, machineId, items[..i]);
      EventsOfSnoc(units, WakapiUnit(naming, machineId, item));
      events := events + IntervalEvents(naming, "wakapi", Wakapi, machineId, WakapiRunId(naming, item),
                                        WakapiPayload(naming, item), item.startedAt, item.endedAt);
    }
    assert items[..|items|] == items;
  }

  lemma WakapiUnitsApart(naming: Naming, machineId: string, a: Interval, b: Interval)
    requires CollisionFree(naming) && a.startedAt != b.startedAt
    ensures Apart(WakapiUnit(naming, machineId, a), WakapiUnit(naming, machineId, b))
  {
    DifferAt(["wakapi-run", a.project, naming.stamp(a.startedAt)], ["wakapi-run", b.project, naming.stamp(b.startedAt)],
             2);
    IntervalUnitsApart(naming, "wakapi", Wakapi, machineId,
                       WakapiRunId(naming, a), WakapiPayload(naming, a), a.startedAt, a.endedAt,
                       WakapiRunId(naming, b), WakapiPayload(naming, b), b.startedAt, b.endedAt);
  }

  lemma WakapiUnitWellFormed(naming: Naming, machineId: string, item: Interval)
    requires CollisionFree(naming) && item.startedAt <= item.endedAt
    ensures WellFormed(WakapiUnit(naming, machineId, item))
    ensures forall e :: e in WakapiUnit(naming, machineId, item).events ==> e.source == Wakapi
  {
    IntervalUnitWellFormed(naming, "wakapi", Wakapi, machineId, WakapiRunId(naming, item), WakapiPayload(naming, item),
                           item.startedAt, item.endedAt);
  }

  lemma WakapiUnitsAllApart(naming: Naming, machineId: string, items: seq<Interval>)
    requires CollisionFree(naming) && Coalesced(items)
    ensures AllApart(WakapiUnits(naming, machineId, items))
  {
    var units := WakapiUnits(naming, machineId, items);
    forall i | 0 <= i < |units|
      ensures WellFormed(units[i])
    {
      WakapiUnitWellFormed(naming, machineId, items[i]);
    }
    forall i, j | 0 <= i < j < |units|
      ensures Apart(units[i], units[j])
    {
      assert Precedes(items[i], items[j]);
      WakapiUnitsApart(naming, machineId, items[i], items[j]);
    }
  }

  lemma {:induction false} UnitLengths(naming: Naming, machineId: string, items: seq<Interval>, now: Time, from: Time,
                                       to: Time)
    requires forall i :: 0 <= i < |items| ==> from <= items[i].startedAt < items[i].endedAt <= to
    ensures SumBy(Measures.VisibleLength(now, from, to), RunsOf(WakapiUnits(naming, machineId, items))) ==
              SumBy(SpanFor(None), items)
  {
    if |items| > 0 {
      UnitLengths(naming, machineId, items[..|items| - 1], now, from, to);
    }
  }

  lemma UnitsOnTheClock(naming: Naming, machineId: string, items: seq<Interval>, now: Time, from: Time, to: Time)
    requires Coalesced(items)
    ensures
      var runs := RunsOf(WakapiUnits(naming, machineId, items));
      Summaries.WallClock(runs, now, from, to) == Summaries.SessionAgentTime(runs, now, from, to)
  {
    var runs := RunsOf(WakapiUnits(naming, machineId, items));
    forall i, j | 0 <= i < j < |runs|
      ensures Summaries.Span(runs[i], now).end <= Summaries.Span(runs[j], now).start
    {
      assert Precedes(items[i], items[j]);
    }
    forall t | from <= t < to
      ensures Summaries.ActiveAt(runs, now, t) <= 1
    {
      Measures.OneAtATime(runs, now, t);
    }
    Measures.NoOverlap(runs, now, from, to);
  }

  /** The duration an import prints is the wall-clock time the report then shows for it. */
  lemma ImportedTimeIsReported(naming: Naming, machineId: string, items: seq<Interval>, result: seq<Run>, now: Time,
                               from: Time, to: Time)
    requires CollisionFree(naming) && Coalesced(items)
    requires forall i :: 0 <= i < |items| ==> from <= items[i].startedAt < items[i].endedAt <= to
    requires Projector.ListsRuns(result, Projection.ProjectedRuns(EventsOf(WakapiUnits(naming, machineId, items))))
    ensures Summaries.SessionAgentTime(result, now, from, to) == SumBy(SpanFor(None), items)
    ensures Summaries.WallClock(result, now, from, to) == SumBy(SpanFor(None), items)
  {
    var units := WakapiUnits(naming, machineId, items);
    WakapiUnitsAllApart(naming, machineId, items);
    ListedUnits(units, result);
    Measures.ReportIgnoresOrder(result, RunsOf(units), now, from, to);
    Measures.AreaIsLengths(RunsOf(units), now, from, to);
    UnitLengths(naming, machineId, items, now, from, to);
    UnitsOnTheClock(naming, machineId, items, now, from, to);
  }

  function WakapiProjectId(naming: Naming, project: string): string {
    naming.uuid(["wakapi-project", project])
  }

  lemma ProjectIdsTell(naming: Naming, a: string, b: string)
    requires CollisionFree(naming)
    ensures WakapiProjectId(naming, a) == WakapiProjectId(naming, b) <==> a == b
  {
    if a != b {
      DifferAt(["wakapi-project", a], ["wakapi-project", b], 1);
    }
  }

  lemma UnitLength(naming: Naming, machineId: string, item: Interval, project: string, now: Time)
    requires CollisionFree(naming)
    ensures Measures.LengthIn(WakapiProjectId(naming, project), now)(WakapiUnit(naming, machineId, item).run) ==
            SpanFor(Some(project))(item)
  {
    ProjectIdsTell(naming, item.project, project);
  }

  lemma {:induction false} ProjectSums(naming: Naming, machineId: string, items: seq<Interval>, project: string,
                                       now: Time)
    requires CollisionFree(naming)
    ensures SumBy(Measures.LengthIn(WakapiProjectId(naming, project), now),
                  RunsOf(WakapiUnits(naming, machineId, items))) == SumBy(SpanFor(Some(project)), items)
  {
    if |items| > 0 {
      ProjectSums(naming, machineId, items[..|items| - 1], project, now);
      UnitLength(naming, machineId, items[|items| - 1], project, now);
    }
  }

  lemma UnitSpan(naming: Naming, machineId: string, items: seq<Interval>, i: nat, now: Time)
    requires i < |items|
    ensures
      var span := Summaries.Span(RunsOf(WakapiUnits(naming, machineId, items))[i], now);
      span.start == items[i].startedAt && span.end == items[i].endedAt
  {
  }

  lemma UnitsFollow(naming: Naming, machineId: string, items: seq<Interval>, now: Time, from: Time, to: Time)
    requires Coalesced(items)
    requires forall i :: 0 <= i < |items| ==> from <= items[i].startedAt < items[i].endedAt <= to
    ensures
      var runs := RunsOf(WakapiUnits(naming, machineId, items));
      && Measures.OneAfterAnother(runs, now)
      && forall run :: run in runs ==> from <= Summaries.Span(run, now).start <= Summaries.Span(run, now).end <= to
  {
    var runs := RunsOf(WakapiUnits(naming, machineId, items));
    forall i | 0 <= i < |runs|
      ensures Summaries.Span(runs[i], now).start == items[i].startedAt
      ensures Summaries.Span(runs[i], now).end == items[i].endedAt
    {
      UnitSpan(naming, machineId, items, i, now);
    }
    SpansFollow(items, runs, now, from, to);
  }

  lemma SpansFollow(items: seq<Interval>, runs: seq<Run>, now: Time, from: Time, to: Time)
    requires Coalesced(items) && |runs| == |items|
    requires forall i :: 0 <= i < |items| ==> from <= items[i].startedAt < items[i].endedAt <= to
    requires forall i :: 0 <= i < |runs| ==>
               Summaries.Span(runs[i], now).start == items[i].startedAt
                   && Summaries.Span(runs[i], now).end == items[i].endedAt
    ensures Measures.OneAfterAnother(runs, now)
    ensures forall run :: run in runs ==> from <= Summaries.Span(run, now).start <= Summaries.Span(run, now).end <= to
  {
    forall i, j | 0 <= i < j < |runs|
      ensures Summaries.Span(runs[i], now).end <= Summaries.Span(runs[j], now).start
    {
      assert Precedes(items[i], items[j]);
    }
  }

  /** A report shows each imported project with exactly its imported time. */
  lemma ImportedByProject(naming: Naming, machineId: string, items: seq<Interval>, result: seq<Run>, project: string,
                          now: Time, from: Time, to: Time)
    requires CollisionFree(naming) && Coalesced(items)
    requires forall i :: 0 <= i < |items| ==> from <= items[i].startedAt < items[i].endedAt <= to
    requires Projector.ListsRuns(result, Projection.ProjectedRuns(EventsOf(WakapiUnits(naming, machineId, items))))
    ensures Summaries.ProjectSpan(WakapiProjectId(naming, project), result, now, from, to) ==
            SumBy(SpanFor(Some(project)), items)
  {
    var units, id := WakapiUnits(naming, machineId, items), WakapiProjectId(naming, project);
    assert multiset(result) == multiset(RunsOf(units)) by {
      WakapiUnitsAllApart(naming, machineId, items);
      ListedUnits(units, result);
    }
    assert Summaries.ProjectSpan(id, result, now, from, to) ==
           Summaries.ProjectSpan(id, RunsOf(units), now, from, to) by {
      Measures.ReportIgnoresOrder(result, RunsOf(units), now, from, to);
    }
    UnitsFollow(naming, machineId, items, now, from, to);
    Measures.ProjectShare(id, RunsOf(units), now, from, to);
    ProjectSums(naming, machineId, items, project, now);
  }
}
