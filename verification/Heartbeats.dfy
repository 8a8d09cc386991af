/** From a stream of hook heartbeats to charged time. */
module Heartbeats {
  import opened Domain
  import opened Sums
  import opened LocalTables
  import opened WorkUnits
  import Projection
  import Projector
  import Sorting
  import Summaries
  import Measures

  // ----- The stream -----

  function Stored(stream: seq<HookHeartbeat>, timeout: int): map<string, HookHeartbeat> {
    if |stream| == 0 then map[] else Advance(Stored(stream[..|stream| - 1], timeout), stream[|stream| - 1], timeout).0
  }

  function Emitted(stream: seq<HookHeartbeat>, timeout: int): seq<HookInterval> {
    if |stream| == 0 then []
    else
      var before := stream[..|stream| - 1];
      var emitted := Advance(Stored(before, timeout), stream[|stream| - 1], timeout).1;
      Emitted(before, timeout) + (if emitted.Some? then [emitted.value] else [])
  }

  /** The times of session `s` that are later than all its earlier ones. */
  function Accepted(stream: seq<HookHeartbeat>, s: string): seq<Time> {
    if |stream| == 0 then []
    else
      var before, h := Accepted(stream[..|stream| - 1], s), stream[|stream| - 1];
      if h.sessionId == s && (|before| == 0 || before[|before| - 1] < h.occurredAt) then before + [h.occurredAt]
      else before
  }

  /** The gaps between consecutive times, counting those within the timeout. */
  function Gaps(times: seq<Time>, timeout: int): int {
    if |times| < 2 then 0
    else
      var gap := times[|times| - 1] - times[|times| - 2];
      Gaps(times[..|times| - 1], timeout) + (if gap <= timeout then gap else 0)
  }

  ghost predicate StoresLast(table: map<string, HookHeartbeat>, s: string, times: seq<Time>) {
    && (s in table <==> |times| > 0)
    && (s in table ==> table[s].sessionId == s && table[s].occurredAt == times[|times| - 1])
  }

  ghost predicate Increasing(times: seq<Time>) {
    forall i, j :: 0 <= i < j < |times| ==> times[i] < times[j]
  }

  /** The stored time of a session is its latest accepted time, and it only moves forward. */
  lemma {:induction false} StoredTimes(stream: seq<HookHeartbeat>, timeout: int, s: string)
    ensures StoresLast(Stored(stream, timeout), s, Accepted(stream, s))
    ensures Increasing(Accepted(stream, s))
  {
    if |stream| > 0 {
      StoredTimes(stream[..|stream| - 1], timeout, s);
    }
  }

  function LengthFor(s: string): HookInterval -> int {
    (item: HookInterval) => if item.sessionId == s then item.endedAt - item.startedAt else 0
  }

  ghost predicate Bounded(item: HookInterval, table: map<string, HookHeartbeat>, timeout: int) {
    && item.startedAt < item.endedAt <= item.startedAt + timeout
    && item.sessionId in table && item.endedAt <= table[item.sessionId].occurredAt
  }

  ghost predicate NoOverlapWithinSession(items: seq<HookInterval>) {
    forall i, j :: 0 <= i < j < |items| && items[i].sessionId == items[j].sessionId ==>
      items[i].endedAt <= items[j].startedAt
  }

  lemma SnocNoOverlap(items: seq<HookInterval>, item: HookInterval)
    requires NoOverlapWithinSession(items)
    requires forall i :: 0 <= i < |items| && items[i].sessionId == item.sessionId ==> items[i].endedAt <= item.startedAt
    ensures NoOverlapWithinSession(items + [item])
  {
  }

  /** Emitted intervals are non-empty, no longer than the timeout, and within a session ordered without overlap. */
  lemma {:induction false} EmittedShape(stream: seq<HookHeartbeat>, timeout: int)
    ensures NoOverlapWithinSession(Emitted(stream, timeout))
    ensures forall i :: 0 <= i < |Emitted(stream, timeout)| ==>
              Bounded(Emitted(stream, timeout)[i], Stored(stream, timeout), timeout)
  {
    if |stream| > 0 {
      var before, h := stream[..|stream| - 1], stream[|stream| - 1];
      EmittedShape(before, timeout);
      StoredTimes(before, timeout, h.sessionId);
      var table, items := Stored(before, timeout), Emitted(before, timeout);
      var next := Advance(table, h, timeout);
      if next.1.Some? {
        SnocNoOverlap(items, next.1.value);
      }
    }
  }

  lemma GapsSnoc(times: seq<Time>, t: Time, timeout: int)
    ensures Gaps(times + [t], timeout) == Gaps(times, timeout) +
              (if |times| > 0 && t - times[|times| - 1] <= timeout then t - times[|times| - 1] else 0)
  {
    assert (times + [t])[..|times|] == times;
  }

  /** What one heartbeat emits for a session is the gap it adds to the accepted times. */
  lemma EmittedStep(table: map<string, HookHeartbeat>, times: seq<Time>, h: HookHeartbeat, timeout: int, s: string)
    requires StoresLast(table, s, times)
    requires h.sessionId in table ==> table[h.sessionId].sessionId == h.sessionId
    ensures
      var emitted := Advance(table, h, timeout).1;
      var times' := if h.sessionId == s && (|times| == 0 || times[|times| - 1] < h.occurredAt)
                    then times + [h.occurredAt] else times;
      Gaps(times', timeout) == Gaps(times, timeout) + (if emitted.Some? then LengthFor(s)(emitted.value) else 0)
  {
    if h.sessionId == s {
      GapsSnoc(times, h.occurredAt, timeout);
    }
  }

  /** What is emitted for a session adds up to its accepted consecutive gaps within the timeout. */
  lemma {:induction false} EmittedTotal(stream: seq<HookHeartbeat>, timeout: int, s: string)
    ensures SumBy(LengthFor(s), Emitted(stream, timeout)) == Gaps(Accepted(stream, s), timeout)
  {
    if |stream| > 0 {
      var before, h := stream[..|stream| - 1], stream[|stream| - 1];
      EmittedTotal(before, timeout, s);
      StoredTimes(before, timeout, h.sessionId);
      StoredTimes(before, timeout, s);
      EmittedStep(Stored(before, timeout), Accepted(before, s), h, timeout, s);
      var emitted := Advance(Stored(before, timeout), h, timeout).1;
      SumOptional(LengthFor(s), Emitted(before, timeout), emitted);
    }
  }

  lemma SumOptional(f: HookInterval -> int, items: seq<HookInterval>, more: Option<HookInterval>)
    ensures SumBy(f, items + (if more.Some? then [more.value] else [])) ==
            SumBy(f, items) + (if more.Some? then f(more.value) else 0)
  {
    if more.Some? {
      SumBySnoc(f, items, more.value);
    }
    assert items + [] == items;
  }

  // ----- Which heartbeats bound an interval, and whose work it is -----

  /** The heartbeat is later than all earlier ones of its session. */
  predicate Advances(stream: seq<HookHeartbeat>, j: int) {
    && 0 <= j < |stream|
    && forall i :: 0 <= i < j && stream[i].sessionId == stream[j].sessionId ==>
         stream[i].occurredAt < stream[j].occurredAt
  }

  /** Two heartbeats of a session that advance it one after the other. */
  predicate Consecutive(stream: seq<HookHeartbeat>, i: int, j: int) {
    && i < j && Advances(stream, i) && Advances(stream, j) && stream[i].sessionId == stream[j].sessionId
    && forall k :: i < k < j && stream[k].sessionId == stream[j].sessionId ==> !Advances(stream, k)
  }

  /** The work between two heartbeats is that of the earlier one's project and model. */
  function Between(a: HookHeartbeat, b: HookHeartbeat): HookInterval {
    HookInterval(a.occurredAt, b.occurredAt, a.sessionId, a.project, a.model)
  }

  /** The last heartbeat that advanced the session. */
  predicate AdvancedLast(stream: seq<HookHeartbeat>, s: string, i: int) {
    && Advances(stream, i) && stream[i].sessionId == s
    && forall k :: i < k < |stream| && stream[k].sessionId == s ==> !Advances(stream, k)
  }

  lemma AdvancesPrefix(front: seq<HookHeartbeat>, h: HookHeartbeat, j: int)
    requires 0 <= j < |front|
    ensures Advances(front + [h], j) <==> Advances(front, j)
  {
    assert forall i :: 0 <= i < |front| ==> (front + [h])[i] == front[i];
  }

  /** Nothing of the session is later than what advanced it last. */
  lemma LastIsLatest(stream: seq<HookHeartbeat>, s: string, i: int, k: int)
    requires AdvancedLast(stream, s, i) && 0 <= k < |stream| && stream[k].sessionId == s
    ensures stream[k].occurredAt <= stream[i].occurredAt
    decreases k
  {
    if k > i {
      var j :| 0 <= j < k && stream[j].sessionId == s && stream[j].occurredAt >= stream[k].occurredAt;
      LastIsLatest(stream, s, i, j);
    }
  }

  /** What is stored of a session is the heartbeat that advanced it last. */
  ghost predicate StoresAdvanced(stream: seq<HookHeartbeat>, table: map<string, HookHeartbeat>, s: string) {
    && (s in table ==> exists i :: AdvancedLast(stream, s, i) && stream[i] == table[s])
    && (s !in table ==> forall k :: 0 <= k < |stream| ==> stream[k].sessionId != s)
  }

  lemma AdvanceNow(front: seq<HookHeartbeat>, h: HookHeartbeat, table: map<string, HookHeartbeat>)
    requires StoresAdvanced(front, table, h.sessionId)
    ensures Advances(front + [h], |front|) <==>
              h.sessionId !in table || table[h.sessionId].occurredAt < h.occurredAt
  {
    var all := front + [h];
    if h.sessionId in table {
      var i :| AdvancedLast(front, h.sessionId, i) && front[i] == table[h.sessionId];
      assert all[i] == front[i];
      forall k | 0 <= k < |front| && front[k].sessionId == h.sessionId
        ensures front[k].occurredAt <= front[i].occurredAt
      {
        LastIsLatest(front, h.sessionId, i, k);
      }
    }
  }

  lemma StoresNext(front: seq<HookHeartbeat>, h: HookHeartbeat, table: map<string, HookHeartbeat>, timeout: int,
                   s: string)
    requires StoresAdvanced(front, table, s) && StoresAdvanced(front, table, h.sessionId)
    ensures StoresAdvanced(front + [h], Advance(table, h, timeout).0, s)
  {
    var all := front + [h];
    AdvanceNow(front, h, table);
    if s in table && !(h.sessionId == s && Advances(all, |front|)) {
      var i :| AdvancedLast(front, s, i) && front[i] == table[s];
      StillLast(front, h, s, i);
    } else if h.sessionId == s {
      assert AdvancedLast(all, s, |front|);
    }
  }

  lemma StillLast(front: seq<HookHeartbeat>, h: HookHeartbeat, s: string, i: int)
    requires AdvancedLast(front, s, i) && !(h.sessionId == s && Advances(front + [h], |front|))
    ensures AdvancedLast(front + [h], s, i) && (front + [h])[i] == front[i]
  {
    var all := front + [h];
    AdvancesPrefix(front, h, i);
    forall k | i < k < |all| && all[k].sessionId == s
      ensures !Advances(all, k)
    {
      if k < |front| {
        AdvancesPrefix(front, h, k);
      }
    }
  }

  lemma {:induction false} StoredAdvanced(stream: seq<HookHeartbeat>, timeout: int, s: string)
    ensures StoresAdvanced(stream, Stored(stream, timeout), s)
  {
    if |stream| > 0 {
      var front, h := stream[..|stream| - 1], stream[|stream| - 1];
      assert stream == front + [h];
      StoredAdvanced(front, timeout, s);
      StoredAdvanced(front, timeout, h.sessionId);
      StoresNext(front, h, Stored(front, timeout), timeout, s);
    }
  }

  lemma ConsecutivePrefix(front: seq<HookHeartbeat>, h: HookHeartbeat, i: int, j: int)
    requires j < |front|
    ensures Consecutive(front + [h], i, j) <==> Consecutive(front, i, j)
  {
    var all := front + [h];
    if 0 <= i < j {
      assert forall k :: 0 <= k < |front| ==> all[k] == front[k];
      AdvancesPrefix(front, h, i);
      AdvancesPrefix(front, h, j);
      forall k | i < k < j
        ensures Advances(all, k) <==> Advances(front, k)
      {
        AdvancesPrefix(front, h, k);
      }
    }
  }

  /** The last heartbeat and the one stored before it are consecutive, and no other pair ends with the last. */
  lemma ConsecutiveNow(front: seq<HookHeartbeat>, h: HookHeartbeat, table: map<string, HookHeartbeat>, i: int)
    requires StoresAdvanced(front, table, h.sessionId) && Consecutive(front + [h], i, |front|)
    ensures h.sessionId in table && table[h.sessionId] == front[i] && front[i].occurredAt < h.occurredAt
  {
    var all := front + [h];
    assert all[i] == front[i];
    AdvancesPrefix(front, h, i);
    var j :| AdvancedLast(front, h.sessionId, j) && front[j] == table[h.sessionId];
    if i < j {
      AdvancesPrefix(front, h, j);
    }
  }

  lemma EmitsNow(front: seq<HookHeartbeat>, h: HookHeartbeat, table: map<string, HookHeartbeat>, timeout: int)
    requires StoresAdvanced(front, table, h.sessionId)
    ensures
      var emitted := Advance(table, h, timeout).1;
      && (emitted.Some? ==> exists i ::
            && Consecutive(front + [h], i, |front|) && h.occurredAt - front[i].occurredAt <= timeout
            && emitted.value == Between(front[i], h))
      && (forall i :: Consecutive(front + [h], i, |front|) && h.occurredAt - front[i].occurredAt <= timeout ==>
            emitted == Some(Between(front[i], h)))
  {
    AdvanceNow(front, h, table);
    var all, emitted := front + [h], Advance(table, h, timeout).1;
    if emitted.Some? {
      var i :| AdvancedLast(front, h.sessionId, i) && front[i] == table[h.sessionId];
      AdvancesPrefix(front, h, i);
      forall k | i < k < |front| && all[k].sessionId == h.sessionId
        ensures !Advances(all, k)
      {
        AdvancesPrefix(front, h, k);
        assert all[k] == front[k];
      }
      assert all[i] == front[i] && Consecutive(all, i, |front|);
    }
    forall i | Consecutive(all, i, |front|) && h.occurredAt - front[i].occurredAt <= timeout
      ensures emitted == Some(Between(front[i], h))
    {
      ConsecutiveNow(front, h, table, i);
    }
  }

  /** An interval is emitted if and only if two heartbeats that advance a session one after the other bound it, no
      further apart than the timeout; its project and model are those of the earlier one. */
  lemma {:induction false} EmittedExactly(stream: seq<HookHeartbeat>, timeout: int, item: HookInterval)
    ensures item in Emitted(stream, timeout) <==>
              exists i, j :: Consecutive(stream, i, j) && stream[j].occurredAt - stream[i].occurredAt <= timeout
                && item == Between(stream[i], stream[j])
  {
    if |stream| > 0 {
      var front, h := stream[..|stream| - 1], stream[|stream| - 1];
      assert stream == front + [h];
      EmittedExactly(front, timeout, item);
      StoredAdvanced(front, timeout, h.sessionId);
      EmitsNow(front, h, Stored(front, timeout), timeout);
      forall i, j | j < |front|
        ensures Consecutive(stream, i, j) <==> Consecutive(front, i, j)
      {
        ConsecutivePrefix(front, h, i, j);
      }
      if item in Emitted(front, timeout) {
        var i, j :| Consecutive(front, i, j) && front[j].occurredAt - front[i].occurredAt <= timeout
          && item == Between(front[i], front[j]);
        assert Consecutive(stream, i, j) && stream[i] == front[i] && stream[j] == front[j];
      }
    }
  }

  // ----- Intervals as events -----

  function HookRunId(naming: Naming, item: HookInterval): string {
    naming.uuid(["hook-run", item.sessionId, item.project.id, naming.stamp(item.startedAt), naming.stamp(item.endedAt)])
  }

  function HookPayload(item: HookInterval): Payload {
    NO_PAYLOAD.(project := item.project, model := item.model)
  }

  function HookIntervalEvents(naming: Naming, machineId: string, item: HookInterval): seq<Event> {
    IntervalEvents(naming, "hook", Hook, machineId, HookRunId(naming, item), HookPayload(item), item.startedAt,
                   item.endedAt)
  }

  function HookUnit(naming: Naming, machineId: string, item: HookInterval): (unit: Unit)
    ensures unit.events == HookIntervalEvents(naming, machineId, item)
  {
    IntervalUnit(naming, "hook", Hook, machineId, HookRunId(naming, item), HookPayload(item), item.startedAt,
                 item.endedAt)
  }

  lemma HookRunIdsDiffer(naming: Naming, a: HookInterval, b: HookInterval)
    requires CollisionFree(naming)
    requires a.sessionId != b.sessionId || a.startedAt != b.startedAt
    ensures HookRunId(naming, a) != HookRunId(naming, b)
  {
    DifferAt(["hook-run", a.sessionId, a.project.id, naming.stamp(a.startedAt), naming.stamp(a.endedAt)],
             ["hook-run", b.sessionId, b.project.id, naming.stamp(b.startedAt), naming.stamp(b.endedAt)],
             if a.sessionId != b.sessionId then 1 else 3);
  }

  lemma HookUnitsApart(naming: Naming, machineId: string, a: HookInterval, b: HookInterval)
    requires CollisionFree(naming) && HookRunId(naming, a) != HookRunId(naming, b)
    ensures Apart(HookUnit(naming, machineId, a), HookUnit(naming, machineId, b))
  {
    IntervalUnitsApart(naming, "hook", Hook, machineId,
                       HookRunId(naming, a), HookPayload(a), a.startedAt, a.endedAt,
                       HookRunId(naming, b), HookPayload(b), b.startedAt, b.endedAt);
  }

  lemma HookUnitWellFormed(naming: Naming, machineId: string, item: HookInterval)
    requires CollisionFree(naming) && item.startedAt <= item.endedAt
    ensures WellFormed(HookUnit(naming, machineId, item))
    ensures forall e :: e in HookUnit(naming, machineId, item).events ==> e.source == Hook
  {
    IntervalUnitWellFormed(naming, "hook", Hook, machineId, HookRunId(naming, item), HookPayload(item), item.startedAt,
                           item.endedAt);
  }

  function HookUnits(naming: Naming, machineId: string, items: seq<HookInterval>): (units: seq<Unit>)
    ensures |units| == |items|
    ensures forall i :: 0 <= i < |items| ==> units[i] == HookUnit(naming, machineId, items[i])
  {
    if |items| == 0 then []
    else HookUnits(naming, machineId, items[..|items| - 1]) + [HookUnit(naming, machineId, items[|items| - 1])]
  }

  ghost predicate Separate(items: seq<HookInterval>, from: Time, to: Time) {
    && NoOverlapWithinSession(items)
    && forall i :: 0 <= i < |items| ==> from <= items[i].startedAt < items[i].endedAt <= to
  }

  lemma HookUnitsAllApart(naming: Naming, machineId: string, items: seq<HookInterval>, from: Time, to: Time)
    requires CollisionFree(naming) && Separate(items, from, to)
    ensures AllApart(HookUnits(naming, machineId, items))
  {
    var units := HookUnits(naming, machineId, items);
    forall i | 0 <= i < |units|
      ensures WellFormed(units[i])
    {
      HookUnitWellFormed(naming, machineId, items[i]);
    }
    forall i, j | 0 <= i < j < |units|
      ensures Apart(units[i], units[j])
    {
      HookRunIdsDiffer(naming, items[i], items[j]);
      HookUnitsApart(naming, machineId, items[i], items[j]);
    }
  }

  function ItemLength(): HookInterval -> int {
    (item: HookInterval) => item.endedAt - item.startedAt
  }

  lemma {:induction false} UnitLengths(naming: Naming, machineId: string, items: seq<HookInterval>, now: Time,
                                       from: Time, to: Time)
    requires Separate(items, from, to)
    ensures SumBy(Measures.VisibleLength(now, from, to), RunsOf(HookUnits(naming, machineId, items))) ==
              SumBy(ItemLength(), items)
  {
    if |items| > 0 {
      UnitLengths(naming, machineId, items[..|items| - 1], now, from, to);
    }
  }

  /** Heartbeat intervals pushed through the projector and the summary are charged at their full length. */
  lemma IntervalsCharged(naming: Naming, machineId: string, items: seq<HookInterval>, result: seq<Run>, now: Time,
                         from: Time, to: Time)
    requires CollisionFree(naming) && Separate(items, from, to)
    requires Projector.ListsRuns(result, Projection.ProjectedRuns(EventsOf(HookUnits(naming, machineId, items))))
    ensures Measures.SameReport(result, RunsOf(HookUnits(naming, machineId, items)), now, from, to)
    ensures Summaries.SessionAgentTime(result, now, from, to) == SumBy(ItemLength(), items)
  {
    var units := HookUnits(naming, machineId, items);
    HookUnitsAllApart(naming, machineId, items, from, to);
    ListedUnits(units, result);
    Measures.ReportIgnoresOrder(result, RunsOf(units), now, from, to);
    UnitsCharged(naming, machineId, items, now, from, to);
  }

  lemma UnitsCharged(naming: Naming, machineId: string, items: seq<HookInterval>, now: Time, from: Time, to: Time)
    requires Separate(items, from, to)
    ensures Summaries.SessionAgentTime(RunsOf(HookUnits(naming, machineId, items)), now, from, to) ==
              SumBy(ItemLength(), items)
  {
    Measures.AreaIsLengths(RunsOf(HookUnits(naming, machineId, items)), now, from, to);
    UnitLengths(naming, machineId, items, now, from, to);
  }

  lemma OneAfterAnother(naming: Naming, machineId: string, items: seq<HookInterval>, now: Time, from: Time, to: Time)
    requires Separate(items, from, to)
    requires forall i :: 0 <= i < |items| ==> items[i].sessionId == items[0].sessionId
    ensures Measures.OneAfterAnother(RunsOf(HookUnits(naming, machineId, items)), now)
  {
  }

  /** The intervals of one session never overlap, so they cost as much on the clock. */
  lemma SessionOnTheClock(naming: Naming, machineId: string, items: seq<HookInterval>, now: Time, from: Time, to: Time)
    requires Separate(items, from, to)
    requires forall i :: 0 <= i < |items| ==> items[i].sessionId == items[0].sessionId
    ensures
      var runs := RunsOf(HookUnits(naming, machineId, items));
      Summaries.WallClock(runs, now, from, to) == Summaries.SessionAgentTime(runs, now, from, to)
  {
    var runs := RunsOf(HookUnits(naming, machineId, items));
    OneAfterAnother(naming, machineId, items, now, from, to);
    forall t | from <= t < to
      ensures Summaries.ActiveAt(runs, now, t) <= 1
    {
      Measures.OneAtATime(runs, now, t);
    }
    Measures.NoOverlap(runs, now, from, to);
  }

  // ----- One session of an interleaved stream -----

  function OfSession(s: string): HookInterval -> bool {
    (item: HookInterval) => item.sessionId == s
  }

  lemma {:induction false} SessionTotal(items: seq<HookInterval>, s: string)
    ensures SumBy(ItemLength(), Sorting.Filter(OfSession(s), items)) == SumBy(LengthFor(s), items)
  {
    if |items| > 0 {
      var items', item := items[..|items| - 1], items[|items| - 1];
      SessionTotal(items', s);
      var own := Sorting.Filter(OfSession(s), items');
      SumBySnoc(ItemLength(), own, item);
      assert own + [] == own;
    }
  }

  lemma {:induction false} SessionItems(items: seq<HookInterval>, s: string, from: Time, to: Time)
    requires Separate(items, from, to)
    ensures Separate(Sorting.Filter(OfSession(s), items), from, to)
  {
    if |items| > 0 {
      var items', item := items[..|items| - 1], items[|items| - 1];
      SessionItems(items', s, from, to);
      var own := Sorting.Filter(OfSession(s), items');
      Sorting.FilterMembers(OfSession(s), items');
      forall i | 0 <= i < |own| && own[i].sessionId == item.sessionId
        ensures own[i].endedAt <= item.startedAt
      {
        assert own[i] in items';
      }
      SnocNoOverlap(own, item);
      assert own + [] == own;
    }
  }

  function EmittedFor(s: string, stream: seq<HookHeartbeat>, timeout: int): seq<HookInterval> {
    Sorting.Filter(OfSession(s), Emitted(stream, timeout))
  }

  lemma EmittedForShape(s: string, stream: seq<HookHeartbeat>, timeout: int, from: Time, to: Time)
    requires forall i :: 0 <= i < |stream| ==> from <= stream[i].occurredAt <= to
    ensures
      var own := EmittedFor(s, stream, timeout);
      && Separate(own, from, to)
      && (forall i :: 0 <= i < |own| ==> own[i].sessionId == s)
      && SumBy(ItemLength(), own) == Gaps(Accepted(stream, s), timeout)
  {
    EmittedShape(stream, timeout);
    EmittedWithin(stream, timeout, from, to);
    SessionItems(Emitted(stream, timeout), s, from, to);
    SessionTotal(Emitted(stream, timeout), s);
    EmittedTotal(stream, timeout, s);
    Sorting.FilterMembers(OfSession(s), Emitted(stream, timeout));
    var own := EmittedFor(s, stream, timeout);
    assert forall i :: 0 <= i < |own| ==> own[i] in own;
  }

  /** The ids of the runs that stand for the session's intervals. */
  function RunIdsFor(naming: Naming, items: seq<HookInterval>, s: string): set<string> {
    set item | item in items && item.sessionId == s :: HookRunId(naming, item)
  }

  function IsOneOf(ids: set<string>): Run -> bool {
    (run: Run) => run.id in ids
  }

  lemma RunIdsTell(naming: Naming, items: seq<HookInterval>, s: string, item: HookInterval)
    requires CollisionFree(naming) && item in items
    ensures HookRunId(naming, item) in RunIdsFor(naming, items, s) <==> item.sessionId == s
  {
    if HookRunId(naming, item) in RunIdsFor(naming, items, s) {
      var x :| x in items && x.sessionId == s && HookRunId(naming, x) == HookRunId(naming, item);
      if x.sessionId != item.sessionId {
        HookRunIdsDiffer(naming, x, item);
      }
    }
  }

  /** Picking the session's runs picks its intervals. */
  lemma {:induction false} PickedRuns(naming: Naming, machineId: string, items: seq<HookInterval>, ids: set<string>,
                                      s: string)
    requires forall item :: item in items ==> (HookRunId(naming, item) in ids <==> item.sessionId == s)
    ensures Sorting.Filter(IsOneOf(ids), RunsOf(HookUnits(naming, machineId, items))) ==
            RunsOf(HookUnits(naming, machineId, Sorting.Filter(OfSession(s), items)))
  {
    if |items| > 0 {
      var items', item := items[..|items| - 1], items[|items| - 1];
      assert items == items' + [item] && item in items;
      PickedRuns(naming, machineId, items', ids, s);
      PickOneMore(naming, machineId, items', item, ids, s);
    }
  }

  lemma PickOneMore(naming: Naming, machineId: string, items: seq<HookInterval>, item: HookInterval, ids: set<string>,
                    s: string)
    requires HookRunId(naming, item) in ids <==> item.sessionId == s
    requires Sorting.Filter(IsOneOf(ids), RunsOf(HookUnits(naming, machineId, items))) ==
             RunsOf(HookUnits(naming, machineId, Sorting.Filter(OfSession(s), items)))
    ensures Sorting.Filter(IsOneOf(ids), RunsOf(HookUnits(naming, machineId, items + [item]))) ==
            RunsOf(HookUnits(naming, machineId, Sorting.Filter(OfSession(s), items + [item])))
  {
    var run, own := HookUnit(naming, machineId, item).run, Sorting.Filter(OfSession(s), items);
    UnitRunsSnoc(naming, machineId, items, item);
    Sorting.FilterSnoc(IsOneOf(ids), RunsOf(HookUnits(naming, machineId, items)), run);
    Sorting.FilterSnoc(OfSession(s), items, item);
    if item.sessionId == s {
      UnitRunsSnoc(naming, machineId, own, item);
    } else {
      assert own + [] == own && RunsOf(HookUnits(naming, machineId, own)) + [] ==
          RunsOf(HookUnits(naming, machineId, own));
    }
  }

  lemma UnitRunsSnoc(naming: Naming, machineId: string, items: seq<HookInterval>, item: HookInterval)
    ensures RunsOf(HookUnits(naming, machineId, items + [item])) ==
            RunsOf(HookUnits(naming, machineId, items)) + [HookUnit(naming, machineId, item).run]
  {
  }

  /** For every interleaving of heartbeats, everything that was emitted goes through one projection. The report charges
      all of it at its full length, and of that each session exactly its accepted consecutive gaps within the timeout,
      as agent time and as wall-clock time. */
  lemma HeartbeatAccounting(naming: Naming, machineId: string, stream: seq<HookHeartbeat>, timeout: int, s: string,
                            result: seq<Run>, now: Time, from: Time, to: Time)
    requires CollisionFree(naming)
    requires forall i :: 0 <= i < |stream| ==> from <= stream[i].occurredAt <= to
    requires Projector.ListsRuns(result,
                                 Projection.ProjectedRuns(EventsOf(HookUnits(naming, machineId,
                                       Emitted(stream, timeout)))))
    ensures Summaries.SessionAgentTime(result, now, from, to) == SumBy(ItemLength(), Emitted(stream, timeout))
    ensures
      var share := Sorting.Filter(IsOneOf(RunIdsFor(naming, Emitted(stream, timeout), s)), result);
      Summaries.SessionAgentTime(share, now, from, to) == Summaries.WallClock(share, now, from, to) ==
      Gaps(Accepted(stream, s), timeout)
  {
    var items := Emitted(stream, timeout);
    assert Separate(items, from, to) by {
      EmittedShape(stream, timeout);
      EmittedWithin(stream, timeout, from, to);
    }
    assert Summaries.SessionAgentTime(result, now, from, to) == SumBy(ItemLength(), items) by {
      IntervalsCharged(naming, machineId, items, result, now, from, to);
    }
    assert SumBy(ItemLength(), EmittedFor(s, stream, timeout)) == Gaps(Accepted(stream, s), timeout) by {
      EmittedForShape(s, stream, timeout, from, to);
    }
    ShareCharged(naming, machineId, items, s, result, now, from, to);
  }

  lemma ShareCharged(naming: Naming, machineId: string, items: seq<HookInterval>, s: string, result: seq<Run>,
                     now: Time, from: Time, to: Time)
    requires CollisionFree(naming) && Separate(items, from, to)
    requires Projector.ListsRuns(result, Projection.ProjectedRuns(EventsOf(HookUnits(naming, machineId, items))))
    ensures
      var share := Sorting.Filter(IsOneOf(RunIdsFor(naming, items, s)), result);
      Summaries.SessionAgentTime(share, now, from, to) == Summaries.WallClock(share, now, from, to) ==
      SumBy(ItemLength(), Sorting.Filter(OfSession(s), items))
  {
    var own := Sorting.Filter(OfSession(s), items);
    var share := Sorting.Filter(IsOneOf(RunIdsFor(naming, items, s)), result);
    assert Measures.SameReport(share, RunsOf(HookUnits(naming, machineId, own)), now, from, to) by {
      SessionShare(naming, machineId, items, s, result, now, from, to);
    }
    assert Separate(own, from, to) by {
      SessionItems(items, s, from, to);
    }
    assert forall item :: item in own ==> item.sessionId == s by {
      Sorting.FilterMembers(OfSession(s), items);
    }
    OwnCharged(naming, machineId, own, s, share, now, from, to);
  }

  lemma OwnCharged(naming: Naming, machineId: string, own: seq<HookInterval>, s: string, share: seq<Run>,
                   now: Time, from: Time, to: Time)
    requires Separate(own, from, to) && forall item :: item in own ==> item.sessionId == s
    requires Measures.SameReport(share, RunsOf(HookUnits(naming, machineId, own)), now, from, to)
    ensures Summaries.SessionAgentTime(share, now, from, to) == Summaries.WallClock(share, now, from, to) ==
            SumBy(ItemLength(), own)
  {
    assert forall i :: 0 <= i < |own| ==> own[i] in own;
    SessionOnTheClock(naming, machineId, own, now, from, to);
    UnitsCharged(naming, machineId, own, now, from, to);
  }

  lemma SessionShare(naming: Naming, machineId: string, items: seq<HookInterval>, s: string, result: seq<Run>,
                     now: Time, from: Time, to: Time)
    requires CollisionFree(naming) && Separate(items, from, to)
    requires Projector.ListsRuns(result, Projection.ProjectedRuns(EventsOf(HookUnits(naming, machineId, items))))
    ensures Measures.SameReport(Sorting.Filter(IsOneOf(RunIdsFor(naming, items, s)), result),
                                RunsOf(HookUnits(naming, machineId, Sorting.Filter(OfSession(s), items))), now, from,
                                    to)
  {
    var units, ids := HookUnits(naming, machineId, items), RunIdsFor(naming, items, s);
    HookUnitsAllApart(naming, machineId, items, from, to);
    ListedUnits(units, result);
    forall item | item in items
      ensures HookRunId(naming, item) in ids <==> item.sessionId == s
    {
      RunIdsTell(naming, items, s, item);
    }
    PickedRuns(naming, machineId, items, ids, s);
    Measures.FilterSame(IsOneOf(ids), result, RunsOf(units));
    Measures.ReportIgnoresOrder(Sorting.Filter(IsOneOf(ids), result), Sorting.Filter(IsOneOf(ids), RunsOf(units)), now,
                                from, to);
  }

  lemma {:induction false} EmittedWithin(stream: seq<HookHeartbeat>, timeout: int, from: Time, to: Time)
    requires forall i :: 0 <= i < |stream| ==> from <= stream[i].occurredAt <= to
    ensures forall s :: s in Stored(stream, timeout) ==> from <= Stored(stream, timeout)[s].occurredAt <= to
    ensures forall i :: 0 <= i < |Emitted(stream, timeout)| ==>
              from <= Emitted(stream, timeout)[i].startedAt && Emitted(stream, timeout)[i].endedAt <= to
  {
    if |stream| > 0 {
      EmittedWithin(stream[..|stream| - 1], timeout, from, to);
    }
  }

  function LengthOf(projectId: string): HookInterval -> int {
    (item: HookInterval) => if item.project.id == projectId then item.endedAt - item.startedAt else 0
  }

  lemma {:induction false} ProjectSums(naming: Naming, machineId: string, items: seq<HookInterval>, projectId: string,
                                       now: Time)
    ensures SumBy(Measures.LengthIn(projectId, now), RunsOf(HookUnits(naming, machineId, items))) ==
            SumBy(LengthOf(projectId), items)
  {
    if |items| > 0 {
      ProjectSums(naming, machineId, items[..|items| - 1], projectId, now);
    }
  }

  lemma UnitsWithin(naming: Naming, machineId: string, items: seq<HookInterval>, now: Time, from: Time, to: Time)
    requires Separate(items, from, to)
    ensures forall run :: run in RunsOf(HookUnits(naming, machineId, items)) ==>
              from <= Summaries.Span(run, now).start <= Summaries.Span(run, now).end <= to
  {
  }

  /** The run shows the interval, under its project and with its model. */
  predicate IsRunOf(run: Run, item: HookInterval) {
    && run.projectId == item.project.id && run.model == item.model
    && run.startedAt == item.startedAt && run.endedAt == Some(item.endedAt)
  }

  lemma UnitsShowItems(naming: Naming, machineId: string, items: seq<HookInterval>)
    ensures forall i :: 0 <= i < |items| ==> IsRunOf(RunsOf(HookUnits(naming, machineId, items))[i], items[i])
  {
  }

  lemma RunsShowItems(items: seq<HookInterval>, runs: seq<Run>, result: seq<Run>)
    requires |runs| == |items| && multiset(result) == multiset(runs)
    requires forall i :: 0 <= i < |items| ==> IsRunOf(runs[i], items[i])
    ensures forall run :: run in result ==> exists item :: item in items && IsRunOf(run, item)
  {
    Measures.SameMembers(result, runs);
    forall run | run in result
      ensures exists item :: item in items && IsRunOf(run, item)
    {
      var i :| 0 <= i < |runs| && runs[i] == run;
      assert items[i] in items && IsRunOf(runs[i], items[i]);
    }
  }

  /** A report shows each project with exactly the time of its intervals, and each run shows its interval. */
  lemma SessionByProject(naming: Naming, machineId: string, items: seq<HookInterval>, result: seq<Run>,
                         projectId: string, now: Time, from: Time, to: Time)
    requires CollisionFree(naming) && Separate(items, from, to)
    requires forall i :: 0 <= i < |items| ==> items[i].sessionId == items[0].sessionId
    requires Projector.ListsRuns(result, Projection.ProjectedRuns(EventsOf(HookUnits(naming, machineId, items))))
    ensures Summaries.ProjectSpan(projectId, result, now, from, to) == SumBy(LengthOf(projectId), items)
    ensures forall run :: run in result ==> exists item :: item in items && IsRunOf(run, item)
  {
    var units := HookUnits(naming, machineId, items);
    assert multiset(result) == multiset(RunsOf(units)) by {
      HookUnitsAllApart(naming, machineId, items, from, to);
      ListedUnits(units, result);
    }
    UnitsShowItems(naming, machineId, items);
    RunsShowItems(items, RunsOf(units), result);
    assert Summaries.ProjectSpan(projectId, result, now, from, to) ==
           Summaries.ProjectSpan(projectId, RunsOf(units), now, from, to) by {
      Measures.ReportIgnoresOrder(result, RunsOf(units), now, from, to);
    }
    OneAfterAnother(naming, machineId, items, now, from, to);
    UnitsWithin(naming, machineId, items, now, from, to);
    Measures.ProjectShare(projectId, RunsOf(units), now, from, to);
    ProjectSums(naming, machineId, items, projectId, now);
  }
}
