/** What the token scanner reports, read off the records themselves: which completions, and with what usage. */
module MetricHistory {
  import opened Domain
  import opened LocalTables
  import opened Metrics
  import opened Transcript
  import opened WorkUnits
  import Measures

  // ----- What the records have said last -----

  /** The counters. */
  function Counted(records: seq<Decoded>): Tokens {
    if |records| == 0 then NO_TOKENS
    else
      var record := records[|records| - 1];
      if Says(record, "token_count") then record.payload.total else Counted(records[..|records| - 1])
  }

  /** The usage reported along with them. */
  function LastUsage(records: seq<Decoded>): Tokens {
    if |records| == 0 then NO_TOKENS
    else
      var record := records[|records| - 1];
      if Says(record, "token_count") then record.payload.last else LastUsage(records[..|records| - 1])
  }

  /** The counters when a turn last started or completed. */
  function CountedBefore(records: seq<Decoded>): Tokens {
    if |records| == 0 then NO_TOKENS
    else
      var front, record := records[..|records| - 1], records[|records| - 1];
      if Says(record, "task_started") || Says(record, "task_complete") then Counted(front) else CountedBefore(front)
  }

  /** The turn that is under way. */
  function TurnUnderWay(records: seq<Decoded>): string {
    if |records| == 0 then ""
    else
      var record := records[|records| - 1];
      if Says(record, "task_started") then record.payload.turnId
      else if Says(record, "task_complete") then ""
      else TurnUnderWay(records[..|records| - 1])
  }

  predicate IsMeta(record: Decoded) {
    record.Record? && record.kind == "session_meta"
  }

  function SessionOf(records: seq<Decoded>): string {
    if |records| == 0 then ""
    else
      var record := records[|records| - 1];
      if IsMeta(record) then SessionNamed(record.payload) else SessionOf(records[..|records| - 1])
  }

  /** The project of the directory in which the session was started. */
  function ProjectOf(config: Config, records: seq<Decoded>): ProjectInfo {
    if |records| == 0 then NO_PROJECT
    else
      var record := records[|records| - 1];
      if IsMeta(record) && record.payload.cwd != "" then config.resolve(record.payload.cwd)
      else ProjectOf(config, records[..|records| - 1])
  }

  /** The last record that sets model and effort. */
  function ContextOf(records: seq<Decoded>): (string, string) {
    if |records| == 0 then ("", "")
    else
      var record := records[|records| - 1];
      if record.Record? && record.kind == "turn_context" then (record.payload.model, record.payload.effort)
      else ContextOf(records[..|records| - 1])
  }

  // ----- What a completion reports -----

  function TurnOf(before: seq<Decoded>, record: Decoded): string
    requires record.Record?
  {
    if TurnUnderWay(before) != "" then TurnUnderWay(before) else record.payload.turnId
  }

  /** A completion is reported when its turn has a name, its session a project, and the cutover, if there is one, is
      not after it. */
  predicate Reports(config: Config, cutover: Time, before: seq<Decoded>, record: Decoded) {
    && Says(record, "task_complete")
    && TurnOf(before, record) != "" && ProjectOf(config, before).id != ""
    && (cutover == ZERO_TIME || cutover <= CompletedAt(record))
  }

  function AtLeastZero(x: int): int {
    if x < 0 then 0 else x
  }

  /** What the counters gained since the turn began, counter by counter. */
  function Gained(before: seq<Decoded>): Tokens {
    var now, start := Counted(before), CountedBefore(before);
    Tokens(AtLeastZero(now.input - start.input), AtLeastZero(now.cached - start.cached),
           AtLeastZero(now.output - start.output), AtLeastZero(now.reasoning - start.reasoning))
  }

  /** The run a completion is reported as: of no length, with what the counters gained, or with the last usage when
      they gained nothing. */
  function ReportedRun(config: Config, before: seq<Decoded>, record: Decoded): Run
    requires record.Record?
  {
    var at, gained := CompletedAt(record), Gained(before);
    var id := config.naming.uuid(["metric-run", SessionOf(before), TurnOf(before, record)]);
    Run(id, "metrics:" + id, ProjectOf(config, before).id, at, Some(at), at, Completed, ContextOf(before).0,
        ContextOf(before).1, if gained == Tokens(0, 0, 0, 0) then LastUsage(before) else gained, ExplicitCompletion)
  }

  /** The runs of all reported completions, in order. */
  function ReportedRuns(config: Config, cutover: Time, records: seq<Decoded>): seq<Run> {
    if |records| == 0 then []
    else
      var front, record := records[..|records| - 1], records[|records| - 1];
      ReportedRuns(config, cutover, front) +
      (if Reports(config, cutover, front, record) then [ReportedRun(config, front, record)] else [])
  }

  // ----- The scanner's state and units are those -----

  /** The scanner's state after the records. */
  function StateFrom(config: Config, records: seq<Decoded>): MetricState {
    if |records| == 0 then NO_METRICS
    else StateAfter(config, StateFrom(config, records[..|records| - 1]), records[|records| - 1])
  }

  lemma {:induction false} StateTold(config: Config, records: seq<Decoded>)
    ensures StateFrom(config, records) ==
            MetricState(SessionOf(records), ProjectOf(config, records), TurnUnderWay(records), ContextOf(records).0,
                        ContextOf(records).1, CountedBefore(records), Counted(records), LastUsage(records))
  {
    if |records| > 0 {
      StateTold(config, records[..|records| - 1]);
    }
  }

  lemma UnitTold(config: Config, cutover: Time, before: seq<Decoded>, record: Decoded)
    ensures
      var unit := UnitOfRecord(config, cutover, StateFrom(config, before), record);
      && (unit.Some? <==> Reports(config, cutover, before, record))
      && (unit.Some? ==> unit.value.run == ReportedRun(config, before, record))
      && (unit.Some? ==>
            forall e :: e in unit.value.events ==> ReportsAs(config, e, CompletedAt(record), ProjectOf(config, before)))
  {
    StateTold(config, before);
    UnitEventsTold(config, cutover, StateFrom(config, before), record);
  }

  /** The event stems from the scanner and this machine, at that time; the first of its session names the project. */
  predicate ReportsAs(config: Config, e: Event, at: Time, project: ProjectInfo) {
    && e.source == Source.Metrics && e.machineId == config.machineId && e.occurredAt == at
    && (e.kind == SessionStarted ==> e.payload.project == project)
  }

  lemma UnitEventsTold(config: Config, cutover: Time, state: MetricState, record: Decoded)
    ensures
      var unit := UnitOfRecord(config, cutover, state, record);
      unit.Some? ==>
        forall e :: e in unit.value.events ==> ReportsAs(config, e, CompletedAt(record), state.project)
  {
  }

  lemma {:induction false} UnitsSnoc(config: Config, cutover: Time, state: MetricState, front: seq<Decoded>,
                                     record: Decoded, end: MetricState)
    requires end == StatesThrough(config, state, front)
    ensures
      var unit := UnitOfRecord(config, cutover, end, record);
      Units(config, cutover, state, front + [record]) ==
      Units(config, cutover, state, front) + (if unit.Some? then [unit.value] else [])
    decreases |front|
  {
    var all := front + [record];
    if |front| == 0 {
      assert all == [record] && all[1..] == [];
    } else {
      assert all[0] == front[0] && all[1..] == front[1..] + [record];
      UnitsSnoc(config, cutover, StateAfter(config, state, front[0]), front[1..], record, end);
    }
  }

  function StatesThrough(config: Config, state: MetricState, records: seq<Decoded>): MetricState
    decreases |records|
  {
    if |records| == 0 then state else StatesThrough(config, StateAfter(config, state, records[0]), records[1..])
  }

  lemma {:induction false} ThroughSnoc(config: Config, state: MetricState, front: seq<Decoded>, record: Decoded)
    ensures StatesThrough(config, state, front + [record]) ==
            StateAfter(config, StatesThrough(config, state, front), record)
    decreases |front|
  {
    var all := front + [record];
    if |front| == 0 {
      assert all == [record] && all[1..] == [];
    } else {
      assert all[0] == front[0] && all[1..] == front[1..] + [record];
      ThroughSnoc(config, StateAfter(config, state, front[0]), front[1..], record);
    }
  }

  lemma {:induction false} ThroughIsFrom(config: Config, records: seq<Decoded>)
    ensures StatesThrough(config, NO_METRICS, records) == StateFrom(config, records)
  {
    if |records| > 0 {
      var front, record := records[..|records| - 1], records[|records| - 1];
      assert records == front + [record];
      ThroughIsFrom(config, front);
      ThroughSnoc(config, NO_METRICS, front, record);
    }
  }

  lemma RunsOfSnoc(units: seq<Unit>, unit: Unit)
    ensures RunsOf(units + [unit]) == RunsOf(units) + [unit.run]
  {
    assert (units + [unit])[..|units|] == units;
  }

  /** The runs of a scan are the runs of the reported completions. */
  lemma {:induction false} UnitsTold(config: Config, cutover: Time, records: seq<Decoded>)
    ensures RunsOf(Units(config, cutover, NO_METRICS, records)) == ReportedRuns(config, cutover, records)
  {
    if |records| > 0 {
      var front, record := records[..|records| - 1], records[|records| - 1];
      assert records == front + [record];
      UnitsTold(config, cutover, front);
      ThroughIsFrom(config, front);
      UnitsSnoc(config, cutover, NO_METRICS, front, record, StateFrom(config, front));
      UnitTold(config, cutover, front, record);
      var units, unit := Units(config, cutover, NO_METRICS, front),
                         UnitOfRecord(config, cutover, StateFrom(config, front), record);
      if unit.Some? {
        RunsOfSnoc(units, unit.value);
      } else {
        assert units + [] == units;
      }
    }
  }

  /** A run is emitted if and only if some completion reports it; with a cutover set, none starts before it. */
  lemma {:induction false} ReportedExactly(config: Config, cutover: Time, records: seq<Decoded>, run: Run)
    ensures run in ReportedRuns(config, cutover, records) <==>
              exists i :: 0 <= i < |records| && Reports(config, cutover, records[..i], records[i])
                && run == ReportedRun(config, records[..i], records[i])
    ensures run in ReportedRuns(config, cutover, records) && cutover != ZERO_TIME ==> cutover <= run.startedAt
  {
    if |records| > 0 {
      var front, record := records[..|records| - 1], records[|records| - 1];
      ReportedExactly(config, cutover, front, run);
      assert forall i :: 0 <= i < |front| ==> front[..i] == records[..i] && front[i] == records[i];
      if Reports(config, cutover, front, record) {
        assert records[..|front|] == front && records[|front|] == record;
      }
    }
  }

  // ----- Conservation -----

  /** Counters never fall, and every completion is reported. */
  ghost predicate Orderly(config: Config, cutover: Time, records: seq<Decoded>) {
    forall i :: 0 <= i < |records| ==>
      && (Says(records[i], "token_count") ==> Counted(records[..i]).AtMost(records[i].payload.total))
      && (Says(records[i], "task_complete") ==> Reports(config, cutover, records[..i], records[i]))
  }

  lemma {:induction false} OrderlyFrom(config: Config, cutover: Time, records: seq<Decoded>, k: nat)
    requires Orderly(config, cutover, records) && k <= |records|
    ensures Regular(config, cutover, StateFrom(config, records[..k]), records[k..])
    decreases |records| - k
  {
    if k < |records| {
      var before, record := records[..k], records[k];
      assert records[..k + 1] == before + [record] && records[..k + 1][..k] == before;
      assert records[k..][0] == record && records[k..][1..] == records[k + 1..];
      StateTold(config, before);
      UnitTold(config, cutover, before, record);
      OrderlyFrom(config, cutover, records, k + 1);
    }
  }

  /** What a completion reports again because nothing was gained in its turn. */
  function AgainAt(before: seq<Decoded>, record: Decoded): Tokens {
    if Says(record, "task_complete") && Counted(before) == CountedBefore(before) then LastUsage(before) else NO_TOKENS
  }

  /** What all completions report again. */
  function ReportedAgain(records: seq<Decoded>): Tokens {
    if |records| == 0 then NO_TOKENS
    else
      var front, record := records[..|records| - 1], records[|records| - 1];
      ReportedAgain(front).Plus(AgainAt(front, record))
  }

  lemma StateSnoc(config: Config, before: seq<Decoded>, record: Decoded)
    ensures StateFrom(config, before + [record]) == StateAfter(config, StateFrom(config, before), record)
  {
    assert (before + [record])[..|before|] == before;
  }

  lemma RepeatedStep(config: Config, before: seq<Decoded>, records: seq<Decoded>)
    requires |records| > 0
    ensures Repeated(config, StateFrom(config, before), records) ==
            AgainAt(before, records[0]).Plus(Repeated(config, StateFrom(config, before + [records[0]]), records[1..]))
  {
    StateTold(config, before);
    StateSnoc(config, before, records[0]);
    assert records == [records[0]] + records[1..];
    RepeatedCons(config, StateFrom(config, before), records[0], records[1..],
                 StateFrom(config, before + [records[0]]));
  }

  lemma AgainSnoc(before: seq<Decoded>, record: Decoded)
    ensures ReportedAgain(before + [record]) == ReportedAgain(before).Plus(AgainAt(before, record))
  {
    assert (before + [record])[..|before|] == before;
  }

  lemma {:induction false} RepeatedFrom(config: Config, before: seq<Decoded>, records: seq<Decoded>)
    ensures ReportedAgain(before).Plus(Repeated(config, StateFrom(config, before), records)) ==
            ReportedAgain(before + records)
    decreases |records|
  {
    if |records| == 0 {
      assert before + records == before;
    } else {
      var next := before + [records[0]];
      assert before + records == next + records[1..];
      RepeatedStep(config, before, records);
      AgainSnoc(before, records[0]);
      RepeatedFrom(config, next, records[1..]);
    }
  }

  lemma {:induction false} FinalFrom(records: seq<Decoded>, k: nat)
    requires k <= |records|
    ensures FinalTotal(Marks(records[k..]), Counted(records[..k])) == Counted(records)
    decreases |records| - k
  {
    if k == |records| {
      assert records[..k] == records && records[k..] == [];
    } else {
      assert records[..k + 1] == records[..k] + [records[k]] && records[..k + 1][..k] == records[..k];
      assert Marks(records[k..])[1..] == Marks(records[k + 1..]);
      FinalFrom(records, k + 1);
    }
  }

  /** What is emitted, and what the counters gain outside completed turns, add up to the final counters if and only if
      nothing is reported again. */
  lemma TokensConserved(config: Config, cutover: Time, records: seq<Decoded>)
    requires Orderly(config, cutover, records)
    ensures
      var emitted := Measures.TokensOf(ReportedRuns(config, cutover, records));
      var outside := Growth(Marks(records), NO_TOKENS, false);
      emitted.Plus(outside) == Counted(records) <==> ReportedAgain(records) == NO_TOKENS
  {
    assert records[..0] == [] && records[0..] == records;
    OrderlyFrom(config, cutover, records, 0);
    assert [] + records == records;
    RepeatedFrom(config, [], records);
    FinalFrom(records, 0);
    UnitsTold(config, cutover, records);
    UsageIsSum(Units(config, cutover, NO_METRICS, records));
    RegularConserved(config, cutover, records);
  }
}
