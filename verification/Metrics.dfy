/** The token scanner: cumulative counters become one momentary run for each completed turn. */
module Metrics {
  import opened Domain
  import opened TokenSums
  import opened LocalTables
  import opened Scanning
  import opened Transcript
  import opened WorkUnits
  import Projection
  import Projector
  import Summaries
  import Measures

  function Max(a: int, b: int): int {
    if a > b then a else b
  }

  function TokenDelta(current: Tokens, baseline: Tokens): Tokens {
    Tokens(Max(0, current.input - baseline.input), Max(0, current.cached - baseline.cached),
           Max(0, current.output - baseline.output), Max(0, current.reasoning - baseline.reasoning))
  }

  // ----- The run of one completed turn -----

  function MetricRunId(naming: Naming, state: MetricState): string {
    naming.uuid(["metric-run", state.sessionId, state.activeTurn])
  }

  function ProjectPayload(state: MetricState): Payload {
    NO_PAYLOAD.(project := state.project, model := state.model, effort := state.effort)
  }

  function MetricEvents(config: Config, state: MetricState, at: Time, usage: Tokens): seq<Event> {
    var runId := MetricRunId(config.naming, state);
    var sessionId := "metrics:" + runId;
    var payload := ProjectPayload(state);
    [Event(EventId(config.naming, "metric", runId, "session"), config.machineId, sessionId, "", 1, at, SessionStarted,
           Source.Metrics, payload),
     Event(EventId(config.naming, "metric", runId, "start"), config.machineId, sessionId, runId, 2, at, RunStarted,
           Source.Metrics, payload),
     Event(EventId(config.naming, "metric", runId, "tokens"), config.machineId, sessionId, runId, 3, at, TokenUsage,
           Source.Metrics, NO_PAYLOAD.(usage := usage)),
     Event(EventId(config.naming, "metric", runId, "complete"), config.machineId, sessionId, runId, 4, at, RunCompleted,
           Source.Metrics, NO_PAYLOAD)]
  }

  function MetricUnit(config: Config, state: MetricState, at: Time, usage: Tokens): (unit: Unit)
    ensures unit.events == MetricEvents(config, state, at, usage)
  {
    var runId := MetricRunId(config.naming, state);
    Unit(MetricEvents(config, state, at, usage),
         CompletedRun(runId, "metrics:" + runId, ProjectPayload(state), at, at, usage))
  }

  // ----- One record -----

  function Completing(state: MetricState, payload: Envelope): MetricState {
    if state.activeTurn == "" then state.(activeTurn := payload.turnId) else state
  }

  predicate Reported(state: MetricState, at: Time, cutover: Time) {
    state.activeTurn != "" && state.project.id != "" && (cutover == ZERO_TIME || !(at < cutover))
  }

  /** The growth since the turn began, or the last reported usage when nothing grew. */
  function Usage(state: MetricState): Tokens {
    var delta := TokenDelta(state.current, state.baseline);
    if delta == NO_TOKENS then state.last else delta
  }

  /** The unit a record completes, if it does and the turn is reported. */
  function UnitOfRecord(config: Config, cutover: Time, state: MetricState, record: Decoded): Option<Unit> {
    if record.Record? && record.kind == "event_msg" && record.payload.kind == "task_complete" then
      var at := if record.payload.completedAt.Some? then record.payload.completedAt.value else record.timestamp;
      var done := Completing(state, record.payload);
      if Reported(done, at, cutover) then Some(MetricUnit(config, done, at, Usage(done))) else None
    else None
  }

  function StateAfter(config: Config, state: MetricState, record: Decoded): MetricState {
    if !record.Record? then state
    else
      var payload := record.payload;
      if record.kind == "session_meta" then
        var named := state.(sessionId := if payload.sessionId == "" then payload.id else payload.sessionId);
        if payload.cwd != "" then named.(project := config.resolve(payload.cwd)) else named
      else if record.kind == "turn_context" then state.(model := payload.model, effort := payload.effort)
      else if record.kind == "event_msg" then
        if payload.kind == "task_started" then state.(activeTurn := payload.turnId, baseline := state.current)
        else if payload.kind == "token_count" then state.(current := payload.total, last := payload.last)
        else if payload.kind == "task_complete" then state.(activeTurn := "", baseline := state.current)
        else state
      else state
  }

  function StepLine(config: Config, cutover: Time, cursor: MetricCursor, line: string): Scan<MetricCursor> {
    var record := config.decode(line);
    var unit := UnitOfRecord(config, cutover, cursor.state, record);
    Scan(cursor.(byteOffset := cursor.byteOffset + |line|, state := StateAfter(config, cursor.state, record)),
         if unit.Some? then unit.value.events else [], [])
  }

  function Step(config: Config, cutover: Time): (MetricCursor, string) -> Scan<MetricCursor> {
    (cursor: MetricCursor, line: string) => StepLine(config, cutover, cursor, line)
  }

  method ScanRecord(config: Config, cutover: Time, before: MetricState, record: Decoded)
      returns (state: MetricState, events: seq<Event>)
    ensures state == StateAfter(config, before, record)
    ensures
      var unit := UnitOfRecord(config, cutover, before, record);
      events == if unit.Some? then unit.value.events else []
  {
    state, events := before, [];
    if !record.Record? {
      return;
    }
    var payload := record.payload;
    if record.kind == "session_meta" {
      state := state.(sessionId := if payload.sessionId == "" then payload.id else payload.sessionId);
      if payload.cwd != "" {
        state := state.(project := config.resolve(payload.cwd));
      }
    } else if record.kind == "turn_context" {
      state := state.(model := payload.model, effort := payload.effort);
    } else if record.kind == "event_msg" {
      if payload.kind == "task_started" {
        state := state.(activeTurn := payload.turnId, baseline := state.current);
      } else if payload.kind == "token_count" {
        state := state.(current := payload.total, last := payload.last);
      } else if payload.kind == "task_complete" {
        var at := if payload.completedAt.Some? then payload.completedAt.value else record.timestamp;
        if state.activeTurn == "" {
          state := state.(activeTurn := payload.turnId);
        }
        if state.activeTurn != "" && state.project.id != "" && (cutover == ZERO_TIME || !(at < cutover)) {
          var usage := TokenDelta(state.current, state.baseline);
          if usage == NO_TOKENS {
            usage := state.last;
          }
          events := MetricEvents(config, state, at, usage);
        }
        state := state.(activeTurn := "", baseline := state.current);
      }
    }
  }

  /** A cursor of another file starts over; one past the end of the file reads from its start. */
  function Opened(cursor: MetricCursor, identity: string, size: nat): (r: MetricCursor)
    ensures r.byteOffset <= size
  {
    var cursor1 := if cursor.fileIdentity != "" && cursor.fileIdentity != identity then NO_METRIC_CURSOR else cursor;
    var cursor2 := cursor1.(fileIdentity := identity);
    if cursor2.byteOffset > size then cursor2.(byteOffset := 0) else cursor2
  }

  /** A replaced file is read as a new one; a file that was cut short is read again from its start, with the counters
      as they were; any other file is read on where the last scan stopped. */
  lemma ReopenedWhere(config: Config, cutover: Time, bytes: string, identity: string, stored: MetricCursor)
    ensures
      var start := Opened(stored, identity, |bytes|);
      && start.fileIdentity == identity
      && (stored.fileIdentity != "" && stored.fileIdentity != identity ==>
            start == NO_METRIC_CURSOR.(fileIdentity := identity)
            && Continue(Step(config, cutover), Scan(start, [], []), Lines(bytes[start.byteOffset..])) ==
               Whole(Step(config, cutover), NO_METRIC_CURSOR.(fileIdentity := identity), bytes))
      && (stored.fileIdentity in {"", identity} && stored.byteOffset > |bytes| ==>
            start == stored.(fileIdentity := identity, byteOffset := 0))
      && (stored.fileIdentity in {"", identity} && stored.byteOffset <= |bytes| ==>
            start == stored.(fileIdentity := identity))
  {
    assert bytes[0..] == bytes;
  }

  ghost function Remaining(config: Config, cutover: Time, scan: Scan<MetricCursor>, bytes: string): Scan<MetricCursor>
    requires scan.state.byteOffset <= |bytes|
  {
    Continue(Step(config, cutover), scan, Lines(bytes[scan.state.byteOffset..]))
  }

  lemma OneMore(config: Config, cutover: Time, scan: Scan<MetricCursor>, bytes: string, end: nat)
    requires scan.state.byteOffset <= |bytes| && LineEnd(bytes, scan.state.byteOffset) == Some(end)
    ensures
      var next := Then(scan, StepLine(config, cutover, scan.state, bytes[scan.state.byteOffset..end]));
      next.state.byteOffset == end && Remaining(config, cutover, scan, bytes) == Remaining(config, cutover, next, bytes)
  {
    OneLine(Step(config, cutover), scan, bytes, scan.state.byteOffset, end);
  }

  lemma NothingMore(config: Config, cutover: Time, scan: Scan<MetricCursor>, bytes: string)
    requires scan.state.byteOffset <= |bytes| && LineEnd(bytes, scan.state.byteOffset).None?
    ensures Remaining(config, cutover, scan, bytes) == scan
  {
  }

  method ScanFrom(config: Config, cutover: Time, bytes: string, start: MetricCursor)
      returns (cursor: MetricCursor, events: seq<Event>)
    requires start.byteOffset <= |bytes|
    ensures Scan(cursor, events, []) == Remaining(config, cutover, Scan(start, [], []), bytes)
  {
    cursor, events := start, [];
    var line := ReadLine(bytes, cursor.byteOffset);
    while line.Some?
      invariant cursor.byteOffset <= |bytes| && line == LineEnd(bytes, cursor.byteOffset)
      invariant Remaining(config, cutover, Scan(cursor, events, []), bytes) ==
                  Remaining(config, cutover, Scan(start, [], []), bytes)
      decreases |bytes| - cursor.byteOffset
    {
      OneMore(config, cutover, Scan(cursor, events, []), bytes, line.value);
      var record := config.decode(bytes[cursor.byteOffset..line.value]);
      var state, added := ScanRecord(config, cutover, cursor.state, record);
      cursor := cursor.(byteOffset := line.value, state := state);
      events := events + added;
      line := ReadLine(bytes, cursor.byteOffset);
    }
    NothingMore(config, cutover, Scan(cursor, events, []), bytes);
  }

  method ScanFile(config: Config, cutover: Time, bytes: string, identity: string, stored: MetricCursor)
      returns (cursor: MetricCursor, events: seq<Event>)
    ensures
      var start := Opened(stored, identity, |bytes|);
      Scan(cursor, events, []) == Continue(Step(config, cutover), Scan(start, [], []), Lines(bytes[start.byteOffset..]))
  {
    cursor := stored;
    if cursor.fileIdentity != "" && cursor.fileIdentity != identity {
      cursor := NO_METRIC_CURSOR;
    }
    cursor := cursor.(fileIdentity := identity);
    if cursor.byteOffset > |bytes| {
      cursor := cursor.(byteOffset := 0);
    }
    cursor, events := ScanFrom(config, cutover, bytes, cursor);
  }

  // ----- As a scanner -----

  function MetricScanner(config: Config, cutover: Time, identity: string): Scanner<MetricCursor> {
    Scanner(NO_METRIC_CURSOR.(fileIdentity := identity), (cursor: MetricCursor) => cursor.byteOffset,
            Step(config, cutover))
  }

  lemma {:induction false} IdentityKept(config: Config, cutover: Time, scan: Scan<MetricCursor>, lines: seq<string>)
    ensures Continue(Step(config, cutover), scan, lines).state.fileIdentity == scan.state.fileIdentity
    decreases |lines|
  {
    if |lines| > 0 {
      IdentityKept(config, cutover, Then(scan, Step(config, cutover)(scan.state, lines[0])), lines[1..]);
    }
  }

  /** Opening the file again leaves a cursor of that file, or the absent one, where one scan would be. */
  lemma OpenedFaithful(config: Config, cutover: Time, identity: string, file: string, stored: MetricCursor)
    requires
      || stored == NO_METRIC_CURSOR
      || Faithful(MetricScanner(config, cutover, identity), file, stored)
    ensures Faithful(MetricScanner(config, cutover, identity), file, Opened(stored, identity, |file|))
  {
    var scanner := MetricScanner(config, cutover, identity);
    if stored == NO_METRIC_CURSOR {
      assert file[..0] == "";
    } else {
      IdentityKept(config, cutover, Scan(scanner.init, [], []), Lines(file[..stored.byteOffset]));
    }
  }

  /** The token scanner resumes as any scanner does: whatever the schedule, its rows are those of one scan of the
      longest committed prefix, the first completion of a turn winning. */
  lemma MetricsAnySchedule(config: Config, cutover: Time, identity: string, trace: seq<System<MetricCursor>>,
                           actions: seq<Action<MetricCursor>>, i: nat)
    requires Schedule(MetricScanner(config, cutover, identity), trace, actions) && i < |trace|
    ensures trace[i].committed <= |trace[i].file|
    ensures Faithful(MetricScanner(config, cutover, identity), trace[i].file, trace[i].stored)
    ensures trace[i].table ==
            InsertAll(map[], Events(MetricScanner(config, cutover, identity), trace[i].file, trace[i].committed))
  {
    AnySchedule(MetricScanner(config, cutover, identity), trace, actions, i);
  }

  // ----- Token conservation -----

  /** The units of a stretch of records. */
  function Units(config: Config, cutover: Time, state: MetricState, records: seq<Decoded>): seq<Unit>
    decreases |records|
  {
    if |records| == 0 then []
    else
      var unit := UnitOfRecord(config, cutover, state, records[0]);
      (if unit.Some? then [unit.value] else [])
          + Units(config, cutover, StateAfter(config, state, records[0]), records[1..])
  }

  function Decode(config: Config, lines: seq<string>): (records: seq<Decoded>)
    ensures |records| == |lines|
    ensures forall i :: 0 <= i < |lines| ==> records[i] == config.decode(lines[i])
  {
    seq(|lines|, (i: nat) requires i < |lines| => config.decode(lines[i]))
  }

  /** A scan emits the events of the units of its records. */
  lemma {:induction false} ScanEmitsUnits(config: Config, cutover: Time, cursor: MetricCursor, lines: seq<string>)
    ensures Continue(Step(config, cutover), Scan(cursor, [], []), lines).events ==
            EventsOf(Units(config, cutover, cursor.state, Decode(config, lines)))
    decreases |lines|
  {
    if |lines| > 0 {
      var scan := StepLine(config, cutover, cursor, lines[0]);
      var records := Decode(config, lines);
      assert records[1..] == Decode(config, lines[1..]);
      assert Then(Scan(cursor, [], []), scan) == scan;
      ContinueCarries(Step(config, cutover), scan, lines[1..]);
      ScanEmitsUnits(config, cutover, scan.state, lines[1..]);
      var unit := UnitOfRecord(config, cutover, cursor.state, records[0]);
      var rest := Units(config, cutover, scan.state.state, records[1..]);
      if unit.Some? {
        EventsOfCons(unit.value, rest);
      } else {
        assert [] + rest == rest;
      }
    }
  }

  /** What a record means for the counters. */
  datatype Mark = Count(total: Tokens) | Started | Ended | Other

  function MarkOf(record: Decoded): Mark {
    if Says(record, "token_count") then Count(record.payload.total)
    else if Says(record, "task_started") then Started
    else if Says(record, "task_complete") then Ended
    else Other
  }

  function Marks(records: seq<Decoded>): (marks: seq<Mark>)
    ensures |marks| == |records|
    ensures forall i :: 0 <= i < |records| ==> marks[i] == MarkOf(records[i])
  {
    seq(|records|, (i: nat) requires i < |records| => MarkOf(records[i]))
  }

  /** The next start or completion is a completion. */
  predicate Completes(marks: seq<Mark>) {
    |marks| > 0 && (marks[0].Ended? || (!marks[0].Started? && Completes(marks[1..])))
  }

  function Now(mark: Mark, current: Tokens): Tokens {
    if mark.Count? then mark.total else current
  }

  /** The growth of the counters that belongs to a turn that completes, or that does not: what each count adds
      to the one before it. */
  function Growth(marks: seq<Mark>, current: Tokens, completed: bool): Tokens {
    if |marks| == 0 then NO_TOKENS
    else
      var now := Now(marks[0], current);
      var rest := Growth(marks[1..], now, completed);
      if Completes(marks[1..]) == completed then now.Minus(current).Plus(rest) else rest
  }

  function FinalTotal(marks: seq<Mark>, current: Tokens): Tokens {
    if |marks| == 0 then current else FinalTotal(marks[1..], Now(marks[0], current))
  }

  /** Both growths together telescope to the change of the counters. */
  lemma {:induction false} GrowthTelescopes(marks: seq<Mark>, current: Tokens)
    ensures Growth(marks, current, true).Plus(Growth(marks, current, false)) ==
              FinalTotal(marks, current).Minus(current)
    decreases |marks|
  {
    if |marks| > 0 {
      var now := Now(marks[0], current);
      GrowthTelescopes(marks[1..], now);
      Telescope(Growth(marks[1..], now, true), Growth(marks[1..], now, false), FinalTotal(marks[1..], now), now,
                current);
    }
  }

  lemma Telescope(a: Tokens, b: Tokens, last: Tokens, now: Tokens, current: Tokens)
    requires a.Plus(b) == last.Minus(now)
    ensures now.Minus(current).Plus(a).Plus(b) == last.Minus(current)
    ensures a.Plus(now.Minus(current).Plus(b)) == last.Minus(current)
  {
  }

  /** Counters never fall, and every completion is reported. */
  predicate Regular(config: Config, cutover: Time, state: MetricState, records: seq<Decoded>)
    decreases |records|
  {
    |records| > 0 ==>
      && (Says(records[0], "token_count") ==> state.current.AtMost(records[0].payload.total))
      && (Says(records[0], "task_complete") ==> UnitOfRecord(config, cutover, state, records[0]).Some?)
      && Regular(config, cutover, StateAfter(config, state, records[0]), records[1..])
  }

  /** The usage reported again by completions of turns in which nothing grew. */
  function Repeated(config: Config, state: MetricState, records: seq<Decoded>): Tokens
    decreases |records|
  {
    if |records| == 0 then NO_TOKENS
    else
      var rest := Repeated(config, StateAfter(config, state, records[0]), records[1..]);
      if MarkOf(records[0]).Ended? && state.current == state.baseline then state.last.Plus(rest) else rest
  }

  function UsageOf(units: seq<Unit>): Tokens {
    if |units| == 0 then NO_TOKENS else units[0].run.tokens.Plus(UsageOf(units[1..]))
  }

  lemma UsageOfCons(unit: Unit, units: seq<Unit>)
    ensures UsageOf([unit] + units) == unit.run.tokens.Plus(UsageOf(units))
  {
    assert ([unit] + units)[1..] == units;
  }

  lemma GrowthIsDelta(current: Tokens, baseline: Tokens)
    requires baseline.AtMost(current)
    ensures TokenDelta(current, baseline) == current.Minus(baseline)
    ensures current != baseline ==> TokenDelta(current, baseline) != NO_TOKENS
  {
  }

  lemma StateMarks(config: Config, cutover: Time, state: MetricState, record: Decoded)
    requires state.baseline.AtMost(state.current)
    requires Says(record, "task_complete") ==> UnitOfRecord(config, cutover, state, record).Some?
    ensures
      var next, mark := StateAfter(config, state, record), MarkOf(record);
      && next.current == Now(mark, state.current)
      && next.baseline == (if mark.Started? || mark.Ended? then state.current else state.baseline)
      && (UnitOfRecord(config, cutover, state, record).Some? <==> mark.Ended?)
      && (mark.Ended? ==> UnitOfRecord(config, cutover, state, record).value.run.tokens ==
                          if state.current == state.baseline then state.last else state.current.Minus(state.baseline))
  {
    GrowthIsDelta(state.current, state.baseline);
  }

  lemma RegularCons(config: Config, cutover: Time, state: MetricState, record: Decoded, rest: seq<Decoded>,
                    next: MetricState)
    requires next == StateAfter(config, state, record)
    ensures Regular(config, cutover, state, [record] + rest) <==>
              && (Says(record, "token_count") ==> state.current.AtMost(record.payload.total))
              && (Says(record, "task_complete") ==> UnitOfRecord(config, cutover, state, record).Some?)
              && Regular(config, cutover, next, rest)
  {
    assert ([record] + rest)[1..] == rest;
  }

  /** What a completion repeats. */
  function RepeatedAt(state: MetricState, record: Decoded): Tokens {
    if Says(record, "task_complete") && state.current == state.baseline then state.last else NO_TOKENS
  }

  lemma RepeatedCons(config: Config, state: MetricState, record: Decoded, rest: seq<Decoded>, next: MetricState)
    requires next == StateAfter(config, state, record)
    ensures Repeated(config, state, [record] + rest) ==
            RepeatedAt(state, record).Plus(Repeated(config, next, rest))
  {
    assert ([record] + rest)[1..] == rest;
    NothingAdded(Repeated(config, next, rest));
  }

  lemma NothingAdded(a: Tokens)
    ensures NO_TOKENS.Plus(a) == a
  {
  }

  lemma MarksCons(record: Decoded, rest: seq<Decoded>)
    ensures Marks([record] + rest) == [MarkOf(record)] + Marks(rest)
  {
  }

  lemma GrowthCons(mark: Mark, marks: seq<Mark>, current: Tokens, now: Tokens)
    requires now == Now(mark, current)
    ensures Completes([mark] + marks) <==> mark.Ended? || (!mark.Started? && Completes(marks))
    ensures Growth([mark] + marks, current, true) ==
            if Completes(marks) then now.Minus(current).Plus(Growth(marks, now, true)) else Growth(marks, now, true)
  {
    assert ([mark] + marks)[1..] == marks;
  }

  /** The usage of the unit that a record completes. */
  function UsageAt(config: Config, cutover: Time, state: MetricState, record: Decoded): Tokens {
    var unit := UnitOfRecord(config, cutover, state, record);
    if unit.Some? then unit.value.run.tokens else NO_TOKENS
  }

  lemma UnitsCons(config: Config, cutover: Time, state: MetricState, record: Decoded, rest: seq<Decoded>,
                  next: MetricState)
    requires next == StateAfter(config, state, record)
    ensures UsageOf(Units(config, cutover, state, [record] + rest)) ==
            UsageAt(config, cutover, state, record).Plus(UsageOf(Units(config, cutover, next, rest)))
  {
    assert ([record] + rest)[1..] == rest;
    UsageOfOptional(UnitOfRecord(config, cutover, state, record), Units(config, cutover, next, rest));
  }

  /** What the units of the records are said to add up to. */
  function Expected(config: Config, state: MetricState, records: seq<Decoded>): Tokens {
    (if Completes(Marks(records)) then state.current.Minus(state.baseline) else NO_TOKENS)
      .Plus(Growth(Marks(records), state.current, true)).Plus(Repeated(config, state, records))
  }

  lemma ExpectedCons(config: Config, cutover: Time, state: MetricState, record: Decoded, rest: seq<Decoded>,
                     next: MetricState)
    requires next == StateAfter(config, state, record) && state.baseline.AtMost(state.current)
    requires Says(record, "task_complete") ==> UnitOfRecord(config, cutover, state, record).Some?
    ensures Expected(config, state, [record] + rest) ==
            UsageAt(config, cutover, state, record).Plus(Expected(config, next, rest))
  {
    StateMarks(config, cutover, state, record);
    MarksCons(record, rest);
    GrowthCons(MarkOf(record), Marks(rest), state.current, next.current);
    RepeatedCons(config, state, record, rest, next);
    MarkUsage(state, next, MarkOf(record), Completes(Marks(rest)), Growth(Marks(rest), next.current, true),
              UsageAt(config, cutover, state, record), Expected(config, next, rest), Repeated(config, next, rest));
  }

  lemma OneMoreRecord(config: Config, cutover: Time, state: MetricState, record: Decoded, rest: seq<Decoded>,
                      next: MetricState)
    requires next == StateAfter(config, state, record) && state.baseline.AtMost(state.current)
    requires Says(record, "task_complete") ==> UnitOfRecord(config, cutover, state, record).Some?
    requires UsageOf(Units(config, cutover, next, rest)) == Expected(config, next, rest)
    ensures UsageOf(Units(config, cutover, state, [record] + rest)) == Expected(config, state, [record] + rest)
  {
    UnitsCons(config, cutover, state, record, rest, next);
    ExpectedCons(config, cutover, state, record, rest, next);
  }

  lemma NextRegular(config: Config, cutover: Time, state: MetricState, record: Decoded, rest: seq<Decoded>,
                    next: MetricState)
    requires next == StateAfter(config, state, record) && state.baseline.AtMost(state.current)
    requires Regular(config, cutover, state, [record] + rest)
    ensures Says(record, "task_complete") ==> UnitOfRecord(config, cutover, state, record).Some?
    ensures Regular(config, cutover, next, rest) && next.baseline.AtMost(next.current)
  {
    RegularCons(config, cutover, state, record, rest, next);
    StateMarks(config, cutover, state, record);
  }

  lemma {:induction false} UsageExpected(config: Config, cutover: Time, state: MetricState, records: seq<Decoded>)
    requires Regular(config, cutover, state, records) && state.baseline.AtMost(state.current)
    ensures UsageOf(Units(config, cutover, state, records)) == Expected(config, state, records)
    decreases |records|
  {
    if |records| > 0 {
      var record, rest := records[0], records[1..];
      var next := StateAfter(config, state, record);
      assert records == [record] + rest;
      NextRegular(config, cutover, state, record, rest, next);
      UsageExpected(config, cutover, next, rest);
      OneMoreRecord(config, cutover, state, record, rest, next);
    }
  }

  /** What is emitted is the growth within completed turns, nothing twice, plus what turns without growth repeat. */
  lemma EmittedUsage(config: Config, cutover: Time, state: MetricState, records: seq<Decoded>)
    requires Regular(config, cutover, state, records) && state.baseline.AtMost(state.current)
    ensures UsageOf(Units(config, cutover, state, records)) ==
            (if Completes(Marks(records)) then state.current.Minus(state.baseline) else NO_TOKENS)
              .Plus(Growth(Marks(records), state.current, true)).Plus(Repeated(config, state, records))
  {
    UsageExpected(config, cutover, state, records);
  }

  lemma MarkUsage(state: MetricState, next: MetricState, mark: Mark, completes: bool, growth: Tokens,
                  usage: Tokens, later: Tokens, repeated: Tokens)
    requires next.current == Now(mark, state.current)
    requires next.baseline == (if mark.Started? || mark.Ended? then state.current else state.baseline)
    requires usage == (if !mark.Ended? then NO_TOKENS else if state.current == state.baseline then state.last
                       else state.current.Minus(state.baseline))
    requires later == (if completes then next.current.Minus(next.baseline) else NO_TOKENS).Plus(growth).Plus(repeated)
    ensures usage.Plus(later) ==
            (if mark.Ended? || (!mark.Started? && completes) then state.current.Minus(state.baseline) else NO_TOKENS)
              .Plus(if completes then next.current.Minus(state.current).Plus(growth) else growth)
              .Plus(if mark.Ended? && state.current == state.baseline then state.last.Plus(repeated) else repeated)
  {
  }

  lemma UsageOfOptional(unit: Option<Unit>, units: seq<Unit>)
    ensures UsageOf((if unit.Some? then [unit.value] else []) + units) ==
            (if unit.Some? then unit.value.run.tokens else NO_TOKENS).Plus(UsageOf(units))
  {
    if unit.Some? {
      UsageOfCons(unit.value, units);
    } else {
      assert [] + units == units;
    }
  }

  /** Emitted tokens, and growth outside completed turns, add up to the final counters if and only if no
      completion without growth repeats a usage. */
  lemma RegularConserved(config: Config, cutover: Time, records: seq<Decoded>)
    requires Regular(config, cutover, NO_METRICS, records)
    ensures
      var emitted := UsageOf(Units(config, cutover, NO_METRICS, records));
      var outside := Growth(Marks(records), NO_TOKENS, false);
      emitted.Plus(outside) == FinalTotal(Marks(records), NO_TOKENS) <==>
          Repeated(config, NO_METRICS, records) == NO_TOKENS
  {
    EmittedUsage(config, cutover, NO_METRICS, records);
    GrowthTelescopes(Marks(records), NO_TOKENS);
  }

  // ----- Through the projector and into the report -----

  lemma MetricIdsDiffer(naming: Naming, runId: string)
    requires CollisionFree(naming)
    ensures
      var session, start := EventId(naming, "metric", runId, "session"), EventId(naming, "metric", runId, "start");
      var tokens, complete := EventId(naming, "metric", runId, "tokens"), EventId(naming, "metric", runId, "complete");
      session != start && session != tokens && session != complete && start != tokens && start != complete
          && tokens != complete
  {
    EventIdsDiffer(naming, "metric", runId, "session", runId, "start");
    EventIdsDiffer(naming, "metric", runId, "session", runId, "tokens");
    EventIdsDiffer(naming, "metric", runId, "session", runId, "complete");
    EventIdsDiffer(naming, "metric", runId, "start", runId, "tokens");
    EventIdsDiffer(naming, "metric", runId, "start", runId, "complete");
    EventIdsDiffer(naming, "metric", runId, "tokens", runId, "complete");
  }

  lemma MetricsInSequence(config: Config, state: MetricState, at: Time, usage: Tokens)
    requires CollisionFree(config.naming)
    ensures InSequence(MetricEvents(config, state, at, usage))
  {
    MetricIdsDiffer(config.naming, MetricRunId(config.naming, state));
    var events := MetricEvents(config, state, at, usage);
    FourInSequence(events[0], events[1], events[2], events[3]);
  }

  lemma FourInSequence(a: Event, b: Event, c: Event, d: Event)
    requires a.id != "" && b.id != "" && c.id != "" && d.id != ""
    requires a.id != b.id && a.id != c.id && a.id != d.id && b.id != c.id && b.id != d.id && c.id != d.id
    requires a.sessionId == b.sessionId == c.sessionId == d.sessionId
    requires a.sequence < b.sequence < c.sequence < d.sequence
    ensures InSequence([a, b, c, d])
  {
  }

  lemma MetricUnitWellFormed(config: Config, state: MetricState, at: Time, usage: Tokens)
    requires CollisionFree(config.naming)
    ensures WellFormed(MetricUnit(config, state, at, usage))
  {
    var unit := MetricUnit(config, state, at, usage);
    MetricsInSequence(config, state, at, usage);
    WellFormedFour(unit, unit.events[0], unit.events[1], unit.events[2], unit.events[3]);
  }

  lemma MetricUnitNamed(config: Config, state: MetricState, at: Time, usage: Tokens)
    ensures NamedAfter(config.naming, "metric", MetricUnit(config, state, at, usage))
  {
  }

  /** Every unit is momentary, well formed and named after its run. */
  ghost predicate Momentary(config: Config, unit: Unit) {
    && WellFormed(unit) && NamedAfter(config.naming, "metric", unit)
    && unit.run.sessionId == "metrics:" + unit.run.id
    && unit.run.endedAt == Some(unit.run.startedAt)
  }

  lemma {:induction false} UnitsMomentary(config: Config, cutover: Time, state: MetricState, records: seq<Decoded>)
    requires CollisionFree(config.naming)
    ensures forall unit :: unit in Units(config, cutover, state, records) ==> Momentary(config, unit)
    decreases |records|
  {
    if |records| > 0 {
      UnitsMomentary(config, cutover, StateAfter(config, state, records[0]), records[1..]);
      if Says(records[0], "task_complete") {
        var done := Completing(state, records[0].payload);
        var at := if records[0].payload.completedAt.Some? then records[0].payload.completedAt.value
                  else records[0].timestamp;
        MetricUnitWellFormed(config, done, at, Usage(done));
        MetricUnitNamed(config, done, at, Usage(done));
      }
    }
  }

  /** No turn completes twice: the runs have different ids. */
  ghost predicate DistinctRuns(units: seq<Unit>) {
    forall i, j :: 0 <= i < j < |units| ==> units[i].run.id != units[j].run.id
  }

  lemma MomentaryApart(config: Config, units: seq<Unit>)
    requires CollisionFree(config.naming) && DistinctRuns(units)
    requires forall unit :: unit in units ==> Momentary(config, unit)
    ensures AllApart(units)
  {
    forall i | 0 <= i < |units|
      ensures WellFormed(units[i])
    {
      assert Momentary(config, units[i]);
    }
    forall i, j | 0 <= i < j < |units|
      ensures Apart(units[i], units[j])
    {
      assert Momentary(config, units[i]) && Momentary(config, units[j]);
      DifferentRunsApart(config.naming, "metric", "metrics:", units[i], units[j]);
    }
  }

  lemma {:induction false} UsageIsSum(units: seq<Unit>)
    ensures UsageOf(units) == Measures.TokensOf(RunsOf(units))
  {
    if |units| > 0 {
      var front, last := units[..|units| - 1], units[|units| - 1];
      UsageIsSum(front);
      UsageOfSnoc(front, last);
      assert units == front + [last];
      SumTokensSnoc(Measures.AllTokens(), RunsOf(front), last.run);
    }
  }

  lemma {:induction false} UsageOfSnoc(units: seq<Unit>, unit: Unit)
    ensures UsageOf(units + [unit]) == UsageOf(units).Plus(unit.run.tokens)
  {
    if |units| == 0 {
      assert units + [unit] == [unit] && [unit][1..] == [];
    } else {
      UsageOfSnoc(units[1..], unit);
      assert (units + [unit])[1..] == units[1..] + [unit];
    }
  }

  /** Projecting momentary units of different runs and adding them to any report adds exactly their tokens, and leaves
      every time, the concurrency of every instant and the number of runs as they were. */
  lemma MomentaryAdd(config: Config, units: seq<Unit>, result: seq<Run>, others: seq<Run>,
                     now: Time, from: Time, to: Time)
    requires CollisionFree(config.naming) && DistinctRuns(units)
    requires forall unit :: unit in units ==> Momentary(config, unit)
    requires Projector.ListsRuns(result, Projection.ProjectedRuns(EventsOf(units)))
    requires forall run :: run in result ==> from <= run.startedAt < to
    ensures Summaries.TokensIn(others + result, now, from, to) ==
            Summaries.TokensIn(others, now, from, to).Plus(UsageOf(units))
    ensures SameTimes(others + result, others, now, from, to)
  {
    MomentaryApart(config, units);
    ListedUnits(units, result);
    ResultMomentary(config, units, result);
    Measures.NoLengthAddsTokensOnly(others, result, now, from, to);
  }

  /** Two lists of runs show the same times, concurrency and number of runs. */
  ghost predicate SameTimes(a: seq<Run>, b: seq<Run>, now: Time, from: Time, to: Time) {
    && Summaries.SessionAgentTime(a, now, from, to) == Summaries.SessionAgentTime(b, now, from, to)
    && Summaries.AgentTime(a, now, from, to) == Summaries.AgentTime(b, now, from, to)
    && Summaries.WallClock(a, now, from, to) == Summaries.WallClock(b, now, from, to)
    && (forall t :: Summaries.ActiveAt(a, now, t) == Summaries.ActiveAt(b, now, t))
    && Summaries.VisibleRuns(a, now, from, to) == Summaries.VisibleRuns(b, now, from, to)
  }

  lemma ResultMomentary(config: Config, units: seq<Unit>, result: seq<Run>)
    requires multiset(result) == multiset(RunsOf(units))
    requires forall unit :: unit in units ==> Momentary(config, unit)
    ensures Measures.NoLength(result)
    ensures Measures.TokensOf(result) == UsageOf(units)
  {
    Measures.SameMembers(result, RunsOf(units));
    forall run | run in result
      ensures run.endedAt == Some(run.startedAt)
    {
      var i :| 0 <= i < |units| && RunsOf(units)[i] == run;
      assert Momentary(config, units[i]);
    }
    UsageIsSum(units);
    SumTokensPermutation(Measures.AllTokens(), result, RunsOf(units));
  }
}
