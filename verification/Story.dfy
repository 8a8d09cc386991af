/** From what a transcript says happened to the runs that are projected from it. */
module Story {
  import opened Domain
  import opened LocalTables
  import opened Scanning
  import opened Transcript
  import opened WorkUnits
  import EventOrder
  import P = Projection
  import Parser

  /** A turn of the transcript, in lines: what comes before it, its start, what happens in it, and its completion. */
  datatype Turn = Turn(gap: seq<string>, start: string, body: seq<string>, end: string)

  function TurnLines(turn: Turn): seq<string> {
    turn.gap + ([turn.start] + turn.body + [turn.end])
  }

  function AllLines(opening: string, turns: seq<Turn>): seq<string> {
    if |turns| == 0 then [opening] else AllLines(opening, turns[..|turns| - 1]) + TurnLines(turns[|turns| - 1])
  }

  // ----- What a record says -----

  /** The record names the session of the transcript. */
  predicate Opens(record: Decoded, s: string) {
    record.Record? && record.kind == "session_meta" && SessionNamed(record.payload) == s != ""
  }

  /** The record neither starts nor completes a turn, and names no other session. */
  predicate Quiet(record: Decoded, s: string) {
    && !Says(record, "task_started") && !Says(record, "task_complete")
    && (record.Record? && record.kind == "session_meta" ==> SessionNamed(record.payload) in {"", s})
    && (record.Record? && record.kind == "turn_context" ==> record.payload.sessionId in {"", s})
  }

  /** The record says in which directory the work goes on. */
  predicate Moves(record: Decoded) {
    && record.Record? && record.payload.cwd != ""
    && (record.kind == "turn_context" || (record.kind == "session_meta" && SessionNamed(record.payload) != ""))
  }

  /** The directory named last. */
  function DirectoryAfter(config: Config, lines: seq<string>): string {
    if |lines| == 0 then ""
    else
      var record := config.decode(lines[|lines| - 1]);
      if Moves(record) then record.payload.cwd else DirectoryAfter(config, lines[..|lines| - 1])
  }

  function ProjectAfter(config: Config, lines: seq<string>): ProjectInfo {
    if DirectoryAfter(config, lines) == "" then NO_PROJECT else config.resolve(DirectoryAfter(config, lines))
  }

  /** The usage counted last. */
  function UsageIn(config: Config, lines: seq<string>): Tokens {
    if |lines| == 0 then NO_TOKENS
    else
      var record := config.decode(lines[|lines| - 1]);
      if Says(record, "token_count") then record.payload.last else UsageIn(config, lines[..|lines| - 1])
  }

  predicate SetsContext(record: Decoded) {
    record.Record? && record.kind == "turn_context" && record.payload.turnId != ""
  }

  /** The model set last, and the effort. */
  function ModelIn(config: Config, lines: seq<string>): string {
    if |lines| == 0 then ""
    else
      var record := config.decode(lines[|lines| - 1]);
      if SetsContext(record) && record.payload.model != "" then record.payload.model
      else ModelIn(config, lines[..|lines| - 1])
  }

  function EffortIn(config: Config, lines: seq<string>): string {
    if |lines| == 0 then ""
    else
      var record := config.decode(lines[|lines| - 1]);
      if SetsContext(record) && record.payload.effort != "" then record.payload.effort
      else EffortIn(config, lines[..|lines| - 1])
  }

  /** The record yields an event. */
  predicate Yields(record: Decoded) {
    || Says(record, "token_count") || SetsContext(record)
    || (record.Record? && record.kind == "session_meta" && SessionNamed(record.payload) != "")
  }

  /** The latest time at which the lines report something, and at least `start`. */
  function LatestIn(config: Config, start: Time, lines: seq<string>): Time {
    if |lines| == 0 then start
    else
      var record, earlier := config.decode(lines[|lines| - 1]), LatestIn(config, start, lines[..|lines| - 1]);
      if Yields(record) then Later(earlier, record.timestamp) else earlier
  }

  predicate QuietLines(config: Config, lines: seq<string>, s: string) {
    forall line :: line in lines ==> Quiet(config.decode(line), s)
  }

  function NativeId(config: Config, turn: Turn): string {
    var record := config.decode(turn.start);
    if record.Record? then record.payload.turnId else ""
  }

  /** The turn starts under an id of its own, and is completed under that id or under none. */
  predicate GoodTurn(config: Config, turn: Turn, s: string) {
    var start, end := config.decode(turn.start), config.decode(turn.end);
    && Says(start, "task_started") && start.payload.turnId != ""
    && Says(end, "task_complete") && end.payload.turnId in {"", start.payload.turnId}
    && QuietLines(config, turn.gap, s) && QuietLines(config, turn.body, s)
  }

  predicate GoodTurns(config: Config, turns: seq<Turn>, s: string) {
    && (forall i :: 0 <= i < |turns| ==> GoodTurn(config, turns[i], s))
    && (forall i, j :: 0 <= i < j < |turns| ==> NativeId(config, turns[i]) != NativeId(config, turns[j]))
  }

  function RunIdOf(config: Config, s: string, native: string): string {
    config.naming.uuid(["run", s, native])
  }

  function TurnId(config: Config, s: string, turn: Turn): string {
    RunIdOf(config, s, NativeId(config, turn))
  }

  /** What happened in a turn, after the given lines of the transcript. */
  function TurnRun(config: Config, s: string, before: seq<string>, turn: Turn): Run
    requires GoodTurn(config, turn, s)
  {
    var start, end := StartedAt(config.decode(turn.start)), CompletedAt(config.decode(turn.end));
    var ended := if end < start then start else end;
    Run(TurnId(config, s, turn), s, ProjectAfter(config, before + turn.gap).id,
        start, Some(ended), ended, Completed, ModelIn(config, turn.body), EffortIn(config, turn.body),
        UsageIn(config, turn.body), ExplicitCompletion)
  }

  /** The run of a turn is there as it happened. */
  ghost predicate HasTurn(config: Config, runs: map<string, Run>, opening: string, turns: seq<Turn>, s: string, i: nat)
    requires i < |turns| && GoodTurn(config, turns[i], s)
  {
    && TurnId(config, s, turns[i]) in runs
    && runs[TurnId(config, s, turns[i])] == TurnRun(config, s, AllLines(opening, turns[..i]), turns[i])
  }

  /** One run for each turn, and no others. */
  ghost predicate RunsAreTurns(config: Config, runs: map<string, Run>, opening: string, turns: seq<Turn>, s: string)
    requires GoodTurns(config, turns, s)
  {
    && (forall i :: 0 <= i < |turns| ==> HasTurn(config, runs, opening, turns, s, i))
    && (forall id :: id in runs ==> exists i :: 0 <= i < |turns| && id == TurnId(config, s, turns[i]))
  }

  // ----- One line -----

  /** Where the parser is after the given lines. */
  ghost predicate At(config: Config, scan: Scan<Cursor>, lines: seq<string>, s: string) {
    && scan.state.sessionId == s && scan.state.project == ProjectAfter(config, lines)
    && scan.state.cwd == (if config.storePaths then DirectoryAfter(config, lines) else "")
    && forall e :: e in scan.events ==> e.sessionId == s
  }

  function After(config: Config, scan: Scan<Cursor>, line: string): Scan<Cursor> {
    Then(scan, Parser.StepLine(config, scan.state, line))
  }

  /** What the event of a quiet record sets. */
  predicate Reports(e: Event, record: Decoded, s: string) {
    && e.sessionId == s && record.Record? && e.occurredAt == record.timestamp
    && (Says(record, "token_count") ==>
          e.kind == TokenUsage && e.runId == "" && e.payload.usage == record.payload.last)
    && (SetsContext(record) ==>
          e.kind == Lease && e.payload.model == record.payload.model && e.payload.effort == record.payload.effort)
    && (!Says(record, "token_count") && !SetsContext(record) ==>
          e.kind == SessionStarted && e.payload.model == "" && e.payload.effort == "")
  }

  lemma DirectorySnoc(config: Config, lines: seq<string>, line: string)
    ensures DirectoryAfter(config, lines + [line]) ==
            if Moves(config.decode(line)) then config.decode(line).payload.cwd else DirectoryAfter(config, lines)
  {
    assert (lines + [line])[..|lines|] == lines;
  }

  lemma QuietEvents(config: Config, cursor: Cursor, line: string, s: string)
    requires s != "" && cursor.sessionId == s && Quiet(config.decode(line), s)
    ensures
      var record, step := config.decode(line), Parser.StepLine(config, cursor, line);
      if Yields(record) then |step.events| == 1 && Reports(step.events[0], record, s) else step.events == []
  {
  }

  lemma QuietState(config: Config, cursor: Cursor, line: string, s: string)
    requires s != "" && cursor.sessionId == s && Quiet(config.decode(line), s)
    ensures
      var record, state := config.decode(line), Parser.StepLine(config, cursor, line).state;
      && state.sessionId == s
      && state.project == (if Moves(record) then config.resolve(record.payload.cwd) else cursor.project)
      && state.cwd == (if !Moves(record) then cursor.cwd else if config.storePaths then record.payload.cwd else "")
  {
  }

  lemma QuietLine(config: Config, scan: Scan<Cursor>, lines: seq<string>, line: string, s: string)
    requires s != "" && At(config, scan, lines, s) && Quiet(config.decode(line), s)
    ensures
      var record, next := config.decode(line), After(config, scan, line);
      && At(config, next, lines + [line], s)
      && (!Yields(record) ==> next.events == scan.events)
      && (Yields(record) ==> exists e :: next.events == scan.events + [e] && Reports(e, record, s))
  {
    DirectorySnoc(config, lines, line);
    QuietEvents(config, scan.state, line, s);
    QuietState(config, scan.state, line, s);
    var events := Parser.StepLine(config, scan.state, line).events;
    if Yields(config.decode(line)) {
      assert events == [events[0]];
    } else {
      assert scan.events + [] == scan.events;
    }
  }

  lemma OpeningLine(config: Config, cursor: Cursor, line: string, s: string) returns (e: Event)
    requires Opens(config.decode(line), s) && cursor.project == NO_PROJECT && cursor.cwd == ""
    ensures After(config, Scan(cursor, [], []), line).events == [e] && e.kind == SessionStarted && e.sessionId == s
    ensures At(config, After(config, Scan(cursor, [], []), line), [line], s)
  {
    var step := Parser.StepLine(config, cursor, line);
    e := step.events[0];
    assert [line][..0] == [];
    assert DirectoryAfter(config, [line]) == if Moves(config.decode(line)) then config.decode(line).payload.cwd else "";
  }

  lemma StartLine(config: Config, scan: Scan<Cursor>, lines: seq<string>, line: string, s: string)
      returns (e: Event)
    requires s != "" && At(config, scan, lines, s) && Says(config.decode(line), "task_started")
    requires config.decode(line).payload.turnId != ""
    ensures After(config, scan, line).events == scan.events + [e]
    ensures At(config, After(config, scan, line), lines + [line], s)
    ensures e.kind == RunStarted && e.sessionId == s
    ensures e.runId == RunIdOf(config, s, config.decode(line).payload.turnId)
    ensures e.occurredAt == StartedAt(config.decode(line)) && e.payload.project.id == ProjectAfter(config, lines).id
    ensures e.payload.model == "" && e.payload.effort == ""
  {
    DirectorySnoc(config, lines, line);
    e := Parser.StepLine(config, scan.state, line).events[0];
  }

  lemma EndLine(config: Config, scan: Scan<Cursor>, lines: seq<string>, line: string, s: string)
      returns (e: Event)
    requires s != "" && At(config, scan, lines, s) && Says(config.decode(line), "task_complete")
    ensures After(config, scan, line).events == scan.events + [e]
    ensures At(config, After(config, scan, line), lines + [line], s)
    ensures e.kind == RunCompleted && e.sessionId == s && e.occurredAt == CompletedAt(config.decode(line))
    ensures
      var native := config.decode(line).payload.turnId;
      e.runId == if native == "" then "" else RunIdOf(config, s, native)
  {
    DirectorySnoc(config, lines, line);
    e := Parser.StepLine(config, scan.state, line).events[0];
  }

  // ----- One event -----

  lemma IdleStep(done: map<string, Run>, e: Event, record: Decoded, s: string)
    requires P.State(done, map[]).Valid() && Yields(record) && Reports(e, record, s)
    ensures P.Step(P.State(done, map[]), e) == P.State(done, map[])
  {
  }

  /** The session is in one open run, and the other runs are done. */
  function InTurn(done: map<string, Run>, run: Run, s: string): P.State {
    P.State(done[run.id := run], map[s := run.id])
  }

  /** The run goes on, with what the record sets. */
  predicate GoesOn(run: Run, next: Run, record: Decoded) {
    && next == run.(model := next.model, effort := next.effort, tokens := next.tokens,
                    lastActivityAt := next.lastActivityAt)
    && record.Record? && next.lastActivityAt == Later(run.lastActivityAt, record.timestamp)
    && next.tokens == (if Says(record, "token_count") then record.payload.last else run.tokens)
    && next.model == (if SetsContext(record) && record.payload.model != "" then record.payload.model else run.model)
    && next.effort == (if SetsContext(record) && record.payload.effort != "" then record.payload.effort
                       else run.effort)
  }

  lemma BusyStep(done: map<string, Run>, run: Run, e: Event, record: Decoded, s: string) returns (next: Run)
    requires InTurn(done, run, s).Valid() && run.id != "" && Yields(record) && Reports(e, record, s)
    ensures P.Step(InTurn(done, run, s), e) == InTurn(done, next, s) && GoesOn(run, next, record)
  {
    next := P.Step(InTurn(done, run, s), e).runs[run.id];
    assert done[run.id := run][run.id := next] == done[run.id := next];
  }

  lemma BeginStep(done: map<string, Run>, e: Event, s: string)
    requires P.State(done, map[]).Valid() && e.kind == RunStarted && e.sessionId == s && e.runId != ""
    requires e.runId !in done
    ensures P.Step(P.State(done, map[]), e) ==
            InTurn(done, Run(e.runId, s, e.payload.project.id, e.occurredAt, None, e.occurredAt, Running,
                             e.payload.model, e.payload.effort, NO_TOKENS, Unclosed), s)
  {
  }

  lemma FinishStep(done: map<string, Run>, run: Run, e: Event, s: string)
    requires InTurn(done, run, s).Valid() && run.id != "" && run.endedAt.None?
    requires e.kind == RunCompleted && e.sessionId == s && e.runId in {"", run.id}
    ensures
      var ended := if e.occurredAt < run.startedAt then run.startedAt else e.occurredAt;
      P.Step(InTurn(done, run, s), e) ==
      P.State(done[run.id := run.(endedAt := Some(ended), lastActivityAt := ended, status := Completed,
                                  closeReason := ExplicitCompletion)], map[])
  {
    var st, ended := InTurn(done, run, s), if e.occurredAt < run.startedAt then run.startedAt else e.occurredAt;
    var closed := run.(endedAt := Some(ended), lastActivityAt := ended, status := Completed,
                       closeReason := ExplicitCompletion);
    assert done[run.id := run][run.id := closed] == done[run.id := closed];
    assert st.active - {s} == map[];
  }

  // ----- Stretches of lines -----

  lemma {:induction false} GapLines(config: Config, scan: Scan<Cursor>, before: seq<string>, lines: seq<string>,
                                    s: string, done: map<string, Run>)
    requires s != "" && At(config, scan, before, s) && QuietLines(config, lines, s)
    requires P.State(done, map[]).Valid() && P.Fold(scan.events) == P.State(done, map[])
    ensures
      var next := Continue(Parser.Step(config), scan, lines);
      At(config, next, before + lines, s) && P.Fold(next.events) == P.State(done, map[])
    decreases |lines|
  {
    if |lines| == 0 {
      assert before + lines == before;
    } else {
      var record, next := config.decode(lines[0]), After(config, scan, lines[0]);
      assert lines[0] in lines && before + lines == (before + [lines[0]]) + lines[1..];
      QuietLine(config, scan, before, lines[0], s);
      if Yields(record) {
        var e :| next.events == scan.events + [e] && Reports(e, record, s);
        IdleStep(done, e, record, s);
        P.FoldSnoc(scan.events, e);
      }
      GapLines(config, next, before + [lines[0]], lines[1..], s, done);
    }
  }

  /** The run as it started, with what the lines of its turn set last. */
  ghost predicate Shows(config: Config, run: Run, start: Run, lines: seq<string>) {
    run == start.(model := ModelIn(config, lines), effort := EffortIn(config, lines), tokens := UsageIn(config, lines),
                  lastActivityAt := LatestIn(config, start.lastActivityAt, lines))
  }

  lemma ShowsNext(config: Config, run: Run, next: Run, start: Run, lines: seq<string>, line: string)
    requires Shows(config, run, start, lines)
    requires if Yields(config.decode(line)) then GoesOn(run, next, config.decode(line)) else next == run
    ensures Shows(config, next, start, lines + [line])
  {
    assert (lines + [line])[..|lines|] == lines;
  }

  lemma BodyLine(config: Config, scan: Scan<Cursor>, before: seq<string>, seen: seq<string>, line: string, s: string,
                 done: map<string, Run>, start: Run, run: Run) returns (next: Run)
    requires s != "" && At(config, scan, before, s) && Quiet(config.decode(line), s)
    requires InTurn(done, run, s).Valid() && run.id != "" && P.Fold(scan.events) == InTurn(done, run, s)
    requires Shows(config, run, start, seen)
    ensures At(config, After(config, scan, line), before + [line], s)
    ensures P.Fold(After(config, scan, line).events) == InTurn(done, next, s) && next.id == run.id
    ensures InTurn(done, next, s).Valid() && Shows(config, next, start, seen + [line])
  {
    var record, after := config.decode(line), After(config, scan, line);
    QuietLine(config, scan, before, line, s);
    next := run;
    if Yields(record) {
      var e :| after.events == scan.events + [e] && Reports(e, record, s);
      next := BusyStep(done, run, e, record, s);
      P.FoldSnoc(scan.events, e);
    }
    ShowsNext(config, run, next, start, seen, line);
  }

  lemma {:induction false} BodyLines(config: Config, scan: Scan<Cursor>, before: seq<string>, seen: seq<string>,
                                     lines: seq<string>, s: string, done: map<string, Run>, start: Run, run: Run)
      returns (last: Run)
    requires s != "" && At(config, scan, before, s) && QuietLines(config, lines, s)
    requires InTurn(done, run, s).Valid() && run.id != "" && P.Fold(scan.events) == InTurn(done, run, s)
    requires Shows(config, run, start, seen)
    ensures
      var next := Continue(Parser.Step(config), scan, lines);
      At(config, next, before + lines, s) && P.Fold(next.events) == InTurn(done, last, s)
    ensures Shows(config, last, start, seen + lines)
    decreases |lines|
  {
    if |lines| == 0 {
      assert before + lines == before && seen + lines == seen;
      last := run;
    } else {
      assert lines[0] in lines && before + lines == (before + [lines[0]]) + lines[1..];
      assert seen + lines == (seen + [lines[0]]) + lines[1..];
      var next := BodyLine(config, scan, before, seen, lines[0], s, done, start, run);
      last := BodyLines(config, After(config, scan, lines[0]), before + [lines[0]], seen + [lines[0]], lines[1..], s,
                        done, start, next);
    }
  }

  lemma ContinueOne(config: Config, scan: Scan<Cursor>, line: string)
    ensures Continue(Parser.Step(config), scan, [line]) == After(config, scan, line)
  {
    assert [line][1..] == [];
  }

  function StartedRun(config: Config, s: string, before: seq<string>, line: string): Run
    requires config.decode(line).Record?
  {
    var record := config.decode(line);
    Run(RunIdOf(config, s, record.payload.turnId), s, ProjectAfter(config, before).id, StartedAt(record),
        None, StartedAt(record), Running, "", "", NO_TOKENS, Unclosed)
  }

  lemma StartTurn(config: Config, scan: Scan<Cursor>, before: seq<string>, line: string, s: string,
                  done: map<string, Run>)
    requires s != "" && At(config, scan, before, s) && CollisionFree(config.naming)
    requires Says(config.decode(line), "task_started") && config.decode(line).payload.turnId != ""
    requires P.State(done, map[]).Valid() && P.Fold(scan.events) == P.State(done, map[])
    requires StartedRun(config, s, before, line).id !in done
    ensures
      var next, run := After(config, scan, line), StartedRun(config, s, before, line);
      At(config, next, before + [line], s) && P.Fold(next.events) == InTurn(done, run, s)
  {
    var e := StartLine(config, scan, before, line, s);
    BeginStep(done, e, s);
    P.FoldSnoc(scan.events, e);
  }

  function FinishedRun(run: Run, end: Time): Run {
    var ended := if end < run.startedAt then run.startedAt else end;
    run.(endedAt := Some(ended), lastActivityAt := ended, status := Completed, closeReason := ExplicitCompletion)
  }

  lemma EndTurn(config: Config, scan: Scan<Cursor>, before: seq<string>, line: string, native: string, s: string,
                done: map<string, Run>, run: Run)
    requires s != "" && At(config, scan, before, s) && Says(config.decode(line), "task_complete")
    requires config.decode(line).payload.turnId in {"", native} && run.id == RunIdOf(config, s, native)
    requires InTurn(done, run, s).Valid() && run.id != "" && run.endedAt.None?
    requires P.Fold(scan.events) == InTurn(done, run, s)
    ensures
      var next, finished := After(config, scan, line), FinishedRun(run, CompletedAt(config.decode(line)));
      At(config, next, before + [line], s) && P.Fold(next.events) == P.State(done[run.id := finished], map[])
  {
    var e := EndLine(config, scan, before, line, s);
    FinishEvent(done, run, e, s, scan.events);
  }

  lemma FinishEvent(done: map<string, Run>, run: Run, e: Event, s: string, events: seq<Event>)
    requires InTurn(done, run, s).Valid() && run.id != "" && run.endedAt.None?
    requires e.kind == RunCompleted && e.sessionId == s && e.runId in {"", run.id}
    requires P.Fold(events) == InTurn(done, run, s)
    ensures P.Fold(events + [e]) == P.State(done[run.id := FinishedRun(run, e.occurredAt)], map[])
  {
    FinishStep(done, run, e, s);
    P.FoldSnoc(events, e);
  }

  lemma BeginTurn(config: Config, scan: Scan<Cursor>, before: seq<string>, turn: Turn, s: string,
                  done: map<string, Run>)
    requires s != "" && At(config, scan, before, s) && GoodTurn(config, turn, s) && CollisionFree(config.naming)
    requires P.State(done, map[]).Valid() && P.Fold(scan.events) == P.State(done, map[])
    requires TurnId(config, s, turn) !in done
    ensures
      var next := After(config, Continue(Parser.Step(config), scan, turn.gap), turn.start);
      && At(config, next, before + turn.gap + [turn.start], s)
      && P.Fold(next.events) == InTurn(done, StartedRun(config, s, before + turn.gap, turn.start), s)
  {
    GapLines(config, scan, before, turn.gap, s, done);
    StartTurn(config, Continue(Parser.Step(config), scan, turn.gap), before + turn.gap, turn.start, s, done);
  }

  lemma RestOfTurn(config: Config, scan: Scan<Cursor>, before: seq<string>, turn: Turn, s: string,
                   done: map<string, Run>, start: Run) returns (run: Run)
    requires s != "" && At(config, scan, before, s) && GoodTurn(config, turn, s) && CollisionFree(config.naming)
    requires start.id == TurnId(config, s, turn) && start.endedAt.None?
    requires start.model == start.effort == "" && start.tokens == NO_TOKENS
    requires P.Fold(scan.events) == InTurn(done, start, s)
    ensures Shows(config, run, start, turn.body)
    ensures
      var next := After(config, Continue(Parser.Step(config), scan, turn.body), turn.end);
      && At(config, next, before + turn.body + [turn.end], s)
      && P.Fold(next.events) ==
         P.State(done[run.id := FinishedRun(run, CompletedAt(config.decode(turn.end)))], map[])
  {
    assert Shows(config, start, start, []);
    run := BodyLines(config, scan, before, [], turn.body, s, done, start, start);
    NothingBefore(turn.body);
    EndTurn(config, Continue(Parser.Step(config), scan, turn.body), before + turn.body, turn.end,
            NativeId(config, turn), s, done, run);
  }

  lemma FinishedIsTurn(config: Config, s: string, before: seq<string>, turn: Turn, run: Run)
    requires GoodTurn(config, turn, s)
    requires Shows(config, run, StartedRun(config, s, before + turn.gap, turn.start), turn.body)
    ensures FinishedRun(run, CompletedAt(config.decode(turn.end))) == TurnRun(config, s, before, turn)
  {
  }

  /** A turn adds exactly its run. */
  lemma OneTurn(config: Config, scan: Scan<Cursor>, before: seq<string>, turn: Turn, s: string, done: map<string, Run>)
    requires s != "" && At(config, scan, before, s) && GoodTurn(config, turn, s) && CollisionFree(config.naming)
    requires P.State(done, map[]).Valid() && P.Fold(scan.events) == P.State(done, map[])
    requires TurnId(config, s, turn) !in done
    ensures
      var next, run := Continue(Parser.Step(config), scan, TurnLines(turn)), TurnRun(config, s, before, turn);
      At(config, next, before + TurnLines(turn), s) && P.Fold(next.events) == P.State(done[run.id := run], map[])
  {
    BeginTurn(config, scan, before, turn, s, done);
    var started := After(config, Continue(Parser.Step(config), scan, turn.gap), turn.start);
    var start := StartedRun(config, s, before + turn.gap, turn.start);
    var run := RestOfTurn(config, started, before + turn.gap + [turn.start], turn, s, done, start);
    FinishedIsTurn(config, s, before, turn, run);
    TurnInParts(config, scan, before, turn);
  }

  lemma NothingBefore<T>(s: seq<T>)
    ensures [] + s == s
  {
  }

  lemma TurnInParts(config: Config, scan: Scan<Cursor>, before: seq<string>, turn: Turn)
    ensures
      var step := Parser.Step(config);
      var scan1 := Continue(step, scan, turn.gap);
      Continue(step, scan, TurnLines(turn)) ==
      After(config, Continue(step, After(config, scan1, turn.start), turn.body), turn.end)
    ensures before + TurnLines(turn) == before + turn.gap + [turn.start] + turn.body + [turn.end]
  {
    var step := Parser.Step(config);
    ContinueConcat(step, scan, turn.gap, [turn.start] + turn.body + [turn.end]);
    var scan1 := Continue(step, scan, turn.gap);
    ContinueConcat(step, scan1, [turn.start] + turn.body, [turn.end]);
    ContinueConcat(step, scan1, [turn.start], turn.body);
    ContinueOne(config, scan1, turn.start);
    ContinueOne(config, Continue(step, After(config, scan1, turn.start), turn.body), turn.end);
  }

  // ----- The whole transcript -----

  lemma RunIdsDiffer(config: Config, s: string, a: string, b: string)
    requires CollisionFree(config.naming) && a != b
    ensures RunIdOf(config, s, a) != RunIdOf(config, s, b)
  {
    DifferAt(["run", s, a], ["run", s, b], 2);
  }

  lemma TurnIdsDiffer(config: Config, s: string, a: Turn, b: Turn)
    requires CollisionFree(config.naming) && NativeId(config, a) != NativeId(config, b)
    ensures TurnId(config, s, a) != TurnId(config, s, b)
  {
    RunIdsDiffer(config, s, NativeId(config, a), NativeId(config, b));
  }

  lemma GoodFront(config: Config, turns: seq<Turn>, s: string)
    requires |turns| > 0 && GoodTurns(config, turns, s)
    ensures GoodTurns(config, turns[..|turns| - 1], s)
  {
  }

  lemma LastTurnNew(config: Config, opening: string, turns: seq<Turn>, s: string, done: map<string, Run>)
    requires |turns| > 0 && CollisionFree(config.naming) && GoodTurns(config, turns, s)
    requires GoodTurns(config, turns[..|turns| - 1], s)
    requires RunsAreTurns(config, done, opening, turns[..|turns| - 1], s)
    ensures TurnId(config, s, turns[|turns| - 1]) !in done
    ensures forall i :: 0 <= i < |turns| - 1 ==> TurnId(config, s, turns[i]) != TurnId(config, s, turns[|turns| - 1])
  {
    forall i | 0 <= i < |turns| - 1
      ensures TurnId(config, s, turns[i]) != TurnId(config, s, turns[|turns| - 1])
    {
      TurnIdsDiffer(config, s, turns[i], turns[|turns| - 1]);
    }
  }

  lemma TurnStays(config: Config, opening: string, turns: seq<Turn>, s: string, done: map<string, Run>,
                  next: map<string, Run>, i: nat)
    requires GoodTurns(config, turns, s) && i < |turns| - 1 && GoodTurns(config, turns[..|turns| - 1], s)
    requires HasTurn(config, done, opening, turns[..|turns| - 1], s, i)
    requires
      var id := TurnId(config, s, turns[i]);
      id in done && id in next && next[id] == done[id]
    ensures HasTurn(config, next, opening, turns, s, i)
  {
    var front := turns[..|turns| - 1];
    assert front[i] == turns[i] && front[..i] == turns[..i];
  }

  lemma OnlyTurns(config: Config, opening: string, turns: seq<Turn>, s: string, done: map<string, Run>, x: string)
    requires |turns| > 0 && GoodTurns(config, turns, s) && GoodTurns(config, turns[..|turns| - 1], s)
    requires RunsAreTurns(config, done, opening, turns[..|turns| - 1], s)
    requires x in done || x == TurnId(config, s, turns[|turns| - 1])
    ensures exists i :: 0 <= i < |turns| && x == TurnId(config, s, turns[i])
  {
    if x in done {
      var i :| 0 <= i < |turns[..|turns| - 1]| && x == TurnId(config, s, turns[..|turns| - 1][i]);
      assert x == TurnId(config, s, turns[i]);
    }
  }

  lemma RunsSoFar(config: Config, opening: string, turns: seq<Turn>, s: string, done: map<string, Run>, id: string,
                  run: Run)
    requires |turns| > 0 && CollisionFree(config.naming) && GoodTurns(config, turns, s)
    requires GoodTurns(config, turns[..|turns| - 1], s)
    requires RunsAreTurns(config, done, opening, turns[..|turns| - 1], s)
    requires id == TurnId(config, s, turns[|turns| - 1])
    requires run == TurnRun(config, s, AllLines(opening, turns[..|turns| - 1]), turns[|turns| - 1])
    ensures id !in done && RunsAreTurns(config, done[id := run], opening, turns, s)
  {
    var next := done[id := run];
    LastTurnNew(config, opening, turns, s, done);
    forall i: nat | i < |turns|
      ensures HasTurn(config, next, opening, turns, s, i)
    {
      if i < |turns| - 1 {
        assert HasTurn(config, done, opening, turns[..|turns| - 1], s, i);
        TurnStays(config, opening, turns, s, done, next, i);
      }
    }
    forall x | x in next
      ensures exists i :: 0 <= i < |turns| && x == TurnId(config, s, turns[i])
    {
      OnlyTurns(config, opening, turns, s, done, x);
    }
  }

  lemma NoTurnsYet(config: Config, cursor: Cursor, opening: string, s: string)
    requires cursor.project == NO_PROJECT && cursor.cwd == "" && Opens(config.decode(opening), s)
    ensures
      var scan := Continue(Parser.Step(config), Scan(cursor, [], []), [opening]);
      At(config, scan, [opening], s) && P.Fold(scan.events) == P.EMPTY
  {
    var e := OpeningLine(config, cursor, opening, s);
    ContinueOne(config, Scan(cursor, [], []), opening);
    NothingFolded(e);
  }

  lemma NothingFolded(e: Event)
    requires e.kind == SessionStarted
    ensures P.Fold([e]) == P.EMPTY
  {
    P.FoldSnoc([], e);
    NothingBefore([e]);
  }

  lemma {:induction false} TurnsTold(config: Config, cursor: Cursor, opening: string, turns: seq<Turn>, s: string)
    requires CollisionFree(config.naming) && cursor.project == NO_PROJECT && cursor.cwd == ""
    requires Opens(config.decode(opening), s)
    requires GoodTurns(config, turns, s)
    ensures
      var scan := Continue(Parser.Step(config), Scan(cursor, [], []), AllLines(opening, turns));
      && At(config, scan, AllLines(opening, turns), s)
      && P.Fold(scan.events).active == map[]
      && RunsAreTurns(config, P.Fold(scan.events).runs, opening, turns, s)
  {
    if |turns| == 0 {
      NoTurnsYet(config, cursor, opening, s);
    } else {
      var front, last := turns[..|turns| - 1], turns[|turns| - 1];
      GoodFront(config, turns, s);
      TurnsTold(config, cursor, opening, front, s);
      var lines := AllLines(opening, front);
      var scan := Continue(Parser.Step(config), Scan(cursor, [], []), lines);
      var done, id := P.Fold(scan.events).runs, TurnId(config, s, last);
      RunsSoFar(config, opening, turns, s, done, id, TurnRun(config, s, lines, last));
      OneTurn(config, scan, lines, last, s, done);
      ContinueConcat(Parser.Step(config), Scan(cursor, [], []), lines, TurnLines(last));
    }
  }

  /** One session's numbered events are projected as they stand. */
  lemma NumberedInSequence(config: Config, events: seq<Event>, first: int, s: string)
    requires CollisionFree(config.naming) && Parser.Numbered(config, events, first)
    requires forall e :: e in events ==> e.sessionId == s
    ensures P.ProjectedState(events) == P.Fold(events)
  {
    forall i, j | 0 <= i < j < |events|
      ensures events[i].sequence < events[j].sequence && events[i].id != events[j].id
    {
      assert Parser.NumberedAs(config, events[i], first + i) && Parser.NumberedAs(config, events[j], first + j);
      Parser.NumbersApart(config, events[i], first + i, events[j], first + j);
    }
    forall i | 0 <= i < |events|
      ensures events[i].id != "" && events[i].sessionId == events[0].sessionId
    {
      assert Parser.NumberedAs(config, events[i], first + i) && events[i] in events && events[0] in events;
    }
    ProjectInSequence(events);
  }

  /** A transcript that names its session and whose turns start and then complete is projected to exactly one run for
      each turn: from its start to its completion, in the project of the directory named last before it, with the
      model, the effort and the usage that were set last in it. */
  lemma TranscriptTold(config: Config, cursor: Cursor, opening: string, turns: seq<Turn>, rest: seq<string>, s: string)
    requires CollisionFree(config.naming) && cursor.project == NO_PROJECT && cursor.cwd == ""
    requires Opens(config.decode(opening), s)
    requires GoodTurns(config, turns, s) && QuietLines(config, rest, s)
    ensures
      var scan := Continue(Parser.Step(config), Scan(cursor, [], []), AllLines(opening, turns) + rest);
      RunsAreTurns(config, P.ProjectedRuns(scan.events), opening, turns, s)
  {
    var start := Scan(cursor, [], []);
    var scan := Continue(Parser.Step(config), start, AllLines(opening, turns));
    TurnsTold(config, cursor, opening, turns, s);
    GapLines(config, scan, AllLines(opening, turns), rest, s, P.Fold(scan.events).runs);
    ContinueConcat(Parser.Step(config), start, AllLines(opening, turns), rest);
    WholeProjected(config, cursor, AllLines(opening, turns) + rest, s);
  }

  /** The run of a turn that is still under way. */
  function OpenRun(config: Config, s: string, before: seq<string>, start: string, body: seq<string>): Run
    requires config.decode(start).Record?
  {
    var record := config.decode(start);
    Run(RunIdOf(config, s, record.payload.turnId), s, ProjectAfter(config, before).id, StartedAt(record), None,
        LatestIn(config, StartedAt(record), body), Running, ModelIn(config, body), EffortIn(config, body),
        UsageIn(config, body), Unclosed)
  }

  lemma OpenTurn(config: Config, scan: Scan<Cursor>, before: seq<string>, start: string, body: seq<string>, s: string,
                 done: map<string, Run>)
    requires s != "" && At(config, scan, before, s) && CollisionFree(config.naming) && QuietLines(config, body, s)
    requires Says(config.decode(start), "task_started") && config.decode(start).payload.turnId != ""
    requires P.State(done, map[]).Valid() && P.Fold(scan.events) == P.State(done, map[])
    requires StartedRun(config, s, before, start).id !in done
    ensures
      var next := Continue(Parser.Step(config), scan, [start] + body);
      && At(config, next, before + [start] + body, s)
      && P.Fold(next.events) == InTurn(done, OpenRun(config, s, before, start, body), s)
  {
    var started, run := After(config, scan, start), StartedRun(config, s, before, start);
    StartTurn(config, scan, before, start, s, done);
    assert Shows(config, run, run, []);
    var last := BodyLines(config, started, before + [start], [], body, s, done, run, run);
    NothingBefore(body);
    ContinueConcat(Parser.Step(config), scan, [start], body);
    ContinueOne(config, scan, start);
  }

  lemma FreshTurn(config: Config, runs: map<string, Run>, opening: string, turns: seq<Turn>, s: string,
                  native: string)
    requires CollisionFree(config.naming) && GoodTurns(config, turns, s)
    requires RunsAreTurns(config, runs, opening, turns, s)
    requires forall i :: 0 <= i < |turns| ==> NativeId(config, turns[i]) != native
    ensures RunIdOf(config, s, native) !in runs
  {
    if RunIdOf(config, s, native) in runs {
      var i :| 0 <= i < |turns| && RunIdOf(config, s, native) == TurnId(config, s, turns[i]);
      RunIdsDiffer(config, s, NativeId(config, turns[i]), native);
    }
  }

  /** The turns, and then the lines of one that does not complete. */
  lemma UnfinishedFold(config: Config, cursor: Cursor, opening: string, turns: seq<Turn>, gap: seq<string>,
                       start: string, body: seq<string>, s: string) returns (done: map<string, Run>)
    requires CollisionFree(config.naming) && cursor.project == NO_PROJECT && cursor.cwd == ""
    requires Opens(config.decode(opening), s)
    requires GoodTurns(config, turns, s) && QuietLines(config, gap, s) && QuietLines(config, body, s)
    requires Says(config.decode(start), "task_started") && config.decode(start).payload.turnId != ""
    requires forall i :: 0 <= i < |turns| ==> NativeId(config, turns[i]) != config.decode(start).payload.turnId
    ensures
      var before := AllLines(opening, turns) + gap;
      var scan := Continue(Parser.Step(config), Scan(cursor, [], []), before + ([start] + body));
      && P.Fold(scan.events) == InTurn(done, OpenRun(config, s, before, start, body), s)
      && (forall e :: e in scan.events ==> e.sessionId == s)
    ensures RunsAreTurns(config, done, opening, turns, s)
    ensures RunIdOf(config, s, config.decode(start).payload.turnId) !in done
  {
    var step, first, before := Parser.Step(config), Scan(cursor, [], []), AllLines(opening, turns) + gap;
    var scan := Continue(step, first, AllLines(opening, turns));
    TurnsTold(config, cursor, opening, turns, s);
    done := P.Fold(scan.events).runs;
    GapLines(config, scan, AllLines(opening, turns), gap, s, done);
    FreshTurn(config, done, opening, turns, s, config.decode(start).payload.turnId);
    OpenTurn(config, Continue(step, scan, gap), before, start, body, s, done);
    ContinueConcat(step, first, AllLines(opening, turns), gap);
    ContinueConcat(step, first, before, [start] + body);
  }

  /** A turn that has started and not completed is one open run more, last active at the latest time its lines
      report. */
  lemma UnfinishedTold(config: Config, cursor: Cursor, opening: string, turns: seq<Turn>, gap: seq<string>,
                       start: string, body: seq<string>, s: string)
    requires CollisionFree(config.naming) && cursor.project == NO_PROJECT && cursor.cwd == ""
    requires Opens(config.decode(opening), s)
    requires GoodTurns(config, turns, s) && QuietLines(config, gap, s) && QuietLines(config, body, s)
    requires Says(config.decode(start), "task_started") && config.decode(start).payload.turnId != ""
    requires forall i :: 0 <= i < |turns| ==> NativeId(config, turns[i]) != config.decode(start).payload.turnId
    ensures
      var before := AllLines(opening, turns) + gap;
      var scan := Continue(Parser.Step(config), Scan(cursor, [], []), before + ([start] + body));
      var runs := P.ProjectedRuns(scan.events);
      var run := OpenRun(config, s, before, start, body);
      && run.id in runs && runs[run.id] == run
      && RunsAreTurns(config, runs - {run.id}, opening, turns, s)
  {
    var before := AllLines(opening, turns) + gap;
    var done := UnfinishedFold(config, cursor, opening, turns, gap, start, body, s);
    WholeProjected(config, cursor, before + ([start] + body), s);
    OnlyAdded(done, OpenRun(config, s, before, start, body));
  }

  lemma OnlyAdded(done: map<string, Run>, run: Run)
    requires run.id !in done
    ensures done[run.id := run] - {run.id} == done
  {
  }

  /** The parsed events are projected as they stand. */
  lemma WholeProjected(config: Config, cursor: Cursor, lines: seq<string>, s: string)
    requires CollisionFree(config.naming)
    requires forall e :: e in Continue(Parser.Step(config), Scan(cursor, [], []), lines).events ==> e.sessionId == s
    ensures
      var events := Continue(Parser.Step(config), Scan(cursor, [], []), lines).events;
      P.ProjectedState(events) == P.Fold(events)
  {
    Parser.EventsNumbered(config, Scan(cursor, [], []), lines, cursor.lastSequence + 1);
    NumberedInSequence(config, Continue(Parser.Step(config), Scan(cursor, [], []), lines).events,
                       cursor.lastSequence + 1, s);
  }

  /** So are the rows of its database, after any schedule of appends, scans, crashes and resets that has committed
      the transcript up to there. */
  lemma StoredTranscriptTold(config: Config, identity: string, trace: seq<System<Cursor>>,
                             actions: seq<Action<Cursor>>, i: nat, log: seq<Event>,
                             opening: string, turns: seq<Turn>, rest: seq<string>, s: string)
    requires CollisionFree(config.naming) && Opens(config.decode(opening), s)
    requires GoodTurns(config, turns, s) && QuietLines(config, rest, s)
    requires Schedule(Parser.TranscriptScanner(config, identity), trace, actions) && i < |trace|
    requires trace[i].committed <= |trace[i].file|
    requires Lines(trace[i].file[..trace[i].committed]) == AllLines(opening, turns) + rest
    requires ListsEvents(log, trace[i].table, trace[i].table.Keys)
    ensures RunsAreTurns(config, P.ProjectedRuns(log), opening, turns, s)
  {
    Parser.NoEventLost(config, identity, trace, actions, i);
    var cursor := NO_CURSOR.(fileIdentity := identity);
    var events := Continue(Parser.Step(config), Scan(cursor, [], []), AllLines(opening, turns) + rest).events;
    TranscriptTold(config, cursor, opening, turns, rest, s);
    SameRows(trace[i].table, events, log);
  }

  lemma SameRows(table: map<string, Row>, events: seq<Event>, log: seq<Event>)
    requires Parser.RowsAre(table, events) && ListsEvents(log, table, table.Keys)
    ensures P.ProjectedRuns(log) == P.ProjectedRuns(events)
  {
    EventOrder.ProjectionOfSet(log, events);
  }
}
