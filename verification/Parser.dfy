/** The incremental transcript parser. */
module Parser {
  import opened Domain
  import opened LocalTables
  import opened Scanning
  import opened Transcript
  import opened WorkUnits

  datatype Parsed =
    | ParseError
    | Parsed(event: Option<Event>, metadata: Option<Envelope>)

  function RunId(naming: Naming, sessionId: string, native: string): string {
    if native == "" then "" else naming.uuid(["run", sessionId, native])
  }

  function KindName(kind: EventKind): string {
    match kind
    case SessionStarted => "session_started"
    case Lease => "lease"
    case RunStarted => "run_started"
    case RunCompleted => "run_completed"
    case TokenUsage => "token_usage"
    case _ => "other"
  }

  function Drafted(kind: EventKind, runId: string, at: Time, payload: Payload): Event {
    Event("", "", "", runId, 0, at, kind, Transcript, payload)
  }

  function InProject(cursor: Cursor): Payload {
    NO_PAYLOAD.(project := NO_PROJECT.(id := cursor.project.id))
  }

  function OrElse(time: Option<Time>, fallback: Time): Time {
    if time.Some? then time.value else fallback
  }

  function ParseRecord(config: Config, record: Decoded, cursor: Cursor): Parsed
    requires record.Record?
  {
    var payload, at := record.payload, record.timestamp;
    if record.kind == "session_meta" then
      var sessionId := if payload.sessionId == "" then payload.id else payload.sessionId;
      if sessionId == "" then ParseError
      else
        Parsed(Some(Drafted(SessionStarted, "", at, InProject(cursor).(codexVersion := payload.cliVersion))),
               Some(payload.(sessionId := sessionId)))
    else if record.kind == "turn_context" then
      if payload.turnId == "" then Parsed(None, Some(payload))
      else
        Parsed(Some(Drafted(Lease, RunId(config.naming, cursor.sessionId, payload.turnId), at,
                            InProject(cursor).(model := payload.model, effort := payload.effort))), Some(payload))
    else if record.kind == "event_msg" then
      if payload.kind == "task_started" then
        Parsed(Some(Drafted(RunStarted, RunId(config.naming, cursor.sessionId, payload.turnId),
                            OrElse(payload.startedAt, at), InProject(cursor))), None)
      else if payload.kind == "task_complete" then
        Parsed(Some(Drafted(RunCompleted, RunId(config.naming, cursor.sessionId, payload.turnId),
                            OrElse(payload.completedAt, at), NO_PAYLOAD)), None)
      else if payload.kind == "token_count" then
        Parsed(Some(Drafted(TokenUsage, "", at, NO_PAYLOAD.(usage := payload.last))), None)
      else Parsed(None, None)
    else Parsed(None, None)
  }

  /** Session, directory and project come from the metadata of a record. */
  function Learn(config: Config, cursor: Cursor, metadata: Option<Envelope>): Cursor {
    if metadata.None? then cursor
    else
      var m := metadata.value;
      var cursor1 := if m.sessionId != "" then cursor.(sessionId := m.sessionId) else cursor;
      if m.cwd != "" then cursor1.(cwd := if config.storePaths then m.cwd else "", project := config.resolve(m.cwd))
      else cursor1
  }

  /** Numbers the event and names it after machine, session, kind, run and number. */
  function Number(config: Config, cursor: Cursor, event: Event): (Cursor, Event) {
    var sequence := cursor.lastSequence + 1;
    var id := config.naming.uuid([config.machineId, cursor.sessionId, KindName(event.kind), event.runId,
                                  config.naming.number(sequence)]);
    (cursor.(lastSequence := sequence, lastEventId := id),
     event.(sequence := sequence, machineId := config.machineId, sessionId := cursor.sessionId, id := id))
  }

  /** A session start reports the project as just learnt. */
  function Filled(cursor: Cursor, event: Event): Event {
    if event.kind == SessionStarted then
      event.(payload := NO_PAYLOAD.(project := cursor.project, codexVersion := event.payload.codexVersion))
    else event
  }

  function Emit(config: Config, cursor: Cursor, event: Option<Event>): Scan<Cursor> {
    if event.None? then Scan(cursor, [], [])
    else
      var (cursor', numbered) := Number(config, cursor, Filled(cursor, event.value));
      Scan(cursor', [numbered], [])
  }

  function Conclude(config: Config, lineStart: nat, cursor: Cursor, parsed: Parsed): Scan<Cursor> {
    if parsed.ParseError? then Scan(cursor, [], [lineStart])
    else Emit(config, Learn(config, cursor, parsed.metadata), parsed.event)
  }

  function StepLine(config: Config, cursor: Cursor, line: string): Scan<Cursor> {
    var cursor1 := cursor.(byteOffset := cursor.byteOffset + |line|);
    var record := config.decode(line);
    if record.Blank? then Scan(cursor1, [], [])
    else if record.Malformed? then Scan(cursor1, [], [cursor.byteOffset])
    else Conclude(config, cursor.byteOffset, cursor1, ParseRecord(config, record, cursor1))
  }

  function Step(config: Config): (Cursor, string) -> Scan<Cursor> {
    (cursor: Cursor, line: string) => StepLine(config, cursor, line)
  }

  /** A cursor of another file starts over; one past the end of the file starts its numbering over. */
  function Opened(cursor: Cursor, identity: string, size: nat): (r: Cursor)
    ensures r.byteOffset <= size
  {
    var cursor1 := if cursor.fileIdentity != "" && cursor.fileIdentity != identity then NO_CURSOR else cursor;
    var cursor2 := cursor1.(fileIdentity := identity);
    if cursor2.byteOffset > size then cursor2.(byteOffset := 0, lastSequence := 0) else cursor2
  }

  method NumberEvent(config: Config, before: Cursor, draft: Event) returns (cursor: Cursor, event: Event)
    ensures (cursor, event) == Number(config, before, Filled(before, draft))
  {
    cursor, event := before, draft;
    if event.kind == SessionStarted {
      event := event.(payload := NO_PAYLOAD.(project := cursor.project, codexVersion := event.payload.codexVersion));
    }
    cursor := cursor.(lastSequence := cursor.lastSequence + 1);
    event := event.(sequence := cursor.lastSequence, machineId := config.machineId, sessionId := cursor.sessionId);
    event := event.(id := config.naming.uuid([config.machineId, event.sessionId, KindName(event.kind), event.runId,
                                              config.naming.number(event.sequence)]));
    cursor := cursor.(lastEventId := event.id);
  }

  predicate NamesVersion(config: Config, line: string, version: string) {
    config.decode(line).Record? && config.decode(line).payload.cliVersion == version
  }

  /** A line moves the offset by its length and yields at most one event or one error. An error, at the line's
      start, changes nothing else; an event is the next in number, of the session as it is after the line. */
  ghost predicate LineParsed(config: Config, before: Cursor, line: string, scan: Scan<Cursor>) {
    && scan.state.byteOffset == before.byteOffset + |line| && scan.state.fileIdentity == before.fileIdentity
    && |scan.events| + |scan.errors| <= 1
    && (scan.errors != [] ==>
          scan.errors == [before.byteOffset] && scan.state == before.(byteOffset := before.byteOffset + |line|))
    && (scan.events == [] ==>
          scan.state.lastSequence == before.lastSequence && scan.state.lastEventId == before.lastEventId)
    && (scan.events != [] ==>
          var e := scan.events[0];
          && scan.state.lastSequence == before.lastSequence + 1 && scan.state.lastEventId == e.id
          && NumberedAs(config, e, scan.state.lastSequence) && e.sessionId == scan.state.sessionId
          && e.source == Source.Transcript
          && (e.kind == SessionStarted ==>
                && e.sessionId != "" && NamesVersion(config, line, e.payload.codexVersion)
                && e.payload == NO_PAYLOAD.(project := scan.state.project, codexVersion := e.payload.codexVersion)))
  }

  method ParseLine(config: Config, line: string, before: Cursor) returns (scan: Scan<Cursor>)
    ensures scan == StepLine(config, before, line)
  {
    var cursor := before.(byteOffset := before.byteOffset + |line|);
    var record := config.decode(line);
    if record.Blank? {
      return Scan(cursor, [], []);
    }
    if record.Malformed? {
      return Scan(cursor, [], [before.byteOffset]);
    }
    scan := TakeRecord(config, before.byteOffset, cursor, ParseRecord(config, record, cursor));
  }

  method TakeRecord(config: Config, lineStart: nat, before: Cursor, parsed: Parsed) returns (scan: Scan<Cursor>)
    ensures scan == Conclude(config, lineStart, before, parsed)
  {
    if parsed.ParseError? {
      return Scan(before, [], [lineStart]);
    }
    var cursor := Learn(config, before, parsed.metadata);
    if parsed.event.None? {
      return Scan(cursor, [], []);
    }
    var event;
    cursor, event := NumberEvent(config, cursor, parsed.event.value);
    scan := Scan(cursor, [event], []);
  }

  method ParseFrom(config: Config, bytes: string, start: Cursor)
      returns (cursor: Cursor, events: seq<Event>, errors: seq<nat>)
    requires start.byteOffset <= |bytes|
    ensures Scan(cursor, events, errors) == Remaining(config, Scan(start, [], []), bytes)
  {
    cursor, events, errors := start, [], [];
    var line := ReadLine(bytes, cursor.byteOffset);
    while line.Some?
      invariant cursor.byteOffset <= |bytes| && line == LineEnd(bytes, cursor.byteOffset)
      invariant Remaining(config, Scan(cursor, events, errors), bytes) == Remaining(config, Scan(start, [], []), bytes)
      decreases |bytes| - cursor.byteOffset
    {
      OneMore(config, Scan(cursor, events, errors), bytes, line.value);
      var scan := ParseLine(config, bytes[cursor.byteOffset..line.value], cursor);
      cursor, events, errors := scan.state, events + scan.events, errors + scan.errors;
      line := ReadLine(bytes, cursor.byteOffset);
    }
    NothingMore(config, Scan(cursor, events, errors), bytes);
  }

  method ParseFile(config: Config, bytes: string, identity: string, stored: Cursor)
      returns (cursor: Cursor, events: seq<Event>, errors: seq<nat>)
    ensures
      var start := Opened(stored, identity, |bytes|);
      Scan(cursor, events, errors) == Continue(Step(config), Scan(start, [], []), Lines(bytes[start.byteOffset..]))
  {
    cursor := stored;
    if cursor.fileIdentity != "" && cursor.fileIdentity != identity {
      cursor := NO_CURSOR;
    }
    cursor := cursor.(fileIdentity := identity);
    if cursor.byteOffset > |bytes| {
      cursor := cursor.(byteOffset := 0, lastSequence := 0);
    }
    cursor, events, errors := ParseFrom(config, bytes, cursor);
  }

  /** A replaced file is read as a new one, from its start; a file that was cut short is read again with numbers from
      one; any other file is read on where the last scan stopped. */
  lemma ReopenedWhere(config: Config, bytes: string, identity: string, stored: Cursor)
    ensures
      var start := Opened(stored, identity, |bytes|);
      && start.fileIdentity == identity
      && (stored.fileIdentity != "" && stored.fileIdentity != identity ==>
            start == NO_CURSOR.(fileIdentity := identity)
            && Continue(Step(config), Scan(start, [], []), Lines(bytes[start.byteOffset..])) ==
               Whole(Step(config), NO_CURSOR.(fileIdentity := identity), bytes))
      && (stored.fileIdentity in {"", identity} && stored.byteOffset > |bytes| ==>
            start == stored.(fileIdentity := identity, byteOffset := 0, lastSequence := 0))
      && (stored.fileIdentity in {"", identity} && stored.byteOffset <= |bytes| ==>
            start == stored.(fileIdentity := identity))
  {
    assert bytes[0..] == bytes;
  }

  /** What reading on to the end of the file leaves. */
  ghost function Remaining(config: Config, scan: Scan<Cursor>, bytes: string): Scan<Cursor>
    requires scan.state.byteOffset <= |bytes|
  {
    Continue(Step(config), scan, Lines(bytes[scan.state.byteOffset..]))
  }

  lemma OneMore(config: Config, scan: Scan<Cursor>, bytes: string, end: nat)
    requires scan.state.byteOffset <= |bytes| && LineEnd(bytes, scan.state.byteOffset) == Some(end)
    ensures
      var next := Then(scan, StepLine(config, scan.state, bytes[scan.state.byteOffset..end]));
      next.state.byteOffset == end && Remaining(config, scan, bytes) == Remaining(config, next, bytes)
  {
    OneLine(Step(config), scan, bytes, scan.state.byteOffset, end);
    StepAdvances(config, scan.state, bytes[scan.state.byteOffset..end]);
  }

  lemma NothingMore(config: Config, scan: Scan<Cursor>, bytes: string)
    requires scan.state.byteOffset <= |bytes| && LineEnd(bytes, scan.state.byteOffset).None?
    ensures Remaining(config, scan, bytes) == scan
  {
  }

  lemma StepAdvances(config: Config, cursor: Cursor, line: string)
    ensures StepLine(config, cursor, line).state.byteOffset == cursor.byteOffset + |line|
    ensures StepLine(config, cursor, line).state.fileIdentity == cursor.fileIdentity
  {
  }

  /** Unless paths are to be stored, no directory ever reaches the cursor. */
  lemma {:induction false} NoPathStored(config: Config, scan: Scan<Cursor>, lines: seq<string>)
    requires !config.storePaths && scan.state.cwd == ""
    ensures Continue(Step(config), scan, lines).state.cwd == ""
    decreases |lines|
  {
    if |lines| > 0 {
      NoPathStored(config, Then(scan, StepLine(config, scan.state, lines[0])), lines[1..]);
    }
  }

  // ----- As a scanner -----

  function TranscriptScanner(config: Config, identity: string): Scanner<Cursor> {
    Scanner(NO_CURSOR.(fileIdentity := identity), (cursor: Cursor) => cursor.byteOffset, Step(config))
  }

  lemma ScannerAdvances(config: Config, identity: string)
    ensures Advances(TranscriptScanner(config, identity))
  {
    forall cursor, line
      ensures Step(config)(cursor, line).state.byteOffset == cursor.byteOffset + |line|
    {
      StepAdvances(config, cursor, line);
    }
  }

  lemma {:induction false} IdentityKept(config: Config, scan: Scan<Cursor>, lines: seq<string>)
    ensures Continue(Step(config), scan, lines).state.fileIdentity == scan.state.fileIdentity
    decreases |lines|
  {
    if |lines| > 0 {
      StepAdvances(config, scan.state, lines[0]);
      IdentityKept(config, Then(scan, Step(config)(scan.state, lines[0])), lines[1..]);
    }
  }

  /** Opening the file again leaves a cursor of that file, or the absent one, where one scan would be. */
  lemma OpenedFaithful(config: Config, identity: string, file: string, stored: Cursor)
    requires
      || stored == NO_CURSOR
      || Faithful(TranscriptScanner(config, identity), file, stored)
    ensures Faithful(TranscriptScanner(config, identity), file, Opened(stored, identity, |file|))
  {
    var scanner := TranscriptScanner(config, identity);
    if stored == NO_CURSOR {
      assert file[..0] == "";
    } else {
      IdentityKept(config, Scan(scanner.init, [], []), Lines(file[..stored.byteOffset]));
    }
  }

  /** Metadata moves neither the offset nor the numbering. */
  lemma LearnKeeps(config: Config, cursor: Cursor, metadata: Option<Envelope>)
    ensures
      var learnt := Learn(config, cursor, metadata);
      && learnt.byteOffset == cursor.byteOffset && learnt.fileIdentity == cursor.fileIdentity
      && learnt.lastSequence == cursor.lastSequence && learnt.lastEventId == cursor.lastEventId
      && (metadata.Some? && metadata.value.sessionId != "" ==> learnt.sessionId != "")
  {
  }

  lemma SessionStartNamed(config: Config, record: Decoded, cursor: Cursor)
    requires record.Record?
    ensures
      var parsed := ParseRecord(config, record, cursor);
      parsed.Parsed? && parsed.event.Some? && parsed.event.value.kind == SessionStarted ==>
        && parsed.metadata.Some? && parsed.metadata.value.sessionId != ""
        && parsed.event.value.payload.codexVersion == record.payload.cliVersion
  {
  }

  lemma EmitFacts(config: Config, before: Cursor, line: string, cursor: Cursor, event: Option<Event>)
    requires cursor.byteOffset == before.byteOffset + |line| && cursor.fileIdentity == before.fileIdentity
    requires cursor.lastSequence == before.lastSequence && cursor.lastEventId == before.lastEventId
    requires event.Some? ==> event.value.source == Source.Transcript
    requires event.Some? && event.value.kind == SessionStarted ==>
               cursor.sessionId != "" && NamesVersion(config, line, event.value.payload.codexVersion)
    ensures LineParsed(config, before, line, Emit(config, cursor, event))
  {
  }

  lemma ConcludeFacts(config: Config, before: Cursor, line: string, cursor: Cursor, parsed: Parsed)
    requires cursor == before.(byteOffset := before.byteOffset + |line|)
    requires parsed.Parsed? && parsed.event.Some? ==> parsed.event.value.source == Source.Transcript
    requires parsed.Parsed? && parsed.event.Some? && parsed.event.value.kind == SessionStarted ==>
               && parsed.metadata.Some? && parsed.metadata.value.sessionId != ""
               && NamesVersion(config, line, parsed.event.value.payload.codexVersion)
    ensures LineParsed(config, before, line, Conclude(config, before.byteOffset, cursor, parsed))
  {
    if parsed.Parsed? {
      LearnKeeps(config, cursor, parsed.metadata);
      EmitFacts(config, before, line, Learn(config, cursor, parsed.metadata), parsed.event);
    }
  }

  lemma LineShape(config: Config, cursor: Cursor, line: string) returns (parsed: Parsed)
    ensures
      var cursor1, record := cursor.(byteOffset := cursor.byteOffset + |line|), config.decode(line);
      StepLine(config, cursor, line) ==
      if record.Blank? then Scan(cursor1, [], [])
      else if record.Malformed? then Scan(cursor1, [], [cursor.byteOffset])
      else Conclude(config, cursor.byteOffset, cursor1, parsed)
    ensures parsed.Parsed? && parsed.event.Some? ==> parsed.event.value.source == Source.Transcript
    ensures parsed.Parsed? && parsed.event.Some? && parsed.event.value.kind == SessionStarted ==>
              && parsed.metadata.Some? && parsed.metadata.value.sessionId != ""
              && NamesVersion(config, line, parsed.event.value.payload.codexVersion)
  {
    var cursor1, record := cursor.(byteOffset := cursor.byteOffset + |line|), config.decode(line);
    if record.Record? {
      parsed := ParseRecord(config, record, cursor1);
      SessionStartNamed(config, record, cursor1);
    } else {
      parsed := ParseError;
    }
  }

  lemma LineFacts(config: Config, cursor: Cursor, line: string)
    ensures LineParsed(config, cursor, line, StepLine(config, cursor, line))
  {
    var parsed := LineShape(config, cursor, line);
    ConcludeFacts(config, cursor, line, cursor.(byteOffset := cursor.byteOffset + |line|), parsed);
  }

  // ----- No event is lost to a key conflict -----

  /** The kinds of transcript events have different names, so ids tell them apart. */
  lemma KindNamesDiffer(a: EventKind, b: EventKind)
    requires a in {SessionStarted, Lease, RunStarted, RunCompleted, TokenUsage} && a != b
    ensures KindName(a) != KindName(b)
  {
  }

  ghost predicate NumberedAs(config: Config, e: Event, sequence: int) {
    && e.machineId == config.machineId && e.sequence == sequence
    && e.id == config.naming.uuid([config.machineId, e.sessionId, KindName(e.kind), e.runId,
                                   config.naming.number(sequence)])
  }

  ghost predicate Numbered(config: Config, events: seq<Event>, first: int) {
    forall i :: 0 <= i < |events| ==> NumberedAs(config, events[i], first + i)
  }

  lemma OneNumbered(config: Config, cursor: Cursor, line: string)
    ensures
      var scan := StepLine(config, cursor, line);
      || (scan.events == [] && scan.state.lastSequence == cursor.lastSequence)
      || (|scan.events| == 1 && scan.state.lastSequence == cursor.lastSequence + 1
          && NumberedAs(config, scan.events[0], cursor.lastSequence + 1))
  {
  }

  lemma {:induction false} EventsNumbered(config: Config, scan: Scan<Cursor>, lines: seq<string>, first: int)
    requires Numbered(config, scan.events, first) && scan.state.lastSequence == first + |scan.events| - 1
    ensures
      var end := Continue(Step(config), scan, lines);
      Numbered(config, end.events, first) && end.state.lastSequence == first + |end.events| - 1
    decreases |lines|
  {
    if |lines| > 0 {
      OneNumbered(config, scan.state, lines[0]);
      EventsNumbered(config, Then(scan, StepLine(config, scan.state, lines[0])), lines[1..], first);
    }
  }

  lemma NumbersApart(config: Config, a: Event, i: int, b: Event, j: int)
    requires CollisionFree(config.naming) && NumberedAs(config, a, i) && NumberedAs(config, b, j) && i != j
    ensures a.id != b.id && !SameSlot(a, b)
  {
    DifferAt([config.machineId, a.sessionId, KindName(a.kind), a.runId, config.naming.number(i)],
             [config.machineId, b.sessionId, KindName(b.kind), b.runId, config.naming.number(j)], 4);
  }

  /** Transcript events of different machines have different ids. */
  lemma MachinesApart(config: Config, other: Config, a: Event, i: int, b: Event, j: int)
    requires CollisionFree(config.naming) && other.naming == config.naming && config.machineId != other.machineId
    requires NumberedAs(config, a, i) && NumberedAs(other, b, j)
    ensures a.id != b.id
  {
  }

  ghost predicate RowsAre(table: map<string, Row>, events: seq<Event>) {
    && (forall e :: e in events ==> e.id in table && table[e.id].event == e)
    && (forall id :: id in table ==> table[id].event in events && table[id].event.id == id)
  }

  lemma InsertNew(table: map<string, Row>, events: seq<Event>, e: Event)
    requires RowsAre(table, events)
    requires forall x :: x in events ==> x.id != e.id && !SameSlot(x, e)
    ensures RowsAre(InsertIgnore(table, e), events + [e])
  {
    assert !Present(table, e);
  }

  lemma LastApart(config: Config, events: seq<Event>, first: int, x: Event)
    requires CollisionFree(config.naming) && Numbered(config, events, first)
    requires |events| > 0 && x in events[..|events| - 1]
    ensures x.id != events[|events| - 1].id && !SameSlot(x, events[|events| - 1])
  {
    var n := |events| - 1;
    var i :| 0 <= i < n && events[i] == x;
    NumbersApart(config, x, first + i, events[n], first + n);
  }

  /** Consecutive numbers keep every key of one machine's file free, so every event gets its row. */
  lemma {:induction false} AllInserted(config: Config, events: seq<Event>, first: int)
    requires CollisionFree(config.naming) && Numbered(config, events, first)
    ensures RowsAre(InsertAll(map[], events), events)
  {
    if |events| > 0 {
      var before, e := events[..|events| - 1], events[|events| - 1];
      AllInserted(config, before, first);
      forall x | x in before
        ensures x.id != e.id && !SameSlot(x, e)
      {
        LastApart(config, events, first, x);
      }
      InsertNew(InsertAll(map[], before), before, e);
      assert events == before + [e];
    }
  }

  /** Whatever the schedule of scans, the rows of a transcript are exactly the events of its longest committed
      prefix. */
  lemma NoEventLost(config: Config, identity: string, trace: seq<System<Cursor>>, actions: seq<Action<Cursor>>, i: nat)
    requires CollisionFree(config.naming)
    requires Schedule(TranscriptScanner(config, identity), trace, actions) && i < |trace|
    ensures trace[i].committed <= |trace[i].file|
    ensures RowsAre(trace[i].table, Events(TranscriptScanner(config, identity), trace[i].file, trace[i].committed))
  {
    var scanner := TranscriptScanner(config, identity);
    ScannerAdvances(config, identity);
    AnySchedule(scanner, trace, actions, i);
    EventsNumbered(config, Scan(scanner.init, [], []), Lines(trace[i].file[..trace[i].committed]), 1);
    AllInserted(config, Events(scanner, trace[i].file, trace[i].committed), 1);
  }
}
