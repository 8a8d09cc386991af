/** Transcript records, and reading a line of a transcript file. */
module Transcript {
  import opened Domain
  import opened Scanning
  import opened WorkUnits

  /** The structural fields of a record's payload. */
  datatype Envelope = Envelope(
    kind: string, id: string, sessionId: string, turnId: string, cwd: string, model: string, effort: string,
    cliVersion: string, startedAt: Option<Time>, completedAt: Option<Time>, last: Tokens, total: Tokens)

  /** What a line decodes to. */
  datatype Decoded = Blank | Malformed | Record(timestamp: Time, kind: string, payload: Envelope)

  /** The machine, its settings, and the deterministic services the scanners call. */
  datatype Config = Config(
    machineId: string, storePaths: bool, decode: string -> Decoded, resolve: string -> ProjectInfo, naming: Naming)

  /** The record is a message of the given kind. */
  predicate Says(record: Decoded, kind: string) {
    record.Record? && record.kind == "event_msg" && record.payload.kind == kind
  }

  /** The session that a record's payload names, by either of two fields. */
  function SessionNamed(payload: Envelope): string {
    if payload.sessionId != "" then payload.sessionId else payload.id
  }

  function StartedAt(record: Decoded): Time
    requires record.Record?
  {
    if record.payload.startedAt.Some? then record.payload.startedAt.value else record.timestamp
  }

  function CompletedAt(record: Decoded): Time
    requires record.Record?
  {
    if record.payload.completedAt.Some? then record.payload.completedAt.value else record.timestamp
  }

  /** Where the line that starts at `offset` ends, if its newline is there. */
  function LineEnd(bytes: string, offset: nat): (end: Option<nat>)
    requires offset <= |bytes|
    ensures end.Some? ==> offset < end.value <= |bytes|
  {
    match FirstLine(bytes[offset..])
    case None => None
    case Some(n) => Some(offset + n)
  }

  /** Reads up to and including the next newline; `None` when it is not there yet. */
  method ReadLine(bytes: string, offset: nat) returns (end: Option<nat>)
    requires offset <= |bytes|
    ensures end == LineEnd(bytes, offset)
  {
    var i := offset;
    while i < |bytes| && bytes[i] != '\n'
      invariant offset <= i <= |bytes|
      invariant '\n' !in bytes[offset..i]
    {
      assert bytes[offset..i + 1] == bytes[offset..i] + [bytes[i]];
      i := i + 1;
    }
    LineFound(bytes, offset, i);
    end := if i < |bytes| then Some(i + 1) else None;
  }

  lemma LineFound(bytes: string, offset: nat, i: nat)
    requires offset <= i <= |bytes| && '\n' !in bytes[offset..i]
    requires i < |bytes| ==> bytes[i] == '\n'
    ensures LineEnd(bytes, offset) == if i < |bytes| then Some(i + 1) else None
  {
    var rest := bytes[offset..];
    if i < |bytes| {
      assert rest[..i - offset] == bytes[offset..i];
      FirstLineUnique(rest, i + 1 - offset);
    } else {
      assert rest == bytes[offset..i];
    }
  }

  /** One turn of a reading loop consumes one line of what is left. */
  lemma OneLine<S>(step: (S, string) -> Scan<S>, scan: Scan<S>, bytes: string, offset: nat, end: nat)
    requires offset <= |bytes| && LineEnd(bytes, offset) == Some(end)
    ensures Continue(step, scan, Lines(bytes[offset..])) ==
            Continue(step, Then(scan, step(scan.state, bytes[offset..end])), Lines(bytes[end..]))
  {
    var rest := bytes[offset..];
    assert rest[..end - offset] == bytes[offset..end] && rest[end - offset..] == bytes[end..];
    assert Lines(rest) == [bytes[offset..end]] + Lines(bytes[end..]);
  }
}
