/** Events, runs and payloads as they travel between the scanners, the queue, the server and the reports. */
module Domain {

  datatype Option<+T> = None | Some(value: T)

  /** Nanoseconds since the zero time, so `t == ZERO_TIME` is the source's `IsZero`. */
  type Time = int

  const ZERO_TIME: Time := 0
  const SECOND: int := 1_000_000_000
  const MINUTE: int := 60 * SECOND
  const HOUR: int := 60 * MINUTE

  function Earlier(a: Time, b: Time): Time {
    if a < b then a else b
  }

  function Later(a: Time, b: Time): Time {
    if a < b then b else a
  }

  datatype EventKind =
    | SessionStarted | SessionClosed | PromptSubmitted | RunStarted
    | ToolStarted | ToolFinished | AssistantMessage
    | RunCompleted | RunInterrupted | RunFailed
    | Lease | TokenUsage | ProjectChanged

  datatype RunStatus = Running | Completed | Interrupted | Failed | Superseded | Abandoned

  datatype CloseReason =
    | Unclosed | ByNewRun | ExplicitCompletion | ByInterruption | ByFailure | SessionEnd | LeaseExpired

  datatype Tokens = Tokens(input: int, cached: int, output: int, reasoning: int) {
    function Plus(other: Tokens): Tokens {
      Tokens(input + other.input, cached + other.cached, output + other.output, reasoning + other.reasoning)
    }

    function Minus(other: Tokens): Tokens {
      Tokens(input - other.input, cached - other.cached, output - other.output, reasoning - other.reasoning)
    }

    predicate AtMost(other: Tokens) {
      input <= other.input && cached <= other.cached && output <= other.output && reasoning <= other.reasoning
    }
  }

  const NO_TOKENS := Tokens(0, 0, 0, 0)

  datatype ProjectInfo = ProjectInfo(
    id: string, name: string, fingerprint: string, remoteHash: string,
    worktreeName: string, worktreePath: string, isWorktree: bool)

  const NO_PROJECT := ProjectInfo("", "", "", "", "", "", false)

  /** A decoded JSON payload; a field the payload lacks holds its zero value. */
  datatype Payload = Payload(project: ProjectInfo, codexVersion: string, model: string, effort: string, usage: Tokens)

  const NO_PAYLOAD := Payload(NO_PROJECT, "", "", "", NO_TOKENS)

  datatype Source = Transcript | Metrics | Hook | Wakapi | OtherSource(name: string)

  datatype Event = Event(
    id: string, machineId: string, sessionId: string, runId: string, sequence: int,
    occurredAt: Time, kind: EventKind, source: Source, payload: Payload)

  /** UNIQUE(machine_id, session_id, sequence), in both event tables. */
  predicate SameSlot(a: Event, b: Event) {
    a.machineId == b.machineId && a.sessionId == b.sessionId && a.sequence == b.sequence
  }

  datatype Run = Run(
    id: string, sessionId: string, projectId: string,
    startedAt: Time, endedAt: Option<Time>, lastActivityAt: Time,
    status: RunStatus, model: string, effort: string, tokens: Tokens, closeReason: CloseReason)
}
