/** The projection as a fold: how each event changes the runs and the active run of each session. */
module Projection {
  import opened Domain
  import Sorting

  const INFERRED_CLOSURE_GRACE: int := 90 * SECOND

  // ----- Order of events -----

  predicate StringLe(a: string, b: string) {
    |a| == 0 || (|b| > 0 && (a[0] < b[0] || (a[0] == b[0] && StringLe(a[1..], b[1..]))))
  }

  /** Session, then sequence, then time, then id. */
  predicate EventLe(a: Event, b: Event) {
    if a.sessionId != b.sessionId then StringLe(a.sessionId, b.sessionId)
    else if a.sequence != b.sequence then a.sequence < b.sequence
    else if a.occurredAt != b.occurredAt then a.occurredAt < b.occurredAt
    else StringLe(a.id, b.id)
  }

  /** The events that take part, in order: no empty id, and of equal ids only the first. */
  function Kept(ordered: seq<Event>): seq<Event> {
    if |ordered| == 0 then []
    else
      var kept, event := Kept(ordered[..|ordered| - 1]), ordered[|ordered| - 1];
      if event.id == "" || event.id in Ids(kept) then kept else kept + [event]
  }

  function Ids(events: seq<Event>): set<string> {
    set e | e in events :: e.id
  }

  function Ordered(events: seq<Event>): seq<Event> {
    Sorting.Sort(EventLe, events)
  }

  // ----- Runs -----

  function FreshRun(e: Event): Run {
    Run(e.runId, e.sessionId, e.payload.project.id, e.occurredAt, None, e.occurredAt,
        Running, e.payload.model, e.payload.effort, NO_TOKENS, Unclosed)
  }

  function CloseRun(run: Run, at: Time, status: RunStatus, reason: CloseReason): Run {
    var at' := if at < run.startedAt then run.startedAt else at;
    run.(endedAt := Some(at'), lastActivityAt := at', status := status, closeReason := reason)
  }

  function CloseInferredRun(run: Run, at: Time, status: RunStatus, reason: CloseReason): Run {
    var deadline := run.lastActivityAt + INFERRED_CLOSURE_GRACE;
    CloseRun(run, if deadline < at then deadline else at, status, reason)
  }

  function Touch(run: Run, at: Time): Run {
    if at > run.lastActivityAt then run.(lastActivityAt := at) else run
  }

  function CountTokens(run: Run, e: Event): Run {
    Touch(run.(tokens := e.payload.usage), e.occurredAt)
  }

  function Note(run: Run, e: Event): Run {
    var run1 := if e.payload.model != "" then run.(model := e.payload.model) else run;
    var run2 := if e.payload.effort != "" then run1.(effort := e.payload.effort) else run1;
    Touch(run2, e.occurredAt)
  }

  // ----- State and steps -----

  /** The runs by id, and for each session the id of the run that is active in it. */
  datatype State = State(runs: map<string, Run>, active: map<string, string>) {
    ghost predicate Valid() {
      && (forall id :: id in runs ==> id != "" && runs[id].id == id)
      && (forall s :: s in active ==> active[s] in runs)
    }

    function With(id: string, run: Run): State {
      State(runs[id := run], active)
    }

    function Deactivate(s: string, id: string): State {
      if s in active && active[s] == id then State(runs, active - {s}) else this
    }
  }

  const EMPTY := State(map[], map[])

  predicate IsStart(kind: EventKind) {
    kind == PromptSubmitted || kind == RunStarted
  }

  predicate IsTerminal(kind: EventKind) {
    kind == RunCompleted || kind == RunInterrupted || kind == RunFailed
  }

  function StatusOf(kind: EventKind): RunStatus {
    if kind == RunCompleted then Completed else if kind == RunInterrupted then Interrupted else Failed
  }

  function ReasonOf(kind: EventKind): CloseReason {
    if kind == RunCompleted then ExplicitCompletion else if kind == RunInterrupted then ByInterruption else ByFailure
  }

  /** The run id if there is such a run. */
  function Known(st: State, id: string): Option<string> {
    if id in st.runs then Some(id) else None
  }

  function Current(st: State, s: string): Option<string> {
    if s in st.active then Some(st.active[s]) else None
  }

  function TokenTarget(st: State, e: Event): Option<string> {
    var current := Current(st, e.sessionId);
    if current.None? || (e.runId != "" && current.value != e.runId) then Known(st, e.runId) else current
  }

  function TerminalTarget(st: State, e: Event): Option<string> {
    if e.runId != "" then Known(st, e.runId) else Current(st, e.sessionId)
  }

  /** An explicit end applies to a run that is open or whose closure was only inferred. */
  predicate Correctable(run: Run) {
    run.endedAt.None? || run.status == Superseded || run.status == Abandoned
  }

  function Supersede(st: State, e: Event): State
    requires st.Valid()
  {
    var current := Current(st, e.sessionId);
    if current.Some? && current.value != e.runId then
      st.With(current.value, CloseInferredRun(st.runs[current.value], e.occurredAt, Superseded, ByNewRun))
    else st
  }

  function StepStart(st: State, e: Event): State
    requires st.Valid()
  {
    var st1 := Supersede(st, e);
    if e.runId == "" then st1
    else
      var runs := if e.runId in st1.runs then st1.runs else st1.runs[e.runId := FreshRun(e)];
      State(runs, st1.active[e.sessionId := e.runId])
  }

  function StepTokens(st: State, e: Event): State
    requires st.Valid()
  {
    var target := TokenTarget(st, e);
    if target.None? then st else st.With(target.value, CountTokens(st.runs[target.value], e))
  }

  function StepTerminal(st: State, e: Event): State
    requires st.Valid()
  {
    var target := TerminalTarget(st, e);
    if target.None? then st
    else
      var run := st.runs[target.value];
      var st1 := if Correctable(run)
                 then st.With(target.value, CloseRun(run, e.occurredAt, StatusOf(e.kind), ReasonOf(e.kind)))
                 else st;
      st1.Deactivate(e.sessionId, target.value)
  }

  function StepSessionClosed(st: State, e: Event): State
    requires st.Valid()
  {
    var current := Current(st, e.sessionId);
    if current.None? then st
    else
      st.With(current.value, CloseInferredRun(st.runs[current.value], e.occurredAt, Interrupted, SessionEnd))
        .Deactivate(e.sessionId, current.value)
  }

  function StepOther(st: State, e: Event): State
    requires st.Valid()
  {
    var current := Current(st, e.sessionId);
    if current.None? then st else st.With(current.value, Note(st.runs[current.value], e))
  }

  function Step(st: State, e: Event): (st': State)
    requires st.Valid()
    ensures st'.Valid()
  {
    if IsStart(e.kind) then StepStart(st, e)
    else if e.kind == TokenUsage then StepTokens(st, e)
    else if IsTerminal(e.kind) then StepTerminal(st, e)
    else if e.kind == SessionClosed then StepSessionClosed(st, e)
    else StepOther(st, e)
  }

  function Fold(events: seq<Event>): (st: State)
    ensures st.Valid()
  {
    if |events| == 0 then EMPTY else Step(Fold(events[..|events| - 1]), events[|events| - 1])
  }

  lemma KeptSnoc(ordered: seq<Event>, e: Event)
    ensures Kept(ordered + [e]) ==
            if e.id == "" || e.id in Ids(Kept(ordered)) then Kept(ordered) else Kept(ordered) + [e]
  {
    assert (ordered + [e])[..|ordered|] == ordered;
  }

  lemma FoldSnoc(events: seq<Event>, e: Event)
    ensures Fold(events + [e]) == Step(Fold(events), e)
  {
    assert (events + [e])[..|events|] == events;
  }

  /** The runs of a log, by id. */
  function ProjectedState(events: seq<Event>): State {
    Fold(Kept(Ordered(events)))
  }

  function ProjectedRuns(events: seq<Event>): map<string, Run> {
    ProjectedState(events).runs
  }
}
