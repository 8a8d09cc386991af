/** Every field of a projected run, read off the log itself: which event last said what about the run. */
module RunHistory {
  import opened Domain
  import P = Projection

  // ----- Looking back through a log -----

  /** Something an event can mean, in view of the events before it. */
  type Meaning = (seq<Event>, Event) -> bool

  /** Where the log last says something. */
  ghost function LastAt(means: Meaning, log: seq<Event>): (k: Option<nat>)
    ensures k.Some? ==> k.value < |log| && means(log[..k.value], log[k.value])
    ensures forall j :: (if k.Some? then k.value < j else 0 <= j) && j < |log| ==> !means(log[..j], log[j])
  {
    if |log| == 0 then None
    else
      var before := log[..|log| - 1];
      assert forall j :: 0 <= j < |before| ==> before[..j] == log[..j];
      if means(before, log[|log| - 1]) then Some(|log| - 1) else LastAt(means, before)
  }

  predicate IsStart(e: Event) {
    e.kind == PromptSubmitted || e.kind == RunStarted
  }

  predicate IsEnd(e: Event) {
    e.kind == RunCompleted || e.kind == RunInterrupted || e.kind == RunFailed
  }

  predicate IsNote(e: Event) {
    || e.kind == SessionStarted || e.kind == ToolStarted || e.kind == ToolFinished || e.kind == AssistantMessage
    || e.kind == Lease || e.kind == ProjectChanged
  }

  predicate Starts(e: Event, r: string) {
    IsStart(e) && e.runId == r != ""
  }

  /** The event that creates the run. */
  function FirstStart(log: seq<Event>, r: string): (k: Option<nat>)
    ensures k.Some? ==> k.value < |log| && Starts(log[k.value], r)
    ensures forall j :: 0 <= j < (if k.Some? then k.value else |log|) ==> !Starts(log[j], r)
  {
    if |log| == 0 then None
    else
      var first := FirstStart(log[..|log| - 1], r);
      if first.None? && Starts(log[|log| - 1], r) then Some(|log| - 1) else first
  }

  predicate Begun(log: seq<Event>, r: string) {
    FirstStart(log, r).Some?
  }

  // ----- Which run a session is in -----

  /** The event starts some run in the session. */
  function StartsIn(s: string): Meaning {
    (before: seq<Event>, e: Event) => IsStart(e) && e.runId != "" && e.sessionId == s
  }

  /** The session ends, or an end in the session names the run or none. */
  predicate Releases(e: Event, s: string, r: string) {
    e.sessionId == s && (e.kind == SessionClosed || (IsEnd(e) && (e.runId == r || e.runId == "")))
  }

  /** The run is the one last started in the session, and was not released since. */
  ghost predicate Holds(log: seq<Event>, s: string, r: string) {
    var j := LastAt(StartsIn(s), log);
    j.Some? && log[j.value].runId == r && forall i :: j.value < i < |log| ==> !Releases(log[i], s, r)
  }

  // ----- What an event means for a run -----

  ghost predicate NamesOrHolds(before: seq<Event>, e: Event, r: string) {
    (e.runId == r && Begun(before, r)) || (e.runId == "" && Holds(before, e.sessionId, r))
  }

  /** A token count that names the run, or that names none in a session that holds it. */
  ghost predicate Counts(before: seq<Event>, e: Event, r: string) {
    e.kind == TokenUsage && NamesOrHolds(before, e, r)
  }

  /** Any other activity in a session that holds the run. */
  ghost predicate Notes(before: seq<Event>, e: Event, r: string) {
    IsNote(e) && Holds(before, e.sessionId, r)
  }

  ghost predicate Touches(before: seq<Event>, e: Event, r: string) {
    Counts(before, e, r) || Notes(before, e, r)
  }

  /** Another start, or one without a run id, in a session that holds the run. */
  ghost predicate Supersedes(before: seq<Event>, e: Event, r: string) {
    IsStart(e) && e.runId != r && Holds(before, e.sessionId, r)
  }

  /** The end of a session that holds the run. */
  ghost predicate EndsWithSession(before: seq<Event>, e: Event, r: string) {
    e.kind == SessionClosed && Holds(before, e.sessionId, r)
  }

  /** An end that names the run, or that names none in a session that holds it. */
  ghost predicate Terminates(before: seq<Event>, e: Event, r: string) {
    IsEnd(e) && NamesOrHolds(before, e, r)
  }

  ghost function Superseding(r: string): Meaning {
    (before: seq<Event>, e: Event) => Supersedes(before, e, r)
  }

  ghost function Settling(r: string): Meaning {
    (before: seq<Event>, e: Event) => Terminates(before, e, r) || EndsWithSession(before, e, r)
  }

  /** The run was terminated or ended with its session, and not superseded since. */
  ghost predicate Settled(log: seq<Event>, r: string) {
    var settled, superseded := LastAt(Settling(r), log), LastAt(Superseding(r), log);
    settled.Some? && (superseded.None? || superseded.value < settled.value)
  }

  /** The event closes the run; an explicit end does so unless the run is settled. */
  ghost predicate Closes(before: seq<Event>, e: Event, r: string) {
    || Supersedes(before, e, r) || EndsWithSession(before, e, r)
    || (Terminates(before, e, r) && !Settled(before, r))
  }

  ghost function Closing(r: string): Meaning {
    (before: seq<Event>, e: Event) => Closes(before, e, r)
  }

  ghost function Touching(r: string): Meaning {
    (before: seq<Event>, e: Event) => Touches(before, e, r)
  }

  ghost function Counting(r: string): Meaning {
    (before: seq<Event>, e: Event) => Counts(before, e, r)
  }

  ghost function NotingModel(r: string): Meaning {
    (before: seq<Event>, e: Event) => Notes(before, e, r) && e.payload.model != ""
  }

  ghost function NotingEffort(r: string): Meaning {
    (before: seq<Event>, e: Event) => Notes(before, e, r) && e.payload.effort != ""
  }

  // ----- The run as its log tells it -----

  function StatusBy(e: Event): RunStatus {
    match e.kind
    case RunCompleted => Completed
    case RunInterrupted => Interrupted
    case RunFailed => Failed
    case SessionClosed => Interrupted
    case _ => Superseded
  }

  function ReasonBy(e: Event): CloseReason {
    match e.kind
    case RunCompleted => ExplicitCompletion
    case RunInterrupted => ByInterruption
    case RunFailed => ByFailure
    case SessionClosed => SessionEnd
    case _ => ByNewRun
  }

  function StartTime(log: seq<Event>, r: string): Time
    requires Begun(log, r)
  {
    log[FirstStart(log, r).value].occurredAt
  }

  /** The latest of `base` and the times of the events from `first` on that mean so. */
  ghost function LatestOf(means: Meaning, log: seq<Event>, first: nat, base: Time): (t: Time)
    ensures base <= t && forall k :: first <= k < |log| && means(log[..k], log[k]) ==> log[k].occurredAt <= t
    ensures t == base || exists k :: first <= k < |log| && means(log[..k], log[k]) && log[k].occurredAt == t
  {
    if |log| <= first then base
    else
      var before, e := log[..|log| - 1], log[|log| - 1];
      assert forall k :: 0 <= k < |before| ==> before[..k] == log[..k] && before[k] == log[k];
      var earlier := LatestOf(means, before, first, base);
      if means(before, e) then Later(earlier, e.occurredAt) else earlier
  }

  /** The latest activity: since the run was last closed, or since it started if it never was. */
  ghost function Activity(log: seq<Event>, r: string): Time
    requires Begun(log, r)
    decreases |log|, 1
  {
    var k := LastAt(Closing(r), log);
    if k.Some? then LatestOf(Touching(r), log, k.value + 1, EndTime(log, r, k.value))
    else LatestOf(Touching(r), log, 0, StartTime(log, r))
  }

  /** An explicit end counts at its own time; an inferred one at most 90 seconds past the latest activity. Nothing
      ends before it starts. */
  ghost function EndTime(log: seq<Event>, r: string, k: nat): Time
    requires k < |log| && Closes(log[..k], log[k], r)
    decreases |log|, 0
  {
    ClosesBegun(log[..k], log[k], r);
    var at := if IsEnd(log[k]) then log[k].occurredAt
              else Earlier(log[k].occurredAt, Activity(log[..k], r) + 90 * SECOND);
    Later(StartTime(log[..k], r), at)
  }

  /** What the log says last, or else what the run's first start says. */
  ghost function Said<V>(means: Meaning, says: Event -> V, log: seq<Event>, first: V): V {
    var k := LastAt(means, log);
    if k.Some? then says(log[k.value]) else first
  }

  ghost function History(log: seq<Event>, r: string): Run
    requires Begun(log, r)
  {
    var start := log[FirstStart(log, r).value];
    var k := LastAt(Closing(r), log);
    Run(r, start.sessionId, start.payload.project.id, start.occurredAt,
        if k.Some? then Some(EndTime(log, r, k.value)) else None,
        Activity(log, r),
        if k.Some? then StatusBy(log[k.value]) else Running,
        Said(NotingModel(r), (e: Event) => e.payload.model, log, start.payload.model),
        Said(NotingEffort(r), (e: Event) => e.payload.effort, log, start.payload.effort),
        Said(Counting(r), (e: Event) => e.payload.usage, log, NO_TOKENS),
        if k.Some? then ReasonBy(log[k.value]) else Unclosed)
  }

  lemma {:induction false} FirstStartPrefix(log: seq<Event>, k: nat, r: string)
    requires k <= |log| && Begun(log[..k], r)
    ensures FirstStart(log, r) == FirstStart(log[..k], r)
  {
    var first := FirstStart(log[..k], r).value;
    assert Starts(log[first], r);
    assert forall j :: 0 <= j < first ==> log[j] == log[..k][j];
  }

  lemma HoldsBegun(log: seq<Event>, s: string, r: string)
    requires Holds(log, s, r)
    ensures Begun(log, r)
  {
    assert Starts(log[LastAt(StartsIn(s), log).value], r);
  }

  lemma ClosesBegun(before: seq<Event>, e: Event, r: string)
    requires Closes(before, e, r)
    ensures Begun(before, r)
  {
    if Holds(before, e.sessionId, r) {
      HoldsBegun(before, e.sessionId, r);
    }
  }

  // ----- One more event -----

  lemma LastAtSnoc(means: Meaning, before: seq<Event>, e: Event)
    ensures LastAt(means, before + [e]) == if means(before, e) then Some(|before|) else LastAt(means, before)
  {
    assert (before + [e])[..|before|] == before;
  }

  lemma FirstStartSnoc(before: seq<Event>, e: Event, r: string)
    ensures FirstStart(before + [e], r) ==
            if Begun(before, r) then FirstStart(before, r) else if Starts(e, r) then Some(|before|) else None
  {
    assert (before + [e])[..|before|] == before;
  }

  lemma HoldsSnoc(before: seq<Event>, e: Event, s: string, r: string)
    ensures Holds(before + [e], s, r) <==>
            if IsStart(e) && e.runId != "" && e.sessionId == s then e.runId == r
            else Holds(before, s, r) && !Releases(e, s, r)
  {
    LastAtSnoc(StartsIn(s), before, e);
    var log, j := before + [e], LastAt(StartsIn(s), before + [e]);
    assert forall i :: 0 <= i < |before| ==> log[i] == before[i];
    if j.Some? && j.value < |before| && Holds(log, s, r) {
      assert log[|before|] == e;
    }
  }

  lemma SettledSnoc(before: seq<Event>, e: Event, r: string)
    ensures Settled(before + [e], r) <==>
            && !Supersedes(before, e, r)
            && (Terminates(before, e, r) || EndsWithSession(before, e, r) || Settled(before, r))
  {
    LastAtSnoc(Settling(r), before, e);
    LastAtSnoc(Superseding(r), before, e);
  }

  lemma LatestOfSnoc(means: Meaning, before: seq<Event>, e: Event, first: nat, base: Time)
    requires first <= |before|
    ensures LatestOf(means, before + [e], first, base) ==
            var earlier := LatestOf(means, before, first, base);
            if means(before, e) then Later(earlier, e.occurredAt) else earlier
  {
    assert (before + [e])[..|before|] == before;
  }

  lemma EndTimeStays(before: seq<Event>, e: Event, r: string, k: nat)
    requires k < |before| && Closes(before[..k], before[k], r)
    ensures (before + [e])[..k] == before[..k] && (before + [e])[k] == before[k]
    ensures EndTime(before + [e], r, k) == EndTime(before, r, k)
  {
    assert (before + [e])[..k] == before[..k];
  }

  /** When the event closes the run. */
  ghost function EndNow(before: seq<Event>, e: Event, r: string): Time
    requires Begun(before, r)
  {
    var at := if IsEnd(e) then e.occurredAt else Earlier(e.occurredAt, Activity(before, r) + 90 * SECOND);
    Later(StartTime(before, r), at)
  }

  lemma EndTimeNow(before: seq<Event>, e: Event, r: string)
    requires Closes(before, e, r)
    ensures Begun(before, r)
    ensures (before + [e])[..|before|] == before && (before + [e])[|before|] == e
    ensures EndTime(before + [e], r, |before|) == EndNow(before, e, r)
  {
    ClosesBegun(before, e, r);
    assert (before + [e])[..|before|] == before;
  }

  lemma ActivitySnoc(before: seq<Event>, e: Event, r: string)
    requires Begun(before, r) && Begun(before + [e], r)
    ensures Activity(before + [e], r) ==
            if Closes(before, e, r) then EndNow(before, e, r)
            else if Touches(before, e, r) then Later(Activity(before, r), e.occurredAt)
            else Activity(before, r)
  {
    LastAtSnoc(Closing(r), before, e);
    FirstStartSnoc(before, e, r);
    if Closes(before, e, r) {
      EndTimeNow(before, e, r);
    } else {
      var k := LastAt(Closing(r), before);
      if k.Some? {
        EndTimeStays(before, e, r, k.value);
        LatestOfSnoc(Touching(r), before, e, k.value + 1, EndTime(before, r, k.value));
      } else {
        LatestOfSnoc(Touching(r), before, e, 0, StartTime(before, r));
      }
    }
  }

  lemma SaidSnoc<V>(means: Meaning, says: Event -> V, before: seq<Event>, e: Event, first: V)
    ensures Said(means, says, before + [e], first) ==
            if means(before, e) then says(e) else Said(means, says, before, first)
  {
    LastAtSnoc(means, before, e);
  }

  /** What one more event makes of a run that has begun. */
  ghost function Next(before: seq<Event>, e: Event, r: string): Run
    requires Begun(before, r)
  {
    NextOf(History(before, r), e, EndNow(before, e, r), Closes(before, e, r), Counts(before, e, r), Notes(before, e, r))
  }

  function NextOf(run: Run, e: Event, end: Time, closes: bool, counts: bool, notes: bool): Run {
    if closes then Closed(run, end, StatusBy(e), ReasonBy(e))
    else if counts then
      run.(tokens := e.payload.usage, lastActivityAt := Later(run.lastActivityAt, e.occurredAt))
    else if notes then
      run.(model := if e.payload.model != "" then e.payload.model else run.model,
           effort := if e.payload.effort != "" then e.payload.effort else run.effort,
           lastActivityAt := Later(run.lastActivityAt, e.occurredAt))
    else run
  }

  function Closed(run: Run, end: Time, status: RunStatus, reason: CloseReason): Run {
    run.(endedAt := Some(end), lastActivityAt := end, status := status, closeReason := reason)
  }

  lemma SaidsSnoc(before: seq<Event>, e: Event, r: string)
    requires Begun(before, r) && Begun(before + [e], r)
    ensures
      var run, next := History(before, r), History(before + [e], r);
      && next.model == (if Notes(before, e, r) && e.payload.model != "" then e.payload.model else run.model)
      && next.effort == (if Notes(before, e, r) && e.payload.effort != "" then e.payload.effort else run.effort)
      && next.tokens == (if Counts(before, e, r) then e.payload.usage else run.tokens)
  {
    FirstStartSnoc(before, e, r);
    var start := before[FirstStart(before, r).value];
    assert (before + [e])[FirstStart(before, r).value] == start;
    SaidSnoc(NotingModel(r), (e: Event) => e.payload.model, before, e, start.payload.model);
    SaidSnoc(NotingEffort(r), (e: Event) => e.payload.effort, before, e, start.payload.effort);
    SaidSnoc(Counting(r), (e: Event) => e.payload.usage, before, e, NO_TOKENS);
  }

  lemma ClosingSnoc(before: seq<Event>, e: Event, r: string)
    requires Begun(before, r) && Begun(before + [e], r)
    ensures
      var run, next := History(before, r), History(before + [e], r);
      if Closes(before, e, r) then
        next.endedAt == Some(EndNow(before, e, r)) && next.status == StatusBy(e) && next.closeReason == ReasonBy(e)
      else next.endedAt == run.endedAt && next.status == run.status && next.closeReason == run.closeReason
  {
    LastAtSnoc(Closing(r), before, e);
    if Closes(before, e, r) {
      EndTimeNow(before, e, r);
    } else {
      var k := LastAt(Closing(r), before);
      if k.Some? {
        EndTimeStays(before, e, r, k.value);
      }
    }
  }

  lemma StartStays(before: seq<Event>, e: Event, r: string)
    requires Begun(before, r)
    ensures Begun(before + [e], r)
    ensures
      var run, next := History(before, r), History(before + [e], r);
      next.id == run.id && next.sessionId == run.sessionId && next.projectId == run.projectId
      && next.startedAt == run.startedAt
  {
    FirstStartSnoc(before, e, r);
    assert (before + [e])[FirstStart(before, r).value] == before[FirstStart(before, r).value];
  }

  lemma ActivityStep(before: seq<Event>, e: Event, r: string)
    requires Begun(before, r) && Begun(before + [e], r)
    ensures
      var run, next := History(before, r), History(before + [e], r);
      next.lastActivityAt == if Closes(before, e, r) then EndNow(before, e, r)
                             else if Counts(before, e, r) || Notes(before, e, r)
                             then Later(run.lastActivityAt, e.occurredAt) else run.lastActivityAt
  {
    ActivitySnoc(before, e, r);
  }

  lemma OneMeaning(before: seq<Event>, e: Event, r: string)
    ensures !(Closes(before, e, r) && Counts(before, e, r)) && !(Closes(before, e, r) && Notes(before, e, r))
    ensures !(Counts(before, e, r) && Notes(before, e, r))
  {
  }

  lemma Assemble(run: Run, next: Run, e: Event, end: Time, closes: bool, counts: bool, notes: bool)
    requires !(closes && counts) && !(closes && notes) && !(counts && notes)
    requires next.id == run.id && next.sessionId == run.sessionId && next.projectId == run.projectId
    requires next.startedAt == run.startedAt
    requires next.model == (if notes && e.payload.model != "" then e.payload.model else run.model)
    requires next.effort == (if notes && e.payload.effort != "" then e.payload.effort else run.effort)
    requires next.tokens == (if counts then e.payload.usage else run.tokens)
    requires next.endedAt == (if closes then Some(end) else run.endedAt)
    requires next.status == (if closes then StatusBy(e) else run.status)
    requires next.closeReason == (if closes then ReasonBy(e) else run.closeReason)
    requires next.lastActivityAt == if closes then end else if counts || notes
                                    then Later(run.lastActivityAt, e.occurredAt) else run.lastActivityAt
    ensures next == NextOf(run, e, end, closes, counts, notes)
  {
  }

  lemma HistorySnoc(before: seq<Event>, e: Event, r: string)
    requires Begun(before, r)
    ensures Begun(before + [e], r) && History(before + [e], r) == Next(before, e, r)
  {
    StartStays(before, e, r);
    SaidsSnoc(before, e, r);
    ClosingSnoc(before, e, r);
    ActivityStep(before, e, r);
    OneMeaning(before, e, r);
    Assemble(History(before, r), History(before + [e], r), e, EndNow(before, e, r), Closes(before, e, r),
             Counts(before, e, r), Notes(before, e, r));
  }

  lemma NotYetBegun(log: seq<Event>, k: nat, r: string)
    requires k < |log| && !Begun(log, r)
    ensures !Closes(log[..k], log[k], r) && !Touches(log[..k], log[k], r)
  {
    if Begun(log[..k], r) {
      FirstStartPrefix(log, k, r);
    }
    if Closes(log[..k], log[k], r) {
      ClosesBegun(log[..k], log[k], r);
    }
    if Holds(log[..k], log[k].sessionId, r) {
      HoldsBegun(log[..k], log[k].sessionId, r);
    }
  }

  lemma FreshLog(before: seq<Event>, e: Event, r: string, k: nat)
    requires !Begun(before, r) && Starts(e, r) && k <= |before|
    ensures !Closes((before + [e])[..k], (before + [e])[k], r) && !Touches((before + [e])[..k], (before + [e])[k], r)
  {
    assert (before + [e])[..k] == before[..k];
    if k < |before| {
      NotYetBegun(before, k, r);
    } else {
      assert before[..k] == before;
    }
  }

  lemma HistoryNew(before: seq<Event>, e: Event, r: string)
    requires !Begun(before, r) && Starts(e, r)
    ensures Begun(before + [e], r)
    ensures History(before + [e], r) ==
            Run(r, e.sessionId, e.payload.project.id, e.occurredAt, None, e.occurredAt, Running, e.payload.model,
                e.payload.effort, NO_TOKENS, Unclosed)
  {
    var log := before + [e];
    FirstStartSnoc(before, e, r);
    forall k | 0 <= k < |log|
      ensures !Closes(log[..k], log[k], r) && !Touches(log[..k], log[k], r)
    {
      FreshLog(before, e, r, k);
    }
    assert LastAt(Closing(r), log).None?;
    assert LastAt(Counting(r), log).None?;
    assert LastAt(NotingModel(r), log).None?;
    assert LastAt(NotingEffort(r), log).None?;
    assert Activity(log, r) == LatestOf(Touching(r), log, 0, e.occurredAt);
  }

  // ----- The projection computes the history -----

  ghost predicate Held(st: P.State, s: string, r: string) {
    s in st.active && st.active[s] == r
  }

  lemma HeldStep(st: P.State, e: Event, s: string, r: string)
    requires st.Valid()
    ensures Held(P.Step(st, e), s, r) <==>
            if IsStart(e) && e.runId != "" && e.sessionId == s then e.runId == r
            else Held(st, s, r) && !Releases(e, s, r)
  {
    if IsStart(e) {
      HeldAtStart(st, e, s, r);
    } else if IsEnd(e) {
      HeldAtEnd(st, e, s, r);
    } else if e.kind == SessionClosed {
      HeldAtClose(st, e, s, r);
    }
  }

  lemma HeldAtStart(st: P.State, e: Event, s: string, r: string)
    requires st.Valid() && IsStart(e)
    ensures Held(P.Step(st, e), s, r) <==>
            if e.runId != "" && e.sessionId == s then e.runId == r else Held(st, s, r)
  {
  }

  lemma HeldAtEnd(st: P.State, e: Event, s: string, r: string)
    requires st.Valid() && IsEnd(e)
    ensures Held(P.Step(st, e), s, r) <==> Held(st, s, r) && !Releases(e, s, r)
  {
  }

  lemma HeldAtClose(st: P.State, e: Event, s: string, r: string)
    requires st.Valid() && e.kind == SessionClosed
    ensures Held(P.Step(st, e), s, r) <==> Held(st, s, r) && !Releases(e, s, r)
  {
  }

  lemma KnownStep(st: P.State, e: Event, r: string)
    requires st.Valid()
    ensures r in P.Step(st, e).runs <==> r in st.runs || Starts(e, r)
    ensures r !in st.runs && Starts(e, r) ==>
              P.Step(st, e).runs[r] == Run(r, e.sessionId, e.payload.project.id, e.occurredAt, None, e.occurredAt,
                                           Running, e.payload.model, e.payload.effort, NO_TOKENS, Unclosed)
  {
  }

  function Inferred(run: Run, e: Event): Time {
    Later(run.startedAt, Earlier(e.occurredAt, run.lastActivityAt + 90 * SECOND))
  }

  /** What an event makes of a known run that its session holds, or does not hold. */
  function Changed(run: Run, e: Event, held: bool): Run {
    var named := e.runId == run.id || (e.runId == "" && held);
    if IsStart(e) then (if held && e.runId != run.id then Closed(run, Inferred(run, e), Superseded, ByNewRun) else run)
    else if e.kind == TokenUsage then
      if named then run.(tokens := e.payload.usage, lastActivityAt := Later(run.lastActivityAt, e.occurredAt)) else run
    else if IsEnd(e) then
      if named && (run.endedAt.None? || run.status == Superseded || run.status == Abandoned) then
        Closed(run, Later(run.startedAt, e.occurredAt), StatusBy(e), ReasonBy(e))
      else run
    else if e.kind == SessionClosed then
      if held then Closed(run, Inferred(run, e), Interrupted, SessionEnd) else run
    else if held then
      run.(model := if e.payload.model != "" then e.payload.model else run.model,
           effort := if e.payload.effort != "" then e.payload.effort else run.effort,
           lastActivityAt := Later(run.lastActivityAt, e.occurredAt))
    else run
  }

  lemma StartChanges(st: P.State, e: Event, r: string)
    requires st.Valid() && r in st.runs && IsStart(e)
    ensures r in P.Step(st, e).runs && P.Step(st, e).runs[r] == Changed(st.runs[r], e, Held(st, e.sessionId, r))
  {
  }

  lemma EndChanges(st: P.State, e: Event, r: string)
    requires st.Valid() && r in st.runs && IsEnd(e)
    ensures r in P.Step(st, e).runs && P.Step(st, e).runs[r] == Changed(st.runs[r], e, Held(st, e.sessionId, r))
  {
  }

  lemma CloseChanges(st: P.State, e: Event, r: string)
    requires st.Valid() && r in st.runs && e.kind == SessionClosed
    ensures r in P.Step(st, e).runs && P.Step(st, e).runs[r] == Changed(st.runs[r], e, Held(st, e.sessionId, r))
  {
  }

  lemma CountChanges(st: P.State, e: Event, r: string)
    requires st.Valid() && r in st.runs && e.kind == TokenUsage
    ensures r in P.Step(st, e).runs && P.Step(st, e).runs[r] == Changed(st.runs[r], e, Held(st, e.sessionId, r))
  {
  }

  lemma NoteChanges(st: P.State, e: Event, r: string)
    requires st.Valid() && r in st.runs && IsNote(e)
    ensures r in P.Step(st, e).runs && P.Step(st, e).runs[r] == Changed(st.runs[r], e, Held(st, e.sessionId, r))
  {
  }

  lemma StepChanges(st: P.State, e: Event, r: string)
    requires st.Valid() && r in st.runs
    ensures r in P.Step(st, e).runs && P.Step(st, e).runs[r] == Changed(st.runs[r], e, Held(st, e.sessionId, r))
  {
    if IsStart(e) {
      StartChanges(st, e, r);
    } else if IsEnd(e) {
      EndChanges(st, e, r);
    } else if e.kind == SessionClosed {
      CloseChanges(st, e, r);
    } else if e.kind == TokenUsage {
      CountChanges(st, e, r);
    } else {
      NoteChanges(st, e, r);
    }
  }

  ghost predicate Agrees(st: P.State, log: seq<Event>, r: string) {
    && (r in st.runs <==> Begun(log, r))
    && (r in st.runs ==> st.runs[r] == History(log, r))
    && (r in st.runs ==> (Settled(log, r) <==> IsSettled(st.runs[r])))
    && (forall s :: Held(st, s, r) <==> Holds(log, s, r))
  }

  /** What the event means for a run that has begun, when the session holds it or not and it is settled or not. */
  lemma Meanings(before: seq<Event>, e: Event, r: string, held: bool, settled: bool)
    requires Begun(before, r) && (held <==> Holds(before, e.sessionId, r)) && (settled <==> Settled(before, r))
    ensures
      var named := e.runId == r || (e.runId == "" && held);
      && (Supersedes(before, e, r) <==> IsStart(e) && e.runId != r && held)
      && (EndsWithSession(before, e, r) <==> e.kind == SessionClosed && held)
      && (Terminates(before, e, r) <==> IsEnd(e) && named)
      && (Closes(before, e, r) <==>
            (IsStart(e) && e.runId != r && held) || (e.kind == SessionClosed && held)
            || (IsEnd(e) && named && !settled))
      && (Counts(before, e, r) <==> e.kind == TokenUsage && named)
      && (Notes(before, e, r) <==> IsNote(e) && held)
  {
  }

  lemma EndOfHistory(before: seq<Event>, e: Event, r: string, run: Run)
    requires Begun(before, r) && run == History(before, r)
    ensures run.id == r
    ensures EndNow(before, e, r) == if IsEnd(e) then Later(run.startedAt, e.occurredAt) else Inferred(run, e)
  {
  }

  predicate IsSettled(run: Run) {
    run.endedAt.Some? && run.status != Superseded && run.status != Abandoned
  }

  lemma NextIsChanged(before: seq<Event>, e: Event, r: string, run: Run, held: bool, settled: bool)
    requires Begun(before, r) && run == History(before, r) && (settled <==> IsSettled(run))
    requires (held <==> Holds(before, e.sessionId, r)) && (settled <==> Settled(before, r))
    ensures Next(before, e, r) == Changed(run, e, held)
    ensures Settled(before + [e], r) <==> IsSettled(Changed(run, e, held))
  {
    Meanings(before, e, r, held, settled);
    EndOfHistory(before, e, r, run);
    SettledSnoc(before, e, r);
    ChangedIsNext(run, e, held, EndNow(before, e, r), Closes(before, e, r), Counts(before, e, r), Notes(before, e, r));
    ChangedSettles(run, e, held);
  }

  lemma ChangedIsNext(run: Run, e: Event, held: bool, end: Time, closes: bool, counts: bool, notes: bool)
    requires end == if IsEnd(e) then Later(run.startedAt, e.occurredAt) else Inferred(run, e)
    requires
      var named := e.runId == run.id || (e.runId == "" && held);
      && (closes <==> (IsStart(e) && e.runId != run.id && held) || (e.kind == SessionClosed && held)
                      || (IsEnd(e) && named && !IsSettled(run)))
      && (counts <==> e.kind == TokenUsage && named)
      && (notes <==> IsNote(e) && held)
    ensures NextOf(run, e, end, closes, counts, notes) == Changed(run, e, held)
  {
  }

  lemma ChangedSettles(run: Run, e: Event, held: bool)
    ensures
      var named := e.runId == run.id || (e.runId == "" && held);
      IsSettled(Changed(run, e, held)) <==>
      !(IsStart(e) && e.runId != run.id && held)
      && ((IsEnd(e) && named) || (e.kind == SessionClosed && held) || IsSettled(run))
  {
  }

  lemma NotSettledYet(before: seq<Event>, e: Event, r: string)
    requires !Begun(before, r) && Starts(e, r)
    ensures !Settled(before + [e], r)
  {
    SettledSnoc(before, e, r);
    if Holds(before, e.sessionId, r) {
      HoldsBegun(before, e.sessionId, r);
    }
    var k := LastAt(Settling(r), before);
    if k.Some? {
      if Holds(before[..k.value], before[k.value].sessionId, r) {
        HoldsBegun(before[..k.value], before[k.value].sessionId, r);
      }
      FirstStartPrefix(before, k.value, r);
    }
  }

  lemma StepAgrees(st: P.State, before: seq<Event>, e: Event, r: string)
    requires st.Valid() && Agrees(st, before, r)
    ensures Agrees(P.Step(st, e), before + [e], r)
  {
    KnownStep(st, e, r);
    FirstStartSnoc(before, e, r);
    forall s
      ensures Held(P.Step(st, e), s, r) <==> Holds(before + [e], s, r)
    {
      HeldStep(st, e, s, r);
      HoldsSnoc(before, e, s, r);
    }
    if r in st.runs {
      StepChanges(st, e, r);
      NextIsChanged(before, e, r, st.runs[r], Held(st, e.sessionId, r), Settled(before, r));
      HistorySnoc(before, e, r);
    } else if Starts(e, r) {
      HistoryNew(before, e, r);
      NotSettledYet(before, e, r);
    }
  }

  lemma {:induction false} FoldAgrees(log: seq<Event>, r: string)
    ensures Agrees(P.Fold(log), log, r)
  {
    if |log| > 0 {
      var before, e := log[..|log| - 1], log[|log| - 1];
      assert log == before + [e];
      FoldAgrees(before, r);
      StepAgrees(P.Fold(before), before, e, r);
    }
  }

  /** A run is projected if and only if some start names it, and then every field of it is what its log last says. */
  lemma RunsTellTheirHistory(events: seq<Event>, r: string)
    ensures
      var log := P.Kept(P.Ordered(events));
      && (r in P.ProjectedRuns(events) <==> Begun(log, r))
      && (r in P.ProjectedRuns(events) ==> P.ProjectedRuns(events)[r] == History(log, r))
  {
    FoldAgrees(P.Kept(P.Ordered(events)), r);
  }

  lemma SaidLast<V>(means: Meaning, says: Event -> V, log: seq<Event>, first: V, k: nat)
    requires k < |log| && means(log[..k], log[k]) && forall j :: k < j < |log| ==> !means(log[..j], log[j])
    ensures Said(means, says, log, first) == says(log[k])
  {
    var last := LastAt(means, log);
    assert last.Some? && !(last.value < k) && !(k < last.value);
  }

  lemma NeverSaid<V>(means: Meaning, says: Event -> V, log: seq<Event>, first: V)
    requires forall j :: 0 <= j < |log| ==> !means(log[..j], log[j])
    ensures Said(means, says, log, first) == first
  {
  }

  /** The event is the last token count of the run's own. */
  ghost predicate CountsLast(log: seq<Event>, k: nat, r: string) {
    k < |log| && Counts(log[..k], log[k], r) && forall j :: k < j < |log| ==> !Counts(log[..j], log[j], r)
  }

  /** A run's tokens are the usage of the last token count of its own: one that names it, or one that names no run and
      falls in a session that holds it. Without any, it has none. */
  lemma TokensOfRun(events: seq<Event>, r: string, k: nat)
    requires r in P.ProjectedRuns(events)
    ensures
      var log := P.Kept(P.Ordered(events));
      && (CountsLast(log, k, r) ==> P.ProjectedRuns(events)[r].tokens == log[k].payload.usage)
      && ((forall j :: 0 <= j < |log| ==> !Counts(log[..j], log[j], r)) ==>
            P.ProjectedRuns(events)[r].tokens == NO_TOKENS)
  {
    var log, says := P.Kept(P.Ordered(events)), (e: Event) => e.payload.usage;
    RunsTellTheirHistory(events, r);
    assert History(log, r).tokens == Said(Counting(r), says, log, NO_TOKENS);
    if CountsLast(log, k, r) {
      SaidLast(Counting(r), says, log, NO_TOKENS, k);
    } else if forall j :: 0 <= j < |log| ==> !Counts(log[..j], log[j], r) {
      NeverSaid(Counting(r), says, log, NO_TOKENS);
    }
  }

  /** A count that names another run is none of the run's own. */
  lemma CountsElsewhere(before: seq<Event>, e: Event, r: string)
    requires e.runId != "" && e.runId != r
    ensures !Counts(before, e, r)
  {
  }
}
