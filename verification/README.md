# Codex Tempo, verified

Codex Tempo tracks the time that coding agents work. Scanners read append-only transcripts and hook heartbeats on each
machine and turn them into immutable events. A local queue ships the events to a server, at least once each. A
projector folds events into runs, on the machine and on the server, and an interval calculator turns runs into
wall-clock time, agent time, concurrency and token figures. This project models these parts in Dafny and proves what
the figures mean, what survives lost messages, crashes, overlapping scans, overlapping requests and repeated reads, and
where the code does less than its comments say.

How the files follow the program:

- `Intervals`, `Sweep`, `Summaries`, `Measures`, `Dashboard`: clipping, merging and summarising. The reference
  measures in `Summaries` are sums over the instants of the window of what holds at each instant (some run active; how
  many runs; how many projects). The code's sort, merge and sweep are proved to compute them.
- `Projection`, `EventOrder`, `RunInvariants`, `SessionLocality`, `Termination`, `InferredClosure`: the projection as
  a fold of events, and its laws. `RunHistory` says of every field of a run which event of the log it stems from,
  without the fold, and is proved to describe the projection of every log. `Projector` is the program's own form, run objects shared by two maps and changed in
  place, proved to refine the fold. `Reconcile` and `Report` expire leases and put the local report together.
- `LocalTables`, `LocalStore`, `Scanning`, `Transcript`, `Parser`, `Metrics`, `MetricRows`, `Agent`: the local database, the two
  resumable scanners under any schedule of appends, overlapping scans, crashes before a commit and cursor resets, and
  the passes that join them.
- `Story`, `MetricHistory`: from the decoded records of a transcript to the runs that come out of parser and projector,
  and to the token reports that come out of the token scanner, without either's step functions.
- `WorkUnits`, `Heartbeats`, `Wakapi`, `Cutover`: the bridges from intervals of work to events, followed to the reported
  figure.
- `ServerTables`, `ProjectTable`, `Rebuilding`, `Server`: ingestion, the project table, session rebuilds and reads, one
  request at a time. `ServerHistory` interleaves any number of requests: each commits, then for every session it touched
  reads the session's rows and later writes their projection, unless it fails or is cut short. `Overtaken` is one such
  history. `Reading` compares what a query returns with the whole table.
- `SyncProtocol`, `SyncClient`, `EndToEnd`: delivery with lost requests, lost replies, retries and several clients at
  once; one client's round and the drain loop; and one system from the queue to the run table, with the result that
  spans everything, `EndToEnd.ReadShowsLocalWork`.
- `Findings`: concrete inputs for the findings below.
- `Domain`, `Sums`, `TokenSums`, `Sorting`, `Ranging`: the entities, finite sums, the library sorts (as stable insertion; nothing
  is proved about the order of equal elements that the program does not itself promise), and loops over sets.

## Findings

- The comment that an explicit terminal event may correct an inferred closure (internal/projector/projector.go:130)
  holds if and only if the closure did not come from the end of the session: `Termination.InferredClosureCorrected`
  for all logs, `Findings.SessionEndIsNotCorrected` for a log of three events. The code is followed.
- Token figures are not additive over adjoining windows: a run that straddles the cut is charged in both.
  `Measures.TokensAddUp` gives the exact difference, `Measures.StraddlingTokensTwice` one run cut in the middle. Times
  are additive (`Measures.WindowsAddUp`).
- A completed turn in which no counter grew reports the last usage again (internal/codex/metrics.go:102-104), so
  emitted tokens match the counters if and only if those repetitions are zero: `MetricHistory.TokensConserved`, and
  `Findings.TwoTurnsRepeat` for a transcript that emits twenty tokens for ten.
- A rebuild reads the session's events before its transaction opens (internal/postgres/store.go:141 and :161), and two
  clients can serve one queue (apps/agent/main.go:61-63, apps/cli/main.go:257). When one rebuild overtakes another, the
  older projection replaces the newer one for good, although no rebuild fails and both requests are answered:
  `Overtaken.OvertakenRebuild`, for a run whose completion stays unseen. What holds in every history is that the rows
  are the projection of the snapshot written last (`ServerHistory.HistorySound`, `ServerHistory.ReadShowsWritten`); a
  read shows the session's log when that snapshot was read after the session's last change
  (`ServerHistory.ReadShowsProjection`).
- A turn that completes twice emits its usage in two groups of events with the same ids, so the table keeps the first
  and every report misses the second: `MetricRows.MetricsAddTokensOnly` for all scans, with the condition under which
  nothing is missed, and `Findings.TurnCompletedTwice` for the transcripts concerned, such as one that counts
  twenty-five tokens of which ten are reported (`Findings.TenOfTwentyFive`).
- The local report reads events from twelve hours before its window on (apps/cli/main.go:53). That is enough for
  unfinished runs (`Report.LookbackSuffices`), but a completed run is reported if and only if a start of it lies in that
  stretch: `Report.ReportedIffStartRead`, and `Report.LongRunMissed` for a run of more than twelve hours that fills the
  window and is missing.
- The server's query for runs drops a run of no length right at the start of the window (internal/postgres/store.go:250),
  which a summary counts. It misses exactly the tokens of such runs and nothing else: `Reading.ReadLosesNothing`.
- The drain loop of the Wakapi import ends with an empty queue if and only if the server refuses none of the pending
  events, once batches cannot meet foreign slots and rebuilds cannot fail: `SyncClient.Drain`, `SyncClient.DrainsIff`.
  An event read before its transcript names the session is refused for ever: `Findings.SessionlessEventNeverDrains`.
- Project fingerprints are unique (internal/postgres/schema.go:5), but the insert handles a conflict of ids only
  (internal/postgres/store.go:181), and Wakapi fingerprints are lower-cased while ids and names are not
  (apps/cli/main.go:347-350). Importing "Foo" and "foo" commits the events, fails one of the two rebuilds in either
  order, and sending the events again rebuilds nothing: `Findings.FooAndFoo`. `Rebuilding.Rebuildable` is the exact
  condition of a rebuild.

## Model

| member | source | states |
|---|---|---|
| Intervals.Clip | internal/interval/interval.go:29-37 | The clipped interval holds exactly the instants of the interval inside the window, and the flag is true exactly when there is one. |
| Intervals.Merge | internal/interval/interval.go:39-63 | The merged list is sorted, non-empty, strictly separated, and covers exactly the instants the input covers, empty and inverted inputs included. |
| Intervals.CanonicalUnique | internal/interval/interval.go:39-63 | Two sorted, separated lists that cover the same instants are the same list, so merging is idempotent and depends neither on the order nor on the division of its input. |
| Intervals.LengthsAreCoverage | internal/interval/interval.go:65-71 | Adding up lengths is summing, over instants, how many intervals contain the instant. |
| Intervals.UnionLength | internal/interval/interval.go:39-71 | The duration of the merged list counts every covered instant exactly once. |
| Sweep.CoverageBetween | internal/interval/interval.go:118-124 | Between two neighbouring points the counter is the number of half-open intervals that contain the instant. |
| Sweep.OpenNonNegative | internal/interval/interval.go:118-124 | Although ends precede starts at one instant, the counter is never negative. |
| Sweep.OpenAtStart | internal/interval/interval.go:112-127 | Because ends come first, the counter just after a start never exceeds the coverage of that instant. |
| Sweep.AreaStep | internal/interval/interval.go:120-123 | One turn of the sweep adds exactly the coverage summed over the instants it passes. |
| Sweep.SweepLine | internal/interval/interval.go:112-128 | `weighted` is the sum of the coverage over all instants, the peak is the largest coverage of any instant and is attained, and the counter ends at zero. |
| Summaries.ClippedCoverage | internal/interval/interval.go:82-97 | The clipped intervals cover an instant of the window as often as runs occupy it, and no instant outside. |
| Summaries.UnionOfClipped | internal/interval/interval.go:107-109 | Any sorted, separated list with the cover of the clipped runs has the wall-clock time as its length. |
| Summaries.Collect | internal/interval/interval.go:82-106 | The collecting loop yields the clipped intervals, the same grouped by project, their end points, the number of visible runs, the concurrency summed over the window, and the tokens of visible and momentary runs. |
| Summaries.SumProjects | internal/interval/interval.go:108-111 | In whatever order the map is walked, each project's span is its own wall-clock time, and together they are the number of busy projects summed over instants. |
| Summaries.Summarize | internal/interval/interval.go:73-133 | Every field of the summary is the instant-wise measure it is named after, for every list of runs and every window, inverted windows included. |
| Measures.TimesOrdered | internal/interval/interval.go:97-111 | Wall-clock time is at most agent time, which is at most session agent time. |
| Measures.SpanWithinWallClock | internal/interval/interval.go:107-111 | No project's span exceeds the wall-clock time. |
| Measures.WallClockWithinWindow | internal/interval/interval.go:87-107 | Wall-clock time never exceeds the window. |
| Measures.WeightedWithinPeak | internal/interval/interval.go:107-131 | Wall-clock time is at most the weighted time, which is at most the peak times the wall-clock time. |
| Measures.AverageBetweenOneAndPeak | internal/interval/interval.go:129-131 | Whenever any time was worked, the average parallelism lies between one and the peak. |
| Measures.AreaIsLengths | internal/interval/interval.go:98-98 | Session agent time is the sum of what each run occupies of the window. |
| Measures.NoOverlap | internal/interval/interval.go:97-111 | When no instant has two runs, the three time measures coincide. |
| Measures.WindowsAddUp | internal/interval/interval.go:82-111 | All time measures and every project span of a window are the sums of those of its two halves. |
| Measures.TokensAddUp | internal/interval/interval.go:87-102 | The tokens of two adjoining windows exceed those of the whole by exactly the tokens of the runs that straddle the cut. |
| Measures.StraddlingTokensTwice | internal/interval/interval.go:87-102 | One run cut in the middle: both halves charge all its tokens. |
| Measures.MomentaryCountedOnce | internal/interval/interval.go:88-95 | A run of no length is counted in exactly one half of a window that counts it. |
| Measures.NoLengthAddsTokensOnly | internal/interval/interval.go:87-96 | Runs of no length add their tokens and leave every time, the concurrency of every instant and the run count as they were. |
| Measures.ReportIgnoresOrder | internal/interval/interval.go:73-133 | Every figure depends only on which runs there are and how often, not on their order. |
| Dashboard.MergeIntervals | apps/web/components/timeline.tsx:268-280 | Sorting by start alone and extending in place also yields the sorted, separated list with the input's cover. |
| Dashboard.GroupByProject | apps/web/components/timeline.tsx:238-266 | Each visible project is drawn once, the latest activity first, with its name, its colour by the place of its id among the sorted ids, the one canonical list of its activity, its wall-clock time as total, and the last end of its activity. |
| Dashboard.TwoUnionsAgree | apps/web/components/timeline.tsx:238-280 | For closed runs the dashboard draws the very intervals that the server's merge produces and shows the same total. |
| Dashboard.LineShowsRuns | apps/web/components/timeline.tsx:238-266 | For all runs, a project's line covers exactly the instants of the range at which one of its runs is under way, an open run counting until its last activity. |
| Dashboard.NameGivenLast | apps/web/components/timeline.tsx:238-266 | A project's name is the last one given for its id, or the first eight characters of the id when that is empty or there is none. |
| EventOrder.EventLeTotalPreorder | internal/projector/projector.go:25-36 | The four-key comparison is a total preorder, as sorting needs. |
| EventOrder.LogInOrder | internal/projector/projector.go:25-36 | The log that is folded is in order of session, then sequence, then time, then id, each later key deciding only when the earlier ones are equal. |
| EventOrder.StringLeLexicographic | internal/projector/projector.go:26-36 | Texts compare as in the program: a prefix comes first, and otherwise the first difference decides. |
| EventOrder.KeptIsFirst | internal/projector/projector.go:41-44 | Every event that takes part has an id, and is the first with it. |
| EventOrder.FirstIsKept | internal/projector/projector.go:41-44 | And every first event of an id takes part. |
| EventOrder.ProjectionOfSet | internal/projector/projector.go:24-45 | When equal ids mean equal events, the projection depends only on the set of events that have an id: neither order nor repetition changes it. |
| RunHistory.RunsTellTheirHistory | internal/projector/projector.go:23-158 | A run is projected if and only if some start names it, for every log. Its session, project and start are those of its first start; its tokens those of the last count of its own; its model and effort the last non-empty ones noted while a session held it, or those of its start; its end, status and reason those of the last event that closed it, where an explicit end does not close a run that was ended explicitly or with its session and not superseded since; inferred ends come at most 90 seconds after the latest activity, and nothing ends before it starts; its last activity is the latest since it was last closed. A session holds the run last started in it until an end that names it or none, or the end of the session. |
| RunHistory.TokensOfRun | internal/projector/projector.go:62-72 | A run's tokens are the usage of the last token count that names it, or that names none and falls in a session that holds it; without any it has none. |
| RunHistory.CountsElsewhere | internal/projector/projector.go:63-65 | A token count that names another run is none of the run's own. |
| RunInvariants.StepKeepsSound | internal/projector/projector.go:46-93 | Every event keeps it true that an open run is the active run of its own session, and that an ended run ends after it starts and no later than its last activity. |
| RunInvariants.FoldSound | internal/projector/projector.go:37-95 | The same for every log. |
| RunInvariants.OneOpenRun | internal/projector/projector.go:37-95 | After any log a session has at most one open run, even when sessions name each other's runs. |
| RunInvariants.RunsLast | internal/projector/projector.go:46-94 | Whatever follows, no run disappears, changes its session, project or start, or is reopened. |
| SessionLocality.FoldOwned | internal/projector/projector.go:37-95 | When run ids are not shared between sessions, each run comes from an event of its session and each session's active run is its own. |
| SessionLocality.ProjectionIsLocal | internal/projector/projector.go:23-102 | The runs and the active run of a session in the projection of the whole log are those of the projection of its events alone. |
| Termination.ExplicitTerminationWins | internal/projector/projector.go:23-137 | In every projection, because the log is sorted by session first, the first terminal event that applies to a run fixes its status and its end, clamped to the start, for the rest of the log, unless a later start names the run again. |
| Termination.TerminationWinsIff | internal/projector/projector.go:122-137 | Over all continuations in any order that do not start the run again, the terminal event fixes status and end if and only if the run is active in no session but the event's. |
| Termination.InferredClosureCorrected | internal/projector/projector.go:130-133 | A terminal event corrects an inferred closure if and only if that closure did not come from the end of the session. |
| Findings.SessionEndIsNotCorrected | internal/projector/projector.go:79-83 | A log of three events whose projection ignores a run's own completion because its session was closed first. |
| InferredClosure.SupersededEndsSoon | internal/projector/projector.go:139-145 | In every projection in which each start names a run and none restarts an ended one, a superseded run ends at most 90 seconds after the latest activity attributed to it. |
| Projector.RunRecord.Close | internal/projector/projector.go:147-152 | The run object ends at the given time or at its start, whichever is later, and nothing else of it changes. |
| Projector.RunRecord.CloseInferred | internal/projector/projector.go:139-145 | As above, but no later than 90 seconds after the last activity. |
| Projector.RunRecord.Touch | internal/projector/projector.go:154-158 | Last activity only moves forward. |
| Projector.Projector.Start | internal/projector/projector.go:49-61 | Through aliased objects, a start does to the state what the fold's start step does: the superseded run, the run found or created, the new active run. |
| Projector.Projector.Tokens | internal/projector/projector.go:62-72 | Through aliased objects, a token count changes the one run that `RunHistory.TokensOfRun` attributes it to, and every other run is untouched. |
| Projector.Projector.CloseMatching | internal/projector/projector.go:122-137 | The named or active run is closed when it may be, and only the session that has that very object active loses it. |
| Projector.Projector.CloseSession | internal/projector/projector.go:79-83 | The active run is closed as interrupted and becomes inactive. |
| Projector.Projector.Other | internal/projector/projector.go:84-92 | Any other event refreshes model, effort and activity of the active run only. |
| Projector.Projector.Apply | internal/projector/projector.go:40-93 | One turn of the event loop: afterwards the maps are the fold of the kept events seen so far, and the seen ids are theirs. |
| Projector.Project | internal/projector/projector.go:23-102 | For every list of events, each projected run, with the fields that `RunHistory.RunsTellTheirHistory` reads off the log, is returned exactly once, in order of start. |
| Reconcile.ReconcileOpen | internal/projector/projector.go:104-120 | Position by position, an ended run is as before, and an open run stays exactly as it is if and only if less than `grace` has passed since its last activity and less than `maximum` since its start; otherwise it is abandoned and ends when the first of the two had passed, though not before its start. |
| Reconcile.ReconcileComposes | internal/projector/projector.go:104-120 | Reconciling at one time and again later is reconciling once, later. |
| Reconcile.ExpireIsReconcile | internal/postgres/store.go:247-247 | The server's expiring update, which does not clamp to the start, agrees with the projector's reconciliation on every run whose activity is not before its start. |
| Reconcile.ExpireHoldsLease | internal/postgres/store.go:247-247 | The server leaves a row alone if and only if it is ended, or less than 90 seconds have passed since its last activity and less than twelve hours since its start; otherwise the row is abandoned and ends when the first of the two had passed. |
| Reconcile.ProjectedRunsExpireAlike | internal/postgres/store.go:247-247 | So it agrees on every run of every projection, with a lease of 90 seconds and twelve hours. |
| Reconcile.UnfinishedChargeBounded | internal/projector/projector.go:104-120 | With leases expired at one reading of the clock and runs measured at a later one, an unfinished run reaches at most `grace` past its last activity and is charged at most `maximum`, plus what passes between the two readings. |
| Reconcile.UnfinishedWorkBounded | apps/cli/main.go:61-66 | However long they are forgotten, `n` unfinished runs add at most `n` times that bound to the session agent time of any window. |
| Report.Report | apps/cli/main.go:52-66 | Every figure of the local report is the instant-wise measure, at the second reading of the clock, of the projection of the stored events of the window and the twelve hours before it, reconciled at the first. |
| Report.ReportOfSet | apps/cli/main.go:53-66 | Reports made at the same times from the same set of events agree in every figure, whatever the order and repetition of the events and the unspecified order of the runs. |
| Report.ReportOfTable | apps/cli/main.go:52-66 | Two reports on one database at the same times show the same figures. |
| Report.ReportedLeases | apps/cli/main.go:55-55 | Every reported run is a projected one that kept its lease of 90 seconds past its last activity and twelve hours in all, and every projected run is reported so. |
| Report.LookbackSuffices | apps/cli/main.go:53-55 | An unfinished run that reaches into the window started in the twelve hours before it. |
| Report.ReportedIffStartRead | apps/cli/main.go:53-55 | A run is reported if and only if some start of it is stored for a time of the window or of the twelve hours before it. |
| Report.LongRunMissed | apps/cli/main.go:53-55 | A completed run that fills the window is not reported when it started more than twelve hours before it. |
| LocalTables.InsertPresentNothing | internal/localdb/store.go:301-322 | Committing events whose id or slot is taken changes nothing. |
| LocalTables.InsertAgain | internal/localdb/store.go:241-265 | Committing a stretch of events again changes nothing, whatever was committed in between. |
| LocalTables.UpsertAllTold | internal/localdb/store.go:324-340 | After a batch, a Wakapi row holds time and payload of the last event sent under its id and any other row what it first held; a new or changed row is pending, also when it was acknowledged, and the others are as before. |
| LocalTables.WindowIsTimes | internal/localdb/store.go:347-367 | When texts sort like the times they stand for, the textual window is the half-open interval of times. |
| LocalStore.Store.CommitParsed | internal/localdb/store.go:301-322 | Events and cursor change together: the table gains the events whose id and slot are free, in order, and the path's cursor is replaced. |
| LocalStore.Store.CommitMetrics | internal/localdb/store.go:241-265 | The same for the metric scanner's events and cursor. |
| LocalStore.Store.Enqueue | internal/localdb/store.go:324-340 | All or nothing: new events become pending, changed Wakapi events are updated and pending again, and an event that meets another row in its slot fails the whole batch. |
| LocalStore.Store.Events | internal/localdb/store.go:347-367 | Exactly the events whose texts of time lie in the window, in the order of those texts. |
| LocalStore.Store.PendingEvents | internal/localdb/store.go:369-389 | As many pending events as the limit allows, each once, in the order of their texts of time and none later than one left out. |
| LocalStore.Store.MarkAcknowledged | internal/localdb/store.go:391-403 | Exactly the named rows become acknowledged; no event changes. |
| LocalStore.Store.ResetCursors | internal/localdb/store.go:417-430 | Transcript cursors and parser errors are gone; events, metric cursors and heartbeats stay. |
| LocalStore.Store.AdvanceHookHeartbeat | internal/localdb/store.go:151-197 | The new table and the returned interval are those of the heartbeat step whose laws are proved in `Heartbeats`. |
| Scanning.ReadOn | internal/codex/parser.go:103-118 | From the end of a complete line the file reads on as the lines before and then the complete lines after. |
| Scanning.Resume | internal/codex/parser.go:99-177 | A scan resumed at a stored offset yields state, events and errors that complete those before it to what one scan of the longer file yields. |
| Scanning.CommitStretch | internal/localdb/store.go:301-322 | Committing a scan, new or overtaken by another, leaves the events of the longest committed prefix, the first of each key. |
| Scanning.NextSound | internal/codex/parser.go:84-178 | Every append, scan, commit and reset keeps each cursor the fold of the lines before its offset. |
| Scanning.AnySchedule | internal/codex/parser.go:84-178 | After any schedule of appends at any byte, overlapping scans, crashes, stale commits and resets, the stored cursor is the fold of the lines before its offset and the stored events are those of one scan of the longest committed prefix. |
| Transcript.ReadLine | internal/codex/parser.go:109-117 | The reading loop's line ends at the next newline, and an unterminated last line is left alone. |
| Agent.ScanTranscript | internal/agent/service.go:39-59 | From an absent cursor or one where a single scan would be, a pass leaves such a cursor at the end of the last complete line, inserts the events in between, and records one error for each failed line, at the new offset. |
| Agent.ScanMetrics | apps/cli/main.go:227-241 | The same for the hook's pass over the token counters. |
| Parser.LineFacts | internal/codex/parser.go:118-172 | Whatever a line decodes to, it moves the offset by its length and yields at most one event or one error; an error, at the line's start, changes nothing else; an event takes the next number, the derived id, the transcript source and the session as it is after the line, and a session start has a session id and carries the project just learnt and the record's version. |
| Parser.ParseFile | internal/codex/parser.go:84-178 | The whole scan is the line-by-line fold of the complete lines from the reopened cursor, whose events `Story.TranscriptTold` follows to runs. |
| Story.TranscriptTold | internal/codex/parser.go:180-231 | A transcript that names its session and whose turns start and then complete is projected to exactly one run for each turn: from `startedAt`, or the record's time, to `completedAt`, or the record's time, in the project of the directory named last before it, with the model, effort and usage set last in it. |
| Story.UnfinishedTold | internal/codex/parser.go:180-231 | A turn under way is one open run more, last active at the latest time its lines report. |
| Story.StoredTranscriptTold | internal/codex/parser.go:84-178 | So are the rows of the database, after any schedule of appends, scans, crashes and resets that has committed the transcript. |
| Parser.ReopenedWhere | internal/codex/parser.go:94-102 | A replaced file is read as a new one from its start, a file cut short again with numbers from one, any other file where the last scan stopped. |
| Parser.NoPathStored | internal/codex/parser.go:130-136 | Unless paths are to be stored, no directory reaches the cursor. |
| Parser.KindNamesDiffer | internal/codex/parser.go:170-170 | The names of kinds that go into ids tell the kinds of transcript events apart. |
| Parser.OpenedFaithful | internal/codex/parser.go:94-102 | Reopening the file leaves the cursor where one scan of the file would be. |
| Parser.EventsNumbered | internal/codex/parser.go:164-170 | Events of a file carry consecutive numbers and the ids derived from them. |
| Parser.AllInserted | internal/codex/parser.go:164-170 | Consecutive numbers keep every unique key free, so each event gets a row of its own. |
| Parser.NoEventLost | internal/codex/parser.go:84-178 | After any schedule the rows of a transcript are exactly the events of its longest committed prefix. |
| Parser.MachinesApart | internal/codex/parser.go:170-170 | Transcript events of different machines never share an id, even when the transcripts are copies. |
| Metrics.ScanRecord | internal/codex/metrics.go:64-112 | One record's effect on state and events, the effect that `MetricHistory.StateTold` and `MetricHistory.UnitsTold` read off the records. |
| Metrics.ScanFile | internal/codex/metrics.go:31-119 | The whole scan is the fold of the complete lines from the reopened cursor and its stored state, whose reports `MetricHistory.UnitsTold` gives. |
| Metrics.ReopenedWhere | internal/codex/metrics.go:42-48 | A replaced file is read as a new one, a file cut short again from its start with the counters as they were, any other file where the last scan stopped. |
| MetricHistory.StateTold | internal/codex/metrics.go:64-112 | After any records the scanner's state is what they said last: session, project, turn under way, model and effort, counters, usage, and the counters when a turn last started or completed. |
| MetricHistory.UnitsTold | internal/codex/metrics.go:92-112 | The runs of a scan are, in order, those of the completions that are reported: of the turn under way or else the one named, of no length, at the completion's time, with what each counter gained since the turn began, or with the last usage when nothing was gained. |
| MetricHistory.ReportedExactly | internal/codex/metrics.go:100-100 | A run is emitted if and only if a completion reports it, that is, its turn has a name, its session a project, and a set cutover is not after it; so with a cutover set none starts before it. |
| Metrics.MetricsAnySchedule | internal/codex/metrics.go:31-119 | The schedule result for the metric scanner, whose events repeat a key when a turn completes twice: the first completion wins. |
| Metrics.ScanEmitsUnits | internal/codex/metrics.go:92-106 | What a scan emits is one self-contained group of four events for each reported completion. |
| Metrics.GrowthTelescopes | internal/codex/metrics.go:84-109 | Growth inside and outside completed turns adds up to the change of the counters. |
| Metrics.EmittedUsage | internal/codex/metrics.go:84-109 | With counters that never fall, the emitted usage is the growth inside completed turns plus what turns without growth repeat. |
| MetricHistory.TokensConserved | internal/codex/metrics.go:84-128 | When counters never fall and every completion has a named turn and a known project and is not before the cutover, emitted tokens and growth outside completed turns add up to the final counters if and only if no completion reports a usage again. |
| MetricRows.TableKeepsFirsts | internal/localdb/store.go:241-265 | Committing any groups of metric events leaves exactly the events of the first completion of each session and turn. |
| MetricRows.MetricsAddTokensOnly | internal/codex/metrics.go:137-157 | Projected and summarised, the stored metric runs of any scan add exactly the usage of the first completion of each session and turn, and change no time, no concurrency and no run count; they add all that was emitted if and only if the later completions' usage is zero. |
| Findings.TurnCompletedTwice | internal/codex/metrics.go:84-112 | For every transcript in which one turn completes twice with growing counters, all counted tokens are emitted but the first completion's alone are kept. |
| Findings.TenOfTwentyFive | internal/codex/metrics.go:84-112 | Ten tokens counted at the first completion and twenty-five at the second: twenty-five are emitted, ten kept. |
| WorkUnits.IntervalUnitWellFormed | apps/cli/main.go:270-284 | The three events of an interval project to one completed run of exactly that interval. |
| WorkUnits.ProjectUnits | apps/cli/main.go:270-284 | A log of separate groups projects to exactly one run for each group, whichever groups stand beside it. |
| WorkUnits.ListedUnits | apps/cli/main.go:344-358 | What the projector returns for such a log is the list of the groups' runs, in some order. |
| Heartbeats.StoredTimes | internal/localdb/store.go:166-180 | A session's stored heartbeat is its latest accepted one, and accepted times strictly increase. |
| Heartbeats.EmittedShape | internal/localdb/store.go:183-196 | Emitted intervals are non-empty, at most `timeout` long, and within a session ordered without overlap. |
| Heartbeats.EmittedTotal | internal/localdb/store.go:183-196 | A session's intervals add up to its accepted consecutive gaps that are within the timeout. |
| Heartbeats.EmittedExactly | internal/localdb/store.go:151-197 | An interval is emitted if and only if two heartbeats that advance a session one after the other bound it, no further apart than the timeout, and it carries project and model of the earlier one. |
| Heartbeats.SessionByProject | apps/cli/main.go:270-284 | A report shows each project of a session with exactly the time of its intervals, and each run has its interval's project, model, start and end. |
| Heartbeats.IntervalsCharged | apps/cli/main.go:270-284 | Intervals of any mix of sessions, pushed through events, projector and summary, are charged at their full length. |
| Heartbeats.SessionOnTheClock | apps/cli/main.go:270-284 | Intervals of one session cost as much wall-clock time as agent time. |
| Heartbeats.HeartbeatAccounting | internal/localdb/store.go:151-197 | For any stream of heartbeats over any sessions, everything emitted is projected together: the report charges all of it at its full length, and of that each session exactly its accepted gaps within the timeout, as agent time and as wall-clock time. |
| Wakapi.ExportDay | internal/wakapi/client.go:122-142 | A day's sorting loop extends and appends intervals, and accumulates the duration, gap by gap as the fold over the sorted day does. |
| Wakapi.Export | internal/wakapi/client.go:109-144 | The exported duration is the sum of the exported interval lengths, also for the default timeout. |
| Wakapi.TotalsAreRawGaps | internal/wakapi/client.go:124-142 | Each project's intervals, and all of them together, add up to the accepted raw gaps: coalescing neither loses nor adds time. |
| Wakapi.ExportShape | internal/wakapi/client.go:110-142 | With the days in order, the intervals are sorted, do not overlap, and no two of one project touch. |
| Wakapi.IntervalsBefore | apps/cli/main.go:303-342 | The intervals kept are the parts before the cutover, and the recomputed duration is the sum of their lengths. |
| Wakapi.CutTotals | apps/cli/main.go:328-342 | After the cut each project keeps exactly its time before the cutover. |
| Wakapi.CutShape | apps/cli/main.go:328-342 | The cut keeps the intervals sorted, apart and coalesced, and ends them by the cutover. |
| Wakapi.WakapiEvents | apps/cli/main.go:344-358 | The events are those of one self-contained group for each interval, in order. |
| Wakapi.ImportedTimeIsReported | apps/cli/main.go:344-358 | The duration the import prints is both the agent time and the wall-clock time a report shows for the imported events. |
| Wakapi.ImportedByProject | apps/cli/main.go:344-358 | A report shows each imported project, under the id derived from its name, with exactly its imported time. |
| Cutover.CutoverAdds | apps/cli/main.go:202-306 | Nothing is counted twice at the cutover: with the import cut there and every heartbeat later, the wall-clock time of both together is the imported time plus one session's accepted gaps. |
| ServerTables.BatchAccounted | internal/postgres/store.go:99-125 | In a batch that commits, every event is accepted, a duplicate or rejected; exactly the refused ones are rejected, with their reason; the rest are stored and no row is lost. |
| ServerTables.RefusedIffNotStorable | internal/postgres/store.go:99-113 | An event is refused if and only if the table cannot hold it: it lacks session, id or time, or its id or run id does not parse, reported in that order. |
| ServerTables.IngestKeepsLatest | internal/postgres/store.go:115-124 | A committed batch leaves only rows the table can hold; a Wakapi row takes time and payload from the last such event sent under its id, any other row keeps what it first held. |
| ServerTables.FirstNamedRow | internal/postgres/store.go:218-227 | The session's project is that of its first row, in order of sequence, time and id, that names one. |
| ServerTables.AnyListing | internal/postgres/store.go:229-244 | The projection of a session does not depend on how its rows are listed. |
| ServerTables.OneLog | internal/postgres/store.go:229-244 | However the rows come, ordering them gives the one log of the session. |
| ProjectTable.StoredUnique | internal/postgres/store.go:173-183 | An accepted project keeps ids and fingerprints unique and leaves a row under the chosen id. |
| ProjectTable.StoredAgain | internal/postgres/store.go:166-183 | Storing a project again changes nothing more and finds the same id, so a session's project is stable under repeated rebuilds. |
| ProjectTable.NamedIsKnown | internal/postgres/store.go:173-183 | A project with a name of its own is known by it, under the id of the oldest project of that name. |
| ProjectTable.NamelessRenamesNothing | internal/postgres/store.go:166-183 | A project without a name renames no project. |
| ProjectTable.HashKept | internal/postgres/store.go:181-181 | A project without a remote hash leaves every hash as it is; one with a hash leaves it in its row. |
| ProjectTable.NewFingerprint | internal/postgres/store.go:169-183 | A new project is stored under its fingerprint, or under its id if it has none. |
| Server.Store.StoreProject | internal/postgres/store.go:173-183 | The lookup by name and the insert succeed if and only if the name or the id is known or the fingerprint is new; then the project goes by the id of the oldest row of its name, or by its own. |
| Rebuilding.OneOpen | internal/postgres/schema.go:15-15 | The projection of any session's rows meets the partial unique index on open runs. |
| Rebuilding.RefusedOnlyById | internal/postgres/schema.go:13-15 | Of the run table's constraints, none but the primary key can refuse a projected run, and that only for an id of another session. |
| Rebuilding.RebuildShows | internal/postgres/store.go:140-205 | A rebuilt session that names a project shows its projection, and no other session's rows change. |
| Rebuilding.RebuildLabels | internal/postgres/store.go:148-205 | All rows of a rebuilt session carry the id under which the project of its first row that names one is known. |
| Rebuilding.EachShows | internal/postgres/store.go:132-136 | After any distinct rebuilds, each rebuilt session shows its projection and the others are as before. |
| Rebuilding.ClearRebuildsEach | internal/postgres/store.go:132-136 | When sessions share no run ids, project ids parse and a fingerprint tells its project id, the rebuilds of any sessions succeed in any order. |
| Server.Store.SessionEvents | internal/postgres/store.go:229-244 | The rows of the session, each once, in order of sequence, time and id. |
| Server.Store.ReplaceRuns | internal/postgres/store.go:194-203 | The session's rows become its projection under the project's id and other sessions' rows stay, if and only if no run id belongs to another session; otherwise nothing changes. |
| Server.Store.WriteSession | internal/postgres/store.go:148-205 | Writing rows read from any state of the event table, perhaps no longer the present one, succeeds if and only if they name no project, or its project id parses, the project is accepted and no run id belongs to another session; then both tables are those of the rebuild of what was read, and otherwise they are unchanged. |
| Server.Store.RebuildSession | internal/postgres/store.go:140-205 | A rebuild reads the session's rows and then writes them; with nothing committed in between it is the rebuild of the present table. |
| Server.Store.InsertBatch | internal/postgres/store.go:97-131 | The transaction's tables, counters, rejections and touched sessions are those of handling the events one after another, or it aborts as a whole. |
| Server.Store.Ingest | internal/postgres/store.go:91-138 | An aborted batch changes nothing; a committed one stores its events, then, with no other request at work, rebuilds the touched sessions in some order up to the first that fails, and reports success if and only if none does. |
| Server.Store.RebuildAll | internal/postgres/store.go:337-358 | With no other request at work, every session that has events is rebuilt, in some order, up to the first rebuild that fails, and success means that none does. |
| Server.Store.Runs | internal/postgres/store.go:246-274 | A read expires the leases that have run out, as `Reconcile.ExpireHoldsLease` says, and returns each row that `Reading.ReadExactly` names once, latest start first. |
| Reading.ReadExactly | internal/postgres/store.go:250-259 | A read returns exactly the rows of the wanted project that begin before the window ends and go on after it starts, an open one until now, and of these only the open ones when it is asked for active runs. |
| Reading.ReadLosesNothing | internal/postgres/store.go:250-259 | What a read returns shows the same times, spans, peak and run count as all rows of the project together, and misses exactly the tokens of runs of no length right at the start of the window. |
| ServerHistory.ReadReconciles | internal/postgres/store.go:247-247 | A read turns a session in step with its projection into the projection reconciled at the time of the read. |
| ServerHistory.HistorySound | internal/postgres/store.go:91-274 | Over any history of overlapping ingests and full rebuilds, which may fail or be cut short, and of reads, each session's rows are the projection of the snapshot of its events that was written last, reconciled at most at some past time, and none if none was written; a snapshot read after the session's last change is its log. |
| ServerHistory.ReadShowsWritten | internal/postgres/store.go:246-274 | A read shows, for every session, the projection of that snapshot reconciled at the time of the read, as if no read had come before. |
| ServerHistory.ReadShowsProjection | internal/postgres/store.go:246-274 | If that snapshot was read after the session's last change, the read shows the projection of the session's log, reconciled at the time of the read. |
| ServerHistory.SettledSessionsFresh | internal/postgres/store.go:132-136 | As long as no request writes a snapshot read before its session's last change, every session that names a project and that no request has still to rebuild shows the projection of its log. |
| ServerHistory.RedeliveryRebuildsNothing | internal/postgres/store.go:114-136 | Sending stored events again counts duplicates and touches no session, so it never makes up for a missed rebuild. |
| ServerHistory.RebuildAllHeals | internal/postgres/store.go:337-358 | Whatever was missed or overtaken before, a full rebuild makes up for it: from the state in which it lists the sessions, among any requests none of which writes an outdated snapshot, each session that names a project and that no request has still to rebuild shows the projection of its log. |
| ServerHistory.IngestIsSteps | internal/postgres/store.go:91-138 | What `Server.Store.Ingest` promises of a request that runs alone is a stretch of history: the commit and the completed rebuilds, with the failed ones left to do. |
| ServerHistory.RebuildAllIsSteps | internal/postgres/store.go:337-358 | So is what `Server.Store.RebuildAll` promises. |
| ServerHistory.RunsIsStep | internal/postgres/store.go:247-247 | And what `Server.Store.Runs` does to the run table is the read step. |
| Overtaken.OvertakenRebuild | internal/postgres/store.go:140-205 | For every run's start and completion that name a valid project, a history from the empty tables in which no rebuild fails and every request is done, but the run is shown open and the session is out of step with its log. |
| SyncProtocol.DeliverSound | internal/postgres/store.go:99-125 | Delivering a fetched batch, for the first time or again, never aborts and leaves each of its events stored or rejected. |
| SyncProtocol.NextSound | internal/sync/client.go:32-74 | Every step (commit, enqueue, fetch, deliver, answer, acknowledge, another machine's traffic, under the same ids or others) keeps the protocol's invariant. |
| SyncProtocol.NothingLostNothingInvented | internal/sync/client.go:32-74 | In every interleaving with losses, repetitions and several clients, also beside machines that import the same Wakapi account or scan copies of the same transcripts, every acknowledged id is on the server, acknowledged events whose ids no other machine sends are there as they are, and the server's events of the machine are local ones with equal contents. |
| SyncProtocol.QuietLogsAgree | internal/sync/client.go:32-74 | When nothing is pending, both logs, of the events whose ids no other machine sends, project to the same runs. |
| SyncProtocol.DeliveryNeverAborts | internal/postgres/store.go:115-118 | No fetched batch is ever refused as a whole by a slot another row holds. |
| SyncClient.SyncOnce | internal/sync/client.go:32-74 | For each fate of the exchange: nothing pending changes nothing, a lost request leaves both sides, a lost reply leaves the queue; the round succeeds if and only if the batch committed and all its rebuilds completed and the answer arrived, and then exactly the events that were not rejected are acknowledged. |
| SyncClient.RoundTakesOff | internal/sync/client.go:63-73 | An answered round takes off the queue exactly the events of its batch that are not refused. |
| SyncClient.ProgressIff | apps/cli/main.go:317-324 | A drain round makes progress if and only if its batch holds an event that is not refused; otherwise the queue is as before. |
| SyncClient.NoRoundFails | internal/sync/client.go:32-74 | While queue and server are in the protocol's order, and sessions, project ids and fingerprints do not clash, no round fails. |
| SyncClient.DrainsIff | apps/cli/main.go:317-324 | Then, given as many rounds as there are pending events, the queue is drained if and only if the server refuses none of them. |
| SyncClient.Drain | apps/cli/main.go:317-324 | Any number of rounds of the loop are answered rounds, ending with an empty queue, at the limit, or in a round whose batch was refused as a whole or in which a rebuild failed; refused events stay pending throughout and keep the queue from draining. |
| EndToEnd.NextSound | internal/postgres/store.go:91-138 | In one system of queue, network, overlapping requests, tables and reads, every step keeps both the protocol's and the server's invariant; a delivery is answered when its rebuilds have ended, and those that fail or are cut short never are. |
| EndToEnd.ServerProjectsAlike | internal/postgres/store.go:140-148 | Once a session's events have all been acknowledged, in any execution of that system, the server's projection of the session is the machine's. |
| EndToEnd.ReadShowsLocalWork | internal/postgres/store.go:246-274 | A read then shows, for a session whose rows were written from a snapshot read after its last change, what the machine's own log projects to, reconciled at the time of the read, up to project ids. |
| EndToEnd.SettledWorkShown | internal/postgres/store.go:132-136 | As long as no request writes a snapshot read before its session's last change, the read shows so the local work of every delivered session that names a project and that no request has still to rebuild. |
| Findings.TwoTurnsRepeat | internal/codex/metrics.go:101-108 | A transcript of two turns, the second without growth, for which the emitted tokens exceed the counters. |
| Findings.SessionlessEventNeverDrains | internal/codex/parser.go:164-171 | A token count on the first line yields an event without a session, and a queue that holds it keeps a refused row. |
| Findings.FooAndFoo | internal/postgres/store.go:166-183 | Importing two projects whose names differ in case only commits the events and fails a rebuild in either order, and redelivery rebuilds nothing. |

## Left out

- HTTP routing, authentication, registration, cookies, the web proxy, rendering and pagination: plumbing over libraries.
- JSON, TOML and SQL text: a payload is its decoded fields, and `Transcript.Config.decode` is any function from a line to a record; statements act on maps with the tables' unique keys, and each transaction is one step: the transaction that stores a batch, and the one that stores a project and replaces a session's runs. What a rebuild reads before its transaction is a step of its own. Two rebuilds' transactions that run at once and disagree on which project row is the oldest of its name are not modelled.
- File, network and database errors, apart from lost requests, lost replies, failed transactions and crashes between steps.
- Project resolution through git: `Transcript.Config.resolve` is any function from a directory to a project.
- `DeterministicUUID` and the texts of instants and numbers: any functions; results that need it assume no collisions (`WorkUnits.CollisionFree`, which some naming satisfies: `WorkUnits.CollisionFreeExists`).
- Times are integers: microsecond truncation in PostgreSQL is not modelled, and the text of a time is any function of it (`LocalStore.Store.stamp`), so nothing depends on texts sorting like times. Integers do not overflow, and the average parallelism is an exact quotient.
- Cursor modification times, the projection version and file paths, which no modelled decision depends on.
- Shortening and replacing a transcript in the schedule results: the branches are modelled (`Parser.Opened`, `Metrics.Opened`), but sequence numbers can then repeat. Several transcripts of one session share sequence numbers likewise.
- The session table, and the order of project rows created at one instant: project rows are kept in order of creation. A project id is the one in force at the rebuild, so run tables are compared up to project ids.
- Changed Wakapi events in the protocol's conclusions: an update enqueued between fetch and acknowledgement can be marked acknowledged unsent. The steps and the invariant include them; the conclusions speak of the other sources.
- The back-off loop of the sync client with its jitter, the unset server address, diagnostics, log rotation, file watching and walking the sessions directory.
- Trimming of Wakapi project names, which lower-casing maps to what, and rounding of floating-point times: a heartbeat has an integer time and a trimmed name, and lower-casing is any function. Day requests and their retries: the days arrive as a list.
- Runs with unreadable dates on the dashboard, and text order beyond single characters of UTF-16.
- SyncClient.Drain: the loop is unbounded in the program; here it is cut after any number of rounds, because with a refused event it does not end. The statements hold for every number of rounds.
- Server.Store.RebuildSession: the method is one request's, with no other at work between its reading and its writing; `Server.Store.WriteSession` writes what was read at any time, and `ServerHistory` interleaves the requests.
- Server.Store.Ingest: likewise one request's; with others at work, `ServerHistory` says what its steps leave. The rounds of `SyncClient` meet a server that handles them one at a time.
- Server.Store.RebuildAll: likewise.
- SyncProtocol.NothingLostNothingInvented: for ids that another machine also sends, because it imports the same Wakapi account or scans a copy of the same transcript, only the presence of the id on the server is claimed; whose event it is depends on who came first. Ids of transcript events hash the machine (`Parser.MachinesApart`), those of Wakapi, metric and hook events do not. The same limit holds for `SyncProtocol.QuietLogsAgree` and the results of `EndToEnd`.
- Story.TranscriptTold: speaks of one session whose turns start and complete one after the other under ids of their own; what any other transcript's events project to is said by `RunHistory.RunsTellTheirHistory`.
- ServerHistory.ReadShowsProjection: assumes that an event sent again under a stored id belongs to the stored event's session; `EndToEnd` derives it from ids that stand for one session each.
- Dashboard.TwoUnionsAgree: speaks of closed runs; the dashboard draws an open run up to its last activity and the report up to now.
- Wakapi.ExportShape: needs the days in order; the totals do not.
- Scanning.AnySchedule: the table holds the events of one file; those of other files and hooks have sessions, and so keys, of their own.
