/** A history in which one rebuild overtakes another, and leaves an older projection for good. */
module Overtaken {
  import opened Domain
  import opened ProjectTable
  import opened Projection
  import opened Rebuilding
  import opened ServerTables
  import H = ServerHistory
  import Ranging
  import WorkUnits

  /** A run's start, which names a valid project, and its completion, both sent by the machine. */
  ghost predicate StartAndEnd(isUuid: string -> bool, machineId: string, start: Event, end: Event) {
    && start.kind == RunStarted && end.kind == RunCompleted && start.runId == end.runId != ""
    && start.sessionId == end.sessionId && start.sequence < end.sequence && start.id != end.id
    && start.machineId == end.machineId == machineId
    && Verdict(isUuid, start).None? && Verdict(isUuid, end).None?
    && isUuid(start.payload.project.id) && start.payload.project.id != "" && end.payload.project == NO_PROJECT
  }

  function Started(start: Event): map<string, Event> {
    map[start.id := start]
  }

  function Ended(start: Event, end: Event): map<string, Event> {
    map[start.id := start, end.id := end]
  }

  lemma AbsorbNew(isUuid: string -> bool, r: Ingestion, e: Event)
    requires r.Ingesting? && Verdict(isUuid, e).None? && e.id !in r.table && !SlotTaken(r.table, e)
    ensures Absorb(isUuid, e.machineId, r, e) ==
            r.(table := r.table[e.id := e], accepted := r.accepted + 1, touched := r.touched + {e.sessionId})
  {
    assert e.(machineId := e.machineId) == e;
  }

  lemma AbsorbStored(isUuid: string -> bool, r: Ingestion, e: Event)
    requires r.Ingesting? && Verdict(isUuid, e).None? && e.id in r.table && r.table[e.id] == e
    ensures Absorb(isUuid, e.machineId, r, e) == r.(duplicates := r.duplicates + 1)
  {
    assert e.(machineId := e.machineId) == e;
  }

  /** The second batch repeats the start, which is a duplicate. */
  lemma CommitsOneByOne(isUuid: string -> bool, machineId: string, start: Event, end: Event)
    requires StartAndEnd(isUuid, machineId, start, end)
    ensures IngestAll(isUuid, map[], machineId, [start]) == Ingesting(Started(start), 1, 0, [], {start.sessionId})
    ensures IngestAll(isUuid, Started(start), machineId, [start, end]) ==
            Ingesting(Ended(start, end), 1, 1, [], {start.sessionId})
  {
    OneCommit(isUuid, map[], start);
    AbsorbNew(isUuid, Ingesting(map[], 0, 0, [], {}), start);
    OneCommit(isUuid, Started(start), start);
    AbsorbStored(isUuid, Ingesting(Started(start), 0, 0, [], {}), start);
    AddEnd(isUuid, start, end);
  }

  lemma OneCommit(isUuid: string -> bool, table: map<string, Event>, e: Event)
    ensures IngestAll(isUuid, table, e.machineId, [e]) ==
            Absorb(isUuid, e.machineId, Ingesting(table, 0, 0, [], {}), e)
  {
    assert [e][..0] == [];
  }

  lemma AddEnd(isUuid: string -> bool, start: Event, end: Event)
    requires Verdict(isUuid, end).None? && start.id != end.id && start.sequence < end.sequence
    requires IngestAll(isUuid, Started(start), end.machineId, [start]) == Ingesting(Started(start), 0, 1, [], {})
    ensures IngestAll(isUuid, Started(start), end.machineId, [start, end]) ==
            Ingesting(Ended(start, end), 1, 1, [], {end.sessionId})
  {
    IngestAllSnoc(isUuid, Started(start), end.machineId, [start], end);
    AbsorbNew(isUuid, Ingesting(Started(start), 0, 1, [], {}), end);
    assert [start] + [end] == [start, end] && Started(start)[end.id := end] == Ended(start, end);
  }

  /** What each of the two snapshots projects to: the start alone to an open run, both events to a completed one. */
  lemma SnapshotRuns(isUuid: string -> bool, machineId: string, start: Event, end: Event)
    requires StartAndEnd(isUuid, machineId, start, end)
    ensures
      var s, id, p := start.sessionId, start.runId, start.payload.project;
      && Keyed(Started(start)) && Keyed(Ended(start, end))
      && SessionProject(Started(start), s) == SessionProject(Ended(start, end), s) == p
      && SessionRuns(Started(start), s) == map[id := FreshRun(start)]
      && SessionRuns(Ended(start, end), s) ==
         map[id := CloseRun(FreshRun(start), end.occurredAt, Completed, ExplicitCompletion)]
  {
    var s := start.sessionId;
    StartRuns(start);
    EndRuns(start, end);
    assert start in [start] && start in [start, end];
    OneProject(Started(start), [start], s, start.payload.project, start);
    OneProject(Ended(start, end), [start, end], s, start.payload.project, start);
  }

  lemma StartRuns(start: Event)
    requires start.kind == RunStarted && start.runId != "" && start.id != ""
    ensures SessionRuns(Started(start), start.sessionId) == map[start.runId := FreshRun(start)]
  {
    var events := Started(start);
    assert events[start.id] == start;
    assert ListsSession([start], events, start.sessionId);
    AnyListing([start], events, start.sessionId);
    WorkUnits.ProjectInSequence([start]);
    FoldSnoc([], start);
    assert [] + [start] == [start];
  }

  lemma EndRuns(start: Event, end: Event)
    requires start.kind == RunStarted && end.kind == RunCompleted && start.runId == end.runId != ""
    requires start.sessionId == end.sessionId && start.sequence < end.sequence
    requires start.id != "" && end.id != "" && start.id != end.id
    ensures SessionRuns(Ended(start, end), start.sessionId) ==
            map[start.runId := CloseRun(FreshRun(start), end.occurredAt, Completed, ExplicitCompletion)]
  {
    var events := Ended(start, end);
    assert events[start.id] == start && events[end.id] == end;
    assert ListsSession([start, end], events, start.sessionId);
    AnyListing([start, end], events, start.sessionId);
    WorkUnits.ProjectInSequence([start, end]);
    FoldBoth(start, end);
  }

  lemma FoldBoth(start: Event, end: Event)
    requires start.kind == RunStarted && end.kind == RunCompleted && start.runId == end.runId != ""
    requires start.sessionId == end.sessionId
    ensures Fold([start, end]).runs ==
            map[start.runId := CloseRun(FreshRun(start), end.occurredAt, Completed, ExplicitCompletion)]
  {
    FoldSnoc([], start);
    assert [] + [start] == [start];
    assert Fold([start]) == WorkUnits.Alone(FreshRun(start), start.sessionId);
    WorkUnits.StepAlone(FreshRun(start), end);
    FoldSnoc([start], end);
    assert [start] + [end] == [start, end];
  }

  /** The first write stores the project. */
  lemma FirstWrite(isUuid: string -> bool, events: map<string, Event>, s: string, p: ProjectInfo)
    requires SessionProject(events, s) == p && p.id != "" && isUuid(p.id)
    ensures RebuildOnce(isUuid, events, Rows([], map[]), s) ==
            Some(Rows([ProjectRow(p.id, FingerprintOf(p), NameOf(p), p.remoteHash)],
                      Labelled(SessionRuns(events, s), p.id)))
  {
    assert OtherRows(map[], s) + Labelled(SessionRuns(events, s), p.id) == Labelled(SessionRuns(events, s), p.id);
    assert Stored([], p) == [ProjectRow(p.id, FingerprintOf(p), NameOf(p), p.remoteHash)];
    assert !SharesRunId(events, map[], s) && Accepts([], p);
  }

  /** A later write of the session replaces its rows. */
  lemma SecondWrite(isUuid: string -> bool, events: map<string, Event>, s: string, p: ProjectInfo, rows: Rows)
    requires SessionProject(events, s) == p && p.id != "" && isUuid(p.id)
    requires rows.projects == [ProjectRow(p.id, FingerprintOf(p), NameOf(p), p.remoteHash)]
    requires forall id :: id in rows.runs ==> rows.runs[id].sessionId == s
    ensures
      var after := RebuildOnce(isUuid, events, rows, s);
      after.Some? && after.value.runs == Labelled(SessionRuns(events, s), p.id)
  {
    assert rows.projects[0].name == NameOf(p);
    assert FirstNamed(rows.projects, NameOf(p)) == Some(rows.projects[0]);
    assert OtherRows(rows.runs, s) == map[];
    assert map[] + Labelled(SessionRuns(events, s), p.id) == Labelled(SessionRuns(events, s), p.id);
  }

  /** Two snapshots of one session, written one after the other: the rows are those of the second. */
  lemma TwoWrites(isUuid: string -> bool, late: map<string, Event>, early: map<string, Event>, s: string,
                  p: ProjectInfo)
    requires SessionProject(late, s) == SessionProject(early, s) == p && p.id != "" && isUuid(p.id)
    requires forall id :: id in SessionRuns(late, s) ==> SessionRuns(late, s)[id].sessionId == s
    ensures
      var first := RebuildOnce(isUuid, late, Rows([], map[]), s);
      && first.Some? && RebuildOnce(isUuid, early, first.value, s).Some?
      && RebuildOnce(isUuid, early, first.value, s).value.runs == Labelled(SessionRuns(early, s), p.id)
  {
    FirstWrite(isUuid, late, s, p);
    SecondWrite(isUuid, early, s, p, RebuildOnce(isUuid, late, Rows([], map[]), s).value);
  }

  /** Request 2 writes the snapshot of both events, then request 1 writes that of the start alone. */
  lemma OldOverNew(isUuid: string -> bool, machineId: string, start: Event, end: Event)
    requires StartAndEnd(isUuid, machineId, start, end)
    ensures
      var s, p := start.sessionId, start.payload.project;
      var first := RebuildOnce(isUuid, Ended(start, end), Rows([], map[]), s);
      && first.Some? && RebuildOnce(isUuid, Started(start), first.value, s).Some?
      && RebuildOnce(isUuid, Started(start), first.value, s).value.runs ==
         map[start.runId := FreshRun(start).(projectId := p.id)]
  {
    var s, p := start.sessionId, start.payload.project;
    var late, early := Ended(start, end), Started(start);
    assert SessionProject(late, s) == SessionProject(early, s) == p
           && forall id :: id in SessionRuns(late, s) ==> SessionRuns(late, s)[id].sessionId == s by {
      SnapshotRuns(isUuid, machineId, start, end);
    }
    assert Labelled(SessionRuns(early, s), p.id) == map[start.runId := FreshRun(start).(projectId := p.id)] by {
      SnapshotRuns(isUuid, machineId, start, end);
    }
    TwoWrites(isUuid, late, early, s, p);
  }

  const NO_STATE := H.State(map[], Rows([], map[]), 0, map[], 0, map[], map[])

  /** The states up to the last write. */
  function Overtaking(start: Event, end: Event): seq<H.State> {
    var s := start.sessionId;
    var early := H.Snapshot(s, Started(start), 1);
    var late := H.Snapshot(s, Ended(start, end), 2);
    var waiting := H.Process([s], None);
    var st1 := NO_STATE.(events := Started(start), procs := map[1 := waiting], commits := 1, changed := map[s := 1]);
    var st2 := st1.(procs := map[1 := H.Process([s], Some(early))]);
    var st3 := st2.(events := Ended(start, end), procs := st2.procs[2 := waiting], commits := 2,
                    changed := map[s := 2]);
    var st4 := st3.(procs := st2.procs[2 := H.Process([s], Some(late))]);
    [NO_STATE, st1, st2, st3, st4]
  }

  function Tasks(machineId: string, start: Event, end: Event): seq<H.Action> {
    [H.Commit(1, machineId, [start], [start.sessionId]), H.Look(1),
     H.Commit(2, machineId, [start, end], [start.sessionId]), H.Look(2)]
  }

  lemma WholeTable(events: map<string, Event>, s: string)
    requires forall id :: id in events ==> events[id].sessionId == s
    ensures H.SessionTable(events, s) == events
  {
  }

  lemma OvertakingSteps(isUuid: string -> bool, machineId: string, start: Event, end: Event)
    requires StartAndEnd(isUuid, machineId, start, end)
    ensures H.History(isUuid, Overtaking(start, end), Tasks(machineId, start, end))
  {
    CommitSteps(isUuid, machineId, start, end);
    LookSteps(isUuid, start, end);
  }

  lemma LookSteps(isUuid: string -> bool, start: Event, end: Event)
    requires start.sessionId == end.sessionId
    ensures
      var trace := Overtaking(start, end);
      && H.Next(isUuid, trace[1], H.Look(1), trace[2])
      && H.Next(isUuid, trace[3], H.Look(2), trace[4])
  {
    var trace, s := Overtaking(start, end), start.sessionId;
    WholeTable(Started(start), s);
    WholeTable(Ended(start, end), s);
    assert trace[2] == H.AfterLook(trace[1], 1);
    assert trace[4] == H.AfterLook(trace[3], 2);
  }

  lemma CommitSteps(isUuid: string -> bool, machineId: string, start: Event, end: Event)
    requires StartAndEnd(isUuid, machineId, start, end)
    ensures
      var trace, tasks := Overtaking(start, end), Tasks(machineId, start, end);
      && H.Next(isUuid, trace[0], tasks[0], trace[1])
      && H.Next(isUuid, trace[2], tasks[2], trace[3])
  {
    var trace, s := Overtaking(start, end), start.sessionId;
    CommitsOneByOne(isUuid, machineId, start, end);
    CommitIsStep(isUuid, trace[0], 1, machineId, [start], s, trace[1]);
    CommitIsStep(isUuid, trace[2], 2, machineId, [start, end], s, trace[3]);
  }

  lemma CommitIsStep(isUuid: string -> bool, st: H.State, id: nat, machineId: string, batch: seq<Event>, s: string,
                     st': H.State)
    requires id !in st.procs && H.SameSessions(st.events, batch) && H.SessionsAgree(batch) && st.changed.Keys <= {s}
    requires IngestAll(isUuid, st.events, machineId, batch).Ingesting?
    requires IngestAll(isUuid, st.events, machineId, batch).touched == {s}
    requires st' == st.(events := IngestAll(isUuid, st.events, machineId, batch).table,
                        procs := st.procs[id := H.Process([s], None)], commits := st.commits + 1,
                        changed := map[s := st.commits + 1])
    ensures H.Next(isUuid, st, H.Commit(id, machineId, batch, [s]), st')
  {
    assert Ranging.Lists([s], {s});
    assert st' == H.AfterCommit(st, id, IngestAll(isUuid, st.events, machineId, batch), [s]);
  }

  /** Request 2 writes first, request 1 last. */
  function Wrote2(st: H.State, s: string, start: Event, end: Event, rows: Rows): H.State {
    st.(rows := rows, procs := st.procs[2 := H.Process([], None)],
        written := map[s := H.Snapshot(s, Ended(start, end), 2)])
  }

  function Wrote1(st: H.State, s: string, start: Event, rows: Rows): H.State {
    st.(rows := rows, procs := st.procs[1 := H.Process([], None)],
        written := map[s := H.Snapshot(s, Started(start), 1)])
  }

  lemma BothNamed(isUuid: string -> bool, machineId: string, start: Event, end: Event)
    requires StartAndEnd(isUuid, machineId, start, end)
    ensures NamesProject(Started(start), start.sessionId) && NamesProject(Ended(start, end), start.sessionId)
  {
    SnapshotRuns(isUuid, machineId, start, end);
    SessionProjectOf(Ended(start, end), start.sessionId);
    SessionProjectOf(Started(start), start.sessionId);
  }

  lemma FirstStep(isUuid: string -> bool, machineId: string, start: Event, end: Event, first: Rows)
    requires StartAndEnd(isUuid, machineId, start, end)
    requires RebuildOnce(isUuid, Ended(start, end), Rows([], map[]), start.sessionId) == Some(first)
    ensures
      var st4, s := Overtaking(start, end)[4], start.sessionId;
      H.Next(isUuid, st4, H.Write(2), Wrote2(st4, s, start, end, first))
  {
    BothNamed(isUuid, machineId, start, end);
    var st4, s := Overtaking(start, end)[4], start.sessionId;
    assert st4.rows == Rows([], map[]) && [s][1..] == [];
    assert Wrote2(st4, s, start, end, first) == H.AfterWrite(isUuid, st4, 2);
  }

  lemma SecondStep(isUuid: string -> bool, machineId: string, start: Event, end: Event, st: H.State, second: Rows)
    requires StartAndEnd(isUuid, machineId, start, end) && 1 in st.procs && st.written.Keys == {start.sessionId}
    requires st.procs[1] == H.Process([start.sessionId],
                                      Some(H.Snapshot(start.sessionId, Started(start), 1)))
    requires RebuildOnce(isUuid, Started(start), st.rows, start.sessionId) == Some(second)
    ensures H.Next(isUuid, st, H.Write(1), Wrote1(st, start.sessionId, start, second))
  {
    BothNamed(isUuid, machineId, start, end);
    var s := start.sessionId;
    assert [s][1..] == [];
    assert Wrote1(st, s, start, second) == H.AfterWrite(isUuid, st, 1);
  }

  /** The whole history: four steps, and the two writes. */
  lemma OvertakenHistory(isUuid: string -> bool, machineId: string, start: Event, end: Event, first: Rows, second: Rows)
    requires StartAndEnd(isUuid, machineId, start, end)
    requires RebuildOnce(isUuid, Ended(start, end), Rows([], map[]), start.sessionId) == Some(first)
    requires RebuildOnce(isUuid, Started(start), first, start.sessionId) == Some(second)
    ensures
      var st5 := Wrote2(Overtaking(start, end)[4], start.sessionId, start, end, first);
      H.History(isUuid, Overtaking(start, end) + [st5] + [Wrote1(st5, start.sessionId, start, second)],
                Tasks(machineId, start, end) + [H.Write(2)] + [H.Write(1)])
  {
    var trace, tasks, s := Overtaking(start, end), Tasks(machineId, start, end), start.sessionId;
    var st5 := Wrote2(trace[4], s, start, end, first);
    OvertakingSteps(isUuid, machineId, start, end);
    FirstStep(isUuid, machineId, start, end, first);
    SecondStep(isUuid, machineId, start, end, st5, second);
    H.StepsSnoc(isUuid, trace, tasks, H.Write(2), st5);
    H.StepsSnoc(isUuid, trace + [st5], tasks + [H.Write(2)], H.Write(1),
                Wrote1(st5, s, start, second));
  }

  /** Every request is done, but the run is shown open although the log completes it. */
  ghost predicate ShowsOpen(st: H.State, start: Event, end: Event) {
    var s, id := start.sessionId, start.runId;
    && st.events == Ended(start, end) && (forall k :: k in st.procs ==> st.procs[k].todo == [])
    && id in SessionRuns(st.events, s) && SessionRuns(st.events, s)[id].status == Completed
    && id in st.rows.runs && st.rows.runs[id].status == Running
    && !H.Fresh(st, s) && !H.InStep(st, s, st.events)
  }

  lemma FinalShowsOpen(isUuid: string -> bool, machineId: string, start: Event, end: Event, first: Rows, second: Rows)
    requires StartAndEnd(isUuid, machineId, start, end)
    requires second.runs == map[start.runId := FreshRun(start).(projectId := start.payload.project.id)]
    ensures
      var st5 := Wrote2(Overtaking(start, end)[4], start.sessionId, start, end, first);
      ShowsOpen(Wrote1(st5, start.sessionId, start, second), start, end)
  {
    var st5 := Wrote2(Overtaking(start, end)[4], start.sessionId, start, end, first);
    SnapshotRuns(isUuid, machineId, start, end);
    ShownOpen(Wrote1(st5, start.sessionId, start, second), start.sessionId, start, end);
  }

  /** Request 1 commits the start and reads it; request 2, sent before request 1 is answered, repeats the start, commits
      the completion, rebuilds the session and is done; then request 1 writes what it read. No rebuild fails and no
      request has anything left to do, but the run is shown open although the log completes it. */
  lemma OvertakenRebuild(isUuid: string -> bool, machineId: string, start: Event, end: Event)
      returns (trace: seq<H.State>, actions: seq<H.Action>)
    requires StartAndEnd(isUuid, machineId, start, end)
    ensures H.History(isUuid, trace, actions) && ShowsOpen(trace[|actions|], start, end)
  {
    var s := start.sessionId;
    OldOverNew(isUuid, machineId, start, end);
    var first := RebuildOnce(isUuid, Ended(start, end), Rows([], map[]), s).value;
    var second := RebuildOnce(isUuid, Started(start), first, s).value;
    OvertakenHistory(isUuid, machineId, start, end, first, second);
    FinalShowsOpen(isUuid, machineId, start, end, first, second);
    var st5 := Wrote2(Overtaking(start, end)[4], s, start, end, first);
    trace := Overtaking(start, end) + [st5] + [Wrote1(st5, s, start, second)];
    actions := Tasks(machineId, start, end) + [H.Write(2)] + [H.Write(1)];
  }

  lemma ShownOpen(st: H.State, s: string, start: Event, end: Event)
    requires start.runId in st.rows.runs && st.rows.runs[start.runId].status == Running
    requires st.rows.runs[start.runId].sessionId == s
    requires SessionRuns(st.events, s) ==
             map[start.runId := CloseRun(FreshRun(start), end.occurredAt, Completed, ExplicitCompletion)]
    ensures !H.InStep(st, s, st.events)
  {
    var id := start.runId;
    var shown := EraseAll(RowsOf(st.rows.runs, s));
    assert shown[id].status == Running;
    assert EraseAll(SessionRuns(st.events, s))[id].status == Completed;
    forall t
      ensures !H.Reconciled(st, s, st.events, t)
    {
      assert EraseAll(ReconcileAll(SessionRuns(st.events, s), t))[id].status == Completed;
    }
  }
}
