/** Rebuilding the runs of a session: what it leaves in the tables, and when it fails. */
module Rebuilding {
  import opened Domain
  import opened Projection
  import opened EventOrder
  import opened ProjectTable
  import opened RunInvariants
  import opened SessionLocality
  import opened ServerTables
  import Projector

  /** The tables that a rebuild changes. */
  datatype Rows = Rows(projects: seq<ProjectRow>, runs: map<string, Run>)

  // ----- What the projection of one session's rows looks like -----

  lemma OneSession(table: map<string, Event>, s: string, id: string)
    requires Keyed(table) && id in SessionRuns(table, s)
    ensures
      var run := SessionRuns(table, s)[id];
      && run.id == id && run.sessionId == s
      && run.startedAt <= run.lastActivityAt
      && (run.endedAt.Some? ==> run.startedAt <= run.endedAt.value)
  {
    var log := SessionLog(table, s);
    var kept := Kept(Ordered(log));
    SessionLogLists(table, s);
    OrderedMembers(log);
    KeptSubset(Ordered(log));
    FoldSound(kept);
    assert RunSound(Fold(kept), id);
    FoldOwned(kept);
    assert Begun(kept, id, Fold(kept).runs[id].sessionId);
    var e :| e in kept && e.runId == id && e.sessionId == Fold(kept).runs[id].sessionId;
  }

  lemma OneOpen(table: map<string, Event>, s: string, a: string, b: string)
    requires Keyed(table) && a in SessionRuns(table, s) && b in SessionRuns(table, s)
    requires SessionRuns(table, s)[a].endedAt.None? && SessionRuns(table, s)[b].endedAt.None?
    ensures a == b
  {
    OneSession(table, s, a);
    OneSession(table, s, b);
    OneOpenRun(Kept(Ordered(SessionLog(table, s))), a, b);
  }

  /** Every run's project was named by some event. */
  lemma {:induction false} FoldProjects(events: seq<Event>)
    requires forall e :: e in events ==> e.payload.project.id == ""
    ensures forall id :: id in Fold(events).runs ==> Fold(events).runs[id].projectId == ""
  {
    if |events| > 0 {
      var before, e := events[..|events| - 1], events[|events| - 1];
      assert events == before + [e];
      FoldProjects(before);
      StepLasting(Fold(before), e);
      NewRunsProject(Fold(before), e);
    }
  }

  lemma NewRunsProject(st: State, e: Event)
    requires st.Valid()
    ensures forall id :: id in Step(st, e).runs && id !in st.runs ==>
              Step(st, e).runs[id].projectId == e.payload.project.id
  {
  }

  lemma NoProjectNamed(log: seq<Event>)
    requires forall e :: e in log ==> e.payload.project.id == ""
    ensures forall id :: id in ProjectedRuns(log) ==> ProjectedRuns(log)[id].projectId == ""
  {
    OrderedMembers(log);
    KeptSubset(Ordered(log));
    FoldProjects(Kept(Ordered(log)));
  }

  // ----- One rebuild -----

  function OtherRows(runs: map<string, Run>, s: string): map<string, Run> {
    map id | id in runs && runs[id].sessionId != s :: runs[id]
  }

  function Labelled(runs: map<string, Run>, projectId: string): map<string, Run> {
    map id | id in runs :: runs[id].(projectId := projectId)
  }

  /** Some run of the session has an id that a run of another session holds. */
  ghost predicate SharesRunId(events: map<string, Event>, runs: map<string, Run>, s: string) {
    exists id :: id in SessionRuns(events, s) && id in runs && runs[id].sessionId != s
  }

  /** The session names no project, or its project id parses and is accepted and no run id is taken. */
  ghost predicate Rebuildable(isUuid: string -> bool, events: map<string, Event>, rows: Rows, s: string) {
    var p := SessionProject(events, s);
    p.id == "" || (isUuid(p.id) && Accepts(rows.projects, p) && !SharesRunId(events, rows.runs, s))
  }

  /** The tables after the session is rebuilt; all or nothing. */
  ghost function RebuildOnce(isUuid: string -> bool, events: map<string, Event>, rows: Rows, s: string): Option<Rows> {
    var p := SessionProject(events, s);
    if !Rebuildable(isUuid, events, rows, s) then None
    else if p.id == "" then Some(rows)
    else Some(Rows(Stored(rows.projects, p),
                   OtherRows(rows.runs, s) + Labelled(SessionRuns(events, s), ChosenId(rows.projects, p))))
  }

  /** Rebuilds in order, up to the first that fails. */
  ghost function RebuildEach(isUuid: string -> bool, events: map<string, Event>, rows: Rows,
                             order: seq<string>): Option<Rows> {
    if |order| == 0 then Some(rows)
    else
      var before := RebuildEach(isUuid, events, rows, order[..|order| - 1]);
      if before.None? then None else RebuildOnce(isUuid, events, before.value, order[|order| - 1])
  }

  /** The first `done` rebuilds succeeded and left `after`; the next one, if there is one, failed. */
  ghost predicate Rebuilt(isUuid: string -> bool, events: map<string, Event>, before: Rows, order: seq<string>,
                          done: nat, after: Rows) {
    && done <= |order|
    && RebuildEach(isUuid, events, before, order[..done]) == Some(after)
    && (done < |order| ==> RebuildOnce(isUuid, events, after, order[done]).None?)
  }

  /** All rows of a rebuilt session carry the id under which the project of its first row that names one is known. */
  lemma RebuildLabels(isUuid: string -> bool, events: map<string, Event>, rows: Rows, s: string)
    requires Keyed(events) && NamesProject(events, s) && RebuildOnce(isUuid, events, rows, s).Some?
    ensures exists e ::
              && e in SessionSet(events, s) && e.payload.project.id != ""
              && (forall x :: x in SessionSet(events, s) && x.payload.project.id != "" ==> x == e || InRowOrder(e, x))
              && forall run :: run in RowsOf(RebuildOnce(isUuid, events, rows, s).value.runs, s).Values ==>
                   run.projectId == ChosenId(rows.projects, e.payload.project)
  {
    SessionProjectOf(events, s);
    FirstNamedRow(events, s);
    var after := RebuildOnce(isUuid, events, rows, s).value;
    var chosen := ChosenId(rows.projects, SessionProject(events, s));
    forall run | run in RowsOf(after.runs, s).Values
      ensures run.projectId == chosen
    {
      var id :| id in RowsOf(after.runs, s) && RowsOf(after.runs, s)[id] == run;
      assert id in SessionRuns(events, s);
    }
  }

  /** A rebuilt session shows its projection, if it names a project, and no other session's rows change. */
  lemma RebuildShows(isUuid: string -> bool, events: map<string, Event>, rows: Rows, s: string, t: string)
    requires Keyed(events) && RebuildOnce(isUuid, events, rows, s).Some?
    ensures
      var after := RebuildOnce(isUuid, events, rows, s).value;
      && (NamesProject(events, s) ==> EraseAll(RowsOf(after.runs, s)) == EraseAll(SessionRuns(events, s)))
      && (t != s ==> RowsOf(after.runs, t) == RowsOf(rows.runs, t))
  {
    SessionProjectOf(events, s);
    forall id | id in SessionRuns(events, s)
      ensures SessionRuns(events, s)[id].sessionId == s
    {
      OneSession(events, s, id);
    }
    ShowsLabelled(rows.runs, SessionRuns(events, s), ChosenId(rows.projects, SessionProject(events, s)), s, t);
  }

  lemma ShowsLabelled(runs: map<string, Run>, own: map<string, Run>, projectId: string, s: string, t: string)
    requires forall id :: id in own ==> own[id].sessionId == s
    ensures
      var after := OtherRows(runs, s) + Labelled(own, projectId);
      && EraseAll(RowsOf(after, s)) == EraseAll(own)
      && (t != s && (forall id :: id in own && id in runs ==> runs[id].sessionId == s) ==>
          RowsOf(after, t) == RowsOf(runs, t))
  {
  }

  /** After distinct rebuilds, each rebuilt session shows its projection and the other sessions are as before. */
  lemma {:induction false} EachShows(isUuid: string -> bool, events: map<string, Event>, rows: Rows, order: seq<string>,
                                     s: string)
    requires Keyed(events) && RebuildEach(isUuid, events, rows, order).Some?
    ensures
      var after := RebuildEach(isUuid, events, rows, order).value;
      && (s in order && NamesProject(events, s) ==> EraseAll(RowsOf(after.runs, s)) == EraseAll(SessionRuns(events, s)))
      && (s !in order ==> RowsOf(after.runs, s) == RowsOf(rows.runs, s))
  {
    if |order| > 0 {
      var front, last := order[..|order| - 1], order[|order| - 1];
      assert order == front + [last];
      EachShows(isUuid, events, rows, front, s);
      RebuildShows(isUuid, events, RebuildEach(isUuid, events, rows, front).value, last, s);
    }
  }

  lemma EachSnoc(isUuid: string -> bool, events: map<string, Event>, rows: Rows, order: seq<string>, i: nat)
    requires i < |order|
    ensures RebuildEach(isUuid, events, rows, order[..i + 1]) ==
            var before := RebuildEach(isUuid, events, rows, order[..i]);
            if before.None? then None else RebuildOnce(isUuid, events, before.value, order[i])
  {
    assert order[..i + 1][..i] == order[..i];
  }

  // ----- When every rebuild succeeds, in any order -----

  /** The sessions with their run ids, and the projects, that the events of a log may name. */
  ghost predicate Fits(e: Event, runIds: set<(string, string)>, projects: set<ProjectInfo>) {
    (e.sessionId, e.runId) in runIds && e.payload.project in projects
  }

  ghost predicate AllFit(events: map<string, Event>, runIds: set<(string, string)>, projects: set<ProjectInfo>) {
    forall id :: id in events ==> Fits(events[id], runIds, projects)
  }

  /** Of two projects or a row and a project with one fingerprint, the id is the same. */
  predicate Agree(p: ProjectInfo, q: ProjectInfo) {
    p.id != "" && q.id != "" && FingerprintOf(p) == FingerprintOf(q) ==> p.id == q.id
  }

  predicate RowAgrees(row: ProjectRow, p: ProjectInfo) {
    p.id != "" && row.fingerprint == FingerprintOf(p) ==> row.id == p.id
  }

  /** No run id is shared between sessions, project ids parse, and a fingerprint tells its project id. */
  ghost predicate Clear(isUuid: string -> bool, rows: Rows, runIds: set<(string, string)>, projects: set<ProjectInfo>) {
    && (forall a, b :: a in runIds && b in runIds && a.1 == b.1 != "" ==> a.0 == b.0)
    && (forall a :: a in runIds && a.1 in rows.runs ==> rows.runs[a.1].sessionId == a.0)
    && (forall p :: p in projects && p.id != "" ==> isUuid(p.id))
    && (forall p, q :: p in projects && q in projects ==> Agree(p, q))
    && (forall p, row :: p in projects && row in rows.projects ==> RowAgrees(row, p))
  }

  lemma NamedRuns(events: map<string, Event>, s: string, id: string, runIds: set<(string, string)>,
                  projects: set<ProjectInfo>)
    requires Keyed(events) && AllFit(events, runIds, projects) && id in SessionRuns(events, s)
    ensures (s, id) in runIds && id != "" && SessionRuns(events, s)[id].sessionId == s
  {
    OneSession(events, s, id);
    var log := SessionLog(events, s);
    var kept := Kept(Ordered(log));
    SessionLogLists(events, s);
    OrderedMembers(log);
    KeptSubset(Ordered(log));
    FoldOwned(kept);
    var e :| e in kept && e.runId == id && e.sessionId == Fold(kept).runs[id].sessionId;
    assert e in SessionSet(events, s);
  }

  lemma ClearRebuilds(isUuid: string -> bool, events: map<string, Event>, rows: Rows, s: string,
                      runIds: set<(string, string)>, projects: set<ProjectInfo>)
    requires Keyed(events) && AllFit(events, runIds, projects) && Clear(isUuid, rows, runIds, projects)
    ensures Rebuildable(isUuid, events, rows, s)
  {
    var p := SessionProject(events, s);
    SessionProjectOf(events, s);
    if p.id != "" {
      assert p in projects;
      if HasFingerprint(rows.projects, FingerprintOf(p)) {
        var i :| 0 <= i < |rows.projects| && rows.projects[i].fingerprint == FingerprintOf(p);
        assert rows.projects[i] in rows.projects;
      }
      forall id | id in SessionRuns(events, s) && id in rows.runs
        ensures rows.runs[id].sessionId == s
      {
        NamedRuns(events, s, id, runIds, projects);
        assert (s, id).1 in rows.runs;
      }
    }
  }

  lemma ClearStays(isUuid: string -> bool, events: map<string, Event>, rows: Rows, s: string,
                   runIds: set<(string, string)>, projects: set<ProjectInfo>)
    requires Keyed(events) && AllFit(events, runIds, projects) && Clear(isUuid, rows, runIds, projects)
    requires RebuildOnce(isUuid, events, rows, s).Some?
    ensures Clear(isUuid, RebuildOnce(isUuid, events, rows, s).value, runIds, projects)
  {
    var p, after := SessionProject(events, s), RebuildOnce(isUuid, events, rows, s).value;
    SessionProjectOf(events, s);
    if p.id != "" {
      assert p in projects;
      ClearRunsStay(events, rows.runs, s, ChosenId(rows.projects, p), runIds, projects);
      ClearProjectsStay(rows.projects, p, projects);
    }
  }

  lemma ClearRunsStay(events: map<string, Event>, runs: map<string, Run>, s: string, projectId: string,
                      runIds: set<(string, string)>, projects: set<ProjectInfo>)
    requires Keyed(events) && AllFit(events, runIds, projects)
    requires forall a, b :: a in runIds && b in runIds && a.1 == b.1 != "" ==> a.0 == b.0
    requires forall a :: a in runIds && a.1 in runs ==> runs[a.1].sessionId == a.0
    ensures
      var after := OtherRows(runs, s) + Labelled(SessionRuns(events, s), projectId);
      forall a :: a in runIds && a.1 in after ==> after[a.1].sessionId == a.0
  {
    forall a | a in runIds && a.1 in SessionRuns(events, s)
      ensures SessionRuns(events, s)[a.1].sessionId == a.0
    {
      NamedRuns(events, s, a.1, runIds, projects);
      assert a.1 == (s, a.1).1;
    }
  }

  lemma ClearProjectsStay(rows: seq<ProjectRow>, p: ProjectInfo, projects: set<ProjectInfo>)
    requires p in projects && p.id != ""
    requires forall q, r :: q in projects && r in projects ==> Agree(q, r)
    requires forall q, row :: q in projects && row in rows ==> RowAgrees(row, q)
    ensures forall q, row :: q in projects && row in Stored(rows, p) ==> RowAgrees(row, q)
  {
    forall q, row | q in projects && row in Stored(rows, p)
      ensures RowAgrees(row, q)
    {
      StoredFingerprints(rows, p, row);
      if known :| known in rows && known.id == row.id && known.fingerprint == row.fingerprint {
        assert RowAgrees(known, q);
      } else {
        assert Agree(p, q);
      }
    }
  }

  /** Then the rebuilds of any sessions, in any order, all succeed. */
  lemma {:induction false} ClearRebuildsEach(isUuid: string -> bool, events: map<string, Event>, rows: Rows,
                                             order: seq<string>,
                                             runIds: set<(string, string)>, projects: set<ProjectInfo>)
    requires Keyed(events) && AllFit(events, runIds, projects) && Clear(isUuid, rows, runIds, projects)
    ensures RebuildEach(isUuid, events, rows, order).Some?
    ensures Clear(isUuid, RebuildEach(isUuid, events, rows, order).value, runIds, projects)
  {
    if |order| > 0 {
      var front, last := order[..|order| - 1], order[|order| - 1];
      ClearRebuildsEach(isUuid, events, rows, front, runIds, projects);
      var before := RebuildEach(isUuid, events, rows, front).value;
      ClearRebuilds(isUuid, events, before, last, runIds, projects);
      ClearStays(isUuid, events, before, last, runIds, projects);
    }
  }

  // ----- The statements of one rebuild -----

  /** A row that the run table's constraints refuse: taken id, end before start, second open run of a session. */
  predicate RunRefused(table: map<string, Run>, run: Run) {
    || run.id in table
    || (run.endedAt.Some? && run.endedAt.value < run.startedAt)
    || (run.endedAt.None?
        && exists id :: id in table && table[id].endedAt.None? && table[id].sessionId == run.sessionId)
  }

  function Assign(runs: seq<Run>, projectId: string): map<string, Run> {
    if |runs| == 0 then map[]
    else
      var run := runs[|runs| - 1];
      Assign(runs[..|runs| - 1], projectId)[run.id := run.(projectId := projectId)]
  }

  ghost predicate DistinctIds(runs: seq<Run>) {
    forall i, j :: 0 <= i < j < |runs| ==> runs[i].id != runs[j].id
  }

  lemma {:induction false} AssignMembers(runs: seq<Run>, projectId: string)
    requires DistinctIds(runs)
    ensures forall run :: run in runs ==>
              run.id in Assign(runs, projectId) && Assign(runs, projectId)[run.id] == run.(projectId := projectId)
    ensures forall id :: id in Assign(runs, projectId) ==> exists run :: run in runs && run.id == id
  {
    if |runs| > 0 {
      var front, last := runs[..|runs| - 1], runs[|runs| - 1];
      assert runs == front + [last];
      AssignMembers(front, projectId);
      DistinctFromLast(front, last);
      AssignOneMore(Assign(front, projectId), front, last, projectId);
    }
  }

  lemma DistinctFromLast(front: seq<Run>, last: Run)
    requires DistinctIds(front + [last])
    ensures forall run :: run in front ==> run.id != last.id
  {
    var runs := front + [last];
    forall run | run in front
      ensures run.id != last.id
    {
      var i :| 0 <= i < |front| && front[i] == run;
      assert runs[i].id != runs[|front|].id;
    }
  }

  lemma AssignOneMore(table: map<string, Run>, front: seq<Run>, last: Run, projectId: string)
    requires forall run :: run in front ==> run.id != last.id
    requires forall run :: run in front ==> run.id in table && table[run.id] == run.(projectId := projectId)
    requires forall id :: id in table ==> exists run :: run in front && run.id == id
    ensures
      var table' := table[last.id := last.(projectId := projectId)];
      && (forall run :: run in front + [last] ==> run.id in table' && table'[run.id] == run.(projectId := projectId))
      && forall id :: id in table' ==> exists run :: run in front + [last] && run.id == id
  {
    var table' := table[last.id := last.(projectId := projectId)];
    assert last in front + [last];
    forall id | id in table'
      ensures exists run :: run in front + [last] && run.id == id
    {
      if id != last.id {
        var run :| run in front && run.id == id;
        assert run in front + [last];
      }
    }
  }

  lemma AssignStep(runs: seq<Run>, i: nat, projectId: string)
    requires i < |runs|
    ensures runs[..i + 1] == runs[..i] + [runs[i]]
    ensures Assign(runs[..i + 1], projectId) ==
              Assign(runs[..i], projectId)[runs[i].id := runs[i].(projectId := projectId)]
  {
    assert runs[..i + 1][..i] == runs[..i];
  }

  lemma ProjectedRows(events: map<string, Event>, s: string, projected: seq<Run>)
    requires Keyed(events) && Projector.ListsRuns(projected, SessionRuns(events, s))
    ensures DistinctIds(projected)
    ensures forall run :: run in projected <==>
              run.id in SessionRuns(events, s) && SessionRuns(events, s)[run.id] == run
    ensures forall run :: run in projected ==>
              run.sessionId == s && (run.endedAt.Some? ==> run.startedAt <= run.endedAt.value)
  {
    forall id | id in SessionRuns(events, s)
      ensures SessionRuns(events, s)[id].id == id
    {
      OneSession(events, s, id);
    }
    Projector.ListedIds(projected, SessionRuns(events, s));
    forall run | run in projected
      ensures run.sessionId == s && (run.endedAt.Some? ==> run.startedAt <= run.endedAt.value)
    {
      OneSession(events, s, run.id);
    }
  }

  lemma PrefixAssigned(projected: seq<Run>, i: nat, projectId: string, id: string)
    requires DistinctIds(projected) && i < |projected| && id in Assign(projected[..i], projectId)
    ensures exists k :: 0 <= k < i && projected[k].id == id
              && Assign(projected[..i], projectId)[id] == projected[k].(projectId := projectId)
  {
    AssignMembers(projected[..i], projectId);
    var run :| run in projected[..i] && run.id == id;
    var k :| 0 <= k < i && projected[k] == run;
  }

  /** Of the three constraints only the id can refuse a projected run, and only an id of another session. */
  lemma RefusedOnlyById(events: map<string, Event>, s: string, projected: seq<Run>, i: nat, others: map<string, Run>,
                        projectId: string)
    requires Keyed(events) && Projector.ListsRuns(projected, SessionRuns(events, s)) && i < |projected|
    requires forall id :: id in others ==> others[id].sessionId != s
    requires RunRefused(others + Assign(projected[..i], projectId), projected[i].(projectId := projectId))
    ensures projected[i].id in others
  {
    ProjectedRows(events, s, projected);
    var table, run := others + Assign(projected[..i], projectId), projected[i];
    assert run in projected;
    if run.id in table && run.id !in others {
      PrefixAssigned(projected, i, projectId, run.id);
      assert false;
    }
    if run.id !in table {
      var id :| id in table && table[id].endedAt.None? && table[id].sessionId == run.sessionId;
      assert id in Assign(projected[..i], projectId);
      PrefixAssigned(projected, i, projectId, id);
      var k :| 0 <= k < i && projected[k].id == id && table[id] == projected[k].(projectId := projectId);
      assert projected[k] in projected;
      OneOpen(events, s, projected[k].id, run.id);
      assert false;
    }
  }

  lemma OnlyTakenId(events: map<string, Event>, s: string, projected: seq<Run>, others: map<string, Run>,
                    projectId: string)
    requires Keyed(events) && Projector.ListsRuns(projected, SessionRuns(events, s))
    requires forall id :: id in others ==> others[id].sessionId != s
    requires exists i :: 0 <= i < |projected| &&
               RunRefused(others + Assign(projected[..i], projectId), projected[i].(projectId := projectId))
    ensures exists id :: id in SessionRuns(events, s) && id in others
  {
    var i :| 0 <= i < |projected|
        && RunRefused(others + Assign(projected[..i], projectId), projected[i].(projectId := projectId));
    RefusedOnlyById(events, s, projected, i, others, projectId);
    ProjectedRows(events, s, projected);
    assert projected[i] in projected;
  }

  lemma AssignLabels(events: map<string, Event>, s: string, projected: seq<Run>, projectId: string)
    requires Keyed(events) && Projector.ListsRuns(projected, SessionRuns(events, s))
    ensures Assign(projected, projectId) == Labelled(SessionRuns(events, s), projectId)
  {
    ProjectedRows(events, s, projected);
    AssignMembers(projected, projectId);
    forall id | id in SessionRuns(events, s)
      ensures SessionRuns(events, s)[id].id == id && SessionRuns(events, s)[id] in projected
    {
      OneSession(events, s, id);
    }
  }
}
