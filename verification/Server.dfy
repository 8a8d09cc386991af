/** The server's store: idempotent ingestion, and runs materialised session by session. */
module Server {
  import opened Domain
  import opened ProjectTable
  import opened Rebuilding
  import opened ServerTables
  import Projector
  import Ranging
  import Reconcile
  import Sorting

  class Store {
    const isUuid: string -> bool
    var events: map<string, Event>
    var projects: seq<ProjectRow>
    var runs: map<string, Run>

    constructor (isUuid: string -> bool)
      ensures events == map[] && projects == [] && runs == map[] && this.isUuid == isUuid
    {
      this.isUuid := isUuid;
      events, projects, runs := map[], [], map[];
    }

    /** The rows of the session, each once, in order of sequence, time and id. */
    method SessionEvents(s: string) returns (log: seq<Event>)
      requires Keyed(events)
      ensures log == SessionLog(events, s)
      ensures ListsSession(log, events, s)
      ensures forall i, j :: 0 <= i < j < |log| ==> InRowOrder(log[i], log[j])
    {
      var ids := Ranging.Enumerate(set id | id in events && events[id].sessionId == s);
      var rows: seq<Event> := [];
      for i := 0 to |ids|
        invariant |rows| == i
        invariant forall k :: 0 <= k < i ==> ids[k] in events && rows[k] == events[ids[k]]
      {
        assert ids[i] in Ranging.Elements(ids);
        rows := rows + [events[ids[i]]];
      }
      RowsRead(events, s, ids, rows);
      OneLog(events, s, rows);
      SessionLogLists(events, s);
      SessionLogOrder(events, s);
      log := Sorting.Sort(RowLe, rows);
    }

    method ProjectFromEvents(log: seq<Event>) returns (project: ProjectInfo)
      ensures project == FirstProject(log)
    {
      for i := 0 to |log|
        invariant FirstProject(log) == FirstProject(log[i..])
      {
        assert log[i..][0] == log[i] && log[i..][1..] == log[i + 1..];
        if log[i].payload.project.id != "" {
          return log[i].payload.project;
        }
      }
      project := NO_PROJECT;
    }

    /** Looks the project up by name, then inserts it or renews its row. */
    method StoreProject(p: ProjectInfo) returns (projectId: Option<string>)
      modifies this`projects
      ensures projectId.Some? <==> Accepts(old(projects), p)
      ensures projectId.Some? ==> projectId.value == ChosenId(old(projects), p) && projects == Stored(old(projects), p)
      ensures projectId.None? ==> projects == old(projects)
    {
      var id, fingerprint := p.id, FingerprintOf(p);
      var existing := FirstNamed(projects, NameOf(p));
      if existing.Some? {
        id, fingerprint := existing.value.id, existing.value.fingerprint;
      }
      if HasId(projects, id) {
        projects := Renew(projects, id, p);
        return Some(id);
      }
      NotChosenNew(projects, p);
      if HasFingerprint(projects, fingerprint) {
        return None;
      }
      projects := projects + [ProjectRow(id, fingerprint, NameOf(p), p.remoteHash)];
      projectId := Some(id);
    }

    /** DELETE FROM runs WHERE session_id, then one INSERT for each projected run, all or nothing. */
    method ReplaceRuns(s: string, projected: seq<Run>, projectId: string, ghost read: map<string, Event>)
        returns (ok: bool)
      requires Keyed(read) && Projector.ListsRuns(projected, SessionRuns(read, s))
      modifies this`runs
      ensures ok <==> !SharesRunId(read, old(runs), s)
      ensures runs == if ok then OtherRows(old(runs), s) + Labelled(SessionRuns(read, s), projectId) else old(runs)
    {
      var others := OtherRows(runs, s);
      ProjectedRows(read, s, projected);
      var table := InsertRuns(others, projected, projectId);
      if table.None? {
        OnlyTakenId(read, s, projected, others, projectId);
        return false;
      }
      NoneTaken(read, runs, s, projected);
      AssignLabels(read, s, projected, projectId);
      runs := table.value;
      ok := true;
    }

    /** Reads the session's rows, then writes their projection. Other requests may commit in between: what is written
        is the projection of the rows as they were when read. */
    method RebuildSession(s: string) returns (ok: bool)
      requires Keyed(events)
      modifies this`projects, this`runs
      ensures ok <==> Rebuildable(isUuid, events, old(Rows(projects, runs)), s)
      ensures Rows(projects, runs) ==
              if ok then RebuildOnce(isUuid, events, old(Rows(projects, runs)), s).value else old(Rows(projects, runs))
    {
      var log := SessionEvents(s);
      ok := WriteSession(s, log, events);
    }

    /** Projects rows that were read from the event table `read` into the project and run tables as they are now, all
        or nothing. */
    method WriteSession(s: string, log: seq<Event>, ghost read: map<string, Event>) returns (ok: bool)
      requires Keyed(read) && log == SessionLog(read, s)
      modifies this`projects, this`runs
      ensures ok <==> Rebuildable(isUuid, read, old(Rows(projects, runs)), s)
      ensures Rows(projects, runs) ==
              if ok then RebuildOnce(isUuid, read, old(Rows(projects, runs)), s).value else old(Rows(projects, runs))
    {
      SessionLogLists(read, s);
      AnyListing(log, read, s);
      SessionProjectOf(read, s);
      if |log| == 0 {
        return true;
      }
      var projected := Projector.Project(log);
      var project := ProjectFromEvents(log);
      if project.id == "" && |projected| > 0 {
        ProjectlessRuns(read, s, projected);
        project := project.(id := projected[0].projectId);
      }
      if project.id == "" {
        return true;
      }
      if !isUuid(project.id) {
        return false;
      }
      ok := RebuildAs(s, projected, project, read);
    }

    /** Stores the project and replaces the session's runs, all or nothing. */
    method RebuildAs(s: string, projected: seq<Run>, project: ProjectInfo, ghost read: map<string, Event>)
        returns (ok: bool)
      requires Keyed(read) && Projector.ListsRuns(projected, SessionRuns(read, s))
      modifies this`projects, this`runs
      ensures ok <==> Accepts(old(projects), project) && !SharesRunId(read, old(runs), s)
      ensures !ok ==> projects == old(projects) && runs == old(runs)
      ensures ok ==> projects == Stored(old(projects), project)
      ensures ok ==>
                runs == OtherRows(old(runs), s) + Labelled(SessionRuns(read, s), ChosenId(old(projects), project))
    {
      var before := projects;
      var projectId := StoreProject(project);
      if projectId.None? {
        return false;
      }
      ok := ReplaceRuns(s, projected, projectId.value, read);
      if !ok {
        projects := before;
      }
    }

    /** The transaction over a batch, all or nothing, with its counters and the sessions it touched. */
    method InsertBatch(machineId: string, batch: seq<Event>) returns (ingestion: Ingestion)
      ensures ingestion == IngestAll(isUuid, events, machineId, batch)
    {
      var table, accepted, duplicates := events, 0, 0;
      var rejected: seq<(string, Reason)>, touched: set<string> := [], {};
      for i := 0 to |batch|
        invariant IngestAll(isUuid, events, machineId, batch[..i]) ==
                    Ingesting(table, accepted, duplicates, rejected, touched)
      {
        assert batch[..i + 1] == batch[..i] + [batch[i]];
        IngestAllSnoc(isUuid, events, machineId, batch[..i], batch[i]);
        match IngestOne(isUuid, table, batch[i].(machineId := machineId)) {
          case Conflict =>
            AbortedStays(isUuid, events, machineId, batch, i + 1);
            return Aborted;
          case Refused(reason) => rejected := rejected + [(batch[i].id, reason)];
          case Duplicate => duplicates := duplicates + 1;
          case Accepted(next) => table, accepted, touched := next, accepted + 1, touched + {batch[i].sessionId};
        }
      }
      assert batch[..|batch|] == batch;
      ingestion := Ingesting(table, accepted, duplicates, rejected, touched);
    }

    /** Commits the batch, then rebuilds each touched session, up to the first that fails. A failed transaction changes
        nothing; a failed rebuild leaves the events and the earlier rebuilds committed. */
    method Ingest(machineId: string, batch: seq<Event>)
        returns (ok: bool, ingestion: Ingestion, ghost order: seq<string>, ghost done: nat)
      requires Keyed(events)
      modifies this
      ensures Keyed(events)
      ensures ingestion == IngestAll(isUuid, old(events), machineId, batch)
      ensures ingestion.Aborted? ==> !ok && events == old(events) && projects == old(projects) && runs == old(runs)
      ensures ingestion.Ingesting? ==>
                && events == ingestion.table && Ranging.Lists(order, ingestion.touched)
                && Rebuilt(isUuid, events, old(Rows(projects, runs)), order, done, Rows(projects, runs))
                && (ok <==> done == |order|)
    {
      ok, order, done := false, [], 0;
      ingestion := InsertBatch(machineId, batch);
      if ingestion.Aborted? {
        return;
      }
      IngestKeyed(isUuid, events, machineId, batch);
      events := ingestion.table;
      ok, order, done := RebuildTouched(ingestion.touched);
    }

    /** Ranges over the touched sessions in an order that the program does not choose. */
    method RebuildTouched(sessions: set<string>) returns (ok: bool, ghost order: seq<string>, ghost done: nat)
      requires Keyed(events)
      modifies this`projects, this`runs
      ensures Ranging.Lists(order, sessions)
      ensures Rebuilt(isUuid, events, old(Rows(projects, runs)), order, done, Rows(projects, runs))
      ensures ok <==> done == |order|
    {
      var listed := Ranging.Enumerate(sessions);
      order := listed;
      ok, done := RebuildListed(listed);
    }

    method RebuildListed(listed: seq<string>) returns (ok: bool, ghost done: nat)
      requires Keyed(events)
      modifies this`projects, this`runs
      ensures Rebuilt(isUuid, events, old(Rows(projects, runs)), listed, done, Rows(projects, runs))
      ensures ok <==> done == |listed|
    {
      done := 0;
      for i := 0 to |listed|
        invariant RebuildEach(isUuid, events, old(Rows(projects, runs)), listed[..i]) == Some(Rows(projects, runs))
      {
        done := i;
        EachSnoc(isUuid, events, old(Rows(projects, runs)), listed, i);
        ok := RebuildSession(listed[i]);
        if !ok {
          return;
        }
      }
      ok, done := true, |listed|;
    }

    /** Rebuilds the session of every pair of machine and session, up to the first that fails. */
    method RebuildAll() returns (ok: bool, ghost order: seq<string>, ghost done: nat)
      requires Keyed(events)
      modifies this`projects, this`runs
      ensures forall s :: s in order <==> exists id :: id in events && events[id].sessionId == s
      ensures Rebuilt(isUuid, events, old(Rows(projects, runs)), order, done, Rows(projects, runs))
      ensures ok <==> done == |order|
    {
      var pairs := Ranging.Enumerate(set id | id in events :: (events[id].machineId, events[id].sessionId));
      var listed: seq<string> := [];
      for i := 0 to |pairs|
        invariant forall s :: s in listed <==> exists k :: 0 <= k < i && pairs[k].1 == s
      {
        listed := listed + [pairs[i].1];
      }
      PairSessions(events, pairs, listed);
      order := listed;
      ok, done := RebuildListed(listed);
    }

    /** Expires the leases that have run out, then selects the runs that meet the window, latest start first. */
    method Runs(from: Time, to: Time, now: Time, activeOnly: bool, projectId: string) returns (result: seq<Run>)
      requires KeyedRuns(runs)
      modifies this`runs
      ensures runs == Expire(old(runs), now)
      ensures Projector.ListsRuns(result, SelectedRuns(runs, from, to, now, activeOnly, projectId))
      ensures forall i, j :: 0 <= i < j < |result| ==> result[i].startedAt >= result[j].startedAt
    {
      runs := map id | id in runs :: Reconcile.ExpireRow(runs[id], now);
      result := OrderRows(SelectedRuns(runs, from, to, now, activeOnly, projectId));
    }
  }

  method OrderRows(selected: map<string, Run>) returns (result: seq<Run>)
    requires KeyedRuns(selected)
    ensures Projector.ListsRuns(result, selected)
    ensures forall i, j :: 0 <= i < j < |result| ==> result[i].startedAt >= result[j].startedAt
  {
    var ids := Ranging.Enumerate(selected.Keys);
    var rows: seq<Run> := [];
    for i := 0 to |ids|
      invariant |rows| == i
      invariant forall k :: 0 <= k < i ==> ids[k] in selected && rows[k] == selected[ids[k]]
    {
      assert ids[i] in Ranging.Elements(ids);
      rows := rows + [selected[ids[i]]];
    }
    Projector.ListedByIds(rows, selected, ids);
    assert Sorting.TotalPreorder(StartedLater);
    Sorting.SortSorts(StartedLater, rows);
    Sorting.SortPermutes(StartedLater, rows);
    result := Sorting.Sort(StartedLater, rows);
    assert forall i, j :: 0 <= i < j < |result| ==> StartedLater(result[i], result[j]);
  }

  ghost predicate KeyedRuns(runs: map<string, Run>) {
    forall id :: id in runs ==> runs[id].id == id
  }

  /** WHERE started_at < to AND COALESCE(ended_at, now) > from, with the optional filters */
  predicate Selected(run: Run, from: Time, to: Time, now: Time, activeOnly: bool, projectId: string) {
    && run.startedAt < to && (if run.endedAt.Some? then run.endedAt.value else now) > from
    && (activeOnly ==> run.endedAt.None?)
    && (projectId != "" ==> run.projectId == projectId)
  }

  function SelectedRuns(runs: map<string, Run>, from: Time, to: Time, now: Time, activeOnly: bool,
                        projectId: string): map<string, Run> {
    map id | id in runs && Selected(runs[id], from, to, now, activeOnly, projectId) :: runs[id]
  }

  predicate StartedLater(a: Run, b: Run) {
    a.startedAt >= b.startedAt
  }

  method InsertRuns(others: map<string, Run>, projected: seq<Run>, projectId: string)
      returns (table: Option<map<string, Run>>)
    requires DistinctIds(projected)
    ensures table.Some? ==> table.value == others + Assign(projected, projectId)
    ensures table.Some? ==> forall run :: run in projected ==> run.id !in others
    ensures table.None? ==> exists i :: 0 <= i < |projected| &&
                              RunRefused(others + Assign(projected[..i], projectId),
                                         projected[i].(projectId := projectId))
  {
    var rows := others;
    for i := 0 to |projected|
      invariant rows == others + Assign(projected[..i], projectId)
      invariant forall run :: run in projected[..i] ==> run.id !in others
    {
      AssignStep(projected, i, projectId);
      var run := projected[i].(projectId := projectId);
      if RunRefused(rows, run) {
        return None;
      }
      rows := rows[run.id := run];
    }
    assert projected[..|projected|] == projected;
    table := Some(rows);
  }

  lemma PairSessions(events: map<string, Event>, pairs: seq<(string, string)>, listed: seq<string>)
    requires Ranging.Lists(pairs, set id | id in events :: (events[id].machineId, events[id].sessionId))
    requires forall s :: s in listed <==> exists k :: 0 <= k < |pairs| && pairs[k].1 == s
    ensures forall s :: s in listed <==> exists id :: id in events && events[id].sessionId == s
  {
    forall s
      ensures s in listed <==> exists id :: id in events && events[id].sessionId == s
    {
      if s in listed {
        var k :| 0 <= k < |pairs| && pairs[k].1 == s;
        assert pairs[k] in Ranging.Elements(pairs);
      }
      if id :| id in events && events[id].sessionId == s {
        assert (events[id].machineId, s) in Ranging.Elements(pairs);
        var k :| 0 <= k < |pairs| && pairs[k] == (events[id].machineId, s);
      }
    }
  }

  lemma RowsRead(table: map<string, Event>, s: string, ids: seq<string>, rows: seq<Event>)
    requires Keyed(table) && Ranging.Lists(ids, set id | id in table && table[id].sessionId == s)
    requires |rows| == |ids| && forall k :: 0 <= k < |ids| ==> ids[k] in table && rows[k] == table[ids[k]]
    ensures ListsSession(rows, table, s) && Ranging.Distinct(rows)
  {
    forall e
      ensures e in rows <==> e in SessionSet(table, s)
    {
      if e in SessionSet(table, s) {
        assert e.id in Ranging.Elements(ids);
        var k :| 0 <= k < |ids| && ids[k] == e.id;
        assert rows[k] == e;
      }
      if e in rows {
        var k :| 0 <= k < |rows| && rows[k] == e;
        assert ids[k] in Ranging.Elements(ids);
      }
    }
  }

  lemma ProjectlessRuns(events: map<string, Event>, s: string, projected: seq<Run>)
    requires Keyed(events) && Projector.ListsRuns(projected, SessionRuns(events, s)) && |projected| > 0
    requires !NamesProject(events, s)
    ensures projected[0].projectId == ""
  {
    SessionLogLists(events, s);
    NoProjectNamed(SessionLog(events, s));
    ProjectedRows(events, s, projected);
    assert projected[0] in projected;
  }

  lemma NoneTaken(events: map<string, Event>, runs: map<string, Run>, s: string, projected: seq<Run>)
    requires Keyed(events) && Projector.ListsRuns(projected, SessionRuns(events, s))
    requires forall run :: run in projected ==> run.id !in OtherRows(runs, s)
    ensures !SharesRunId(events, runs, s)
  {
    ProjectedRows(events, s, projected);
    forall id | id in SessionRuns(events, s) && id in runs
      ensures runs[id].sessionId == s
    {
      OneSession(events, s, id);
      assert SessionRuns(events, s)[id] in projected;
    }
  }
}
