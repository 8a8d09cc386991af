/** The run table over any history of requests. Each request commits in one transaction and then rebuilds session by
    session, reading the session's rows first and writing their projection later, so requests can overtake each
    other. */
module ServerHistory {
  import opened Domain
  import opened Rebuilding
  import opened ServerTables
  import Ranging
  import Reconcile

  /** A session's rows as they were after the first `at` commits. */
  datatype Snapshot = Snapshot(session: string, events: map<string, Event>, at: nat)

  /** A request at work: the sessions it has still to rebuild, in order, and what it has read of the first of them. */
  datatype Process = Process(todo: seq<string>, reading: Option<Snapshot>)

  /** The tables and the requests, and beside them what only the proofs look at: the number of commits, at which of
      them each session changed last, and which snapshot of each session was written last. */
  datatype State = State(
    events: map<string, Event>, rows: Rows, clock: Time, procs: map<nat, Process>,
    commits: nat, changed: map<string, nat>, written: map<string, Snapshot>)

  datatype Action =
    | Commit(id: nat, machineId: string, batch: seq<Event>, order: seq<string>)
    | Begin(id: nat, order: seq<string>)
    | Look(id: nat)
    | Write(id: nat)
    | Read(now: Time)

  /** An update of a stored event comes from its own session. */
  ghost predicate SameSessions(events: map<string, Event>, batch: seq<Event>) {
    forall e :: e in batch && e.id in events && e.id != "" ==> events[e.id].sessionId == e.sessionId
  }

  ghost predicate SessionsAgree(batch: seq<Event>) {
    forall a, b :: a in batch && b in batch && a.id == b.id != "" ==> a.sessionId == b.sessionId
  }

  /** The sessions that have events, some perhaps more than once. */
  ghost predicate ListsSessions(order: seq<string>, events: map<string, Event>) {
    forall s :: s in order <==> exists id :: id in events && events[id].sessionId == s
  }

  function SessionTable(events: map<string, Event>, s: string): map<string, Event> {
    map id | id in events && events[id].sessionId == s :: events[id]
  }

  function AfterCommit(st: State, id: nat, r: Ingestion, order: seq<string>): State
    requires r.Ingesting?
  {
    st.(events := r.table, procs := st.procs[id := Process(order, None)], commits := st.commits + 1,
        changed := map s | s in st.changed.Keys + r.touched ::
                     if s in r.touched then st.commits + 1 else st.changed[s])
  }

  function AfterLook(st: State, id: nat): State
    requires id in st.procs && |st.procs[id].todo| > 0
  {
    var todo := st.procs[id].todo;
    var snapshot := Snapshot(todo[0], SessionTable(st.events, todo[0]), st.commits);
    st.(procs := st.procs[id := Process(todo, Some(snapshot))])
  }

  /** A snapshot that names no project is not written. */
  ghost function AfterWrite(isUuid: string -> bool, st: State, id: nat): State
    requires id in st.procs && |st.procs[id].todo| > 0 && st.procs[id].reading.Some?
    requires
      var snapshot := st.procs[id].reading.value;
      RebuildOnce(isUuid, snapshot.events, st.rows, snapshot.session).Some?
  {
    var snapshot := st.procs[id].reading.value;
    st.(rows := RebuildOnce(isUuid, snapshot.events, st.rows, snapshot.session).value,
        procs := st.procs[id := Process(st.procs[id].todo[1..], None)],
        written := if NamesProject(snapshot.events, snapshot.session) then st.written[snapshot.session := snapshot]
                   else st.written)
  }

  function AfterRead(st: State, now: Time): State {
    st.(rows := Rows(st.rows.projects, Expire(st.rows.runs, now)), clock := now)
  }

  /** The order is that of the program's map of touched sessions, or of the query for all sessions. A request whose
      rebuild fails, or that is cut short, takes no further step. */
  ghost predicate Next(isUuid: string -> bool, st: State, action: Action, st': State) {
    match action
    case Commit(id, machineId, batch, order) =>
      var r := IngestAll(isUuid, st.events, machineId, batch);
      && id !in st.procs && SameSessions(st.events, batch) && SessionsAgree(batch)
      && r.Ingesting? && Ranging.Lists(order, r.touched) && st' == AfterCommit(st, id, r, order)
    case Begin(id, order) =>
      && id !in st.procs && ListsSessions(order, st.events)
      && st' == st.(procs := st.procs[id := Process(order, None)])
    case Look(id) =>
      && id in st.procs && |st.procs[id].todo| > 0 && st.procs[id].reading.None? && st' == AfterLook(st, id)
    case Write(id) =>
      && id in st.procs && |st.procs[id].todo| > 0 && st.procs[id].reading.Some?
      && (var snapshot := st.procs[id].reading.value;
          RebuildOnce(isUuid, snapshot.events, st.rows, snapshot.session).Some?)
      && st' == AfterWrite(isUuid, st, id)
    case Read(now) =>
      st.clock <= now && st' == AfterRead(st, now)
  }

  // ----- Invariant -----

  function LastChange(st: State, s: string): nat {
    if s in st.changed then st.changed[s] else 0
  }

  /** The snapshot was read after the session's last change. */
  predicate Current(st: State, snapshot: Snapshot) {
    LastChange(st, snapshot.session) <= snapshot.at
  }

  /** What was written last of the session was read after its last change. */
  predicate Fresh(st: State, s: string) {
    s in st.written && Current(st, st.written[s])
  }

  ghost predicate SnapshotSound(st: State, snapshot: Snapshot) {
    && Keyed(snapshot.events) && snapshot.at <= st.commits
    && (Current(st, snapshot) ==>
          SessionSet(snapshot.events, snapshot.session) == SessionSet(st.events, snapshot.session))
  }

  /** The rows are the projection of the events, reconciled at some time not after the clock, or not at all. */
  ghost predicate InStep(st: State, s: string, events: map<string, Event>) {
    || EraseAll(RowsOf(st.rows.runs, s)) == EraseAll(SessionRuns(events, s))
    || exists t :: t <= st.clock && Reconciled(st, s, events, t)
  }

  ghost predicate Reconciled(st: State, s: string, events: map<string, Event>, t: Time) {
    EraseAll(RowsOf(st.rows.runs, s)) == EraseAll(ReconcileAll(SessionRuns(events, s), t))
  }

  ghost predicate ProcessSound(st: State, process: Process) {
    process.reading.Some? ==>
      && |process.todo| > 0 && process.reading.value.session == process.todo[0]
      && SnapshotSound(st, process.reading.value)
  }

  /** A session's rows are the projection of the snapshot written last, or none if none was written. */
  ghost predicate RowsSound(st: State, s: string) {
    if s in st.written then
      var snapshot := st.written[s];
      snapshot.session == s && SnapshotSound(st, snapshot) && InStep(st, s, snapshot.events)
    else RowsOf(st.rows.runs, s) == map[]
  }

  ghost predicate Sound(st: State) {
    && Keyed(st.events) && (forall s :: s in st.changed ==> st.changed[s] <= st.commits)
    && (forall id :: id in st.procs ==> ProcessSound(st, st.procs[id]))
    && (forall s :: RowsSound(st, s))
  }

  lemma {:induction false} UntouchedSession(isUuid: string -> bool, table: map<string, Event>, machineId: string,
                                            batch: seq<Event>, s: string)
    requires Keyed(table) && SameSessions(table, batch) && SessionsAgree(batch)
    ensures
      var r := IngestAll(isUuid, table, machineId, batch);
      r.Ingesting? ==>
        && Keyed(r.table)
        && (forall id :: id in r.table && id !in table ==>
            exists e :: e in batch && e.id == id && e.sessionId == r.table[id].sessionId)
        && (forall id :: id in table ==> id in r.table && r.table[id].sessionId == table[id].sessionId)
        && (s !in r.touched ==> SessionSet(r.table, s) == SessionSet(table, s))
  {
    if |batch| > 0 {
      var before, e := batch[..|batch| - 1], batch[|batch| - 1];
      assert batch == before + [e];
      assert forall x :: x in before ==> x in batch;
      UntouchedSession(isUuid, table, machineId, before, s);
      var r := IngestAll(isUuid, table, machineId, before);
      if r.Ingesting? {
        if e.id in r.table && e.id !in table && e.id != "" {
          var x :| x in before && x.id == e.id && x.sessionId == r.table[e.id].sessionId;
          assert x in batch && e in batch;
        }
        assert e in batch;
        assert e.id in r.table && e.id != "" ==> r.table[e.id].sessionId == e.sessionId;
        OneMoreEvent(isUuid, table, r, machineId, e, before, s);
      }
    }
  }

  lemma OneMoreEvent(isUuid: string -> bool, table: map<string, Event>, r: Ingestion, machineId: string, e: Event,
                     before: seq<Event>, s: string)
    requires r.Ingesting? && Keyed(r.table)
    requires e.id in r.table && e.id != "" ==> r.table[e.id].sessionId == e.sessionId
    requires forall id :: id in r.table && id !in table ==>
               exists x :: x in before && x.id == id && x.sessionId == r.table[id].sessionId
    requires forall id :: id in table ==> id in r.table && r.table[id].sessionId == table[id].sessionId
    requires s !in r.touched ==> SessionSet(r.table, s) == SessionSet(table, s)
    ensures
      var r' := Absorb(isUuid, machineId, r, e);
      r'.Ingesting? ==>
        && Keyed(r'.table)
        && (forall id :: id in r'.table && id !in table ==>
            exists x :: x in before + [e] && x.id == id && x.sessionId == r'.table[id].sessionId)
        && (forall id :: id in table ==> id in r'.table && r'.table[id].sessionId == table[id].sessionId)
        && (s !in r'.touched ==> SessionSet(r'.table, s) == SessionSet(table, s))
  {
    var r' := Absorb(isUuid, machineId, r, e);
    if r'.Ingesting? {
      OneEvent(isUuid, r, machineId, e, s);
      forall id | id in r'.table && id !in table
        ensures exists x :: x in before + [e] && x.id == id && x.sessionId == r'.table[id].sessionId
      {
        if id in r.table {
          var x :| x in before && x.id == id && x.sessionId == r.table[id].sessionId;
          assert x in before + [e];
        } else {
          assert e in before + [e];
        }
      }
    }
  }

  /** One event adds at most its own row, keeps the session of every row, and changes only the session it touches. */
  lemma OneEvent(isUuid: string -> bool, r: Ingestion, machineId: string, e: Event, s: string)
    requires r.Ingesting? && Keyed(r.table)
    requires e.id in r.table && e.id != "" ==> r.table[e.id].sessionId == e.sessionId
    ensures
      var r' := Absorb(isUuid, machineId, r, e);
      r'.Ingesting? ==>
        && Keyed(r'.table) && r.touched <= r'.touched
        && (forall id :: id in r'.table ==> id in r.table || (id == e.id && r'.table[id].sessionId == e.sessionId))
        && (forall id :: id in r.table ==> id in r'.table && r'.table[id].sessionId == r.table[id].sessionId)
        && (s !in r'.touched ==> SessionSet(r'.table, s) == SessionSet(r.table, s))
  {
  }

  // ----- Steps -----

  /** A commit leaves the sessions it does not touch as they are, and outdates the snapshots of those it touches. */
  lemma SnapshotAfterCommit(isUuid: string -> bool, st: State, id: nat, machineId: string, batch: seq<Event>,
                            order: seq<string>, snapshot: Snapshot)
    requires Keyed(st.events) && SameSessions(st.events, batch) && SessionsAgree(batch)
    requires IngestAll(isUuid, st.events, machineId, batch).Ingesting? && SnapshotSound(st, snapshot)
    ensures SnapshotSound(AfterCommit(st, id, IngestAll(isUuid, st.events, machineId, batch), order), snapshot)
  {
    UntouchedSession(isUuid, st.events, machineId, batch, snapshot.session);
  }

  lemma StillInStep(st: State, st': State, s: string, events: map<string, Event>)
    requires RowsOf(st'.rows.runs, s) == RowsOf(st.rows.runs, s) && st.clock <= st'.clock && InStep(st, s, events)
    ensures InStep(st', s, events)
  {
    if t :| t <= st.clock && Reconciled(st, s, events, t) {
      assert Reconciled(st', s, events, t);
    }
  }

  lemma CommitSound(isUuid: string -> bool, st: State, id: nat, machineId: string, batch: seq<Event>,
                    order: seq<string>, st': State)
    requires Sound(st) && Next(isUuid, st, Commit(id, machineId, batch, order), st')
    ensures Sound(st')
  {
    IngestKeyed(isUuid, st.events, machineId, batch);
    forall k | k in st'.procs
      ensures ProcessSound(st', st'.procs[k])
    {
      if k != id && st.procs[k].reading.Some? {
        assert ProcessSound(st, st.procs[k]);
        SnapshotAfterCommit(isUuid, st, id, machineId, batch, order, st.procs[k].reading.value);
      }
    }
    forall s
      ensures RowsSound(st', s)
    {
      assert RowsSound(st, s);
      if s in st.written {
        SnapshotAfterCommit(isUuid, st, id, machineId, batch, order, st.written[s]);
        StillInStep(st, st', s, st.written[s].events);
      }
    }
  }

  /** Tables, clock and changes as they were: only the requests move. */
  lemma SameTables(st: State, st': State)
    requires Sound(st) && st' == st.(procs := st'.procs)
    requires forall id :: id in st'.procs ==> ProcessSound(st, st'.procs[id])
    ensures Sound(st')
  {
    forall id | id in st'.procs
      ensures ProcessSound(st', st'.procs[id])
    {
      assert ProcessSound(st, st'.procs[id]);
    }
    forall s
      ensures RowsSound(st', s)
    {
      assert RowsSound(st, s);
      if s in st.written {
        StillInStep(st, st', s, st.written[s].events);
      }
    }
  }

  lemma TableSession(events: map<string, Event>, s: string)
    ensures SessionSet(SessionTable(events, s), s) == SessionSet(events, s)
  {
    forall e | e in SessionSet(events, s)
      ensures e in SessionSet(SessionTable(events, s), s)
    {
      var id :| id in events && events[id].sessionId == s && events[id] == e;
      assert id in SessionTable(events, s) && SessionTable(events, s)[id] == e;
    }
  }

  lemma LookSound(st: State, id: nat)
    requires Sound(st) && id in st.procs && |st.procs[id].todo| > 0
    ensures Sound(AfterLook(st, id))
  {
    var st' := AfterLook(st, id);
    var s := st.procs[id].todo[0];
    TableSession(st.events, s);
    assert SnapshotSound(st, st'.procs[id].reading.value);
    SameTables(st, st');
  }

  lemma WriteSound(isUuid: string -> bool, st: State, id: nat, st': State)
    requires Sound(st) && Next(isUuid, st, Write(id), st')
    ensures Sound(st')
  {
    var snapshot := st.procs[id].reading.value;
    assert ProcessSound(st, st.procs[id]);
    forall k | k in st'.procs
      ensures ProcessSound(st', st'.procs[k])
    {
      assert ProcessSound(st, st.procs[k]);
    }
    forall s
      ensures RowsSound(st', s)
    {
      assert RowsSound(st, s);
      RebuildShows(isUuid, snapshot.events, st.rows, snapshot.session, s);
      if !(s == snapshot.session && NamesProject(snapshot.events, s)) {
        UnwrittenRows(isUuid, snapshot, st.rows, s);
        if s in st.written {
          StillInStep(st, st', s, st.written[s].events);
        }
      }
    }
  }

  lemma UnwrittenRows(isUuid: string -> bool, snapshot: Snapshot, rows: Rows, s: string)
    requires Keyed(snapshot.events) && RebuildOnce(isUuid, snapshot.events, rows, snapshot.session).Some?
    requires s != snapshot.session || !NamesProject(snapshot.events, s)
    ensures RowsOf(RebuildOnce(isUuid, snapshot.events, rows, snapshot.session).value.runs, s) == RowsOf(rows.runs, s)
  {
    RebuildShows(isUuid, snapshot.events, rows, snapshot.session, s);
    SessionProjectOf(snapshot.events, snapshot.session);
  }

  // ----- Reads -----

  /** Expiring a row of the projection, reconciled or not, is reconciling the projection at that time. */
  lemma ExpireRowOf(st: State, s: string, events: map<string, Event>, id: string, now: Time)
    requires Keyed(events) && InStep(st, s, events) && st.clock <= now
    requires id in RowsOf(st.rows.runs, s)
    ensures id in SessionRuns(events, s)
    ensures Erase(Reconcile.ExpireRow(st.rows.runs[id], now)) ==
            Erase(Reconcile.ReconcileRun(SessionRuns(events, s)[id], now, Reconcile.LEASE_GRACE,
                                         Reconcile.LEASE_MAXIMUM))
  {
    var row := st.rows.runs[id];
    assert id in EraseAll(RowsOf(st.rows.runs, s)) && EraseAll(RowsOf(st.rows.runs, s))[id] == Erase(row);
    if EraseAll(RowsOf(st.rows.runs, s)) == EraseAll(SessionRuns(events, s)) {
      var run := SessionRuns(events, s)[id];
      OneSession(events, s, id);
      assert Erase(row) == Erase(run);
      ExpireErased(row, run, now);
    } else {
      var t :| t <= st.clock && Reconciled(st, s, events, t);
      var run := SessionRuns(events, s)[id];
      OneSession(events, s, id);
      var earlier := Reconcile.ReconcileRun(run, t, Reconcile.LEASE_GRACE, Reconcile.LEASE_MAXIMUM);
      assert Erase(row) == Erase(earlier);
      ExpireErased(row, earlier, now);
      Reconcile.ReconcileComposes(run, t, now, Reconcile.LEASE_GRACE, Reconcile.LEASE_MAXIMUM);
    }
  }

  lemma ExpireErased(row: Run, run: Run, now: Time)
    requires Erase(row) == Erase(run) && (run.endedAt.None? ==> run.startedAt <= run.lastActivityAt)
    ensures Erase(Reconcile.ExpireRow(row, now)) ==
            Erase(Reconcile.ReconcileRun(run, now, Reconcile.LEASE_GRACE, Reconcile.LEASE_MAXIMUM))
  {
  }

  lemma ReadReconciles(st: State, now: Time, s: string, events: map<string, Event>)
    requires Keyed(events) && InStep(st, s, events) && st.clock <= now
    ensures Reconciled(AfterRead(st, now), s, events, now)
  {
    var own, shown := SessionRuns(events, s), RowsOf(Expire(st.rows.runs, now), s);
    forall id
      ensures id in shown <==> id in own
      ensures id in shown ==> Erase(shown[id]) == Erase(ReconcileAll(own, now)[id])
    {
      RowShown(st, now, s, events, id, own, shown);
    }
    SameErased(shown, ReconcileAll(own, now));
  }

  lemma SameErased(a: map<string, Run>, b: map<string, Run>)
    requires forall id :: id in a <==> id in b
    requires forall id :: id in a ==> Erase(a[id]) == Erase(b[id])
    ensures EraseAll(a) == EraseAll(b)
  {
  }

  lemma RowShown(st: State, now: Time, s: string, events: map<string, Event>, id: string,
                 own: map<string, Run>, shown: map<string, Run>)
    requires Keyed(events) && InStep(st, s, events) && st.clock <= now
    requires own == SessionRuns(events, s) && shown == RowsOf(Expire(st.rows.runs, now), s)
    ensures id in shown <==> id in own
    ensures id in shown ==> Erase(shown[id]) == Erase(ReconcileAll(own, now)[id])
  {
    SameIds(st, s, events, id);
    if id in shown {
      ExpireRowOf(st, s, events, id, now);
    }
  }

  lemma SameIds(st: State, s: string, events: map<string, Event>, id: string)
    requires InStep(st, s, events)
    ensures id in RowsOf(st.rows.runs, s) <==> id in SessionRuns(events, s)
  {
    assert id in RowsOf(st.rows.runs, s) <==> id in EraseAll(RowsOf(st.rows.runs, s));
  }

  lemma ReadSound(st: State, now: Time)
    requires Sound(st) && st.clock <= now
    ensures Sound(AfterRead(st, now))
  {
    var st' := AfterRead(st, now);
    forall id | id in st'.procs
      ensures ProcessSound(st', st'.procs[id])
    {
      assert ProcessSound(st, st.procs[id]);
    }
    forall s
      ensures RowsSound(st', s)
    {
      assert RowsSound(st, s);
      if s in st.written {
        ReadReconciles(st, now, s, st.written[s].events);
      } else {
        assert forall id :: id in RowsOf(st'.rows.runs, s) ==> id in RowsOf(st.rows.runs, s);
      }
    }
  }

  lemma NextSound(isUuid: string -> bool, st: State, action: Action, st': State)
    requires Sound(st) && Next(isUuid, st, action, st')
    ensures Sound(st')
  {
    match action
    case Commit(id, machineId, batch, order) => CommitSound(isUuid, st, id, machineId, batch, order, st');
    case Begin(id, order) => SameTables(st, st');
    case Look(id) => LookSound(st, id);
    case Write(id) => WriteSound(isUuid, st, id, st');
    case Read(now) => ReadSound(st, now);
  }

  // ----- Histories -----

  ghost predicate Steps(isUuid: string -> bool, trace: seq<State>, actions: seq<Action>) {
    && |trace| == |actions| + 1
    && forall i :: 0 <= i < |actions| ==> Next(isUuid, trace[i], actions[i], trace[i + 1])
  }

  ghost predicate History(isUuid: string -> bool, trace: seq<State>, actions: seq<Action>) {
    && Steps(isUuid, trace, actions)
    && trace[0].events == map[] && trace[0].rows.runs == map[] && trace[0].procs == map[]
    && trace[0].changed == map[] && trace[0].written == map[]
  }

  lemma {:induction false} StepsSound(isUuid: string -> bool, trace: seq<State>, actions: seq<Action>, i: nat)
    requires Steps(isUuid, trace, actions) && i < |trace| && Sound(trace[0])
    ensures Sound(trace[i])
  {
    if i > 0 {
      StepsSound(isUuid, trace, actions, i - 1);
      NextSound(isUuid, trace[i - 1], actions[i - 1], trace[i]);
    }
  }

  /** Over any history of overlapping requests and reads, each session's rows are the projection of the snapshot that
      was written last, reconciled at most at some past time. */
  lemma HistorySound(isUuid: string -> bool, trace: seq<State>, actions: seq<Action>, i: nat)
    requires History(isUuid, trace, actions) && i < |trace|
    ensures Sound(trace[i])
  {
    StepsSound(isUuid, trace, actions, i);
  }

  /** Reads do not disturb the rows: a read at time `now` shows, for every session, the projection of the snapshot
      written last, reconciled at `now`, as if no read had come before. */
  lemma ReadShowsWritten(isUuid: string -> bool, trace: seq<State>, actions: seq<Action>, i: nat, s: string)
    requires History(isUuid, trace, actions) && i < |actions| && actions[i].Read?
    ensures
      var shown, written := RowsOf(trace[i + 1].rows.runs, s), trace[i].written;
      EraseAll(shown) ==
      if s in written then EraseAll(ReconcileAll(SessionRuns(written[s].events, s), actions[i].now)) else map[]
  {
    HistorySound(isUuid, trace, actions, i);
    HistorySound(isUuid, trace, actions, i + 1);
    assert Next(isUuid, trace[i], actions[i], trace[i + 1]);
    assert RowsSound(trace[i], s) && RowsSound(trace[i + 1], s);
    if s in trace[i].written {
      ReadReconciles(trace[i], actions[i].now, s, trace[i].written[s].events);
    }
  }

  /** If that snapshot was read after the session's last change, the read shows the projection of the session's log. */
  lemma ReadShowsProjection(isUuid: string -> bool, trace: seq<State>, actions: seq<Action>, i: nat, s: string)
    requires History(isUuid, trace, actions) && i < |actions| && actions[i].Read? && Fresh(trace[i], s)
    ensures EraseAll(RowsOf(trace[i + 1].rows.runs, s)) ==
            EraseAll(ReconcileAll(SessionRuns(trace[i].events, s), actions[i].now))
  {
    HistorySound(isUuid, trace, actions, i);
    FreshRuns(trace[i], s);
    ReadShowsWritten(isUuid, trace, actions, i, s);
  }

  lemma FreshRuns(st: State, s: string)
    requires Sound(st) && Fresh(st, s)
    ensures SessionRuns(st.written[s].events, s) == SessionRuns(st.events, s)
    ensures InStep(st, s, st.events)
  {
    assert RowsSound(st, s);
    assert SessionSet(st.written[s].events, s) == SessionSet(st.events, s);
    if t :| t <= st.clock && Reconciled(st, s, st.written[s].events, t) {
      assert Reconciled(st, s, st.events, t);
    }
  }

  // ----- Histories in which no outdated snapshot is written -----

  /** Some request has still to rebuild the session. */
  predicate Awaited(st: State, s: string) {
    exists id :: id in st.procs && s in st.procs[id].todo
  }

  /** Every session that names a project is fresh, or will be rebuilt. */
  ghost predicate Covered(st: State) {
    forall s :: NamesProject(st.events, s) ==> Fresh(st, s) || Awaited(st, s)
  }

  /** What is written was read after the session's last change. */
  ghost predicate InTime(st: State, action: Action) {
    action.Write? && action.id in st.procs && st.procs[action.id].reading.Some? ==>
      Current(st, st.procs[action.id].reading.value)
  }

  lemma AwaitedStays(st: State, st': State, s: string)
    requires Awaited(st, s) && forall id :: id in st.procs && s in st.procs[id].todo ==>
                                 id in st'.procs && s in st'.procs[id].todo
    ensures Awaited(st', s)
  {
  }

  lemma CommitCovers(isUuid: string -> bool, st: State, id: nat, machineId: string, batch: seq<Event>,
                     order: seq<string>, st': State)
    requires Sound(st) && Covered(st) && Next(isUuid, st, Commit(id, machineId, batch, order), st')
    ensures Covered(st')
  {
    var r := IngestAll(isUuid, st.events, machineId, batch);
    forall s | NamesProject(st'.events, s)
      ensures Fresh(st', s) || Awaited(st', s)
    {
      if s in r.touched {
        assert s in Ranging.Elements(order) && s in st'.procs[id].todo;
      } else {
        UntouchedSession(isUuid, st.events, machineId, batch, s);
        assert NamesProject(st.events, s);
        assert RowsSound(st, s);
        if Awaited(st, s) {
          AwaitedStays(st, st', s);
        }
      }
    }
  }

  lemma WriteCovers(isUuid: string -> bool, st: State, id: nat, st': State)
    requires Sound(st) && Covered(st) && Next(isUuid, st, Write(id), st') && InTime(st, Write(id))
    ensures Covered(st')
  {
    assert ProcessSound(st, st.procs[id]);
    forall s | NamesProject(st'.events, s)
      ensures Fresh(st', s) || Awaited(st', s)
    {
      if s == st.procs[id].todo[0] {
        WriteRefreshes(isUuid, st, id, s);
      } else {
        WritePasses(isUuid, st, id, s);
      }
    }
  }

  lemma WriteRefreshes(isUuid: string -> bool, st: State, id: nat, s: string)
    requires id in st.procs && |st.procs[id].todo| > 0 && st.procs[id].todo[0] == s && st.procs[id].reading.Some?
    requires ProcessSound(st, st.procs[id]) && Current(st, st.procs[id].reading.value) && NamesProject(st.events, s)
    requires RebuildOnce(isUuid, st.procs[id].reading.value.events, st.rows, s).Some?
    ensures Fresh(AfterWrite(isUuid, st, id), s)
  {
    assert NamesProject(st.procs[id].reading.value.events, s);
  }

  lemma WritePasses(isUuid: string -> bool, st: State, id: nat, s: string)
    requires id in st.procs && |st.procs[id].todo| > 0 && st.procs[id].todo[0] != s && st.procs[id].reading.Some?
    requires ProcessSound(st, st.procs[id]) && (Fresh(st, s) || Awaited(st, s))
    requires RebuildOnce(isUuid, st.procs[id].reading.value.events, st.rows, st.procs[id].todo[0]).Some?
    ensures var st' := AfterWrite(isUuid, st, id); Fresh(st', s) || Awaited(st', s)
  {
    if Awaited(st, s) {
      var todo := st.procs[id].todo;
      assert todo == [todo[0]] + todo[1..];
      AwaitedStays(st, AfterWrite(isUuid, st, id), s);
    }
  }

  lemma BeginCovers(isUuid: string -> bool, st: State, id: nat, order: seq<string>, st': State)
    requires Next(isUuid, st, Begin(id, order), st')
    ensures Covered(st')
  {
    forall s | NamesProject(st'.events, s)
      ensures Awaited(st', s)
    {
      var e :| e in SessionSet(st.events, s) && e.payload.project.id != "";
      assert s in order && s in st'.procs[id].todo;
    }
  }

  lemma NextCovers(isUuid: string -> bool, st: State, action: Action, st': State)
    requires Sound(st) && Covered(st) && Next(isUuid, st, action, st') && InTime(st, action)
    ensures Covered(st')
  {
    match action
    case Commit(id, machineId, batch, order) => CommitCovers(isUuid, st, id, machineId, batch, order, st');
    case Begin(id, order) => BeginCovers(isUuid, st, id, order, st');
    case Write(id) => WriteCovers(isUuid, st, id, st');
    case _ =>
      forall s | NamesProject(st'.events, s)
        ensures Fresh(st', s) || Awaited(st', s)
      {
        if Awaited(st, s) {
          AwaitedStays(st, st', s);
        }
      }
  }

  lemma {:induction false} StepsCover(isUuid: string -> bool, trace: seq<State>, actions: seq<Action>, i: nat)
    requires Steps(isUuid, trace, actions) && i < |trace| && Sound(trace[0]) && Covered(trace[0])
    requires forall k :: 0 <= k < i ==> InTime(trace[k], actions[k])
    ensures Sound(trace[i]) && Covered(trace[i])
  {
    if i > 0 {
      StepsCover(isUuid, trace, actions, i - 1);
      NextSound(isUuid, trace[i - 1], actions[i - 1], trace[i]);
      NextCovers(isUuid, trace[i - 1], actions[i - 1], trace[i]);
    }
  }

  /** As long as nothing outdated is written, a session that names a project and that no request has still to rebuild
      is fresh: its rows are the projection of its log, reconciled. */
  lemma SettledSessionsFresh(isUuid: string -> bool, trace: seq<State>, actions: seq<Action>, i: nat, s: string)
    requires History(isUuid, trace, actions) && i < |trace|
    requires forall k :: 0 <= k < i ==> InTime(trace[k], actions[k])
    requires NamesProject(trace[i].events, s) && !Awaited(trace[i], s)
    ensures Fresh(trace[i], s) && InStep(trace[i], s, trace[i].events)
  {
    StepsCover(isUuid, trace, actions, i);
    FreshRuns(trace[i], s);
  }

  lemma LaterSteps(isUuid: string -> bool, trace: seq<State>, actions: seq<Action>)
    requires Steps(isUuid, trace, actions) && |actions| > 0
    ensures Steps(isUuid, trace[1..], actions[1..])
  {
    forall k | 0 <= k < |actions[1..]|
      ensures Next(isUuid, trace[1..][k], actions[1..][k], trace[1..][k + 1])
    {
      assert Next(isUuid, trace[k + 1], actions[k + 1], trace[k + 2]);
    }
  }

  /** A full rebuild makes up for whatever went wrong before it: from the state in which it lists the sessions, as long
      as nothing outdated is written, every session that no request has still to rebuild is fresh. */
  lemma RebuildAllHeals(isUuid: string -> bool, trace: seq<State>, actions: seq<Action>, i: nat, s: string)
    requires Steps(isUuid, trace, actions) && 0 < i < |trace| && Sound(trace[0]) && actions[0].Begin?
    requires forall k :: 0 <= k < i ==> InTime(trace[k], actions[k])
    requires NamesProject(trace[i].events, s) && !Awaited(trace[i], s)
    ensures Fresh(trace[i], s) && InStep(trace[i], s, trace[i].events)
  {
    assert Next(isUuid, trace[0], actions[0], trace[1]);
    NextSound(isUuid, trace[0], actions[0], trace[1]);
    BeginCovers(isUuid, trace[0], actions[0].id, actions[0].order, trace[1]);
    LaterSteps(isUuid, trace, actions);
    StepsCover(isUuid, trace[1..], actions[1..], i - 1);
    FreshRuns(trace[i], s);
  }

  // ----- One request at a time -----

  /** What a snapshot keeps of the table is enough to rebuild the session. */
  lemma SnapshotRebuilds(isUuid: string -> bool, events: map<string, Event>, rows: Rows, s: string)
    ensures RebuildOnce(isUuid, SessionTable(events, s), rows, s) == RebuildOnce(isUuid, events, rows, s)
  {
    TableSession(events, s);
  }

  lemma StepsSnoc(isUuid: string -> bool, trace: seq<State>, actions: seq<Action>, action: Action, st: State)
    requires Steps(isUuid, trace, actions) && Next(isUuid, trace[|actions|], action, st)
    ensures Steps(isUuid, trace + [st], actions + [action])
  {
  }

  /** A request that no other overtakes goes through its rebuilds one by one. */
  lemma {:induction false} RebuildSteps(isUuid: string -> bool, st: State, id: nat, order: seq<string>, done: nat)
      returns (trace: seq<State>, actions: seq<Action>)
    requires id in st.procs && st.procs[id] == Process(order, None)
    requires done <= |order| && RebuildEach(isUuid, st.events, st.rows, order[..done]).Some?
    ensures Steps(isUuid, trace, actions) && trace[0] == st
    ensures trace[|actions|].events == st.events && trace[|actions|].clock == st.clock
    ensures trace[|actions|].rows == RebuildEach(isUuid, st.events, st.rows, order[..done]).value
    ensures trace[|actions|].procs == st.procs[id := Process(order[done..], None)]
  {
    trace, actions := [st], [];
    if done > 0 {
      EachSnoc(isUuid, st.events, st.rows, order, done - 1);
      trace, actions := RebuildSteps(isUuid, st, id, order, done - 1);
      var before, s := trace[|actions|], order[done - 1];
      assert order[done - 1..][0] == s && order[done - 1..][1..] == order[done..];
      SnapshotRebuilds(isUuid, st.events, before.rows, s);
      var looked := AfterLook(before, id);
      StepsSnoc(isUuid, trace, actions, Look(id), looked);
      trace, actions := trace + [looked], actions + [Look(id)];
      var wrote := AfterWrite(isUuid, looked, id);
      StepsSnoc(isUuid, trace, actions, Write(id), wrote);
      trace, actions := trace + [wrote], actions + [Write(id)];
    }
  }

  lemma StepsFrom(isUuid: string -> bool, st: State, action: Action, trace: seq<State>, actions: seq<Action>)
    requires Steps(isUuid, trace, actions) && Next(isUuid, st, action, trace[0])
    ensures Steps(isUuid, [st] + trace, [action] + actions)
  {
    var states, tasks := [st] + trace, [action] + actions;
    assert forall k :: 0 <= k < |trace| ==> states[k + 1] == trace[k];
    forall k | 0 <= k < |tasks|
      ensures Next(isUuid, states[k], tasks[k], states[k + 1])
    {
      if k > 0 {
        assert tasks[k] == actions[k - 1] && states[k] == trace[k - 1];
        assert Next(isUuid, trace[k - 1], actions[k - 1], trace[k]);
      }
    }
  }

  lemma StepAndRebuilds(isUuid: string -> bool, st: State, action: Action, begun: State, id: nat, order: seq<string>,
                        done: nat) returns (trace: seq<State>, actions: seq<Action>)
    requires Next(isUuid, st, action, begun) && begun.procs == st.procs[id := Process(order, None)]
    requires done <= |order| && RebuildEach(isUuid, begun.events, begun.rows, order[..done]).Some?
    ensures Steps(isUuid, trace, actions) && trace[0] == st && |actions| > 0
    ensures trace[|actions|].events == begun.events && trace[|actions|].clock == begun.clock
    ensures trace[|actions|].rows == RebuildEach(isUuid, begun.events, begun.rows, order[..done]).value
    ensures trace[|actions|].procs == st.procs[id := Process(order[done..], None)]
  {
    trace, actions := RebuildSteps(isUuid, begun, id, order, done);
    StepsFrom(isUuid, st, action, trace, actions);
    assert begun.procs[id := Process(order[done..], None)] == st.procs[id := Process(order[done..], None)];
    trace, actions := [st] + trace, [action] + actions;
  }

  /** What an ingest that runs alone promises is a stretch of history: the commit, and `done` rebuilds. */
  lemma IngestIsSteps(isUuid: string -> bool, st: State, id: nat, machineId: string, batch: seq<Event>,
                      order: seq<string>, done: nat, rows: Rows) returns (trace: seq<State>, actions: seq<Action>)
    requires id !in st.procs && SameSessions(st.events, batch) && SessionsAgree(batch)
    requires
      var r := IngestAll(isUuid, st.events, machineId, batch);
      r.Ingesting? && Ranging.Lists(order, r.touched) && Rebuilt(isUuid, r.table, st.rows, order, done, rows)
    ensures Steps(isUuid, trace, actions) && trace[0] == st && |actions| > 0
    ensures trace[|actions|].events == IngestAll(isUuid, st.events, machineId, batch).table
    ensures trace[|actions|].rows == rows && trace[|actions|].clock == st.clock
    ensures trace[|actions|].procs == st.procs[id := Process(order[done..], None)]
  {
    var committed := AfterCommit(st, id, IngestAll(isUuid, st.events, machineId, batch), order);
    var action := Commit(id, machineId, batch, order);
    trace, actions := StepAndRebuilds(isUuid, st, action, committed, id, order, done);
  }

  /** So is what a full rebuild that runs alone promises. */
  lemma RebuildAllIsSteps(isUuid: string -> bool, st: State, id: nat, order: seq<string>, done: nat, rows: Rows)
      returns (trace: seq<State>, actions: seq<Action>)
    requires id !in st.procs && ListsSessions(order, st.events)
    requires Rebuilt(isUuid, st.events, st.rows, order, done, rows)
    ensures Steps(isUuid, trace, actions) && trace[0] == st && |actions| > 0
    ensures trace[|actions|].events == st.events && trace[|actions|].rows == rows
    ensures trace[|actions|].clock == st.clock && trace[|actions|].procs == st.procs[id := Process(order[done..], None)]
  {
    BeginIsStep(isUuid, st, id, order);
    var begun := st.(procs := st.procs[id := Process(order, None)]);
    trace, actions := StepAndRebuilds(isUuid, st, Begin(id, order), begun, id, order, done);
  }

  lemma BeginIsStep(isUuid: string -> bool, st: State, id: nat, order: seq<string>)
    requires id !in st.procs && ListsSessions(order, st.events)
    ensures Next(isUuid, st, Begin(id, order), st.(procs := st.procs[id := Process(order, None)]))
  {
  }

  /** A query for runs is a read. */
  lemma RunsIsStep(isUuid: string -> bool, st: State, now: Time, runs: map<string, Run>)
    requires st.clock <= now && runs == Expire(st.rows.runs, now)
    ensures Next(isUuid, st, Read(now), st.(rows := Rows(st.rows.projects, runs), clock := now))
  {
  }

  // ----- Redelivery -----

  /** Events the server has are duplicates, and duplicates touch no session: once a committed change has missed its
      rebuild, sending it again does not make up for it. */
  lemma {:induction false} RedeliveryRebuildsNothing(isUuid: string -> bool, table: map<string, Event>,
                                                     machineId: string, batch: seq<Event>)
    requires forall e :: e in batch ==>
               Verdict(isUuid, e).None? && e.id in table && table[e.id] == e.(machineId := machineId)
    ensures IngestAll(isUuid, table, machineId, batch) == Ingesting(table, 0, |batch|, [], {})
  {
    if |batch| > 0 {
      var before, e := batch[..|batch| - 1], batch[|batch| - 1];
      assert batch == before + [e];
      RedeliveryRebuildsNothing(isUuid, table, machineId, before);
      assert Verdict(isUuid, e.(machineId := machineId)) == Verdict(isUuid, e);
    }
  }
}
