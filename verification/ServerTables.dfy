/** The server's event and run tables as values: ingestion, rebuilding and expiry. */
module ServerTables {
  import opened Domain
  import opened Projection
  import opened EventOrder
  import Ranging
  import Reconcile
  import Sorting

  datatype Reason = InvalidEvent | InvalidEventId | InvalidRunId

  /** Why an event is refused, if it is. */
  function Verdict(isUuid: string -> bool, e: Event): Option<Reason> {
    if e.sessionId == "" || e.id == "" || e.occurredAt == ZERO_TIME then Some(InvalidEvent)
    else if !isUuid(e.id) then Some(InvalidEventId)
    else if e.runId != "" && !isUuid(e.runId) then Some(InvalidRunId)
    else None
  }

  predicate SlotTaken(table: map<string, Event>, e: Event) {
    exists id :: id in table && SameSlot(table[id], e)
  }

  datatype Outcome = Refused(reason: Reason) | Duplicate | Accepted(table: map<string, Event>) | Conflict

  /** INSERT ... ON CONFLICT(id) DO UPDATE, for a Wakapi row whose time or payload changed; another row in
      the slot fails the transaction. */
  function IngestOne(isUuid: string -> bool, table: map<string, Event>, e: Event): Outcome {
    var verdict := Verdict(isUuid, e);
    if verdict.Some? then Refused(verdict.value)
    else if e.id in table then
      var stored := table[e.id];
      if stored.source == Wakapi && (stored.occurredAt != e.occurredAt || stored.payload != e.payload) then
        Accepted(table[e.id := stored.(occurredAt := e.occurredAt, payload := e.payload)])
      else Duplicate
    else if SlotTaken(table, e) then Conflict
    else Accepted(table[e.id := e])
  }

  /** The transaction so far, or that it has failed. */
  datatype Ingestion =
    | Aborted
    | Ingesting(table: map<string, Event>, accepted: nat, duplicates: nat, rejected: seq<(string, Reason)>,
                touched: set<string>)

  function Absorb(isUuid: string -> bool, machineId: string, ingestion: Ingestion, e: Event): Ingestion {
    if ingestion.Aborted? then Aborted
    else
      match IngestOne(isUuid, ingestion.table, e.(machineId := machineId))
      case Conflict => Aborted
      case Refused(reason) => ingestion.(rejected := ingestion.rejected + [(e.id, reason)])
      case Duplicate => ingestion.(duplicates := ingestion.duplicates + 1)
      case Accepted(table) =>
        ingestion.(table := table, accepted := ingestion.accepted + 1, touched := ingestion.touched + {e.sessionId})
  }

  function IngestAll(isUuid: string -> bool, table: map<string, Event>, machineId: string,
                     batch: seq<Event>): Ingestion {
    if |batch| == 0 then Ingesting(table, 0, 0, [], {})
    else Absorb(isUuid, machineId, IngestAll(isUuid, table, machineId, batch[..|batch| - 1]), batch[|batch| - 1])
  }

  lemma IngestAllSnoc(isUuid: string -> bool, table: map<string, Event>, machineId: string, batch: seq<Event>, e: Event)
    ensures IngestAll(isUuid, table, machineId, batch + [e]) ==
              Absorb(isUuid, machineId, IngestAll(isUuid, table, machineId, batch), e)
  {
    assert (batch + [e])[..|batch|] == batch;
  }

  lemma {:induction false} AbortedStays(isUuid: string -> bool, table: map<string, Event>, machineId: string,
                                        batch: seq<Event>, i: nat)
    requires i <= |batch| && IngestAll(isUuid, table, machineId, batch[..i]).Aborted?
    ensures IngestAll(isUuid, table, machineId, batch).Aborted?
    decreases |batch| - i
  {
    if i < |batch| {
      assert batch[..i + 1][..i] == batch[..i];
      AbortedStays(isUuid, table, machineId, batch, i + 1);
    } else {
      assert batch[..i] == batch;
    }
  }

  /** Every event of a batch is accepted, a duplicate or rejected, and exactly the refused ones are rejected. */
  lemma BatchAccounted(isUuid: string -> bool, table: map<string, Event>, machineId: string, batch: seq<Event>)
    ensures
      var r := IngestAll(isUuid, table, machineId, batch);
      r.Ingesting? ==>
        && r.accepted + r.duplicates + |r.rejected| == |batch|
        && (forall e :: e in batch && Verdict(isUuid, e).None? ==> e.id in r.table)
        && (forall e :: e in batch && Verdict(isUuid, e).Some? ==> (e.id, Verdict(isUuid, e).value) in r.rejected)
        && (forall x :: x in r.rejected ==>
            exists e :: e in batch && x == (e.id, Refusal(isUuid, e)) && Verdict(isUuid, e).Some?)
        && (forall id :: id in table ==> id in r.table)
  {
    BatchCounted(isUuid, table, machineId, batch);
    RejectedOnly(isUuid, table, machineId, batch);
  }

  lemma {:induction false} BatchCounted(isUuid: string -> bool, table: map<string, Event>, machineId: string,
                                        batch: seq<Event>)
    ensures
      var r := IngestAll(isUuid, table, machineId, batch);
      r.Ingesting? ==>
        && r.accepted + r.duplicates + |r.rejected| == |batch|
        && (forall e :: e in batch && Verdict(isUuid, e).None? ==> e.id in r.table)
        && (forall e :: e in batch && Verdict(isUuid, e).Some? ==> (e.id, Verdict(isUuid, e).value) in r.rejected)
        && (forall id :: id in table ==> id in r.table)
  {
    if |batch| > 0 {
      var before, e := batch[..|batch| - 1], batch[|batch| - 1];
      assert batch == before + [e];
      BatchCounted(isUuid, table, machineId, before);
      assert Verdict(isUuid, e.(machineId := machineId)) == Verdict(isUuid, e);
    }
  }

  lemma {:induction false} RejectedOnly(isUuid: string -> bool, table: map<string, Event>, machineId: string,
                                        batch: seq<Event>)
    ensures
      var r := IngestAll(isUuid, table, machineId, batch);
      r.Ingesting? ==>
        forall x :: x in r.rejected ==>
            exists e :: e in batch && x == (e.id, Refusal(isUuid, e)) && Verdict(isUuid, e).Some?
  {
    if |batch| > 0 {
      var before, e := batch[..|batch| - 1], batch[|batch| - 1];
      assert batch == before + [e];
      RejectedOnly(isUuid, table, machineId, before);
      var r := IngestAll(isUuid, table, machineId, before);
      if r.Ingesting? {
        OneRejected(isUuid, r, machineId, e);
        assert forall y :: y in before ==> y in batch;
        assert e in batch;
      }
    }
  }

  /** One event rejects at most itself. */
  lemma OneRejected(isUuid: string -> bool, r: Ingestion, machineId: string, e: Event)
    requires r.Ingesting?
    ensures
      var r' := Absorb(isUuid, machineId, r, e);
      r'.Ingesting? ==>
        forall x :: x in r'.rejected ==>
            x in r.rejected || (x == (e.id, Refusal(isUuid, e)) && Verdict(isUuid, e).Some?)
  {
    assert Verdict(isUuid, e.(machineId := machineId)) == Verdict(isUuid, e);
  }

  function Refusal(isUuid: string -> bool, e: Event): Reason {
    var verdict := Verdict(isUuid, e);
    if verdict.Some? then verdict.value else InvalidEvent
  }

  // ----- Session logs -----

  ghost predicate Keyed(table: map<string, Event>) {
    forall id :: id in table ==> table[id].id == id
  }

  function SessionSet(table: map<string, Event>, s: string): set<Event> {
    set id | id in table && table[id].sessionId == s :: table[id]
  }

  /** The sequence lists the session's rows. */
  ghost predicate ListsSession(log: seq<Event>, table: map<string, Event>, s: string) {
    forall e :: e in log <==> e in SessionSet(table, s)
  }

  /** ORDER BY sequence, occurred_at, id */
  predicate RowLe(a: Event, b: Event) {
    if a.sequence != b.sequence then a.sequence < b.sequence
    else if a.occurredAt != b.occurredAt then a.occurredAt < b.occurredAt
    else StringLe(a.id, b.id)
  }

  predicate RowLt(a: Event, b: Event) {
    RowLe(a, b) && a.id != b.id
  }

  lemma RowLeTotalPreorder()
    ensures Sorting.TotalPreorder(RowLe)
  {
    forall a, b
      ensures Sorting.Comparable(RowLe, a, b)
    {
      StringLeTotal(a.id, b.id);
    }
    forall a, b, c
      ensures Sorting.Chained(RowLe, a, b, c)
    {
      if RowLe(a, b) && RowLe(b, c) && a.sequence == b.sequence == c.sequence
          && a.occurredAt == b.occurredAt == c.occurredAt {
        StringLeTransitive(a.id, b.id, c.id);
      }
    }
  }

  /** Some listing of a set, each element once. */
  ghost function Listing(events: set<Event>): (log: seq<Event>)
    ensures forall e :: e in log <==> e in events
    ensures Ranging.Distinct(log)
    decreases |events|
  {
    if events == {} then []
    else
      var e :| e in events;
      [e] + Listing(events - {e})
  }

  /** The session's rows in the order in which they are read. */
  ghost function SessionLog(table: map<string, Event>, s: string): seq<Event> {
    Sorting.Sort(RowLe, Listing(SessionSet(table, s)))
  }

  lemma SortedRows(table: map<string, Event>, s: string, log: seq<Event>)
    requires Keyed(table) && ListsSession(log, table, s) && Ranging.Distinct(log)
    ensures ListsSession(Sorting.Sort(RowLe, log), table, s)
    ensures Sorting.SortedBy(RowLt, Sorting.Sort(RowLe, log))
  {
    var sorted := Sorting.Sort(RowLe, log);
    RowLeTotalPreorder();
    Sorting.SortSorts(RowLe, log);
    Sorting.SortPermutes(RowLe, log);
    assert forall e :: e in sorted <==> e in multiset(sorted);
    assert forall e :: e in log <==> e in multiset(log);
    Ranging.DistinctPermutes(log, sorted);
    forall i, j | 0 <= i < j < |sorted|
      ensures RowLt(sorted[i], sorted[j])
    {
      assert sorted[i] in SessionSet(table, s) && sorted[j] in SessionSet(table, s);
    }
  }

  /** However the rows are listed, sorting them gives the one log of the session. */
  lemma OneLog(table: map<string, Event>, s: string, log: seq<Event>)
    requires Keyed(table) && ListsSession(log, table, s) && Ranging.Distinct(log)
    ensures Sorting.Sort(RowLe, log) == SessionLog(table, s)
    ensures ListsSession(SessionLog(table, s), table, s)
  {
    SortedRows(table, s, log);
    SortedRows(table, s, Listing(SessionSet(table, s)));
    forall a, b
      ensures !(RowLt(a, b) && RowLt(b, a))
    {
      StringLeTotal(a.id, b.id);
    }
    Sorting.StrictlySortedUnique(RowLt, Sorting.Sort(RowLe, log), SessionLog(table, s));
  }

  lemma SessionLogLists(table: map<string, Event>, s: string)
    requires Keyed(table)
    ensures ListsSession(SessionLog(table, s), table, s)
    ensures Sorting.SortedBy(RowLt, SessionLog(table, s))
  {
    SortedRows(table, s, Listing(SessionSet(table, s)));
  }

  /** By sequence, then by time, then by id, and no row twice. */
  predicate InRowOrder(a: Event, b: Event) {
    && a.sequence <= b.sequence && (a.sequence == b.sequence ==> a.occurredAt <= b.occurredAt)
    && (a.sequence == b.sequence && a.occurredAt == b.occurredAt ==> StringLe(a.id, b.id))
    && a.id != b.id
  }

  lemma SessionLogOrder(table: map<string, Event>, s: string)
    requires Keyed(table)
    ensures forall i, j :: 0 <= i < j < |SessionLog(table, s)| ==>
              InRowOrder(SessionLog(table, s)[i], SessionLog(table, s)[j])
  {
    SessionLogLists(table, s);
    forall i, j | 0 <= i < j < |SessionLog(table, s)|
      ensures InRowOrder(SessionLog(table, s)[i], SessionLog(table, s)[j])
    {
      assert RowLt(SessionLog(table, s)[i], SessionLog(table, s)[j]);
    }
  }

  /** The project of the first event that names one. */
  function FirstProject(log: seq<Event>): ProjectInfo {
    if |log| == 0 then NO_PROJECT
    else if log[0].payload.project.id != "" then log[0].payload.project
    else FirstProject(log[1..])
  }

  lemma {:induction false} FirstProjectOf(log: seq<Event>)
    ensures FirstProject(log).id == "" <==> forall e :: e in log ==> e.payload.project.id == ""
    ensures FirstProject(log).id != "" ==>
              exists i :: IsFirstNamed(log, i) && log[i].payload.project == FirstProject(log)
  {
    if |log| > 0 {
      FirstProjectOf(log[1..]);
      assert log == [log[0]] + log[1..];
      if log[0].payload.project.id != "" {
        assert IsFirstNamed(log, 0);
      } else if FirstProject(log[1..]).id != "" {
        var i :| IsFirstNamed(log[1..], i) && log[1..][i].payload.project == FirstProject(log[1..]);
        assert IsFirstNamed(log, i + 1) && log[i + 1] == log[1..][i];
      }
    }
  }

  /** The event names a project, and no earlier one does. */
  predicate IsFirstNamed(log: seq<Event>, i: int) {
    && 0 <= i < |log| && log[i].payload.project.id != ""
    && forall j :: 0 <= j < i ==> log[j].payload.project.id == ""
  }

  ghost function SessionProject(table: map<string, Event>, s: string): ProjectInfo {
    FirstProject(SessionLog(table, s))
  }

  /** The projection of a session's rows. */
  ghost function SessionRuns(table: map<string, Event>, s: string): map<string, Run> {
    ProjectedRuns(SessionLog(table, s))
  }

  lemma AnyListing(log: seq<Event>, table: map<string, Event>, s: string)
    requires Keyed(table) && ListsSession(log, table, s)
    ensures ProjectedRuns(log) == SessionRuns(table, s)
  {
    SessionLogLists(table, s);
    ProjectionOfSet(log, SessionLog(table, s));
  }

  ghost predicate NamesProject(table: map<string, Event>, s: string) {
    exists e :: e in SessionSet(table, s) && e.payload.project.id != ""
  }

  lemma SessionProjectOf(table: map<string, Event>, s: string)
    requires Keyed(table)
    ensures NamesProject(table, s) <==> SessionProject(table, s).id != ""
    ensures NamesProject(table, s) ==>
              exists e :: e in SessionSet(table, s) && e.payload.project == SessionProject(table, s)
  {
    SessionLogLists(table, s);
    FirstProjectOf(SessionLog(table, s));
    if SessionProject(table, s).id != "" {
      FirstNamedRow(table, s);
    }
  }

  /** The session's project is that of its first row, in order of sequence, time and id, that names one. */
  lemma FirstNamedRow(table: map<string, Event>, s: string)
    requires Keyed(table) && SessionProject(table, s).id != ""
    ensures exists e ::
              && e in SessionSet(table, s) && e.payload.project == SessionProject(table, s)
              && forall x :: x in SessionSet(table, s) && x.payload.project.id != "" ==> x == e || InRowOrder(e, x)
  {
    var log := SessionLog(table, s);
    SessionLogLists(table, s);
    SessionLogOrder(table, s);
    FirstProjectOf(log);
    var i :| IsFirstNamed(log, i) && log[i].payload.project == FirstProject(log);
    forall x | x in SessionSet(table, s) && x.payload.project.id != ""
      ensures x == log[i] || InRowOrder(log[i], x)
    {
      assert x in log;
      var j :| 0 <= j < |log| && log[j] == x;
      assert i < j ==> InRowOrder(log[i], log[j]);
    }
    assert log[i] in log;
  }

  lemma {:induction false} IngestKeyed(isUuid: string -> bool, table: map<string, Event>, machineId: string,
                                       batch: seq<Event>)
    requires Keyed(table)
    ensures
      var r := IngestAll(isUuid, table, machineId, batch);
      r.Ingesting? ==> Keyed(r.table)
  {
    if |batch| > 0 {
      IngestKeyed(isUuid, table, machineId, batch[..|batch| - 1]);
    }
  }

  /** A session whose events name one project at most, and once at least, has that project. */
  lemma OneProject(events: map<string, Event>, batch: seq<Event>, s: string, p: ProjectInfo, e: Event)
    requires Keyed(events) && p.id != "" && forall x :: x in batch <==> x.id in events && events[x.id] == x
    requires e in batch && e.sessionId == s && e.payload.project == p
    requires forall x :: x in batch && x.sessionId == s ==> x.payload.project == p || x.payload.project == NO_PROJECT
    ensures SessionProject(events, s) == p
  {
    SessionProjectOf(events, s);
    assert e in SessionSet(events, s);
    var x :| x in SessionSet(events, s) && x.payload.project == SessionProject(events, s);
    assert x in batch;
  }

  // ----- Run rows -----

  function RowsOf(runs: map<string, Run>, s: string): map<string, Run> {
    map id | id in runs && runs[id].sessionId == s :: runs[id]
  }

  /** Project ids may be those of an older project of the same name, so they are left out of comparisons. */
  function Erase(run: Run): Run {
    run.(projectId := "")
  }

  function EraseAll(runs: map<string, Run>): map<string, Run> {
    map id | id in runs :: Erase(runs[id])
  }

  function Expire(runs: map<string, Run>, now: Time): map<string, Run> {
    map id | id in runs :: Reconcile.ExpireRow(runs[id], now)
  }

  function ReconcileAll(runs: map<string, Run>, now: Time): map<string, Run> {
    map id | id in runs :: Reconcile.ReconcileRun(runs[id], now, Reconcile.LEASE_GRACE, Reconcile.LEASE_MAXIMUM)
  }

  // ----- What ingestion leaves in the event table -----

  /** What the event table can hold: a session, a time, and ids that parse. */
  predicate Storable(isUuid: string -> bool, e: Event) {
    && e.sessionId != "" && e.occurredAt != ZERO_TIME && e.id != "" && isUuid(e.id)
    && (e.runId == "" || isUuid(e.runId))
  }

  /** An event is refused if and only if the table cannot hold it, first for what it lacks, then for its id, then for
      its run id. */
  lemma RefusedIffNotStorable(isUuid: string -> bool, e: Event)
    ensures Verdict(isUuid, e).None? <==> Storable(isUuid, e)
    ensures Verdict(isUuid, e) == Some(InvalidEvent) <==>
              e.sessionId == "" || e.id == "" || e.occurredAt == ZERO_TIME
    ensures Verdict(isUuid, e) == Some(InvalidRunId) ==> isUuid(e.id) && !isUuid(e.runId)
  {
  }

  ghost predicate AllStorable(isUuid: string -> bool, table: map<string, Event>) {
    forall id :: id in table ==> table[id].id == id && Storable(isUuid, table[id])
  }

  /** The row that a batch leaves under an id: a Wakapi row takes time and payload from the last storable event sent
      under it, any other row keeps what it first held. */
  ghost predicate KeepsLatest(isUuid: string -> bool, table: map<string, Event>, batch: seq<Event>,
                              after: map<string, Event>, id: string) {
    && (forall j :: 0 <= j < |batch| && batch[j].id == id && Storable(isUuid, batch[j]) ==> id in after)
    && (id in table ==> id in after && after[id].source == table[id].source)
    && (id in after && after[id].source == Wakapi ==>
          forall j :: LastStorable(isUuid, batch, j, id) ==>
            after[id].occurredAt == batch[j].occurredAt && after[id].payload == batch[j].payload)
    && (id in table && table[id].source != Wakapi ==> after[id] == table[id])
  }

  predicate LastStorable(isUuid: string -> bool, batch: seq<Event>, j: int, id: string) {
    && 0 <= j < |batch| && batch[j].id == id && Storable(isUuid, batch[j])
    && forall k :: j < k < |batch| ==> !(batch[k].id == id && Storable(isUuid, batch[k]))
  }

  lemma LastStorableSnoc(isUuid: string -> bool, batch: seq<Event>, e: Event, j: int, id: string)
    requires LastStorable(isUuid, batch + [e], j, id)
    ensures if e.id == id && Storable(isUuid, e) then j == |batch| else LastStorable(isUuid, batch, j, id)
  {
    var all := batch + [e];
    assert all[|batch|] == e;
    assert forall k :: 0 <= k < |batch| ==> all[k] == batch[k];
  }

  lemma AbsorbKeeps(isUuid: string -> bool, table: map<string, Event>, r: Ingestion, machineId: string,
                    batch: seq<Event>, e: Event, id: string)
    requires r.Ingesting? && AllStorable(isUuid, r.table) && KeepsLatest(isUuid, table, batch, r.table, id)
    ensures
      var r' := Absorb(isUuid, machineId, r, e);
      r'.Ingesting? ==>
        AllStorable(isUuid, r'.table) && KeepsLatest(isUuid, table, batch + [e], r'.table, id)
  {
    var r', all := Absorb(isUuid, machineId, r, e), batch + [e];
    RefusedIffNotStorable(isUuid, e.(machineId := machineId));
    assert Storable(isUuid, e.(machineId := machineId)) <==> Storable(isUuid, e);
    if r'.Ingesting? {
      forall j | LastStorable(isUuid, all, j, id) && id in r'.table && r'.table[id].source == Wakapi
        ensures r'.table[id].occurredAt == all[j].occurredAt && r'.table[id].payload == all[j].payload
      {
        LastStorableSnoc(isUuid, batch, e, j, id);
      }
      assert forall j :: 0 <= j < |all| && all[j].id == id ==> j == |batch| || batch[j].id == id;
    }
  }

  /** A committed batch leaves only rows that the table can hold, and in each the latest of what was sent. */
  lemma {:induction false} IngestKeepsLatest(isUuid: string -> bool, table: map<string, Event>, machineId: string,
                                             batch: seq<Event>, id: string)
    requires AllStorable(isUuid, table)
    ensures
      var r := IngestAll(isUuid, table, machineId, batch);
      r.Ingesting? ==> AllStorable(isUuid, r.table) && KeepsLatest(isUuid, table, batch, r.table, id)
  {
    if |batch| > 0 {
      var front, e := batch[..|batch| - 1], batch[|batch| - 1];
      assert batch == front + [e];
      IngestKeepsLatest(isUuid, table, machineId, front, id);
      var r := IngestAll(isUuid, table, machineId, front);
      if r.Ingesting? {
        AbsorbKeeps(isUuid, table, r, machineId, front, e, id);
      }
    }
  }
}
