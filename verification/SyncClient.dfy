/** One client's synchronisation round, and draining the queue. */
module SyncClient {
  import opened Domain
  import L = LocalTables
  import S = ServerTables
  import LocalStore
  import Ranging
  import opened Rebuilding
  import Server
  import opened SyncProtocol

  const BATCH_SIZE: nat := 250

  /** What the network does to one exchange. */
  datatype Network = Answered | RequestLost | ReplyLost

  /** The queue and the server's tables. */
  datatype World = World(local: map<string, L.Row>, events: map<string, Event>, rows: Rows)

  /** A batch that was sent, and the order in which the sessions it touched were rebuilt. */
  datatype Round = Round(batch: seq<Event>, order: seq<string>)

  ghost function WorldOf(store: LocalStore.Store, server: Server.Store): World
    reads store`events, server
  {
    World(store.events, server.events, Rows(server.projects, server.runs))
  }

  /** The batch consists of pending rows. */
  ghost predicate FromQueue(local: map<string, L.Row>, batch: seq<Event>) {
    forall e :: e in batch ==> e.id in local && local[e.id] == L.Row(e, L.Pending)
  }

  /** What the server made of the batch: nothing if it aborted, else all its events and the first `done` rebuilds. */
  ghost predicate Handled(isUuid: string -> bool, machineId: string, w: World, round: Round, done: nat, w': World) {
    var r := S.IngestAll(isUuid, w.events, machineId, round.batch);
    && (r.Aborted? ==> w'.events == w.events && w'.rows == w.rows)
    && (r.Ingesting? ==> w'.events == r.table && Ranging.Lists(round.order, r.touched)
                         && Rebuilt(isUuid, r.table, w.rows, round.order, done, w'.rows))
  }

  ghost predicate Completed(isUuid: string -> bool, machineId: string, w: World, round: Round, done: nat) {
    S.IngestAll(isUuid, w.events, machineId, round.batch).Ingesting? && done == |round.order|
  }

  function Acknowledged(isUuid: string -> bool, machineId: string, w: World, batch: seq<Event>): map<string, L.Row> {
    var r := S.IngestAll(isUuid, w.events, machineId, batch);
    if r.Aborted? then w.local else L.AckAll(w.local, AckIds(batch, RejectedIds(r)))
  }

  method AckList(batch: seq<Event>, rejected: set<string>) returns (ids: seq<string>)
    ensures ids == AckIds(batch, rejected)
  {
    ids := [];
    for i := 0 to |batch|
      invariant ids == AckIds(batch[..i], rejected)
    {
      assert batch[..i + 1][..i] == batch[..i];
      if batch[i].id !in rejected {
        ids := ids + [batch[i].id];
      }
    }
    assert batch[..|batch|] == batch;
  }

  /** As many pending events as a batch holds. */
  method FetchBatch(store: LocalStore.Store) returns (batch: seq<Event>)
    requires L.KeyedRows(store.events)
    ensures FromQueue(store.events, batch)
    ensures |batch| == if |L.PendingRows(store.events)| < 250 then |L.PendingRows(store.events)| else 250
    ensures |batch| == 0 <==> L.PendingRows(store.events) == {}
  {
    batch := store.PendingEvents(BATCH_SIZE);
    PendingBatch(store.events, batch);
  }

  /** Fetches a batch, sends it, and acknowledges what was not rejected, if the answer arrives. */
  method SyncOnce(store: LocalStore.Store, server: Server.Store, machineId: string, network: Network)
      returns (ok: bool, batch: seq<Event>, ghost order: seq<string>, ghost done: nat)
    requires L.KeyedRows(store.events) && S.Keyed(server.events)
    modifies store`events, server
    ensures S.Keyed(server.events)
    ensures FromQueue(old(store.events), batch)
    ensures |batch| == if |L.PendingRows(old(store.events))| < 250 then |L.PendingRows(old(store.events))| else 250
    ensures |batch| == 0 <==> L.PendingRows(old(store.events)) == {}
    ensures |batch| == 0 || network.RequestLost? ==>
              WorldOf(store, server).(local := old(store.events)) == old(WorldOf(store, server))
    ensures |batch| > 0 && !network.RequestLost? ==>
              Handled(server.isUuid, machineId, old(WorldOf(store, server)), Round(batch, order), done,
                      WorldOf(store, server))
    ensures ok <==>
              (|batch| == 0
               || (network.Answered?
                   && Completed(server.isUuid, machineId, old(WorldOf(store, server)), Round(batch, order), done)))
    ensures store.events == if |batch| > 0 && ok
              then Acknowledged(server.isUuid, machineId, old(WorldOf(store, server)), batch) else old(store.events)
  {
    order, done := [], 0;
    batch := FetchBatch(store);
    if |batch| == 0 {
      return true, batch, order, done;
    }
    if network.RequestLost? {
      return false, batch, order, done;
    }
    var accepted, ingestion;
    accepted, ingestion, order, done := server.Ingest(machineId, batch);
    if !accepted || network.ReplyLost? {
      return false, batch, order, done;
    }
    var ids := AckList(batch, set x | x in ingestion.rejected :: x.0);
    store.MarkAcknowledged(ids);
    ok := true;
  }

  lemma PendingBatch(local: map<string, L.Row>, batch: seq<Event>)
    requires L.KeyedRows(local)
    requires forall e :: e in batch ==> exists id :: id in local && local[id] == L.Row(e, L.Pending)
    ensures FromQueue(local, batch)
  {
  }

  lemma RejectedExactly(isUuid: string -> bool, table: map<string, Event>, machineId: string, batch: seq<Event>)
    requires S.IngestAll(isUuid, table, machineId, batch).Ingesting?
    ensures
      var rejected := RejectedIds(S.IngestAll(isUuid, table, machineId, batch));
      forall id :: id in rejected <==> exists e :: e in batch && e.id == id && S.Verdict(isUuid, e).Some?
  {
    var r := S.IngestAll(isUuid, table, machineId, batch);
    S.BatchAccounted(isUuid, table, machineId, batch);
    forall id
      ensures id in RejectedIds(r) <==> exists e :: e in batch && e.id == id && S.Verdict(isUuid, e).Some?
    {
      if id in RejectedIds(r) {
        var x :| x in r.rejected && x.0 == id;
        var e :| e in batch && x == (e.id, S.Refusal(isUuid, e)) && S.Verdict(isUuid, e).Some?;
      }
      if e :| e in batch && e.id == id && S.Verdict(isUuid, e).Some? {
        assert (e.id, S.Verdict(isUuid, e).value) in r.rejected;
      }
    }
  }

  /** A round takes off the queue exactly the events of its batch that are not refused. */
  lemma RoundTakesOff(isUuid: string -> bool, table: map<string, Event>, machineId: string, local: map<string, L.Row>,
                      batch: seq<Event>)
    requires L.KeyedRows(local) && FromQueue(local, batch)
    requires S.IngestAll(isUuid, table, machineId, batch).Ingesting?
    ensures
      var r := S.IngestAll(isUuid, table, machineId, batch);
      var local' := L.AckAll(local, AckIds(batch, RejectedIds(r)));
      && L.KeyedRows(local')
      && L.PendingRows(local') == L.PendingRows(local) - (set e | e in batch && S.Verdict(isUuid, e).None? :: e.id)
  {
    var ids := AckIds(batch, RejectedIds(S.IngestAll(isUuid, table, machineId, batch)));
    var taken := set e | e in batch && S.Verdict(isUuid, e).None? :: e.id;
    forall id
      ensures id in ids <==> id in taken
    {
      TakenExactly(isUuid, table, machineId, local, batch, id);
    }
    AckedRows(local, ids, taken);
  }

  lemma AckedRows(local: map<string, L.Row>, ids: seq<string>, taken: set<string>)
    requires forall id :: id in ids <==> id in taken
    ensures L.PendingRows(L.AckAll(local, ids)) == L.PendingRows(local) - taken
  {
  }

  lemma TakenExactly(isUuid: string -> bool, table: map<string, Event>, machineId: string, local: map<string, L.Row>,
                     batch: seq<Event>, id: string)
    requires FromQueue(local, batch) && S.IngestAll(isUuid, table, machineId, batch).Ingesting?
    ensures id in AckIds(batch, RejectedIds(S.IngestAll(isUuid, table, machineId, batch))) <==>
            exists e :: e in batch && S.Verdict(isUuid, e).None? && e.id == id
  {
    RejectedExactly(isUuid, table, machineId, batch);
    AckIdsMembers(batch, RejectedIds(S.IngestAll(isUuid, table, machineId, batch)));
    if e :| e in batch && S.Verdict(isUuid, e).None? && e.id == id {
      assert forall x :: x in batch && x.id == id ==> x == e;
    }
  }

  /** Draining makes progress if and only if the fetched batch holds an event that is not refused; a batch of
      refused events comes back in every round. */
  lemma ProgressIff(isUuid: string -> bool, table: map<string, Event>, machineId: string, local: map<string, L.Row>,
                    batch: seq<Event>)
    requires L.KeyedRows(local) && FromQueue(local, batch)
    requires S.IngestAll(isUuid, table, machineId, batch).Ingesting?
    ensures
      var r := S.IngestAll(isUuid, table, machineId, batch);
      var local' := L.AckAll(local, AckIds(batch, RejectedIds(r)));
      && (|L.PendingRows(local')| < |L.PendingRows(local)| <==> exists e :: e in batch && S.Verdict(isUuid, e).None?)
      && ((forall e :: e in batch ==> S.Verdict(isUuid, e).Some?) ==> local' == local)
  {
    var r := S.IngestAll(isUuid, table, machineId, batch);
    var local' := L.AckAll(local, AckIds(batch, RejectedIds(r)));
    RoundTakesOff(isUuid, table, machineId, local, batch);
    var taken := set e | e in batch && S.Verdict(isUuid, e).None? :: e.id;
    assert taken <= L.PendingRows(local);
    assert |L.PendingRows(local')| == |L.PendingRows(local)| - |taken|;
    if e :| e in batch && S.Verdict(isUuid, e).None? {
      assert e.id in taken;
    } else {
      assert taken == {};
      NothingTaken(isUuid, table, machineId, local, batch);
    }
  }

  lemma NothingTaken(isUuid: string -> bool, table: map<string, Event>, machineId: string, local: map<string, L.Row>,
                     batch: seq<Event>)
    requires S.IngestAll(isUuid, table, machineId, batch).Ingesting?
    requires forall e :: e in batch ==> S.Verdict(isUuid, e).Some?
    ensures L.AckAll(local, AckIds(batch, RejectedIds(S.IngestAll(isUuid, table, machineId, batch)))) == local
  {
    RejectedExactly(isUuid, table, machineId, batch);
    AckIdsMembers(batch, RejectedIds(S.IngestAll(isUuid, table, machineId, batch)));
  }

  datatype Outcome = Drained | Failed | Unfinished

  /** Pending rows that the server refuses whenever they are sent. */
  function RefusedRows(isUuid: string -> bool, local: map<string, L.Row>): set<string> {
    set id | id in L.PendingRows(local) && S.Verdict(isUuid, local[id].event).Some?
  }

  /** A round leaves the refused rows pending, and takes off at least one row when there are no refused ones. */
  lemma RoundKeepsRefused(isUuid: string -> bool, table: map<string, Event>, machineId: string,
                          local: map<string, L.Row>, batch: seq<Event>)
    requires L.KeyedRows(local) && FromQueue(local, batch) && |batch| > 0
    requires S.IngestAll(isUuid, table, machineId, batch).Ingesting?
    ensures
      var local' := L.AckAll(local, AckIds(batch, RejectedIds(S.IngestAll(isUuid, table, machineId, batch))));
      && L.KeyedRows(local')
      && RefusedRows(isUuid, local') == RefusedRows(isUuid, local)
      && (RefusedRows(isUuid, local) == {} ==> |L.PendingRows(local')| < |L.PendingRows(local)|)
  {
    var ids := AckIds(batch, RejectedIds(S.IngestAll(isUuid, table, machineId, batch)));
    RoundTakesOff(isUuid, table, machineId, local, batch);
    RefusedStay(isUuid, local, batch, ids);
    if RefusedRows(isUuid, local) == {} {
      ProgressIff(isUuid, table, machineId, local, batch);
      SomeAccepted(isUuid, local, batch);
    }
  }

  lemma RefusedStay(isUuid: string -> bool, local: map<string, L.Row>, batch: seq<Event>, ids: seq<string>)
    requires L.KeyedRows(local) && FromQueue(local, batch)
    requires L.PendingRows(L.AckAll(local, ids)) ==
             L.PendingRows(local) - (set e | e in batch && S.Verdict(isUuid, e).None? :: e.id)
    ensures RefusedRows(isUuid, L.AckAll(local, ids)) == RefusedRows(isUuid, local)
  {
  }

  lemma SomeAccepted(isUuid: string -> bool, local: map<string, L.Row>, batch: seq<Event>)
    requires FromQueue(local, batch) && |batch| > 0 && RefusedRows(isUuid, local) == {}
    ensures exists e :: e in batch && S.Verdict(isUuid, e).None?
  {
    var e := batch[0];
    assert e in batch && e.id in L.PendingRows(local) && e.id !in RefusedRows(isUuid, local);
  }

  /** A round that was answered, and what it acknowledged. */
  ghost predicate RoundDone(isUuid: string -> bool, machineId: string, w: World, round: Round, w': World) {
    && FromQueue(w.local, round.batch) && |round.batch| > 0
    && Handled(isUuid, machineId, w, round, |round.order|, w') && Completed(isUuid, machineId, w, round, |round.order|)
    && w'.local == Acknowledged(isUuid, machineId, w, round.batch)
  }

  /** A round in which the batch was refused as a whole, or a rebuild failed. */
  ghost predicate RoundFailed(isUuid: string -> bool, machineId: string, w: World, round: Round, w': World) {
    && FromQueue(w.local, round.batch) && |round.batch| > 0 && w'.local == w.local
    && exists done :: Handled(isUuid, machineId, w, round, done, w') && !Completed(isUuid, machineId, w, round, done)
  }

  ghost predicate Rounds(isUuid: string -> bool, machineId: string, worlds: seq<World>, rounds: seq<Round>) {
    && |worlds| == |rounds| + 1
    && forall i :: 0 <= i < |rounds| ==> RoundDone(isUuid, machineId, worlds[i], rounds[i], worlds[i + 1])
  }

  // ----- Rounds that cannot fail -----

  /** The protocol's invariant holds of queue and server, the events name no shared run id, and rebuilds are clear. */
  ghost predicate InOrder(setting: Setting, w: World, runIds: set<(string, string)>, projects: set<ProjectInfo>) {
    && LocalSound(setting, w.local) && ServerSound(setting, w.local, w.events)
    && AllFit(w.events, runIds, projects)
    && (forall id :: id in w.local ==> Fits(w.local[id].event, runIds, projects))
    && Clear(setting.isUuid, w.rows, runIds, projects)
  }

  lemma {:induction false} IngestFits(isUuid: string -> bool, table: map<string, Event>, machineId: string,
                                      batch: seq<Event>,
                                      runIds: set<(string, string)>, projects: set<ProjectInfo>)
    requires AllFit(table, runIds, projects) && forall e :: e in batch ==> Fits(e, runIds, projects)
    ensures
      var r := S.IngestAll(isUuid, table, machineId, batch);
      r.Ingesting? ==> AllFit(r.table, runIds, projects)
  {
    if |batch| > 0 {
      var before, e := batch[..|batch| - 1], batch[|batch| - 1];
      assert batch == before + [e];
      assert forall x :: x in before ==> x in batch;
      IngestFits(isUuid, table, machineId, before, runIds, projects);
      var r := S.IngestAll(isUuid, table, machineId, before);
      if r.Ingesting? {
        assert e in batch;
        AbsorbFits(isUuid, r, machineId, e, runIds, projects);
      }
    }
  }

  lemma AbsorbFits(isUuid: string -> bool, r: S.Ingestion, machineId: string, e: Event,
                   runIds: set<(string, string)>, projects: set<ProjectInfo>)
    requires r.Ingesting? && AllFit(r.table, runIds, projects) && Fits(e, runIds, projects)
    ensures
      var r' := S.Absorb(isUuid, machineId, r, e);
      r'.Ingesting? ==> AllFit(r'.table, runIds, projects)
  {
  }

  lemma AckedSound(setting: Setting, local: map<string, L.Row>, server: map<string, Event>, ids: seq<string>)
    requires LocalSound(setting, local) && ServerSound(setting, local, server)
    ensures LocalSound(setting, L.AckAll(local, ids)) && ServerSound(setting, L.AckAll(local, ids), server)
  {
    var local' := L.AckAll(local, ids);
    forall e | CopyOfLocal(local, e)
      ensures CopyOfLocal(local', e)
    {
    }
    forall a, b | a in local' && b in local' && SameSlot(local'[a].event, local'[b].event)
      ensures a == b
    {
      assert SameSlot(local[a].event, local[b].event);
    }
  }

  lemma BatchInOrder(setting: Setting, w: World, batch: seq<Event>, runIds: set<(string, string)>,
                     projects: set<ProjectInfo>)
    requires InOrder(setting, w, runIds, projects) && FromQueue(w.local, batch)
    ensures
      var r := S.IngestAll(setting.isUuid, w.events, setting.machineId, batch);
      r.Ingesting? && ServerSound(setting, w.local, r.table) && AllFit(r.table, runIds, projects)
  {
    forall e | e in batch
      ensures CopyOfLocal(w.local, e) && Fits(e, runIds, projects)
    {
      assert w.local[e.id].event == e;
    }
    DeliverSound(setting, w.local, w.events, batch);
    IngestFits(setting.isUuid, w.events, setting.machineId, batch, runIds, projects);
  }

  lemma ServerKeyed(setting: Setting, local: map<string, L.Row>, server: map<string, Event>)
    requires ServerSound(setting, local, server)
    ensures S.Keyed(server)
  {
  }

  /** In order, no round fails. */
  lemma NoRoundFails(setting: Setting, w: World, round: Round, w': World, runIds: set<(string, string)>,
                     projects: set<ProjectInfo>)
    requires InOrder(setting, w, runIds, projects)
    ensures !RoundFailed(setting.isUuid, setting.machineId, w, round, w')
  {
    if RoundFailed(setting.isUuid, setting.machineId, w, round, w') {
      var done :| Handled(setting.isUuid, setting.machineId, w, round, done, w')
        && !Completed(setting.isUuid, setting.machineId, w, round, done);
      BatchInOrder(setting, w, round.batch, runIds, projects);
      var table := S.IngestAll(setting.isUuid, w.events, setting.machineId, round.batch).table;
      ServerKeyed(setting, w.local, table);
      NextRebuildable(setting.isUuid, table, w.rows, round.order, done, w'.rows, runIds, projects);
      assert false;
    }
  }

  lemma NextRebuildable(isUuid: string -> bool, events: map<string, Event>, rows: Rows, order: seq<string>, done: nat,
                        after: Rows,
                        runIds: set<(string, string)>, projects: set<ProjectInfo>)
    requires S.Keyed(events) && AllFit(events, runIds, projects) && Clear(isUuid, rows, runIds, projects)
    requires Rebuilt(isUuid, events, rows, order, done, after)
    ensures done == |order| && Clear(isUuid, after, runIds, projects)
  {
    ClearRebuildsEach(isUuid, events, rows, order[..done], runIds, projects);
    if done < |order| {
      ClearRebuilds(isUuid, events, after, order[done], runIds, projects);
    }
  }

  lemma RoundInOrder(setting: Setting, w: World, round: Round, w': World, runIds: set<(string, string)>,
                     projects: set<ProjectInfo>)
    requires InOrder(setting, w, runIds, projects) && RoundDone(setting.isUuid, setting.machineId, w, round, w')
    ensures InOrder(setting, w', runIds, projects)
  {
    BatchInOrder(setting, w, round.batch, runIds, projects);
    var r := S.IngestAll(setting.isUuid, w.events, setting.machineId, round.batch);
    ServerKeyed(setting, w.local, r.table);
    AckedSound(setting, w.local, r.table, AckIds(round.batch, RejectedIds(r)));
    NextRebuildable(setting.isUuid, r.table, w.rows, round.order, |round.order|, w'.rows, runIds, projects);
  }

  /** What holds first and is kept by each step holds throughout. */
  lemma {:induction false} Throughout<T>(p: T -> bool, trace: seq<T>, i: nat)
    requires i < |trace| && p(trace[0])
    requires forall k :: 0 < k < |trace| && p(trace[k - 1]) ==> p(trace[k])
    ensures p(trace[i])
  {
    if i > 0 {
      Throughout(p, trace, i - 1);
    }
  }

  lemma RoundsInOrder(setting: Setting, worlds: seq<World>, rounds: seq<Round>, i: nat,
                      runIds: set<(string, string)>, projects: set<ProjectInfo>)
    requires Rounds(setting.isUuid, setting.machineId, worlds, rounds) && i < |worlds|
    requires InOrder(setting, worlds[0], runIds, projects)
    ensures InOrder(setting, worlds[i], runIds, projects)
  {
    ghost var p := (w: World) => InOrder(setting, w, runIds, projects);
    forall k | 0 < k < |worlds| && p(worlds[k - 1])
      ensures p(worlds[k])
    {
      assert RoundDone(setting.isUuid, setting.machineId, worlds[k - 1], rounds[k - 1], worlds[k]);
      RoundInOrder(setting, worlds[k - 1], rounds[k - 1], worlds[k], runIds, projects);
    }
    Throughout(p, worlds, i);
  }

  // ----- Draining -----

  lemma {:induction false} RoundsProgress(isUuid: string -> bool, machineId: string, worlds: seq<World>,
                                          rounds: seq<Round>, i: nat)
    requires Rounds(isUuid, machineId, worlds, rounds) && i < |worlds| && L.KeyedRows(worlds[0].local)
    ensures L.KeyedRows(worlds[i].local)
    ensures RefusedRows(isUuid, worlds[i].local) == RefusedRows(isUuid, worlds[0].local)
    ensures RefusedRows(isUuid, worlds[0].local) == {} ==>
              |L.PendingRows(worlds[i].local)| + i <= |L.PendingRows(worlds[0].local)|
  {
    if i > 0 {
      RoundsProgress(isUuid, machineId, worlds, rounds, i - 1);
      assert RoundDone(isUuid, machineId, worlds[i - 1], rounds[i - 1], worlds[i]);
      RoundKeepsRefused(isUuid, worlds[i - 1].events, machineId, worlds[i - 1].local, rounds[i - 1].batch);
    }
  }

  /** How the loop ended after its answered rounds, with at most `limit` of them. */
  ghost predicate Ended(isUuid: string -> bool, machineId: string, worlds: seq<World>, rounds: seq<Round>, limit: nat,
                        outcome: Outcome, final: World) {
    && Rounds(isUuid, machineId, worlds, rounds) && |rounds| <= limit
    && (outcome.Failed? ==> exists round :: RoundFailed(isUuid, machineId, worlds[|rounds|], round, final))
    && (!outcome.Failed? ==> worlds[|rounds|] == final)
    && (outcome.Drained? <==> L.PendingRows(final.local) == {})
    && (outcome.Unfinished? ==> |rounds| == limit)
  }

  /** Given as many rounds as there are pending events, and in order, the queue is drained if and only if the server
      refuses none of them. */
  lemma DrainsIff(setting: Setting, worlds: seq<World>, rounds: seq<Round>, limit: nat, outcome: Outcome, final: World,
                  runIds: set<(string, string)>, projects: set<ProjectInfo>)
    requires Ended(setting.isUuid, setting.machineId, worlds, rounds, limit, outcome, final)
    requires L.KeyedRows(worlds[0].local) && InOrder(setting, worlds[0], runIds, projects)
    requires |L.PendingRows(worlds[0].local)| <= limit
    ensures outcome.Drained? <==> RefusedRows(setting.isUuid, worlds[0].local) == {}
  {
    RoundsInOrder(setting, worlds, rounds, |rounds|, runIds, projects);
    RoundsProgress(setting.isUuid, setting.machineId, worlds, rounds, |rounds|);
    if outcome.Failed? {
      var round :| RoundFailed(setting.isUuid, setting.machineId, worlds[|rounds|], round, final);
      NoRoundFails(setting, worlds[|rounds|], round, final, runIds, projects);
      assert false;
    }
  }

  lemma RoundsSnoc(isUuid: string -> bool, machineId: string, worlds: seq<World>, rounds: seq<Round>, round: Round,
                   w: World)
    requires Rounds(isUuid, machineId, worlds, rounds) && RoundDone(isUuid, machineId, worlds[|rounds|], round, w)
    ensures Rounds(isUuid, machineId, worlds + [w], rounds + [round])
  {
  }

  method DrainRound(store: LocalStore.Store, server: Server.Store, machineId: string)
      returns (ok: bool, ghost round: Round)
    requires L.KeyedRows(store.events) && S.Keyed(server.events) && L.PendingRows(store.events) != {}
    modifies store`events, server
    ensures L.KeyedRows(store.events) && S.Keyed(server.events)
    ensures RefusedRows(server.isUuid, store.events) == RefusedRows(server.isUuid, old(store.events))
    ensures ok ==> RoundDone(server.isUuid, machineId, old(WorldOf(store, server)), round, WorldOf(store, server))
    ensures !ok ==> RoundFailed(server.isUuid, machineId, old(WorldOf(store, server)), round, WorldOf(store, server))
  {
    ghost var w := WorldOf(store, server);
    var batch;
    ghost var order, done;
    ok, batch, order, done := SyncOnce(store, server, machineId, Answered);
    round := Round(batch, order);
    if ok {
      RoundKeepsRefused(server.isUuid, w.events, machineId, w.local, batch);
    }
  }

  /** The first `limit` rounds of the drain loop, with the states they went through. A refused event stays pending
      through all of them. The loop fails only in a round whose batch was refused as a whole or in which a rebuild
      failed. */
  method Drain(store: LocalStore.Store, server: Server.Store, machineId: string, limit: nat)
      returns (outcome: Outcome, ghost worlds: seq<World>, ghost rounds: seq<Round>)
    requires L.KeyedRows(store.events) && S.Keyed(server.events)
    modifies store`events, server
    ensures Ended(server.isUuid, machineId, worlds, rounds, limit, outcome, WorldOf(store, server))
    ensures worlds[0] == old(WorldOf(store, server))
    ensures RefusedRows(server.isUuid, store.events) == RefusedRows(server.isUuid, old(store.events))
    ensures RefusedRows(server.isUuid, old(store.events)) != {} ==> !outcome.Drained?
  {
    worlds, rounds := [WorldOf(store, server)], [];
    for i := 0 to limit
      invariant |rounds| == i && L.KeyedRows(store.events) && S.Keyed(server.events)
      invariant Rounds(server.isUuid, machineId, worlds, rounds)
      invariant RefusedRows(server.isUuid, store.events) == RefusedRows(server.isUuid, old(store.events))
      invariant worlds[0] == old(WorldOf(store, server)) && worlds[i] == WorldOf(store, server)
    {
      var pending := store.PendingEvents(1);
      if |pending| == 0 {
        outcome := Drained;
        return;
      }
      var ok;
      ghost var round;
      ok, round := DrainRound(store, server, machineId);
      if !ok {
        outcome := Outcome.Failed;
        return;
      }
      RoundsSnoc(server.isUuid, machineId, worlds, rounds, round, WorldOf(store, server));
      rounds, worlds := rounds + [round], worlds + [WorldOf(store, server)];
    }
    var pending := store.PendingEvents(1);
    outcome := if |pending| == 0 then Drained else Unfinished;
  }
}
