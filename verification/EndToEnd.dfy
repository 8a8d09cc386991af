/** One system from the local queue over the network to the run table: what a read on the server shows of a machine's
    work, after any interleaving of commits, deliveries, overlapping rebuilds, answers and reads. */
module EndToEnd {
  import opened Domain
  import opened Projection
  import opened SessionLocality
  import EventOrder
  import H = ServerHistory
  import L = LocalTables
  import P = SyncProtocol
  import Ranging
  import S = ServerTables
  import Sorting

  /** Queue and network on the one side, the server's tables and requests on the other, and the answer each request
      owes. */
  datatype System = System(sync: P.System, server: H.State, asked: map<nat, P.Reply>)

  /** The machine, and the session that each event id stands for: ids are hashes of what they identify. */
  datatype Setting = Setting(machine: P.Setting, sessionOf: string -> string)

  datatype Action =
    | Client(step: P.Action)
    | Deliver(id: nat, batch: seq<Event>, order: seq<string>)
    | Others(id: nat, machineId: string, batch: seq<Event>, order: seq<string>)
    | Server(task: H.Action)
    | Answer(id: nat)

  predicate IsClientStep(step: P.Action) {
    step.Commit? || step.Enqueue? || step.Fetch? || step.Acknowledge?
  }

  predicate IsServerTask(task: H.Action) {
    task.Begin? || task.Look? || task.Write? || task.Read?
  }

  ghost predicate InSession(setting: Setting, e: Event) {
    e.id != "" ==> e.sessionId == setting.sessionOf(e.id)
  }

  ghost predicate AllInSession(setting: Setting, events: seq<Event>) {
    forall e :: e in events ==> InSession(setting, e)
  }

  /** The batch is committed and the rebuilds of the sessions it touched are begun, or it is refused as a whole. */
  ghost predicate Handles(setting: Setting, server: H.State, id: nat, machineId: string, batch: seq<Event>,
                          order: seq<string>, server': H.State) {
    var r := S.IngestAll(setting.machine.isUuid, server.events, machineId, batch);
    if r.Aborted? then server' == server
    else id !in server.procs && Ranging.Lists(order, r.touched) && server' == H.AfterCommit(server, id, r, order)
  }

  function Asked(setting: Setting, sys: System, id: nat, batch: seq<Event>): map<nat, P.Reply> {
    var r := S.IngestAll(setting.machine.isUuid, sys.server.events, setting.machine.machineId, batch);
    if r.Aborted? then sys.asked else sys.asked[id := P.Reply(batch, P.RejectedIds(r))]
  }

  /** A request is answered when it has no session left to rebuild. */
  ghost predicate Next(setting: Setting, sys: System, action: Action, sys': System) {
    match action
    case Client(step) =>
      && IsClientStep(step) && P.Next(setting.machine, sys.sync, step, sys'.sync)
      && (step.Commit? ==> AllInSession(setting, step.events)) && (step.Enqueue? ==> AllInSession(setting, step.events))
      && sys'.server == sys.server && sys'.asked == sys.asked
    case Deliver(id, batch, order) =>
      && P.Next(setting.machine, sys.sync, P.Deliver(batch), sys'.sync)
      && Handles(setting, sys.server, id, setting.machine.machineId, batch, order, sys'.server)
      && sys'.asked == Asked(setting, sys, id, batch)
    case Others(id, machineId, batch, order) =>
      && AllInSession(setting, batch)
      && P.Next(setting.machine, sys.sync, P.OtherMachine(machineId, batch), sys'.sync)
      && Handles(setting, sys.server, id, machineId, batch, order, sys'.server)
      && sys'.asked == sys.asked
    case Server(task) =>
      && IsServerTask(task) && H.Next(setting.machine.isUuid, sys.server, task, sys'.server)
      && sys'.sync == sys.sync && sys'.asked == sys.asked
    case Answer(id) =>
      && id in sys.asked && id in sys.server.procs && sys.server.procs[id].todo == []
      && P.Next(setting.machine, sys.sync, P.Answer(sys.asked[id]), sys'.sync)
      && sys'.server == sys.server && sys'.asked == sys.asked
  }

  // ----- Invariant -----

  ghost predicate Sound(setting: Setting, sys: System) {
    && sys.sync.server == sys.server.events
    && P.Sound(setting.machine, sys.sync)
    && H.Sound(sys.server)
    && (forall id :: id in sys.sync.local ==> InSession(setting, sys.sync.local[id].event))
    && (forall id :: id in sys.server.events ==> InSession(setting, sys.server.events[id]))
  }

  /** A batch of copies of local events stays in their sessions. */
  lemma BatchInSession(setting: Setting, sys: System, batch: seq<Event>)
    requires Sound(setting, sys) && batch in sys.sync.requests
    ensures AllInSession(setting, batch)
  {
    forall e | e in batch
      ensures InSession(setting, e)
    {
      assert P.CopyOfLocal(sys.sync.local, e);
    }
  }

  lemma {:induction false} IngestInSession(setting: Setting, table: map<string, Event>, machineId: string,
                                           batch: seq<Event>)
    requires AllInSession(setting, batch)
    requires forall id :: id in table ==> InSession(setting, table[id])
    ensures
      var r := S.IngestAll(setting.machine.isUuid, table, machineId, batch);
      r.Ingesting? ==> forall id :: id in r.table ==> InSession(setting, r.table[id])
  {
    if |batch| > 0 {
      var before, e := batch[..|batch| - 1], batch[|batch| - 1];
      assert batch == before + [e];
      assert forall x :: x in before ==> x in batch;
      IngestInSession(setting, table, machineId, before);
      assert e in batch;
      var r := S.IngestAll(setting.machine.isUuid, table, machineId, before);
      if r.Ingesting? {
        AbsorbInSession(setting, r, machineId, e);
      }
    }
  }

  lemma AbsorbInSession(setting: Setting, r: S.Ingestion, machineId: string, e: Event)
    requires r.Ingesting? && InSession(setting, e)
    requires forall id :: id in r.table ==> InSession(setting, r.table[id])
    ensures
      var r' := S.Absorb(setting.machine.isUuid, machineId, r, e);
      r'.Ingesting? ==> forall id :: id in r'.table ==> InSession(setting, r'.table[id])
  {
    assert e.(machineId := machineId).sessionId == e.sessionId;
  }

  /** Ids that stand for one session each make a delivery a step of the server. */
  lemma HandlesIsCommit(setting: Setting, server: H.State, id: nat, machineId: string, batch: seq<Event>,
                        order: seq<string>, server': H.State)
    requires H.Sound(server) && AllInSession(setting, batch)
    requires forall k :: k in server.events ==> InSession(setting, server.events[k])
    requires Handles(setting, server, id, machineId, batch, order, server')
    ensures server' == server || H.Next(setting.machine.isUuid, server, H.Commit(id, machineId, batch, order), server')
    ensures forall k :: k in server'.events ==> InSession(setting, server'.events[k])
  {
    var r := S.IngestAll(setting.machine.isUuid, server.events, machineId, batch);
    IngestInSession(setting, server.events, machineId, batch);
    if r.Ingesting? {
      assert forall k :: k in r.table ==> InSession(setting, r.table[k]);
      assert server'.events == r.table;
      assert H.SameSessions(server.events, batch) && H.SessionsAgree(batch);
    }
  }

  lemma HandlesSound(setting: Setting, server: H.State, id: nat, machineId: string, batch: seq<Event>,
                     order: seq<string>, server': H.State)
    requires H.Sound(server) && AllInSession(setting, batch)
    requires forall k :: k in server.events ==> InSession(setting, server.events[k])
    requires Handles(setting, server, id, machineId, batch, order, server')
    ensures H.Sound(server') && forall k :: k in server'.events ==> InSession(setting, server'.events[k])
  {
    HandlesIsCommit(setting, server, id, machineId, batch, order, server');
    if server' != server {
      H.NextSound(setting.machine.isUuid, server, H.Commit(id, machineId, batch, order), server');
    }
  }

  lemma ClientInSession(setting: Setting, sys: System, step: P.Action, sys': System)
    requires Sound(setting, sys) && Next(setting, sys, Client(step), sys')
    ensures forall id :: id in sys'.sync.local ==> InSession(setting, sys'.sync.local[id].event)
  {
    match step
    case Commit(events) => CommitInSession(setting, sys.sync.local, events);
    case Enqueue(events) => EnqueueInSession(setting, sys.sync.local, events);
    case _ =>
  }

  lemma {:induction false} CommitInSession(setting: Setting, local: map<string, L.Row>, events: seq<Event>)
    requires AllInSession(setting, events) && forall id :: id in local ==> InSession(setting, local[id].event)
    ensures forall id :: id in L.InsertAll(local, events) ==> InSession(setting, L.InsertAll(local, events)[id].event)
  {
    if |events| > 0 {
      CommitInSession(setting, local, events[..|events| - 1]);
    }
  }

  lemma {:induction false} EnqueueInSession(setting: Setting, local: map<string, L.Row>, events: seq<Event>)
    requires AllInSession(setting, events) && forall id :: id in local ==> InSession(setting, local[id].event)
    ensures
      var r := L.UpsertAll(local, events);
      r.Some? ==> forall id :: id in r.value ==> InSession(setting, r.value[id].event)
  {
    if |events| > 0 {
      EnqueueInSession(setting, local, events[..|events| - 1]);
    }
  }

  lemma DeliverSound(setting: Setting, sys: System, id: nat, batch: seq<Event>, order: seq<string>, sys': System)
    requires Sound(setting, sys) && Next(setting, sys, Deliver(id, batch, order), sys')
    ensures Sound(setting, sys')
  {
    P.NextSound(setting.machine, sys.sync, P.Deliver(batch), sys'.sync);
    BatchInSession(setting, sys, batch);
    HandlesSound(setting, sys.server, id, setting.machine.machineId, batch, order, sys'.server);
  }

  lemma OthersSound(setting: Setting, sys: System, id: nat, machineId: string, batch: seq<Event>, order: seq<string>,
                    sys': System)
    requires Sound(setting, sys) && Next(setting, sys, Others(id, machineId, batch, order), sys')
    ensures Sound(setting, sys')
  {
    P.NextSound(setting.machine, sys.sync, P.OtherMachine(machineId, batch), sys'.sync);
    HandlesSound(setting, sys.server, id, machineId, batch, order, sys'.server);
  }

  lemma ServerSound(setting: Setting, sys: System, task: H.Action, sys': System)
    requires Sound(setting, sys) && Next(setting, sys, Server(task), sys')
    ensures Sound(setting, sys')
  {
    H.NextSound(setting.machine.isUuid, sys.server, task, sys'.server);
  }

  lemma NextSound(setting: Setting, sys: System, action: Action, sys': System)
    requires Sound(setting, sys) && Next(setting, sys, action, sys')
    ensures Sound(setting, sys')
  {
    match action
    case Client(step) =>
      P.NextSound(setting.machine, sys.sync, step, sys'.sync);
      ClientInSession(setting, sys, step, sys');
    case Deliver(id, batch, order) => DeliverSound(setting, sys, id, batch, order, sys');
    case Others(id, machineId, batch, order) => OthersSound(setting, sys, id, machineId, batch, order, sys');
    case Server(task) => ServerSound(setting, sys, task, sys');
    case Answer(id) => P.NextSound(setting.machine, sys.sync, P.Answer(sys.asked[id]), sys'.sync);
  }

  /** The machine starts with nothing; the server may already serve others. */
  ghost predicate Starts(setting: Setting, sys: System) {
    && sys.sync.local == map[] && sys.sync.requests == {} && sys.sync.handled == {} && sys.sync.replies == {}
    && sys.sync.server == sys.server.events && H.Sound(sys.server)
    && forall id :: id in sys.server.events ==>
         InSession(setting, sys.server.events[id]) && !setting.machine.own(id)
         && sys.server.events[id].machineId != setting.machine.machineId
  }

  ghost predicate Execution(setting: Setting, trace: seq<System>, actions: seq<Action>) {
    && |trace| == |actions| + 1 && Starts(setting, trace[0])
    && forall i :: 0 <= i < |actions| ==> Next(setting, trace[i], actions[i], trace[i + 1])
  }

  lemma {:induction false} ExecutionSound(setting: Setting, trace: seq<System>, actions: seq<Action>, i: nat)
    requires Execution(setting, trace, actions) && i < |trace|
    ensures Sound(setting, trace[i])
  {
    if i > 0 {
      ExecutionSound(setting, trace, actions, i - 1);
      NextSound(setting, trace[i - 1], actions[i - 1], trace[i]);
    }
  }

  // ----- What a read shows -----

  /** The machine's own log, in any order. */
  ghost predicate LogOf(log: seq<Event>, local: map<string, L.Row>) {
    forall e :: e in log <==> exists id :: id in local && local[id].event == e
  }

  /** The session is used by this machine alone, under ids no other machine sends and without changeable events, and
      nothing of it is waiting. */
  ghost predicate Delivered(setting: Setting, sync: P.System, s: string) {
    && (forall id :: id in sync.local && sync.local[id].event.sessionId == s ==>
          setting.machine.own(id) && sync.local[id].event.source != Wakapi && sync.local[id].sync == L.Acknowledged)
    && (forall id :: id in sync.server && sync.server[id].sessionId == s ==>
          sync.server[id].machineId == setting.machine.machineId)
  }

  /** A delivered session has the same events on both sides. */
  lemma DeliveredSession(setting: Setting, sync: P.System, s: string, log: seq<Event>)
    requires P.Sound(setting.machine, sync) && Delivered(setting, sync, s) && LogOf(log, sync.local)
    ensures S.Keyed(sync.server)
    ensures S.ListsSession(SessionEvents(s, log), sync.server, s)
  {
    Sorting.FilterMembers(SessionLocality.InSession(s), log);
    forall e
      ensures e in SessionEvents(s, log) <==> e in S.SessionSet(sync.server, s)
    {
      if e in SessionEvents(s, log) {
        var id :| id in sync.local && sync.local[id].event == e;
        assert sync.local[id].sync == L.Acknowledged;
        assert P.CopyOfLocal(sync.local, sync.server[id]);
      }
      if e in S.SessionSet(sync.server, s) {
        var id :| id in sync.server && sync.server[id].sessionId == s && sync.server[id] == e;
        assert P.CopyOfLocal(sync.local, e);
      }
    }
  }

  lemma LogKeyed(setting: Setting, local: map<string, L.Row>, log: seq<Event>)
    requires P.LocalSound(setting.machine, local) && LogOf(log, local)
    ensures EventOrder.IdsIdentify(log) && EventIdsPerSession(log)
  {
  }

  /** Once a session's events have all been acknowledged, the server projects them as the machine does. */
  lemma ServerProjectsAlike(setting: Setting, trace: seq<System>, actions: seq<Action>, i: nat, s: string,
                            log: seq<Event>)
    requires Execution(setting, trace, actions) && i < |trace|
    requires Delivered(setting, trace[i].sync, s) && LogOf(log, trace[i].sync.local) && RunIdsPerSession(log)
    ensures S.SessionRuns(trace[i].server.events, s) == Restrict(ProjectedState(log), s).runs
  {
    ExecutionSound(setting, trace, actions, i);
    var sync := trace[i].sync;
    DeliveredSession(setting, sync, s, log);
    S.AnyListing(SessionEvents(s, log), sync.server, s);
    LogKeyed(setting, sync.local, log);
    ProjectionIsLocal(log, s);
  }

  /** In one execution of the whole system, a read of the run table shows, for a session that is delivered and whose
      rows were written from a snapshot read after its last change, the local projection reconciled at the time of the
      read, whatever was lost, repeated, interrupted, overtaken or read before. */
  lemma ReadShowsLocalWork(setting: Setting, trace: seq<System>, actions: seq<Action>, i: nat, now: Time, s: string,
                           log: seq<Event>)
    requires Execution(setting, trace, actions) && i < |actions| && actions[i] == Server(H.Read(now))
    requires Delivered(setting, trace[i].sync, s) && LogOf(log, trace[i].sync.local) && RunIdsPerSession(log)
    requires H.Fresh(trace[i].server, s)
    ensures S.EraseAll(S.RowsOf(trace[i + 1].server.rows.runs, s)) ==
            S.EraseAll(S.ReconcileAll(Restrict(ProjectedState(log), s).runs, now))
  {
    ServerProjectsAlike(setting, trace, actions, i, s, log);
    ExecutionSound(setting, trace, actions, i);
    assert Next(setting, trace[i], actions[i], trace[i + 1]);
    H.FreshRuns(trace[i].server, s);
    H.ReadReconciles(trace[i].server, now, s, trace[i].server.events);
  }

  // ----- Executions in which no outdated snapshot is written -----

  ghost predicate InTime(sys: System, action: Action) {
    action.Server? ==> H.InTime(sys.server, action.task)
  }

  lemma {:induction false} ExecutionCovers(setting: Setting, trace: seq<System>, actions: seq<Action>, i: nat)
    requires Execution(setting, trace, actions) && i < |trace| && H.Covered(trace[0].server)
    requires forall k :: 0 <= k < i ==> InTime(trace[k], actions[k])
    ensures H.Covered(trace[i].server)
  {
    if i > 0 {
      ExecutionCovers(setting, trace, actions, i - 1);
      ExecutionSound(setting, trace, actions, i - 1);
      assert InTime(trace[i - 1], actions[i - 1]);
      StepCovers(setting, trace[i - 1], actions[i - 1], trace[i]);
    }
  }

  lemma StepCovers(setting: Setting, sys: System, action: Action, sys': System)
    requires Sound(setting, sys) && Next(setting, sys, action, sys') && InTime(sys, action) && H.Covered(sys.server)
    ensures H.Covered(sys'.server)
  {
    match action
    case Deliver(id, batch, order) =>
      BatchInSession(setting, sys, batch);
      HandlesCovers(setting, sys.server, id, setting.machine.machineId, batch, order, sys'.server);
    case Others(id, machineId, batch, order) =>
      HandlesCovers(setting, sys.server, id, machineId, batch, order, sys'.server);
    case Server(task) =>
      H.NextCovers(setting.machine.isUuid, sys.server, task, sys'.server);
    case _ =>
  }

  lemma HandlesCovers(setting: Setting, server: H.State, id: nat, machineId: string, batch: seq<Event>,
                      order: seq<string>, server': H.State)
    requires H.Sound(server) && H.Covered(server) && AllInSession(setting, batch)
    requires forall k :: k in server.events ==> InSession(setting, server.events[k])
    requires Handles(setting, server, id, machineId, batch, order, server')
    ensures H.Covered(server')
  {
    HandlesIsCommit(setting, server, id, machineId, batch, order, server');
    if server' != server {
      H.NextCovers(setting.machine.isUuid, server, H.Commit(id, machineId, batch, order), server');
    }
  }

  /** As long as nothing outdated is written, the read shows the local work of every delivered session that names a
      project and that no request has still to rebuild. */
  lemma SettledWorkShown(setting: Setting, trace: seq<System>, actions: seq<Action>, i: nat, now: Time, s: string,
                         log: seq<Event>)
    requires Execution(setting, trace, actions) && i < |actions| && actions[i] == Server(H.Read(now))
    requires H.Covered(trace[0].server) && forall k :: 0 <= k < i ==> InTime(trace[k], actions[k])
    requires Delivered(setting, trace[i].sync, s) && LogOf(log, trace[i].sync.local) && RunIdsPerSession(log)
    requires exists e :: e in log && e.sessionId == s && e.payload.project.id != ""
    requires !H.Awaited(trace[i].server, s)
    ensures S.EraseAll(S.RowsOf(trace[i + 1].server.rows.runs, s)) ==
            S.EraseAll(S.ReconcileAll(Restrict(ProjectedState(log), s).runs, now))
  {
    ExecutionCovers(setting, trace, actions, i);
    ExecutionSound(setting, trace, actions, i);
    DeliveredSession(setting, trace[i].sync, s, log);
    Sorting.FilterMembers(SessionLocality.InSession(s), log);
    assert S.NamesProject(trace[i].server.events, s);
    ReadShowsLocalWork(setting, trace, actions, i, now, s, log);
  }
}
