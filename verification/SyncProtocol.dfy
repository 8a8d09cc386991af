/** The queue, the network and the server under every interleaving: at-least-once delivery of one machine's log. */
module SyncProtocol {
  import opened Domain
  import L = LocalTables
  import S = ServerTables
  import Projection
  import EventOrder

  /** An answer: the batch it answers, and the ids it rejects. */
  datatype Reply = Reply(batch: seq<Event>, rejected: set<string>)

  /** Every request ever sent and every reply ever given stay available: a lost message is one never used again,
      a retry or a duplicate is one used again. `handled` holds the answers the server owes since it committed. */
  datatype System = System(
    local: map<string, L.Row>, server: map<string, Event>, requests: set<seq<Event>>,
    handled: set<Reply>, replies: set<Reply>)

  /** The machine, the event ids that no other machine sends, and which ids parse. Ids of transcript events hash the
      machine; those of Wakapi, metric and hook events do not, so machines that import one account or scan copies of
      one transcript share them. */
  datatype Setting = Setting(machineId: string, own: string -> bool, isUuid: string -> bool)

  datatype Action =
    | Commit(events: seq<Event>)
    | Enqueue(events: seq<Event>)
    | Fetch(batch: seq<Event>)
    | Deliver(batch: seq<Event>)
    | Answer(reply: Reply)
    | Acknowledge(reply: Reply)
    | OtherMachine(machineId: string, batch: seq<Event>)

  function RejectedIds(r: S.Ingestion): set<string>
    requires r.Ingesting?
  {
    set x | x in r.rejected :: x.0
  }

  /** The ids a client acknowledges: those of the batch that were not rejected. */
  function AckIds(batch: seq<Event>, rejected: set<string>): seq<string> {
    if |batch| == 0 then []
    else
      var e := batch[|batch| - 1];
      AckIds(batch[..|batch| - 1], rejected) + (if e.id in rejected then [] else [e.id])
  }

  /** The machine's commands stamp its id on every event. */
  predicate Stamped(setting: Setting, events: seq<Event>) {
    forall e :: e in events ==> e.machineId == setting.machineId
  }

  ghost predicate Next(setting: Setting, sys: System, action: Action, sys': System) {
    match action
    case Commit(events) =>
      Stamped(setting, events) && sys' == sys.(local := L.InsertAll(sys.local, events))
    case Enqueue(events) =>
      Stamped(setting, events)
      && sys' == (var r := L.UpsertAll(sys.local, events); if r.Some? then sys.(local := r.value) else sys)
    case Fetch(batch) =>
      (forall e :: e in batch ==> e.id in sys.local && sys.local[e.id] == L.Row(e, L.Pending))
      && sys' == sys.(requests := sys.requests + {batch})
    case Deliver(batch) =>
      batch in sys.requests
      && sys' == (var r := S.IngestAll(setting.isUuid, sys.server, setting.machineId, batch);
                  if r.Aborted? then sys
                  else sys.(server := r.table, handled := sys.handled + {Reply(batch, RejectedIds(r))}))
    case Answer(reply) =>
      reply in sys.handled && sys' == sys.(replies := sys.replies + {reply})
    case Acknowledge(reply) =>
      reply in sys.replies && sys' == sys.(local := L.AckAll(sys.local, AckIds(reply.batch, reply.rejected)))
    case OtherMachine(machineId, batch) =>
      machineId != setting.machineId && (forall e :: e in batch ==> !setting.own(e.id))
      && sys' == (var r := S.IngestAll(setting.isUuid, sys.server, machineId, batch);
                  if r.Ingesting? then sys.(server := r.table) else sys)
  }

  // ----- Invariants -----

  /** Copies of one event: only a Wakapi event may differ, in time and payload. */
  predicate SameEvent(a: Event, b: Event) {
    a == b.(occurredAt := a.occurredAt, payload := a.payload) && (b.source != Wakapi ==> a == b)
  }

  ghost predicate LocalSound(setting: Setting, local: map<string, L.Row>) {
    && (forall id :: id in local ==>
          local[id].event.id == id && local[id].event.machineId == setting.machineId)
    && (forall a, b :: a in local && b in local && SameSlot(local[a].event, local[b].event) ==> a == b)
  }

  ghost predicate CopyOfLocal(local: map<string, L.Row>, e: Event) {
    e.id in local && SameEvent(e, local[e.id].event)
  }

  /** What the server holds of this machine are copies of local events, and its own ids are no other machine's. */
  ghost predicate ServerSound(setting: Setting, local: map<string, L.Row>, server: map<string, Event>) {
    forall id :: id in server ==>
      && server[id].id == id
      && (server[id].machineId == setting.machineId ==> CopyOfLocal(local, server[id]))
      && (setting.own(id) ==> server[id].machineId == setting.machineId)
  }

  ghost predicate BatchSound(local: map<string, L.Row>, batch: seq<Event>) {
    forall e :: e in batch ==> CopyOfLocal(local, e)
  }

  ghost predicate ReplySound(server: map<string, Event>, reply: Reply) {
    forall e :: e in reply.batch && e.id !in reply.rejected ==> e.id in server
  }

  ghost predicate AcksSound(sys: System) {
    forall id :: id in sys.local && sys.local[id].sync == L.Acknowledged ==> id in sys.server
  }

  ghost predicate Sound(setting: Setting, sys: System) {
    && LocalSound(setting, sys.local)
    && ServerSound(setting, sys.local, sys.server)
    && (forall batch :: batch in sys.requests ==> BatchSound(sys.local, batch))
    && sys.replies <= sys.handled && (forall reply :: reply in sys.handled ==> ReplySound(sys.server, reply))
    && AcksSound(sys)
  }

  /** Every local event stays, as a copy, and no row becomes acknowledged. */
  ghost predicate Extends(local: map<string, L.Row>, local': map<string, L.Row>) {
    && (forall id :: id in local ==> id in local' && SameEvent(local[id].event, local'[id].event))
    && (forall id :: id in local' && local'[id].sync == L.Acknowledged ==>
        id in local && local[id].sync == L.Acknowledged)
  }

  lemma CopyExtends(local: map<string, L.Row>, local': map<string, L.Row>, e: Event)
    requires Extends(local, local') && CopyOfLocal(local, e)
    ensures CopyOfLocal(local', e)
  {
  }

  lemma ExtendsTransitive(a: map<string, L.Row>, b: map<string, L.Row>, c: map<string, L.Row>)
    requires Extends(a, b) && Extends(b, c)
    ensures Extends(a, c)
  {
  }

  lemma LocalStepSound(setting: Setting, sys: System, local': map<string, L.Row>)
    requires Sound(setting, sys) && Extends(sys.local, local') && LocalSound(setting, local')
    ensures Sound(setting, sys.(local := local'))
  {
    forall e | CopyOfLocal(sys.local, e)
      ensures CopyOfLocal(local', e)
    {
      CopyExtends(sys.local, local', e);
    }
  }

  lemma InsertSound(setting: Setting, local: map<string, L.Row>, e: Event)
    requires LocalSound(setting, local) && e.machineId == setting.machineId
    ensures LocalSound(setting, L.InsertIgnore(local, e)) && Extends(local, L.InsertIgnore(local, e))
  {
  }

  lemma {:induction false} CommitSound(setting: Setting, local: map<string, L.Row>, events: seq<Event>)
    requires LocalSound(setting, local) && Stamped(setting, events)
    ensures LocalSound(setting, L.InsertAll(local, events)) && Extends(local, L.InsertAll(local, events))
  {
    if |events| > 0 {
      var before, e := events[..|events| - 1], events[|events| - 1];
      assert events == before + [e];
      CommitSound(setting, local, before);
      InsertSound(setting, L.InsertAll(local, before), e);
      ExtendsTransitive(local, L.InsertAll(local, before), L.InsertAll(local, events));
    }
  }

  lemma UpsertSound(setting: Setting, local: map<string, L.Row>, e: Event)
    requires LocalSound(setting, local) && e.machineId == setting.machineId
    ensures
      var r := L.Upsert(local, e);
      r.Some? ==> LocalSound(setting, r.value) && Extends(local, r.value)
  {
    if e.id !in local {
      InsertSound(setting, local, e);
    } else if local[e.id].event.source == Wakapi {
      UpdateSound(setting, local, e);
    }
  }

  lemma UpdateSound(setting: Setting, local: map<string, L.Row>, e: Event)
    requires LocalSound(setting, local) && e.id in local && local[e.id].event.source == Wakapi
    ensures
      var local' := local[e.id := L.Row(local[e.id].event.(occurredAt := e.occurredAt, payload := e.payload),
                                        L.Pending)];
      LocalSound(setting, local') && Extends(local, local')
  {
    var local' := local[e.id := L.Row(local[e.id].event.(occurredAt := e.occurredAt, payload := e.payload), L.Pending)];
    forall a, b | a in local' && b in local' && SameSlot(local'[a].event, local'[b].event)
      ensures a == b
    {
      assert SameSlot(local[a].event, local[b].event);
    }
  }

  lemma {:induction false} EnqueueSound(setting: Setting, local: map<string, L.Row>, events: seq<Event>)
    requires LocalSound(setting, local) && Stamped(setting, events)
    ensures
      var r := L.UpsertAll(local, events);
      r.Some? ==> LocalSound(setting, r.value) && Extends(local, r.value)
  {
    if |events| > 0 {
      var before, e := events[..|events| - 1], events[|events| - 1];
      assert events == before + [e];
      EnqueueSound(setting, local, before);
      var r := L.UpsertAll(local, before);
      if r.Some? {
        UpsertSound(setting, r.value, e);
        var r' := L.Upsert(r.value, e);
        if r'.Some? {
          ExtendsTransitive(local, r.value, r'.value);
        }
      }
    }
  }

  // ----- Delivery -----

  /** An own event never meets another row in its slot. */
  lemma NoConflict(setting: Setting, local: map<string, L.Row>, server: map<string, Event>, e: Event)
    requires LocalSound(setting, local) && ServerSound(setting, local, server) && CopyOfLocal(local, e)
    requires e.id !in server
    ensures !S.SlotTaken(server, e)
  {
    if S.SlotTaken(server, e) {
      var id :| id in server && SameSlot(server[id], e);
      assert CopyOfLocal(local, server[id]);
      assert SameSlot(local[id].event, local[e.id].event);
      assert false;
    }
  }

  lemma DeliverOne(setting: Setting, local: map<string, L.Row>, r: S.Ingestion, e: Event)
    requires LocalSound(setting, local) && CopyOfLocal(local, e)
    requires r.Ingesting? && ServerSound(setting, local, r.table)
    ensures
      var r' := S.Absorb(setting.isUuid, setting.machineId, r, e);
      && r'.Ingesting? && ServerSound(setting, local, r'.table)
      && (forall id :: id in r.table ==> id in r'.table)
      && RejectedIds(r) <= RejectedIds(r')
      && (e.id in r'.table || e.id in RejectedIds(r'))
  {
    assert e.(machineId := setting.machineId) == e;
    if e.id !in r.table {
      NoConflict(setting, local, r.table, e);
    }
    var r' := S.Absorb(setting.isUuid, setting.machineId, r, e);
    var verdict := S.Verdict(setting.isUuid, e);
    if verdict.Some? {
      assert (e.id, verdict.value) in r'.rejected;
    }
    forall id | id in RejectedIds(r)
      ensures id in RejectedIds(r')
    {
      var x :| x in r.rejected && x.0 == id;
      assert x in r'.rejected;
    }
  }

  /** Delivering a fetched batch never aborts, and leaves every event of it on the server or rejected. */
  lemma {:induction false} DeliverSound(setting: Setting, local: map<string, L.Row>, server: map<string, Event>,
                                        batch: seq<Event>)
    requires LocalSound(setting, local) && ServerSound(setting, local, server) && BatchSound(local, batch)
    ensures
      var r := S.IngestAll(setting.isUuid, server, setting.machineId, batch);
      && r.Ingesting? && ServerSound(setting, local, r.table)
      && (forall id :: id in server ==> id in r.table)
      && (forall e :: e in batch ==> e.id in r.table || e.id in RejectedIds(r))
  {
    if |batch| > 0 {
      var before, e := batch[..|batch| - 1], batch[|batch| - 1];
      assert batch == before + [e];
      DeliverSound(setting, local, server, before);
      DeliverOne(setting, local, S.IngestAll(setting.isUuid, server, setting.machineId, before), e);
    }
  }

  lemma OthersOne(setting: Setting, local: map<string, L.Row>, r: S.Ingestion, machineId: string, e: Event)
    requires r.Ingesting? && ServerSound(setting, local, r.table)
    requires machineId != setting.machineId && !setting.own(e.id)
    ensures
      var r' := S.Absorb(setting.isUuid, machineId, r, e);
      r'.Ingesting? ==> ServerSound(setting, local, r'.table) && forall id :: id in r.table ==> id in r'.table
  {
  }

  lemma {:induction false} OthersSound(setting: Setting, local: map<string, L.Row>, server: map<string, Event>,
                                       machineId: string, batch: seq<Event>)
    requires ServerSound(setting, local, server) && machineId != setting.machineId
    requires forall e :: e in batch ==> !setting.own(e.id)
    ensures
      var r := S.IngestAll(setting.isUuid, server, machineId, batch);
      r.Ingesting? ==> ServerSound(setting, local, r.table) && forall id :: id in server ==> id in r.table
  {
    if |batch| > 0 {
      var before, e := batch[..|batch| - 1], batch[|batch| - 1];
      assert batch == before + [e];
      OthersSound(setting, local, server, machineId, before);
      var r := S.IngestAll(setting.isUuid, server, machineId, before);
      if r.Ingesting? {
        OthersOne(setting, local, r, machineId, e);
      }
    }
  }

  lemma {:induction false} AckIdsMembers(batch: seq<Event>, rejected: set<string>)
    ensures forall id :: id in AckIds(batch, rejected) <==> id !in rejected && exists e :: e in batch && e.id == id
  {
    if |batch| > 0 {
      var before, e := batch[..|batch| - 1], batch[|batch| - 1];
      assert batch == before + [e];
      AckIdsMembers(before, rejected);
      forall id
        ensures id in AckIds(batch, rejected) <==> id !in rejected && exists x :: x in batch && x.id == id
      {
        if x :| x in before && x.id == id {
          assert x in batch;
        }
        assert e in batch;
      }
    }
  }

  lemma AcknowledgeSound(setting: Setting, sys: System, reply: Reply)
    requires Sound(setting, sys) && reply in sys.replies
    ensures Sound(setting, sys.(local := L.AckAll(sys.local, AckIds(reply.batch, reply.rejected))))
  {
    AckIdsMembers(reply.batch, reply.rejected);
    var local' := L.AckAll(sys.local, AckIds(reply.batch, reply.rejected));
    forall e | CopyOfLocal(sys.local, e)
      ensures CopyOfLocal(local', e)
    {
    }
    assert ReplySound(sys.server, reply);
  }

  lemma MoreServer(setting: Setting, sys: System, server': map<string, Event>)
    requires Sound(setting, sys) && ServerSound(setting, sys.local, server')
    requires forall id :: id in sys.server ==> id in server'
    ensures Sound(setting, sys.(server := server'))
  {
  }

  lemma NextSound(setting: Setting, sys: System, action: Action, sys': System)
    requires Sound(setting, sys) && Next(setting, sys, action, sys')
    ensures Sound(setting, sys')
  {
    match action
    case Commit(events) =>
      CommitSound(setting, sys.local, events);
      LocalStepSound(setting, sys, sys'.local);
    case Enqueue(events) =>
      EnqueueSound(setting, sys.local, events);
      var r := L.UpsertAll(sys.local, events);
      if r.Some? {
        LocalStepSound(setting, sys, r.value);
      }
    case Fetch(batch) =>
    case Deliver(batch) =>
      DeliverSound(setting, sys.local, sys.server, batch);
      MoreServer(setting, sys, sys'.server);
    case Answer(reply) =>
    case Acknowledge(reply) =>
      AcknowledgeSound(setting, sys, reply);
    case OtherMachine(machineId, batch) =>
      OthersSound(setting, sys.local, sys.server, machineId, batch);
      if sys' != sys {
        MoreServer(setting, sys, sys'.server);
      }
  }

  ghost predicate Execution(setting: Setting, trace: seq<System>, actions: seq<Action>) {
    && |trace| == |actions| + 1
    && trace[0].local == map[] && trace[0].requests == {} && trace[0].handled == {} && trace[0].replies == {}
    && (forall id :: id in trace[0].server ==>
          trace[0].server[id].id == id && !setting.own(id) && trace[0].server[id].machineId != setting.machineId)
    && forall i :: 0 <= i < |actions| ==> Next(setting, trace[i], actions[i], trace[i + 1])
  }

  lemma {:induction false} ExecutionSound(setting: Setting, trace: seq<System>, actions: seq<Action>, i: nat)
    requires Execution(setting, trace, actions) && i < |trace|
    ensures Sound(setting, trace[i])
  {
    if i > 0 {
      ExecutionSound(setting, trace, actions, i - 1);
      NextSound(setting, trace[i - 1], actions[i - 1], trace[i]);
    }
  }

  // ----- What every execution guarantees -----

  /** The machine's events on each side, Wakapi's changeable ones left out. */
  function LocalEvents(sys: System): set<Event> {
    set id | id in sys.local && sys.local[id].event.source != Wakapi :: sys.local[id].event
  }

  function ServerEvents(setting: Setting, sys: System): set<Event> {
    set id | id in sys.server && sys.server[id].machineId == setting.machineId && sys.server[id].source != Wakapi ::
      sys.server[id]
  }

  function AcknowledgedEvents(sys: System): set<Event> {
    set id | id in sys.local && sys.local[id].sync == L.Acknowledged && sys.local[id].event.source != Wakapi ::
      sys.local[id].event
  }

  /** Those whose ids no other machine sends. */
  function Own(setting: Setting, events: set<Event>): set<Event> {
    set e | e in events && setting.own(e.id)
  }

  /** After any execution, the id of every acknowledged event is on the server; of the ids that no other machine sends,
      so is the event itself, unchanged; and the server has nothing of this machine that the machine does not have. */
  lemma NothingLostNothingInvented(setting: Setting, trace: seq<System>, actions: seq<Action>, i: nat)
    requires Execution(setting, trace, actions) && i < |trace|
    ensures forall id :: id in trace[i].local && trace[i].local[id].sync == L.Acknowledged ==> id in trace[i].server
    ensures Own(setting, AcknowledgedEvents(trace[i])) <= ServerEvents(setting, trace[i]) <= LocalEvents(trace[i])
  {
    ExecutionSound(setting, trace, actions, i);
    var sys := trace[i];
    forall e | e in Own(setting, AcknowledgedEvents(sys))
      ensures e in ServerEvents(setting, sys)
    {
      assert e.id in sys.server && CopyOfLocal(sys.local, sys.server[e.id]);
    }
    forall e | e in ServerEvents(setting, sys)
      ensures e in LocalEvents(sys)
    {
      assert CopyOfLocal(sys.local, e);
    }
  }

  /** When nothing is pending, both logs project to the same runs. */
  lemma QuietLogsAgree(setting: Setting, trace: seq<System>, actions: seq<Action>, i: nat, localLog: seq<Event>,
                       serverLog: seq<Event>)
    requires Execution(setting, trace, actions) && i < |trace|
    requires Own(setting, LocalEvents(trace[i])) <= AcknowledgedEvents(trace[i])
    requires forall e :: e in localLog <==> e in Own(setting, LocalEvents(trace[i]))
    requires forall e :: e in serverLog <==> e in Own(setting, ServerEvents(setting, trace[i]))
    ensures Projection.ProjectedRuns(localLog) == Projection.ProjectedRuns(serverLog)
  {
    NothingLostNothingInvented(setting, trace, actions, i);
    ExecutionSound(setting, trace, actions, i);
    EventOrder.ProjectionOfSet(localLog, serverLog);
  }

  /** No delivery of a fetched batch is ever refused as a whole. */
  lemma DeliveryNeverAborts(setting: Setting, trace: seq<System>, actions: seq<Action>, i: nat, batch: seq<Event>)
    requires Execution(setting, trace, actions) && i < |trace| && batch in trace[i].requests
    ensures S.IngestAll(setting.isUuid, trace[i].server, setting.machineId, batch).Ingesting?
  {
    ExecutionSound(setting, trace, actions, i);
    DeliverSound(setting, trace[i].local, trace[i].server, batch);
  }
}
