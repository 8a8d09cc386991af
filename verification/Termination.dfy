/** Which closures of a run are final. */
module Termination {
  import opened Domain
  import opened Projection
  import opened EventOrder
  import opened SessionLocality
  import Sorting

  ghost predicate Applies(st: State, e: Event, id: string)
    requires st.Valid()
  {
    && IsTerminal(e.kind)
    && TerminalTarget(st, e) == Some(id)
    && Correctable(st.runs[id])
  }

  /** The run is closed explicitly, and not active in the session of any of the events to come. */
  ghost predicate Settled(st: State, id: string, status: RunStatus, end: Time, more: seq<Event>) {
    && st.Valid() && id in st.runs
    && st.runs[id].status == status && st.runs[id].endedAt == Some(end)
    && (forall e :: e in more && e.sessionId in st.active ==> st.active[e.sessionId] != id)
  }

  function EndOf(run: Run, e: Event): Time {
    if e.occurredAt < run.startedAt then run.startedAt else e.occurredAt
  }

  ghost predicate NoStartOf(events: seq<Event>, id: string) {
    forall e :: e in events && IsStart(e.kind) ==> e.runId != id
  }

  /** The run is active in no other session that has events to come. */
  ghost predicate NotActiveElsewhere(st: State, e: Event, after: seq<Event>, id: string) {
    forall x :: x in after && x.sessionId in st.active && st.active[x.sessionId] == id ==> x.sessionId == e.sessionId
  }

  lemma TerminationSettles(st: State, e: Event, id: string, after: seq<Event>)
    requires st.Valid() && Applies(st, e, id) && NotActiveElsewhere(st, e, after, id)
    ensures Settled(Step(st, e), id, StatusOf(e.kind), EndOf(st.runs[id], e), after)
  {
    forall x | x in after && x.sessionId in Step(st, e).active
      ensures Step(st, e).active[x.sessionId] != id
    {
      if x.sessionId != e.sessionId {
        ActiveElsewhere(st, e, x.sessionId);
      }
    }
  }

  lemma SettledStep(st: State, e: Event, id: string, status: RunStatus, end: Time, more: seq<Event>)
    requires Settled(st, id, status, end, more) && e in more
    requires status in {Completed, Interrupted, Failed}
    requires IsStart(e.kind) ==> e.runId != id
    ensures Settled(Step(st, e), id, status, end, more)
  {
    forall x | x in more && x.sessionId in Step(st, e).active
      ensures Step(st, e).active[x.sessionId] != id
    {
      if x.sessionId != e.sessionId {
        ActiveElsewhere(st, e, x.sessionId);
      } else {
        ActiveHere(st, e, id);
      }
    }
    EndStays(st, e, id);
  }

  lemma ActiveHere(st: State, e: Event, id: string)
    requires st.Valid() && (IsStart(e.kind) ==> e.runId != id)
    requires e.sessionId in st.active ==> st.active[e.sessionId] != id
    ensures e.sessionId in Step(st, e).active ==> Step(st, e).active[e.sessionId] != id
  {
  }

  /** Status and end of an explicitly closed run change only through its session's active run. */
  lemma EndStays(st: State, e: Event, id: string)
    requires st.Valid() && id in st.runs && st.runs[id].endedAt.Some?
    requires st.runs[id].status in {Completed, Interrupted, Failed}
    requires IsStart(e.kind) ==> e.runId != id
    requires e.sessionId in st.active ==> st.active[e.sessionId] != id
    ensures id in Step(st, e).runs
    ensures Step(st, e).runs[id].status == st.runs[id].status && Step(st, e).runs[id].endedAt == st.runs[id].endedAt
  {
  }

  lemma {:induction false} SettledForever(events: seq<Event>, more: seq<Event>, id: string, status: RunStatus,
                                          end: Time,
                                          after: seq<Event>)
    requires Settled(Fold(events), id, status, end, after)
    requires status in {Completed, Interrupted, Failed}
    requires NoStartOf(after, id) && forall e :: e in more ==> e in after
    ensures Settled(Fold(events + more), id, status, end, after)
  {
    if |more| == 0 {
      assert events + more == events;
    } else {
      var more', e := more[..|more| - 1], more[|more| - 1];
      assert more == more' + [e];
      SettledForever(events, more', id, status, end, after);
      assert events + more == (events + more') + [e];
      FoldSnoc(events + more', e);
      SettledStep(Fold(events + more'), e, id, status, end, after);
    }
  }

  /** Status and end of the run after the continuation are those that the terminal event gave it. */
  ghost predicate Wins(before: seq<Event>, e: Event, after: seq<Event>, id: string)
    requires id in Fold(before).runs
  {
    var final := Fold(before + [e] + after).runs;
    id in final && final[id].status == StatusOf(e.kind) && final[id].endedAt == Some(EndOf(Fold(before).runs[id], e))
  }

  lemma WinsUnlessActive(before: seq<Event>, e: Event, after: seq<Event>, id: string)
    requires Applies(Fold(before), e, id) && NoStartOf(after, id)
    requires NotActiveElsewhere(Fold(before), e, after, id)
    ensures Wins(before, e, after, id)
  {
    TerminationSettles(Fold(before), e, id, after);
    FoldSnoc(before, e);
    SettledForever(before + [e], after, id, StatusOf(e.kind), EndOf(Fold(before).runs[id], e), after);
  }

  /** A start without a run id in another session that has the run active closes it again. */
  lemma LostIfActive(before: seq<Event>, e: Event, start: Event, id: string)
    requires Applies(Fold(before), e, id)
    requires start.kind == RunStarted && start.runId == "" && start.sessionId != e.sessionId
    requires start.sessionId in Fold(before).active && Fold(before).active[start.sessionId] == id
    ensures !Wins(before, e, [start], id)
  {
    FoldSnoc(before, e);
    FoldSnoc(before + [e], start);
    ActiveElsewhere(Fold(before), e, start.sessionId);
    assert Fold(before + [e] + [start]).runs[id].status == Superseded;
  }

  /** Over all continuations, in any order, that do not start the run again: the terminal event fixes status and end
      if and only if the run is active in no session but the event's. */
  lemma TerminationWinsIff(before: seq<Event>, e: Event, id: string)
    requires Applies(Fold(before), e, id)
    ensures (forall after :: NoStartOf(after, id) ==> Wins(before, e, after, id)) <==>
            (forall s :: s in Fold(before).active && Fold(before).active[s] == id ==> s == e.sessionId)
  {
    var st := Fold(before);
    if forall s :: s in st.active && st.active[s] == id ==> s == e.sessionId {
      forall after | NoStartOf(after, id)
        ensures Wins(before, e, after, id)
      {
        WinsUnlessActive(before, e, after, id);
      }
    } else {
      var s :| s in st.active && st.active[s] == id && s != e.sessionId;
      var start := e.(sessionId := s, kind := RunStarted, runId := "");
      LostIfActive(before, e, start, id);
      assert NoStartOf([start], id);
    }
  }

  /** The projector sorts by session first, so the condition always holds there: the first explicit end that applies
      to a run fixes its status and end for the rest of the log, as long as no later start names the run again. */
  lemma ExplicitTerminationWins(events: seq<Event>, before: seq<Event>, e: Event, after: seq<Event>, id: string)
    requires Kept(Ordered(events)) == before + [e] + after
    requires Applies(Fold(before), e, id) && NoStartOf(after, id)
    ensures id in ProjectedRuns(events)
    ensures ProjectedRuns(events)[id].status == StatusOf(e.kind)
    ensures ProjectedRuns(events)[id].endedAt == Some(EndOf(Fold(before).runs[id], e))
  {
    KeptOrderedSorted(events);
    forall x | x in after && x.sessionId in Fold(before).active
      ensures x.sessionId == e.sessionId
    {
      ActiveBeforeAndAfter(before, e, after, before + [e] + after, x);
    }
    WinsUnlessActive(before, e, after, id);
  }

  lemma ActiveBeforeAndAfter(before: seq<Event>, e: Event, after: seq<Event>, log: seq<Event>, x: Event)
    requires log == before + [e] + after && Sorting.SortedBy(EventLe, log)
    requires x in after && x.sessionId in Fold(before).active
    ensures x.sessionId == e.sessionId
  {
    ActiveSeen(before, x.sessionId);
    var i :| 0 <= i < |before| && before[i].sessionId == x.sessionId;
    var k :| 0 <= k < |after| && after[k] == x;
    SessionsTogether(log, i, |before|, |before| + 1 + k);
  }

  // ----- Which inferred closures an explicit end corrects -----

  /** The closure was inferred: by the next run, the end of the session, or an expired lease. */
  predicate Inferred(reason: CloseReason) {
    reason == ByNewRun || reason == SessionEnd || reason == LeaseExpired
  }

  ghost predicate ReasonsMatch(run: Run) {
    && (run.endedAt.None? <==> run.status == Running)
    && (run.status == Superseded <==> run.closeReason == ByNewRun)
    && (run.status == Abandoned <==> run.closeReason == LeaseExpired)
    && (run.status == Completed <==> run.closeReason == ExplicitCompletion)
    && (run.status == Failed <==> run.closeReason == ByFailure)
    && (run.status == Interrupted <==> run.closeReason == ByInterruption || run.closeReason == SessionEnd)
  }

  lemma StartReasons(st: State, e: Event, id: string)
    requires st.Valid() && IsStart(e.kind) && id in Step(st, e).runs && (id in st.runs ==> ReasonsMatch(st.runs[id]))
    ensures ReasonsMatch(Step(st, e).runs[id])
  {
  }

  lemma EndReasons(st: State, e: Event, id: string)
    requires st.Valid() && id in Step(st, e).runs && (id in st.runs ==> ReasonsMatch(st.runs[id]))
    requires IsTerminal(e.kind) || e.kind == SessionClosed
    ensures ReasonsMatch(Step(st, e).runs[id])
  {
  }

  lemma TouchReasons(st: State, e: Event, id: string)
    requires st.Valid() && id in Step(st, e).runs && (id in st.runs ==> ReasonsMatch(st.runs[id]))
    requires !IsStart(e.kind) && !IsTerminal(e.kind) && e.kind != SessionClosed
    ensures ReasonsMatch(Step(st, e).runs[id])
  {
    if e.kind == TokenUsage {
      TokensKeepReason(st, e, id);
    } else {
      OthersKeepReason(st, e, id);
    }
  }

  lemma TokensKeepReason(st: State, e: Event, id: string)
    requires st.Valid() && id in StepTokens(st, e).runs
    ensures id in st.runs && var (a, b) := (st.runs[id], StepTokens(st, e).runs[id]);
            a.endedAt == b.endedAt && a.status == b.status && a.closeReason == b.closeReason
  {
  }

  lemma OthersKeepReason(st: State, e: Event, id: string)
    requires st.Valid() && id in StepOther(st, e).runs
    ensures id in st.runs && var (a, b) := (st.runs[id], StepOther(st, e).runs[id]);
            a.endedAt == b.endedAt && a.status == b.status && a.closeReason == b.closeReason
  {
  }

  lemma {:induction false} FoldReasons(events: seq<Event>)
    ensures forall id :: id in Fold(events).runs ==> ReasonsMatch(Fold(events).runs[id])
  {
    if |events| > 0 {
      var before, e := events[..|events| - 1], events[|events| - 1];
      FoldReasons(before);
      forall id | id in Step(Fold(before), e).runs
        ensures ReasonsMatch(Step(Fold(before), e).runs[id])
      {
        if IsStart(e.kind) {
          StartReasons(Fold(before), e, id);
        } else if IsTerminal(e.kind) || e.kind == SessionClosed {
          EndReasons(Fold(before), e, id);
        } else {
          TouchReasons(Fold(before), e, id);
        }
      }
    }
  }

  /** An explicit end corrects an inferred closure if and only if the closure did not come from the end of the
      session. */
  lemma InferredClosureCorrected(events: seq<Event>, e: Event, id: string)
    requires IsTerminal(e.kind) && TerminalTarget(Fold(events), e) == Some(id)
    requires Inferred(Fold(events).runs[id].closeReason)
    ensures Applies(Fold(events), e, id) <==> Fold(events).runs[id].closeReason != SessionEnd
    ensures Fold(events).runs[id].closeReason == SessionEnd ==> Fold(events + [e]).runs == Fold(events).runs
  {
    FoldReasons(events);
    FoldSnoc(events, e);
  }
}
