/** How far past its activity a superseded run can reach. */
module InferredClosure {
  import opened Domain
  import opened EventOrder
  import opened Projection
  import opened RunInvariants
  import opened SessionLocality
  import Sorting

  /** The run whose activity the event records: the one it creates, counts tokens for, or otherwise touches. */
  function Attributed(st: State, e: Event): Option<string> {
    if IsStart(e.kind) then (if e.runId != "" && e.runId !in st.runs then Some(e.runId) else None)
    else if e.kind == TokenUsage then TokenTarget(st, e)
    else if IsTerminal(e.kind) || e.kind == SessionClosed then None
    else Current(st, e.sessionId)
  }

  function Latest(a: Option<Time>, t: Time): Option<Time> {
    if a.Some? && a.value >= t then a else Some(t)
  }

  /** The time of the latest event attributed to the run. */
  function LatestActivity(events: seq<Event>, id: string): Option<Time> {
    if |events| == 0 then None
    else
      var before, e := events[..|events| - 1], events[|events| - 1];
      var latest := LatestActivity(before, id);
      if Attributed(Fold(before), e) == Some(id) then Latest(latest, e.occurredAt) else latest
  }

  /** Every start names a run, and none names one that has ended. */
  ghost predicate CleanStart(st: State, e: Event) {
    IsStart(e.kind) ==> e.runId != "" && (e.runId in st.runs ==> st.runs[e.runId].endedAt.None?)
  }

  ghost predicate CleanStarts(events: seq<Event>) {
    forall i :: 0 <= i < |events| ==> CleanStart(Fold(events[..i]), events[i])
  }

  /** If the session has an active run, that run is open. */
  ghost predicate ActiveOpen(st: State, s: string)
    requires st.Valid()
  {
    s in st.active ==> st.runs[st.active[s]].endedAt.None?
  }

  ghost predicate WithinGrace(run: Run, latest: Option<Time>) {
    && latest.Some?
    && (run.endedAt.None? ==> run.lastActivityAt <= latest.value)
    && (run.status == Superseded ==> run.endedAt.Some? && run.endedAt.value <= latest.value + INFERRED_CLOSURE_GRACE)
  }

  lemma StepActiveOpen(st: State, e: Event)
    requires st.Valid() && ActiveOpen(st, e.sessionId) && CleanStart(st, e)
    ensures ActiveOpen(Step(st, e), e.sessionId)
  {
  }

  lemma StartWithinGrace(st: State, e: Event, id: string, latest: Option<Time>)
    requires st.Valid() && IsStart(e.kind) && id in StepStart(st, e).runs
    requires ActiveOpen(st, e.sessionId)
    requires id in st.runs ==> RunSound(st, id) && WithinGrace(st.runs[id], latest)
    ensures WithinGrace(StepStart(st, e).runs[id],
                        if Attributed(st, e) == Some(id) then Latest(latest, e.occurredAt) else latest)
  {
  }

  lemma EndWithinGrace(st: State, e: Event, id: string, latest: Option<Time>)
    requires st.Valid() && (IsTerminal(e.kind) || e.kind == SessionClosed) && id in st.runs
    requires WithinGrace(st.runs[id], latest)
    ensures id in Step(st, e).runs && WithinGrace(Step(st, e).runs[id], latest)
  {
  }

  lemma TouchWithinGrace(st: State, e: Event, id: string, latest: Option<Time>)
    requires st.Valid() && !IsStart(e.kind) && !IsTerminal(e.kind) && e.kind != SessionClosed && id in st.runs
    requires WithinGrace(st.runs[id], latest)
    ensures id in Step(st, e).runs
    ensures WithinGrace(Step(st, e).runs[id],
                        if Attributed(st, e) == Some(id) then Latest(latest, e.occurredAt) else latest)
  {
  }

  lemma NewOnlyFromStart(st: State, e: Event)
    requires st.Valid() && !IsStart(e.kind)
    ensures Step(st, e).runs.Keys == st.runs.Keys
  {
  }

  /** In order, a session that begins has no active run yet; one that goes on has an open one. */
  lemma OpenAtEvent(before: seq<Event>, e: Event)
    requires Sorting.SortedBy(EventLe, before + [e])
    requires |before| > 0 ==> ActiveOpen(Fold(before), before[|before| - 1].sessionId)
    ensures ActiveOpen(Fold(before), e.sessionId)
  {
    if e.sessionId in Fold(before).active {
      ActiveSeen(before, e.sessionId);
      var b :| b in before && b.sessionId == e.sessionId;
      var i := FindEvent(before, b);
      var n := |before|;
      var log := before + [e];
      assert log[i] == b && log[n] == e && log[n - 1] == before[n - 1];
      SessionsTogether(log, i, n - 1, n);
    }
  }

  lemma FindEvent(events: seq<Event>, e: Event) returns (i: nat)
    requires e in events
    ensures i < |events| && events[i] == e
  {
    i :| 0 <= i < |events| && events[i] == e;
  }

  lemma StepWithinGrace(before: seq<Event>, e: Event, id: string)
    requires CleanStart(Fold(before), e) && ActiveOpen(Fold(before), e.sessionId)
    requires forall x :: x in Fold(before).runs ==> WithinGrace(Fold(before).runs[x], LatestActivity(before, x))
    requires id in Step(Fold(before), e).runs
    ensures WithinGrace(Step(Fold(before), e).runs[id], LatestActivity(before + [e], id))
  {
    assert (before + [e])[..|before|] == before;
    var st, latest := Fold(before), LatestActivity(before, id);
    FoldSound(before);
    if IsStart(e.kind) {
      StartWithinGrace(st, e, id, latest);
    } else {
      NewOnlyFromStart(st, e);
      if IsTerminal(e.kind) || e.kind == SessionClosed {
        EndWithinGrace(st, e, id, latest);
      } else {
        TouchWithinGrace(st, e, id, latest);
      }
    }
  }

  lemma {:induction false} FoldWithinGrace(events: seq<Event>)
    requires Sorting.SortedBy(EventLe, events) && CleanStarts(events)
    ensures |events| > 0 ==> ActiveOpen(Fold(events), events[|events| - 1].sessionId)
    ensures forall id :: id in Fold(events).runs ==> WithinGrace(Fold(events).runs[id], LatestActivity(events, id))
  {
    if |events| > 0 {
      var before, e := events[..|events| - 1], events[|events| - 1];
      assert events == before + [e];
      assert forall i :: 0 <= i < |before| ==> before[..i] == events[..i];
      FoldWithinGrace(before);
      OpenAtEvent(before, e);
      assert CleanStart(Fold(before), e);
      StepActiveOpen(Fold(before), e);
      forall id | id in Step(Fold(before), e).runs
        ensures WithinGrace(Step(Fold(before), e).runs[id], LatestActivity(events, id))
      {
        StepWithinGrace(before, e, id);
      }
    }
  }

  /** A superseded run of a projection ends at most 90 seconds after the latest activity attributed to it. */
  lemma SupersededEndsSoon(events: seq<Event>, id: string)
    requires CleanStarts(Kept(Ordered(events)))
    requires id in ProjectedRuns(events) && ProjectedRuns(events)[id].status == Superseded
    ensures
      var run, latest := ProjectedRuns(events)[id], LatestActivity(Kept(Ordered(events)), id);
      && run.endedAt.Some? && latest.Some?
      && run.startedAt <= run.endedAt.value <= latest.value + INFERRED_CLOSURE_GRACE
  {
    var kept := Kept(Ordered(events));
    KeptOrderedSorted(events);
    FoldWithinGrace(kept);
    FoldSound(kept);
    assert RunSound(Fold(kept), id);
  }
}
