/** Sessions do not interfere: projecting everything is projecting each session. */
module SessionLocality {
  import opened Domain
  import opened Projection
  import opened EventOrder
  import opened RunInvariants
  import Sorting

  /** No run id is used by two sessions. */
  ghost predicate RunIdsPerSession(events: seq<Event>) {
    forall a, b :: a in events && b in events && a.runId == b.runId && a.runId != "" ==> a.sessionId == b.sessionId
  }

  /** No event id is used by two sessions. */
  ghost predicate EventIdsPerSession(events: seq<Event>) {
    forall a, b :: a in events && b in events && a.id == b.id != "" ==> a.sessionId == b.sessionId
  }

  function InSession(s: string): Event -> bool {
    (e: Event) => e.sessionId == s
  }

  function SessionEvents(s: string, events: seq<Event>): seq<Event> {
    Sorting.Filter(InSession(s), events)
  }

  function Restrict(st: State, s: string): State {
    State(map id | id in st.runs && st.runs[id].sessionId == s :: st.runs[id],
          map t | t in st.active && t == s :: st.active[t])
  }

  /** The active run of a session is a run of that session. */
  ghost predicate ActiveOwn(st: State)
    requires st.Valid()
  {
    forall s :: s in st.active ==> st.runs[st.active[s]].sessionId == s
  }

  /** Some event of session `s` names the run. */
  ghost predicate Begun(events: seq<Event>, id: string, s: string) {
    exists e :: e in events && e.runId == id && e.sessionId == s
  }

  /** Every run came from an event of its session, and a session's active run is its own. */
  ghost predicate Owned(st: State, events: seq<Event>) {
    && st.Valid()
    && (forall id :: id in st.runs ==> Begun(events, id, st.runs[id].sessionId))
    && ActiveOwn(st)
  }

  /** The event names no run of another session. */
  ghost predicate NamesOwn(st: State, e: Event) {
    e.runId in st.runs ==> st.runs[e.runId].sessionId == e.sessionId
  }

  lemma OwnedNamesOwn(st: State, events: seq<Event>, e: Event)
    requires Owned(st, events) && RunIdsPerSession(events + [e])
    ensures NamesOwn(st, e)
  {
    if e.runId in st.runs {
      var x :| x in events && x.runId == e.runId && x.sessionId == st.runs[e.runId].sessionId;
      assert x in events + [e] && e in events + [e];
    }
  }

  lemma BegunSnoc(events: seq<Event>, e: Event)
    ensures forall id, s :: Begun(events, id, s) ==> Begun(events + [e], id, s)
    ensures Begun(events + [e], e.runId, e.sessionId)
  {
    assert e in events + [e];
    forall id, s | Begun(events, id, s)
      ensures Begun(events + [e], id, s)
    {
      var x :| x in events && x.runId == id && x.sessionId == s;
      assert x in events + [e];
    }
  }

  lemma NewRunsNamed(st: State, e: Event)
    requires st.Valid()
    ensures forall id :: id in Step(st, e).runs && id !in st.runs ==>
              id == e.runId && Step(st, e).runs[id].sessionId == e.sessionId
  {
  }

  lemma StepActiveOwn(st: State, e: Event)
    requires st.Valid() && ActiveOwn(st) && NamesOwn(st, e)
    ensures ActiveOwn(Step(st, e))
  {
    if IsStart(e.kind) {
      StartActiveOwn(st, e);
    } else {
      OtherActiveOwn(st, e);
    }
  }

  lemma StartActiveOwn(st: State, e: Event)
    requires st.Valid() && ActiveOwn(st) && NamesOwn(st, e)
    ensures ActiveOwn(StepStart(st, e))
  {
  }

  lemma OtherActiveOwn(st: State, e: Event)
    requires st.Valid() && ActiveOwn(st) && !IsStart(e.kind)
    ensures ActiveOwn(Step(st, e))
  {
    StepLasting(st, e);
  }

  lemma StepOwned(st: State, events: seq<Event>, e: Event)
    requires Owned(st, events) && NamesOwn(st, e)
    ensures Owned(Step(st, e), events + [e])
  {
    BegunSnoc(events, e);
    StepLasting(st, e);
    NewRunsNamed(st, e);
    StepActiveOwn(st, e);
  }

  lemma RunIdsPrefix(events: seq<Event>, e: Event)
    requires RunIdsPerSession(events + [e])
    ensures RunIdsPerSession(events)
  {
    assert forall x :: x in events ==> x in events + [e];
  }

  /** Only sessions that had events have an active run. */
  lemma {:induction false} ActiveSeen(events: seq<Event>, s: string)
    requires s in Fold(events).active
    ensures exists e :: e in events && e.sessionId == s
  {
    var before, e := events[..|events| - 1], events[|events| - 1];
    assert events == before + [e] && e in events;
    if e.sessionId != s {
      ActiveElsewhere(Fold(before), e, s);
      ActiveSeen(before, s);
      var x :| x in before && x.sessionId == s;
      assert x in events;
    }
  }

  lemma ActiveElsewhere(st: State, e: Event, s: string)
    requires st.Valid() && e.sessionId != s
    ensures s in Step(st, e).active <==> s in st.active
    ensures s in st.active ==> Step(st, e).active[s] == st.active[s]
  {
  }

  lemma {:induction false} FoldOwned(events: seq<Event>)
    requires RunIdsPerSession(events)
    ensures Owned(Fold(events), events)
  {
    if |events| > 0 {
      var events', e := events[..|events| - 1], events[|events| - 1];
      assert events == events' + [e];
      RunIdsPrefix(events', e);
      FoldOwned(events');
      OwnedNamesOwn(Fold(events'), events', e);
      StepOwned(Fold(events'), events', e);
    }
  }

  /** An event of another session leaves the restriction to `s` alone; an event of `s` steps it. */
  lemma RestrictWith(st: State, id: string, run: Run, s: string)
    requires st.Valid() && id in st.runs && run.id == id && run.sessionId == st.runs[id].sessionId
    ensures Restrict(st.With(id, run), s) ==
              if run.sessionId == s then Restrict(st, s).With(id, run) else Restrict(st, s)
  {
  }

  lemma RestrictDeactivate(st: State, t: string, id: string, s: string)
    ensures Restrict(st.Deactivate(t, id), s) == if t == s then Restrict(st, s).Deactivate(t, id) else Restrict(st, s)
  {
  }

  lemma RestrictActivate(st: State, runs: map<string, Run>, e: Event, s: string)
    requires runs == if e.runId in st.runs then st.runs else st.runs[e.runId := FreshRun(e)]
    requires NamesOwn(st, e)
    ensures
      var own := Restrict(st, s);
      Restrict(State(runs, st.active[e.sessionId := e.runId]), s) ==
      if e.sessionId == s then
        State(if e.runId in own.runs then own.runs else own.runs[e.runId := FreshRun(e)],
              own.active[e.sessionId := e.runId])
      else own
  {
  }

  /** Within its session, an event finds the same runs before and after restricting. */
  lemma TargetsLocal(st: State, e: Event)
    requires st.Valid() && NamesOwn(st, e)
    requires ActiveOwn(st)
    ensures
      var own := Restrict(st, e.sessionId);
      && own.Valid()
      && Current(own, e.sessionId) == Current(st, e.sessionId)
      && Known(own, e.runId) == Known(st, e.runId)
      && (forall id :: id in own.runs ==> own.runs[id] == st.runs[id])
  {
  }

  lemma RestrictValid(st: State, s: string)
    requires st.Valid()
    requires ActiveOwn(st)
    ensures Restrict(st, s).Valid()
  {
  }

  lemma SupersedeLocal(st: State, e: Event, s: string)
    requires st.Valid() && NamesOwn(st, e)
    requires ActiveOwn(st)
    ensures Restrict(st, s).Valid()
    ensures Restrict(Supersede(st, e), s) == if e.sessionId == s then Supersede(Restrict(st, s), e) else Restrict(st, s)
    ensures NamesOwn(Supersede(st, e), e)
  {
    RestrictValid(st, s);
    TargetsLocal(st, e);
    var current := Current(st, e.sessionId);
    if current.Some? && current.value != e.runId {
      RestrictWith(st, current.value, CloseInferredRun(st.runs[current.value], e.occurredAt, Superseded, ByNewRun), s);
    }
  }

  lemma LocalStart(st: State, e: Event, s: string)
    requires st.Valid() && NamesOwn(st, e)
    requires ActiveOwn(st)
    ensures Restrict(st, s).Valid()
    ensures Restrict(StepStart(st, e), s) == if e.sessionId == s then StepStart(Restrict(st, s), e) else Restrict(st, s)
  {
    SupersedeLocal(st, e, s);
    var st1 := Supersede(st, e);
    if e.runId != "" {
      RestrictActivate(st1, if e.runId in st1.runs then st1.runs else st1.runs[e.runId := FreshRun(e)], e, s);
    }
  }

  lemma LocalTokens(st: State, e: Event, s: string)
    requires st.Valid() && NamesOwn(st, e)
    requires ActiveOwn(st)
    ensures Restrict(st, s).Valid()
    ensures Restrict(StepTokens(st, e), s) ==
              if e.sessionId == s then StepTokens(Restrict(st, s), e) else Restrict(st, s)
  {
    RestrictValid(st, s);
    TargetsLocal(st, e);
    var target := TokenTarget(st, e);
    if target.Some? {
      RestrictWith(st, target.value, CountTokens(st.runs[target.value], e), s);
    }
  }

  lemma LocalTerminal(st: State, e: Event, s: string)
    requires st.Valid() && NamesOwn(st, e)
    requires ActiveOwn(st)
    ensures Restrict(st, s).Valid()
    ensures Restrict(StepTerminal(st, e), s) ==
              if e.sessionId == s then StepTerminal(Restrict(st, s), e) else Restrict(st, s)
  {
    RestrictValid(st, s);
    TargetsLocal(st, e);
    var target := TerminalTarget(st, e);
    if target.Some? {
      var run := st.runs[target.value];
      var closed := CloseRun(run, e.occurredAt, StatusOf(e.kind), ReasonOf(e.kind));
      RestrictWith(st, target.value, closed, s);
      RestrictDeactivate(if Correctable(run) then st.With(target.value, closed) else st, e.sessionId, target.value, s);
    }
  }

  lemma LocalSessionClosed(st: State, e: Event, s: string)
    requires st.Valid() && NamesOwn(st, e)
    requires ActiveOwn(st)
    ensures Restrict(st, s).Valid()
    ensures Restrict(StepSessionClosed(st, e), s) ==
              if e.sessionId == s then StepSessionClosed(Restrict(st, s), e) else Restrict(st, s)
  {
    RestrictValid(st, s);
    TargetsLocal(st, e);
    var current := Current(st, e.sessionId);
    if current.Some? {
      var closed := CloseInferredRun(st.runs[current.value], e.occurredAt, Interrupted, SessionEnd);
      RestrictWith(st, current.value, closed, s);
      RestrictDeactivate(st.With(current.value, closed), e.sessionId, current.value, s);
    }
  }

  lemma LocalOther(st: State, e: Event, s: string)
    requires st.Valid() && NamesOwn(st, e)
    requires ActiveOwn(st)
    ensures Restrict(st, s).Valid()
    ensures Restrict(StepOther(st, e), s) == if e.sessionId == s then StepOther(Restrict(st, s), e) else Restrict(st, s)
  {
    RestrictValid(st, s);
    TargetsLocal(st, e);
    var current := Current(st, e.sessionId);
    if current.Some? {
      RestrictWith(st, current.value, Note(st.runs[current.value], e), s);
    }
  }

  lemma StepLocal(st: State, e: Event, s: string)
    requires st.Valid() && NamesOwn(st, e)
    requires ActiveOwn(st)
    ensures Restrict(st, s).Valid()
    ensures Restrict(Step(st, e), s) == if e.sessionId == s then Step(Restrict(st, s), e) else Restrict(st, s)
  {
    if IsStart(e.kind) {
      LocalStart(st, e, s);
    } else if e.kind == TokenUsage {
      LocalTokens(st, e, s);
    } else if IsTerminal(e.kind) {
      LocalTerminal(st, e, s);
    } else if e.kind == SessionClosed {
      LocalSessionClosed(st, e, s);
    } else {
      LocalOther(st, e, s);
    }
  }

  lemma {:induction false} FoldLocal(events: seq<Event>, s: string)
    requires RunIdsPerSession(events)
    ensures Restrict(Fold(events), s) == Fold(SessionEvents(s, events))
  {
    if |events| > 0 {
      var events', e := events[..|events| - 1], events[|events| - 1];
      assert events == events' + [e];
      RunIdsPrefix(events', e);
      FoldLocal(events', s);
      FoldOwned(events');
      OwnedNamesOwn(Fold(events'), events', e);
      StepLocal(Fold(events'), e, s);
      if e.sessionId == s {
        FoldSnoc(SessionEvents(s, events'), e);
      } else {
        assert SessionEvents(s, events) == SessionEvents(s, events');
      }
    }
  }

  lemma {:induction false} KeptLocal(events: seq<Event>, s: string)
    requires EventIdsPerSession(events)
    ensures SessionEvents(s, Kept(events)) == Kept(SessionEvents(s, events))
  {
    if |events| > 0 {
      var events', e := events[..|events| - 1], events[|events| - 1];
      assert events == events' + [e];
      KeptLocal(events', s);
      KeptSubset(events');
      var kept, own := Kept(events'), SessionEvents(s, events');
      KeptSnoc(events', e);
      KeptStepLocal(kept, Kept(events), e, s);
      if e.sessionId == s {
        Sorting.FilterSnoc(InSession(s), events', e);
        KeptSnoc(own, e);
        TakenLocal(events, kept, e, s);
      } else {
        assert SessionEvents(s, events) == own by { Sorting.FilterSnoc(InSession(s), events', e); }
      }
    }
  }

  lemma KeptStepLocal(kept: seq<Event>, next: seq<Event>, e: Event, s: string)
    requires next == kept || next == kept + [e]
    ensures SessionEvents(s, next) ==
            if next != kept && e.sessionId == s then SessionEvents(s, kept) + [e] else SessionEvents(s, kept)
  {
    Sorting.FilterSnoc(InSession(s), kept, e);
    assert SessionEvents(s, kept) + [] == SessionEvents(s, kept);
  }

  lemma TakenLocal(events: seq<Event>, kept: seq<Event>, e: Event, s: string)
    requires EventIdsPerSession(events)
    requires e in events && e.sessionId == s && forall x :: x in kept ==> x in events && x.id != ""
    ensures e.id in Ids(kept) <==> e.id in Ids(SessionEvents(s, kept))
  {
    Sorting.FilterMembers(InSession(s), kept);
    if e.id in Ids(kept) {
      var x :| x in kept && x.id == e.id;
      assert x in SessionEvents(s, kept);
    }
  }

  lemma SubsetPerSession(a: seq<Event>, b: seq<Event>)
    requires forall e :: e in a ==> e in b
    ensures RunIdsPerSession(b) ==> RunIdsPerSession(a)
    ensures EventIdsPerSession(b) ==> EventIdsPerSession(a)
  {
  }

  /** Projecting everything and looking at one session is projecting that session's events. */
  lemma ProjectionIsLocal(events: seq<Event>, s: string)
    requires RunIdsPerSession(events) && EventIdsPerSession(events)
    ensures Restrict(ProjectedState(events), s) == ProjectedState(SessionEvents(s, events))
  {
    var ordered := Ordered(events);
    OrderedMembers(events);
    KeptSubset(ordered);
    SubsetPerSession(ordered, events);
    SubsetPerSession(Kept(ordered), events);
    FoldLocal(Kept(ordered), s);
    KeptLocal(ordered, s);
    EventLeTotalPreorder();
    Sorting.FilterSort(EventLe, InSession(s), events);
  }
}
