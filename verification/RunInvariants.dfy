/** What every step of the projection keeps. */
module RunInvariants {
  import opened Domain
  import opened Projection

  ghost predicate RunSound(st: State, id: string)
    requires id in st.runs
  {
    var run := st.runs[id];
    && run.startedAt <= run.lastActivityAt
    && (run.endedAt.None? ==>
          run.status == Running && run.sessionId in st.active && st.active[run.sessionId] == id)
    && (run.endedAt.Some? ==>
          run.status != Running && run.startedAt <= run.endedAt.value <= run.lastActivityAt)
  }

  /** Every open run is the active run of its own session; every ended run ends after it starts. */
  ghost predicate Sound(st: State) {
    st.Valid() && forall id :: id in st.runs ==> RunSound(st, id)
  }

  lemma StartSoundAt(st: State, e: Event, id: string)
    requires st.Valid() && id in StepStart(st, e).runs && (id in st.runs ==> RunSound(st, id))
    ensures RunSound(StepStart(st, e), id)
  {
    if id in st.runs {
      assert RunSound(Supersede(st, e), id);
    }
  }

  lemma TerminalSoundAt(st: State, e: Event, id: string)
    requires st.Valid() && id in StepTerminal(st, e).runs && (id in st.runs ==> RunSound(st, id))
    ensures RunSound(StepTerminal(st, e), id)
  {
  }

  lemma SessionClosedSoundAt(st: State, e: Event, id: string)
    requires st.Valid() && id in StepSessionClosed(st, e).runs && (id in st.runs ==> RunSound(st, id))
    ensures RunSound(StepSessionClosed(st, e), id)
  {
  }

  lemma TouchSoundAt(st: State, e: Event, id: string)
    requires st.Valid() && id in Step(st, e).runs && (id in st.runs ==> RunSound(st, id))
    requires !IsStart(e.kind) && !IsTerminal(e.kind) && e.kind != SessionClosed
    ensures RunSound(Step(st, e), id)
  {
  }

  lemma StepSoundAt(st: State, e: Event, id: string)
    requires Sound(st) && id in Step(st, e).runs
    ensures RunSound(Step(st, e), id)
  {
    if IsStart(e.kind) {
      StartSoundAt(st, e, id);
    } else if IsTerminal(e.kind) {
      TerminalSoundAt(st, e, id);
    } else if e.kind == SessionClosed {
      SessionClosedSoundAt(st, e, id);
    } else {
      TouchSoundAt(st, e, id);
    }
  }

  lemma StepKeepsSound(st: State, e: Event)
    requires Sound(st)
    ensures Sound(Step(st, e))
  {
    forall id | id in Step(st, e).runs
      ensures RunSound(Step(st, e), id)
    {
      StepSoundAt(st, e, id);
    }
  }

  lemma {:induction false} FoldSound(events: seq<Event>)
    ensures Sound(Fold(events))
  {
    if |events| > 0 {
      FoldSound(events[..|events| - 1]);
      StepKeepsSound(Fold(events[..|events| - 1]), events[|events| - 1]);
    }
  }

  /** A session has at most one open run. */
  lemma OneOpenRun(events: seq<Event>, a: string, b: string)
    ensures
      var runs := Fold(events).runs;
      a in runs && b in runs && runs[a].endedAt.None? && runs[b].endedAt.None? && runs[a].sessionId == runs[b].sessionId
      ==> a == b
  {
    FoldSound(events);
    var st := Fold(events);
    assert a in st.runs ==> RunSound(st, a);
    assert b in st.runs ==> RunSound(st, b);
  }

  /** An ended run never opens again, and identity, session, project and start of a run are fixed. */
  ghost predicate Lasting(before: Run, after: Run) {
    && after.id == before.id && after.sessionId == before.sessionId
    && after.projectId == before.projectId && after.startedAt == before.startedAt
    && (before.endedAt.Some? ==> after.endedAt.Some?)
  }

  lemma StartLastingAt(st: State, e: Event, id: string)
    requires st.Valid() && id in st.runs
    ensures id in StepStart(st, e).runs && Lasting(st.runs[id], StepStart(st, e).runs[id])
  {
  }

  lemma EndLastingAt(st: State, e: Event, id: string)
    requires st.Valid() && id in st.runs && (IsTerminal(e.kind) || e.kind == SessionClosed)
    ensures id in Step(st, e).runs && Lasting(st.runs[id], Step(st, e).runs[id])
  {
  }

  lemma TouchLastingAt(st: State, e: Event, id: string)
    requires st.Valid() && id in st.runs && !IsStart(e.kind) && !IsTerminal(e.kind) && e.kind != SessionClosed
    ensures id in Step(st, e).runs && Lasting(st.runs[id], Step(st, e).runs[id])
  {
  }

  lemma StepLastingAt(st: State, e: Event, id: string)
    requires st.Valid() && id in st.runs
    ensures id in Step(st, e).runs && Lasting(st.runs[id], Step(st, e).runs[id])
  {
    if IsStart(e.kind) {
      StartLastingAt(st, e, id);
    } else if IsTerminal(e.kind) || e.kind == SessionClosed {
      EndLastingAt(st, e, id);
    } else {
      TouchLastingAt(st, e, id);
    }
  }

  lemma StepLasting(st: State, e: Event)
    requires st.Valid()
    ensures forall id :: id in st.runs ==> id in Step(st, e).runs && Lasting(st.runs[id], Step(st, e).runs[id])
  {
    forall id | id in st.runs
      ensures id in Step(st, e).runs && Lasting(st.runs[id], Step(st, e).runs[id])
    {
      StepLastingAt(st, e, id);
    }
  }

  lemma {:induction false} RunsLast(events: seq<Event>, more: seq<Event>)
    ensures forall id :: id in Fold(events).runs ==>
              id in Fold(events + more).runs && Lasting(Fold(events).runs[id], Fold(events + more).runs[id])
  {
    if |more| == 0 {
      assert events + more == events;
    } else {
      var more', e := more[..|more| - 1], more[|more| - 1];
      RunsLast(events, more');
      assert events + more == (events + more') + [e];
      FoldSnoc(events + more', e);
      StepLasting(Fold(events + more'), e);
    }
  }
}
