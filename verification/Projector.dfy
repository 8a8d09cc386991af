/** The projector as the program runs it: run objects shared between two maps and changed in place. */
module Projector {
  import opened Domain
  import P = Projection
  import Sorting
  import Ranging

  class RunRecord {
    const id: string
    const sessionId: string
    const projectId: string
    const startedAt: Time
    var endedAt: Option<Time>
    var lastActivityAt: Time
    var status: RunStatus
    var model: string
    var effort: string
    var tokens: Tokens
    var closeReason: CloseReason

    constructor (event: Event)
      ensures Value() == P.FreshRun(event)
    {
      id, sessionId, projectId, startedAt := event.runId, event.sessionId, event.payload.project.id, event.occurredAt;
      endedAt, lastActivityAt, status, closeReason := None, event.occurredAt, Running, Unclosed;
      model, effort, tokens := event.payload.model, event.payload.effort, NO_TOKENS;
    }

    function Value(): Run
      reads this
    {
      Run(id, sessionId, projectId, startedAt, endedAt, lastActivityAt, status, model, effort, tokens, closeReason)
    }

    method Close(at: Time, status: RunStatus, reason: CloseReason)
      modifies this
      ensures Value() == P.CloseRun(old(Value()), at, status, reason)
    {
      var end := at;
      if end < startedAt {
        end := startedAt;
      }
      this.endedAt, this.lastActivityAt, this.status, this.closeReason := Some(end), end, status, reason;
    }

    method CloseInferred(at: Time, status: RunStatus, reason: CloseReason)
      modifies this
      ensures Value() == P.CloseInferredRun(old(Value()), at, status, reason)
    {
      var deadline := lastActivityAt + P.INFERRED_CLOSURE_GRACE;
      if deadline < at {
        Close(deadline, status, reason);
      } else {
        Close(at, status, reason);
      }
    }

    method Touch(at: Time)
      modifies this
      ensures Value() == P.Touch(old(Value()), at)
    {
      if at > lastActivityAt {
        lastActivityAt := at;
      }
    }

    method CountTokens(event: Event)
      modifies this
      ensures Value() == P.CountTokens(old(Value()), event)
    {
      tokens := event.payload.usage;
      Touch(event.occurredAt);
    }

    method Note(event: Event)
      modifies this
      ensures Value() == P.Note(old(Value()), event)
    {
      if event.payload.model != "" {
        model := event.payload.model;
      }
      if event.payload.effort != "" {
        effort := event.payload.effort;
      }
      Touch(event.occurredAt);
    }
  }

  class Projector {
    var seen: set<string>
    var runs: map<string, RunRecord>
    var active: map<string, RunRecord>

    constructor ()
      ensures Valid() && View() == P.EMPTY && seen == {} && runs == map[]
    {
      seen, runs, active := {}, map[], map[];
    }

    /** `active` holds aliases of the objects in `runs`. */
    ghost predicate Valid()
      reads this`runs, this`active
    {
      && (forall id :: id in runs ==> id != "" && runs[id].id == id)
      && (forall s :: s in active ==> active[s].id in runs && runs[active[s].id] == active[s])
    }

    ghost function View(): P.State
      reads this`runs, this`active, runs.Values
    {
      P.State(map id | id in runs :: runs[id].Value(), map s | s in active :: active[s].id)
    }

    lemma ViewValid()
      requires Valid()
      ensures View().Valid()
    {
    }

    /** After changing one run object in place, the view differs in that run alone. */
    twostate lemma OneRunChanged(run: RunRecord)
      requires old(Valid()) && unchanged(this)
      requires run.id in runs && runs[run.id] == run
      requires forall o :: o in runs.Values && o != run ==> unchanged(o)
      ensures Valid() && View() == old(View()).With(run.id, run.Value())
    {
      forall id | id in runs && id != run.id
        ensures runs[id].Value() == old(runs[id].Value())
      {
        assert runs[id] in runs.Values && runs[id] != run;
      }
    }

    method Deactivate(session: string, run: RunRecord)
      requires Valid() && run.id in runs && runs[run.id] == run
      modifies this`active
      ensures Valid() && View() == old(View()).Deactivate(session, run.id)
    {
      if session in active && active[session] == run {
        active := active - {session};
      }
    }

    method Supersede(event: Event)
      requires Valid()
      modifies runs.Values
      ensures View().Valid() && Valid() && View() == P.Supersede(old(View()), event)
    {
      ViewValid();
      if event.sessionId in active && active[event.sessionId].id != event.runId {
        var current := active[event.sessionId];
        current.CloseInferred(event.occurredAt, Superseded, ByNewRun);
        OneRunChanged(current);
      }
      ViewValid();
    }

    /** Finds or creates the run the event names, and makes it the active run of the session. */
    method Begin(event: Event)
      requires Valid() && event.runId != ""
      modifies this`runs, this`active
      ensures Valid()
      ensures
        var st := old(View());
        View() == P.State(if event.runId in st.runs then st.runs else st.runs[event.runId := P.FreshRun(event)],
                          st.active[event.sessionId := event.runId])
      ensures forall o :: o in runs.Values ==> o in old(runs.Values) || fresh(o)
    {
      if event.runId !in runs {
        Create(event);
      }
      Activate(event.sessionId, runs[event.runId]);
    }

    method Activate(session: string, run: RunRecord)
      requires Valid() && run.id in runs && runs[run.id] == run
      modifies this`active
      ensures Valid()
      ensures View() == P.State(old(View()).runs, old(View()).active[session := run.id])
    {
      active := active[session := run];
    }

    method Create(event: Event)
      requires Valid() && event.runId != "" && event.runId !in runs
      modifies this`runs
      ensures Valid() && event.runId in runs
      ensures View() == old(View()).With(event.runId, P.FreshRun(event))
      ensures fresh(runs[event.runId]) && runs == old(runs)[event.runId := runs[event.runId]]
    {
      var run := new RunRecord(event);
      runs := runs[event.runId := run];
      ViewGrew(event.runId, run);
    }

    twostate lemma ViewGrew(id: string, new run: RunRecord)
      requires old(Valid()) && unchanged(old(runs.Values)) && unchanged(`active)
      requires id !in old(runs) && runs == old(runs)[id := run]
      ensures View() == old(View()).With(id, run.Value())
    {
      forall other | other in old(runs)
        ensures runs[other].Value() == old(runs[other].Value())
      {
        assert runs[other] in old(runs.Values);
      }
    }

    method Start(event: Event)
      requires Valid()
      modifies this`runs, this`active, runs.Values
      ensures old(View()).Valid() && Valid() && View() == P.StepStart(old(View()), event)
      ensures forall o :: o in runs.Values ==> o in old(runs.Values) || fresh(o)
    {
      ViewValid();
      Supersede(event);
      if event.runId != "" {
        Begin(event);
      }
    }

    method Tokens(event: Event)
      requires Valid()
      modifies runs.Values
      ensures old(View()).Valid() && Valid() && View() == P.StepTokens(old(View()), event)
    {
      ViewValid();
      var current: RunRecord? := if event.sessionId in active then active[event.sessionId] else null;
      if current == null || (event.runId != "" && current.id != event.runId) {
        current := if event.runId in runs then runs[event.runId] else null;
      }
      if current != null {
        current.CountTokens(event);
        OneRunChanged(current);
      }
    }

    method CloseMatching(event: Event, status: RunStatus, reason: CloseReason)
      requires Valid()
      requires P.IsTerminal(event.kind) && status == P.StatusOf(event.kind) && reason == P.ReasonOf(event.kind)
      modifies this`active, runs.Values
      ensures old(View()).Valid() && Valid() && View() == P.StepTerminal(old(View()), event)
    {
      ViewValid();
      var run: RunRecord? := if event.sessionId in active then active[event.sessionId] else null;
      if event.runId != "" {
        run := if event.runId in runs then runs[event.runId] else null;
      }
      if run == null {
        return;
      }
      if run.endedAt.None? || run.status == Superseded || run.status == Abandoned {
        run.Close(event.occurredAt, status, reason);
        OneRunChanged(run);
      }
      Deactivate(event.sessionId, run);
    }

    method CloseSession(event: Event)
      requires Valid()
      modifies this`active, runs.Values
      ensures old(View()).Valid() && Valid() && View() == P.StepSessionClosed(old(View()), event)
    {
      ViewValid();
      if event.sessionId in active {
        var current := active[event.sessionId];
        current.CloseInferred(event.occurredAt, Interrupted, SessionEnd);
        OneRunChanged(current);
        Deactivate(event.sessionId, current);
      }
    }

    method Other(event: Event)
      requires Valid()
      modifies runs.Values
      ensures old(View()).Valid() && Valid() && View() == P.StepOther(old(View()), event)
    {
      ViewValid();
      if event.sessionId in active {
        var current := active[event.sessionId];
        current.Note(event);
        OneRunChanged(current);
      }
    }

    method Dispatch(event: Event)
      requires Valid()
      modifies this`runs, this`active, runs.Values
      ensures old(View()).Valid() && Valid() && View() == P.Step(old(View()), event)
      ensures forall o :: o in runs.Values ==> o in old(runs.Values) || fresh(o)
    {
      match event.kind {
        case PromptSubmitted => Start(event);
        case RunStarted => Start(event);
        case TokenUsage => Tokens(event);
        case RunCompleted => CloseMatching(event, Completed, ExplicitCompletion);
        case RunInterrupted => CloseMatching(event, Interrupted, ByInterruption);
        case RunFailed => CloseMatching(event, Failed, ByFailure);
        case SessionClosed => CloseSession(event);
        case _ => Other(event);
      }
    }

    ghost predicate Follows(ordered: seq<Event>)
      reads this, runs.Values
    {
      Valid() && seen == P.Ids(P.Kept(ordered)) && View() == P.Fold(P.Kept(ordered))
    }

    /** One iteration of the event loop: skip, or remember the id and dispatch on the kind. */
    method Apply(event: Event, ghost before: seq<Event>)
      requires Follows(before)
      modifies this, runs.Values
      ensures Follows(before + [event])
      ensures forall o :: o in runs.Values ==> o in old(runs.Values) || fresh(o)
    {
      if event.id == "" || event.id in seen {
        KeptSkip(before, event);
        return;
      }
      KeptTake(before, event);
      Take(event);
    }

    method Take(event: Event)
      requires Valid()
      modifies this, runs.Values
      ensures old(View()).Valid() && Valid() && View() == P.Step(old(View()), event)
      ensures seen == old(seen) + {event.id}
      ensures forall o :: o in runs.Values ==> o in old(runs.Values) || fresh(o)
    {
      seen := seen + {event.id};
      Dispatch(event);
    }
  }

  lemma KeptSkip(before: seq<Event>, e: Event)
    requires e.id == "" || e.id in P.Ids(P.Kept(before))
    ensures P.Kept(before + [e]) == P.Kept(before)
  {
    assert (before + [e])[..|before|] == before;
  }

  lemma KeptTake(before: seq<Event>, e: Event)
    requires e.id != "" && e.id !in P.Ids(P.Kept(before))
    ensures P.Ids(P.Kept(before + [e])) == P.Ids(P.Kept(before)) + {e.id}
    ensures P.Fold(P.Kept(before + [e])) == P.Step(P.Fold(P.Kept(before)), e)
  {
    assert (before + [e])[..|before|] == before;
    P.FoldSnoc(P.Kept(before), e);
    assert forall x :: x in P.Kept(before) + [e] <==> x in P.Kept(before) || x == e;
  }

  predicate StartedLe(a: Run, b: Run) {
    a.startedAt <= b.startedAt
  }

  /** Every run of the map, each once. */
  ghost predicate ListsRuns(result: seq<Run>, runs: map<string, Run>) {
    multiset(result) == multiset(runs.Values)
  }

  lemma OnceInSet<T>(s: seq<T>, values: set<T>)
    requires multiset(s) == multiset(values)
    ensures forall i, j :: 0 <= i < j < |s| ==> s[i] != s[j]
    ensures forall x :: x in s <==> x in values
  {
    forall i, j | 0 <= i < j < |s|
      ensures s[i] != s[j]
    {
      assert s == s[..i] + [s[i]] + s[i + 1..];
      assert s[j] == s[i + 1..][j - i - 1];
      assert multiset(s)[s[j]] == multiset(s[..i])[s[j]] + multiset([s[i]])[s[j]] + multiset(s[i + 1..])[s[j]];
      assert s[j] in multiset(s[i + 1..]);
    }
    assert forall x :: x in s <==> x in multiset(s);
    assert forall x :: x in values <==> x in multiset(values);
  }

  /** A listing mentions each id once, with its run. */
  lemma ListedIds(result: seq<Run>, runs: map<string, Run>)
    requires ListsRuns(result, runs)
    requires forall id :: id in runs ==> runs[id].id == id
    ensures forall i, j :: 0 <= i < j < |result| ==> result[i].id != result[j].id
    ensures forall run :: run in result <==> run.id in runs && runs[run.id] == run
  {
    OnceInSet(result, runs.Values);
    forall run | run in result
      ensures run.id in runs && runs[run.id] == run
    {
      var id :| id in runs && runs[id] == run;
    }
    forall i, j | 0 <= i < j < |result|
      ensures result[i].id != result[j].id
    {
      assert result[i] in result && result[j] in result;
    }
  }

  method FoldEvents(ordered: seq<Event>) returns (projector: Projector)
    ensures fresh(projector) && projector.Follows(ordered)
  {
    projector := new Projector();
    for i := 0 to |ordered|
      invariant fresh(projector) && fresh(projector.runs.Values)
      invariant projector.Follows(ordered[..i])
    {
      assert ordered[..i + 1] == ordered[..i] + [ordered[i]];
      projector.Apply(ordered[i], ordered[..i]);
    }
    assert ordered[..|ordered|] == ordered;
  }

  lemma ListedByIds(result: seq<Run>, runs: map<string, Run>, ids: seq<string>)
    requires Ranging.Lists(ids, runs.Keys) && |result| == |ids|
    requires forall id :: id in runs ==> runs[id].id == id
    requires forall k :: 0 <= k < |ids| ==> ids[k] in runs && result[k] == runs[ids[k]]
    ensures ListsRuns(result, runs)
  {
    forall i, j | 0 <= i < j < |result|
      ensures result[i] != result[j]
    {
      assert ids[i] != ids[j];
    }
    Ranging.DistinctMultiset(result);
    forall run | run in runs.Values
      ensures run in Ranging.Elements(result)
    {
      var id :| id in runs && runs[id] == run;
      assert id in Ranging.Elements(ids);
      var k :| 0 <= k < |ids| && ids[k] == id;
      assert result[k] == run;
    }
    assert Ranging.Elements(result) == runs.Values;
  }

  method CopyRuns(projector: Projector) returns (result: seq<Run>)
    requires projector.Valid()
    ensures ListsRuns(result, projector.View().runs)
  {
    var ids := Ranging.Enumerate(projector.runs.Keys);
    ghost var runs := projector.View().runs;
    assert runs.Keys == projector.runs.Keys;
    result := [];
    for i := 0 to |ids|
      invariant |result| == i
      invariant forall k :: 0 <= k < i ==> ids[k] in runs && result[k] == runs[ids[k]]
    {
      assert ids[i] in Ranging.Elements(ids);
      result := result + [projector.runs[ids[i]].Value()];
    }
    ListedByIds(result, runs, ids);
  }

  method Project(events: seq<Event>) returns (result: seq<Run>)
    ensures ListsRuns(result, P.ProjectedRuns(events))
    ensures forall i, j :: 0 <= i < j < |result| ==> result[i].startedAt <= result[j].startedAt
  {
    var projector := FoldEvents(P.Ordered(events));
    var listed := CopyRuns(projector);
    assert Sorting.TotalPreorder(StartedLe);
    Sorting.SortSorts(StartedLe, listed);
    Sorting.SortPermutes(StartedLe, listed);
    result := Sorting.Sort(StartedLe, listed);
    assert forall i, j :: 0 <= i < j < |result| ==> StartedLe(result[i], result[j]);
  }
}
