/** The projection depends on which events there are, not on their order or repetition. */
module EventOrder {
  import opened Domain
  import opened Projection
  import Sorting

  // ----- The event order is a total order on keys -----

  lemma {:induction false} StringLeTotal(a: string, b: string)
    ensures StringLe(a, b) || StringLe(b, a)
    ensures StringLe(a, b) && StringLe(b, a) ==> a == b
  {
    if |a| > 0 && |b| > 0 && a[0] == b[0] {
      StringLeTotal(a[1..], b[1..]);
      assert a == [a[0]] + a[1..] && b == [b[0]] + b[1..];
    }
  }

  lemma {:induction false} StringLeTransitive(a: string, b: string, c: string)
    requires StringLe(a, b) && StringLe(b, c)
    ensures StringLe(a, c)
  {
    if |a| > 0 && a[0] == b[0] == c[0] {
      StringLeTransitive(a[1..], b[1..], c[1..]);
    }
  }

  lemma EventLeTransitive(a: Event, b: Event, c: Event)
    requires EventLe(a, b) && EventLe(b, c)
    ensures EventLe(a, c)
  {
    if a.sessionId != b.sessionId && b.sessionId != c.sessionId {
      StringLeTransitive(a.sessionId, b.sessionId, c.sessionId);
      StringLeTotal(a.sessionId, b.sessionId);
    } else if a.sessionId == b.sessionId == c.sessionId && a.sequence == b.sequence == c.sequence
              && a.occurredAt == b.occurredAt == c.occurredAt {
      StringLeTransitive(a.id, b.id, c.id);
    }
  }

  lemma EventLeTotalPreorder()
    ensures Sorting.TotalPreorder(EventLe)
  {
    forall a, b
      ensures Sorting.Comparable(EventLe, a, b)
    {
      StringLeTotal(a.sessionId, b.sessionId);
      StringLeTotal(a.id, b.id);
    }
    forall a, b, c
      ensures Sorting.Chained(EventLe, a, b, c)
    {
      if EventLe(a, b) && EventLe(b, c) {
        EventLeTransitive(a, b, c);
      }
    }
  }

  /** Strictly before, and with another id. */
  predicate EventLt(a: Event, b: Event) {
    EventLe(a, b) && a.id != b.id
  }

  lemma EventLtAsymmetric(a: Event, b: Event)
    ensures !(EventLt(a, b) && EventLt(b, a))
  {
    StringLeTotal(a.sessionId, b.sessionId);
    StringLeTotal(a.id, b.id);
  }

  // ----- Order and duplicates -----

  /** Equal ids mean equal events, among the events that have an id. */
  ghost predicate IdsIdentify(events: seq<Event>) {
    forall a, b :: a in events && b in events && a.id == b.id != "" ==> a == b
  }

  lemma {:induction false} KeptMembers(s: seq<Event>)
    requires IdsIdentify(s)
    ensures forall e :: e in Kept(s) <==> e in s && e.id != ""
  {
    if |s| > 0 {
      var s', x := s[..|s| - 1], s[|s| - 1];
      assert s == s' + [x];
      KeptMembers(s');
      if x.id in Ids(Kept(s')) {
        var y :| y in Kept(s') && y.id == x.id;
        assert y in s && x in s && y.id != "";
      }
    }
  }

  lemma {:induction false} KeptSubset(s: seq<Event>)
    ensures forall e :: e in Kept(s) ==> e in s && e.id != ""
  {
    if |s| > 0 {
      KeptSubset(s[..|s| - 1]);
      assert s == s[..|s| - 1] + [s[|s| - 1]];
    }
  }

  lemma {:induction false} KeptSorted(s: seq<Event>)
    requires Sorting.SortedBy(EventLe, s)
    ensures Sorting.SortedBy(EventLt, Kept(s))
  {
    if |s| > 0 {
      var s', x := s[..|s| - 1], s[|s| - 1];
      KeptSorted(s');
      KeptSubset(s');
      if x.id != "" && x.id !in Ids(Kept(s')) {
        forall e | e in Kept(s')
          ensures EventLt(e, x)
        {
          assert e in s';
        }
        Sorting.SortedSnoc(EventLt, Kept(s'), x);
      }
    }
  }

  lemma OrderedMembers(events: seq<Event>)
    ensures forall e :: e in Ordered(events) <==> e in events
    ensures Sorting.SortedBy(EventLe, Ordered(events))
  {
    EventLeTotalPreorder();
    Sorting.SortSorts(EventLe, events);
    Sorting.SortPermutes(EventLe, events);
    assert forall e :: e in Ordered(events) <==> e in multiset(Ordered(events));
    assert forall e :: e in events <==> e in multiset(events);
  }

  lemma KeptOrderedSorted(events: seq<Event>)
    ensures Sorting.SortedBy(EventLe, Kept(Ordered(events)))
  {
    OrderedMembers(events);
    KeptSorted(Ordered(events));
    var kept := Kept(Ordered(events));
    forall i, j | 0 <= i < j < |kept|
      ensures EventLe(kept[i], kept[j])
    {
      assert EventLt(kept[i], kept[j]);
    }
  }

  /** In order, what lies between two events of a session belongs to that session. */
  lemma SessionsTogether(log: seq<Event>, i: nat, j: nat, k: nat)
    requires Sorting.SortedBy(EventLe, log) && i <= j <= k < |log| && log[i].sessionId == log[k].sessionId
    ensures log[j].sessionId == log[i].sessionId
  {
    if i < j < k {
      assert EventLe(log[i], log[j]) && EventLe(log[j], log[k]);
      StringLeTotal(log[i].sessionId, log[j].sessionId);
    }
  }

  lemma KeptOrderedMembers(events: seq<Event>)
    requires IdsIdentify(events)
    ensures forall e :: e in Kept(Ordered(events)) <==> e in events && e.id != ""
    ensures Sorting.SortedBy(EventLt, Kept(Ordered(events)))
  {
    OrderedMembers(events);
    KeptMembers(Ordered(events));
    KeptSorted(Ordered(events));
  }

  /** The projection depends only on which events there are, not on their order or on how often each appears. */
  lemma ProjectionOfSet(a: seq<Event>, b: seq<Event>)
    requires IdsIdentify(a) && IdsIdentify(b)
    requires forall e: Event :: e.id != "" ==> (e in a <==> e in b)
    ensures Kept(Ordered(a)) == Kept(Ordered(b))
    ensures ProjectedState(a) == ProjectedState(b)
  {
    KeptOrderedMembers(a);
    KeptOrderedMembers(b);
    forall x, y
      ensures !(EventLt(x, y) && EventLt(y, x))
    {
      EventLtAsymmetric(x, y);
    }
    Sorting.StrictlySortedUnique(EventLt, Kept(Ordered(a)), Kept(Ordered(b)));
  }

  // ----- What the order and the selection are -----

  /** A prefix comes first; otherwise the first difference decides. */
  lemma {:induction false} StringLeLexicographic(a: string, b: string)
    ensures StringLe(a, b) <==>
              a <= b || exists i :: 0 <= i < |a| && i < |b| && a[..i] == b[..i] && a[i] < b[i]
  {
    if |a| == 0 {
      assert a == b[..0];
    } else if |b| > 0 && a[0] == b[0] {
      StringLeLexicographic(a[1..], b[1..]);
      TailPrefix(a, b);
      TailDifference(a, b);
    } else if |b| > 0 && a[0] < b[0] {
      assert a[..0] == b[..0];
    } else if i :| 0 <= i < |a| && i < |b| && a[..i] == b[..i] && a[i] < b[i] {
      assert i > 0 ==> a[..i][0] == b[..i][0];
    }
  }

  lemma TailPrefix(a: string, b: string)
    requires |a| > 0 && |b| > 0 && a[0] == b[0]
    ensures a <= b <==> a[1..] <= b[1..]
  {
    if a[1..] <= b[1..] {
      assert a == [a[0]] + a[1..] && b == [b[0]] + b[1..];
    }
  }

  lemma TailDifference(a: string, b: string)
    requires |a| > 0 && |b| > 0 && a[0] == b[0]
    ensures (exists i :: 0 <= i < |a| && i < |b| && a[..i] == b[..i] && a[i] < b[i]) <==>
            (exists i :: 0 <= i < |a[1..]| && i < |b[1..]| && a[1..][..i] == b[1..][..i] && a[1..][i] < b[1..][i])
  {
    if i :| 0 <= i < |a| && i < |b| && a[..i] == b[..i] && a[i] < b[i] {
      assert a[1..][..i - 1] == a[..i][1..] && b[1..][..i - 1] == b[..i][1..];
      assert a[1..][i - 1] < b[1..][i - 1];
    }
    if i :| 0 <= i < |a[1..]| && i < |b[1..]| && a[1..][..i] == b[1..][..i] && a[1..][i] < b[1..][i] {
      assert a[..i + 1] == [a[0]] + a[1..][..i] && b[..i + 1] == [b[0]] + b[1..][..i];
      assert a[i + 1] < b[i + 1];
    }
  }

  /** The event has an id, which no earlier one has. */
  predicate FirstOfId(s: seq<Event>, i: nat)
    requires i < |s|
  {
    s[i].id != "" && forall j :: 0 <= j < i ==> s[j].id != s[i].id
  }

  lemma FirstOfIdPrefix(s: seq<Event>, i: nat)
    requires i < |s| - 1
    ensures FirstOfId(s[..|s| - 1], i) <==> FirstOfId(s, i)
  {
  }

  /** Of equal ids the first event is kept. */
  lemma {:induction false} KeptIsFirst(s: seq<Event>, e: Event) returns (i: nat)
    requires e in Kept(s)
    ensures i < |s| && s[i] == e && FirstOfId(s, i)
  {
    var front, last := s[..|s| - 1], s[|s| - 1];
    if e in Kept(front) {
      i := KeptIsFirst(front, e);
      FirstOfIdPrefix(s, i);
    } else {
      i := |front|;
      KeptIds(front, last.id);
      assert forall j :: 0 <= j < i ==> front[j] == s[j];
    }
  }

  /** No first event with an id is lost. */
  lemma {:induction false} FirstIsKept(s: seq<Event>, i: nat)
    requires i < |s| && FirstOfId(s, i)
    ensures s[i] in Kept(s)
  {
    var front, last := s[..|s| - 1], s[|s| - 1];
    if i < |front| {
      FirstOfIdPrefix(s, i);
      FirstIsKept(front, i);
    } else {
      KeptIds(front, last.id);
      assert forall j :: 0 <= j < i ==> front[j] == s[j];
    }
  }

  lemma {:induction false} KeptIds(s: seq<Event>, id: string)
    requires id != ""
    ensures id in Ids(Kept(s)) <==> exists i :: 0 <= i < |s| && s[i].id == id
  {
    if |s| > 0 {
      var front, last := s[..|s| - 1], s[|s| - 1];
      KeptIds(front, id);
      if i :| 0 <= i < |front| && front[i].id == id {
        assert s[i].id == id;
      }
      if last.id == id {
        assert s[|s| - 1].id == id;
        assert last in Kept(front) + [last];
      }
      assert forall x :: x in Kept(front) ==> x in Kept(s);
      assert forall i :: 0 <= i < |s| && s[i].id == id ==> i == |front| || front[i].id == id;
    }
  }

  /** The log that is folded is in order of session, then sequence, then time, then id. */
  lemma LogInOrder(events: seq<Event>, i: nat, j: nat)
    requires i < j < |Kept(Ordered(events))|
    ensures
      var a, b := Kept(Ordered(events))[i], Kept(Ordered(events))[j];
      && StringLe(a.sessionId, b.sessionId)
      && (a.sessionId == b.sessionId ==> a.sequence <= b.sequence)
      && (a.sessionId == b.sessionId && a.sequence == b.sequence ==> a.occurredAt <= b.occurredAt)
      && (a.sessionId == b.sessionId && a.sequence == b.sequence && a.occurredAt == b.occurredAt ==>
            StringLe(a.id, b.id))
  {
    KeptOrderedSorted(events);
    assert EventLe(Kept(Ordered(events))[i], Kept(Ordered(events))[j]);
    StringLeTotal(Kept(Ordered(events))[i].sessionId, Kept(Ordered(events))[j].sessionId);
  }
}
