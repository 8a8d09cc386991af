/** The library sorts the repository calls, as stable insertion, with what callers may rely on. */
module Sorting {

  ghost predicate Comparable<T>(le: (T, T) -> bool, a: T, b: T) {
    le(a, b) || le(b, a)
  }

  ghost predicate Chained<T>(le: (T, T) -> bool, a: T, b: T, c: T) {
    le(a, b) && le(b, c) ==> le(a, c)
  }

  ghost predicate TotalPreorder<T(!new)>(le: (T, T) -> bool) {
    && (forall a, b :: Comparable(le, a, b))
    && (forall a, b, c :: Chained(le, a, b, c))
  }

  ghost predicate SortedBy<T>(le: (T, T) -> bool, s: seq<T>) {
    forall i, j :: 0 <= i < j < |s| ==> le(s[i], s[j])
  }

  function Filter<T>(p: T -> bool, s: seq<T>): seq<T> {
    if |s| == 0 then []
    else Filter(p, s[..|s| - 1]) + (if p(s[|s| - 1]) then [s[|s| - 1]] else [])
  }

  /** Inserts `x` behind every element it does not precede. */
  function Insert<T>(le: (T, T) -> bool, x: T, s: seq<T>): seq<T> {
    if |s| == 0 then [x]
    else if le(s[|s| - 1], x) then s + [x]
    else Insert(le, x, s[..|s| - 1]) + [s[|s| - 1]]
  }

  function Sort<T>(le: (T, T) -> bool, s: seq<T>): seq<T> {
    if |s| == 0 then [] else Insert(le, s[|s| - 1], Sort(le, s[..|s| - 1]))
  }

  lemma {:induction false} InsertPermutes<T>(le: (T, T) -> bool, x: T, s: seq<T>)
    ensures multiset(Insert(le, x, s)) == multiset(s) + multiset{x}
  {
    if |s| > 0 {
      InsertPermutes(le, x, s[..|s| - 1]);
      assert s == s[..|s| - 1] + [s[|s| - 1]];
    }
  }

  lemma {:induction false} InsertMembers<T>(le: (T, T) -> bool, x: T, s: seq<T>)
    ensures forall y :: y in Insert(le, x, s) <==> y == x || y in s
  {
    if |s| > 0 {
      InsertMembers(le, x, s[..|s| - 1]);
      assert s == s[..|s| - 1] + [s[|s| - 1]];
    }
  }

  lemma {:induction false} InsertSorts<T(!new)>(le: (T, T) -> bool, x: T, s: seq<T>)
    requires TotalPreorder(le) && SortedBy(le, s)
    ensures SortedBy(le, Insert(le, x, s))
  {
    if |s| > 0 {
      var s', y := s[..|s| - 1], s[|s| - 1];
      if le(y, x) {
        forall i | 0 <= i < |s|
          ensures le(s[i], x)
        {
          assert Chained(le, s[i], y, x);
        }
      } else {
        assert Comparable(le, y, x);
        InsertSorts(le, x, s');
        InsertMembers(le, x, s');
        assert forall z :: z in s' ==> le(z, y);
        SortedSnoc(le, Insert(le, x, s'), y);
      }
    }
  }

  lemma SortedSnoc<T>(le: (T, T) -> bool, s: seq<T>, y: T)
    requires SortedBy(le, s)
    requires forall z :: z in s ==> le(z, y)
    ensures SortedBy(le, s + [y])
  {
  }

  lemma {:induction false} SortPermutes<T>(le: (T, T) -> bool, s: seq<T>)
    ensures multiset(Sort(le, s)) == multiset(s)
  {
    if |s| > 0 {
      SortPermutes(le, s[..|s| - 1]);
      InsertPermutes(le, s[|s| - 1], Sort(le, s[..|s| - 1]));
      assert s == s[..|s| - 1] + [s[|s| - 1]];
    }
  }

  lemma {:induction false} SortSorts<T(!new)>(le: (T, T) -> bool, s: seq<T>)
    requires TotalPreorder(le)
    ensures SortedBy(le, Sort(le, s))
  {
    if |s| > 0 {
      SortSorts(le, s[..|s| - 1]);
      InsertSorts(le, s[|s| - 1], Sort(le, s[..|s| - 1]));
    }
  }

  lemma {:induction false} SortedStays<T>(le: (T, T) -> bool, s: seq<T>)
    requires SortedBy(le, s)
    ensures Sort(le, s) == s
  {
    if |s| > 0 {
      SortedStays(le, s[..|s| - 1]);
      assert s == s[..|s| - 1] + [s[|s| - 1]];
    }
  }

  lemma {:induction false} FilterMembers<T>(p: T -> bool, s: seq<T>)
    ensures forall x :: x in Filter(p, s) <==> x in s && p(x)
  {
    if |s| > 0 {
      FilterMembers(p, s[..|s| - 1]);
      assert s == s[..|s| - 1] + [s[|s| - 1]];
    }
  }

  lemma FilterSnoc<T>(p: T -> bool, s: seq<T>, x: T)
    ensures Filter(p, s + [x]) == Filter(p, s) + (if p(x) then [x] else [])
  {
    assert (s + [x])[..|s|] == s;
  }

  lemma {:induction false} FilterConcat<T>(p: T -> bool, a: seq<T>, b: seq<T>)
    ensures Filter(p, a + b) == Filter(p, a) + Filter(p, b)
  {
    if |b| == 0 {
      assert a + b == a;
    } else {
      var b', x := b[..|b| - 1], b[|b| - 1];
      FilterConcat(p, a, b');
      assert a + b == (a + b') + [x];
      FilterSnoc(p, a + b', x);
    }
  }

  lemma {:induction false} FilterInsert<T(!new)>(le: (T, T) -> bool, p: T -> bool, x: T, s: seq<T>)
    requires TotalPreorder(le) && SortedBy(le, s)
    ensures Filter(p, Insert(le, x, s)) == if p(x) then Insert(le, x, Filter(p, s)) else Filter(p, s)
  {
    if |s| == 0 {
      FilterSnoc(p, [], x);
      assert [] + [x] == [x];
    } else if le(s[|s| - 1], x) {
      FilterInsertBehind(le, p, x, s);
    } else {
      var s', y := s[..|s| - 1], s[|s| - 1];
      FilterInsert(le, p, x, s');
      FilterSnoc(p, Insert(le, x, s'), y);
      if p(y) {
        InsertBeforeLast(le, x, y, Filter(p, s'));
      } else {
        assert Filter(p, s') + [] == Filter(p, s');
      }
    }
  }

  lemma FilterInsertBehind<T(!new)>(le: (T, T) -> bool, p: T -> bool, x: T, s: seq<T>)
    requires TotalPreorder(le) && SortedBy(le, s)
    requires |s| > 0 && le(s[|s| - 1], x)
    ensures Filter(p, Insert(le, x, s)) == if p(x) then Insert(le, x, Filter(p, s)) else Filter(p, s)
  {
    FilterSnoc(p, s, x);
    FilterMembers(p, s);
    InsertLast(le, x, s[|s| - 1], Filter(p, s));
  }

  lemma InsertLast<T(!new)>(le: (T, T) -> bool, x: T, y: T, f: seq<T>)
    requires TotalPreorder(le) && le(y, x)
    requires forall z :: z in f ==> z == y || le(z, y)
    ensures Insert(le, x, f) == f + [x]
  {
    if |f| > 0 {
      assert f[|f| - 1] in f;
      assert Chained(le, f[|f| - 1], y, x);
    }
  }

  lemma InsertBeforeLast<T>(le: (T, T) -> bool, x: T, y: T, f: seq<T>)
    requires !le(y, x)
    ensures Insert(le, x, f + [y]) == Insert(le, x, f) + [y]
  {
    assert (f + [y])[..|f|] == f;
  }

  lemma SortSnoc<T>(le: (T, T) -> bool, s: seq<T>, x: T)
    ensures Sort(le, s + [x]) == Insert(le, x, Sort(le, s))
  {
    assert (s + [x])[..|s|] == s;
  }

  /** Sorting is stable, so it commutes with selecting elements. */
  lemma {:induction false} FilterSort<T(!new)>(le: (T, T) -> bool, p: T -> bool, s: seq<T>)
    requires TotalPreorder(le)
    ensures Filter(p, Sort(le, s)) == Sort(le, Filter(p, s))
  {
    if |s| > 0 {
      var s', x := s[..|s| - 1], s[|s| - 1];
      FilterSort(le, p, s');
      SortSorts(le, s');
      FilterInsert(le, p, x, Sort(le, s'));
      SortSnoc(le, Filter(p, s'), x);
      assert Filter(p, s') + [] == Filter(p, s');
    }
  }

  /** Two strictly sorted sequences with the same elements are the same sequence. */
  lemma {:induction false} StrictlySortedUnique<T(!new)>(lt: (T, T) -> bool, a: seq<T>, b: seq<T>)
    requires SortedBy(lt, a) && SortedBy(lt, b)
    requires forall x, y :: !(lt(x, y) && lt(y, x))
    requires forall x :: x in a <==> x in b
    ensures a == b
  {
    HeadMember(a);
    HeadMember(b);
    if |a| > 0 && |b| > 0 {
      HeadFirst(lt, a, b[0]);
      HeadFirst(lt, b, a[0]);
      TailMembers(lt, a);
      TailMembers(lt, b);
      StrictlySortedUnique(lt, a[1..], b[1..]);
      assert a == [a[0]] + a[1..] && b == [b[0]] + b[1..];
    }
  }

  lemma HeadMember<T>(s: seq<T>)
    ensures |s| > 0 ==> s[0] in s
  {
  }

  lemma HeadFirst<T>(lt: (T, T) -> bool, s: seq<T>, x: T)
    requires SortedBy(lt, s) && x in s
    ensures x == s[0] || lt(s[0], x)
  {
  }

  lemma TailMembers<T(!new)>(lt: (T, T) -> bool, s: seq<T>)
    requires |s| > 0 && SortedBy(lt, s)
    requires forall x, y :: !(lt(x, y) && lt(y, x))
    ensures forall x :: x in s[1..] <==> x in s && x != s[0]
  {
    forall x | x in s[1..]
      ensures x != s[0]
    {
      var i :| 1 <= i < |s| && s[i] == x;
      assert lt(s[0], s[i]);
    }
  }
}
