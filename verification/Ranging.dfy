/** Ranging over a map: its keys in some order, each exactly once. */
module Ranging {

  ghost predicate Distinct<T>(s: seq<T>) {
    forall i, j :: 0 <= i < j < |s| ==> s[i] != s[j]
  }

  ghost function Elements<T>(s: seq<T>): set<T> {
    set x | x in s
  }

  /** `order` lists the elements of `keys`, each once. */
  ghost predicate Lists<T>(order: seq<T>, keys: set<T>) {
    Distinct(order) && Elements(order) == keys
  }

  lemma ElementsSnoc<T>(s: seq<T>, i: nat)
    requires i < |s|
    ensures Elements(s[..i + 1]) == Elements(s[..i]) + {s[i]}
  {
    assert s[..i + 1] == s[..i] + [s[i]];
  }

  lemma ListsSnoc<T>(order: seq<T>, keys: set<T>, x: T)
    requires Lists(order, keys) && x !in keys
    ensures Lists(order + [x], keys + {x})
  {
  }

  lemma ListsFront<T>(order: seq<T>, keys: set<T>)
    requires Lists(order, keys) && |order| > 0
    ensures Lists(order[..|order| - 1], keys - {order[|order| - 1]})
    ensures order[|order| - 1] in keys
  {
    var front, last := order[..|order| - 1], order[|order| - 1];
    assert order == front + [last];
  }

  lemma {:induction false} ListsLength<T>(order: seq<T>, keys: set<T>)
    requires Lists(order, keys)
    ensures |order| == |keys|
  {
    if |order| == 0 {
      assert keys == {};
    } else {
      ListsFront(order, keys);
      ListsLength(order[..|order| - 1], keys - {order[|order| - 1]});
    }
  }

  lemma {:induction false} DistinctMultiset<T>(s: seq<T>)
    requires Distinct(s)
    ensures multiset(s) == multiset(Elements(s))
  {
    if |s| > 0 {
      var front, last := s[..|s| - 1], s[|s| - 1];
      DistinctMultiset(front);
      assert s == front + [last];
      assert Elements(s) == Elements(front) + {last};
      assert last !in Elements(front);
    }
  }

  lemma OnceInDistinct<T>(s: seq<T>, i: nat)
    requires Distinct(s) && i < |s|
    ensures multiset(s)[s[i]] == 1
  {
    DistinctMultiset(s);
    assert s[i] in Elements(s);
  }

  /** Reordering distinct elements leaves them distinct. */
  lemma DistinctPermutes<T>(a: seq<T>, b: seq<T>)
    requires Distinct(a) && multiset(a) == multiset(b)
    ensures Distinct(b)
  {
    forall i, j | 0 <= i < j < |b|
      ensures b[i] != b[j]
    {
      assert b[i] in multiset(a);
      var k :| 0 <= k < |a| && a[k] == b[i];
      OnceInDistinct(a, k);
      assert b == b[..j] + [b[j]] + b[j + 1..];
      assert b[i] == b[..j][i] && b[i] in multiset(b[..j]);
      assert multiset(b)[b[j]] == multiset(b[..j])[b[j]] + 1 + multiset(b[j + 1..])[b[j]];
    }
  }

  method Enumerate<T(==)>(keys: set<T>) returns (order: seq<T>)
    ensures Lists(order, keys)
  {
    order := [];
    var todo := keys;
    while todo != {}
      invariant todo <= keys && Lists(order, keys - todo)
      decreases |todo|
    {
      var x :| x in todo;
      ListsSnoc(order, keys - todo, x);
      assert keys - todo + {x} == keys - (todo - {x});
      order := order + [x];
      todo := todo - {x};
    }
    assert keys - todo == keys;
  }
}
