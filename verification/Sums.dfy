/** Finite sums: over the elements of a sequence, and over a range of instants. */
module Sums {

  /** The sum of `f` over the elements of `s`. */
  function SumBy<T>(f: T -> int, s: seq<T>): int {
    if |s| == 0 then 0 else SumBy(f, s[..|s| - 1]) + f(s[|s| - 1])
  }

  lemma SumBySnoc<T>(f: T -> int, s: seq<T>, x: T)
    ensures SumBy(f, s + [x]) == SumBy(f, s) + f(x)
  {
    assert (s + [x])[..|s|] == s;
  }

  lemma {:induction false} SumByConcat<T>(f: T -> int, a: seq<T>, b: seq<T>)
    ensures SumBy(f, a + b) == SumBy(f, a) + SumBy(f, b)
  {
    if |b| == 0 {
      assert a + b == a;
    } else {
      var b', x := b[..|b| - 1], b[|b| - 1];
      SumByConcat(f, a, b');
      assert a + b == (a + b') + [x];
      SumBySnoc(f, a + b', x);
    }
  }

  lemma {:induction false} SumByRemove<T>(f: T -> int, s: seq<T>, i: nat)
    requires i < |s|
    ensures SumBy(f, s) == SumBy(f, s[..i] + s[i + 1..]) + f(s[i])
  {
    assert s == s[..i] + [s[i]] + s[i + 1..];
    SumByConcat(f, s[..i] + [s[i]], s[i + 1..]);
    SumBySnoc(f, s[..i], s[i]);
    SumByConcat(f, s[..i], s[i + 1..]);
  }

  /** A sum does not depend on the order of the elements. */
  lemma {:induction false} SumByPermutation<T>(f: T -> int, a: seq<T>, b: seq<T>)
    requires multiset(a) == multiset(b)
    ensures SumBy(f, a) == SumBy(f, b)
    decreases |a|
  {
    if |a| == 0 {
      assert |multiset(b)| == 0;
    } else {
      var x := a[|a| - 1];
      assert x in multiset(a);
      var i :| 0 <= i < |b| && b[i] == x;
      var a', b' := a[..|a| - 1], b[..i] + b[i + 1..];
      assert a == a' + [x];
      assert b == b[..i] + [x] + b[i + 1..];
      assert multiset(a') == multiset(a) - multiset{x};
      assert multiset(b') == multiset(b[..i]) + multiset(b[i + 1..]) == multiset(b) - multiset{x};
      SumByPermutation(f, a', b');
      SumByRemove(f, b, i);
    }
  }

  lemma {:induction false} SumByLe<T>(f: T -> int, g: T -> int, s: seq<T>)
    requires forall i :: 0 <= i < |s| ==> f(s[i]) <= g(s[i])
    ensures SumBy(f, s) <= SumBy(g, s)
  {
    if |s| > 0 {
      SumByLe(f, g, s[..|s| - 1]);
    }
  }

  lemma {:induction false} SumByAgree<T>(f: T -> int, g: T -> int, s: seq<T>)
    requires forall i :: 0 <= i < |s| ==> f(s[i]) == g(s[i])
    ensures SumBy(f, s) == SumBy(g, s)
  {
    if |s| > 0 {
      SumByAgree(f, g, s[..|s| - 1]);
    }
  }

  lemma {:induction false} SumByZero<T>(f: T -> int, s: seq<T>)
    requires forall i :: 0 <= i < |s| ==> f(s[i]) == 0
    ensures SumBy(f, s) == 0
  {
    if |s| > 0 {
      SumByZero(f, s[..|s| - 1]);
    }
  }

  lemma {:induction false} SumByNonNegative<T>(f: T -> int, s: seq<T>)
    requires forall i :: 0 <= i < |s| ==> 0 <= f(s[i])
    ensures 0 <= SumBy(f, s)
    ensures forall i :: 0 <= i < |s| ==> f(s[i]) <= SumBy(f, s)
  {
    if |s| > 0 {
      SumByNonNegative(f, s[..|s| - 1]);
      forall i | 0 <= i < |s| - 1
        ensures f(s[i]) <= SumBy(f, s)
      {
        assert s[i] == s[..|s| - 1][i];
      }
    }
  }

  lemma {:induction false} SumByPositiveWitness<T>(f: T -> int, s: seq<T>) returns (i: nat)
    requires 0 < SumBy(f, s)
    ensures i < |s| && 0 < f(s[i])
  {
    if 0 < f(s[|s| - 1]) {
      i := |s| - 1;
    } else {
      i := SumByPositiveWitness(f, s[..|s| - 1]);
    }
  }

  lemma {:induction false} SumByPlus<T>(f: T -> int, g: T -> int, h: T -> int, s: seq<T>)
    requires forall x :: f(x) == g(x) + h(x)
    ensures SumBy(f, s) == SumBy(g, s) + SumBy(h, s)
  {
    if |s| > 0 {
      SumByPlus(f, g, h, s[..|s| - 1]);
    }
  }

  /** The sum of `f(t)` over the instants `t` of the half-open range `[lo, hi)`; zero when the range is empty. */
  function SumOver(f: int -> int, lo: int, hi: int): int
    decreases if hi <= lo then 0 else hi - lo
  {
    if hi <= lo then 0 else SumOver(f, lo, hi - 1) + f(hi - 1)
  }

  lemma {:induction false} SumOverSplit(f: int -> int, lo: int, mid: int, hi: int)
    requires lo <= mid <= hi
    ensures SumOver(f, lo, hi) == SumOver(f, lo, mid) + SumOver(f, mid, hi)
    decreases hi - mid
  {
    if mid < hi {
      SumOverSplit(f, lo, mid, hi - 1);
    }
  }

  lemma {:induction false} SumOverLe(f: int -> int, g: int -> int, lo: int, hi: int)
    requires forall t :: lo <= t < hi ==> f(t) <= g(t)
    ensures SumOver(f, lo, hi) <= SumOver(g, lo, hi)
    decreases if hi <= lo then 0 else hi - lo
  {
    if lo < hi {
      SumOverLe(f, g, lo, hi - 1);
    }
  }

  lemma {:induction false} SumOverAgree(f: int -> int, g: int -> int, lo: int, hi: int)
    requires forall t :: lo <= t < hi ==> f(t) == g(t)
    ensures SumOver(f, lo, hi) == SumOver(g, lo, hi)
    decreases if hi <= lo then 0 else hi - lo
  {
    if lo < hi {
      SumOverAgree(f, g, lo, hi - 1);
    }
  }

  lemma {:induction false} SumOverConst(f: int -> int, c: int, lo: int, hi: int)
    requires lo <= hi
    requires forall t :: lo <= t < hi ==> f(t) == c
    ensures SumOver(f, lo, hi) == c * (hi - lo)
    decreases hi - lo
  {
    if lo < hi {
      SumOverConst(f, c, lo, hi - 1);
    }
  }

  lemma SumOverZero(f: int -> int, lo: int, hi: int)
    requires forall t :: lo <= t < hi ==> f(t) == 0
    ensures SumOver(f, lo, hi) == 0
  {
    if lo <= hi {
      SumOverConst(f, 0, lo, hi);
    }
  }

  lemma {:induction false} SumOverPlus(f: int -> int, g: int -> int, h: int -> int, lo: int, hi: int)
    requires forall t :: lo <= t < hi ==> f(t) == g(t) + h(t)
    ensures SumOver(f, lo, hi) == SumOver(g, lo, hi) + SumOver(h, lo, hi)
    decreases if hi <= lo then 0 else hi - lo
  {
    if lo < hi {
      SumOverPlus(f, g, h, lo, hi - 1);
    }
  }

  lemma {:induction false} SumOverScale(f: int -> int, g: int -> int, c: int, lo: int, hi: int)
    requires forall t :: lo <= t < hi ==> f(t) == c * g(t)
    ensures SumOver(f, lo, hi) == c * SumOver(g, lo, hi)
    decreases if hi <= lo then 0 else hi - lo
  {
    if lo < hi {
      SumOverScale(f, g, c, lo, hi - 1);
      assert c * (SumOver(g, lo, hi - 1) + g(hi - 1)) == c * SumOver(g, lo, hi - 1) + c * g(hi - 1);
    }
  }

  /** Widening the range changes nothing when `f` vanishes outside it. */
  lemma SumOverSupport(f: int -> int, lo: int, hi: int, lo': int, hi': int)
    requires lo' <= lo <= hi <= hi'
    requires forall t :: lo' <= t < lo || hi <= t < hi' ==> f(t) == 0
    ensures SumOver(f, lo', hi') == SumOver(f, lo, hi)
  {
    SumOverSplit(f, lo', lo, hi');
    SumOverSplit(f, lo, hi, hi');
    SumOverConst(f, 0, lo', lo);
    SumOverConst(f, 0, hi, hi');
  }
}
