/** Sums of token figures over the elements of a sequence. */
module TokenSums {
  import opened Domain

  /** The sum of `f` over the elements of `s`, component by component. */
  function SumTokens<T>(f: T -> Tokens, s: seq<T>): Tokens {
    if |s| == 0 then NO_TOKENS else SumTokens(f, s[..|s| - 1]).Plus(f(s[|s| - 1]))
  }

  lemma SumTokensSnoc<T>(f: T -> Tokens, s: seq<T>, x: T)
    ensures SumTokens(f, s + [x]) == SumTokens(f, s).Plus(f(x))
  {
    assert (s + [x])[..|s|] == s;
  }

  lemma PlusLaws(a: Tokens, b: Tokens, c: Tokens)
    ensures a.Plus(b).Plus(c) == a.Plus(b.Plus(c)) == a.Plus(c).Plus(b)
    ensures a.Plus(NO_TOKENS) == a
  {
  }

  lemma {:induction false} SumTokensConcat<T>(f: T -> Tokens, a: seq<T>, b: seq<T>)
    ensures SumTokens(f, a + b) == SumTokens(f, a).Plus(SumTokens(f, b))
  {
    if |b| == 0 {
      assert a + b == a;
      PlusLaws(SumTokens(f, a), NO_TOKENS, NO_TOKENS);
    } else {
      var b', x := b[..|b| - 1], b[|b| - 1];
      SumTokensConcat(f, a, b');
      assert a + b == (a + b') + [x] && b == b' + [x];
      ConcatOneMore(f, a, b', x, a + b');
    }
  }

  lemma ConcatOneMore<T>(f: T -> Tokens, a: seq<T>, b: seq<T>, x: T, ab: seq<T>)
    requires SumTokens(f, ab) == SumTokens(f, a).Plus(SumTokens(f, b))
    ensures SumTokens(f, ab + [x]) == SumTokens(f, a).Plus(SumTokens(f, b + [x]))
  {
    SumTokensSnoc(f, ab, x);
    SumTokensSnoc(f, b, x);
    PlusLaws(SumTokens(f, a), SumTokens(f, b), f(x));
  }

  lemma SumTokensInsert<T>(f: T -> Tokens, front: seq<T>, x: T, back: seq<T>)
    ensures SumTokens(f, front + [x] + back) == SumTokens(f, front + back).Plus(f(x))
  {
    SumTokensConcat(f, front + [x], back);
    SumTokensSnoc(f, front, x);
    SumTokensConcat(f, front, back);
    PlusLaws(SumTokens(f, front), f(x), SumTokens(f, back));
  }

  /** A sum of tokens does not depend on the order of the elements. */
  lemma {:induction false} SumTokensPermutation<T>(f: T -> Tokens, a: seq<T>, b: seq<T>)
    requires multiset(a) == multiset(b)
    ensures SumTokens(f, a) == SumTokens(f, b)
    decreases |a|
  {
    if |a| == 0 {
      assert |multiset(b)| == 0;
    } else {
      var x := a[|a| - 1];
      assert x in multiset(a);
      var i :| 0 <= i < |b| && b[i] == x;
      var a', b' := a[..|a| - 1], b[..i] + b[i + 1..];
      assert a == a' + [x];
      assert b == b[..i] + [x] + b[i + 1..];
      assert multiset(a') == multiset(a) - multiset{x};
      assert multiset(b') == multiset(b[..i]) + multiset(b[i + 1..]) == multiset(b) - multiset{x};
      SumTokensPermutation(f, a', b');
      SumTokensInsert(f, b[..i], x, b[i + 1..]);
    }
  }

  lemma {:induction false} SumTokensAgree<T>(f: T -> Tokens, g: T -> Tokens, s: seq<T>)
    requires forall x :: x in s ==> f(x) == g(x)
    ensures SumTokens(f, s) == SumTokens(g, s)
  {
    if |s| > 0 {
      assert s == s[..|s| - 1] + [s[|s| - 1]];
      SumTokensAgree(f, g, s[..|s| - 1]);
    }
  }

  /** Two sums balance two others when they do so element by element. */
  lemma {:induction false} SumTokensBalance<T>(f: T -> Tokens, g: T -> Tokens, h: T -> Tokens, k: T -> Tokens,
                                               s: seq<T>)
    requires forall x :: x in s ==> f(x).Plus(g(x)) == h(x).Plus(k(x))
    ensures SumTokens(f, s).Plus(SumTokens(g, s)) == SumTokens(h, s).Plus(SumTokens(k, s))
  {
    if |s| > 0 {
      var front, x := s[..|s| - 1], s[|s| - 1];
      assert s == front + [x];
      SumTokensBalance(f, g, h, k, front);
      BalanceOneMore(SumTokens(f, front), SumTokens(g, front), SumTokens(h, front), SumTokens(k, front),
                     f(x), g(x), h(x), k(x));
    }
  }

  lemma BalanceOneMore(a: Tokens, b: Tokens, c: Tokens, d: Tokens, x: Tokens, y: Tokens, z: Tokens, w: Tokens)
    requires a.Plus(b) == c.Plus(d) && x.Plus(y) == z.Plus(w)
    ensures a.Plus(x).Plus(b.Plus(y)) == c.Plus(z).Plus(d.Plus(w))
  {
  }
}
