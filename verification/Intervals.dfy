/** Half-open intervals: clipping, the canonical union, and lengths as sums of coverage over instants. */
module Intervals {
  import opened Domain
  import opened Sums
  import Sorting

  datatype Interval = Interval(start: Time, end: Time)

  predicate Contains(iv: Interval, t: Time) {
    iv.start <= t < iv.end
  }

  function At(t: Time): Interval -> int {
    (iv: Interval) => if Contains(iv, t) then 1 else 0
  }

  /** How many of the intervals contain the instant `t`. */
  function Cov(ivs: seq<Interval>, t: Time): int {
    SumBy(At(t), ivs)
  }

  function CovOf(ivs: seq<Interval>): Time -> int {
    (t: Time) => Cov(ivs, t)
  }

  ghost predicate Covers(ivs: seq<Interval>, t: Time) {
    exists i :: 0 <= i < |ivs| && Contains(ivs[i], t)
  }

  function Covered(ivs: seq<Interval>): Time -> int {
    (t: Time) => if Cov(ivs, t) > 0 then 1 else 0
  }

  function Length(): Interval -> int {
    (iv: Interval) => iv.end - iv.start
  }

  /** Sorted, non-empty and strictly separated. */
  ghost predicate Canonical(ivs: seq<Interval>) {
    && (forall i :: 0 <= i < |ivs| ==> ivs[i].start < ivs[i].end)
    && (forall i, j :: 0 <= i < j < |ivs| ==> ivs[i].end < ivs[j].start)
  }

  ghost predicate SameCover(a: seq<Interval>, b: seq<Interval>) {
    forall t :: Covers(a, t) <==> Covers(b, t)
  }

  /** The part of `iv` inside the window `[from, to)`, and whether anything is left of it. */
  function Clip(iv: Interval, from: Time, to: Time): (r: (Interval, bool))
    ensures forall t :: Contains(r.0, t) <==> Contains(iv, t) && from <= t < to
    ensures r.1 <==> exists t :: Contains(iv, t) && from <= t < to
  {
    var start := if iv.start < from then from else iv.start;
    var end := if iv.end > to then to else iv.end;
    var r := Interval(start, end);
    assert start < end ==> Contains(iv, start) && from <= start < to;
    (r, end > start)
  }

  lemma {:induction false} CoversIffPositive(ivs: seq<Interval>, t: Time)
    ensures 0 <= Cov(ivs, t)
    ensures Covers(ivs, t) <==> Cov(ivs, t) > 0
  {
    if |ivs| > 0 {
      var ivs', iv := ivs[..|ivs| - 1], ivs[|ivs| - 1];
      assert ivs == ivs' + [iv];
      CoversSnoc(ivs', iv, t);
      CoversIffPositive(ivs', t);
    }
  }

  lemma CoversSnoc(ivs: seq<Interval>, iv: Interval, t: Time)
    ensures Covers(ivs + [iv], t) <==> Covers(ivs, t) || Contains(iv, t)
  {
    var s := ivs + [iv];
    if Covers(ivs, t) {
      var i :| 0 <= i < |ivs| && Contains(ivs[i], t);
      assert Contains(s[i], t);
    }
    assert s[|ivs|] == iv;
  }

  lemma CoversPermutation(a: seq<Interval>, b: seq<Interval>)
    requires multiset(a) == multiset(b)
    ensures SameCover(a, b)
  {
    forall t
      ensures Covers(a, t) <==> Covers(b, t)
    {
      SumByPermutation(At(t), a, b);
      CoversIffPositive(a, t);
      CoversIffPositive(b, t);
    }
  }

  // ----- The canonical form is unique -----

  lemma HeadEarliest(a: seq<Interval>, t: Time)
    requires Canonical(a) && Covers(a, t)
    ensures a[0].start <= t
  {
    var i :| 0 <= i < |a| && Contains(a[i], t);
    assert i > 0 ==> a[0].end < a[i].start;
  }

  lemma NotCoveredAtHeadEnd(a: seq<Interval>)
    requires Canonical(a) && |a| > 0
    ensures !Covers(a, a[0].end)
    ensures forall t :: a[0].start <= t < a[0].end ==> Covers(a, t)
  {
    forall t | a[0].start <= t < a[0].end
      ensures Covers(a, t)
    {
      assert Contains(a[0], t);
    }
  }

  lemma CoversTail(a: seq<Interval>, t: Time)
    requires Canonical(a) && |a| > 0
    ensures Canonical(a[1..])
    ensures Covers(a[1..], t) <==> Covers(a, t) && !Contains(a[0], t)
  {
    var s := a[1..];
    if Covers(s, t) {
      var i :| 0 <= i < |s| && Contains(s[i], t);
      assert a[i + 1] == s[i] && a[0].end < a[i + 1].start;
    }
    if Covers(a, t) && !Contains(a[0], t) {
      var i :| 0 <= i < |a| && Contains(a[i], t);
      assert s[i - 1] == a[i];
    }
  }

  lemma HeadsEqual(a: seq<Interval>, b: seq<Interval>)
    requires Canonical(a) && Canonical(b) && SameCover(a, b)
    requires |a| > 0 && |b| > 0
    ensures a[0] == b[0]
  {
    NotCoveredAtHeadEnd(a);
    NotCoveredAtHeadEnd(b);
    assert Covers(a, a[0].start) && Covers(b, b[0].start);
    HeadEarliest(b, a[0].start);
    HeadEarliest(a, b[0].start);
    assert !Covers(b, a[0].end) && !Covers(a, b[0].end);
  }

  /** A set of instants has one canonical list of intervals. */
  lemma {:induction false} CanonicalUnique(a: seq<Interval>, b: seq<Interval>)
    requires Canonical(a) && Canonical(b) && SameCover(a, b)
    ensures a == b
    decreases |a|
  {
    if |a| > 0 && |b| > 0 {
      HeadsEqual(a, b);
      forall t
        ensures Covers(a[1..], t) <==> Covers(b[1..], t)
      {
        CoversTail(a, t);
        CoversTail(b, t);
      }
      CoversTail(a, 0);
      CoversTail(b, 0);
      CanonicalUnique(a[1..], b[1..]);
      assert a == [a[0]] + a[1..] && b == [b[0]] + b[1..];
    } else {
      NonEmptyCovers(a);
      NonEmptyCovers(b);
    }
  }

  lemma NonEmptyCovers(a: seq<Interval>)
    requires Canonical(a)
    ensures |a| > 0 <==> exists t :: Covers(a, t)
  {
    if |a| > 0 {
      NotCoveredAtHeadEnd(a);
      assert Covers(a, a[0].start);
    }
  }

  // ----- Lengths are sums of coverage -----

  lemma {:induction false} LengthsAreCoverage(ivs: seq<Interval>, lo: Time, hi: Time)
    requires lo <= hi
    requires forall i :: 0 <= i < |ivs| ==> lo <= ivs[i].start <= ivs[i].end <= hi
    ensures SumBy(Length(), ivs) == SumOver(CovOf(ivs), lo, hi)
  {
    if |ivs| == 0 {
      SumOverConst(CovOf(ivs), 0, lo, hi);
    } else {
      var ivs', iv := ivs[..|ivs| - 1], ivs[|ivs| - 1];
      LengthsAreCoverage(ivs', lo, hi);
      var one := (t: Time) => if Contains(iv, t) then 1 else 0;
      SumOverConst(one, 1, iv.start, iv.end);
      SumOverSupport(one, iv.start, iv.end, lo, hi);
      assert forall t :: CovOf(ivs)(t) == CovOf(ivs')(t) + one(t);
      SumOverPlus(CovOf(ivs), CovOf(ivs'), one, lo, hi);
    }
  }

  lemma {:induction false} CanonicalCovAtMostOne(ivs: seq<Interval>, t: Time)
    requires Canonical(ivs)
    ensures 0 <= Cov(ivs, t) <= 1
  {
    if |ivs| > 0 {
      var ivs', iv := ivs[..|ivs| - 1], ivs[|ivs| - 1];
      CanonicalCovAtMostOne(ivs', t);
      CoversIffPositive(ivs', t);
      if Covers(ivs', t) {
        var i :| 0 <= i < |ivs'| && Contains(ivs'[i], t);
        assert ivs[i].end < iv.start;
      }
    }
  }

  lemma CanonicalBounds(m: seq<Interval>, ivs: seq<Interval>, lo: Time, hi: Time)
    requires Canonical(m) && SameCover(m, ivs)
    requires forall i :: 0 <= i < |ivs| ==> lo <= ivs[i].start && ivs[i].end <= hi
    ensures forall i :: 0 <= i < |m| ==> lo <= m[i].start <= m[i].end <= hi
  {
    forall i | 0 <= i < |m|
      ensures lo <= m[i].start <= m[i].end <= hi
    {
      assert Contains(m[i], m[i].start) && Contains(m[i], m[i].end - 1);
      assert Covers(m, m[i].start) && Covers(m, m[i].end - 1);
      assert Covers(ivs, m[i].start) && Covers(ivs, m[i].end - 1);
    }
  }

  /** The length of the union counts every covered instant exactly once. */
  lemma UnionLength(m: seq<Interval>, ivs: seq<Interval>, lo: Time, hi: Time)
    requires lo <= hi
    requires Canonical(m) && SameCover(m, ivs)
    requires forall i :: 0 <= i < |ivs| ==> lo <= ivs[i].start && ivs[i].end <= hi
    ensures SumBy(Length(), m) == SumOver(Covered(ivs), lo, hi)
  {
    CanonicalBounds(m, ivs, lo, hi);
    LengthsAreCoverage(m, lo, hi);
    forall t | lo <= t < hi
      ensures CovOf(m)(t) == Covered(ivs)(t)
    {
      CanonicalCovAtMostOne(m, t);
      CoversIffPositive(m, t);
      CoversIffPositive(ivs, t);
    }
    SumOverAgree(CovOf(m), Covered(ivs), lo, hi);
  }

  // ----- Merge and Duration -----

  predicate StartEndLe(a: Interval, b: Interval) {
    a.start < b.start || (a.start == b.start && a.end <= b.end)
  }

  lemma StartEndLeTotal()
    ensures Sorting.TotalPreorder(StartEndLe)
  {
  }

  lemma MergeAppend(merged: seq<Interval>, done: seq<Interval>, iv: Interval)
    requires Canonical(merged) && SameCover(merged, done)
    requires iv.start < iv.end
    requires |merged| > 0 ==> merged[|merged| - 1].end < iv.start
    ensures Canonical(merged + [iv]) && SameCover(merged + [iv], done + [iv])
  {
    forall t
      ensures Covers(merged + [iv], t) <==> Covers(done + [iv], t)
    {
      CoversSnoc(merged, iv, t);
      CoversSnoc(done, iv, t);
    }
  }

  /** Extending the last interval to the later of the two ends absorbs an interval that touches it. */
  lemma MergeExtend(merged: seq<Interval>, done: seq<Interval>, iv: Interval, merged': seq<Interval>)
    requires Canonical(merged) && SameCover(merged, done)
    requires |merged| > 0
    requires
      var last := merged[|merged| - 1];
      && last.start <= iv.start <= last.end
      && merged' == merged[|merged| - 1 := Interval(last.start, if iv.end > last.end then iv.end else last.end)]
    ensures Canonical(merged') && SameCover(merged', done + [iv])
  {
    var init, last := merged[..|merged| - 1], merged[|merged| - 1];
    var grown := merged'[|merged| - 1];
    assert merged == init + [last] && merged' == init + [grown];
    forall t
      ensures Covers(merged', t) <==> Covers(done + [iv], t)
    {
      CoversSnoc(init, last, t);
      CoversSnoc(init, grown, t);
      CoversSnoc(done, iv, t);
    }
  }

  method Merge(intervals: seq<Interval>) returns (merged: seq<Interval>)
    ensures Canonical(merged)
    ensures SameCover(merged, intervals)
  {
    var valid: seq<Interval> := [];
    for i := 0 to |intervals|
      invariant SameCover(valid, intervals[..i])
      invariant forall k :: 0 <= k < |valid| ==> valid[k].start < valid[k].end
    {
      var iv := intervals[i];
      assert intervals[..i + 1] == intervals[..i] + [iv];
      forall t
        ensures Covers(valid + [iv], t) <==> Covers(valid, t) || Contains(iv, t)
        ensures Covers(intervals[..i + 1], t) <==> Covers(intervals[..i], t) || Contains(iv, t)
      {
        CoversSnoc(valid, iv, t);
        CoversSnoc(intervals[..i], iv, t);
      }
      if iv.end > iv.start {
        valid := valid + [iv];
      }
    }
    assert intervals[..|intervals|] == intervals;
    var sorted := SortIntervals(valid);
    merged := [];
    for i := 0 to |sorted|
      invariant Canonical(merged) && SameCover(merged, sorted[..i])
      invariant |merged| > 0 && i < |sorted| ==> merged[|merged| - 1].start <= sorted[i].start
    {
      var iv := sorted[i];
      assert sorted[..i + 1] == sorted[..i] + [iv];
      assert i + 1 < |sorted| ==> StartEndLe(iv, sorted[i + 1]);
      if |merged| == 0 || iv.start > merged[|merged| - 1].end {
        MergeAppend(merged, sorted[..i], iv);
        merged := merged + [iv];
      } else {
        var last := merged[|merged| - 1];
        MergeExtend(merged, sorted[..i], iv,
                    merged[|merged| - 1 := Interval(last.start, if iv.end > last.end then iv.end else last.end)]);
        if iv.end > last.end {
          merged := merged[|merged| - 1 := last.(end := iv.end)];
        } else {
          assert merged == merged[|merged| - 1 := Interval(last.start, last.end)];
        }
      }
    }
    assert sorted[..|sorted|] == sorted;
  }

  method SortIntervals(valid: seq<Interval>) returns (sorted: seq<Interval>)
    requires forall k :: 0 <= k < |valid| ==> valid[k].start < valid[k].end
    ensures Sorting.SortedBy(StartEndLe, sorted)
    ensures SameCover(sorted, valid)
    ensures forall k :: 0 <= k < |sorted| ==> sorted[k].start < sorted[k].end
  {
    StartEndLeTotal();
    sorted := Sorting.Sort(StartEndLe, valid);
    Sorting.SortSorts(StartEndLe, valid);
    Sorting.SortPermutes(StartEndLe, valid);
    CoversPermutation(sorted, valid);
    forall k | 0 <= k < |sorted|
      ensures sorted[k].start < sorted[k].end
    {
      assert sorted[k] in multiset(sorted);
    }
  }

  method Duration(intervals: seq<Interval>) returns (total: int)
    ensures total == SumBy(Length(), intervals)
  {
    total := 0;
    for i := 0 to |intervals|
      invariant total == SumBy(Length(), intervals[..i])
    {
      SumBySnoc(Length(), intervals[..i], intervals[i]);
      assert intervals[..i + 1] == intervals[..i] + [intervals[i]];
      total := total + (intervals[i].end - intervals[i].start);
    }
    assert intervals[..|intervals|] == intervals;
  }
}
