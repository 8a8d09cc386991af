/** The sweep line over interval end points: prefix sums of the deltas are the coverage between them. */
module Sweep {
  import opened Domain
  import opened Sums
  import opened Intervals
  import Sorting

  datatype Point = Point(at: Time, delta: int)

  /** Sweep order: by instant, and at one instant every end before every start. */
  predicate PointLe(a: Point, b: Point) {
    a.at < b.at || (a.at == b.at && a.delta <= b.delta)
  }

  function PointsOf(ivs: seq<Interval>): seq<Point> {
    if |ivs| == 0 then []
    else
      var iv := ivs[|ivs| - 1];
      PointsOf(ivs[..|ivs| - 1]) + [Point(iv.start, 1), Point(iv.end, -1)]
  }

  ghost predicate NonEmptyIn(ivs: seq<Interval>, lo: Time, hi: Time) {
    forall i :: 0 <= i < |ivs| ==> lo <= ivs[i].start < ivs[i].end <= hi
  }

  /** `pts` is the sweep order of the end points of `ivs`. */
  ghost predicate SweepOf(pts: seq<Point>, ivs: seq<Interval>) {
    && Sorting.SortedBy(PointLe, pts)
    && multiset(pts) == multiset(PointsOf(ivs))
    && (forall i :: 0 <= i < |pts| ==> pts[i].delta == 1 || pts[i].delta == -1)
    && (forall i :: 0 <= i < |ivs| ==> ivs[i].start < ivs[i].end)
  }

  function Delta(): Point -> int {
    (p: Point) => p.delta
  }

  /** The number of intervals open after the first `i` points. */
  function Open(pts: seq<Point>, i: nat): int
    requires i <= |pts|
  {
    SumBy(Delta(), pts[..i])
  }

  function UpTo(t: Time): Point -> int {
    (p: Point) => if p.at <= t then p.delta else 0
  }

  /** Starts strictly before `t` minus ends up to and including `t`. */
  function Outlasting(t: Time): Point -> int {
    (p: Point) => if p.delta == 1 then (if p.at < t then 1 else 0) else if p.at <= t then -1 else 0
  }

  lemma SumByTwo(f: Point -> int, s: seq<Point>, a: Point, b: Point)
    ensures SumBy(f, s + [a, b]) == SumBy(f, s) + f(a) + f(b)
  {
    assert s + [a, b] == s + [a] + [b];
    SumBySnoc(f, s, a);
    SumBySnoc(f, s + [a], b);
  }

  lemma {:induction false} PointSums(ivs: seq<Interval>, t: Time)
    requires forall i :: 0 <= i < |ivs| ==> ivs[i].start < ivs[i].end
    ensures SumBy(UpTo(t), PointsOf(ivs)) == Cov(ivs, t)
    ensures SumBy(Outlasting(t), PointsOf(ivs)) >= 0
    ensures SumBy(Delta(), PointsOf(ivs)) == 0
  {
    if |ivs| > 0 {
      var ivs', iv := ivs[..|ivs| - 1], ivs[|ivs| - 1];
      PointSums(ivs', t);
      SumByTwo(UpTo(t), PointsOf(ivs'), Point(iv.start, 1), Point(iv.end, -1));
      SumByTwo(Outlasting(t), PointsOf(ivs'), Point(iv.start, 1), Point(iv.end, -1));
      SumByTwo(Delta(), PointsOf(ivs'), Point(iv.start, 1), Point(iv.end, -1));
    }
  }

  lemma SweepSums(pts: seq<Point>, ivs: seq<Interval>, t: Time)
    requires SweepOf(pts, ivs)
    ensures SumBy(UpTo(t), pts) == Cov(ivs, t)
    ensures SumBy(Outlasting(t), pts) >= 0
    ensures Open(pts, |pts|) == 0
  {
    PointSums(ivs, t);
    SumByPermutation(UpTo(t), pts, PointsOf(ivs));
    SumByPermutation(Outlasting(t), pts, PointsOf(ivs));
    SumByPermutation(Delta(), pts, PointsOf(ivs));
    assert pts[..|pts|] == pts;
  }

  /** A sum whose summands agree with the deltas on the first `i` points. */
  lemma SplitAtPrefix(f: Point -> int, pts: seq<Point>, i: nat)
    requires i <= |pts|
    requires forall k :: 0 <= k < i ==> f(pts[k]) == pts[k].delta
    ensures SumBy(f, pts) == Open(pts, i) + SumBy(f, pts[i..])
  {
    assert pts == pts[..i] + pts[i..];
    SumByConcat(f, pts[..i], pts[i..]);
    SumByAgree(f, Delta(), pts[..i]);
  }

  lemma {:induction false} SumBySign(f: Point -> int, s: seq<Point>)
    ensures (forall p :: p in s ==> f(p) <= 0) ==> SumBy(f, s) <= 0
    ensures (forall p :: p in s ==> f(p) >= 0) ==> SumBy(f, s) >= 0
  {
    if |s| > 0 {
      SumBySign(f, s[..|s| - 1]);
      assert s[|s| - 1] in s;
    }
  }

  lemma SortedAround(pts: seq<Point>, i: nat)
    requires Sorting.SortedBy(PointLe, pts) && i < |pts|
    ensures forall k :: 0 <= k <= i ==> PointLe(pts[k], pts[i])
    ensures forall p :: p in pts[i..] ==> PointLe(pts[i], p)
  {
  }

  /** `i` points lie at or before `t`. */
  ghost predicate Between(pts: seq<Point>, i: nat, t: Time) {
    && i <= |pts|
    && (i > 0 ==> pts[i - 1].at <= t)
    && (i < |pts| ==> t < pts[i].at)
  }

  lemma CoverageBetween(pts: seq<Point>, ivs: seq<Interval>, i: nat, t: Time)
    requires SweepOf(pts, ivs) && Between(pts, i, t)
    ensures Cov(ivs, t) == Open(pts, i)
  {
    SweepSums(pts, ivs, t);
    if i > 0 {
      SortedAround(pts, i - 1);
    }
    if i < |pts| {
      SortedAround(pts, i);
    }
    SplitAtPrefix(UpTo(t), pts, i);
    SumBySign(UpTo(t), pts[i..]);
  }

  lemma {:induction false} FindBetween(pts: seq<Point>, n: nat, t: Time) returns (i: nat)
    requires n <= |pts| && (n < |pts| ==> t < pts[n].at)
    ensures i <= n && Between(pts, i, t)
  {
    if n == 0 || pts[n - 1].at <= t {
      i := n;
    } else {
      i := FindBetween(pts, n - 1, t);
    }
  }

  /** Because ends come first, the counter reached at a start never exceeds the coverage at that instant. */
  lemma OpenAtStart(pts: seq<Point>, ivs: seq<Interval>, i: nat)
    requires SweepOf(pts, ivs) && i < |pts| && pts[i].delta == 1
    ensures Open(pts, i + 1) <= Cov(ivs, pts[i].at)
  {
    var t := pts[i].at;
    SweepSums(pts, ivs, t);
    SortedAround(pts, i);
    SplitAtPrefix(UpTo(t), pts, i + 1);
    assert forall p :: p in pts[i + 1..] ==> p in pts[i..];
    SumBySign(UpTo(t), pts[i + 1..]);
  }

  /** The counter is never negative, at any point of the sweep. */
  lemma OpenNonNegative(pts: seq<Point>, ivs: seq<Interval>, i: nat)
    requires SweepOf(pts, ivs) && i <= |pts|
    ensures 0 <= Open(pts, i)
  {
    if i > 0 && pts[i - 1].delta == 1 {
      OpenNonNegative(pts, ivs, i - 1);
      OpenStep(pts, i - 1);
    } else if i > 0 {
      var t := pts[i - 1].at;
      SweepSums(pts, ivs, t);
      SortedAround(pts, i - 1);
      SplitAtPrefix(Outlasting(t), pts, i);
      assert forall p :: p in pts[i..] ==> p in pts[i - 1..];
      SumBySign(Outlasting(t), pts[i..]);
    }
  }

  lemma OpenStep(pts: seq<Point>, i: nat)
    requires i < |pts|
    ensures Open(pts, i + 1) == Open(pts, i) + pts[i].delta
  {
    assert pts[..i + 1] == pts[..i] + [pts[i]];
    SumBySnoc(Delta(), pts[..i], pts[i]);
  }

  /** The area between two consecutive points is the counter times their distance. */
  lemma AreaStep(pts: seq<Point>, ivs: seq<Interval>, i: nat)
    requires SweepOf(pts, ivs) && 0 < i < |pts|
    ensures pts[i - 1].at <= pts[i].at
    ensures SumOver(CovOf(ivs), pts[0].at, pts[i].at) ==
            SumOver(CovOf(ivs), pts[0].at, pts[i - 1].at) + Open(pts, i) * (pts[i].at - pts[i - 1].at)
  {
    assert PointLe(pts[i - 1], pts[i]);
    assert i > 1 ==> PointLe(pts[0], pts[i - 1]);
    forall t | pts[i - 1].at <= t < pts[i].at
      ensures CovOf(ivs)(t) == Open(pts, i)
    {
      CoverageBetween(pts, ivs, i, t);
    }
    SumOverConst(CovOf(ivs), Open(pts, i), pts[i - 1].at, pts[i].at);
    SumOverSplit(CovOf(ivs), pts[0].at, pts[i - 1].at, pts[i].at);
  }

  lemma AreaWhole(pts: seq<Point>, ivs: seq<Interval>, lo: Time, hi: Time)
    requires SweepOf(pts, ivs) && |pts| > 0
    requires lo <= pts[0].at && pts[|pts| - 1].at <= hi
    ensures SumOver(CovOf(ivs), lo, hi) == SumOver(CovOf(ivs), pts[0].at, pts[|pts| - 1].at)
  {
    var n := |pts|;
    assert n > 1 ==> PointLe(pts[0], pts[n - 1]);
    forall t | lo <= t < pts[0].at || pts[n - 1].at <= t < hi
      ensures CovOf(ivs)(t) == 0
    {
      SweepSums(pts, ivs, t);
      CoverageBetween(pts, ivs, if t < pts[0].at then 0 else n, t);
    }
    SumOverSupport(CovOf(ivs), pts[0].at, pts[n - 1].at, lo, hi);
  }

  ghost predicate IsPeak(peak: int, ivs: seq<Interval>) {
    && (forall t :: Cov(ivs, t) <= peak)
    && exists t :: Cov(ivs, t) == peak
  }

  lemma PeakFromCounter(pts: seq<Point>, ivs: seq<Interval>, peak: int, at: Time)
    requires SweepOf(pts, ivs)
    requires forall j :: 0 <= j <= |pts| ==> Open(pts, j) <= peak
    requires peak <= Cov(ivs, at)
    ensures IsPeak(peak, ivs)
  {
    forall t
      ensures Cov(ivs, t) <= peak
    {
      var j := FindBetween(pts, |pts|, t);
      CoverageBetween(pts, ivs, j, t);
    }
    assert Cov(ivs, at) == peak;
  }

  lemma {:induction false} PointsWithin(ivs: seq<Interval>, lo: Time, hi: Time)
    requires NonEmptyIn(ivs, lo, hi)
    ensures forall p :: p in PointsOf(ivs) ==> lo <= p.at <= hi && (p.delta == 1 || p.delta == -1)
    ensures |PointsOf(ivs)| == 2 * |ivs|
  {
    if |ivs| > 0 {
      PointsWithin(ivs[..|ivs| - 1], lo, hi);
    }
  }

  method SortPoints(points: seq<Point>, ghost ivs: seq<Interval>, ghost lo: Time, ghost hi: Time)
      returns (pts: seq<Point>)
    requires NonEmptyIn(ivs, lo, hi) && points == PointsOf(ivs)
    ensures SweepOf(pts, ivs)
    ensures forall i :: 0 <= i < |pts| ==> lo <= pts[i].at <= hi
    ensures |pts| == 2 * |ivs|
  {
    assert Sorting.TotalPreorder(PointLe);
    pts := Sorting.Sort(PointLe, points);
    Sorting.SortSorts(PointLe, points);
    Sorting.SortPermutes(PointLe, points);
    PointsWithin(ivs, lo, hi);
    assert |multiset(pts)| == |multiset(points)|;
    forall i | 0 <= i < |pts|
      ensures pts[i] in points
    {
      assert pts[i] in multiset(pts);
    }
  }

  /** The area swept before point `i`. */
  ghost function AreaTo(pts: seq<Point>, ivs: seq<Interval>, i: nat): int
    requires i <= |pts|
  {
    if i == 0 then 0 else SumOver(CovOf(ivs), pts[0].at, pts[i - 1].at)
  }

  ghost predicate OpenWithin(pts: seq<Point>, i: nat, peak: int)
    requires i <= |pts|
  {
    forall j :: 0 <= j <= i ==> Open(pts, j) <= peak
  }

  /** Passing one point: the area grows by the open intervals, and a new peak is reached only at a start. */
  lemma SweepStep(pts: seq<Point>, ivs: seq<Interval>, i: nat, peak: int)
    requires SweepOf(pts, ivs) && i < |pts| && OpenWithin(pts, i, peak)
    ensures Open(pts, i + 1) == Open(pts, i) + pts[i].delta >= 0
    ensures AreaTo(pts, ivs, i + 1) ==
              AreaTo(pts, ivs, i) + if i > 0 then Open(pts, i) * (pts[i].at - pts[i - 1].at) else 0
    ensures Open(pts, i + 1) <= peak ==> OpenWithin(pts, i + 1, peak)
    ensures Open(pts, i + 1) > peak ==>
              OpenWithin(pts, i + 1, Open(pts, i + 1)) && Open(pts, i + 1) <= Cov(ivs, pts[i].at)
  {
    OpenStep(pts, i);
    OpenNonNegative(pts, ivs, i + 1);
    if i > 0 {
      AreaStep(pts, ivs, i);
    }
    if Open(pts, i + 1) > peak {
      OpenAtStart(pts, ivs, i);
    }
  }

  /** The sweep that ends `Summarize`: the peak of the coverage and its area, in one pass. */
  method SweepLine(points: seq<Point>, ghost ivs: seq<Interval>, ghost lo: Time, ghost hi: Time)
      returns (peak: int, weighted: int)
    requires lo <= hi && NonEmptyIn(ivs, lo, hi) && points == PointsOf(ivs)
    ensures weighted == SumOver(CovOf(ivs), lo, hi)
    ensures IsPeak(peak, ivs)
  {
    var pts := SortPoints(points, ivs, lo, hi);
    peak, weighted := 0, 0;
    var active := 0;
    ghost var at := lo - 1;
    assert Open(pts, 0) == 0;
    CoverageBefore(ivs, lo, hi);
    for i := 0 to |pts|
      invariant active == Open(pts, i) >= 0
      invariant weighted == AreaTo(pts, ivs, i)
      invariant OpenWithin(pts, i, peak)
      invariant peak <= Cov(ivs, at)
    {
      SweepStep(pts, ivs, i, peak);
      if i > 0 {
        weighted := weighted + active * (pts[i].at - pts[i - 1].at);
      }
      active := active + pts[i].delta;
      if active > peak {
        peak, at := active, pts[i].at;
      }
    }
    SweepEnds(pts, ivs, lo, hi, peak, at);
    assert active == 0;
  }

  lemma SweepEnds(pts: seq<Point>, ivs: seq<Interval>, lo: Time, hi: Time, peak: int, at: Time)
    requires lo <= hi && SweepOf(pts, ivs) && |pts| == 2 * |ivs|
    requires forall i :: 0 <= i < |pts| ==> lo <= pts[i].at <= hi
    requires OpenWithin(pts, |pts|, peak)
    requires peak <= Cov(ivs, at)
    ensures Open(pts, |pts|) == 0
    ensures IsPeak(peak, ivs)
    ensures SumOver(CovOf(ivs), lo, hi) == AreaTo(pts, ivs, |pts|)
  {
    SweepSums(pts, ivs, lo);
    PeakFromCounter(pts, ivs, peak, at);
    AreaFinal(pts, ivs, lo, hi);
  }

  lemma AreaFinal(pts: seq<Point>, ivs: seq<Interval>, lo: Time, hi: Time)
    requires lo <= hi && SweepOf(pts, ivs) && |pts| == 2 * |ivs|
    requires forall i :: 0 <= i < |pts| ==> lo <= pts[i].at <= hi
    ensures SumOver(CovOf(ivs), lo, hi) == if |pts| == 0 then 0 else SumOver(CovOf(ivs), pts[0].at, pts[|pts| - 1].at)
  {
    if |pts| == 0 {
      SumOverConst(CovOf(ivs), 0, lo, hi);
    } else {
      AreaWhole(pts, ivs, lo, hi);
    }
  }

  lemma CoverageBefore(ivs: seq<Interval>, lo: Time, hi: Time)
    requires NonEmptyIn(ivs, lo, hi)
    ensures Cov(ivs, lo - 1) == 0
  {
    CoversIffPositive(ivs, lo - 1);
  }
}
