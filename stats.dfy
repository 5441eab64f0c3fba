/**
 The numeric reductions `getAnalytics` applies to lists of numbers:
 sums and averages (`reduce((sum, x) => sum + x, 0) / length`),
 `Math.min(...)` and `Math.max(...)`, a histogram made of one
 `filter(...).length` per slot, and the "first largest" fold used for
 `peakHour` and `peakDay`. Averages are exact `real` quotients.
 */
module Stats {
  import opened Filtering

  function Sum(s: seq<int>): int {
    if s == [] then 0 else s[0] + Sum(s[1..])
  }

  /** `Math.min(...s)`. */
  function MinOf(s: seq<int>): (m: int)
    requires s != []
    ensures m in s
    ensures forall i :: 0 <= i < |s| ==> m <= s[i]
  {
    if |s| == 1 then s[0]
    else
      var rest := MinOf(s[1..]);
      if s[0] <= rest then s[0] else rest
  }

  /** `Math.max(...s)`. */
  function MaxOf(s: seq<int>): (m: int)
    requires s != []
    ensures m in s
    ensures forall i :: 0 <= i < |s| ==> s[i] <= m
  {
    if |s| == 1 then s[0]
    else
      var rest := MaxOf(s[1..]);
      if s[0] >= rest then s[0] else rest
  }

  /** `s.length > 0 ? sum / s.length : 0`. */
  function Mean(s: seq<int>): real {
    if s == [] then 0.0 else Sum(s) as real / |s| as real
  }

  /** `s.length > 0 ? Math.min(...s) : 0`. */
  function MinOr0(s: seq<int>): int {
    if s == [] then 0 else MinOf(s)
  }

  /** `s.length > 0 ? Math.max(...s) : 0`. */
  function MaxOr0(s: seq<int>): int {
    if s == [] then 0 else MaxOf(s)
  }

  lemma {:induction false} SumBounds(s: seq<int>, lo: int, hi: int)
    requires forall i :: 0 <= i < |s| ==> lo <= s[i] <= hi
    ensures |s| * lo <= Sum(s) <= |s| * hi
    decreases |s|
  {
    if s != [] {
      SumBounds(s[1..], lo, hi);
    }
  }

  lemma QuotientBetween(lo: real, sum: real, hi: real, n: real)
    requires n > 0.0 && n * lo <= sum <= n * hi
    ensures lo <= sum / n <= hi
  {
    assert sum / n * n == sum;
  }

  lemma CastProduct(a: int, b: int)
    ensures (a * b) as real == a as real * b as real
  {
  }

  /** Bounds on a sum of `n` values bound its quotient by `n`. */
  lemma QuotientOfBounds(n: int, lo: int, sum: int, hi: int)
    requires n > 0 && n * lo <= sum <= n * hi
    ensures lo as real <= sum as real / n as real <= hi as real
  {
    CastProduct(n, lo);
    CastProduct(n, hi);
    var rn, rsum, rlo, rhi := n as real, sum as real, lo as real, hi as real;
    assert rn > 0.0;
    assert rn * rlo <= rsum <= rn * rhi;
    QuotientBetween(rlo, rsum, rhi, rn);
  }

  /** The average lies between the smallest and the largest value. */
  lemma MeanBetween(s: seq<int>)
    requires s != []
    ensures MinOf(s) as real <= Mean(s) <= MaxOf(s) as real
  {
    SumBounds(s, MinOf(s), MaxOf(s));
    QuotientOfBounds(|s|, MinOf(s), Sum(s), MaxOf(s));
  }

  /** `Array.from({length: n}, (_, j) => s.filter(x => slot(x) === j).length)`. */
  function Histogram<T>(s: seq<T>, slot: T -> int, n: nat): seq<nat> {
    seq(n, j requires 0 <= j < n => Count(s, x => slot(x) == j))
  }

  function SumNat(s: seq<nat>): nat {
    if s == [] then 0 else s[0] + SumNat(s[1..])
  }

  lemma {:induction false} SumNatAppend(s: seq<nat>, x: nat)
    ensures SumNat(s + [x]) == SumNat(s) + x
    decreases |s|
  {
    if s == [] {
      assert s + [x] == [x];
    } else {
      SumNatAppend(s[1..], x);
      assert (s + [x])[1..] == s[1..] + [x];
    }
  }

  /** The slots of a histogram add up to the elements whose slot is in range. */
  lemma {:induction false} HistogramSum<T>(s: seq<T>, slot: T -> int, n: nat)
    ensures SumNat(Histogram(s, slot, n)) == Count(s, x => 0 <= slot(x) < n)
    decreases n
  {
    if n == 0 {
      CountNone(s, x => 0 <= slot(x) < n);
    } else {
      HistogramSum(s, slot, n - 1);
      assert Histogram(s, slot, n) == Histogram(s, slot, n - 1) + [Count(s, x => slot(x) == n - 1)];
      SumNatAppend(Histogram(s, slot, n - 1), Count(s, x => slot(x) == n - 1));
      CountDisjoint(s, x => 0 <= slot(x) < n - 1, x => slot(x) == n - 1, x => 0 <= slot(x) < n);
    }
  }

  /** The slots of a histogram add up to the elements `inRange` keeps, when it keeps exactly those with a slot in range. */
  lemma HistogramTotal<T>(s: seq<T>, slot: T -> int, n: nat, inRange: T -> bool)
    requires forall x :: x in s ==> (inRange(x) <==> 0 <= slot(x) < n)
    ensures SumNat(Histogram(s, slot, n)) == Count(s, inRange)
  {
    HistogramSum(s, slot, n);
    FilterSame(s, x => 0 <= slot(x) < n, inRange);
  }

  /**
   `counts.reduce((peak, current) => current.count > peak.count ? current : peak)`:
   the position of the first largest count.
   */
  function PeakIndex(counts: seq<nat>): (r: nat)
    requires counts != []
    ensures r < |counts|
    ensures forall j :: 0 <= j < |counts| ==> counts[j] <= counts[r]
    ensures forall j :: 0 <= j < r ==> counts[j] < counts[r]
  {
    if |counts| == 1 then 0
    else
      var p := PeakIndex(counts[..|counts| - 1]);
      if counts[|counts| - 1] > counts[p] then |counts| - 1 else p
  }
}
