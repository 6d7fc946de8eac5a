/** The interpolated percentile of the parallel benchmark and the nearest-rank percentile of the timing
    report, over the reals. */
module Percentile {
  import opened Sorting

  function Value(x: real): real { x }

  function SortedValues(values: seq<real>): seq<real> { SortBy(values, Value) }

  function Rank(n: nat, pct: real): real
    requires n > 0
  {
    pct / 100.0 * (n - 1) as real
  }

  function Mix(a: real, b: real, f: real): real { a + (b - a) * f }

  /** `s[lo] + (s[hi] - s[lo]) * frac`, with `hi` clamped to the last index. */
  function Interpolated(s: seq<real>, rank: real): real
    requires s != [] && 0.0 <= rank <= (|s| - 1) as real
  {
    var lo := rank.Floor;
    var hi := if lo + 1 <= |s| - 1 then lo + 1 else |s| - 1;
    Mix(s[lo], s[hi], rank - lo as real)
  }

  lemma RankInRange(n: nat, pct: real)
    requires n > 0 && 0.0 <= pct <= 100.0
    ensures 0.0 <= Rank(n, pct) <= (n - 1) as real
  {
    var share := pct / 100.0;
    Product(share, (n - 1) as real);
    assert Rank(n, pct) == share * (n - 1) as real;
  }

  lemma Product(share: real, n: real)
    requires 0.0 <= share <= 1.0 && n >= 0.0
    ensures 0.0 <= share * n <= n
  {
    assert n - share * n == (1.0 - share) * n;
  }

  function PercentileOf(values: seq<real>, pct: real): real
    requires 0.0 <= pct <= 100.0
  {
    if values == [] then 0.0
    else
      var s := SortedValues(values);
      SortBySorts(values, Value);
      assert |multiset(s)| == |s| == |values|;
      RankInRange(|s|, pct);
      if |s| == 1 then s[0] else Interpolated(s, Rank(|s|, pct))
  }

  ghost predicate Rising(s: seq<real>) {
    forall i, j :: 0 <= i <= j < |s| ==> s[i] <= s[j]
  }

  lemma Between(a: real, b: real, f: real)
    requires a <= b && 0.0 <= f <= 1.0
    ensures a <= Mix(a, b, f) <= b
  {
    var d := b - a;
    assert d * f >= 0.0 && d * (1.0 - f) >= 0.0;
    assert d * (1.0 - f) == d - d * f;
  }

  /** The result lies between the order statistics on either side of the rank. */
  lemma LiesBetweenNeighbours(s: seq<real>, rank: real)
    requires s != [] && Rising(s) && 0.0 <= rank <= (|s| - 1) as real
    ensures
      var lo := rank.Floor;
      s[lo] <= Interpolated(s, rank) && (lo + 1 < |s| ==> Interpolated(s, rank) <= s[lo+1])
  {
    var lo := rank.Floor;
    var hi := if lo + 1 <= |s| - 1 then lo + 1 else |s| - 1;
    Between(s[lo], s[hi], rank - lo as real);
  }

  lemma WholeRank(s: seq<real>, k: nat)
    requires k < |s|
    ensures Interpolated(s, k as real) == s[k]
  {
    var hi := if k + 1 <= |s| - 1 then k + 1 else |s| - 1;
    Times0(s[hi] - s[k]);
  }

  /** Between two neighbouring ranks the result is their weighted mean. */
  lemma AffineInRank(s: seq<real>, k: nat, f: real)
    requires k + 1 < |s| && 0.0 <= f <= 1.0
    ensures Interpolated(s, k as real + f) == s[k] * (1.0 - f) + s[k+1] * f
  {
    if f < 1.0 {
      assert (k as real + f).Floor == k;
      MixIsMean(s[k], s[k+1], f);
    } else {
      WholeRank(s, k + 1);
      assert k as real + f == (k + 1) as real;
      MixIsMean(s[k], s[k+1], 1.0);
    }
  }

  lemma MixIsMean(a: real, b: real, f: real)
    ensures Mix(a, b, f) == a * (1.0 - f) + b * f
  {
  }

  lemma Times0(x: real)
    ensures x * 0.0 == 0.0
  {
  }

  lemma SlopeUp(a: real, b: real, f: real, g: real)
    requires a <= b && f <= g
    ensures Mix(a, b, f) <= Mix(a, b, g)
  {
    assert (b - a) * g - (b - a) * f == (b - a) * (g - f);
  }

  /** A higher rank never gives a smaller value, within an interval or across its ends. */
  lemma RisesWithRank(s: seq<real>, p: real, q: real)
    requires s != [] && Rising(s) && 0.0 <= p <= q <= (|s| - 1) as real
    ensures Interpolated(s, p) <= Interpolated(s, q)
  {
    var lo, lo' := p.Floor, q.Floor;
    if lo == lo' {
      SlopeUp(s[lo], s[if lo + 1 <= |s| - 1 then lo + 1 else |s| - 1], p - lo as real, q - lo as real);
    } else {
      LiesBetweenNeighbours(s, p);
      LiesBetweenNeighbours(s, q);
      assert s[lo+1] <= s[lo'];
    }
  }

  lemma NonNegative(x: real, y: real)
    requires x >= 0.0 && y >= 0.0
    ensures x * y >= 0.0
  {
  }

  lemma MixDifference(a: real, b: real, c: real, d: real, f: real)
    ensures Mix(c, d, f) - Mix(a, b, f) == (c - a) * (1.0 - f) + (d - b) * f
  {
  }

  lemma MixUp(a: real, b: real, c: real, d: real, f: real)
    requires a <= c && b <= d && 0.0 <= f <= 1.0
    ensures Mix(a, b, f) <= Mix(c, d, f)
  {
    MixDifference(a, b, c, d, f);
    NonNegative(c - a, 1.0 - f);
    NonNegative(d - b, f);
  }

  /** Raising the data pointwise never lowers a percentile. */
  lemma RisesWithData(s: seq<real>, t: seq<real>, rank: real)
    requires |s| == |t| && s != [] && 0.0 <= rank <= (|s| - 1) as real
    requires forall i :: 0 <= i < |s| ==> s[i] <= t[i]
    ensures Interpolated(s, rank) <= Interpolated(t, rank)
  {
    var lo := rank.Floor;
    var hi := if lo + 1 <= |s| - 1 then lo + 1 else |s| - 1;
    MixUp(s[lo], s[hi], t[lo], t[hi], rank - lo as real);
  }

  lemma {:induction false} OneSortedOrder(s: seq<real>, t: seq<real>)
    requires Rising(s) && Rising(t) && multiset(s) == multiset(t)
    ensures s == t
    decreases |s|
  {
    SameHead(s, t);
    if s != [] {
      OneSortedOrder(s[1..], t[1..]);
      assert s == [s[0]] + s[1..] && t == [t[0]] + t[1..];
    }
  }

  lemma SameHead(s: seq<real>, t: seq<real>)
    requires Rising(s) && Rising(t) && multiset(s) == multiset(t)
    ensures |s| == |t|
    ensures s != [] ==> s[0] == t[0] && multiset(s[1..]) == multiset(t[1..])
  {
    assert |s| == |multiset(s)| == |multiset(t)| == |t|;
    if s != [] {
      FirstIsLeast(s, t[0]);
      FirstIsLeast(t, s[0]);
      TailBag(s);
      TailBag(t);
    }
  }

  lemma FirstIsLeast(s: seq<real>, x: real)
    requires Rising(s) && s != []
    ensures x in multiset(s) ==> s[0] <= x
    ensures s[0] in multiset(s)
  {
    if x in multiset(s) { var k :| 0 <= k < |s| && s[k] == x; }
  }

  lemma TailBag(s: seq<real>)
    requires s != []
    ensures multiset(s[1..]) == multiset(s) - multiset{s[0]}
  {
    assert s == [s[0]] + s[1..];
  }

  lemma SortedRises(values: seq<real>)
    ensures Rising(SortedValues(values)) && multiset(SortedValues(values)) == multiset(values)
  {
    SortBySorts(values, Value);
    var s := SortedValues(values);
    forall i, j | 0 <= i <= j < |s| ensures s[i] <= s[j] {
      assert i < j ==> Value(s[i]) <= Value(s[j]);
    }
  }

  /** The order of the samples does not matter. */
  lemma OrderDoesNotMatter(values: seq<real>, other: seq<real>, pct: real)
    requires multiset(values) == multiset(other) && 0.0 <= pct <= 100.0
    ensures PercentileOf(values, pct) == PercentileOf(other, pct)
  {
    assert |values| == |multiset(values)| == |other|;
    SortedRises(values);
    SortedRises(other);
    OneSortedOrder(SortedValues(values), SortedValues(other));
  }

  /** A higher percentage never gives a smaller value; 0 and 100 give the extremes. */
  lemma RisesWithPercentage(values: seq<real>, p: real, q: real)
    requires values != [] && 0.0 <= p <= q <= 100.0
    ensures PercentileOf(values, p) <= PercentileOf(values, q)
    ensures forall v :: v in values ==> PercentileOf(values, 0.0) <= v <= PercentileOf(values, 100.0)
  {
    var s := SortedValues(values);
    SortedRises(values);
    assert |s| == |multiset(s)| == |values|;
    RankInRange(|s|, p);
    RankInRange(|s|, q);
    RankRises(|s|, p, q);
    if |s| > 1 {
      RisesWithRank(s, Rank(|s|, p), Rank(|s|, q));
      assert Rank(|s|, 0.0) == 0.0 && Rank(|s|, 100.0) == (|s| - 1) as real;
      WholeRank(s, 0);
      WholeRank(s, |s| - 1);
    }
    forall v | v in values ensures s[0] <= v <= s[|s|-1] {
      assert v in multiset(s);
      var k :| 0 <= k < |s| && s[k] == v;
    }
  }

  /** The percentages are spread evenly over the sorted samples: a fraction `f` of the way from one to the
      next, the result is the mean of the two weighted so. */
  lemma PercentileExactly(values: seq<real>, pct: real, k: nat, f: real)
    requires k + 1 < |values| && 0.0 <= f <= 1.0 && 0.0 <= pct <= 100.0
    requires pct * (|values| - 1) as real == 100.0 * (k as real + f)
    ensures |SortedValues(values)| == |values|
    ensures PercentileOf(values, pct) == SortedValues(values)[k] * (1.0 - f) + SortedValues(values)[k+1] * f
  {
    SortedLength(values);
    RankIs(|values|, pct, k as real + f);
    AffineInRank(SortedValues(values), k, f);
  }

  lemma RankIs(n: nat, pct: real, r: real)
    requires n > 0 && pct * (n - 1) as real == 100.0 * r
    ensures Rank(n, pct) == r
  {
    Divide(pct, (n - 1) as real);
  }

  lemma Divide(pct: real, m: real)
    ensures pct / 100.0 * m == pct * m / 100.0
  {
  }

  /** One sample is every percentile; of none, the result is zero. */
  lemma PercentileOfFew(v: real, pct: real)
    requires 0.0 <= pct <= 100.0
    ensures PercentileOf([v], pct) == v && PercentileOf([], pct) == 0.0
  {
    SortedRises([v]);
    SortedLength([v]);
    assert v in multiset(SortedValues([v])) by { assert v in multiset([v]); }
    var k :| 0 <= k < |SortedValues([v])| && SortedValues([v])[k] == v;
  }

  lemma RankRises(n: nat, p: real, q: real)
    requires n > 0 && 0.0 <= p <= q
    ensures Rank(n, p) <= Rank(n, q)
  {
    assert (q / 100.0 - p / 100.0) * (n - 1) as real >= 0.0;
  }

  // ----- the nearest-rank percentile of the timing report -----

  /** `min(int(n * p), n - 1)` */
  function RankIndex(n: nat, p: real): (k: nat)
    requires n > 0 && 0.0 <= p <= 1.0
    ensures k < n && k as real <= p * n as real && (p * n as real <= (k + 1) as real)
    ensures k + 1 < n ==> p * n as real < (k + 1) as real
  {
    Product(p, n as real);
    var k := (p * n as real).Floor;
    if k <= n - 1 then k else n - 1
  }

  lemma SortedLength(values: seq<real>)
    ensures |SortedValues(values)| == |values|
  {
    SortedRises(values);
    assert |multiset(SortedValues(values))| == |multiset(values)|;
  }

  /** `ds[min(int(len(ds) * p), len(ds) - 1)]` over the sorted data */
  function NearestRank(values: seq<real>, p: real): real
    requires values != [] && 0.0 <= p <= 1.0
  {
    SortedLength(values);
    SortedValues(values)[RankIndex(|values|, p)]
  }

  /** It is the sample with as many whole samples before it as the share holds; the last one, if it holds all. */
  lemma NearestRankExactly(values: seq<real>, p: real, k: nat)
    requires k < |values| && 0.0 <= p <= 1.0
    requires k as real <= p * |values| as real && (k + 1 < |values| ==> p * |values| as real < (k + 1) as real)
    ensures |SortedValues(values)| == |values| && NearestRank(values, p) == SortedValues(values)[k]
  {
    SortedLength(values);
    OneIndex(p * |values| as real, |values|, k, RankIndex(|values|, p));
  }

  lemma OneIndex(x: real, n: nat, j: nat, k: nat)
    requires j < n && j as real <= x && (j + 1 < n ==> x < (j + 1) as real)
    requires k < n && k as real <= x && (k + 1 < n ==> x < (k + 1) as real)
    ensures j == k
  {
  }

  predicate Hit(x: real, v: real, strict: bool) { x < v || (!strict && x == v) }

  /** How many samples are below the value, or at most the value. */
  function Count(s: seq<real>, v: real, strict: bool): nat {
    if s == [] then 0 else (if Hit(s[0], v, strict) then 1 else 0) + Count(s[1..], v, strict)
  }

  lemma {:induction false} CountInsert(x: real, s: seq<real>, v: real, strict: bool)
    ensures Count(Insert(x, s, Value), v, strict) == (if Hit(x, v, strict) then 1 else 0) + Count(s, v, strict)
    decreases |s|
  {
    if s == [] || Value(x) <= Value(s[0]) {
      assert ([x] + s)[1..] == s;
    } else {
      CountInsert(x, s[1..], v, strict);
      assert Insert(x, s, Value)[1..] == Insert(x, s[1..], Value);
    }
  }

  lemma {:induction false} CountSorted(s: seq<real>, v: real, strict: bool)
    ensures Count(SortedValues(s), v, strict) == Count(s, v, strict)
    decreases |s|
  {
    if s != [] {
      CountSorted(s[1..], v, strict);
      CountInsert(s[0], SortedValues(s[1..]), v, strict);
    }
  }

  lemma {:induction false} CountAtLeast(s: seq<real>, m: nat, v: real, strict: bool)
    requires m <= |s| && forall i :: 0 <= i < m ==> Hit(s[i], v, strict)
    ensures Count(s, v, strict) >= m
  {
    if m > 0 { CountAtLeast(s[1..], m - 1, v, strict); }
  }

  lemma {:induction false} CountAtMost(s: seq<real>, m: nat, v: real, strict: bool)
    requires m <= |s| && forall i :: m <= i < |s| ==> !Hit(s[i], v, strict)
    ensures Count(s, v, strict) <= m
    decreases |s|
  {
    if s != [] { CountAtMost(s[1..], if m > 0 then m - 1 else 0, v, strict); }
  }

  /** At least the given share of the samples is at most the value, and at most that share is below it. */
  lemma NearestRankSplits(values: seq<real>, p: real)
    requires values != [] && 0.0 <= p <= 1.0
    ensures
      var v, share := NearestRank(values, p), p * |values| as real;
      Count(values, v, true) as real <= share <= Count(values, v, false) as real
  {
    var s, v, k := SortedValues(values), NearestRank(values, p), RankIndex(|values|, p);
    SortedRises(values);
    SortedLength(values);
    CountAtLeast(s, k + 1, v, false);
    CountAtMost(s, k, v, true);
    CountSorted(values, v, false);
    CountSorted(values, v, true);
  }
}
