/** Order statistics of a numeric series (lib/screening/baseline.rb `robust_stats` and
    `percentile`, shared verbatim by the older HeartWaves copy): the series is sorted, the
    quartiles are read off by linear interpolation between neighbouring order statistics, and
    no summary exists below five samples. */
module RobustStats {
  import opened Wrappers
  import Numbers

  /** The smallest number of samples for which a summary is produced. */
  const MinSamples: nat := 5

  datatype Stats = Stats(n: nat, median: real, q1: real, q3: real, iqr: real)

  predicate Sorted(s: seq<real>) {
    forall i, j :: 0 <= i < j < |s| ==> s[i] <= s[j]
  }

  function Insert(x: real, s: seq<real>): (r: seq<real>)
    requires Sorted(s)
    ensures Sorted(r)
    ensures multiset(r) == multiset(s) + multiset{x}
    ensures |r| == |s| + 1
    ensures r[0] == if |s| == 0 || x <= s[0] then x else s[0]
  {
    if |s| == 0 then [x]
    else if x <= s[0] then [x] + s
    else
      var rest := s[1..];
      var t := Insert(x, rest);
      assert s == [s[0]] + rest;
      SortedCons(s[0], t);
      [s[0]] + t
  }

  /** Prepending an element no larger than the head keeps a sequence sorted. */
  lemma SortedCons(a: real, t: seq<real>)
    requires Sorted(t) && |t| > 0 && a <= t[0]
    ensures Sorted([a] + t)
  {
  }

  /** Ruby's `Array#sort` on floats: an ascending permutation of the input. */
  function Sort(s: seq<real>): (r: seq<real>)
    ensures Sorted(r)
    ensures multiset(r) == multiset(s)
    ensures |r| == |s|
  {
    if |s| == 0 then []
    else
      assert s == [s[0]] + s[1..];
      Insert(s[0], Sort(s[1..]))
  }

  /** A value interpolated between `a <= b` with weight `w` in [0, 1] lies between them and
      grows with the weight. */
  lemma Interpolate(a: real, b: real, w: real, w': real)
    requires a <= b && 0.0 <= w <= w' <= 1.0
    ensures a <= a * (1.0 - w) + b * w <= b
    ensures a * (1.0 - w) + b * w <= a * (1.0 - w') + b * w'
  {
    assert a * (1.0 - w) + b * w == a + w * (b - a);
    assert a * (1.0 - w') + b * w' == a + w' * (b - a);
    MulNonNegative(w, b - a);
    MulNonNegative(w' - w, b - a);
    MulNonNegative(1.0 - w', b - a);
  }

  lemma MulNonNegative(x: real, y: real)
    requires x >= 0.0 && y >= 0.0
    ensures x * y >= 0.0
  {
  }

  /** The fractional rank `p/100 · (n - 1)` at which percentile `p` is read. */
  function Rank(n: nat, p: real): real {
    p / 100.0 * (n - 1) as real
  }

  lemma RankRange(n: nat, p: real)
    requires n > 0 && 0.0 <= p <= 100.0
    ensures 0.0 <= Rank(n, p) <= (n - 1) as real
    ensures 0 <= Rank(n, p).Floor <= Numbers.Ceil(Rank(n, p)) <= n - 1
  {
    assert 0.0 <= p / 100.0 <= 1.0;
  }

  /** `v` is the value the linear-interpolation rule reads off sorted `s` at fractional
      position `rank`: the element itself at an integral rank, otherwise the weighted mix of
      the two neighbouring elements, which lies between them. */
  predicate AtRank(s: seq<real>, rank: real, v: real)
    requires 0 <= rank.Floor < |s|
  {
    if rank == rank.Floor as real then v == s[rank.Floor]
    else
      rank.Floor + 1 < |s| && s[rank.Floor] <= v <= s[rank.Floor + 1]
      && var w := rank - rank.Floor as real;
         v == s[rank.Floor] * (1.0 - w) + s[rank.Floor + 1] * w
  }

  /** `percentile(sorted_vals, p)`: nil on an empty list; otherwise the order statistic at an
      integral rank, or a value between the two order statistics around a fractional rank; in
      every case between the minimum and the maximum. */
  function Percentile(s: seq<real>, p: real): (r: Option<real>)
    requires Sorted(s) && 0.0 <= p <= 100.0
    ensures r.None? <==> |s| == 0
    ensures r.Some? ==> s[0] <= r.value <= s[|s| - 1]
    ensures r.Some? ==> 0 <= Rank(|s|, p).Floor < |s|
    ensures r.Some? ==> AtRank(s, Rank(|s|, p), r.value)
  {
    if |s| == 0 then None
    else
      var rank := Rank(|s|, p);
      RankRange(|s|, p);
      var lo := rank.Floor;
      var hi := Numbers.Ceil(rank);
      if lo == hi then Some(s[lo])
      else
        var weight := rank - lo as real;
        Interpolate(s[lo], s[hi], weight, weight);
        var v := s[lo] * (1.0 - weight) + s[hi] * weight;
        assert hi == lo + 1;
        assert AtRank(s, rank, v);
        Some(v)
  }

  /** A higher percentile is never below a lower one; this is what orders the quartiles. */
  lemma PercentileMonotone(s: seq<real>, p: real, p': real)
    requires Sorted(s) && |s| > 0 && 0.0 <= p <= p' <= 100.0
    ensures Percentile(s, p).value <= Percentile(s, p').value
  {
    var n := |s|;
    var r, r' := Rank(n, p), Rank(n, p');
    RankRange(n, p);
    RankRange(n, p');
    assert r <= r' by {
      MulNonNegative(p' / 100.0 - p / 100.0, (n - 1) as real);
    }
    var lo, lo' := r.Floor, r'.Floor;
    if lo == lo' && r != lo as real && r' != lo' as real {
      Interpolate(s[lo], s[lo + 1], r - lo as real, r' - lo as real);
    }
  }

  /** `robust_stats`: nil below five samples; otherwise the sample count, and as median and
      quartiles the 50th, 25th and 75th percentiles of the sorted series, ordered q1 <= median <= q3 and lying within the range of
      the data, and the non-negative spread q3 - q1. */
  function Summarize(values: seq<real>): (r: Option<Stats>)
    ensures r.None? <==> |values| < MinSamples
    ensures r.Some? ==> r.value.n == |values|
    ensures r.Some? ==> r.value.q1 <= r.value.median <= r.value.q3
    ensures r.Some? ==> r.value.iqr == r.value.q3 - r.value.q1 >= 0.0
    ensures r.Some? ==> Numbers.Min(values) <= r.value.q1 && r.value.q3 <= Numbers.Max(values)
    ensures r.Some? ==> Percentile(Sort(values), 50.0) == Some(r.value.median)
    ensures r.Some? ==> Percentile(Sort(values), 25.0) == Some(r.value.q1)
    ensures r.Some? ==> Percentile(Sort(values), 75.0) == Some(r.value.q3)
  {
    var vals := Sort(values);
    if |vals| < MinSamples then None
    else
      var med := Percentile(vals, 50.0).value;
      var q1 := Percentile(vals, 25.0).value;
      var q3 := Percentile(vals, 75.0).value;
      PercentileMonotone(vals, 25.0, 50.0);
      PercentileMonotone(vals, 50.0, 75.0);
      SortedEnds(values, vals);
      var iqr := if q3 - q1 < 0.0 then q1 - q3 else q3 - q1;
      Some(Stats(|vals|, med, q1, q3, iqr))
  }

  /** The first and last elements of a sorted permutation are the minimum and maximum. */
  lemma SortedEnds(values: seq<real>, vals: seq<real>)
    requires Sorted(vals) && multiset(vals) == multiset(values) && |values| > 0
    ensures vals[0] == Numbers.Min(values) && vals[|vals| - 1] == Numbers.Max(values)
  {
    var lo, hi := Numbers.Min(values), Numbers.Max(values);
    assert lo in multiset(vals) && hi in multiset(vals);
    assert vals[0] in multiset(values) && vals[|vals| - 1] in multiset(values);
    assert vals[0] <= lo by {
      var i :| 0 <= i < |vals| && vals[i] == lo;
    }
    assert hi <= vals[|vals| - 1] by {
      var i :| 0 <= i < |vals| && vals[i] == hi;
    }
  }

  /** The worked example of the percentile rule: the median of 10, 20, 30, 40 interpolates
      halfway between 20 and 30. */
  lemma MedianOfFourInterpolates()
    ensures Percentile([10.0, 20.0, 30.0, 40.0], 50.0) == Some(25.0)
  {
    assert Rank(4, 50.0) == 1.5;
    assert 1.5.Floor == 1;
  }
}
