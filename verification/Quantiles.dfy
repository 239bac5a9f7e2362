// What the medians and the interval of internal/benchmark/statistics.go say of their values,
// told by counting.
module Quantiles {
  import CrossFixture
  import opened GeometricMean
  import opened Ordering
  import opened Statistics

  function CountWhere<T>(s: seq<T>, p: T -> bool): nat {
    if |s| == 0 then 0 else CountWhere(s[..|s| - 1], p) + if p(s[|s| - 1]) then 1 else 0
  }

  function UpTo(x: real): real -> bool {
    (v: real) => v <= x
  }

  function From(x: real): real -> bool {
    (v: real) => v >= x
  }

  lemma {:induction false} CountConcat<T>(s: seq<T>, t: seq<T>, p: T -> bool)
    ensures CountWhere(s + t, p) == CountWhere(s, p) + CountWhere(t, p)
  {
    if |t| == 0 {
      assert s + t == s;
    } else {
      var n := |t| - 1;
      CountConcat(s, t[..n], p);
      assert (s + t)[..|s + t| - 1] == s + t[..n];
    }
  }

  lemma CountOne<T>(x: T, p: T -> bool)
    ensures CountWhere([x], p) == if p(x) then 1 else 0
  {
    assert [x][..0] == [];
  }

  lemma CountWithout<T>(t: seq<T>, j: nat, p: T -> bool)
    requires j < |t|
    ensures CountWhere(t, p) == CountWhere(t[..j] + t[j + 1..], p) + if p(t[j]) then 1 else 0
  {
    hide CountWhere;
    assert t == t[..j] + ([t[j]] + t[j + 1..]);
    CountConcat(t[..j], [t[j]] + t[j + 1..], p);
    CountConcat([t[j]], t[j + 1..], p);
    CountConcat(t[..j], t[j + 1..], p);
    CountOne(t[j], p);
  }

  lemma {:induction false} CountPermuted<T>(s: seq<T>, t: seq<T>, p: T -> bool)
    requires multiset(s) == multiset(t)
    ensures CountWhere(s, p) == CountWhere(t, p)
    decreases |s|
  {
    SameSize(s, t);
    if |s| != 0 {
      var n := |s| - 1;
      var j := Taken(t, s[n]);
      InitMultiset(s);
      CountPermuted(s[..n], t[..j] + t[j + 1..], p);
      CountWithout(t, j, p);
    }
  }

  lemma {:induction false} CountAll<T>(s: seq<T>, p: T -> bool)
    requires forall i :: 0 <= i < |s| ==> p(s[i])
    ensures CountWhere(s, p) == |s|
  {
    if |s| != 0 {
      CountAll(s[..|s| - 1], p);
    }
  }

  lemma {:induction false} CountMapped<T>(s: seq<T>, f: T -> real, p: real -> bool, q: T -> bool)
    requires forall x :: q(x) <==> p(f(x))
    ensures CountWhere(s, q) == CountWhere(Mapped(s, f), p)
  {
    if |s| != 0 {
      var n := |s| - 1;
      CountMapped(s[..n], f, p, q);
      assert Mapped(s, f)[..n] == Mapped(s[..n], f);
    }
  }

  // In a sorted list at least k values are at most, and at least |s| - k at least, what lies
  // between its values k - 1 and k.
  lemma SortedCounts(values: seq<real>, k: nat, x: real)
    requires k <= |values|
    requires k > 0 ==> Sort(values)[k - 1] <= x
    ensures CountWhere(values, UpTo(x)) >= k
  {
    hide Sort, CountWhere, Ascending;
    var s := Sort(values);
    SortAscending(values);
    FirstBelow(s, k, x);
    CountPermuted(values, s, UpTo(x));
    assert s == s[..k] + s[k..];
    CountConcat(s[..k], s[k..], UpTo(x));
    CountAll(s[..k], UpTo(x));
  }

  lemma FirstBelow(s: seq<real>, k: nat, x: real)
    requires k <= |s| && Ascending(s) && (k > 0 ==> s[k - 1] <= x)
    ensures forall i :: 0 <= i < k ==> s[..k][i] <= x
  {
  }

  lemma LastAbove(s: seq<real>, k: nat, x: real)
    requires k <= |s| && Ascending(s) && (k < |s| ==> s[k] >= x)
    ensures forall i :: 0 <= i < |s| - k ==> s[k..][i] >= x
  {
  }

  lemma SortedCountsBack(values: seq<real>, k: nat, x: real)
    requires k <= |values|
    requires k < |values| ==> Sort(values)[k] >= x
    ensures CountWhere(values, From(x)) >= |values| - k
  {
    hide Sort, CountWhere, Ascending;
    var s := Sort(values);
    SortAscending(values);
    LastAbove(s, k, x);
    CountPermuted(values, s, From(x));
    assert s == s[..k] + s[k..];
    CountConcat(s[..k], s[k..], From(x));
    CountAll(s[k..], From(x));
  }

  // --- Medians -------------------------------------------------------------------------------------------

  // At least half of the values are at most the median, and at least half at least it.
  lemma MedianHalves(values: seq<real>)
    requires |values| > 0
    ensures 2 * CountWhere(values, UpTo(Median(values))) >= |values|
    ensures 2 * CountWhere(values, From(Median(values))) >= |values|
  {
    hide CountWhere, Sort, Median;
    var lower, upper := (|values| - 1) / 2, |values| / 2;
    MedianBetween(values, lower, upper);
    SortedCounts(values, lower + 1, Median(values));
    SortedCountsBack(values, upper, Median(values));
  }

  lemma MedianBetween(values: seq<real>, lower: nat, upper: nat)
    requires |values| > 0 && lower == (|values| - 1) / 2 && upper == |values| / 2
    ensures upper < |values| && Sort(values)[lower] <= Median(values) <= Sort(values)[upper]
  {
    hide Sort, Ascending;
    var s := Sort(values);
    SortAscending(values);
    if |values| % 2 == 0 {
      NeighboursAscend(s, lower);
      Between(s[lower], s[upper]);
    }
  }

  lemma NeighboursAscend(s: seq<real>, i: nat)
    requires i + 1 < |s| && Ascending(s)
    ensures s[i] <= s[i + 1]
  {
  }

  lemma Between(a: real, b: real)
    requires a <= b
    ensures a <= (a + b) / 2.0 <= b
  {
  }

  function Negated(s: seq<real>): (r: seq<real>)
    ensures |r| == |s|
  {
    Mapped(s, (x: real) => -x)
  }

  function Backwards(s: seq<real>): (r: seq<real>)
    ensures |r| == |s|
  {
    seq(|s|, i requires 0 <= i < |s| => s[|s| - 1 - i])
  }

  lemma {:induction false} BackwardsPermuted(s: seq<real>)
    ensures multiset(Backwards(s)) == multiset(s)
  {
    if |s| == 0 {
      assert Backwards(s) == s;
    } else {
      var n := |s| - 1;
      BackwardsPermuted(s[..n]);
      assert Backwards(s) == [s[n]] + Backwards(s[..n]);
      assert s == s[..n] + [s[n]];
    }
  }

  lemma NegatedSorted(values: seq<real>)
    ensures Sort(Negated(values)) == Backwards(Negated(Sort(values)))
  {
    var s := Sort(values);
    SortAscending(values);
    MappedPermuted(values, s, (x: real) => -x);
    BackwardsPermuted(Negated(s));
    SortUnique(Negated(values), Backwards(Negated(s)));
  }

  // The median favours neither end.
  lemma MedianNegated(values: seq<real>)
    requires |values| > 0
    ensures Median(Negated(values)) == -Median(values)
  {
    hide Sort;
    NegatedSorted(values);
  }

  // The medians of a summary are those of the measurements of its blocks.
  lemma SummaryMedians(m: Maths, samples: seq<Sample>, seed: int, resamples: nat)
    requires ValidMaths(m) && AllPositive(samples) && |samples| >= 2 && resamples > 0
    ensures var s := Summarized(m, samples, seed, resamples);
            && 2 * CountWhere(samples, (x: Sample) => x.baseline <= s.baselineMedian) >= |samples|
            && 2 * CountWhere(samples, (x: Sample) => x.baseline >= s.baselineMedian) >= |samples|
            && 2 * CountWhere(samples, (x: Sample) => x.candidate <= s.candidateMedian) >= |samples|
            && 2 * CountWhere(samples, (x: Sample) => x.candidate >= s.candidateMedian) >= |samples|
  {
    hide ValidMaths, CountWhere, Median, Low, High;
    var s := Summarized(m, samples, seed, resamples);
    SummaryMapped(m, samples);
    MedianHalves(Baselines(samples));
    MedianHalves(Candidates(samples));
    CountMapped(samples, BaselineOf(), UpTo(s.baselineMedian), (x: Sample) => x.baseline <= s.baselineMedian);
    CountMapped(samples, BaselineOf(), From(s.baselineMedian), (x: Sample) => x.baseline >= s.baselineMedian);
    CountMapped(samples, CandidateOf(), UpTo(s.candidateMedian), (x: Sample) => x.candidate <= s.candidateMedian);
    CountMapped(samples, CandidateOf(), From(s.candidateMedian), (x: Sample) => x.candidate >= s.candidateMedian);
  }

  // --- Percentiles -----------------------------------------------------------------------------------------

  // More than the share p of all but one of the values is at most x, and more than the share
  // 1 - p of them at least x.
  predicate IsQuantile(values: seq<real>, p: real, x: real) {
    && CountWhere(values, UpTo(x)) as real > p * (|values| - 1) as real
    && CountWhere(values, From(x)) as real > (1.0 - p) * (|values| - 1) as real
  }

  lemma PercentileIsQuantile(values: seq<real>, p: real)
    requires |values| > 0 && 0.0 <= p <= 1.0
    ensures IsQuantile(values, p, Percentile(Sort(values), p))
  {
    hide CountWhere, Sort, Percentile;
    var s, n := Sort(values), |values| - 1;
    var q, x := Percentile(s, p), Position(p, n);
    PercentileAt(s, p, x);
    CeilInRange(x, n);
    SortAscending(values);
    AtBetween(s, x);
    SortedCounts(values, x.Floor + 1, q);
    SortedCountsBack(values, Ceil(x), q);
    SharesSplit(p, n, x, Ceil(x));
  }

  lemma SharesSplit(p: real, n: nat, x: real, c: int)
    requires x == Position(p, n) && c == Ceil(x)
    ensures (x.Floor + 1) as real > p * n as real
    ensures (n + 1 - c) as real > (1.0 - p) * n as real
  {
    assert (1.0 - p) * n as real == n as real - p * n as real;
  }

  lemma AtBetween(s: seq<real>, x: real)
    requires |s| > 0 && 0.0 <= x <= (|s| - 1) as real && Ascending(s)
    ensures 0 <= x.Floor < |s| && 0 <= Ceil(x) < |s|
    ensures s[x.Floor] <= At(s, x) <= s[Ceil(x)]
  {
    CeilInRange(x, |s| - 1);
    if x.Floor < |s| - 1 {
      LerpFacts(s[x.Floor], s[x.Floor + 1], x - x.Floor as real, x - x.Floor as real);
      if Ceil(x) == x.Floor {
        LerpStart(s[x.Floor], s[x.Floor + 1]);
      }
    }
  }

  // Between two values the percentile moves evenly: on evenly spaced values it is exact.
  lemma PercentileEven(s: seq<real>, a: real, b: real, p: real)
    requires |s| > 0 && 0.0 <= p <= 1.0 && forall i :: 0 <= i < |s| ==> s[i] == a + b * i as real
    ensures Percentile(s, p) == a + b * (p * (|s| - 1) as real)
  {
    hide Percentile;
    var x := Position(p, |s| - 1);
    PercentileAt(s, p, x);
    var i := x.Floor;
    if i == |s| - 1 {
      assert x == i as real;
    } else {
      EvenStep(a, b, i, x);
    }
  }

  lemma EvenStep(a: real, b: real, i: int, x: real)
    ensures Lerp(a + b * i as real, a + b * (i + 1) as real, x - i as real) == a + b * x
  {
    var w, y := x - i as real, a + b * i as real;
    assert b * (i + 1) as real == b * i as real + b;
    assert Lerp(y, y + b, w) == y + b * w;
    assert b * x == b * i as real + b * w;
  }

  // --- The interval ----------------------------------------------------------------------------------------

  ghost predicate AreResamples(m: Maths, samples: seq<Sample>, seed: int, ratios: seq<real>)
    requires ValidMaths(m) && |samples| > 0
  {
    forall k: nat :: k < |ratios| ==> IsRatio(ratios[k], Redrawn(m, samples, seed, k * |samples|))
  }

  // The interval runs between the quantiles 0.025 and 0.975 of the resampled ratios.
  lemma IntervalIsQuantiles(m: Maths, samples: seq<Sample>, seed: int, resamples: nat) returns (ratios: seq<real>)
    requires ValidMaths(m) && AllPositive(samples) && |samples| >= 2 && resamples > 0
    ensures |ratios| == resamples && AreResamples(m, samples, seed, ratios)
    ensures var s := Summarized(m, samples, seed, resamples);
            && IsQuantile(ratios, 0.025, s.low) && IsQuantile(ratios, 0.975, s.high)
            && s.count == |samples| && s.seed == seed && s.resamples == resamples
  {
    hide ValidMaths, IsRatio, IsQuantile, Bootstrapped, Percentile, Sort, LogRatios, Redrawn, Median;
    ratios := Bootstrapped(m, LogRatios(m, samples), seed, resamples);
    forall k: nat | k < resamples
      ensures IsRatio(ratios[k], Redrawn(m, samples, seed, k * |samples|))
    {
      ResampleIsGeometric(m, samples, seed, resamples, k);
    }
    PercentileIsQuantile(ratios, 0.025);
    PercentileIsQuantile(ratios, 0.975);
  }

  ghost predicate AreCrossResamples(
    m: Maths, samples: map<int, seq<Sample>>, fixtures: seq<int>, seed: int, ratios: seq<real>)
    requires ValidMaths(m) && CrossFixture.AllUsable(samples, fixtures)
  {
    forall k: nat :: k < |ratios| ==> IsCrossResample(m, samples, fixtures, seed, k, ratios[k])
  }

  ghost predicate IsCrossResample(
    m: Maths, samples: map<int, seq<Sample>>, fixtures: seq<int>, seed: int, k: nat, ratio: real)
    requires ValidMaths(m) && CrossFixture.AllUsable(samples, fixtures)
  {
    exists own :: DrawnFor(m, samples, fixtures, seed, k, own) && IsMean(ratio, own)
  }

  lemma CrossIntervalIsQuantiles(
    m: Maths, samples: map<int, seq<Sample>>, fixtures: seq<int>, seed: int, resamples: nat)
    returns (ratios: seq<real>)
    requires ValidMaths(m) && CrossFixture.AllUsable(samples, fixtures) && |fixtures| > 0 && resamples > 0
    ensures |ratios| == resamples && AreCrossResamples(m, samples, fixtures, seed, ratios)
    ensures var s := CrossFixture.CrossSummarized(m, samples, fixtures, seed, resamples);
            && IsQuantile(ratios, 0.025, s.low) && IsQuantile(ratios, 0.975, s.high)
            && s.seed == seed && s.resamples == resamples
  {
    hide ValidMaths, IsMean, IsQuantile, CrossFixture.CrossBootstrapped, Percentile, Sort, DrawnFor,
      CrossFixture.Groups;
    ratios := CrossFixture.CrossBootstrapped(m, CrossFixture.Groups(m, samples, fixtures), seed, resamples);
    forall k: nat | k < resamples
      ensures IsCrossResample(m, samples, fixtures, seed, k, ratios[k])
    {
      var own := CrossResampleIsGeometric(m, samples, fixtures, seed, resamples, k);
    }
    PercentileIsQuantile(ratios, 0.025);
    PercentileIsQuantile(ratios, 0.975);
  }
}
