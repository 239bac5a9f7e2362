// One figure over several fixtures: SummarizeAcrossFixtures of internal/benchmark/statistics.go.
// Fixture identifiers are only compared, so integers stand for them.
module CrossFixture {
  import opened Ordering
  import opened Statistics

  datatype CrossSummary = CrossSummary(
    blocks: nat, fixtures: seq<int>, ratio: real, low: real, high: real, seed: int, resamples: int)

  datatype CrossResult = Failed | Done(summary: CrossSummary)

  // --- What is reported -----------------------------------------------------------------------------

  predicate Usable(samples: map<int, seq<Sample>>, f: int)
    requires f in samples
  {
    |samples[f]| >= 2 && AllPositive(samples[f])
  }

  predicate AllUsable(samples: map<int, seq<Sample>>, fixtures: seq<int>) {
    forall i :: 0 <= i < |fixtures| ==> fixtures[i] in samples && Usable(samples, fixtures[i])
  }

  // The log ratios of each fixture.
  function Groups(m: Maths, samples: map<int, seq<Sample>>, fixtures: seq<int>): (r: seq<seq<real>>)
    requires AllUsable(samples, fixtures)
    ensures |r| == |fixtures| && NonEmpty(r)
  {
    seq(|fixtures|, i requires 0 <= i < |fixtures| =>
      assert Usable(samples, fixtures[i]);
      LogRatios(m, samples[fixtures[i]]))
  }

  predicate NonEmpty(groups: seq<seq<real>>) {
    forall i :: 0 <= i < |groups| ==> |groups[i]| > 0
  }

  function Means(groups: seq<seq<real>>): (r: seq<real>)
    requires NonEmpty(groups)
    ensures |r| == |groups|
  {
    seq(|groups|, i requires 0 <= i < |groups| => MeanOf(groups[i]))
  }

  function Blocks(groups: seq<seq<real>>): nat {
    if |groups| == 0 then 0 else Blocks(groups[..|groups| - 1]) + |groups[|groups| - 1]|
  }

  // The average that each fixture draws, from one stream of indices.
  ghost function DrawnMeans(m: Maths, groups: seq<seq<real>>, seed: int, first: nat): (r: seq<real>)
    requires ValidMaths(m) && NonEmpty(groups)
    ensures |r| == |groups|
  {
    seq(|groups|, i requires 0 <= i < |groups| =>
      MeanOf(Drawn(m, groups[i], seed, first + Blocks(groups[..i]), |groups[i]|)))
  }

  ghost function CrossBootstrapped(m: Maths, groups: seq<seq<real>>, seed: int, resamples: nat): (r: seq<real>)
    requires ValidMaths(m) && NonEmpty(groups) && |groups| > 0
    ensures |r| == resamples
  {
    seq(resamples, k requires 0 <= k < resamples => m.exp(MeanOf(DrawnMeans(m, groups, seed, k * Blocks(groups)))))
  }

  ghost function CrossSummarized(
    m: Maths, samples: map<int, seq<Sample>>, fixtures: seq<int>, seed: int, resamples: nat): CrossSummary
    requires ValidMaths(m) && AllUsable(samples, fixtures) && |fixtures| > 0 && resamples > 0
  {
    var groups := Groups(m, samples, fixtures);
    var bootstrapped := Sort(CrossBootstrapped(m, groups, seed, resamples));
    CrossSummary(Blocks(groups), fixtures, m.exp(MeanOf(Means(groups))),
                 Percentile(bootstrapped, 0.025), Percentile(bootstrapped, 0.975), seed, resamples)
  }

  // --- Computing it ---------------------------------------------------------------------------------

  method FixtureLogs(m: Maths, pairs: seq<Sample>) returns (ok: bool, ratios: seq<real>)
    ensures ok <==> |pairs| >= 2 && AllPositive(pairs)
    ensures ok ==> ratios == LogRatios(m, pairs)
  {
    ok, ratios := false, [];
    if |pairs| < 2 {
      return;
    }
    for i := 0 to |pairs|
      invariant AllPositive(pairs[..i])
      invariant ratios == LogRatios(m, pairs[..i])
    {
      var s := pairs[i];
      if !(s.baseline > 0.0) || !(s.candidate > 0.0) {
        assert !Positive(pairs[i]);
        return;
      }
      ratios := ratios + [m.log(s.candidate / s.baseline)];
    }
    assert pairs[..|pairs|] == pairs;
    ok := true;
  }

  method ResampleAcross(m: Maths, groups: seq<seq<real>>, seed: int, first: nat) returns (value: real, next: nat)
    requires ValidMaths(m) && NonEmpty(groups) && |groups| > 0
    ensures value == m.exp(MeanOf(DrawnMeans(m, groups, seed, first)))
    ensures next == first + Blocks(groups)
  {
    hide ValidMaths, Drawn, DrawnMeans, Blocks, Sum;
    NothingDrawn();
    var across := 0.0;
    next := first;
    ghost var means := DrawnMeans(m, groups, seed, first);
    for i := 0 to |groups|
      invariant across == Sum(means[..i])
      invariant next == first + Blocks(groups[..i])
    {
      DrawnNext(m, groups, seed, first, i);
      SumNext(means, i);
      BlocksNext(groups, i);
      var average := Resample(m, groups[i], seed, next);
      across := across + average;
      next := next + |groups[i]|;
    }
    assert means[..|groups|] == means && groups[..|groups|] == groups;
    value := m.exp(across / |groups| as real);
  }

  lemma NothingDrawn()
    ensures Sum([]) == 0.0 && Blocks([]) == 0
  {
  }

  lemma DrawnNext(m: Maths, groups: seq<seq<real>>, seed: int, first: nat, i: nat)
    requires ValidMaths(m) && NonEmpty(groups) && i < |groups|
    ensures DrawnMeans(m, groups, seed, first)[i] ==
              MeanOf(Drawn(m, groups[i], seed, first + Blocks(groups[..i]), |groups[i]|))
  {
  }

  lemma SumNext(means: seq<real>, i: nat)
    requires i < |means|
    ensures Sum(means[..i + 1]) == Sum(means[..i]) + means[i]
  {
    assert means[..i + 1][..i] == means[..i];
  }

  lemma BlocksNext(groups: seq<seq<real>>, i: nat)
    requires i < |groups|
    ensures Blocks(groups[..i + 1]) == Blocks(groups[..i]) + |groups[i]|
  {
    assert groups[..i + 1][..i] == groups[..i];
  }

  method BootstrapAcross(m: Maths, groups: seq<seq<real>>, seed: int, resamples: nat) returns (values: seq<real>)
    requires ValidMaths(m) && NonEmpty(groups) && |groups| > 0
    ensures values == CrossBootstrapped(m, groups, seed, resamples)
  {
    hide ValidMaths, DrawnMeans;
    values := [];
    var position := 0;
    for k := 0 to resamples
      invariant position == k * Blocks(groups)
      invariant values == CrossBootstrapped(m, groups, seed, resamples)[..k]
    {
      var value, next := ResampleAcross(m, groups, seed, position);
      assert value == CrossBootstrapped(m, groups, seed, resamples)[k];
      values, position := values + [value], next;
    }
  }

  method SummarizeAcrossFixtures(m: Maths, samples: map<int, seq<Sample>>, seed: int, resamples: int)
    returns (result: CrossResult)
    requires ValidMaths(m)
    ensures result.Done? <==> |samples| > 0 && resamples >= 1 && forall f :: f in samples ==> Usable(samples, f)
    ensures result.Done? ==>
              var fixtures := Sorted(samples.Keys, Identity());
              && |fixtures| > 0 && AllUsable(samples, fixtures)
              && result.summary == CrossSummarized(m, samples, fixtures, seed, resamples)
  {
    hide ValidMaths, CrossBootstrapped, Percentile, Sort, AllPositive, Sorted, Rising, Identity, Blocks;
    NothingDrawn();
    IdentityInjective();
    if |samples| == 0 || resamples < 1 {
      return Failed;
    }
    var fixtures := SortKeys(samples.Keys, Identity());
    var groups: seq<seq<real>>, means: seq<real>, blocks := [], [], 0;
    for i := 0 to |fixtures|
      invariant AllUsable(samples, fixtures[..i])
      invariant groups == Groups(m, samples, fixtures[..i])
      invariant means == Means(groups) && blocks == Blocks(groups)
    {
      assert fixtures[i] in fixtures;
      var pairs := samples[fixtures[i]];
      var ok, ratios := FixtureLogs(m, pairs);
      if !ok {
        assert !Usable(samples, fixtures[i]);
        return Failed;
      }
      BlocksNext(groups + [ratios], |groups|);
      assert (groups + [ratios])[..|groups|] == groups && (groups + [ratios])[..|groups| + 1] == groups + [ratios];
      groups := groups + [ratios];
      var mean := Mean(ratios);
      means := means + [mean];
      blocks := blocks + |pairs|;
    }
    assert fixtures[..|fixtures|] == fixtures;
    AllKeysUsable(samples, fixtures);
    var bootstrapped := BootstrapAcross(m, groups, seed, resamples);
    bootstrapped := Sort(bootstrapped);
    var mean := Mean(means);
    result := Done(CrossSummary(blocks, fixtures, m.exp(mean),
      Percentile(bootstrapped, 0.025), Percentile(bootstrapped, 0.975), seed, resamples));
  }

  lemma AllKeysUsable(samples: map<int, seq<Sample>>, fixtures: seq<int>)
    requires Lists(fixtures, samples.Keys, Identity()) && |samples| > 0
    ensures |fixtures| > 0
    ensures AllUsable(samples, fixtures) <==> forall f :: f in samples ==> Usable(samples, f)
  {
    ListsEmpty(fixtures, samples.Keys, Identity());
    assert |samples| == |samples.Keys|;
    if AllUsable(samples, fixtures) {
      forall f | f in samples
        ensures Usable(samples, f)
      {
        assert f in fixtures;
      }
    }
    assert forall i :: 0 <= i < |fixtures| ==> fixtures[i] in fixtures;
  }

  // --- Equal weight -----------------------------------------------------------------------------------

  function Repeat<T>(s: seq<T>, k: nat): seq<T> {
    if k == 0 then [] else Repeat(s, k - 1) + s
  }

  lemma {:induction false} SumConcat(s: seq<real>, t: seq<real>)
    ensures Sum(s + t) == Sum(s) + Sum(t)
  {
    if |t| == 0 {
      assert s + t == s;
    } else {
      SumConcat(s, t[..|t| - 1]);
      assert (s + t)[..|s + t| - 1] == s + t[..|t| - 1];
    }
  }

  lemma {:induction false} RepeatSum(s: seq<real>, k: nat)
    ensures |Repeat(s, k)| == k * |s|
    ensures Sum(Repeat(s, k)) == k as real * Sum(s)
  {
    hide Sum;
    if k == 0 {
      SumNone();
    } else {
      RepeatSum(s, k - 1);
      SumConcat(Repeat(s, k - 1), s);
      OneMore(k, |s|, Sum(s));
    }
  }

  lemma SumNone()
    ensures Sum([]) == 0.0
  {
  }

  lemma OneMore(k: nat, n: int, x: real)
    requires k > 0
    ensures (k - 1) * n + n == k * n && (k - 1) as real * x + x == k as real * x
  {
    assert (k - 1) as real == k as real - 1.0;
  }

  lemma RepeatMean(s: seq<real>, k: nat)
    requires |s| > 0 && k > 0
    ensures |Repeat(s, k)| > 0 && MeanOf(Repeat(s, k)) == MeanOf(s)
  {
    hide Sum, Repeat;
    RepeatSum(s, k);
    Lengthens(|s|, k);
    SameMean(Sum(s), |s|, k, Sum(Repeat(s, k)), |Repeat(s, k)|);
  }

  lemma SameMean(x: real, n: nat, k: nat, y: real, l: nat)
    requires n > 0 && k > 0 && l == k * n && y == k as real * x && l > 0
    ensures y / l as real == x / n as real
  {
    CastProduct(k, n);
    CancelFraction(x, n as real, k as real);
  }

  lemma CastProduct(k: nat, n: nat)
    ensures (k * n) as real == k as real * n as real
  {
  }

  lemma Lengthens(n: nat, k: nat)
    requires n > 0 && k > 0
    ensures k * n >= n
  {
  }

  lemma CancelFraction(x: real, n: real, k: real)
    requires n > 0.0 && k > 0.0
    ensures k * n > 0.0 && (k * x) / (k * n) == x / n
  {
    var q := x / n;
    assert q * n == x;
    assert q * (k * n) == k * x;
  }

  lemma {:induction false} RepeatLogs(m: Maths, s: seq<Sample>, k: nat)
    requires AllPositive(s)
    ensures AllPositive(Repeat(s, k)) && LogRatios(m, Repeat(s, k)) == Repeat(LogRatios(m, s), k)
  {
    if k != 0 {
      RepeatLogs(m, s, k - 1);
    }
  }

  // Running one fixture's blocks any number of times more leaves the figure where it was.
  lemma EqualWeight(
    m: Maths, samples: map<int, seq<Sample>>, fixtures: seq<int>, f: int, k: nat, seed: int, resamples: nat)
    requires ValidMaths(m) && AllUsable(samples, fixtures) && |fixtures| > 0 && resamples > 0
    requires f in fixtures && k > 0
    ensures var more := samples[f := Repeat(samples[f], k)];
            && AllUsable(more, fixtures)
            && CrossSummarized(m, more, fixtures, seed, resamples).ratio ==
               CrossSummarized(m, samples, fixtures, seed, resamples).ratio
  {
    hide ValidMaths;
    var more := samples[f := Repeat(samples[f], k)];
    RepeatLogs(m, samples[f], k);
    RepeatLength(samples[f], k);
    RepeatMean(LogRatios(m, samples[f]), k);
    var a, b := Groups(m, samples, fixtures), Groups(m, more, fixtures);
    assert Means(a) == Means(b);
  }

  lemma {:induction false} RepeatLength<T>(s: seq<T>, k: nat)
    requires k > 0
    ensures |Repeat(s, k)| >= |s|
  {
    if k > 1 {
      RepeatLength(s, k - 1);
    }
  }

  // --- The interval -----------------------------------------------------------------------------------

  // The interval is ordered, and it and the figure lie between the smallest and the largest
  // observed ratio of all fixtures.
  lemma CrossIntervalObserved(
    m: Maths, samples: map<int, seq<Sample>>, fixtures: seq<int>, seed: int, resamples: nat, lo: real, hi: real)
    requires ValidMaths(m) && AllUsable(samples, fixtures) && |fixtures| > 0 && resamples > 0 && 0.0 < lo <= hi
    requires forall i, j :: 0 <= i < |fixtures| && 0 <= j < |samples[fixtures[i]]| ==>
               lo <= Ratios(samples[fixtures[i]])[j] <= hi
    ensures var s := CrossSummarized(m, samples, fixtures, seed, resamples);
            lo <= s.low <= s.high <= hi && lo <= s.ratio <= hi
  {
    hide ValidMaths, Percentile, LogRatios, Ratios, CrossBootstrapped, Blocks;
    var groups := Groups(m, samples, fixtures);
    forall i | 0 <= i < |groups|
      ensures forall j :: 0 <= j < |groups[i]| ==> m.log(lo) <= groups[i][j] <= m.log(hi)
    {
      GroupBetween(m, samples[fixtures[i]], lo, hi);
    }
    forall i | 0 <= i < |groups|
      ensures m.log(lo) <= MeanOf(groups[i]) <= m.log(hi)
    {
      MeanBetween(groups[i], m.log(lo), m.log(hi));
    }
    MeanBetween(Means(groups), m.log(lo), m.log(hi));
    ExpBetween(m, MeanOf(Means(groups)), lo, hi);
    var x := CrossBootstrapped(m, groups, seed, resamples);
    CrossBootstrapBetween(m, groups, seed, resamples, lo, hi);
    SortAscending(x);
    SortedBetween(x, lo, hi);
    PercentileMonotone(Sort(x), 0.025, 0.975);
  }

  lemma ExpBetween(m: Maths, x: real, lo: real, hi: real)
    requires ValidMaths(m) && 0.0 < lo <= hi && m.log(lo) <= x <= m.log(hi)
    ensures lo <= m.exp(x) <= hi
  {
  }

  lemma CrossBootstrapBetween(
    m: Maths, groups: seq<seq<real>>, seed: int, resamples: nat, lo: real, hi: real)
    requires ValidMaths(m) && NonEmpty(groups) && |groups| > 0 && 0.0 < lo <= hi
    requires forall i :: 0 <= i < |groups| ==> forall j :: 0 <= j < |groups[i]| ==> m.log(lo) <= groups[i][j] <= m.log(hi)
    ensures forall k :: 0 <= k < resamples ==> lo <= CrossBootstrapped(m, groups, seed, resamples)[k] <= hi
  {
    hide ValidMaths, DrawnMeans;
    forall k | 0 <= k < resamples
      ensures lo <= CrossBootstrapped(m, groups, seed, resamples)[k] <= hi
    {
      var first := k * Blocks(groups);
      DrawnBetween(m, groups, seed, first, m.log(lo), m.log(hi));
      ExpBetween(m, MeanOf(DrawnMeans(m, groups, seed, first)), lo, hi);
    }
  }

  lemma GroupBetween(m: Maths, samples: seq<Sample>, lo: real, hi: real)
    requires ValidMaths(m) && AllPositive(samples) && 0.0 < lo
    requires forall j :: 0 <= j < |samples| ==> lo <= Ratios(samples)[j] <= hi
    ensures forall j :: 0 <= j < |samples| ==> m.log(lo) <= LogRatios(m, samples)[j] <= m.log(hi)
  {
    forall j | 0 <= j < |samples|
      ensures m.log(lo) <= LogRatios(m, samples)[j] <= m.log(hi)
    {
      assert lo <= Ratios(samples)[j] <= hi;
    }
  }

  lemma DrawnBetween(m: Maths, groups: seq<seq<real>>, seed: int, first: nat, lo: real, hi: real)
    requires ValidMaths(m) && NonEmpty(groups) && |groups| > 0
    requires forall i :: 0 <= i < |groups| ==> forall j :: 0 <= j < |groups[i]| ==> lo <= groups[i][j] <= hi
    ensures lo <= MeanOf(DrawnMeans(m, groups, seed, first)) <= hi
  {
    forall i | 0 <= i < |groups|
      ensures lo <= DrawnMeans(m, groups, seed, first)[i] <= hi
    {
      MeanBetween(Drawn(m, groups[i], seed, first + Blocks(groups[..i]), |groups[i]|), lo, hi);
    }
    MeanBetween(DrawnMeans(m, groups, seed, first), lo, hi);
  }
}
