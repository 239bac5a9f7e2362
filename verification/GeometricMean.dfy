// What the ratios of internal/benchmark/statistics.go are: geometric means, said with products
// and powers only.
module GeometricMean {
  import opened CrossFixture
  import opened Ordering
  import opened Statistics

  function Power(x: real, n: nat): real {
    if n == 0 then 1.0 else x * Power(x, n - 1)
  }

  function Product(s: seq<real>): real {
    if |s| == 0 then 1.0 else Product(s[..|s| - 1]) * s[|s| - 1]
  }

  function BaselineProduct(samples: seq<Sample>): real {
    if |samples| == 0 then 1.0
    else BaselineProduct(samples[..|samples| - 1]) * samples[|samples| - 1].baseline
  }

  function CandidateProduct(samples: seq<Sample>): real {
    if |samples| == 0 then 1.0
    else CandidateProduct(samples[..|samples| - 1]) * samples[|samples| - 1].candidate
  }

  // The positive number whose |samples|-th power is the product of candidate over baseline.
  predicate IsRatio(r: real, samples: seq<Sample>) {
    r > 0.0 && Power(r, |samples|) * BaselineProduct(samples) == CandidateProduct(samples)
  }

  // The positive number whose |s|-th power is the product of s.
  predicate IsMean(r: real, s: seq<real>) {
    r > 0.0 && Power(r, |s|) == Product(s)
  }

  // --- Logarithms --------------------------------------------------------------------------------------------

  lemma LogTimes(m: Maths, x: real, y: real, z: real)
    requires ValidMaths(m) && x > 0.0 && y > 0.0 && z == x * y
    ensures z > 0.0 && m.log(z) == m.log(x) + m.log(y)
  {
    assert Times(x, y) == z;
  }

  lemma LogOne(m: Maths, one: real)
    requires ValidMaths(m) && one == 1.0
    ensures m.log(one) == 0.0
  {
    LogTimes(m, one, one, one);
  }

  lemma LogOver(m: Maths, x: real, y: real)
    requires ValidMaths(m) && x > 0.0 && y > 0.0
    ensures m.log(x / y) == m.log(x) - m.log(y)
  {
    var q := x / y;
    assert q * y == x;
    ProductOrder(0.0, q, y);
    LogTimes(m, q, y, x);
  }

  lemma LogStrict(m: Maths, x: real, y: real)
    requires ValidMaths(m) && 0.0 < x && 0.0 < y
    ensures x < y <==> m.log(x) < m.log(y)
    ensures x == y <==> m.log(x) == m.log(y)
  {
    assert m.exp(m.log(x)) == x && m.exp(m.log(y)) == y;
  }

  lemma ExpStrict(m: Maths, x: real, y: real)
    requires ValidMaths(m)
    ensures x < y <==> m.exp(x) < m.exp(y)
  {
    assert m.log(m.exp(x)) == x && m.log(m.exp(y)) == y;
  }

  lemma ExpPositive(m: Maths, x: real)
    requires ValidMaths(m)
    ensures m.exp(x) > 0.0 && m.log(m.exp(x)) == x
  {
  }

  lemma {:induction false} LogPower(m: Maths, x: real, n: nat)
    requires ValidMaths(m) && x > 0.0
    ensures Power(x, n) > 0.0 && m.log(Power(x, n)) == n as real * m.log(x)
  {
    hide ValidMaths;
    if n == 0 {
      LogOne(m, Power(x, n));
    } else {
      LogPower(m, x, n - 1);
      LogTimes(m, x, Power(x, n - 1), Power(x, n));
      OneMoreTime(n, m.log(x));
    }
  }

  lemma OneMoreTime(n: nat, x: real)
    requires n > 0
    ensures (n - 1) as real * x + x == n as real * x
  {
    assert (n - 1) as real == n as real - 1.0;
  }

  lemma {:induction false} LogProduct(m: Maths, s: seq<real>, logs: seq<real>)
    requires ValidMaths(m) && |s| == |logs| && forall i :: 0 <= i < |s| ==> s[i] > 0.0 && m.log(s[i]) == logs[i]
    ensures Product(s) > 0.0 && m.log(Product(s)) == Sum(logs)
  {
    hide ValidMaths;
    if |s| == 0 {
      LogOne(m, Product(s));
    } else {
      var n := |s| - 1;
      LogProduct(m, s[..n], logs[..n]);
      LogTimes(m, Product(s[..n]), s[n], Product(s));
    }
  }

  lemma {:induction false} LogProducts(m: Maths, samples: seq<Sample>)
    requires ValidMaths(m) && AllPositive(samples)
    ensures BaselineProduct(samples) > 0.0 && CandidateProduct(samples) > 0.0
    ensures Sum(LogRatios(m, samples)) == m.log(CandidateProduct(samples)) - m.log(BaselineProduct(samples))
  {
    hide ValidMaths, LogRatios, Sum;
    if |samples| == 0 {
      LogOne(m, BaselineProduct(samples));
      LogOne(m, CandidateProduct(samples));
      NoLogs(m);
      assert samples == [];
    } else {
      var n := |samples| - 1;
      var less, s := samples[..n], samples[n];
      assert Positive(s);
      LogProducts(m, less);
      LogTimes(m, BaselineProduct(less), s.baseline, BaselineProduct(samples));
      LogTimes(m, CandidateProduct(less), s.candidate, CandidateProduct(samples));
      LogOver(m, s.candidate, s.baseline);
      LogsNext(m, samples);
    }
  }

  lemma NoLogs(m: Maths)
    ensures Sum(LogRatios(m, [])) == 0.0
  {
  }

  lemma LogsNext(m: Maths, samples: seq<Sample>)
    requires AllPositive(samples) && |samples| > 0
    ensures var n := |samples| - 1;
            Sum(LogRatios(m, samples)) ==
              Sum(LogRatios(m, samples[..n])) + m.log(samples[n].candidate / samples[n].baseline)
  {
    var n := |samples| - 1;
    assert Positive(samples[n]);
    assert LogRatios(m, samples)[..n] == LogRatios(m, samples[..n]);
  }

  // The exponential of an average of logarithms is the geometric mean.
  lemma MeanIsRoot(m: Maths, logs: seq<real>, product: real)
    requires ValidMaths(m) && |logs| > 0 && product > 0.0 && m.log(product) == Sum(logs)
    ensures m.exp(MeanOf(logs)) > 0.0 && Power(m.exp(MeanOf(logs)), |logs|) == product
  {
    hide ValidMaths, Power, Sum;
    var r := m.exp(MeanOf(logs));
    ExpPositive(m, MeanOf(logs));
    LogPower(m, r, |logs|);
    Averaged(Sum(logs), |logs|);
    LogStrict(m, Power(r, |logs|), product);
  }

  lemma Averaged(x: real, n: nat)
    requires n > 0
    ensures n as real * (x / n as real) == x
  {
  }

  lemma LogsGiveRatio(m: Maths, samples: seq<Sample>)
    requires ValidMaths(m) && AllPositive(samples) && |samples| > 0
    ensures IsRatio(m.exp(MeanOf(LogRatios(m, samples))), samples)
  {
    hide ValidMaths, Power, Sum, BaselineProduct, CandidateProduct, LogRatios, AllPositive;
    var b, c := BaselineProduct(samples), CandidateProduct(samples);
    LogProducts(m, samples);
    LogOver(m, c, b);
    ProductOrder(0.0, c / b, b);
    MeanIsRoot(m, LogRatios(m, samples), c / b);
    assert c / b * b == c;
  }

  lemma LogsGiveMean(m: Maths, s: seq<real>, logs: seq<real>)
    requires ValidMaths(m) && |s| == |logs| > 0 && forall i :: 0 <= i < |s| ==> s[i] == m.exp(logs[i])
    ensures IsMean(m.exp(MeanOf(logs)), s)
  {
    hide ValidMaths, Power, Sum, Product;
    forall i | 0 <= i < |s|
      ensures s[i] > 0.0 && m.log(s[i]) == logs[i]
    {
      ExpPositive(m, logs[i]);
    }
    LogProduct(m, s, logs);
    MeanIsRoot(m, logs, Product(s));
  }

  // --- The ratio of one stratum --------------------------------------------------------------------------

  // The ratio that is reported is the geometric mean of candidate over baseline.
  lemma RatioIsGeometric(m: Maths, samples: seq<Sample>, seed: int, resamples: nat)
    requires ValidMaths(m) && AllPositive(samples) && |samples| >= 2 && resamples > 0
    ensures IsRatio(Summarized(m, samples, seed, resamples).ratio, samples)
  {
    hide ValidMaths, IsRatio;
    LogsGiveRatio(m, samples);
  }

  // There is one such number.
  lemma RatioUnique(m: Maths, samples: seq<Sample>, x: real, y: real)
    requires ValidMaths(m) && AllPositive(samples) && |samples| > 0 && IsRatio(x, samples) && IsRatio(y, samples)
    ensures x == y
  {
    hide ValidMaths, Power, BaselineProduct, CandidateProduct, LogRatios, AllPositive;
    var b, n := BaselineProduct(samples), |samples|;
    LogProducts(m, samples);
    LogPower(m, x, n);
    LogPower(m, y, n);
    SameFactor(Power(x, n), Power(y, n), b);
    SameFactor(m.log(x), m.log(y), n as real);
    LogStrict(m, x, y);
  }

  lemma SameFactor(x: real, y: real, b: real)
    requires b > 0.0
    ensures x * b == y * b ==> x == y
    ensures b * x == b * y ==> x == y
  {
    ProductOrder(x, y, b);
    ProductOrder(y, x, b);
  }

  // Raising one candidate measurement raises the ratio.
  lemma RatioRises(m: Maths, samples: seq<Sample>, i: nat, candidate: real, seed: int, resamples: nat)
    requires ValidMaths(m) && AllPositive(samples) && |samples| >= 2 && resamples > 0
    requires i < |samples| && candidate > samples[i].candidate
    ensures var raised := samples[i := samples[i].(candidate := candidate)];
            && AllPositive(raised)
            && Summarized(m, raised, seed, resamples).ratio > Summarized(m, samples, seed, resamples).ratio
  {
    hide ValidMaths, Low, High, Median;
    var raised := samples[i := samples[i].(candidate := candidate)];
    var a, b := LogRatios(m, samples), LogRatios(m, raised);
    assert Positive(samples[i]);
    LogOver(m, samples[i].candidate, samples[i].baseline);
    LogOver(m, candidate, samples[i].baseline);
    LogStrict(m, samples[i].candidate, candidate);
    MeanRises(a, b, i);
    ExpStrict(m, MeanOf(a), MeanOf(b));
  }

  lemma MeanRises(s: seq<real>, t: seq<real>, i: nat)
    requires i < |s| && Below(s, t) && s[i] < t[i]
    ensures MeanOf(s) < MeanOf(t)
  {
    hide Sum;
    SumRises(s, t, i);
    ProductOrder(MeanOf(s), MeanOf(t), |s| as real);
    Averaged(Sum(s), |s|);
    Averaged(Sum(t), |s|);
  }

  lemma {:induction false} SumRises(s: seq<real>, t: seq<real>, i: nat)
    requires i < |s| && Below(s, t) && s[i] < t[i]
    ensures Sum(s) < Sum(t)
  {
    var n := |s| - 1;
    if i == n {
      SumBelow(s[..n], t[..n]);
    } else {
      SumRises(s[..n], t[..n], i);
    }
  }

  // --- Permuted blocks -----------------------------------------------------------------------------------

  lemma {:induction false} SumPermuted(s: seq<real>, t: seq<real>)
    requires multiset(s) == multiset(t)
    ensures Sum(s) == Sum(t)
    decreases |s|
  {
    SameSize(s, t);
    if |s| != 0 {
      var n := |s| - 1;
      var j := Taken(t, s[n]);
      InitMultiset(s);
      SumPermuted(s[..n], t[..j] + t[j + 1..]);
      SumWithout(t, j);
    }
  }

  lemma SumWithout(t: seq<real>, j: nat)
    requires j < |t|
    ensures Sum(t) == Sum(t[..j] + t[j + 1..]) + t[j]
  {
    hide Sum;
    assert t == t[..j] + ([t[j]] + t[j + 1..]);
    SumConcat(t[..j], [t[j]] + t[j + 1..]);
    SumConcat([t[j]], t[j + 1..]);
    SumConcat(t[..j], t[j + 1..]);
    SumOne(t[j]);
  }

  lemma SumOne(x: real)
    ensures Sum([x]) == x
  {
    assert [x][..0] == [];
  }

  function Mapped<T>(s: seq<T>, f: T -> real): (r: seq<real>)
    ensures |r| == |s|
  {
    seq(|s|, i requires 0 <= i < |s| => f(s[i]))
  }

  lemma {:induction false} MappedPermuted<T>(s: seq<T>, t: seq<T>, f: T -> real)
    requires multiset(s) == multiset(t)
    ensures multiset(Mapped(s, f)) == multiset(Mapped(t, f))
    decreases |s|
  {
    SameSize(s, t);
    if |s| == 0 {
      assert Mapped(s, f) == Mapped(t, f);
    } else {
      var n := |s| - 1;
      var j := Taken(t, s[n]);
      InitMultiset(s);
      MappedPermuted(s[..n], t[..j] + t[j + 1..], f);
      MappedWithout(s, n, f);
      MappedWithout(t, j, f);
      assert s[..n] + s[n + 1..] == s[..n];
    }
  }

  // Where an element is, and what is left without it.
  lemma Taken<T>(t: seq<T>, x: T) returns (j: nat)
    requires x in multiset(t)
    ensures j < |t| && t[j] == x && multiset(t[..j] + t[j + 1..]) == multiset(t) - multiset{x}
  {
    j :| 0 <= j < |t| && t[j] == x;
    assert t == t[..j] + [t[j]] + t[j + 1..];
  }

  lemma MappedWithout<T>(t: seq<T>, j: nat, f: T -> real)
    requires j < |t|
    ensures multiset(Mapped(t, f)) == multiset(Mapped(t[..j] + t[j + 1..], f)) + multiset{f(t[j])}
  {
    assert Mapped(t, f) == Mapped(t[..j], f) + [f(t[j])] + Mapped(t[j + 1..], f);
    assert Mapped(t[..j] + t[j + 1..], f) == Mapped(t[..j], f) + Mapped(t[j + 1..], f);
  }

  lemma SortPermuted(s: seq<real>, t: seq<real>)
    requires multiset(s) == multiset(t)
    ensures Sort(s) == Sort(t)
  {
    SortAscending(t);
    SortUnique(s, Sort(t));
  }

  lemma MedianPermuted(s: seq<real>, t: seq<real>)
    requires |s| > 0 && multiset(s) == multiset(t)
    ensures |t| > 0 && Median(s) == Median(t)
  {
    SameSize(s, t);
    SortPermuted(s, t);
  }

  function LogOf(m: Maths): Sample -> real {
    (s: Sample) => if Positive(s) then m.log(s.candidate / s.baseline) else 0.0
  }

  function BaselineOf(): Sample -> real {
    (s: Sample) => s.baseline
  }

  function CandidateOf(): Sample -> real {
    (s: Sample) => s.candidate
  }

  lemma SummaryMapped(m: Maths, samples: seq<Sample>)
    requires AllPositive(samples)
    ensures LogRatios(m, samples) == Mapped(samples, LogOf(m))
    ensures Baselines(samples) == Mapped(samples, BaselineOf()) && Candidates(samples) == Mapped(samples, CandidateOf())
  {
    assert forall i :: 0 <= i < |samples| ==> Positive(samples[i]);
  }

  lemma PositivePermuted(s: seq<Sample>, t: seq<Sample>)
    requires multiset(s) == multiset(t) && AllPositive(s)
    ensures AllPositive(t)
  {
    forall i | 0 <= i < |t|
      ensures Positive(t[i])
    {
      assert t[i] in multiset(s);
      var j :| 0 <= j < |s| && s[j] == t[i];
    }
  }

  // The ratio and the medians do not depend on the order of the blocks.
  lemma SummaryPermuted(m: Maths, s: seq<Sample>, t: seq<Sample>, seed: int, resamples: nat)
    requires ValidMaths(m) && AllPositive(s) && |s| >= 2 && resamples > 0 && multiset(s) == multiset(t)
    ensures AllPositive(t) && |t| >= 2
    ensures var x, y := Summarized(m, s, seed, resamples), Summarized(m, t, seed, resamples);
            x.ratio == y.ratio && x.baselineMedian == y.baselineMedian && x.candidateMedian == y.candidateMedian
  {
    hide ValidMaths, Low, High, Median, Mapped, LogRatios, Baselines, Candidates, Sum;
    PositivePermuted(s, t);
    SameSize(s, t);
    SummaryMapped(m, s);
    SummaryMapped(m, t);
    MappedPermuted(s, t, LogOf(m));
    MappedPermuted(s, t, BaselineOf());
    MappedPermuted(s, t, CandidateOf());
    SumPermuted(LogRatios(m, s), LogRatios(m, t));
    MedianPermuted(Baselines(s), Baselines(t));
    MedianPermuted(Candidates(s), Candidates(t));
  }

  // --- The figure over fixtures ----------------------------------------------------------------------------

  // The ratio of each fixture on its own.
  ghost function OwnRatios(
    m: Maths, samples: map<int, seq<Sample>>, fixtures: seq<int>, seed: int, resamples: nat): (r: seq<real>)
    requires ValidMaths(m) && AllUsable(samples, fixtures) && resamples > 0
    ensures |r| == |fixtures|
  {
    seq(|fixtures|, i requires 0 <= i < |fixtures| =>
      assert Usable(samples, fixtures[i]);
      Summarized(m, samples[fixtures[i]], seed, resamples).ratio)
  }

  // The figure is the geometric mean of the ratios that the fixtures have on their own.
  lemma FigureIsGeometric(m: Maths, samples: map<int, seq<Sample>>, fixtures: seq<int>, seed: int, resamples: nat)
    requires ValidMaths(m) && AllUsable(samples, fixtures) && |fixtures| > 0 && resamples > 0
    ensures IsMean(CrossSummarized(m, samples, fixtures, seed, resamples).ratio,
                   OwnRatios(m, samples, fixtures, seed, resamples))
  {
    hide ValidMaths, IsMean, Low, High, Median, CrossBootstrapped, Percentile, LogRatios;
    LogsGiveMean(m, OwnRatios(m, samples, fixtures, seed, resamples), Means(Groups(m, samples, fixtures)));
  }

  lemma MeanUnique(m: Maths, s: seq<real>, x: real, y: real)
    requires ValidMaths(m) && |s| > 0 && IsMean(x, s) && IsMean(y, s)
    ensures x == y
  {
    hide ValidMaths, Power, Product;
    LogPower(m, x, |s|);
    LogPower(m, y, |s|);
    SameFactor(m.log(x), m.log(y), |s| as real);
    LogStrict(m, x, y);
  }

  lemma Exchanged(s: seq<real>, i: nat, j: nat)
    requires i < |s| && j < |s|
    ensures multiset(s[i := s[j]][j := s[i]]) == multiset(s)
  {
  }

  ghost predicate DistinctFixtures(fixtures: seq<int>) {
    forall i, j :: 0 <= i < j < |fixtures| ==> fixtures[i] != fixtures[j]
  }

  // Exchanging the blocks of two fixtures leaves the figure where it was.
  lemma FixturesExchanged(
    m: Maths, samples: map<int, seq<Sample>>, fixtures: seq<int>, i: nat, j: nat, seed: int, resamples: nat)
    requires ValidMaths(m) && AllUsable(samples, fixtures) && DistinctFixtures(fixtures) && resamples > 0
    requires i < |fixtures| && j < |fixtures|
    ensures var other := samples[fixtures[i] := samples[fixtures[j]]][fixtures[j] := samples[fixtures[i]]];
            && AllUsable(other, fixtures)
            && CrossSummarized(m, other, fixtures, seed, resamples).ratio ==
               CrossSummarized(m, samples, fixtures, seed, resamples).ratio
  {
    hide ValidMaths, CrossBootstrapped, Percentile, LogRatios, MeanOf, Blocks;
    var other := samples[fixtures[i] := samples[fixtures[j]]][fixtures[j] := samples[fixtures[i]]];
    assert Usable(samples, fixtures[i]) && Usable(samples, fixtures[j]);
    assert AllUsable(other, fixtures);
    var a, b := Means(Groups(m, samples, fixtures)), Means(Groups(m, other, fixtures));
    assert b == a[i := a[j]][j := a[i]];
    Exchanged(a, i, j);
    MeanPermuted(a, b);
  }

  lemma MeanPermuted(s: seq<real>, t: seq<real>)
    requires |s| > 0 && multiset(s) == multiset(t)
    ensures |t| > 0 && MeanOf(s) == MeanOf(t)
  {
    SameSize(s, t);
    SumPermuted(s, t);
  }

  lemma HigherLogs(m: Maths, s: seq<Sample>, t: seq<Sample>, seed: int, resamples: nat)
    requires ValidMaths(m) && AllPositive(s) && AllPositive(t) && |s| >= 2 && |t| >= 2 && resamples > 0
    requires Summarized(m, t, seed, resamples).ratio > Summarized(m, s, seed, resamples).ratio
    ensures MeanOf(LogRatios(m, t)) > MeanOf(LogRatios(m, s))
  {
    hide ValidMaths, Low, High, Median;
    ExpStrict(m, MeanOf(LogRatios(m, s)), MeanOf(LogRatios(m, t)));
  }

  // Whatever raises the ratio of one fixture raises the figure.
  lemma FixtureRaises(
    m: Maths, samples: map<int, seq<Sample>>, fixtures: seq<int>, i: nat, t: seq<Sample>, seed: int, resamples: nat)
    requires ValidMaths(m) && AllUsable(samples, fixtures) && resamples > 0 && i < |fixtures|
    requires |t| >= 2 && AllPositive(t)
    requires Summarized(m, t, seed, resamples).ratio >
             OwnRatios(m, samples, fixtures, seed, resamples)[i]
    ensures var raised := samples[fixtures[i] := t];
            && AllUsable(raised, fixtures)
            && CrossSummarized(m, raised, fixtures, seed, resamples).ratio >
               CrossSummarized(m, samples, fixtures, seed, resamples).ratio
  {
    hide ValidMaths, CrossBootstrapped, Percentile, LogRatios, MeanOf, Blocks, Low, High, Median;
    var raised := samples[fixtures[i] := t];
    assert Usable(samples, fixtures[i]);
    HigherLogs(m, samples[fixtures[i]], t, seed, resamples);
    var a, b := Means(Groups(m, samples, fixtures)), Means(Groups(m, raised, fixtures));
    assert Below(a, b) && a[i] < b[i];
    MeanRises(a, b, i);
    ExpStrict(m, MeanOf(a), MeanOf(b));
  }

  // --- Resamples -----------------------------------------------------------------------------------------

  // As many blocks as there are, drawn from a position of the stream on.
  ghost function Redrawn(m: Maths, samples: seq<Sample>, seed: int, first: nat): (r: seq<Sample>)
    requires ValidMaths(m) && |samples| > 0
    ensures |r| == |samples|
  {
    seq(|samples|, j requires 0 <= j < |samples| => samples[m.draw(seed, |samples|, first + j)])
  }

  lemma RedrawnLogs(m: Maths, samples: seq<Sample>, seed: int, first: nat)
    requires ValidMaths(m) && |samples| > 0 && AllPositive(samples)
    ensures AllPositive(Redrawn(m, samples, seed, first))
    ensures LogRatios(m, Redrawn(m, samples, seed, first)) ==
              Drawn(m, LogRatios(m, samples), seed, first, |samples|)
  {
    var r := Redrawn(m, samples, seed, first);
    forall j | 0 <= j < |r|
      ensures Positive(r[j])
    {
      assert Positive(samples[m.draw(seed, |samples|, first + j)]);
    }
  }

  // Resample k is the ratio of the blocks that the stream names from k times their number on.
  lemma ResampleIsGeometric(m: Maths, samples: seq<Sample>, seed: int, resamples: nat, k: nat)
    requires ValidMaths(m) && |samples| > 0 && AllPositive(samples) && k < resamples
    ensures IsRatio(Bootstrapped(m, LogRatios(m, samples), seed, resamples)[k],
                    Redrawn(m, samples, seed, k * |samples|))
  {
    hide ValidMaths, IsRatio, LogRatios, Drawn, Redrawn;
    RedrawnLogs(m, samples, seed, k * |samples|);
    LogsGiveRatio(m, Redrawn(m, samples, seed, k * |samples|));
  }

  // How many blocks the fixtures before i have.
  function BlocksBefore(samples: map<int, seq<Sample>>, fixtures: seq<int>, i: nat): nat
    requires i <= |fixtures| && forall h :: 0 <= h < |fixtures| ==> fixtures[h] in samples
  {
    if i == 0 then 0 else BlocksBefore(samples, fixtures, i - 1) + |samples[fixtures[i - 1]]|
  }

  lemma {:induction false} BlocksAre(m: Maths, samples: map<int, seq<Sample>>, fixtures: seq<int>, i: nat)
    requires AllUsable(samples, fixtures) && i <= |fixtures|
    ensures Blocks(Groups(m, samples, fixtures)[..i]) == BlocksBefore(samples, fixtures, i)
  {
    hide LogRatios;
    var groups := Groups(m, samples, fixtures);
    if i > 0 {
      BlocksAre(m, samples, fixtures, i - 1);
      assert groups[..i][..i - 1] == groups[..i - 1];
    }
  }

  lemma FigureCounts(m: Maths, samples: map<int, seq<Sample>>, fixtures: seq<int>, seed: int, resamples: nat)
    requires ValidMaths(m) && AllUsable(samples, fixtures) && |fixtures| > 0 && resamples > 0
    ensures var s := CrossSummarized(m, samples, fixtures, seed, resamples);
            s.fixtures == fixtures && s.blocks == BlocksBefore(samples, fixtures, |fixtures|)
  {
    hide ValidMaths, CrossBootstrapped, Percentile;
    var groups := Groups(m, samples, fixtures);
    BlocksAre(m, samples, fixtures, |fixtures|);
    assert groups[..|groups|] == groups;
  }

  // What the fixtures draw for resample k: one stream, fixture after fixture.
  ghost predicate DrawnFor(
    m: Maths, samples: map<int, seq<Sample>>, fixtures: seq<int>, seed: int, k: nat, ratios: seq<real>)
    requires ValidMaths(m) && AllUsable(samples, fixtures)
  {
    |ratios| == |fixtures| &&
    forall i :: 0 <= i < |fixtures| ==> DrawnAt(m, samples, fixtures, seed, k, i, ratios[i])
  }

  ghost predicate DrawnAt(
    m: Maths, samples: map<int, seq<Sample>>, fixtures: seq<int>, seed: int, k: nat, i: nat, ratio: real)
    requires ValidMaths(m) && AllUsable(samples, fixtures) && i < |fixtures|
  {
    assert Usable(samples, fixtures[i]);
    var first := k * BlocksBefore(samples, fixtures, |fixtures|) + BlocksBefore(samples, fixtures, i);
    IsRatio(ratio, Redrawn(m, samples[fixtures[i]], seed, first))
  }

  lemma FixtureDraws(
    m: Maths, samples: map<int, seq<Sample>>, fixtures: seq<int>, seed: int, k: nat, i: nat, first: nat)
    requires ValidMaths(m) && AllUsable(samples, fixtures) && i < |fixtures|
    requires first == k * BlocksBefore(samples, fixtures, |fixtures|)
    ensures var groups := Groups(m, samples, fixtures);
            DrawnAt(m, samples, fixtures, seed, k, i, m.exp(DrawnMeans(m, groups, seed, first)[i]))
  {
    hide ValidMaths, IsRatio, LogRatios, Drawn, Redrawn, BlocksBefore;
    assert Usable(samples, fixtures[i]);
    BlocksAre(m, samples, fixtures, i);
    var own := samples[fixtures[i]];
    RedrawnLogs(m, own, seed, first + BlocksBefore(samples, fixtures, i));
    LogsGiveRatio(m, Redrawn(m, own, seed, first + BlocksBefore(samples, fixtures, i)));
  }

  // Resample k is the geometric mean of what the fixtures draw for it.
  lemma CrossResampleIsGeometric(
    m: Maths, samples: map<int, seq<Sample>>, fixtures: seq<int>, seed: int, resamples: nat, k: nat)
    returns (ratios: seq<real>)
    requires ValidMaths(m) && AllUsable(samples, fixtures) && |fixtures| > 0 && k < resamples
    ensures DrawnFor(m, samples, fixtures, seed, k, ratios)
    ensures IsMean(CrossBootstrapped(m, Groups(m, samples, fixtures), seed, resamples)[k], ratios)
  {
    hide ValidMaths, IsMean, DrawnAt, Groups, DrawnMeans, Blocks, BlocksBefore;
    var groups := Groups(m, samples, fixtures);
    BlocksAre(m, samples, fixtures, |fixtures|);
    assert groups[..|groups|] == groups;
    var first := k * Blocks(groups);
    var logs := DrawnMeans(m, groups, seed, first);
    ratios := seq(|logs|, i requires 0 <= i < |logs| => m.exp(logs[i]));
    LogsGiveMean(m, ratios, logs);
    forall i | 0 <= i < |fixtures|
      ensures DrawnAt(m, samples, fixtures, seed, k, i, ratios[i])
    {
      FixtureDraws(m, samples, fixtures, seed, k, i, first);
    }
  }
}
