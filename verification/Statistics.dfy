// The paired bootstrap of internal/benchmark/statistics.go, over real numbers. Logarithm and
// exponential are any pair of increasing inverses of which the first turns products into sums,
// and the generator is any stream of indices that its seed, the bound and the position of a
// draw determine.
module Statistics {
  import Ordering

  datatype Sample = Sample(baseline: real, candidate: real)

  datatype Maths = Maths(log: real -> real, exp: real -> real, draw: (int, nat, nat) -> nat)

  ghost predicate ValidMaths(m: Maths) {
    && (forall x, y :: 0.0 < x <= y ==> m.log(x) <= m.log(y))
    && (forall x, y :: x <= y ==> m.exp(x) <= m.exp(y))
    && (forall x :: x > 0.0 ==> m.exp(m.log(x)) == x)
    && (forall x :: m.exp(x) > 0.0 && m.log(m.exp(x)) == x)
    && (forall x, y :: x > 0.0 && y > 0.0 ==> m.log(Times(x, y)) == m.log(x) + m.log(y))
    && (forall seed, n, k :: n > 0 ==> m.draw(seed, n, k) < n)
  }

  function Times(x: real, y: real): real {
    x * y
  }

  datatype Summary = Summary(
    count: nat, baselineMedian: real, candidateMedian: real, ratio: real, low: real, high: real, seed: int, resamples: int)

  datatype SummaryResult = Error | Ok(summary: Summary)

  // --- Sorting ------------------------------------------------------------------------------------

  predicate Ascending(s: seq<real>) {
    forall i, j :: 0 <= i < j < |s| ==> s[i] <= s[j]
  }

  function AtMost(): (real, real) -> bool {
    (x: real, y: real) => x <= y
  }

  // slices.Sort
  function Sort(s: seq<real>): (r: seq<real>)
    ensures |r| == |s|
  {
    Ordering.SortBy(s, AtMost())
  }

  lemma SortAscending(s: seq<real>)
    ensures Ascending(Sort(s)) && multiset(Sort(s)) == multiset(s)
  {
    Ordering.SortByAscending(s, AtMost());
    AscendingIs(Sort(s));
  }

  lemma AscendingIs(s: seq<real>)
    ensures Ascending(s) <==> Ordering.AscendingBy(s, AtMost())
  {
  }

  // Whatever algorithm sorts s, its result is Sort(s).
  lemma SortUnique(s: seq<real>, t: seq<real>)
    requires Ascending(t) && multiset(t) == multiset(s)
    ensures t == Sort(s)
  {
    SortAscending(s);
    AscendingIs(Sort(s));
    AscendingIs(t);
    Ordering.AscendingUnique(Sort(s), t, AtMost());
  }

  // --- Pointwise domination -------------------------------------------------------------------------

  predicate Below(s: seq<real>, t: seq<real>) {
    |s| == |t| && forall i :: 0 <= i < |s| ==> s[i] <= t[i]
  }

  function Insert(x: real, s: seq<real>): (r: seq<real>) {
    Ordering.InsertBy(x, s, AtMost())
  }

  lemma InsertUnfold(x: real, s: seq<real>)
    ensures Insert(x, s) == if |s| == 0 || x <= s[0] then [x] + s else [s[0]] + Insert(x, s[1..])
  {
  }

  lemma SortUnfold(s: seq<real>)
    requires |s| > 0
    ensures Sort(s) == Insert(s[0], Sort(s[1..]))
  {
  }

  lemma InsertHead(s: seq<real>)
    requires |s| > 0 && Ascending(s)
    ensures Insert(s[0], s[1..]) == s
  {
    InsertUnfold(s[0], s[1..]);
    assert s == [s[0]] + s[1..];
  }

  lemma {:induction false} InsertBelow(x: real, s: seq<real>, y: real, t: seq<real>)
    requires x <= y && Below(s, t) && Ascending(s) && Ascending(t)
    ensures Below(Insert(x, s), Insert(y, t))
    decreases s
  {
    hide Ascending, Below, Insert;
    InsertUnfold(x, s);
    InsertUnfold(y, t);
    BelowLength(s, t);
    if |s| == 0 {
      BelowFirst([], [], x, y);
    } else {
      BelowTail(s, t);
      if x <= s[0] && y <= t[0] {
        BelowFirst(s, t, x, y);
      } else if x <= s[0] {
        InsertBelow(s[0], s[1..], y, t[1..]);
        InsertHead(s);
        BelowFirst(s, Insert(y, t[1..]), x, t[0]);
      } else if y <= t[0] {
        InsertBelow(x, s[1..], t[0], t[1..]);
        InsertHead(t);
        BelowFirst(Insert(x, s[1..]), t, s[0], y);
      } else {
        InsertBelow(x, s[1..], y, t[1..]);
        BelowFirst(Insert(x, s[1..]), Insert(y, t[1..]), s[0], t[0]);
      }
    }
  }

  lemma BelowLength(s: seq<real>, t: seq<real>)
    requires Below(s, t)
    ensures |s| == |t|
  {
  }

  lemma BelowTail(s: seq<real>, t: seq<real>)
    requires |s| > 0 && Below(s, t) && Ascending(s) && Ascending(t)
    ensures |t| > 0 && s[0] <= t[0] && Below(s[1..], t[1..]) && Ascending(s[1..]) && Ascending(t[1..])
    ensures |s| > 1 ==> s[0] <= s[1] && t[0] <= t[1]
  {
  }

  lemma BelowFirst(s: seq<real>, t: seq<real>, x: real, y: real)
    requires Below(s, t) && x <= y
    ensures Below([x] + s, [y] + t)
  {
  }

  // The k-th smallest of dominated values is dominated.
  lemma {:induction false} SortBelow(s: seq<real>, t: seq<real>)
    requires Below(s, t)
    ensures Below(Sort(s), Sort(t))
  {
    hide Sort, Insert;
    if |s| == 0 {
      assert s == t;
    } else {
      SortUnfold(s);
      SortUnfold(t);
      SortBelow(s[1..], t[1..]);
      SortAscending(s[1..]);
      SortAscending(t[1..]);
      InsertBelow(s[0], Sort(s[1..]), t[0], Sort(t[1..]));
    }
  }

  // --- Percentiles --------------------------------------------------------------------------------------

  function Ceil(x: real): int {
    if x.Floor as real == x then x.Floor else x.Floor + 1
  }

  function Position(p: real, n: int): real {
    p * n as real
  }

  function Percentile(ordered: seq<real>, probability: real): real
    requires |ordered| > 0 && 0.0 <= probability <= 1.0
  {
    if |ordered| == 1 then ordered[0]
    else
      var position := Position(probability, |ordered| - 1);
      PositionInRange(probability, |ordered| - 1);
      CeilInRange(position, |ordered| - 1);
      var lower := position.Floor;
      var upper := Ceil(position);
      if lower == upper then ordered[lower]
      else
        var weight := position - lower as real;
        ordered[lower] * (1.0 - weight) + ordered[upper] * weight
  }

  lemma PositionInRange(p: real, n: int)
    requires 0.0 <= p <= 1.0 && n >= 0
    ensures 0.0 <= Position(p, n) <= n as real
  {
    ProductSign(p, n as real);
    ProductSign(1.0 - p, n as real);
  }

  lemma ProductSign(a: real, b: real)
    requires a >= 0.0 && b >= 0.0
    ensures a * b >= 0.0
  {
  }

  lemma PositionMonotone(p: real, q: real, n: int)
    requires p <= q && n >= 0
    ensures Position(p, n) <= Position(q, n)
  {
    ProductSign(q - p, n as real);
  }

  lemma CeilInRange(x: real, n: int)
    requires 0.0 <= x <= n as real
    ensures 0 <= x.Floor <= Ceil(x) <= n
    ensures Ceil(x) == x.Floor <==> x == x.Floor as real
    ensures Ceil(x) != x.Floor ==> Ceil(x) == x.Floor + 1
  {
    assert x.Floor as real <= x < x.Floor as real + 1.0;
    if x.Floor as real != x {
      assert x.Floor as real < n as real;
    }
  }

  // Between two values, at a fraction of the way.
  function Lerp(a: real, b: real, w: real): real {
    a * (1.0 - w) + b * w
  }

  lemma LerpFacts(a: real, b: real, v: real, w: real)
    requires a <= b && 0.0 <= v <= w <= 1.0
    ensures a <= Lerp(a, b, v) <= Lerp(a, b, w) <= b
  {
    assert Lerp(a, b, v) == a + (b - a) * v;
    assert Lerp(a, b, w) == a + (b - a) * w;
    assert (b - a) * v <= (b - a) * w;
    assert 0.0 <= (b - a) * v;
    assert (b - a) * w <= (b - a) * 1.0;
  }

  lemma LerpBelow(a: real, b: real, a': real, b': real, w: real)
    requires a <= a' && b <= b' && 0.0 <= w <= 1.0
    ensures Lerp(a, b, w) <= Lerp(a', b', w)
  {
    assert a * (1.0 - w) <= a' * (1.0 - w);
    assert b * w <= b' * w;
  }

  // The value at a position, with its neighbours.
  function At(s: seq<real>, x: real): real
    requires |s| > 0 && 0.0 <= x <= (|s| - 1) as real
  {
    if x.Floor == |s| - 1 then s[x.Floor] else Lerp(s[x.Floor], s[x.Floor + 1], x - x.Floor as real)
  }

  lemma PercentileAt(s: seq<real>, p: real, x: real)
    requires |s| > 0 && 0.0 <= p <= 1.0 && x == Position(p, |s| - 1)
    ensures 0.0 <= x <= (|s| - 1) as real
    ensures Percentile(s, p) == At(s, x)
  {
    hide Position;
    PositionInRange(p, |s| - 1);
    CeilInRange(x, |s| - 1);
    if x.Floor < |s| - 1 && x == x.Floor as real {
      LerpStart(s[x.Floor], s[x.Floor + 1]);
    }
  }

  lemma LerpStart(a: real, b: real)
    ensures Lerp(a, b, 0.0) == a
  {
  }

  lemma AtMonotone(s: seq<real>, x: real, y: real)
    requires |s| > 0 && Ascending(s) && 0.0 <= x <= y <= (|s| - 1) as real
    ensures s[0] <= At(s, x) <= At(s, y) <= s[|s| - 1]
  {
    var n := |s| - 1;
    var i, j := x.Floor, y.Floor;
    if i < n {
      LerpFacts(s[i], s[i + 1], x - i as real, x - i as real);
    }
    if j < n {
      LerpFacts(s[j], s[j + 1], y - j as real, y - j as real);
    }
    if i == j && i < n {
      LerpFacts(s[i], s[i + 1], x - i as real, y - i as real);
    }
  }

  lemma AtBelow(s: seq<real>, t: seq<real>, x: real)
    requires |s| > 0 && Below(s, t) && 0.0 <= x <= (|s| - 1) as real
    ensures At(s, x) <= At(t, x)
  {
    var i := x.Floor;
    if i < |s| - 1 {
      LerpBelow(s[i], s[i + 1], t[i], t[i + 1], x - i as real);
    }
  }

  // Percentiles grow with the probability and stay between the extremes.
  lemma PercentileMonotone(s: seq<real>, p: real, q: real)
    requires |s| > 0 && Ascending(s) && 0.0 <= p <= q <= 1.0
    ensures s[0] <= Percentile(s, p) <= Percentile(s, q) <= s[|s| - 1]
  {
    hide Percentile, At, Position;
    var x, y := Position(p, |s| - 1), Position(q, |s| - 1);
    PercentileAt(s, p, x);
    PercentileAt(s, q, y);
    PositionMonotone(p, q, |s| - 1);
    AtMonotone(s, x, y);
  }

  // Percentiles of dominated values are dominated, through sorting and interpolation.
  lemma PercentileBelow(s: seq<real>, t: seq<real>, p: real)
    requires |s| > 0 && Below(s, t) && 0.0 <= p <= 1.0
    ensures Percentile(Sort(s), p) <= Percentile(Sort(t), p)
  {
    hide Percentile, At, Position, Sort;
    var x := Position(p, |s| - 1);
    SortBelow(s, t);
    PercentileAt(Sort(s), p, x);
    PercentileAt(Sort(t), p, x);
    AtBelow(Sort(s), Sort(t), x);
  }

  // --- Means --------------------------------------------------------------------------------------------

  function Sum(s: seq<real>): real {
    if |s| == 0 then 0.0 else Sum(s[..|s| - 1]) + s[|s| - 1]
  }

  function MeanOf(s: seq<real>): real
    requires |s| > 0
  {
    Sum(s) / |s| as real
  }

  method Mean(values: seq<real>) returns (mean: real)
    requires |values| > 0
    ensures mean == MeanOf(values)
  {
    var sum := 0.0;
    for i := 0 to |values|
      invariant sum == Sum(values[..i])
    {
      assert values[..i + 1][..i] == values[..i];
      sum := sum + values[i];
    }
    assert values[..|values|] == values;
    return sum / |values| as real;
  }

  function Median(values: seq<real>): real
    requires |values| > 0
  {
    var ordered := Sort(values);
    var middle := |ordered| / 2;
    if |ordered| % 2 == 1 then ordered[middle] else (ordered[middle - 1] + ordered[middle]) / 2.0
  }

  lemma {:induction false} SumBetween(s: seq<real>, lo: real, hi: real)
    requires forall i :: 0 <= i < |s| ==> lo <= s[i] <= hi
    ensures |s| as real * lo <= Sum(s) <= |s| as real * hi
  {
    if |s| != 0 {
      SumBetween(s[..|s| - 1], lo, hi);
    }
  }

  lemma MeanBetween(s: seq<real>, lo: real, hi: real)
    requires |s| > 0 && forall i :: 0 <= i < |s| ==> lo <= s[i] <= hi
    ensures lo <= MeanOf(s) <= hi
  {
    SumBetween(s, lo, hi);
    DivideBetween(Sum(s), |s| as real, lo, hi);
  }

  lemma DivideBetween(x: real, n: real, lo: real, hi: real)
    requires n > 0.0 && n * lo <= x <= n * hi
    ensures lo <= x / n <= hi
  {
    var q := x / n;
    assert q * n == x;
    ProductOrder(q, lo, n);
    ProductOrder(hi, q, n);
  }

  lemma ProductOrder(a: real, b: real, n: real)
    requires n > 0.0
    ensures a < b <==> a * n < b * n
  {
  }

  lemma {:induction false} SumBelow(s: seq<real>, t: seq<real>)
    requires Below(s, t)
    ensures Sum(s) <= Sum(t)
  {
    if |s| != 0 {
      SumBelow(s[..|s| - 1], t[..|t| - 1]);
    }
  }

  lemma MeanBelow(s: seq<real>, t: seq<real>)
    requires |s| > 0 && Below(s, t)
    ensures MeanOf(s) <= MeanOf(t)
  {
    SumBelow(s, t);
    DivideMonotone(Sum(s), Sum(t), |s| as real);
  }

  lemma DivideMonotone(x: real, y: real, n: real)
    requires n > 0.0 && x <= y
    ensures x / n <= y / n
  {
  }

  // --- The paired summary ---------------------------------------------------------------------------

  predicate Positive(s: Sample) {
    s.baseline > 0.0 && s.candidate > 0.0
  }

  predicate AllPositive(samples: seq<Sample>) {
    forall i :: 0 <= i < |samples| ==> Positive(samples[i])
  }

  function Ratios(samples: seq<Sample>): (r: seq<real>)
    requires AllPositive(samples)
    ensures |r| == |samples|
  {
    seq(|samples|, i requires 0 <= i < |samples| => samples[i].candidate / samples[i].baseline)
  }

  function LogRatios(m: Maths, samples: seq<Sample>): (r: seq<real>)
    requires AllPositive(samples)
    ensures |r| == |samples|
  {
    seq(|samples|, i requires 0 <= i < |samples| => m.log(samples[i].candidate / samples[i].baseline))
  }

  // The values that one resample draws; the stream continues from one resample to the next.
  ghost function Drawn(m: Maths, logs: seq<real>, seed: int, first: nat, n: nat): (r: seq<real>)
    requires ValidMaths(m) && |logs| > 0
    ensures |r| == n
  {
    seq(n, j requires 0 <= j < n => logs[m.draw(seed, |logs|, first + j)])
  }

  ghost function Bootstrapped(m: Maths, logs: seq<real>, seed: int, resamples: nat): (r: seq<real>)
    requires ValidMaths(m) && |logs| > 0
    ensures |r| == resamples
  {
    seq(resamples, k requires 0 <= k < resamples => m.exp(MeanOf(Drawn(m, logs, seed, k * |logs|, |logs|))))
  }

  ghost function Low(m: Maths, samples: seq<Sample>, seed: int, resamples: nat): real
    requires ValidMaths(m) && AllPositive(samples) && |samples| > 0 && resamples > 0
  {
    Percentile(Sort(Bootstrapped(m, LogRatios(m, samples), seed, resamples)), 0.025)
  }

  ghost function High(m: Maths, samples: seq<Sample>, seed: int, resamples: nat): real
    requires ValidMaths(m) && AllPositive(samples) && |samples| > 0 && resamples > 0
  {
    Percentile(Sort(Bootstrapped(m, LogRatios(m, samples), seed, resamples)), 0.975)
  }

  function Baselines(samples: seq<Sample>): (r: seq<real>)
    ensures |r| == |samples|
  {
    seq(|samples|, i requires 0 <= i < |samples| => samples[i].baseline)
  }

  function Candidates(samples: seq<Sample>): (r: seq<real>)
    ensures |r| == |samples|
  {
    seq(|samples|, i requires 0 <= i < |samples| => samples[i].candidate)
  }

  // What SummarizePaired reports for usable samples.
  ghost function Summarized(m: Maths, samples: seq<Sample>, seed: int, resamples: nat): Summary
    requires ValidMaths(m) && AllPositive(samples) && |samples| >= 2 && resamples > 0
  {
    Summary(|samples|, Median(Baselines(samples)), Median(Candidates(samples)),
            m.exp(MeanOf(LogRatios(m, samples))), Low(m, samples, seed, resamples), High(m, samples, seed, resamples),
            seed, resamples)
  }

  // As many draws as there are values, averaged.
  method Resample(m: Maths, logs: seq<real>, seed: int, first: nat) returns (average: real)
    requires ValidMaths(m) && |logs| > 0
    ensures average == MeanOf(Drawn(m, logs, seed, first, |logs|))
  {
    var sum := 0.0;
    ghost var drawn := Drawn(m, logs, seed, first, |logs|);
    for j := 0 to |logs|
      invariant sum == Sum(drawn[..j])
    {
      assert drawn[..j + 1][..j] == drawn[..j];
      sum := sum + logs[m.draw(seed, |logs|, first + j)];
    }
    assert drawn[..|logs|] == drawn;
    return sum / |logs| as real;
  }

  method Bootstrap(m: Maths, logs: seq<real>, seed: int, resamples: nat) returns (values: seq<real>)
    requires ValidMaths(m) && |logs| > 0
    ensures values == Bootstrapped(m, logs, seed, resamples)
  {
    hide ValidMaths, Drawn;
    values := [];
    var position := 0;
    for k := 0 to resamples
      invariant position == k * |logs|
      invariant values == Bootstrapped(m, logs, seed, resamples)[..k]
    {
      var average := Resample(m, logs, seed, position);
      assert m.exp(average) == Bootstrapped(m, logs, seed, resamples)[k];
      values := values + [m.exp(average)];
      position := position + |logs|;
    }
  }

  method SummarizePaired(m: Maths, samples: seq<Sample>, seed: int, resamples: int) returns (result: SummaryResult)
    requires ValidMaths(m)
    ensures result.Ok? <==> |samples| >= 2 && resamples >= 1 && AllPositive(samples)
    ensures result.Ok? ==> result.summary == Summarized(m, samples, seed, resamples)
  {
    hide ValidMaths, Bootstrapped, Percentile, Sort, Median;
    if |samples| < 2 || resamples < 1 {
      return Error;
    }
    var baseline, candidate, logs: seq<real> := [], [], [];
    for i := 0 to |samples|
      invariant AllPositive(samples[..i])
      invariant baseline == Baselines(samples[..i]) && candidate == Candidates(samples[..i])
      invariant logs == LogRatios(m, samples[..i])
    {
      var s := samples[i];
      if !(s.baseline > 0.0) || !(s.candidate > 0.0) {
        assert !Positive(samples[i]);
        return Error;
      }
      baseline := baseline + [s.baseline];
      candidate := candidate + [s.candidate];
      logs := logs + [m.log(s.candidate / s.baseline)];
    }
    assert samples[..|samples|] == samples;
    var bootstrapped := Bootstrap(m, logs, seed, resamples);
    bootstrapped := Sort(bootstrapped);
    var mean := Mean(logs);
    return Ok(Summary(|samples|, Median(baseline), Median(candidate), m.exp(mean),
                      Percentile(bootstrapped, 0.025), Percentile(bootstrapped, 0.975), seed, resamples));
  }

  // --- What the interval means ------------------------------------------------------------------------

  // Two sample lists of one length under one seed: larger ratios give a higher interval.
  lemma IntervalBelow(m: Maths, s: seq<Sample>, t: seq<Sample>, seed: int, resamples: nat)
    requires ValidMaths(m) && AllPositive(s) && AllPositive(t) && |s| == |t| > 0 && resamples > 0
    requires Below(Ratios(s), Ratios(t))
    ensures Low(m, s, seed, resamples) <= Low(m, t, seed, resamples)
    ensures High(m, s, seed, resamples) <= High(m, t, seed, resamples)
  {
    hide ValidMaths, Percentile;
    var a, b := LogRatios(m, s), LogRatios(m, t);
    LogsBelow(m, s, t);
    var x, y := Bootstrapped(m, a, seed, resamples), Bootstrapped(m, b, seed, resamples);
    forall k | 0 <= k < resamples
      ensures x[k] <= y[k]
    {
      var c, d := Drawn(m, a, seed, k * |a|, |a|), Drawn(m, b, seed, k * |b|, |b|);
      DrawnBelow(m, a, b, seed, k * |a|);
      MeanBelow(c, d);
      ExpMonotone(m, MeanOf(c), MeanOf(d));
    }
    hide Bootstrapped;
    PercentileBelow(x, y, 0.025);
    PercentileBelow(x, y, 0.975);
  }

  lemma LogsBelow(m: Maths, s: seq<Sample>, t: seq<Sample>)
    requires ValidMaths(m) && AllPositive(s) && AllPositive(t) && Below(Ratios(s), Ratios(t))
    ensures Below(LogRatios(m, s), LogRatios(m, t))
  {
    forall i | 0 <= i < |s|
      ensures LogRatios(m, s)[i] <= LogRatios(m, t)[i]
    {
      assert Ratios(s)[i] <= Ratios(t)[i];
      RatioPositive(s[i]);
    }
  }

  lemma DrawnBelow(m: Maths, a: seq<real>, b: seq<real>, seed: int, first: nat)
    requires ValidMaths(m) && |a| > 0 && Below(a, b)
    ensures Below(Drawn(m, a, seed, first, |a|), Drawn(m, b, seed, first, |b|))
  {
  }

  lemma ExpMonotone(m: Maths, x: real, y: real)
    requires ValidMaths(m) && x <= y
    ensures m.exp(x) <= m.exp(y)
  {
  }

  lemma RatioPositive(s: Sample)
    requires Positive(s)
    ensures s.candidate / s.baseline > 0.0
  {
    ProductOrder(0.0, s.candidate / s.baseline, s.baseline);
  }

  // The interval is ordered and lies between the smallest and the largest observed ratio,
  // and so does the geometric mean.
  lemma IntervalObserved(m: Maths, samples: seq<Sample>, seed: int, resamples: nat, lo: real, hi: real)
    requires ValidMaths(m) && AllPositive(samples) && |samples| >= 2 && resamples > 0
    requires 0.0 < lo && forall i :: 0 <= i < |samples| ==> lo <= Ratios(samples)[i] <= hi
    ensures var s := Summarized(m, samples, seed, resamples);
            lo <= s.low <= s.high <= hi && lo <= s.ratio <= hi
  {
    var logs := LogRatios(m, samples);
    LogsBetween(m, samples, lo, hi);
    BootstrapBetween(m, logs, seed, resamples, lo, hi);
    hide ValidMaths, Bootstrapped, Percentile, Ratios, LogRatios;
    var x := Bootstrapped(m, logs, seed, resamples);
    SortAscending(x);
    SortedBetween(x, lo, hi);
    PercentileMonotone(Sort(x), 0.025, 0.975);
  }

  lemma LogsBetween(m: Maths, samples: seq<Sample>, lo: real, hi: real)
    requires ValidMaths(m) && AllPositive(samples) && |samples| > 0
    requires 0.0 < lo && forall i :: 0 <= i < |samples| ==> lo <= Ratios(samples)[i] <= hi
    ensures lo <= hi && forall i :: 0 <= i < |samples| ==> m.log(lo) <= LogRatios(m, samples)[i] <= m.log(hi)
  {
    assert lo <= Ratios(samples)[0] <= hi;
    forall i | 0 <= i < |samples|
      ensures m.log(lo) <= LogRatios(m, samples)[i] <= m.log(hi)
    {
      assert lo <= Ratios(samples)[i] <= hi;
    }
  }

  lemma BootstrapBetween(m: Maths, logs: seq<real>, seed: int, resamples: nat, lo: real, hi: real)
    requires ValidMaths(m) && |logs| > 0 && 0.0 < lo <= hi
    requires forall i :: 0 <= i < |logs| ==> m.log(lo) <= logs[i] <= m.log(hi)
    ensures lo <= m.exp(MeanOf(logs)) <= hi
    ensures forall k :: 0 <= k < resamples ==> lo <= Bootstrapped(m, logs, seed, resamples)[k] <= hi
  {
    MeanBetween(logs, m.log(lo), m.log(hi));
    forall k | 0 <= k < resamples
      ensures lo <= Bootstrapped(m, logs, seed, resamples)[k] <= hi
    {
      MeanBetween(Drawn(m, logs, seed, k * |logs|, |logs|), m.log(lo), m.log(hi));
    }
  }

  lemma SortedBetween(s: seq<real>, lo: real, hi: real)
    requires forall i :: 0 <= i < |s| ==> lo <= s[i] <= hi
    ensures forall i :: 0 <= i < |s| ==> lo <= Sort(s)[i] <= hi
  {
    SortAscending(s);
    forall i | 0 <= i < |s|
      ensures lo <= Sort(s)[i] <= hi
    {
      assert Sort(s)[i] in multiset(Sort(s));
      assert Sort(s)[i] in s;
    }
  }
}
