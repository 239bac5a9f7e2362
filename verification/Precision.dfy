// How far the measurement uncertainty can move the comparison: cmd/nntpbench/precision.go.
module Precision {
  import opened Arithmetic
  import opened Statistics
  import opened SummaryFold

  datatype Conclusion =
    | Uncertain
    | UnboundedObservationUncertainty
    | InsufficientPairs
    | ConditionalOnlyWithFailures
    | ShortRunDescriptiveOnly
    | ObservationPrecisionInsufficient
    | CandidateFaster
    | CandidateSlower
    | PracticallyEquivalent

  datatype Timing = Timing(
    sensitivityLow: real, sensitivityHigh: real, minimum: real, uncertainty: real, conclusion: Conclusion)

  // The largest finite float64, where the running minimum starts.
  const MAX_FLOAT: real := ((PowerOf(2, 53) - 1) * PowerOf(2, 971)) as real

  function Min(a: real, b: real): real {
    if a < b then a else b
  }

  function Max(a: real, b: real): real {
    if a > b then a else b
  }

  // A block with both measurements.
  datatype Pair = Pair(baseline: real, candidate: real, baselineUncertainty: real, candidateUncertainty: real)

  predicate Declared(blocks: map<int, Block>, repetitions: seq<int>) {
    forall i :: 0 <= i < |repetitions| ==> repetitions[i] in blocks
  }

  // What one repetition adds.
  function PairOf(b: Block): seq<Pair> {
    if b.baseline.Timed? && b.candidate.Timed?
    then [Pair(b.baseline.duration, b.candidate.duration, b.baseline.uncertainty, b.candidate.uncertainty)] else []
  }

  // The blocks with both measurements, in the given order of repetitions.
  function Pairs(blocks: map<int, Block>, repetitions: seq<int>): seq<Pair>
    requires Declared(blocks, repetitions)
  {
    if |repetitions| == 0 then []
    else
      var b := blocks[repetitions[|repetitions| - 1]];
      Pairs(blocks, repetitions[..|repetitions| - 1]) + PairOf(b)
  }

  // The pairs as the summary compares them, and at the two ends of their uncertainty.
  function Nominal(pairs: seq<Pair>): (s: seq<Sample>)
    ensures |s| == |pairs|
  {
    seq(|pairs|, i requires 0 <= i < |pairs| => Sample(pairs[i].baseline, pairs[i].candidate))
  }

  function LowEnd(pairs: seq<Pair>): (s: seq<Sample>)
    ensures |s| == |pairs|
  {
    seq(|pairs|, i requires 0 <= i < |pairs| =>
      Sample(pairs[i].baseline, pairs[i].candidate - pairs[i].candidateUncertainty))
  }

  function HighEnd(pairs: seq<Pair>): (s: seq<Sample>)
    ensures |s| == |pairs|
  {
    seq(|pairs|, i requires 0 <= i < |pairs| =>
      Sample(pairs[i].baseline - pairs[i].baselineUncertainty, pairs[i].candidate))
  }

  predicate PlausiblePair(p: Pair) {
    p.baseline > 0.0 && p.candidate > 0.0 && p.baselineUncertainty >= 0.0 && p.candidateUncertainty >= 0.0
  }

  predicate Bounded(p: Pair) {
    p.baseline > p.baselineUncertainty && p.candidate > p.candidateUncertainty
  }

  predicate AllBounded(pairs: seq<Pair>) {
    forall i :: 0 <= i < |pairs| ==> Bounded(pairs[i])
  }

  lemma {:induction false} PairsPlausible(blocks: map<int, Block>, repetitions: seq<int>)
    requires Declared(blocks, repetitions)
    requires PlausibleBlocks(blocks)
    ensures AllPlausible(Pairs(blocks, repetitions))
  {
    if |repetitions| != 0 {
      var k := repetitions[|repetitions| - 1];
      assert k in blocks;
      assert PlausibleSide(blocks[k].baseline) && PlausibleSide(blocks[k].candidate);
      PairsPlausible(blocks, repetitions[..|repetitions| - 1]);
    }
  }

  lemma {:induction false} PairsPrefix(blocks: map<int, Block>, repetitions: seq<int>, i: nat)
    requires i <= |repetitions| && Declared(blocks, repetitions)
    ensures Pairs(blocks, repetitions[..i]) <= Pairs(blocks, repetitions)
  {
    if i == |repetitions| {
      assert repetitions[..i] == repetitions;
    } else {
      var n := |repetitions| - 1;
      PairsPrefix(blocks, repetitions[..n], i);
      assert repetitions[..n][..i] == repetitions[..i];
    }
  }

  lemma PairsStep(blocks: map<int, Block>, repetitions: seq<int>, i: nat)
    requires i < |repetitions| && Declared(blocks, repetitions)
    ensures Pairs(blocks, repetitions[..i + 1]) == Pairs(blocks, repetitions[..i]) + PairOf(blocks[repetitions[i]])
  {
    assert repetitions[..i + 1][..i] == repetitions[..i];
  }

  // The shortest measurement, and the largest uncertainty as a fraction of its measurement.
  function Shortest(pairs: seq<Pair>): real {
    if |pairs| == 0 then MAX_FLOAT
    else
      var p := pairs[|pairs| - 1];
      Min(Shortest(pairs[..|pairs| - 1]), Min(p.baseline, p.candidate))
  }

  // An uncertainty as a fraction of its measurement, which the checks on artifacts keep positive.
  function Fraction(u: real, x: real): real {
    if x > 0.0 then u / x else 0.0
  }

  function Loosest(pairs: seq<Pair>): real {
    if |pairs| == 0 then 0.0
    else
      var p := pairs[|pairs| - 1];
      Max(Loosest(pairs[..|pairs| - 1]),
          Max(Fraction(p.baselineUncertainty, p.baseline), Fraction(p.candidateUncertainty, p.candidate)))
  }

  predicate AllPlausible(pairs: seq<Pair>) {
    forall i :: 0 <= i < |pairs| ==> PlausiblePair(pairs[i])
  }

  predicate Lasts(p: Pair, bound: real) {
    bound <= p.baseline && bound <= p.candidate
  }

  predicate Tight(p: Pair, bound: real) {
    p.baselineUncertainty <= bound * p.baseline && p.candidateUncertainty <= bound * p.candidate
  }

  lemma {:induction false} ShortestBound(pairs: seq<Pair>, bound: real)
    requires bound <= MAX_FLOAT
    ensures bound <= Shortest(pairs) <==> forall i :: 0 <= i < |pairs| ==> Lasts(pairs[i], bound)
  {
    hide PowerOf;
    if |pairs| != 0 {
      ShortestBound(pairs[..|pairs| - 1], bound);
      assert bound <= Shortest(pairs) <==>
             bound <= Shortest(pairs[..|pairs| - 1]) && Lasts(pairs[|pairs| - 1], bound);
    }
  }

  lemma {:induction false} LoosestBound(pairs: seq<Pair>, bound: real)
    requires bound >= 0.0 && AllPlausible(pairs)
    ensures Loosest(pairs) <= bound <==> forall i :: 0 <= i < |pairs| ==> Tight(pairs[i], bound)
  {
    if |pairs| != 0 {
      var p := pairs[|pairs| - 1];
      assert PlausiblePair(p);
      LoosestBound(pairs[..|pairs| - 1], bound);
      TightFractions(p, bound);
      assert Loosest(pairs) <= bound <==> Loosest(pairs[..|pairs| - 1]) <= bound && Tight(p, bound) by {
        hide Tight;
      }
      assert forall i :: 0 <= i < |pairs| - 1 ==> pairs[..|pairs| - 1][i] == pairs[i];
    }
  }

  // The shortest measurement is at most every measurement, and one of them unless all are
  // beyond the largest float.
  lemma {:induction false} ShortestMeans(pairs: seq<Pair>)
    ensures forall i :: 0 <= i < |pairs| ==> Shortest(pairs) <= pairs[i].baseline && Shortest(pairs) <= pairs[i].candidate
    ensures Shortest(pairs) == MAX_FLOAT ||
            exists i :: 0 <= i < |pairs| && (Shortest(pairs) == pairs[i].baseline || Shortest(pairs) == pairs[i].candidate)
  {
    hide PowerOf;
    if |pairs| != 0 {
      var n := |pairs| - 1;
      ShortestMeans(pairs[..n]);
      assert forall i :: 0 <= i < n ==> pairs[..n][i] == pairs[i];
    }
  }

  predicate HasFraction(p: Pair, x: real) {
    x * p.baseline == p.baselineUncertainty || x * p.candidate == p.candidateUncertainty
  }

  // The largest fraction bounds the uncertainty of every measurement, and one reaches it.
  lemma {:induction false} LoosestMeans(pairs: seq<Pair>)
    requires AllPlausible(pairs)
    ensures forall i :: 0 <= i < |pairs| ==> Tight(pairs[i], Loosest(pairs))
    ensures |pairs| > 0 ==> exists i :: 0 <= i < |pairs| && HasFraction(pairs[i], Loosest(pairs))
  {
    LoosestPositive(pairs);
    LoosestBound(pairs, Loosest(pairs));
    if |pairs| != 0 {
      var n := |pairs| - 1;
      var p, less := pairs[n], pairs[..n];
      assert PlausiblePair(p);
      OwnFraction(p);
      hide HasFraction, Tight;
      if |less| == 0 {
        assert Loosest(less) == 0.0;
        FractionsPositive(p);
      } else {
        LoosestMeans(less);
        var i :| 0 <= i < |less| && HasFraction(less[i], Loosest(less));
        assert less[i] == pairs[i];
      }
    }
  }

  lemma FractionsPositive(p: Pair)
    requires PlausiblePair(p)
    ensures Fraction(p.baselineUncertainty, p.baseline) >= 0.0 && Fraction(p.candidateUncertainty, p.candidate) >= 0.0
  {
    DividePositive(p.baselineUncertainty, p.baseline);
    DividePositive(p.candidateUncertainty, p.candidate);
  }

  lemma DividePositive(a: real, b: real)
    requires a >= 0.0 && b > 0.0
    ensures a / b >= 0.0
  {
    var x := a / b;
    assert x * b == a;
    ProductOrder(x, 0.0, b);
  }

  lemma OwnFraction(p: Pair)
    requires PlausiblePair(p)
    ensures HasFraction(p, Fraction(p.baselineUncertainty, p.baseline))
    ensures HasFraction(p, Fraction(p.candidateUncertainty, p.candidate))
  {
  }

  lemma {:induction false} LoosestPositive(pairs: seq<Pair>)
    ensures Loosest(pairs) >= 0.0
  {
    if |pairs| != 0 {
      LoosestPositive(pairs[..|pairs| - 1]);
    }
  }

  lemma TightFractions(p: Pair, bound: real)
    requires PlausiblePair(p)
    ensures var loosest := Max(Fraction(p.baselineUncertainty, p.baseline), Fraction(p.candidateUncertainty, p.candidate));
            loosest <= bound <==> Tight(p, bound)
  {
    FractionBound(p.baselineUncertainty, p.baseline, bound);
    FractionBound(p.candidateUncertainty, p.candidate, bound);
  }

  lemma FractionBound(a: real, b: real, bound: real)
    requires b > 0.0
    ensures a / b <= bound <==> a <= bound * b
  {
    var x := a / b;
    assert x * b == a;
    ProductOrder(bound, x, b);
  }

  // What the loop has collected from the pairs so far.
  predicate Collected(pairs: seq<Pair>, low: seq<Sample>, high: seq<Sample>, minimum: real, uncertainty: real) {
    && AllBounded(pairs)
    && low == LowEnd(pairs) && high == HighEnd(pairs)
    && minimum == Shortest(pairs) && uncertainty == Loosest(pairs)
  }

  lemma CollectedNext(
    pairs: seq<Pair>, low: seq<Sample>, high: seq<Sample>, minimum: real, uncertainty: real, p: Pair)
    requires Collected(pairs, low, high, minimum, uncertainty)
    ensures Bounded(p) ==>
              Collected(pairs + [p],
                low + [Sample(p.baseline, p.candidate - p.candidateUncertainty)],
                high + [Sample(p.baseline - p.baselineUncertainty, p.candidate)],
                Min(minimum, Min(p.baseline, p.candidate)),
                Max(uncertainty,
                  Max(Fraction(p.baselineUncertainty, p.baseline), Fraction(p.candidateUncertainty, p.candidate))))
  {
    assert (pairs + [p])[..|pairs|] == pairs;
  }

  // The pairs that the loop reaches: all, or those up to the first unbounded one.
  function Reached(pairs: seq<Pair>): seq<Pair> {
    if |pairs| == 0 || AllBounded(pairs[..|pairs| - 1]) then pairs else Reached(pairs[..|pairs| - 1])
  }

  lemma {:induction false} UnboundedPrefix(prefix: seq<Pair>, pairs: seq<Pair>)
    requires prefix <= pairs && !AllBounded(prefix)
    ensures !AllBounded(pairs) && Reached(pairs) == Reached(prefix)
    decreases |pairs|
  {
    if |prefix| == |pairs| {
      assert prefix == pairs;
    } else {
      UnboundedPrefix(prefix, pairs[..|pairs| - 1]);
    }
  }

  lemma FirstUnbounded(pairs: seq<Pair>, p: Pair)
    requires AllBounded(pairs) && !Bounded(p)
    ensures !AllBounded(pairs + [p]) && Reached(pairs + [p]) == pairs + [p]
  {
    assert (pairs + [p])[..|pairs|] == pairs && (pairs + [p])[|pairs|] == p;
  }

  lemma AllReached(pairs: seq<Pair>)
    requires AllBounded(pairs)
    ensures Reached(pairs) == pairs
  {
  }

  lemma MeasuresNext(pairs: seq<Pair>, p: Pair)
    ensures Shortest(pairs + [p]) == Min(Shortest(pairs), Min(p.baseline, p.candidate))
    ensures Loosest(pairs + [p]) ==
              Max(Loosest(pairs),
                Max(Fraction(p.baselineUncertainty, p.baseline), Fraction(p.candidateUncertainty, p.candidate)))
  {
    hide PowerOf;
    assert (pairs + [p])[..|pairs|] == pairs;
  }

  // The loop over the repetitions. It stops at the first pair whose uncertainty is not
  // smaller than its measurement.
  method CollectEnds(blocks: map<int, Block>, repetitions: seq<int>)
    returns (bounded: bool, low: seq<Sample>, high: seq<Sample>, minimum: real, uncertainty: real)
    requires Declared(blocks, repetitions)
    ensures bounded <==> AllBounded(Pairs(blocks, repetitions))
    ensures bounded ==> Collected(Pairs(blocks, repetitions), low, high, minimum, uncertainty)
    ensures minimum == Shortest(Reached(Pairs(blocks, repetitions)))
    ensures uncertainty == Loosest(Reached(Pairs(blocks, repetitions)))
  {
    hide Collected, AllBounded, Pairs, Reached, Shortest, Loosest, Fraction, Min, Max, Bounded;
    low, high, minimum, uncertainty := [], [], MAX_FLOAT, 0.0;
    NothingCollected(blocks, repetitions);
    for i := 0 to |repetitions|
      invariant Collected(Pairs(blocks, repetitions[..i]), low, high, minimum, uncertainty)
    {
      ghost var before := Pairs(blocks, repetitions[..i]);
      PairsStep(blocks, repetitions, i);
      PairsPrefix(blocks, repetitions, i + 1);
      var b := blocks[repetitions[i]];
      if !b.baseline.Timed? || !b.candidate.Timed? {
        assert Pairs(blocks, repetitions[..i + 1]) == before;
        continue;
      }
      var base, candidate := b.baseline.duration, b.candidate.duration;
      ghost var p := Pair(base, candidate, b.baseline.uncertainty, b.candidate.uncertainty);
      assert PairOf(b) == [p];
      CollectedBounded(before, low, high, minimum, uncertainty);
      CollectedNext(before, low, high, minimum, uncertainty, p);
      MeasuresNext(before, p);
      BoundedPair(p);
      minimum := Min(minimum, Min(base, candidate));
      uncertainty := Max(uncertainty,
        Max(Fraction(b.baseline.uncertainty, base), Fraction(b.candidate.uncertainty, candidate)));
      if base <= b.baseline.uncertainty || candidate <= b.candidate.uncertainty {
        FirstUnbounded(before, p);
        UnboundedPrefix(before + [p], Pairs(blocks, repetitions));
        bounded := false;
        return;
      }
      low := low + [Sample(base, candidate - b.candidate.uncertainty)];
      high := high + [Sample(base - b.baseline.uncertainty, candidate)];
    }
    assert repetitions[..|repetitions|] == repetitions;
    CollectedBounded(Pairs(blocks, repetitions), low, high, minimum, uncertainty);
    AllReached(Pairs(blocks, repetitions));
    bounded := true;
  }

  lemma BoundedPair(p: Pair)
    ensures Bounded(p) <==> !(p.baseline <= p.baselineUncertainty || p.candidate <= p.candidateUncertainty)
  {
  }

  lemma NothingCollected(blocks: map<int, Block>, repetitions: seq<int>)
    requires Declared(blocks, repetitions)
    ensures Collected(Pairs(blocks, repetitions[..0]), [], [], MAX_FLOAT, 0.0)
  {
  }

  lemma CollectedBounded(
    pairs: seq<Pair>, low: seq<Sample>, high: seq<Sample>, minimum: real, uncertainty: real)
    requires Collected(pairs, low, high, minimum, uncertainty)
    ensures AllBounded(pairs) && minimum == Shortest(pairs) && uncertainty == Loosest(pairs)
  {
  }

  function Concluded(p: Timing, failures: bool): Conclusion {
    if failures then ConditionalOnlyWithFailures
    else if p.minimum < 10000000000.0 then ShortRunDescriptiveOnly
    else if p.uncertainty > 0.01 then ObservationPrecisionInsufficient
    else if p.sensitivityHigh < 0.98 then CandidateFaster
    else if p.sensitivityLow > 1.02 then CandidateSlower
    else if p.sensitivityLow >= 0.98 && p.sensitivityHigh <= 1.02 then PracticallyEquivalent
    else p.conclusion
  }

  // At least two pairs, every measurement at least ten seconds long, and every uncertainty
  // at most one hundredth of its measurement.
  predicate Precise(pairs: seq<Pair>) {
    |pairs| >= 2 && forall i :: 0 <= i < |pairs| ==> Lasts(pairs[i], 10000000000.0) && Tight(pairs[i], 0.01)
  }

  lemma PreciseBounds(pairs: seq<Pair>)
    requires AllPlausible(pairs)
    ensures Precise(pairs) <==> |pairs| >= 2 && Shortest(pairs) >= 10000000000.0 && Loosest(pairs) <= 0.01
    ensures Precise(pairs) ==> AllBounded(pairs) && |pairs| >= 2
  {
    hide Shortest, Loosest, PowerOf;
    LargeFloat();
    ShortestBound(pairs, 10000000000.0);
    LoosestBound(pairs, 0.01);
  }

  lemma LargeFloat()
    ensures MAX_FLOAT >= 10000000000.0
  {
    hide PowerOf;
    TwoToTen(0);
    TwoToTen(10);
    TwoToTen(20);
    TwoToTen(30);
    TwoToGrows(931, 40);
    TwoToGrows(43, 10);
    TwoToStart();
    LargeProduct(PowerOf(2, 53) - 1, PowerOf(2, 971));
  }

  lemma TwoToStart()
    ensures PowerOf(2, 0) == 1
  {
  }

  lemma TwoToTen(n: nat)
    ensures PowerOf(2, n + 10) == 1024 * PowerOf(2, n)
  {
    assert PowerOf(2, n + 2) == 4 * PowerOf(2, n);
    assert PowerOf(2, n + 4) == 16 * PowerOf(2, n);
    assert PowerOf(2, n + 6) == 64 * PowerOf(2, n);
    assert PowerOf(2, n + 8) == 256 * PowerOf(2, n);
  }

  lemma {:induction false} TwoToGrows(n: nat, m: nat)
    ensures PowerOf(2, n + m) >= PowerOf(2, m) >= 1
    decreases n + m
  {
    if n > 0 {
      TwoToGrows(n - 1, m);
    } else if m > 0 {
      TwoToGrows(0, m - 1);
    }
  }

  lemma LargeProduct(a: int, b: int)
    requires a >= 1 && b >= 0
    ensures a * b >= b
  {
  }

  lemma CollectedParts(
    pairs: seq<Pair>, low: seq<Sample>, high: seq<Sample>, minimum: real, uncertainty: real)
    requires Collected(pairs, low, high, minimum, uncertainty)
    ensures AllBounded(pairs) && low == LowEnd(pairs) && high == HighEnd(pairs) && |low| == |high| == |pairs|
    ensures minimum == Shortest(pairs) && uncertainty == Loosest(pairs)
  {
  }

  lemma SummarizedInterval(m: Maths, samples: seq<Sample>, seed: int, resamples: nat)
    requires ValidMaths(m) && AllPositive(samples) && |samples| >= 2 && resamples > 0
    ensures Summarized(m, samples, seed, resamples).low == Low(m, samples, seed, resamples)
    ensures Summarized(m, samples, seed, resamples).high == High(m, samples, seed, resamples)
  {
  }

  // What the assessment reports about the pairs of a stratum.
  ghost function TimingOf(m: Maths, pairs: seq<Pair>, seed: int, resamples: int, failures: bool): Timing
    requires ValidMaths(m)
  {
    var reached := Reached(pairs);
    var p := Timing(0.0, 0.0, Shortest(reached), Loosest(reached), Uncertain);
    if !AllBounded(pairs) then p.(conclusion := UnboundedObservationUncertainty)
    else if |pairs| < 2 then p.(minimum := 0.0, conclusion := InsufficientPairs)
    else if resamples < 1 || !AllPositive(LowEnd(pairs)) || !AllPositive(HighEnd(pairs)) then p
    else
      var p := p.(sensitivityLow := Low(m, LowEnd(pairs), seed, resamples),
                  sensitivityHigh := High(m, HighEnd(pairs), seed, resamples));
      p.(conclusion := Concluded(p, failures))
  }

  method AssessTiming(
    m: Maths, blocks: map<int, Block>, repetitions: seq<int>, seed: int, resamples: int, failures: bool)
    returns (p: Timing)
    requires ValidMaths(m) && Declared(blocks, repetitions)
    ensures p == TimingOf(m, Pairs(blocks, repetitions), seed, resamples, failures)
  {
    hide ValidMaths, Low, High, Summarized, Pairs, Shortest, Loosest, Reached, AllBounded, AllPositive, LowEnd, HighEnd,
      Collected, Concluded;
    ghost var pairs := Pairs(blocks, repetitions);
    var bounded, low, high, minimum, uncertainty := CollectEnds(blocks, repetitions);
    p := Timing(0.0, 0.0, minimum, uncertainty, Uncertain);
    if !bounded {
      p := p.(conclusion := UnboundedObservationUncertainty);
      return;
    }
    CollectedParts(pairs, low, high, minimum, uncertainty);
    if |low| < 2 {
      p := p.(minimum := 0.0, conclusion := InsufficientPairs);
      return;
    }
    var l := SummarizePaired(m, low, seed, resamples);
    if l.Error? {
      return;
    }
    var h := SummarizePaired(m, high, seed, resamples);
    if h.Error? {
      return;
    }
    SummarizedInterval(m, low, seed, resamples);
    SummarizedInterval(m, high, seed, resamples);
    p := p.(sensitivityLow := l.summary.low, sensitivityHigh := h.summary.high);
    p := p.(conclusion := Concluded(p, failures));
  }

  // --- The sensitivity interval encloses the nominal one --------------------------------------------

  lemma DivideOrder(a: real, b: real, c: real, d: real)
    requires 0.0 < a <= c && 0.0 < d <= b
    ensures a / b <= c / d
  {
    var x, y := a / b, c / d;
    assert x * b == a && y * d == c;
    ProductOrder(0.0, x, b);
    ProductOrder(d, b, x);
    ProductOrder(y, x, d);
  }

  // All three summaries resample the same blocks, because they share the seed and the
  // number of samples.
  lemma SensitivityEncloses(m: Maths, pairs: seq<Pair>, seed: int, resamples: nat)
    requires ValidMaths(m) && |pairs| >= 2 && resamples >= 1 && AllBounded(pairs)
    requires AllPlausible(pairs)
    ensures AllPositive(LowEnd(pairs)) && AllPositive(Nominal(pairs)) && AllPositive(HighEnd(pairs))
    ensures Low(m, LowEnd(pairs), seed, resamples) <= Low(m, Nominal(pairs), seed, resamples)
    ensures Low(m, Nominal(pairs), seed, resamples) <= High(m, Nominal(pairs), seed, resamples)
    ensures High(m, Nominal(pairs), seed, resamples) <= High(m, HighEnd(pairs), seed, resamples)
  {
    hide ValidMaths, Low, High;
    assert AllPositive(LowEnd(pairs)) && AllPositive(Nominal(pairs)) && AllPositive(HighEnd(pairs));
    forall i | 0 <= i < |pairs|
      ensures Ratios(LowEnd(pairs))[i] <= Ratios(Nominal(pairs))[i] <= Ratios(HighEnd(pairs))[i]
    {
      var p := pairs[i];
      DivideOrder(p.candidate - p.candidateUncertainty, p.baseline, p.candidate, p.baseline);
      DivideOrder(p.candidate, p.baseline, p.candidate, p.baseline - p.baselineUncertainty);
    }
    IntervalBelow(m, LowEnd(pairs), Nominal(pairs), seed, resamples);
    IntervalBelow(m, Nominal(pairs), HighEnd(pairs), seed, resamples);
    IntervalOrdered(m, Nominal(pairs), seed, resamples);
  }

  lemma IntervalOrdered(m: Maths, samples: seq<Sample>, seed: int, resamples: nat)
    requires ValidMaths(m) && AllPositive(samples) && |samples| > 0 && resamples > 0
    ensures Low(m, samples, seed, resamples) <= High(m, samples, seed, resamples)
  {
    hide ValidMaths, Percentile;
    var x := Bootstrapped(m, LogRatios(m, samples), seed, resamples);
    SortAscending(x);
    PercentileMonotone(Sort(x), 0.025, 0.975);
  }

  // At least two pairs, every uncertainty smaller than its measurement, and resamples to take.
  predicate Assessed(pairs: seq<Pair>, resamples: int) {
    AllBounded(pairs) && |pairs| >= 2 && resamples >= 1
  }

  predicate AllLast(pairs: seq<Pair>) {
    forall i :: 0 <= i < |pairs| ==> Lasts(pairs[i], 10000000000.0)
  }

  // Which conclusion is drawn when, in terms of the pairs and the interval.
  lemma ConclusionHolds(m: Maths, pairs: seq<Pair>, seed: int, resamples: int, failures: bool)
    requires ValidMaths(m) && AllPlausible(pairs)
    ensures var p := TimingOf(m, pairs, seed, resamples, failures);
            var clean := Assessed(pairs, resamples) && !failures;
            && (p.conclusion == UnboundedObservationUncertainty <==> !AllBounded(pairs))
            && (p.conclusion == InsufficientPairs <==> AllBounded(pairs) && |pairs| < 2)
            && (p.conclusion == ConditionalOnlyWithFailures <==> Assessed(pairs, resamples) && failures)
            && (p.conclusion == ShortRunDescriptiveOnly <==> clean && !AllLast(pairs))
            && (p.conclusion == ObservationPrecisionInsufficient <==> clean && AllLast(pairs) && !Precise(pairs))
            && (p.conclusion == CandidateFaster <==> clean && Precise(pairs) && p.sensitivityHigh < 0.98)
            && (p.conclusion == CandidateSlower <==> clean && Precise(pairs) && p.sensitivityLow > 1.02)
            && (p.conclusion == PracticallyEquivalent <==>
                  clean && Precise(pairs) && 0.98 <= p.sensitivityLow && p.sensitivityHigh <= 1.02)
  {
    hide ValidMaths, Low, High, Shortest, Loosest, Reached, Precise, AllBounded, AllPositive, AllPlausible, LowEnd,
      HighEnd, Nominal, AllLast;
    PreciseBounds(pairs);
    LastsBound(pairs);
    if AllBounded(pairs) {
      AllReached(pairs);
      if Assessed(pairs, resamples) {
        SensitivityEncloses(m, pairs, seed, resamples);
      }
    }
  }

  lemma LastsBound(pairs: seq<Pair>)
    ensures AllLast(pairs) <==> Shortest(pairs) >= 10000000000.0
  {
    hide PowerOf, Shortest;
    LargeFloat();
    ShortestBound(pairs, 10000000000.0);
  }

  // The assessment beside the summary of the same pairs: whenever it is bounded its interval
  // encloses the summary's, so a decisive conclusion is never contradicted by the interval
  // that is reported.
  lemma TimingEncloses(m: Maths, pairs: seq<Pair>, seed: int, resamples: int, failures: bool)
    requires ValidMaths(m) && AllPlausible(pairs) && |pairs| >= 2 && resamples >= 1 && AllPositive(Nominal(pairs))
    ensures var p := TimingOf(m, pairs, seed, resamples, failures);
            var nominal := Summarized(m, Nominal(pairs), seed, resamples);
            && (p.conclusion != UnboundedObservationUncertainty ==>
                  p.sensitivityLow <= nominal.low <= nominal.high <= p.sensitivityHigh)
            && (p.conclusion == CandidateFaster ==> nominal.high < 0.98)
            && (p.conclusion == CandidateSlower ==> nominal.low > 1.02)
            && (p.conclusion == PracticallyEquivalent ==> 0.98 <= nominal.low && nominal.high <= 1.02)
  {
    hide ValidMaths, Low, High, Shortest, Loosest, Reached, Precise, AllBounded, AllPositive, AllPlausible, LowEnd,
      HighEnd, Nominal, Summarized;
    ConclusionHolds(m, pairs, seed, resamples, failures);
    SummarizedInterval(m, Nominal(pairs), seed, resamples);
    if AllBounded(pairs) {
      SensitivityEncloses(m, pairs, seed, resamples);
    }
  }
}
