// What a comparison and the rolls of buildSummaryReport say, told by the fields of the blocks:
// cmd/nntpbench/summarize.go.
module Reported {
  import opened Counters
  import CrossFixture
  import opened GeometricMean
  import opened Ordering
  import Precision
  import opened Statistics
  import opened SummaryFold
  import opened SummaryReport
  import TransferEvidence
  import opened Wrappers

  // --- Pairs of values -------------------------------------------------------------------------------------

  function DurationOf(side: Side): Option<real> {
    if side.Timed? then Some(side.duration) else None
  }

  function ValueOf(c: Counter): Option<real> {
    if c.Count? then Some(c.value) else None
  }

  function CpuOf(side: Side): Option<real> {
    if side.Timed? then ValueOf(side.cpu) else None
  }

  function RssOf(side: Side): Option<real> {
    if side.Timed? then ValueOf(side.rss) else None
  }

  function WritesOf(side: Side): Option<real> {
    if side.Timed? then ValueOf(side.writes) else None
  }

  predicate Both(blocks: map<int, Block>, value: Side -> Option<real>, r: int) {
    r in blocks && value(blocks[r].baseline).Some? && value(blocks[r].candidate).Some?
  }

  // The repetitions with both values, and how many of them come before r.
  ghost function AllBoth(blocks: map<int, Block>, value: Side -> Option<real>): set<int> {
    set q | q in blocks && Both(blocks, value, q)
  }

  ghost function BothBefore(blocks: map<int, Block>, value: Side -> Option<real>, r: int): set<int> {
    set q | q in blocks && q < r && Both(blocks, value, q)
  }

  // The samples are the pairs of the repetitions that have both values, in order of repetition,
  // the baseline's value as baseline and the candidate's as candidate.
  ghost predicate PairsUp(blocks: map<int, Block>, value: Side -> Option<real>, samples: seq<Sample>) {
    && |samples| == |AllBoth(blocks, value)|
    && (forall r :: Both(blocks, value, r) ==> PairAt(blocks, value, samples, r))
    && AllFrom(blocks, value, samples)
  }

  ghost predicate FromSome(blocks: map<int, Block>, value: Side -> Option<real>, sample: Sample) {
    exists r :: IsPair(blocks, value, sample, r)
  }

  predicate IsPair(blocks: map<int, Block>, value: Side -> Option<real>, sample: Sample, r: int) {
    Both(blocks, value, r) &&
    sample == Sample(value(blocks[r].baseline).value, value(blocks[r].candidate).value)
  }

  ghost predicate PairAt(blocks: map<int, Block>, value: Side -> Option<real>, samples: seq<Sample>, r: int)
    requires Both(blocks, value, r)
  {
    var k := |BothBefore(blocks, value, r)|;
    k < |samples| && samples[k] == Sample(value(blocks[r].baseline).value, value(blocks[r].candidate).value)
  }

  function PairedBy(blocks: map<int, Block>, repetitions: seq<int>, value: Side -> Option<real>): seq<Sample>
    requires forall i :: 0 <= i < |repetitions| ==> repetitions[i] in blocks
  {
    if |repetitions| == 0 then []
    else
      var n := |repetitions| - 1;
      var b := blocks[repetitions[n]];
      PairedBy(blocks, repetitions[..n], value) +
      if Both(blocks, value, repetitions[n]) then [Sample(value(b.baseline).value, value(b.candidate).value)] else []
  }

  ghost function BothIn(blocks: map<int, Block>, repetitions: seq<int>, value: Side -> Option<real>): set<int> {
    set q | q in repetitions && Both(blocks, value, q)
  }

  lemma {:induction false} PairedLength(blocks: map<int, Block>, repetitions: seq<int>, value: Side -> Option<real>)
    requires forall i :: 0 <= i < |repetitions| ==> repetitions[i] in blocks
    requires Rising(repetitions, Identity())
    ensures |PairedBy(blocks, repetitions, value)| == |BothIn(blocks, repetitions, value)|
  {
    hide Both;
    if |repetitions| == 0 {
      assert BothIn(blocks, repetitions, value) == {};
    } else {
      var n := |repetitions| - 1;
      PairedLength(blocks, repetitions[..n], value);
      BothInNext(blocks, repetitions, value);
    }
  }

  lemma LastIsNew(repetitions: seq<int>)
    requires |repetitions| > 0 && Rising(repetitions, Identity())
    ensures var n := |repetitions| - 1;
            && repetitions[n] !in repetitions[..n]
            && forall q :: q in repetitions <==> q in repetitions[..n] || q == repetitions[n]
  {
    var n := |repetitions| - 1;
    assert repetitions == repetitions[..n] + [repetitions[n]];
  }

  lemma BothInNext(blocks: map<int, Block>, repetitions: seq<int>, value: Side -> Option<real>)
    requires |repetitions| > 0 && Rising(repetitions, Identity())
    ensures var n := |repetitions| - 1;
            |BothIn(blocks, repetitions, value)| ==
              |BothIn(blocks, repetitions[..n], value)| + if Both(blocks, value, repetitions[n]) then 1 else 0
  {
    hide Both, Rising;
    var n := |repetitions| - 1;
    LastIsNew(repetitions);
    OneMoreKey(BothIn(blocks, repetitions, value), BothIn(blocks, repetitions[..n], value), repetitions[n],
      Both(blocks, value, repetitions[n]));
  }

  lemma OneMoreKey(after: set<int>, before: set<int>, r: int, more: bool)
    requires r !in before && forall q :: q in after <==> (q in before || (q == r && more))
    ensures |after| == |before| + if more then 1 else 0
  {
    if more {
      assert forall q :: q in after <==> q in before + {r};
      assert after == before + {r};
    } else {
      assert forall q :: q in after <==> q in before;
      assert after == before;
    }
  }

  lemma {:induction false} PairedPrefix(
    blocks: map<int, Block>, repetitions: seq<int>, value: Side -> Option<real>, i: nat)
    requires i <= |repetitions| && forall k :: 0 <= k < |repetitions| ==> repetitions[k] in blocks
    ensures PairedBy(blocks, repetitions[..i], value) <= PairedBy(blocks, repetitions, value)
  {
    hide Both;
    if i == |repetitions| {
      assert repetitions[..i] == repetitions;
    } else {
      var n := |repetitions| - 1;
      PairedPrefix(blocks, repetitions[..n], value, i);
      assert repetitions[..n][..i] == repetitions[..i];
    }
  }

  lemma BeforeIsPrefix(blocks: map<int, Block>, repetitions: seq<int>, value: Side -> Option<real>, i: nat)
    requires Lists(repetitions, blocks.Keys, Identity()) && i < |repetitions|
    ensures BothBefore(blocks, value, repetitions[i]) == BothIn(blocks, repetitions[..i], value)
  {
    hide Both;
    forall q
      ensures q in blocks && q < repetitions[i] <==> q in repetitions[..i]
    {
      if q in blocks && q < repetitions[i] {
        var k :| 0 <= k < |repetitions| && repetitions[k] == q;
        assert k < i;
      }
      if q in repetitions[..i] {
        var k :| 0 <= k < i && repetitions[k] == q;
        assert repetitions[k] in repetitions;
      }
    }
  }

  lemma PairedPairsUp(blocks: map<int, Block>, repetitions: seq<int>, value: Side -> Option<real>)
    requires Lists(repetitions, blocks.Keys, Identity())
    ensures forall i :: 0 <= i < |repetitions| ==> repetitions[i] in blocks
    ensures PairsUp(blocks, value, PairedBy(blocks, repetitions, value))
  {
    hide Both, PairedBy, PairAt, AllFrom;
    InGroup(blocks, repetitions);
    PairedLength(blocks, repetitions, value);
    PairedFrom(blocks, repetitions, value);
    assert BothIn(blocks, repetitions, value) == AllBoth(blocks, value);
    forall r | Both(blocks, value, r)
      ensures PairAt(blocks, value, PairedBy(blocks, repetitions, value), r)
    {
      BothKey(blocks, value, r);
      assert r in repetitions;
      var i :| 0 <= i < |repetitions| && repetitions[i] == r;
      PairedAt(blocks, repetitions, value, i);
    }
  }

  ghost predicate AllFrom(blocks: map<int, Block>, value: Side -> Option<real>, samples: seq<Sample>) {
    forall k :: 0 <= k < |samples| ==> FromSome(blocks, value, samples[k])
  }

  lemma FromConcat(blocks: map<int, Block>, value: Side -> Option<real>, a: seq<Sample>, b: seq<Sample>)
    requires AllFrom(blocks, value, a) && AllFrom(blocks, value, b)
    ensures AllFrom(blocks, value, a + b)
  {
  }

  lemma {:induction false} PairedFrom(blocks: map<int, Block>, repetitions: seq<int>, value: Side -> Option<real>)
    requires forall i :: 0 <= i < |repetitions| ==> repetitions[i] in blocks
    ensures AllFrom(blocks, value, PairedBy(blocks, repetitions, value))
  {
    hide Both, FromSome;
    if |repetitions| != 0 {
      var n := |repetitions| - 1;
      var r := repetitions[n];
      PairedFrom(blocks, repetitions[..n], value);
      OwnPair(blocks, value, r);
      FromConcat(blocks, value, PairedBy(blocks, repetitions[..n], value),
        if Both(blocks, value, r)
        then [Sample(value(blocks[r].baseline).value, value(blocks[r].candidate).value)] else []);
    }
  }

  lemma OwnPair(blocks: map<int, Block>, value: Side -> Option<real>, r: int)
    ensures Both(blocks, value, r) ==>
              r in blocks && value(blocks[r].baseline).Some? && value(blocks[r].candidate).Some? &&
              FromSome(blocks, value, Sample(value(blocks[r].baseline).value, value(blocks[r].candidate).value))
  {
    if Both(blocks, value, r) {
      assert IsPair(blocks, value, Sample(value(blocks[r].baseline).value, value(blocks[r].candidate).value), r);
    }
  }

  lemma BothKey(blocks: map<int, Block>, value: Side -> Option<real>, r: int)
    requires Both(blocks, value, r)
    ensures r in blocks
  {
  }

  lemma PairedAt(blocks: map<int, Block>, repetitions: seq<int>, value: Side -> Option<real>, i: nat)
    requires Lists(repetitions, blocks.Keys, Identity()) && i < |repetitions|
    requires forall k :: 0 <= k < |repetitions| ==> repetitions[k] in blocks
    requires Both(blocks, value, repetitions[i])
    ensures PairAt(blocks, value, PairedBy(blocks, repetitions, value), repetitions[i])
  {
    hide BothBefore, BothIn;
    BeforeIsPrefix(blocks, repetitions, value, i);
    PairedLength(blocks, repetitions[..i], value);
    PairedPrefix(blocks, repetitions, value, i + 1);
    PairedStep(blocks, repetitions, value, i);
  }

  lemma PairedStep(blocks: map<int, Block>, repetitions: seq<int>, value: Side -> Option<real>, i: nat)
    requires i < |repetitions| && forall k :: 0 <= k < |repetitions| ==> repetitions[k] in blocks
    requires Both(blocks, value, repetitions[i])
    ensures var b := blocks[repetitions[i]];
            PairedBy(blocks, repetitions[..i + 1], value) ==
              PairedBy(blocks, repetitions[..i], value) + [Sample(value(b.baseline).value, value(b.candidate).value)]
  {
    assert repetitions[..i + 1][..i] == repetitions[..i];
  }

  lemma {:induction false} SamplesPaired(
    blocks: map<int, Block>, repetitions: seq<int>, baseline: bool, candidate: bool)
    requires forall i :: 0 <= i < |repetitions| ==> repetitions[i] in blocks
    ensures Samples(BlockList(blocks, repetitions, baseline, candidate)) == PairedBy(blocks, repetitions, DurationOf)
  {
    if |repetitions| != 0 {
      var n := |repetitions| - 1;
      SamplesPaired(blocks, repetitions[..n], baseline, candidate);
      assert BlockList(blocks, repetitions, baseline, candidate)[..n] ==
             BlockList(blocks, repetitions[..n], baseline, candidate);
    }
  }

  function MetricOf(metric: Metric): Side -> Option<real> {
    match metric
    case Cpu => CpuOf
    case Rss => RssOf
    case Writes => WritesOf
  }

  lemma PairOfCounters(b: Block, baseline: bool, candidate: bool, metric: Metric)
    ensures var value := MetricOf(metric);
            CounterPair(Filled(b, baseline, candidate), metric) ==
              if value(b.baseline).Some? && value(b.candidate).Some?
              then [Sample(value(b.baseline).value, value(b.candidate).value)] else []
  {
  }

  lemma {:induction false} CountersPaired(
    blocks: map<int, Block>, repetitions: seq<int>, baseline: bool, candidate: bool, metric: Metric)
    requires forall i :: 0 <= i < |repetitions| ==> repetitions[i] in blocks
    ensures CounterSamples(BlockList(blocks, repetitions, baseline, candidate), metric) ==
              PairedBy(blocks, repetitions, MetricOf(metric))
  {
    hide CounterPair, Filled, MetricOf;
    if |repetitions| != 0 {
      var n := |repetitions| - 1;
      CountersPaired(blocks, repetitions[..n], baseline, candidate, metric);
      PairOfCounters(blocks[repetitions[n]], baseline, candidate, metric);
      assert BlockList(blocks, repetitions, baseline, candidate)[..n] ==
             BlockList(blocks, repetitions[..n], baseline, candidate);
    }
  }

  // What the samples of a stratum are: those of its summary, and those of its counters.
  lemma StratumPairsUp(t: Tables, s: Stratum, rules: Rules)
    requires s in t.groups
    ensures PairsUp(t.groups[s], DurationOf, Samples(Considered(t, s, rules)))
    ensures PairsUp(t.groups[s], CpuOf, CounterSamples(Considered(t, s, rules), Cpu))
    ensures PairsUp(t.groups[s], RssOf, CounterSamples(Considered(t, s, rules), Rss))
    ensures PairsUp(t.groups[s], WritesOf, CounterSamples(Considered(t, s, rules), Writes))
  {
    hide PairsUp, Samples, CounterSamples, BlockList, Excluded, PairedBy, Lists, Injective;
    IdentityInjective();
    var blocks := t.groups[s];
    var repetitions := Sorted(blocks.Keys, Identity());
    InGroup(blocks, repetitions);
    hide Sorted, Identity;
    var baseline := Excluded(rules.exclusions, rules.roles.baseline, s.fixture);
    var candidate := Excluded(rules.exclusions, rules.roles.candidate, s.fixture);
    SamplesPaired(blocks, repetitions, baseline, candidate);
    CountersPaired(blocks, repetitions, baseline, candidate, Cpu);
    CountersPaired(blocks, repetitions, baseline, candidate, Rss);
    CountersPaired(blocks, repetitions, baseline, candidate, Writes);
    PairedPairsUp(blocks, repetitions, DurationOf);
    PairedPairsUp(blocks, repetitions, CpuOf);
    PairedPairsUp(blocks, repetitions, RssOf);
    PairedPairsUp(blocks, repetitions, WritesOf);
  }

  // --- A comparison ----------------------------------------------------------------------------------------

  // A figure of a comparison is about the pairs of one value: it counts them, and its ratio is
  // their geometric mean.
  ghost predicate IsFigure(
    m: Maths, rules: Rules, blocks: map<int, Block>, value: Side -> Option<real>, paired: nat, summary: Option<Summary>)
    requires ValidMaths(m)
  {
    exists samples :: PairsUp(blocks, value, samples) && paired == |samples| && IsSummary(m, rules, samples, summary)
  }

  ghost predicate IsSummary(m: Maths, rules: Rules, samples: seq<Sample>, summary: Option<Summary>)
    requires ValidMaths(m)
  {
    summary.Some? ==>
      && |samples| >= 2 && rules.resamples > 0 && AllPositive(samples)
      && summary.value == Summarized(m, samples, rules.seed, rules.resamples)
      && IsRatio(summary.value.ratio, samples)
  }

  lemma SummaryIs(m: Maths, rules: Rules, samples: seq<Sample>)
    requires ValidMaths(m) && |samples| >= 2 && rules.resamples > 0 && AllPositive(samples)
    ensures IsSummary(m, rules, samples, Some(Summarized(m, samples, rules.seed, rules.resamples)))
  {
    hide ValidMaths, Summarized, IsRatio;
    RatioIsGeometric(m, samples, rules.seed, rules.resamples);
  }

  lemma FigurePaired(m: Maths, t: Tables, s: Stratum, bs: seq<Block>, metric: Metric, rules: Rules, ranks: Ranks)
    requires ValidMaths(m) && ValidRanks(ranks) && FigureOf(m, t, s, bs, metric, rules, ranks).Some?
    ensures var c := FigureOf(m, t, s, bs, metric, rules, ranks).value;
            c.paired == |CounterSamples(bs, metric)| && IsSummary(m, rules, CounterSamples(bs, metric), c.summary)
  {
    hide ValidMaths, Summarized, ReasonsOf, AccountingOf, CounterSamples, AccountFor, CaveatsFor, IsRatio;
    var samples := CounterSamples(bs, metric);
    if rules.resamples > 0 && |samples| >= 2 && AllPositive(samples) {
      SummaryIs(m, rules, samples);
    }
  }

  // What a comparison compares: durations, and each counter with itself, the baseline's values
  // as baseline and the candidate's as candidate.
  lemma JudgedFigures(m: Maths, t: Tables, s: Stratum, rules: Rules, ranks: Ranks)
    requires ValidMaths(m) && ValidRanks(ranks) && s in t.groups && Judged(m, t, s, rules, ranks).Verdict?
    ensures var c := Judged(m, t, s, rules, ranks).comparison;
            && c.stratum == s
            && IsFigure(m, rules, t.groups[s], DurationOf, c.completion.paired, c.summary)
            && IsFigure(m, rules, t.groups[s], CpuOf, c.cpu.paired, c.cpu.summary)
            && IsFigure(m, rules, t.groups[s], RssOf, c.rss.paired, c.rss.summary)
            && IsFigure(m, rules, t.groups[s], WritesOf, c.writes.paired, c.writes.summary)
  {
    hide ValidMaths, ValidRanks, FigureOf, Summarized, Samples, CounterSamples, Considered, Recorded, PairsUp, Tally,
      AllComplete, AllPositive, IsSummary, Excluded, Precision.TimingOf, PairsOf, PoliciesOf, ExclusionsOf, ClassFor,
      CaseFor, DigestFor, TransferEvidence.TransferOf;
    var bs := Considered(t, s, rules);
    StratumPairsUp(t, s, rules);
    FigurePaired(m, t, s, bs, Cpu, rules, ranks);
    FigurePaired(m, t, s, bs, Rss, rules, ranks);
    FigurePaired(m, t, s, bs, Writes, rules, ranks);
    NoSummary(m, rules, Samples(bs));
    var c := Judged(m, t, s, rules, ranks).comparison;
    if c.summary.Some? {
      SummaryIs(m, rules, Samples(bs));
    }
    assert IsSummary(m, rules, Samples(bs), c.summary);
  }

  lemma NoSummary(m: Maths, rules: Rules, samples: seq<Sample>)
    requires ValidMaths(m)
    ensures IsSummary(m, rules, samples, None)
  {
  }

  // --- Completion ------------------------------------------------------------------------------------------

  function FilledIn(blocks: map<int, Block>, repetitions: seq<int>, p: Block -> bool, x: bool, y: bool): set<int>
    requires forall i :: 0 <= i < |repetitions| ==> repetitions[i] in blocks
  {
    set q | q in repetitions && q in blocks && p(Filled(blocks[q], x, y))
  }

  lemma {:induction false} TallyCounts(
    blocks: map<int, Block>, repetitions: seq<int>, p: Block -> bool, x: bool, y: bool)
    requires forall i :: 0 <= i < |repetitions| ==> repetitions[i] in blocks
    requires Rising(repetitions, Identity())
    ensures Tally(BlockList(blocks, repetitions, x, y), p) == |FilledIn(blocks, repetitions, p, x, y)|
  {
    hide Filled;
    if |repetitions| == 0 {
      assert FilledIn(blocks, repetitions, p, x, y) == {};
    } else {
      var n := |repetitions| - 1;
      var less, r := repetitions[..n], repetitions[n];
      TallyCounts(blocks, less, p, x, y);
      LastIsNew(repetitions);
      assert BlockList(blocks, repetitions, x, y)[..n] == BlockList(blocks, less, x, y);
      FilledInNext(blocks, repetitions, p, x, y);
    }
  }

  lemma FilledInNext(blocks: map<int, Block>, repetitions: seq<int>, p: Block -> bool, x: bool, y: bool)
    requires |repetitions| > 0 && Rising(repetitions, Identity())
    requires forall i :: 0 <= i < |repetitions| ==> repetitions[i] in blocks
    ensures var n := |repetitions| - 1;
            |FilledIn(blocks, repetitions, p, x, y)| ==
              |FilledIn(blocks, repetitions[..n], p, x, y)| +
              if p(Filled(blocks[repetitions[n]], x, y)) then 1 else 0
  {
    hide Rising;
    var n := |repetitions| - 1;
    LastIsNew(repetitions);
    hide Filled;
    OneMoreKey(FilledIn(blocks, repetitions, p, x, y), FilledIn(blocks, repetitions[..n], p, x, y), repetitions[n],
      p(Filled(blocks[repetitions[n]], x, y)));
  }

  // The counts of a comparison, in the blocks as they were recorded. Where a client has no run
  // the plan excluded it, and the block counts as that client not finishing.
  ghost predicate CompletionIs(c: Completion, blocks: map<int, Block>) {
    && c.observed == |blocks.Keys|
    && c.paired == |set q | q in blocks && blocks[q].baseline.Timed? && blocks[q].candidate.Timed?|
    && c.baselineMissed == |set q | q in blocks && !blocks[q].baseline.Timed?|
    && c.candidateMissed == |set q | q in blocks && !blocks[q].candidate.Timed?|
    && c.baselineExcluded == |set q | q in blocks && blocks[q].baseline.Absent?|
    && c.candidateExcluded == |set q | q in blocks && blocks[q].candidate.Absent?|
  }

  ghost predicate AbsencesExcluded(blocks: map<int, Block>, s: Stratum, rules: Rules) {
    forall q :: q in blocks ==>
      && (blocks[q].baseline.Absent? ==> Excluded(rules.exclusions, rules.roles.baseline, s.fixture))
      && (blocks[q].candidate.Absent? ==> Excluded(rules.exclusions, rules.roles.candidate, s.fixture))
  }

  lemma CompleteExcluded(blocks: map<int, Block>, repetitions: seq<int>, x: bool, y: bool)
    requires Lists(repetitions, blocks.Keys, Identity())
    requires forall i :: 0 <= i < |repetitions| ==> repetitions[i] in blocks
    requires AllComplete(BlockList(blocks, repetitions, x, y))
    ensures forall q :: q in blocks ==> (blocks[q].baseline.Absent? ==> x) && (blocks[q].candidate.Absent? ==> y)
  {
    forall q | q in blocks
      ensures (blocks[q].baseline.Absent? ==> x) && (blocks[q].candidate.Absent? ==> y)
    {
      assert q in repetitions;
      var i :| 0 <= i < |repetitions| && repetitions[i] == q;
      assert Complete(BlockList(blocks, repetitions, x, y)[i]);
    }
  }

  lemma MissedSets(blocks: map<int, Block>, repetitions: seq<int>, x: bool, y: bool)
    requires Lists(repetitions, blocks.Keys, Identity())
    requires forall i :: 0 <= i < |repetitions| ==> repetitions[i] in blocks
    requires forall q :: q in blocks ==> (blocks[q].baseline.Absent? ==> x) && (blocks[q].candidate.Absent? ==> y)
    ensures FilledIn(blocks, repetitions, BaselineMissed(), x, y) == set q | q in blocks && !blocks[q].baseline.Timed?
    ensures FilledIn(blocks, repetitions, CandidateMissed(), x, y) == set q | q in blocks && !blocks[q].candidate.Timed?
    ensures FilledIn(blocks, repetitions, BaselineAbsent(), false, false) ==
              set q | q in blocks && blocks[q].baseline.Absent?
    ensures FilledIn(blocks, repetitions, CandidateAbsent(), false, false) ==
              set q | q in blocks && blocks[q].candidate.Absent?
  {
  }

  lemma NoneAbsent(blocks: map<int, Block>)
    ensures (forall q :: q in blocks ==> !blocks[q].baseline.Absent?) ==>
              |set q | q in blocks && blocks[q].baseline.Absent?| == 0
    ensures (forall q :: q in blocks ==> !blocks[q].candidate.Absent?) ==>
              |set q | q in blocks && blocks[q].candidate.Absent?| == 0
  {
    if forall q :: q in blocks ==> !blocks[q].baseline.Absent? {
      assert (set q | q in blocks && blocks[q].baseline.Absent?) == {};
    }
    if forall q :: q in blocks ==> !blocks[q].candidate.Absent? {
      assert (set q | q in blocks && blocks[q].candidate.Absent?) == {};
    }
  }

  lemma CompletionCounts(blocks: map<int, Block>, repetitions: seq<int>, x: bool, y: bool)
    requires Lists(repetitions, blocks.Keys, Identity()) && |repetitions| == |blocks.Keys|
    requires forall i :: 0 <= i < |repetitions| ==> repetitions[i] in blocks
    requires AllComplete(BlockList(blocks, repetitions, x, y))
    ensures CompletionIs(
              CompletionOf(BlockList(blocks, repetitions, false, false), BlockList(blocks, repetitions, x, y), x, y),
              blocks)
  {
    hide Tally, Samples, BlockList, FilledIn, AllComplete, PairsUp, PairedBy;
    CompleteExcluded(blocks, repetitions, x, y);
    MissedSets(blocks, repetitions, x, y);
    NoneAbsent(blocks);
    TallyCounts(blocks, repetitions, BaselineMissed(), x, y);
    TallyCounts(blocks, repetitions, CandidateMissed(), x, y);
    TallyCounts(blocks, repetitions, BaselineAbsent(), false, false);
    TallyCounts(blocks, repetitions, CandidateAbsent(), false, false);
    SamplesPaired(blocks, repetitions, x, y);
    PairedPairsUp(blocks, repetitions, DurationOf);
    PairedCount(blocks, PairedBy(blocks, repetitions, DurationOf));
  }

  lemma PairedCount(blocks: map<int, Block>, samples: seq<Sample>)
    requires PairsUp(blocks, DurationOf, samples)
    ensures |samples| == |set q | q in blocks && blocks[q].baseline.Timed? && blocks[q].candidate.Timed?|
  {
    assert AllBoth(blocks, DurationOf) == set q | q in blocks && blocks[q].baseline.Timed? && blocks[q].candidate.Timed?;
  }

  lemma JudgedCompletion(m: Maths, t: Tables, s: Stratum, rules: Rules, ranks: Ranks)
    requires ValidMaths(m) && ValidRanks(ranks) && s in t.groups && Judged(m, t, s, rules, ranks).Verdict?
    ensures CompletionIs(Judged(m, t, s, rules, ranks).comparison.completion, t.groups[s])
    ensures AbsencesExcluded(t.groups[s], s, rules)
  {
    hide ValidMaths, ValidRanks, FigureOf, Summarized, CompletionIs, CompletionOf, Excluded, BlockList, Samples, Tally,
      AllComplete, AllPositive, Sorted, Lists;
    IdentityInjective();
    DescribedCompletion(m, t, s, rules, ranks);
    var blocks := t.groups[s];
    var repetitions := Sorted(blocks.Keys, Identity());
    InGroup(blocks, repetitions);
    var x := Excluded(rules.exclusions, rules.roles.baseline, s.fixture);
    var y := Excluded(rules.exclusions, rules.roles.candidate, s.fixture);
    JudgedComplete(m, t, s, rules, ranks);
    CompletionCounts(blocks, repetitions, x, y);
    CompleteExcluded(blocks, repetitions, x, y);
  }

  lemma JudgedComplete(m: Maths, t: Tables, s: Stratum, rules: Rules, ranks: Ranks)
    requires ValidMaths(m) && ValidRanks(ranks) && s in t.groups && Judged(m, t, s, rules, ranks).Verdict?
    ensures AllComplete(Considered(t, s, rules))
  {
    hide ValidMaths, ValidRanks, FigureOf, Summarized, CompletionOf, Excluded, Considered, Samples, Tally, AllComplete;
  }

  // --- Errors ------------------------------------------------------------------------------------------------

  predicate AllDurationsPositive(blocks: map<int, Block>) {
    forall q :: q in blocks && blocks[q].baseline.Timed? && blocks[q].candidate.Timed? ==>
      blocks[q].baseline.duration > 0.0 && blocks[q].candidate.duration > 0.0
  }

  // A stratum is compared exactly when no run is missing that the plan did not exclude, every
  // counter that is compared can be, and the pairs are enough: as many as asked for, at least two
  // and positive, with resamples to take; or fewer, when a run that did not finish explains it.
  lemma JudgedExactly(m: Maths, t: Tables, s: Stratum, rules: Rules, ranks: Ranks)
    requires ValidMaths(m) && ValidRanks(ranks) && s in t.groups
    ensures var blocks := t.groups[s];
            var paired := |AllBoth(blocks, DurationOf)|;
            Judged(m, t, s, rules, ranks).Verdict? <==>
              && AbsencesExcluded(blocks, s, rules)
              && FigureOf(m, t, s, Considered(t, s, rules), Cpu, rules, ranks).Some?
              && FigureOf(m, t, s, Considered(t, s, rules), Rss, rules, ranks).Some?
              && FigureOf(m, t, s, Considered(t, s, rules), Writes, rules, ranks).Some?
              && (if paired < rules.minimumBlocks
                  then exists q :: q in blocks && !(blocks[q].baseline.Timed? && blocks[q].candidate.Timed?)
                  else paired >= 2 && rules.resamples >= 1 && AllDurationsPositive(blocks))
  {
    hide ValidMaths, ValidRanks, FigureOf, Summarized, Considered, Samples, Tally, AllComplete, AllPositive, PairsUp,
      CompletionOf, Described, AbsencesExcluded, AllBoth, AllDurationsPositive;
    StratumPairsUp(t, s, rules);
    ConsideredComplete(t, s, rules);
    PairsCounted(t.groups[s], Samples(Considered(t, s, rules)));
    if AbsencesExcluded(t.groups[s], s, rules) {
      MissedBlocks(t, s, rules);
    }
  }

  lemma PairsCounted(blocks: map<int, Block>, samples: seq<Sample>)
    requires PairsUp(blocks, DurationOf, samples)
    ensures |samples| == |AllBoth(blocks, DurationOf)|
    ensures AllPositive(samples) <==> AllDurationsPositive(blocks)
  {
    if AllPositive(samples) {
      forall q | q in blocks && blocks[q].baseline.Timed? && blocks[q].candidate.Timed?
        ensures blocks[q].baseline.duration > 0.0 && blocks[q].candidate.duration > 0.0
      {
        assert PairAt(blocks, DurationOf, samples, q);
        assert Positive(samples[|BothBefore(blocks, DurationOf, q)|]);
      }
    }
    if AllDurationsPositive(blocks) {
      forall k | 0 <= k < |samples|
        ensures Positive(samples[k])
      {
        assert FromSome(blocks, DurationOf, samples[k]);
        var q :| IsPair(blocks, DurationOf, samples[k], q);
      }
    }
  }

  lemma ConsideredComplete(t: Tables, s: Stratum, rules: Rules)
    requires s in t.groups
    ensures AllComplete(Considered(t, s, rules)) <==> AbsencesExcluded(t.groups[s], s, rules)
  {
    hide Excluded, Sorted, Lists, Identity, Injective, AllComplete, BlockList;
    IdentityInjective();
    var blocks := t.groups[s];
    var repetitions := Sorted(blocks.Keys, Identity());
    InGroup(blocks, repetitions);
    var x := Excluded(rules.exclusions, rules.roles.baseline, s.fixture);
    var y := Excluded(rules.exclusions, rules.roles.candidate, s.fixture);
    if AllComplete(BlockList(blocks, repetitions, x, y)) {
      CompleteExcluded(blocks, repetitions, x, y);
    }
    if AbsencesExcluded(blocks, s, rules) {
      ExcludedComplete(blocks, repetitions, x, y);
    }
  }

  lemma ExcludedComplete(blocks: map<int, Block>, repetitions: seq<int>, x: bool, y: bool)
    requires forall i :: 0 <= i < |repetitions| ==> repetitions[i] in blocks
    requires forall q :: q in blocks ==> (blocks[q].baseline.Absent? ==> x) && (blocks[q].candidate.Absent? ==> y)
    ensures AllComplete(BlockList(blocks, repetitions, x, y))
  {
    forall i | 0 <= i < |repetitions|
      ensures Complete(BlockList(blocks, repetitions, x, y)[i])
    {
      var q := repetitions[i];
      assert q in blocks;
      assert (blocks[q].baseline.Absent? ==> x) && (blocks[q].candidate.Absent? ==> y);
    }
  }

  // Some client did not finish some block exactly when some block is not a pair.
  lemma MissedBlocks(t: Tables, s: Stratum, rules: Rules)
    requires s in t.groups && AbsencesExcluded(t.groups[s], s, rules)
    ensures Tally(Considered(t, s, rules), EitherMissed()) > 0 <==>
              exists q :: q in t.groups[s] && !(t.groups[s][q].baseline.Timed? && t.groups[s][q].candidate.Timed?)
  {
    hide Excluded, Tally, AllComplete, Lists, BlockList, Samples;
    IdentityInjective();
    var blocks := t.groups[s];
    var repetitions := Sorted(blocks.Keys, Identity());
    InGroup(blocks, repetitions);
    var x := Excluded(rules.exclusions, rules.roles.baseline, s.fixture);
    var y := Excluded(rules.exclusions, rules.roles.candidate, s.fixture);
    ListsRising(repetitions, blocks.Keys, |repetitions|);
    TallyCounts(blocks, repetitions, EitherMissed(), x, y);
    MissedIn(blocks, repetitions, x, y);
  }

  lemma MissedIn(blocks: map<int, Block>, repetitions: seq<int>, x: bool, y: bool)
    requires Lists(repetitions, blocks.Keys, Identity())
    requires forall i :: 0 <= i < |repetitions| ==> repetitions[i] in blocks
    requires forall q :: q in blocks ==> (blocks[q].baseline.Absent? ==> x) && (blocks[q].candidate.Absent? ==> y)
    ensures |FilledIn(blocks, repetitions, EitherMissed(), x, y)| > 0 <==>
              exists q :: q in blocks && !(blocks[q].baseline.Timed? && blocks[q].candidate.Timed?)
  {
    var missed := FilledIn(blocks, repetitions, EitherMissed(), x, y);
    if q :| q in blocks && !(blocks[q].baseline.Timed? && blocks[q].candidate.Timed?) {
      assert q in missed;
    }
    if |missed| > 0 {
      var q :| q in missed;
      assert q in blocks && !(blocks[q].baseline.Timed? && blocks[q].candidate.Timed?);
    }
  }

  // --- Accounting and caveats --------------------------------------------------------------------------------

  // What is reported of one client's account: how often it was measured and how often not, and
  // why; and its source, when there is one.
  ghost predicate AccountingIs(a: Accounting, client: int, account: Option<Account>) {
    && a.client == client
    && (account.None? ==> a.measured == 0 && a.unavailable == 0 && a.unavailableReasons == [] && a.source.None?)
    && (account.Some? ==>
          && a.measured == |account.value.measured| && a.unavailable == account.value.unavailable
          && (forall r :: r in a.unavailableReasons <==> r in account.value.reasons)
          && (forall p :: OneSource(account, p) ==> a.source == Some(Source(p.scope, p.collector, p.version))))
  }

  lemma CheckAccounting(
    client: int, account: Option<Account>, compatible: Option<Provenance>, rank: Provenance -> int)
    requires Injective(rank)
    ensures AccountingIs(CheckOf(client, account, compatible, rank).accounting, client, account)
  {
    IdentityInjective();
    if account.Some? {
      var sources := Sorted(Provenances(account.value), rank);
      SourceListed(account.value, sources, rank);
      forall p | OneSource(account, p)
        ensures |sources| > 0 && sources[0] == p
      {
        OneSourceListed(account.value, sources, p);
      }
    }
  }

  lemma OneSourceListed(account: Account, sources: seq<Provenance>, p: Provenance)
    requires OneSource(Some(account), p)
    requires |sources| == 0 <==> Provenances(account) == {}
    requires |sources| > 0 ==> sources[0] in Provenances(account)
    ensures |sources| > 0 && sources[0] == p
  {
    assert p in Provenances(account);
  }

  ghost predicate FigureNotes(
    c: CounterComparison, roles: Roles, baseline: Option<Account>, candidate: Option<Account>, caveats: set<int>)
  {
    && |c.accounting| == 2
    && AccountingIs(c.accounting[0], roles.baseline, baseline)
    && AccountingIs(c.accounting[1], roles.candidate, candidate)
    && (forall x :: x in c.caveats <==> x in caveats)
  }

  lemma ComparisonNotes(
    m: Maths, roles: Roles, baseline: Option<Account>, candidate: Option<Account>, caveats: set<int>,
    samples: seq<Sample>, minimumBlocks: int, seed: int, resamples: int, rank: Provenance -> int)
    requires ValidMaths(m) && Injective(rank)
    requires ComparisonOf(m, roles, baseline, candidate, caveats, samples, minimumBlocks, seed, resamples, rank).Some?
    ensures FigureNotes(
              ComparisonOf(m, roles, baseline, candidate, caveats, samples, minimumBlocks, seed, resamples, rank).value,
              roles, baseline, candidate, caveats)
  {
    hide ValidMaths, Injective, AccountingIs, CheckOf, ReasonsOf, Summarized, AllPositive;
    IdentityInjective();
    CheckAccounting(roles.baseline, baseline, None, rank);
    CheckAccounting(roles.candidate, candidate, CheckOf(roles.baseline, baseline, None, rank).first, rank);
  }

  // Each counter is accounted for by its own accounts, the baseline's first; the storage caveats
  // stand with the CPU time only, and the NFS note with the writes only.
  lemma JudgedNotes(m: Maths, t: Tables, s: Stratum, rules: Rules, ranks: Ranks)
    requires ValidMaths(m) && ValidRanks(ranks) && s in t.groups && Judged(m, t, s, rules, ranks).Verdict?
    ensures var c := Judged(m, t, s, rules, ranks).comparison;
            var b, d := Product(s, rules.roles.baseline), Product(s, rules.roles.candidate);
            var nfs := StorageProfile in t.facts && t.facts[StorageProfile].Stored? && t.facts[StorageProfile].storage.nfs;
            && FigureNotes(c.cpu, rules.roles,
                 if b in t.accounts then Some(t.accounts[b].cpu) else None,
                 if d in t.accounts then Some(t.accounts[d].cpu) else None,
                 if s in t.caveats then t.caveats[s] else {})
            && FigureNotes(c.rss, rules.roles,
                 if b in t.accounts then Some(t.accounts[b].rss) else None,
                 if d in t.accounts then Some(t.accounts[d].rss) else None, {})
            && FigureNotes(c.writes, rules.roles,
                 if b in t.accounts then Some(t.accounts[b].writes) else None,
                 if d in t.accounts then Some(t.accounts[d].writes) else None,
                 if nfs then {NFS_NOTE} else {})
  {
    hide ValidMaths, Injective, Summarized, FigureNotes, ComparisonOf, CounterSamples, Considered, Recorded, Tally,
      AllComplete, AllPositive, Excluded, Precision.TimingOf, PairsOf, PoliciesOf, ExclusionsOf, ClassFor,
      CaseFor, DigestFor, TransferEvidence.TransferOf, CompletionOf, Samples;
    var bs := Considered(t, s, rules);
    FigureHasNotes(m, t, s, bs, Cpu, rules, ranks);
    FigureHasNotes(m, t, s, bs, Rss, rules, ranks);
    FigureHasNotes(m, t, s, bs, Writes, rules, ranks);
    hide FigureOf;
  }

  lemma FigureHasNotes(m: Maths, t: Tables, s: Stratum, bs: seq<Block>, metric: Metric, rules: Rules, ranks: Ranks)
    requires ValidMaths(m) && ValidRanks(ranks)
    ensures FigureOf(m, t, s, bs, metric, rules, ranks).Some? ==>
              FigureNotes(FigureOf(m, t, s, bs, metric, rules, ranks).value, rules.roles,
                AccountFor(t.accounts, Product(s, rules.roles.baseline), metric),
                AccountFor(t.accounts, Product(s, rules.roles.candidate), metric), CaveatsFor(t, s, metric))
  {
    hide ValidMaths, Injective, Summarized, FigureNotes, ComparisonOf, CounterSamples, AccountFor, CaveatsFor;
    if FigureOf(m, t, s, bs, metric, rules, ranks).Some? {
      ComparisonNotes(m, rules.roles,
        AccountFor(t.accounts, Product(s, rules.roles.baseline), metric),
        AccountFor(t.accounts, Product(s, rules.roles.candidate), metric),
        CaveatsFor(t, s, metric), CounterSamples(bs, metric),
        rules.minimumBlocks, rules.seed, rules.resamples, ranks.provenances);
    }
  }

  // --- Timing ------------------------------------------------------------------------------------------------

  // The two ends of the pairs: the candidate's measurement shortened by its uncertainty, and the
  // baseline's by its own.
  ghost predicate EndsUp(blocks: map<int, Block>, low: seq<Sample>, high: seq<Sample>) {
    && |low| == |high| == |AllBoth(blocks, DurationOf)|
    && forall r :: Both(blocks, DurationOf, r) ==> EndsAt(blocks, low, high, r)
  }

  ghost predicate EndsAt(blocks: map<int, Block>, low: seq<Sample>, high: seq<Sample>, r: int)
    requires Both(blocks, DurationOf, r)
  {
    var b, c := blocks[r].baseline, blocks[r].candidate;
    var k := |BothBefore(blocks, DurationOf, r)|;
    && k < |low| && low[k] == Sample(b.duration, c.duration - c.uncertainty)
    && k < |high| && high[k] == Sample(b.duration - b.uncertainty, c.duration)
  }

  lemma PairsLength(blocks: map<int, Block>, repetitions: seq<int>)
    requires forall i :: 0 <= i < |repetitions| ==> repetitions[i] in blocks
    ensures |Precision.Pairs(blocks, repetitions)| == |PairedBy(blocks, repetitions, DurationOf)|
  {
    SamplesNominal(blocks, repetitions, false, false);
    SamplesPaired(blocks, repetitions, false, false);
  }

  lemma PairsAt(blocks: map<int, Block>, repetitions: seq<int>, i: nat)
    requires Lists(repetitions, blocks.Keys, Identity()) && i < |repetitions|
    requires forall k :: 0 <= k < |repetitions| ==> repetitions[k] in blocks
    requires Both(blocks, DurationOf, repetitions[i])
    ensures var pairs := Precision.Pairs(blocks, repetitions);
            EndsAt(blocks, Precision.LowEnd(pairs), Precision.HighEnd(pairs), repetitions[i])
  {
    hide BothBefore, BothIn, PairedBy, Precision.Pairs, Lists;
    BeforeIsPrefix(blocks, repetitions, DurationOf, i);
    ListsRising(repetitions, blocks.Keys, i);
    PairedLength(blocks, repetitions[..i], DurationOf);
    PairsLength(blocks, repetitions[..i]);
    Precision.PairsStep(blocks, repetitions, i);
    Precision.PairsPrefix(blocks, repetitions, i + 1);
  }

  lemma ListsRising(repetitions: seq<int>, keys: set<int>, i: nat)
    requires Lists(repetitions, keys, Identity()) && i <= |repetitions|
    ensures Rising(repetitions, Identity()) && Rising(repetitions[..i], Identity())
  {
  }

  lemma PairsEndUp(blocks: map<int, Block>, repetitions: seq<int>)
    requires Lists(repetitions, blocks.Keys, Identity())
    requires forall k :: 0 <= k < |repetitions| ==> repetitions[k] in blocks
    ensures var pairs := Precision.Pairs(blocks, repetitions);
            EndsUp(blocks, Precision.LowEnd(pairs), Precision.HighEnd(pairs))
  {
    hide EndsAt, Precision.Pairs, PairedBy, Both;
    PairedPairsUp(blocks, repetitions, DurationOf);
    PairsLength(blocks, repetitions);
    var pairs := Precision.Pairs(blocks, repetitions);
    forall r | Both(blocks, DurationOf, r)
      ensures EndsAt(blocks, Precision.LowEnd(pairs), Precision.HighEnd(pairs), r)
    {
      BothKey(blocks, DurationOf, r);
      assert r in repetitions;
      var i :| 0 <= i < |repetitions| && repetitions[i] == r;
      PairsAt(blocks, repetitions, i);
    }
  }

  // Once bounded and with two pairs, the timing reports the interval ends of the two ends of the
  // pairs.
  ghost predicate TimingIs(m: Maths, rules: Rules, p: Precision.Timing, blocks: map<int, Block>)
    requires ValidMaths(m)
  {
    IsBounded(p) && rules.resamples >= 1 ==>
      exists low, high :: EndsUp(blocks, low, high) && IsInterval(m, rules, p, low, high)
  }

  predicate IsBounded(p: Precision.Timing) {
    p.conclusion != Precision.UnboundedObservationUncertainty && p.conclusion != Precision.InsufficientPairs
  }

  ghost predicate IsInterval(m: Maths, rules: Rules, p: Precision.Timing, low: seq<Sample>, high: seq<Sample>)
    requires ValidMaths(m)
  {
    && rules.resamples > 0 && |low| >= 2 && |high| >= 2 && AllPositive(low) && AllPositive(high)
    && p.sensitivityLow == Summarized(m, low, rules.seed, rules.resamples).low
    && p.sensitivityHigh == Summarized(m, high, rules.seed, rules.resamples).high
  }

  lemma TimingInterval(m: Maths, rules: Rules, pairs: seq<Precision.Pair>, missed: bool)
    requires ValidMaths(m) && Precision.AllPlausible(pairs) && rules.resamples >= 1
    ensures var p := Precision.TimingOf(m, pairs, rules.seed, rules.resamples, missed);
            IsBounded(p) ==> IsInterval(m, rules, p, Precision.LowEnd(pairs), Precision.HighEnd(pairs))
  {
    hide ValidMaths, Low, High, AllPositive, Precision.AllPlausible, Precision.LowEnd, Precision.HighEnd,
      Precision.Shortest, Precision.Loosest, Precision.Reached, Precision.AllBounded;
    Precision.ConclusionHolds(m, pairs, rules.seed, rules.resamples, missed);
    if Precision.AllBounded(pairs) && |pairs| >= 2 {
      Precision.SensitivityEncloses(m, pairs, rules.seed, rules.resamples);
      Precision.SummarizedInterval(m, Precision.LowEnd(pairs), rules.seed, rules.resamples);
      Precision.SummarizedInterval(m, Precision.HighEnd(pairs), rules.seed, rules.resamples);
    }
  }

  lemma JudgedTiming(m: Maths, t: Tables, s: Stratum, rules: Rules, ranks: Ranks)
    requires ValidMaths(m) && ValidRanks(ranks) && s in t.groups && Judged(m, t, s, rules, ranks).Verdict?
    requires PlausibleTables(t)
    ensures TimingIs(m, rules, Judged(m, t, s, rules, ranks).comparison.timing, t.groups[s])
  {
    hide ValidMaths, ValidRanks, FigureOf, Summarized, Considered, Recorded, Samples, Tally, CompletionOf, AllComplete,
      Excluded, EndsUp, IsInterval, Precision.TimingOf, Precision.LowEnd, Precision.HighEnd, Precision.Pairs,
      Precision.AllPlausible, Sorted, Lists, Injective, Identity;
    IdentityInjective();
    var blocks := t.groups[s];
    var repetitions := Sorted(blocks.Keys, Identity());
    InGroup(blocks, repetitions);
    PairsEndUp(blocks, repetitions);
    PairsSummarized(t, s, rules);
    var c := Judged(m, t, s, rules, ranks).comparison;
    if rules.resamples >= 1 {
      TimingInterval(m, rules, PairsOf(t, s), c.completion.baselineMissed > 0 || c.completion.candidateMissed > 0);
    }
  }
}
