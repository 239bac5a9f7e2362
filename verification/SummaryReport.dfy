// What buildSummaryReport makes of the folded artifacts, stratum by stratum:
// cmd/nntpbench/summarize.go.
module SummaryReport {
  import opened Counters
  import opened CrossFixture
  import opened Ordering
  import opened Statistics
  import Precision
  import opened SummaryFold
  import TransferEvidence
  import opened Wrappers

  datatype Exclusion = Exclusion(client: int, fixture: int, reason: int)

  datatype Rules = Rules(
    exclusions: seq<Exclusion>, roles: Roles, minimumBlocks: int, seed: int, resamples: int)

  // The sort keys of strata, groups and provenances: any injective ranks.
  datatype Ranks = Ranks(strata: Stratum -> int, groups: Group -> int, provenances: Provenance -> int)

  ghost predicate ValidRanks(r: Ranks) {
    Injective(r.strata) && Injective(r.groups) && Injective(r.provenances)
  }

  datatype Axis = Whole | Repair | Encryption

  // A class under one setting, or one group of it along an axis.
  datatype Group = Group(axis: Axis, value: string, fixtureClass: int, setting: int)

  datatype Completion = Completion(
    observed: nat, paired: nat, baselineMissed: nat, candidateMissed: nat, baselineExcluded: nat, candidateExcluded: nat)

  // --- Blocks -----------------------------------------------------------------------------------------------

  predicate Excluded(exclusions: seq<Exclusion>, client: int, fixture: int) {
    exists i :: 0 <= i < |exclusions| && exclusions[i].client == client && exclusions[i].fixture == fixture
  }

  function FirstExclusion(exclusions: seq<Exclusion>, client: int, fixture: int): Option<Exclusion> {
    if |exclusions| == 0 then None
    else if exclusions[0].client == client && exclusions[0].fixture == fixture then Some(exclusions[0])
    else FirstExclusion(exclusions[1..], client, fixture)
  }

  lemma {:induction false} ExcludedFirst(exclusions: seq<Exclusion>, client: int, fixture: int)
    ensures FirstExclusion(exclusions, client, fixture).Some? <==> Excluded(exclusions, client, fixture)
  {
    if |exclusions| != 0 {
      ExcludedFirst(exclusions[1..], client, fixture);
      assert forall i :: 0 <= i < |exclusions| - 1 ==> exclusions[1..][i] == exclusions[i + 1];
    }
  }

  method ExclusionFor(exclusions: seq<Exclusion>, client: int, fixture: int) returns (found: Option<Exclusion>)
    ensures found == FirstExclusion(exclusions, client, fixture)
    ensures found.Some? <==> Excluded(exclusions, client, fixture)
  {
    ExcludedFirst(exclusions, client, fixture);
    for i := 0 to |exclusions|
      invariant FirstExclusion(exclusions[i..], client, fixture) == FirstExclusion(exclusions, client, fixture)
    {
      assert exclusions[i..][1..] == exclusions[i + 1..];
      if exclusions[i].client == client && exclusions[i].fixture == fixture {
        return Some(exclusions[i]);
      }
    }
    return None;
  }

  // A block of which the plan excluded a client counts as that client not finishing.
  function Filled(b: Block, baseline: bool, candidate: bool): Block {
    Block(if b.baseline.Absent? && baseline then Unfinished else b.baseline,
          if b.candidate.Absent? && candidate then Unfinished else b.candidate)
  }

  predicate Complete(b: Block) {
    !b.baseline.Absent? && !b.candidate.Absent?
  }

  function SampleOf(b: Block): seq<Sample> {
    if b.baseline.Timed? && b.candidate.Timed? then [Sample(b.baseline.duration, b.candidate.duration)] else []
  }

  predicate Missed(b: Block) {
    b.baseline.Unfinished? || b.candidate.Unfinished?
  }

  // The blocks in the given order of repetitions, filled.
  function BlockList(blocks: map<int, Block>, repetitions: seq<int>, baseline: bool, candidate: bool): (r: seq<Block>)
    requires forall i :: 0 <= i < |repetitions| ==> repetitions[i] in blocks
    ensures |r| == |repetitions|
  {
    seq(|repetitions|, i requires 0 <= i < |repetitions| => Filled(blocks[repetitions[i]], baseline, candidate))
  }

  function Samples(bs: seq<Block>): seq<Sample> {
    if |bs| == 0 then [] else Samples(bs[..|bs| - 1]) + SampleOf(bs[|bs| - 1])
  }

  function Tally(bs: seq<Block>, p: Block -> bool): nat {
    if |bs| == 0 then 0 else Tally(bs[..|bs| - 1], p) + if p(bs[|bs| - 1]) then 1 else 0
  }

  function BaselineMissed(): Block -> bool {
    (b: Block) => b.baseline.Unfinished?
  }

  function CandidateMissed(): Block -> bool {
    (b: Block) => b.candidate.Unfinished?
  }

  function EitherMissed(): Block -> bool {
    (b: Block) => Missed(b)
  }

  function BaselineAbsent(): Block -> bool {
    (b: Block) => b.baseline.Absent?
  }

  function CandidateAbsent(): Block -> bool {
    (b: Block) => b.candidate.Absent?
  }

  predicate AllComplete(bs: seq<Block>) {
    forall i :: 0 <= i < |bs| ==> Complete(bs[i])
  }

  function CompletionOf(raw: seq<Block>, bs: seq<Block>, baseline: bool, candidate: bool): Completion {
    Completion(|bs|, |Samples(bs)|, Tally(bs, BaselineMissed()), Tally(bs, CandidateMissed()),
               if baseline then Tally(raw, BaselineAbsent()) else 0,
               if candidate then Tally(raw, CandidateAbsent()) else 0)
  }

  // Every observed block is paired or has a client that did not finish, never both.
  lemma {:induction false} BlocksConserved(bs: seq<Block>)
    requires AllComplete(bs)
    ensures |bs| == |Samples(bs)| + Tally(bs, EitherMissed())
  {
    if |bs| != 0 {
      assert Complete(bs[|bs| - 1]);
      BlocksConserved(bs[..|bs| - 1]);
    }
  }

  lemma {:induction false} NoneMissed(bs: seq<Block>)
    ensures Tally(bs, EitherMissed()) == 0 <==> Tally(bs, BaselineMissed()) == 0 && Tally(bs, CandidateMissed()) == 0
  {
    if |bs| != 0 {
      NoneMissed(bs[..|bs| - 1]);
    }
  }

  // --- One stratum ------------------------------------------------------------------------------------------

  datatype ClientPolicy = ClientPolicy(client: int, policy: Policy)

  datatype Comparison = Comparison(
    stratum: Stratum, fixtureClass: int, declared: Case, encoding: int, workload: int, infrastructure: int,
    completion: Completion, policies: seq<ClientPolicy>, exclusions: seq<Exclusion>, timing: Precision.Timing,
    cpu: CounterComparison, rss: CounterComparison, writes: CounterComparison,
    transfer: seq<TransferEvidence.Evidence>, summary: Option<Summary>)

  // What a stratum gives to the figure of its class.
  datatype Entry = Withheld | Pooled(samples: seq<Sample>)

  datatype Verdict = Incomparable | Verdict(comparison: Comparison, entry: Entry)

  datatype Metric = Cpu | Rss | Writes

  function CounterIn(s: Side, metric: Metric): Counter {
    match s
    case Absent => NoCount
    case Unfinished => NoCount
    case Timed(_, _, cpu, rss, writes) =>
      match metric
      case Cpu => cpu
      case Rss => rss
      case Writes => writes
  }

  function CounterPair(b: Block, metric: Metric): seq<Sample> {
    var x, y := CounterIn(b.baseline, metric), CounterIn(b.candidate, metric);
    if x.Count? && y.Count? then [Sample(x.value, y.value)] else []
  }

  function CounterSamples(bs: seq<Block>, metric: Metric): seq<Sample> {
    if |bs| == 0 then [] else CounterSamples(bs[..|bs| - 1], metric) + CounterPair(bs[|bs| - 1], metric)
  }

  function AccountFor(accounts: map<Product, Accounts>, p: Product, metric: Metric): Option<Account> {
    if p !in accounts then None
    else
      match metric
      case Cpu => Some(accounts[p].cpu)
      case Rss => Some(accounts[p].rss)
      case Writes => Some(accounts[p].writes)
  }

  // The note that an NFS profile puts on the device writes.
  const NFS_NOTE := 0

  // The storage caveats of a stratum concern the CPU time; nothing qualifies the memory.
  function CaveatsFor(t: Tables, s: Stratum, metric: Metric): set<int> {
    match metric
    case Cpu => if s in t.caveats then t.caveats[s] else {}
    case Rss => {}
    case Writes =>
      if StorageProfile in t.facts && t.facts[StorageProfile].Stored? && t.facts[StorageProfile].storage.nfs
      then {NFS_NOTE} else {}
  }

  // None: an error of the whole report.
  ghost function FigureOf(
    m: Maths, t: Tables, s: Stratum, bs: seq<Block>, metric: Metric, rules: Rules, ranks: Ranks)
    : Option<CounterComparison>
    requires ValidMaths(m) && ValidRanks(ranks)
  {
    ComparisonOf(m, rules.roles,
      AccountFor(t.accounts, Product(s, rules.roles.baseline), metric),
      AccountFor(t.accounts, Product(s, rules.roles.candidate), metric),
      CaveatsFor(t, s, metric), CounterSamples(bs, metric),
      rules.minimumBlocks, rules.seed, rules.resamples, ranks.provenances)
  }

  // The digest that every artifact agrees on; the fold records each kind for every stratum.
  function DigestFor(facts: map<Fact, Value>, fact: Fact): int {
    if fact in facts && facts[fact].Digest? then facts[fact].id else 0
  }

  function ClassFor(facts: map<Fact, Value>, fixture: int): int {
    DigestFor(facts, ClassOf(fixture))
  }

  function CaseFor(facts: map<Fact, Value>, fixture: int): Case {
    if CaseOf(fixture) in facts && facts[CaseOf(fixture)].Declared? then facts[CaseOf(fixture)].declared
    else Case("", "", 0)
  }

  // The blocks of a stratum in order of repetition, as recorded and as filled.
  ghost function Recorded(t: Tables, s: Stratum): seq<Block>
    requires s in t.groups
  {
    IdentityInjective();
    var repetitions := Sorted(t.groups[s].Keys, Identity());
    InGroup(t.groups[s], repetitions);
    BlockList(t.groups[s], repetitions, false, false)
  }

  ghost function Considered(t: Tables, s: Stratum, rules: Rules): seq<Block>
    requires s in t.groups
  {
    IdentityInjective();
    var repetitions := Sorted(t.groups[s].Keys, Identity());
    InGroup(t.groups[s], repetitions);
    BlockList(t.groups[s], repetitions,
      Excluded(rules.exclusions, rules.roles.baseline, s.fixture),
      Excluded(rules.exclusions, rules.roles.candidate, s.fixture))
  }

  lemma InGroup(blocks: map<int, Block>, repetitions: seq<int>)
    requires Lists(repetitions, blocks.Keys, Identity())
    ensures forall i :: 0 <= i < |repetitions| ==> repetitions[i] in blocks
  {
    forall i | 0 <= i < |repetitions|
      ensures repetitions[i] in blocks
    {
      assert repetitions[i] in repetitions;
    }
  }

  // The blocks of a stratum in which both clients finished.
  ghost function PairsOf(t: Tables, s: Stratum): seq<Precision.Pair>
    requires s in t.groups
  {
    IdentityInjective();
    var repetitions := Sorted(t.groups[s].Keys, Identity());
    InGroup(t.groups[s], repetitions);
    Precision.Pairs(t.groups[s], repetitions)
  }

  // The policy of a client that has a run in the stratum.
  function PolicyOf(facts: map<Fact, Value>, s: Stratum, client: int): seq<ClientPolicy> {
    var fact := BuildOf(Product(s, client));
    if fact in facts && facts[fact].Built? then [ClientPolicy(client, facts[fact].build.policy)] else []
  }

  function PoliciesOf(facts: map<Fact, Value>, s: Stratum, roles: Roles): seq<ClientPolicy> {
    PolicyOf(facts, s, roles.baseline) + PolicyOf(facts, s, roles.candidate)
  }

  function ListOf<T>(o: Option<T>): seq<T> {
    if o.Some? then [o.value] else []
  }

  function ExclusionsOf(s: Stratum, rules: Rules): seq<Exclusion> {
    ListOf(FirstExclusion(rules.exclusions, rules.roles.baseline, s.fixture)) +
    ListOf(FirstExclusion(rules.exclusions, rules.roles.candidate, s.fixture))
  }

  // The comparison of a stratum but for its summary.
  ghost function Described(
    m: Maths, t: Tables, s: Stratum, rules: Rules, completion: Completion, cpu: CounterComparison,
    rss: CounterComparison, writes: CounterComparison): Comparison
    requires ValidMaths(m) && s in t.groups
  {
    var missed := completion.baselineMissed > 0 || completion.candidateMissed > 0;
    Comparison(s, ClassFor(t.facts, s.fixture), CaseFor(t.facts, s.fixture), DigestFor(t.facts, EncodingOf(s.fixture)),
      DigestFor(t.facts, Workload(s)), DigestFor(t.facts, Infrastructure(s)), completion,
      PoliciesOf(t.facts, s, rules.roles), ExclusionsOf(s, rules),
      Precision.TimingOf(m, PairsOf(t, s), rules.seed, rules.resamples, missed), cpu, rss, writes,
      TransferEvidence.TransferOf(t.transfers, s, rules.roles), None)
  }

  // The comparison of one stratum, or an error: a block that lacks a client, too few pairs
  // although every client finished, or measurements that cannot be summarized.
  ghost function Judged(m: Maths, t: Tables, s: Stratum, rules: Rules, ranks: Ranks): Verdict
    requires ValidMaths(m) && ValidRanks(ranks) && s in t.groups
  {
    var bs := Considered(t, s, rules);
    var samples := Samples(bs);
    var cpu := FigureOf(m, t, s, bs, Cpu, rules, ranks);
    var rss := FigureOf(m, t, s, bs, Rss, rules, ranks);
    var writes := FigureOf(m, t, s, bs, Writes, rules, ranks);
    if !AllComplete(bs) || cpu.None? || rss.None? || writes.None? then Incomparable
    else
      var missed := Tally(bs, EitherMissed()) > 0;
      var completion := CompletionOf(Recorded(t, s), bs,
        Excluded(rules.exclusions, rules.roles.baseline, s.fixture),
        Excluded(rules.exclusions, rules.roles.candidate, s.fixture));
      var comparison := Described(m, t, s, rules, completion, cpu.value, rss.value, writes.value);
      if |samples| < rules.minimumBlocks then if missed then Verdict(comparison, Withheld) else Incomparable
      else if |samples| < 2 || rules.resamples < 1 || !AllPositive(samples) then Incomparable
      else
        Verdict(comparison.(summary := Some(Summarized(m, samples, rules.seed, rules.resamples))),
                if missed then Withheld else Pooled(samples))
  }

  // --- Judging a stratum, block by block ------------------------------------------------------------------

  lemma SamplesAppend(bs: seq<Block>, b: Block)
    ensures Samples(bs + [b]) == Samples(bs) + SampleOf(b)
  {
    assert (bs + [b])[..|bs|] == bs;
  }

  lemma TallyAppend(bs: seq<Block>, b: Block, p: Block -> bool)
    ensures Tally(bs + [b], p) == Tally(bs, p) + if p(b) then 1 else 0
  {
    assert (bs + [b])[..|bs|] == bs;
  }

  // The counters that the loop over a stratum's blocks keeps.
  datatype Counts = Counts(baselineMissed: nat, candidateMissed: nat, baselineExcluded: nat, candidateExcluded: nat)

  function CountsOf(raw: seq<Block>, bs: seq<Block>, baseline: bool, candidate: bool): Counts {
    var c := CompletionOf(raw, bs, baseline, candidate);
    Counts(c.baselineMissed, c.candidateMissed, c.baselineExcluded, c.candidateExcluded)
  }

  function Counted(c: Counts, raw: Block, b: Block, baseline: bool, candidate: bool): Counts {
    Counts(c.baselineMissed + (if b.baseline.Unfinished? then 1 else 0),
           c.candidateMissed + (if b.candidate.Unfinished? then 1 else 0),
           c.baselineExcluded + (if baseline && raw.baseline.Absent? then 1 else 0),
           c.candidateExcluded + (if candidate && raw.candidate.Absent? then 1 else 0))
  }

  lemma CountsAppend(raw: seq<Block>, bs: seq<Block>, r: Block, b: Block, baseline: bool, candidate: bool)
    ensures CountsOf(raw + [r], bs + [b], baseline, candidate) ==
              Counted(CountsOf(raw, bs, baseline, candidate), r, b, baseline, candidate)
  {
    TallyAppend(bs, b, BaselineMissed());
    TallyAppend(bs, b, CandidateMissed());
    TallyAppend(raw, r, BaselineAbsent());
    TallyAppend(raw, r, CandidateAbsent());
  }

  method CompleteBlocks(blocks: map<int, Block>, repetitions: seq<int>, baseline: bool, candidate: bool)
    returns (ok: bool, completion: Completion, samples: seq<Sample>)
    requires forall k :: 0 <= k < |repetitions| ==> repetitions[k] in blocks
    ensures var bs := BlockList(blocks, repetitions, baseline, candidate);
            && (ok <==> AllComplete(bs))
            && (ok ==> samples == Samples(bs))
            && (ok ==>
                  completion == CompletionOf(BlockList(blocks, repetitions, false, false), bs, baseline, candidate))
  {
    hide CountsOf, Samples;
    ghost var raw, bs := BlockList(blocks, repetitions, false, false), BlockList(blocks, repetitions, baseline, candidate);
    ok, samples := true, [];
    completion := Completion(|repetitions|, 0, 0, 0, 0, 0);
    var c := Counts(0, 0, 0, 0);
    NothingCounted(baseline, candidate);
    for i := 0 to |repetitions|
      invariant AllComplete(bs[..i]) && samples == Samples(bs[..i])
      invariant c == CountsOf(raw[..i], bs[..i], baseline, candidate)
    {
      var block := blocks[repetitions[i]];
      assert raw[i] == block && raw[..i + 1] == raw[..i] + [block];
      assert bs[i] == Filled(block, baseline, candidate) && bs[..i + 1] == bs[..i] + [bs[i]];
      SamplesAppend(bs[..i], bs[i]);
      CountsAppend(raw[..i], bs[..i], block, bs[i], baseline, candidate);
      if block.baseline.Absent? && baseline {
        block := block.(baseline := Unfinished);
        c := c.(baselineExcluded := c.baselineExcluded + 1);
      }
      if block.candidate.Absent? && candidate {
        block := block.(candidate := Unfinished);
        c := c.(candidateExcluded := c.candidateExcluded + 1);
      }
      if block.baseline.Unfinished? {
        c := c.(baselineMissed := c.baselineMissed + 1);
      }
      if block.candidate.Unfinished? {
        c := c.(candidateMissed := c.candidateMissed + 1);
      }
      if block.baseline.Absent? || block.candidate.Absent? {
        assert !Complete(bs[i]);
        ok := false;
        return;
      }
      if !(block.baseline.Timed? && block.candidate.Timed?) {
        assert SampleOf(bs[i]) == [];
        assert Samples(bs[..i]) + [] == Samples(bs[..i]);
        continue;
      }
      samples := samples + [Sample(block.baseline.duration, block.candidate.duration)];
    }
    assert raw[..|raw|] == raw && bs[..|bs|] == bs;
    completion := Completion(|repetitions|, |samples|, c.baselineMissed, c.candidateMissed,
      c.baselineExcluded, c.candidateExcluded);
    CountsAre(raw, bs, baseline, candidate);
  }

  lemma NothingCounted(baseline: bool, candidate: bool)
    ensures CountsOf([], [], baseline, candidate) == Counts(0, 0, 0, 0) && Samples([]) == []
  {
  }

  lemma CountsAre(raw: seq<Block>, bs: seq<Block>, baseline: bool, candidate: bool)
    ensures var c := CountsOf(raw, bs, baseline, candidate);
            CompletionOf(raw, bs, baseline, candidate) ==
              Completion(|bs|, |Samples(bs)|, c.baselineMissed, c.candidateMissed, c.baselineExcluded, c.candidateExcluded)
  {
  }

  lemma CounterAppend(bs: seq<Block>, b: Block, metric: Metric)
    ensures CounterSamples(bs + [b], metric) == CounterSamples(bs, metric) + CounterPair(b, metric)
    ensures CounterPair(b, metric) == [] ==> CounterSamples(bs + [b], metric) == CounterSamples(bs, metric)
  {
    hide CounterPair;
    assert (bs + [b])[..|bs|] == bs;
    assert CounterSamples(bs, metric) + [] == CounterSamples(bs, metric);
  }

  // Filling a block touches no counter.
  lemma FilledCounter(b: Block, baseline: bool, candidate: bool, metric: Metric)
    ensures CounterPair(Filled(b, baseline, candidate), metric) == CounterPair(b, metric)
  {
  }

  method CollectCounter(
    blocks: map<int, Block>, repetitions: seq<int>, metric: Metric, ghost baseline: bool, ghost candidate: bool)
    returns (samples: seq<Sample>)
    requires forall k :: 0 <= k < |repetitions| ==> repetitions[k] in blocks
    ensures samples == CounterSamples(BlockList(blocks, repetitions, baseline, candidate), metric)
  {
    hide CounterSamples, Filled;
    ghost var bs := BlockList(blocks, repetitions, baseline, candidate);
    samples := [];
    NoCounters(metric);
    for i := 0 to |repetitions|
      invariant samples == CounterSamples(bs[..i], metric)
    {
      assert bs[..i + 1] == bs[..i] + [bs[i]];
      CounterAppend(bs[..i], bs[i], metric);
      var block := blocks[repetitions[i]];
      FilledCounter(block, baseline, candidate, metric);
      var x, y := CounterIn(block.baseline, metric), CounterIn(block.candidate, metric);
      if x.NoCount? || y.NoCount? {
        continue;
      }
      samples := samples + [Sample(x.value, y.value)];
    }
    assert bs[..|bs|] == bs;
  }

  lemma NoCounters(metric: Metric)
    ensures CounterSamples([], metric) == []
  {
  }

  method BuildFigure(
    m: Maths, t: Tables, s: Stratum, repetitions: seq<int>, metric: Metric, rules: Rules, ranks: Ranks,
    ghost baseline: bool, ghost candidate: bool)
    returns (figure: Option<CounterComparison>)
    requires ValidMaths(m) && ValidRanks(ranks) && s in t.groups
    requires forall k :: 0 <= k < |repetitions| ==> repetitions[k] in t.groups[s]
    ensures figure == FigureOf(m, t, s, BlockList(t.groups[s], repetitions, baseline, candidate), metric, rules, ranks)
  {
    hide ValidMaths, Injective, Comparable, CounterSamples, ComparisonOf;
    var samples := CollectCounter(t.groups[s], repetitions, metric, baseline, candidate);
    figure := BuildCounterComparison(m, rules.roles,
      AccountFor(t.accounts, Product(s, rules.roles.baseline), metric),
      AccountFor(t.accounts, Product(s, rules.roles.candidate), metric),
      CaveatsFor(t, s, metric), samples, rules.minimumBlocks, rules.seed, rules.resamples, ranks.provenances);
  }

  method JudgeStratum(
    m: Maths, t: Tables, lists: map<Product, seq<nat>>, s: Stratum, rules: Rules, ranks: Ranks)
    returns (verdict: Verdict)
    requires ValidMaths(m) && ValidRanks(ranks) && s in t.groups && Listed(lists, t.transfers)
    ensures verdict == Judged(m, t, s, rules, ranks)
  {
    hide ValidMaths, ValidRanks, Summarized, AllPositive, FigureOf, CompletionOf, Samples, AllComplete, Sorted, Listed,
      Tally, Excluded, BlockList, Lists, Injective, Identity, ClassFor, CaseFor, DigestFor,
      PoliciesOf, ListOf, FirstExclusion, Precision.TimingOf, Precision.Pairs, TransferEvidence.TransferOf;
    IdentityInjective();
    var repetitions := SortKeys(t.groups[s].Keys, Identity());
    InGroup(t.groups[s], repetitions);
    var baselineExclusion := ExclusionFor(rules.exclusions, rules.roles.baseline, s.fixture);
    var candidateExclusion := ExclusionFor(rules.exclusions, rules.roles.candidate, s.fixture);
    var baseline, candidate := baselineExclusion.Some?, candidateExclusion.Some?;
    ghost var bs := BlockList(t.groups[s], repetitions, baseline, candidate);
    assert bs == Considered(t, s, rules) && BlockList(t.groups[s], repetitions, false, false) == Recorded(t, s);
    var ok, completion, samples := CompleteBlocks(t.groups[s], repetitions, baseline, candidate);
    if !ok {
      return Incomparable;
    }
    MissedCounts(Recorded(t, s), bs, baseline, candidate);
    var missed := completion.baselineMissed > 0 || completion.candidateMissed > 0;
    var timing := Precision.AssessTiming(m, t.groups[s], repetitions, rules.seed, rules.resamples, missed);
    var cpu := BuildFigure(m, t, s, repetitions, Cpu, rules, ranks, baseline, candidate);
    if cpu.None? {
      return Incomparable;
    }
    var rss := BuildFigure(m, t, s, repetitions, Rss, rules, ranks, baseline, candidate);
    if rss.None? {
      return Incomparable;
    }
    var writes := BuildFigure(m, t, s, repetitions, Writes, rules, ranks, baseline, candidate);
    if writes.None? {
      return Incomparable;
    }
    var transfer := TransferEvidence.BuildTransferEvidence(lists, t.transfers, s, rules.roles);
    var comparison := Comparison(
      s, ClassFor(t.facts, s.fixture), CaseFor(t.facts, s.fixture), DigestFor(t.facts, EncodingOf(s.fixture)),
      DigestFor(t.facts, Workload(s)), DigestFor(t.facts, Infrastructure(s)), completion,
      PoliciesOf(t.facts, s, rules.roles), ListOf(baselineExclusion) + ListOf(candidateExclusion), timing,
      cpu.value, rss.value, writes.value, transfer, None);
    assert comparison == Described(m, t, s, rules, completion, cpu.value, rss.value, writes.value);
    hide Described;
    if |samples| < rules.minimumBlocks {
      if !missed {
        return Incomparable;
      }
      return Verdict(comparison, Withheld);
    }
    var summary := SummarizePaired(m, samples, rules.seed, rules.resamples);
    if summary.Error? {
      return Incomparable;
    }
    comparison := comparison.(summary := Some(summary.summary));
    if missed {
      return Verdict(comparison, Withheld);
    }
    return Verdict(comparison, Pooled(samples));
  }

  lemma MissedCounts(raw: seq<Block>, bs: seq<Block>, baseline: bool, candidate: bool)
    ensures var c := CompletionOf(raw, bs, baseline, candidate);
            Tally(bs, EitherMissed()) > 0 <==> c.baselineMissed > 0 || c.candidateMissed > 0
  {
    NoneMissed(bs);
  }

  lemma DescribedCompletion(m: Maths, t: Tables, s: Stratum, rules: Rules, ranks: Ranks)
    requires ValidMaths(m) && ValidRanks(ranks) && s in t.groups && Judged(m, t, s, rules, ranks).Verdict?
    ensures var c := Judged(m, t, s, rules, ranks).comparison;
            && (c.summary.Some? <==> |Samples(Considered(t, s, rules))| >= rules.minimumBlocks)
            && c.completion == CompletionOf(Recorded(t, s), Considered(t, s, rules),
                 Excluded(rules.exclusions, rules.roles.baseline, s.fixture),
                 Excluded(rules.exclusions, rules.roles.candidate, s.fixture))
  {
    hide ValidMaths, ValidRanks, Summarized, FigureOf, Considered, Recorded, CompletionOf, Excluded, Samples, Tally,
      AllComplete, AllPositive;
  }

  // What every reported comparison satisfies.
  lemma JudgedBalanced(m: Maths, t: Tables, s: Stratum, rules: Rules, ranks: Ranks)
    requires ValidMaths(m) && ValidRanks(ranks) && s in t.groups && Judged(m, t, s, rules, ranks).Verdict?
    ensures var v := Judged(m, t, s, rules, ranks);
            var c := v.comparison.completion;
            && c.observed == |t.groups[s]|
            && c.observed == c.paired + Tally(Considered(t, s, rules), EitherMissed())
            && (v.comparison.summary.Some? <==> c.paired >= rules.minimumBlocks)
            && (v.entry.Pooled? <==> v.comparison.summary.Some? && c.baselineMissed == 0 && c.candidateMissed == 0)
            && (v.entry.Pooled? ==> c.paired == c.observed && v.entry.samples == Samples(Considered(t, s, rules)))
  {
    hide ValidMaths, ValidRanks, Summarized, FigureOf, Considered, Recorded, Described, Excluded;
    DescribedCompletion(m, t, s, rules, ranks);
    BlocksConserved(Considered(t, s, rules));
    MissedCounts(Recorded(t, s), Considered(t, s, rules),
      Excluded(rules.exclusions, rules.roles.baseline, s.fixture),
      Excluded(rules.exclusions, rules.roles.candidate, s.fixture));
    ConsideredLength(t, s, rules);
  }

  lemma ConsideredLength(t: Tables, s: Stratum, rules: Rules)
    requires s in t.groups
    ensures |Considered(t, s, rules)| == |t.groups[s]|
  {
    assert |t.groups[s]| == |t.groups[s].Keys|;
  }

  // --- Timing beside the summary ------------------------------------------------------------------------------

  lemma NominalAppend(pairs: seq<Precision.Pair>, p: seq<Precision.Pair>)
    ensures Precision.Nominal(pairs + p) == Precision.Nominal(pairs) + Precision.Nominal(p)
  {
  }

  lemma PairNominal(b: Block, baseline: bool, candidate: bool)
    ensures SampleOf(Filled(b, baseline, candidate)) == Precision.Nominal(Precision.PairOf(b))
  {
  }

  // The blocks that the summary compares are those that the timing assesses.
  lemma {:induction false} SamplesNominal(
    blocks: map<int, Block>, repetitions: seq<int>, baseline: bool, candidate: bool)
    requires forall i :: 0 <= i < |repetitions| ==> repetitions[i] in blocks
    ensures Samples(BlockList(blocks, repetitions, baseline, candidate)) ==
              Precision.Nominal(Precision.Pairs(blocks, repetitions))
  {
    if |repetitions| != 0 {
      var n := |repetitions| - 1;
      var b := blocks[repetitions[n]];
      SamplesNominal(blocks, repetitions[..n], baseline, candidate);
      PairNominal(b, baseline, candidate);
      NominalAppend(Precision.Pairs(blocks, repetitions[..n]), Precision.PairOf(b));
      assert BlockList(blocks, repetitions, baseline, candidate)[..n] ==
             BlockList(blocks, repetitions[..n], baseline, candidate);
      hide SampleOf, Filled;
    }
  }

  lemma PairsSummarized(t: Tables, s: Stratum, rules: Rules)
    requires s in t.groups && PlausibleTables(t)
    ensures Samples(Considered(t, s, rules)) == Precision.Nominal(PairsOf(t, s))
    ensures Precision.AllPlausible(PairsOf(t, s))
  {
    hide Samples, Precision.Pairs, Precision.Nominal, Precision.AllPlausible, PlausibleBlocks, BlockList;
    IdentityInjective();
    var repetitions := Sorted(t.groups[s].Keys, Identity());
    InGroup(t.groups[s], repetitions);
    SamplesNominal(t.groups[s], repetitions,
      Excluded(rules.exclusions, rules.roles.baseline, s.fixture),
      Excluded(rules.exclusions, rules.roles.candidate, s.fixture));
    Precision.PairsPlausible(t.groups[s], repetitions);
  }

  // The interval that the timing reports is around the one that the summary reports, and a
  // decisive conclusion is borne out by the latter.
  predicate Enclosed(c: Comparison) {
    c.summary.Some? ==>
      var p, summary := c.timing, c.summary.value;
      && p.conclusion != Precision.InsufficientPairs
      && (p.conclusion != Precision.UnboundedObservationUncertainty ==>
            p.sensitivityLow <= summary.low <= summary.high <= p.sensitivityHigh)
      && (p.conclusion == Precision.CandidateFaster ==> summary.high < 0.98)
      && (p.conclusion == Precision.CandidateSlower ==> summary.low > 1.02)
      && (p.conclusion == Precision.PracticallyEquivalent ==> 0.98 <= summary.low && summary.high <= 1.02)
  }

  lemma JudgedEnclosed(m: Maths, t: Tables, s: Stratum, rules: Rules, ranks: Ranks)
    requires ValidMaths(m) && ValidRanks(ranks) && s in t.groups && PlausibleTables(t)
    requires Judged(m, t, s, rules, ranks).Verdict?
    ensures Enclosed(Judged(m, t, s, rules, ranks).comparison)
  {
    hide ValidMaths, ValidRanks, FigureOf, Considered, Recorded, PairsOf, Summarized, Samples, Tally, CompletionOf,
      AllComplete, AllPositive, PlausibleTables, Precision.TimingOf, Precision.Nominal, Precision.AllPlausible,
      TransferEvidence.TransferOf;
    PairsSummarized(t, s, rules);
    var c := Judged(m, t, s, rules, ranks).comparison;
    if c.summary.Some? {
      var missed := c.completion.baselineMissed > 0 || c.completion.candidateMissed > 0;
      Precision.ConclusionHolds(m, PairsOf(t, s), rules.seed, rules.resamples, missed);
      Precision.TimingEncloses(m, PairsOf(t, s), rules.seed, rules.resamples, missed);
    }
  }

  // --- All strata -------------------------------------------------------------------------------------------

  // The fixtures of a class. The withheld ones are a list in the source, which is only sorted
  // and counted; EntersOnce says that no fixture enters it twice.
  datatype Roll = Roll(samples: map<int, seq<Sample>>, withheld: set<int>)

  datatype Draft = Rejected | Draft(comparisons: seq<Comparison>, rolls: map<Group, Roll>)

  function GroupOf(t: Tables, s: Stratum): Group {
    Group(Whole, "", ClassFor(t.facts, s.fixture), s.setting)
  }

  function RollOf(rolls: map<Group, Roll>, g: Group): Roll {
    if g in rolls then rolls[g] else Roll(map[], {})
  }

  function Enrolled(rolls: map<Group, Roll>, g: Group, fixture: int, entry: Entry): map<Group, Roll> {
    var roll := RollOf(rolls, g);
    match entry
    case Withheld => rolls[g := roll.(withheld := roll.withheld + {fixture})]
    case Pooled(samples) => rolls[g := roll.(samples := roll.samples[fixture := samples])]
  }

  ghost predicate AllGrouped(t: Tables, strata: seq<Stratum>) {
    forall i :: 0 <= i < |strata| ==> strata[i] in t.groups
  }

  ghost function Drafted(m: Maths, t: Tables, strata: seq<Stratum>, rules: Rules, ranks: Ranks): Draft
    requires ValidMaths(m) && ValidRanks(ranks) && AllGrouped(t, strata)
  {
    if |strata| == 0 then Draft([], map[])
    else
      var n := |strata| - 1;
      Extended(Drafted(m, t, strata[..n], rules, ranks), t, strata[n], Judged(m, t, strata[n], rules, ranks))
  }

  // One more stratum.
  function Extended(d: Draft, t: Tables, s: Stratum, v: Verdict): Draft {
    if d.Rejected? || v.Incomparable? then Rejected
    else Draft(d.comparisons + [v.comparison], Enrolled(d.rolls, GroupOf(t, s), s.fixture, v.entry))
  }

  method DraftReport(
    m: Maths, t: Tables, lists: map<Product, seq<nat>>, strata: seq<Stratum>, rules: Rules, ranks: Ranks)
    returns (draft: Draft)
    requires ValidMaths(m) && ValidRanks(ranks) && AllGrouped(t, strata) && Listed(lists, t.transfers)
    ensures draft == Drafted(m, t, strata, rules, ranks)
  {
    hide ValidMaths, ValidRanks, Judged, Enrolled, Drafted;
    var comparisons, rolls: map<Group, Roll> := [], map[];
    NothingDrafted(m, t, rules, ranks);
    for i := 0 to |strata|
      invariant Drafted(m, t, strata[..i], rules, ranks) == Draft(comparisons, rolls)
    {
      DraftedStep(m, t, strata, i, rules, ranks);
      var verdict := JudgeStratum(m, t, lists, strata[i], rules, ranks);
      if verdict.Incomparable? {
        RejectedStays(m, t, strata, i + 1, rules, ranks);
        return Rejected;
      }
      comparisons := comparisons + [verdict.comparison];
      rolls := Enrolled(rolls, GroupOf(t, strata[i]), strata[i].fixture, verdict.entry);
    }
    assert strata[..|strata|] == strata;
    draft := Draft(comparisons, rolls);
  }

  lemma NothingDrafted(m: Maths, t: Tables, rules: Rules, ranks: Ranks)
    requires ValidMaths(m) && ValidRanks(ranks)
    ensures Drafted(m, t, [], rules, ranks) == Draft([], map[])
  {
  }

  lemma DraftedStep(m: Maths, t: Tables, strata: seq<Stratum>, i: nat, rules: Rules, ranks: Ranks)
    requires ValidMaths(m) && ValidRanks(ranks) && AllGrouped(t, strata) && i < |strata|
    ensures Drafted(m, t, strata[..i + 1], rules, ranks) ==
              Extended(Drafted(m, t, strata[..i], rules, ranks), t, strata[i], Judged(m, t, strata[i], rules, ranks))
  {
    hide Judged, Extended;
    assert strata[..i + 1][..i] == strata[..i];
  }

  lemma {:induction false} RejectedStays(m: Maths, t: Tables, strata: seq<Stratum>, i: nat, rules: Rules, ranks: Ranks)
    requires ValidMaths(m) && ValidRanks(ranks) && AllGrouped(t, strata) && i <= |strata|
    requires Drafted(m, t, strata[..i], rules, ranks) == Rejected
    ensures Drafted(m, t, strata, rules, ranks) == Rejected
    decreases |strata| - i
  {
    hide Judged, Drafted;
    if i == |strata| {
      assert strata[..i] == strata;
    } else {
      DraftedStep(m, t, strata, i, rules, ranks);
      RejectedStays(m, t, strata, i + 1, rules, ranks);
    }
  }

  // --- The rolls partition their classes ----------------------------------------------------------------------

  ghost predicate Distinct(strata: seq<Stratum>) {
    forall i, j :: 0 <= i < j < |strata| ==> strata[i] != strata[j]
  }

  // A stratum of the group with this fixture.
  ghost predicate Places(t: Tables, strata: seq<Stratum>, g: Group, fixture: int, i: int) {
    0 <= i < |strata| && GroupOf(t, strata[i]) == g && strata[i].fixture == fixture
  }

  ghost predicate Placed(t: Tables, strata: seq<Stratum>, g: Group, fixture: int) {
    exists i :: Places(t, strata, g, fixture, i)
  }

  ghost predicate Covers(t: Tables, strata: seq<Stratum>, rolls: map<Group, Roll>) {
    && (forall g, f :: Placed(t, strata, g, f) <==> f in RollOf(rolls, g).samples || f in RollOf(rolls, g).withheld)
    && (forall g, f :: !(f in RollOf(rolls, g).samples && f in RollOf(rolls, g).withheld))
  }

  lemma PlacedNext(t: Tables, strata: seq<Stratum>, n: nat, g: Group, f: int)
    requires n + 1 == |strata|
    ensures Placed(t, strata, g, f) <==>
              Placed(t, strata[..n], g, f) || (g == GroupOf(t, strata[n]) && f == strata[n].fixture)
  {
    if i :| Places(t, strata, g, f, i) {
      if i < n {
        assert Places(t, strata[..n], g, f, i);
      }
    }
    if i :| Places(t, strata[..n], g, f, i) {
      assert Places(t, strata, g, f, i);
    }
    if g == GroupOf(t, strata[n]) && f == strata[n].fixture {
      assert Places(t, strata, g, f, n);
    }
  }

  // A group and a fixture determine the stratum, so a stratum enters a roll that does not
  // have its fixture yet.
  lemma NotPlacedYet(t: Tables, strata: seq<Stratum>, n: nat)
    requires n + 1 == |strata| && Distinct(strata)
    ensures !Placed(t, strata[..n], GroupOf(t, strata[n]), strata[n].fixture)
  {
    forall i | 0 <= i < n
      ensures !Places(t, strata[..n], GroupOf(t, strata[n]), strata[n].fixture, i)
    {
      assert strata[..n][i] == strata[i] && strata[i] != strata[n];
    }
  }

  // The compared and the withheld fixtures of a group are its fixtures, each on one side.
  lemma {:induction false} RollsCover(m: Maths, t: Tables, strata: seq<Stratum>, rules: Rules, ranks: Ranks)
    requires ValidMaths(m) && ValidRanks(ranks) && AllGrouped(t, strata) && Distinct(strata)
    requires Drafted(m, t, strata, rules, ranks).Draft?
    ensures Covers(t, strata, Drafted(m, t, strata, rules, ranks).rolls)
  {
    hide ValidMaths, Judged, Placed;
    var rolls := Drafted(m, t, strata, rules, ranks).rolls;
    if |strata| == 0 {
      NonePlaced(t);
    } else {
      var n := |strata| - 1;
      RollsCover(m, t, strata[..n], rules, ranks);
      NotPlacedYet(t, strata, n);
      forall g, f
        ensures Placed(t, strata, g, f) <==> f in RollOf(rolls, g).samples || f in RollOf(rolls, g).withheld
        ensures !(f in RollOf(rolls, g).samples && f in RollOf(rolls, g).withheld)
      {
        PlacedNext(t, strata, n, g, f);
      }
    }
  }

  // A draft of all strata is a draft of the first of them.
  lemma DraftedPrefix(m: Maths, t: Tables, strata: seq<Stratum>, n: nat, rules: Rules, ranks: Ranks)
    requires ValidMaths(m) && ValidRanks(ranks) && AllGrouped(t, strata) && n <= |strata|
    requires Drafted(m, t, strata, rules, ranks).Draft?
    ensures Drafted(m, t, strata[..n], rules, ranks).Draft?
  {
    hide ValidMaths, ValidRanks, Drafted;
    if Drafted(m, t, strata[..n], rules, ranks) == Rejected {
      RejectedStays(m, t, strata, n, rules, ranks);
    }
  }

  // Each stratum finds a roll that does not hold its fixture, so the list of withheld fixtures
  // of the source, here a set, gets it once.
  lemma EntersOnce(m: Maths, t: Tables, strata: seq<Stratum>, n: nat, rules: Rules, ranks: Ranks)
    requires ValidMaths(m) && ValidRanks(ranks) && AllGrouped(t, strata) && Distinct(strata) && n < |strata|
    requires Drafted(m, t, strata, rules, ranks).Draft?
    ensures var before := Drafted(m, t, strata[..n], rules, ranks);
            before.Draft? &&
            var roll := RollOf(before.rolls, GroupOf(t, strata[n]));
            strata[n].fixture !in roll.samples && strata[n].fixture !in roll.withheld
  {
    hide ValidMaths, ValidRanks, Drafted, Placed, RollOf, GroupOf;
    DraftedPrefix(m, t, strata, n, rules, ranks);
    RollsCover(m, t, strata[..n], rules, ranks);
    assert strata[..n + 1][..n] == strata[..n];
    NotPlacedYet(t, strata[..n + 1], n);
  }

  lemma NonePlaced(t: Tables)
    ensures forall g, f :: !Placed(t, [], g, f)
  {
    forall g, f
      ensures !Placed(t, [], g, f)
    {
      if i :| Places(t, [], g, f, i) {
        assert false;
      }
    }
  }

  // What can enter a roll can be summarized across fixtures.
  ghost predicate Sound(rolls: map<Group, Roll>, rules: Rules) {
    forall g :: g in rolls ==>
      && (rolls[g].samples == map[] ==> rolls[g].withheld != {})
      && (rolls[g].samples != map[] ==> rules.resamples >= 1)
      && (forall f :: f in rolls[g].samples ==> CrossFixture.Usable(rolls[g].samples, f))
  }

  lemma JudgedUsable(m: Maths, t: Tables, s: Stratum, rules: Rules, ranks: Ranks)
    requires ValidMaths(m) && ValidRanks(ranks) && s in t.groups && Judged(m, t, s, rules, ranks).Verdict?
    ensures var v := Judged(m, t, s, rules, ranks);
            v.entry.Pooled? ==>
              |v.entry.samples| >= 2 && AllPositive(v.entry.samples) && rules.resamples >= 1
  {
    hide ValidMaths, Summarized, FigureOf, Considered, Recorded, AllPositive;
  }

  lemma EnrolledSound(rolls: map<Group, Roll>, g: Group, fixture: int, entry: Entry, rules: Rules)
    requires Sound(rolls, rules)
    requires entry.Pooled? ==> |entry.samples| >= 2 && AllPositive(entry.samples) && rules.resamples >= 1
    ensures Sound(Enrolled(rolls, g, fixture, entry), rules)
  {
    var after := Enrolled(rolls, g, fixture, entry);
    if entry.Pooled? {
      assert fixture in after[g].samples;
    } else {
      assert fixture in after[g].withheld;
    }
    assert forall f :: f in RollOf(rolls, g).samples ==> CrossFixture.Usable(RollOf(rolls, g).samples, f);
  }

  lemma {:induction false} RollsSound(m: Maths, t: Tables, strata: seq<Stratum>, rules: Rules, ranks: Ranks)
    requires ValidMaths(m) && ValidRanks(ranks) && AllGrouped(t, strata) && Drafted(m, t, strata, rules, ranks).Draft?
    ensures Sound(Drafted(m, t, strata, rules, ranks).rolls, rules)
  {
    hide ValidMaths, Judged, Sound, Enrolled;
    if |strata| == 0 {
      NothingSound(rules);
    } else {
      var n := |strata| - 1;
      RollsSound(m, t, strata[..n], rules, ranks);
      JudgedUsable(m, t, strata[n], rules, ranks);
      EnrolledSound(Drafted(m, t, strata[..n], rules, ranks).rolls, GroupOf(t, strata[n]), strata[n].fixture,
        Judged(m, t, strata[n], rules, ranks).entry, rules);
    }
  }

  lemma NothingSound(rules: Rules)
    ensures Sound(map[], rules)
  {
  }

  // --- Figures over fixtures ------------------------------------------------------------------------------------

  datatype Aggregate = Aggregate(group: Group, compared: seq<int>, withheld: seq<int>, figure: Option<CrossSummary>)

  datatype Aggregates = NoAggregates | Aggregates(list: seq<Aggregate>)

  // None: an error of the whole report.
  ghost function AggregateOf(m: Maths, g: Group, roll: Roll, rules: Rules): Option<Aggregate>
    requires ValidMaths(m)
  {
    IdentityInjective();
    var compared, withheld := Sorted(roll.samples.Keys, Identity()), Sorted(roll.withheld, Identity());
    if roll.withheld != {} then Some(Aggregate(g, compared, withheld, Option.None))
    else if |compared| > 0 && rules.resamples >= 1 && AllUsable(roll.samples, compared) then
      Some(Aggregate(g, compared, [], Some(CrossSummarized(m, roll.samples, compared, rules.seed, rules.resamples))))
    else None
  }

  ghost function AggregatesOf(m: Maths, rolls: map<Group, Roll>, groups: seq<Group>, rules: Rules): Aggregates
    requires ValidMaths(m) && forall i :: 0 <= i < |groups| ==> groups[i] in rolls
  {
    if |groups| == 0 then Aggregates([])
    else
      var n := |groups| - 1;
      var last := AggregateOf(m, groups[n], rolls[groups[n]], rules);
      match AggregatesOf(m, rolls, groups[..n], rules)
      case NoAggregates => NoAggregates
      case Aggregates(list) => if last.None? then NoAggregates else Aggregates(list + [last.value])
  }

  method BuildAggregate(m: Maths, g: Group, roll: Roll, rules: Rules) returns (aggregate: Option<Aggregate>)
    requires ValidMaths(m)
    ensures aggregate == AggregateOf(m, g, roll, rules)
  {
    hide ValidMaths, Sorted, CrossSummarized;
    IdentityInjective();
    var compared := SortKeys(roll.samples.Keys, Identity());
    if |roll.withheld| > 0 {
      var withheld := SortKeys(roll.withheld, Identity());
      return Some(Aggregate(g, compared, withheld, None));
    }
    NothingWithheld(roll.withheld);
    var summary := SummarizeAcrossFixtures(m, roll.samples, rules.seed, rules.resamples);
    ListsEmpty(compared, roll.samples.Keys, Identity());
    if |compared| > 0 {
      assert |roll.samples| == |roll.samples.Keys|;
      AllKeysUsable(roll.samples, compared);
    }
    if summary.Failed? {
      return None;
    }
    return Some(Aggregate(g, compared, [], Some(summary.summary)));
  }

  lemma NothingWithheld(s: set<int>)
    ensures |s| == 0 <==> s == {}
  {
  }

  method BuildClassAggregates(m: Maths, rolls: map<Group, Roll>, rules: Rules, ranks: Ranks)
    returns (aggregates: Aggregates)
    requires ValidMaths(m) && ValidRanks(ranks)
    ensures (forall i :: 0 <= i < |Sorted(rolls.Keys, ranks.groups)| ==> Sorted(rolls.Keys, ranks.groups)[i] in rolls)
    ensures aggregates == AggregatesOf(m, rolls, Sorted(rolls.Keys, ranks.groups), rules)
  {
    hide ValidMaths, AggregateOf, Sorted, Lists, Injective;
    var groups := SortKeys(rolls.Keys, ranks.groups);
    GroupsKnown(rolls, groups, ranks);
    var list := [];
    for i := 0 to |groups|
      invariant AggregatesOf(m, rolls, groups[..i], rules) == Aggregates(list)
    {
      assert groups[..i + 1][..i] == groups[..i];
      var aggregate := BuildAggregate(m, groups[i], rolls[groups[i]], rules);
      if aggregate.None? {
        NoAggregatesStays(m, rolls, groups, i + 1, rules);
        return NoAggregates;
      }
      list := list + [aggregate.value];
    }
    assert groups[..|groups|] == groups;
    aggregates := Aggregates(list);
  }

  lemma GroupsKnown(rolls: map<Group, Roll>, groups: seq<Group>, ranks: Ranks)
    requires Lists(groups, rolls.Keys, ranks.groups)
    ensures forall i :: 0 <= i < |groups| ==> groups[i] in rolls
  {
    forall i | 0 <= i < |groups|
      ensures groups[i] in rolls
    {
      assert groups[i] in groups;
    }
  }

  lemma {:induction false} NoAggregatesStays(
    m: Maths, rolls: map<Group, Roll>, groups: seq<Group>, i: nat, rules: Rules)
    requires ValidMaths(m) && (forall k :: 0 <= k < |groups| ==> groups[k] in rolls) && i <= |groups|
    requires AggregatesOf(m, rolls, groups[..i], rules) == NoAggregates
    ensures AggregatesOf(m, rolls, groups, rules) == NoAggregates
    decreases |groups| - i
  {
    hide AggregateOf;
    if i == |groups| {
      assert groups[..i] == groups;
    } else {
      assert groups[..i + 1][..i] == groups[..i];
      NoAggregatesStays(m, rolls, groups, i + 1, rules);
    }
  }

  // Sound rolls are aggregated without an error: one aggregate for every group, whose compared
  // and withheld fixtures are those of its roll, and whose figure exists exactly when no
  // fixture is withheld.
  lemma {:induction false} SoundAggregates(m: Maths, rolls: map<Group, Roll>, groups: seq<Group>, rules: Rules)
    requires ValidMaths(m) && Sound(rolls, rules) && forall i :: 0 <= i < |groups| ==> groups[i] in rolls
    ensures var a := AggregatesOf(m, rolls, groups, rules);
            a.Aggregates? && |a.list| == |groups| &&
            forall i :: 0 <= i < |groups| ==> Reports(a.list[i], groups[i], rolls[groups[i]])
  {
    hide ValidMaths, AggregateOf, Sound;
    if |groups| != 0 {
      var n := |groups| - 1;
      SoundAggregates(m, rolls, groups[..n], rules);
      SoundAggregate(m, rolls, groups[n], rules);
    }
  }

  ghost predicate Reports(a: Aggregate, g: Group, roll: Roll) {
    && a.group == g
    && (forall f :: f in a.compared <==> f in roll.samples)
    && (forall f :: f in a.withheld <==> f in roll.withheld)
    && |a.compared| == |roll.samples.Keys| && |a.withheld| == |roll.withheld|
    && (a.figure.Some? <==> roll.withheld == {})
  }

  lemma SortedIs(keys: set<int>)
    ensures Injective(Identity())
    ensures var s := Sorted(keys, Identity());
            |s| == |keys| && (forall f :: f in s <==> f in keys) && Lists(s, keys, Identity())
  {
    IdentityInjective();
  }

  lemma NonEmptyMap<V>(samples: map<int, V>)
    ensures samples != map[] <==> |samples| > 0
  {
    if |samples| == 0 {
      assert samples.Keys == {};
    }
  }

  lemma SoundAggregate(m: Maths, rolls: map<Group, Roll>, g: Group, rules: Rules)
    requires ValidMaths(m) && Sound(rolls, rules) && g in rolls
    ensures var a := AggregateOf(m, g, rolls[g], rules);
            a.Some? && Reports(a.value, g, rolls[g])
  {
    hide ValidMaths, CrossSummarized, Sorted, Lists, Injective, AllUsable, CrossFixture.Usable;
    var roll := rolls[g];
    SortedIs(roll.samples.Keys);
    SortedIs(roll.withheld);
    if roll.withheld == {} {
      NonEmptyMap(roll.samples);
      AllKeysUsable(roll.samples, Sorted(roll.samples.Keys, Identity()));
    }
  }
}
