// From the report of buildSummaryReport back to the artifacts: cmd/nntpbench/summarize.go.
module Traced {
  import CrossFixture
  import opened FoldedTables
  import opened GeometricMean
  import opened Ordering
  import opened Reported
  import Statistics
  import opened Subgroups
  import opened Summary
  import opened SummaryFold
  import opened SummaryReport

  // --- Comparisons -----------------------------------------------------------------------------------------

  // What a comparison repeats of the artifacts of its stratum.
  ghost predicate Repeats(c: Comparison, a: Artifact) {
    && c.fixtureClass == a.fixtureClass && c.declared == a.declared && c.encoding == a.encoding
    && c.workload == a.workload && c.infrastructure == a.infrastructure
    && ClientPolicy(a.client, a.build.policy) in c.policies
  }

  ghost predicate ExclusionsFit(c: Comparison, rules: Rules) {
    && (forall e :: e in c.exclusions ==>
          e in rules.exclusions && e.fixture == c.stratum.fixture &&
          (e.client == rules.roles.baseline || e.client == rules.roles.candidate))
    && (Excluded(rules.exclusions, rules.roles.baseline, c.stratum.fixture) ==>
          |c.exclusions| > 0 && c.exclusions[0].client == rules.roles.baseline)
    && (Excluded(rules.exclusions, rules.roles.candidate, c.stratum.fixture) ==>
          |c.exclusions| > 0 && c.exclusions[|c.exclusions| - 1].client == rules.roles.candidate)
  }

  lemma {:induction false} FirstIs(exclusions: seq<Exclusion>, client: int, fixture: int)
    ensures var e := FirstExclusion(exclusions, client, fixture);
            e.Some? ==> e.value in exclusions && e.value.client == client && e.value.fixture == fixture
  {
    if |exclusions| != 0 {
      FirstIs(exclusions[1..], client, fixture);
      assert forall e :: e in exclusions[1..] ==> e in exclusions;
    }
  }

  lemma ExclusionsListed(s: Stratum, rules: Rules, c: Comparison)
    requires c.stratum == s && c.exclusions == ExclusionsOf(s, rules)
    ensures ExclusionsFit(c, rules)
  {
    FirstIs(rules.exclusions, rules.roles.baseline, s.fixture);
    FirstIs(rules.exclusions, rules.roles.candidate, s.fixture);
    ExcludedFirst(rules.exclusions, rules.roles.baseline, s.fixture);
    ExcludedFirst(rules.exclusions, rules.roles.candidate, s.fixture);
  }

  lemma JudgedDescribes(m: Statistics.Maths, t: Tables, s: Stratum, rules: Rules, ranks: Ranks)
    requires Statistics.ValidMaths(m) && ValidRanks(ranks) && s in t.groups
    requires Judged(m, t, s, rules, ranks).Verdict?
    ensures var c := Judged(m, t, s, rules, ranks).comparison;
            && c.stratum == s && c.fixtureClass == ClassFor(t.facts, s.fixture)
            && c.declared == CaseFor(t.facts, s.fixture) && c.encoding == DigestFor(t.facts, EncodingOf(s.fixture))
            && c.workload == DigestFor(t.facts, Workload(s))
            && c.infrastructure == DigestFor(t.facts, Infrastructure(s))
            && c.policies == PoliciesOf(t.facts, s, rules.roles) && c.exclusions == ExclusionsOf(s, rules)
  {
    hide Statistics.ValidMaths, ValidRanks, FigureOf, Statistics.Summarized, Considered, Recorded, Samples, Tally,
      CompletionOf, AllComplete, Excluded, PairsOf, PoliciesOf, ExclusionsOf, ClassFor, CaseFor, DigestFor;
  }

  lemma FactsRepeated(facts: map<Fact, Value>, c: Comparison, a: Artifact, roles: Roles)
    requires StatesRun(facts, a) && StatesFixture(facts, a) && IsCompared(roles, a) && c.stratum == a.stratum
    requires c.fixtureClass == ClassFor(facts, a.stratum.fixture) && c.declared == CaseFor(facts, a.stratum.fixture)
    requires c.encoding == DigestFor(facts, EncodingOf(a.stratum.fixture))
    requires c.workload == DigestFor(facts, Workload(a.stratum))
    requires c.infrastructure == DigestFor(facts, Infrastructure(a.stratum))
    requires c.policies == PoliciesOf(facts, a.stratum, roles)
    ensures Repeats(c, a)
  {
  }

  lemma ReportFolds(m: Statistics.Maths, f: Folded, rules: Rules, ranks: Ranks, r: Report)
    requires Statistics.ValidMaths(m) && ValidRanks(ranks) && IsReport(m, f, rules, ranks, r) && r.Report?
    ensures f.Folded?
  {
    hide Statistics.ValidMaths, ValidRanks, Drafted, IsSubgroups;
  }

  // Comparison i of a report of artifacts, in terms of what was folded.
  lemma ComparisonOfReport(
    m: Statistics.Maths, artifacts: seq<Artifact>, rules: Rules, ranks: Ranks, r: Report, i: nat)
    requires Statistics.ValidMaths(m) && ValidRanks(ranks)
    requires IsReport(m, Fold(rules.roles, artifacts), rules, ranks, r) && r.Report? && i < |r.comparisons|
    ensures Fold(rules.roles, artifacts).Folded?
    ensures var t, s := Fold(rules.roles, artifacts).tables, r.comparisons[i].stratum;
            && s in t.groups && Judged(m, t, s, rules, ranks).Verdict?
            && r.comparisons[i] == Judged(m, t, s, rules, ranks).comparison
  {
    hide Statistics.ValidMaths, ValidRanks, Fold, Drafted, Judged, AggregatesOf, IsSubgroups, Sorted;
    ReportFolds(m, Fold(rules.roles, artifacts), rules, ranks, r);
    var t := Fold(rules.roles, artifacts).tables;
    var strata := StrataOf(t, ranks);
    DraftLength(m, t, strata, rules, ranks);
    JudgedDescribes(m, t, strata[i], rules, ranks);
  }

  // A comparison repeats what every artifact of its stratum states.
  lemma ReportRepeats(
    m: Statistics.Maths, artifacts: seq<Artifact>, rules: Rules, ranks: Ranks, r: Report, i: nat, j: nat)
    requires Statistics.ValidMaths(m) && ValidRanks(ranks)
    requires IsReport(m, Fold(rules.roles, artifacts), rules, ranks, r) && r.Report? && i < |r.comparisons|
    requires j < |artifacts| && IsCompared(rules.roles, artifacts[j])
    requires artifacts[j].stratum == r.comparisons[i].stratum
    ensures Repeats(r.comparisons[i], artifacts[j]) && ExclusionsFit(r.comparisons[i], rules)
  {
    hide Statistics.ValidMaths, ValidRanks, Fold, IsReport, Judged, StatesRun, StatesFixture, StatesCommon, Repeats,
      ExclusionsFit, PoliciesOf, ExclusionsOf, ClassFor, CaseFor, DigestFor;
    ReportFolds(m, Fold(rules.roles, artifacts), rules, ranks, r);
    var t, c, a := Fold(rules.roles, artifacts).tables, r.comparisons[i], artifacts[j];
    ComparisonOfReport(m, artifacts, rules, ranks, r, i);
    JudgedDescribes(m, t, c.stratum, rules, ranks);
    FoldFacts(rules.roles, artifacts, j);
    FactsRepeated(t.facts, c, a, rules.roles);
    ExclusionsListed(c.stratum, rules, c);
  }

  // Two finished runs of one block, the baseline's and the candidate's.
  predicate IsBlock(roles: Roles, a: Artifact, b: Artifact, s: Stratum) {
    && a.client == roles.baseline && b.client == roles.candidate && roles.baseline != roles.candidate
    && a.stratum == b.stratum == s && a.repetition == b.repetition && a.outcome.Finished? && b.outcome.Finished?
  }

  predicate BlockIn(roles: Roles, artifacts: seq<Artifact>, x: int, y: int, s: Stratum) {
    0 <= x < |artifacts| && 0 <= y < |artifacts| && IsBlock(roles, artifacts[x], artifacts[y], s)
  }

  predicate IsBlockSample(roles: Roles, a: Artifact, b: Artifact, s: Stratum, sample: Statistics.Sample) {
    IsBlock(roles, a, b, s) && sample == Statistics.Sample(a.outcome.duration, b.outcome.duration)
  }

  lemma BlockTraced(groups: map<Stratum, map<int, Block>>, roles: Roles, a: Artifact, b: Artifact)
    requires IsBlock(roles, a, b, a.stratum) && IsRecorded(groups, roles, a) && IsRecorded(groups, roles, b)
    ensures a.stratum in groups && Both(groups[a.stratum], DurationOf, a.repetition)
    ensures IsPair(groups[a.stratum], DurationOf, Statistics.Sample(a.outcome.duration, b.outcome.duration), a.repetition)
  {
  }

  // The runs behind a recorded pair.
  lemma PairTraced(
    roles: Roles, artifacts: seq<Artifact>, s: Stratum, sample: Statistics.Sample, r: int) returns (x: nat, y: nat)
    requires Fold(roles, artifacts).Folded? && roles.baseline != roles.candidate
    requires s in Fold(roles, artifacts).tables.groups
    requires IsPair(Fold(roles, artifacts).tables.groups[s], DurationOf, sample, r)
    ensures x < |artifacts| && y < |artifacts| && IsBlockSample(roles, artifacts[x], artifacts[y], s, sample)
  {
    hide Fold;
    var block: Block := Fold(roles, artifacts).tables.groups[s][r];
    FoldAbsences(roles, artifacts, s, r);
    assert !block.baseline.Absent? && !block.candidate.Absent?;
    x :| 0 <= x < |artifacts| && IsRun(roles, artifacts[x], s, r, true);
    y :| 0 <= y < |artifacts| && IsRun(roles, artifacts[y], s, r, false);
    FoldRecords(roles, artifacts, x);
    FoldRecords(roles, artifacts, y);
  }

  ghost predicate SampleTraced(roles: Roles, artifacts: seq<Artifact>, s: Stratum, sample: Statistics.Sample) {
    exists x: int, y: int ::
      BlockIn(roles, artifacts, x, y, s) && IsBlockSample(roles, artifacts[x], artifacts[y], s, sample)
  }

  // A comparison is about the durations of the blocks that both clients finished, each block
  // once: the candidate's duration over the baseline's.
  lemma ReportCompares(
    m: Statistics.Maths, artifacts: seq<Artifact>, rules: Rules, ranks: Ranks, r: Report, i: nat)
    returns (samples: seq<Statistics.Sample>)
    requires Statistics.ValidMaths(m) && ValidRanks(ranks) && rules.roles.baseline != rules.roles.candidate
    requires IsReport(m, Fold(rules.roles, artifacts), rules, ranks, r) && r.Report? && i < |r.comparisons|
    ensures var c := r.comparisons[i];
            && c.completion.paired == |samples| && IsSummary(m, rules, samples, c.summary)
            && (forall k :: 0 <= k < |samples| ==> SampleTraced(rules.roles, artifacts, c.stratum, samples[k]))
            && (forall x, y :: BlockIn(rules.roles, artifacts, x, y, c.stratum) ==>
                  Statistics.Sample(artifacts[x].outcome.duration, artifacts[y].outcome.duration) in samples)
  {
    hide Statistics.ValidMaths, ValidRanks, Fold, IsReport, Judged, IsSummary, IsPair, IsRecorded;
    ReportFolds(m, Fold(rules.roles, artifacts), rules, ranks, r);
    var t, c := Fold(rules.roles, artifacts).tables, r.comparisons[i];
    ComparisonOfReport(m, artifacts, rules, ranks, r, i);
    JudgedFigures(m, t, c.stratum, rules, ranks);
    var blocks := t.groups[c.stratum];
    samples :| PairsUp(blocks, DurationOf, samples) && c.completion.paired == |samples| &&
      IsSummary(m, rules, samples, c.summary);
    hide PairsUp;
    forall k | 0 <= k < |samples|
      ensures SampleTraced(rules.roles, artifacts, c.stratum, samples[k])
    {
      SampleIsTraced(rules.roles, artifacts, c.stratum, samples, k);
    }
    forall x, y | BlockIn(rules.roles, artifacts, x, y, c.stratum)
      ensures Statistics.Sample(artifacts[x].outcome.duration, artifacts[y].outcome.duration) in samples
    {
      BlockIsListed(rules.roles, artifacts, x, y, c.stratum, samples);
    }
  }

  lemma SampleIsTraced(
    roles: Roles, artifacts: seq<Artifact>, s: Stratum, samples: seq<Statistics.Sample>, k: nat)
    requires Fold(roles, artifacts).Folded? && roles.baseline != roles.candidate
    requires s in Fold(roles, artifacts).tables.groups && k < |samples|
    requires PairsUp(Fold(roles, artifacts).tables.groups[s], DurationOf, samples)
    ensures SampleTraced(roles, artifacts, s, samples[k])
  {
    hide Fold, IsPair;
    var blocks := Fold(roles, artifacts).tables.groups[s];
    assert FromSome(blocks, DurationOf, samples[k]);
    var q :| IsPair(blocks, DurationOf, samples[k], q);
    var x, y := PairTraced(roles, artifacts, s, samples[k], q);
  }

  lemma BlockIsListed(
    roles: Roles, artifacts: seq<Artifact>, x: nat, y: nat, s: Stratum, samples: seq<Statistics.Sample>)
    requires Fold(roles, artifacts).Folded? && BlockIn(roles, artifacts, x, y, s)
    requires s in Fold(roles, artifacts).tables.groups
    requires PairsUp(Fold(roles, artifacts).tables.groups[s], DurationOf, samples)
    ensures Statistics.Sample(artifacts[x].outcome.duration, artifacts[y].outcome.duration) in samples
  {
    hide Fold, IsPair, IsRecorded, PairsUp;
    var t, a, b := Fold(roles, artifacts).tables, artifacts[x], artifacts[y];
    FoldRecords(roles, artifacts, x);
    FoldRecords(roles, artifacts, y);
    BlockTraced(t.groups, roles, a, b);
    PairListed(t.groups[s], samples, a.repetition, Statistics.Sample(a.outcome.duration, b.outcome.duration));
  }

  lemma PairListed(blocks: map<int, Block>, samples: seq<Statistics.Sample>, q: int, sample: Statistics.Sample)
    requires PairsUp(blocks, DurationOf, samples) && IsPair(blocks, DurationOf, sample, q)
    ensures sample in samples
  {
    assert PairAt(blocks, DurationOf, samples, q);
  }

  // --- Rolls -----------------------------------------------------------------------------------------------

  // The class of every stratum's fixture is known.
  ghost predicate ClassesKnown(t: Tables) {
    forall s :: s in t.groups ==> ClassOf(s.fixture) in t.facts && t.facts[ClassOf(s.fixture)].Digest?
  }

  lemma FoldClasses(roles: Roles, artifacts: seq<Artifact>)
    requires Fold(roles, artifacts).Folded?
    ensures ClassesKnown(Fold(roles, artifacts).tables)
  {
    hide Fold;
    var t := Fold(roles, artifacts).tables;
    forall s | s in t.groups
      ensures ClassOf(s.fixture) in t.facts && t.facts[ClassOf(s.fixture)].Digest?
    {
      var i := StratumHasRun(roles, artifacts, s);
      FoldFacts(roles, artifacts, i);
    }
  }

  // What stratum s gives to the roll of its class under its setting, the class being that of its
  // fixture.
  ghost predicate InRoll(t: Tables, s: Stratum, entry: Entry, rolls: map<Group, Roll>) {
    forall g: Group :: IsGroup(t, s, g) ==> g in rolls && Entered(rolls[g], s.fixture, entry)
  }

  ghost predicate IsGroup(t: Tables, s: Stratum, g: Group) {
    && g.axis == Whole && g.value == "" && g.setting == s.setting
    && ClassOf(s.fixture) in t.facts && t.facts[ClassOf(s.fixture)] == Digest(g.fixtureClass)
  }

  predicate Entered(roll: Roll, fixture: int, entry: Entry) {
    match entry
    case Withheld => fixture in roll.withheld
    case Pooled(samples) => fixture in roll.samples && roll.samples[fixture] == samples
  }

  lemma EnrolledEnters(t: Tables, s: Stratum, entry: Entry, rolls: map<Group, Roll>)
    ensures InRoll(t, s, entry, Enrolled(rolls, GroupOf(t, s), s.fixture, entry))
  {
  }

  lemma EnrolledKeeps(t: Tables, s: Stratum, entry: Entry, rolls: map<Group, Roll>, other: Stratum, more: Entry)
    requires InRoll(t, s, entry, rolls) && s != other
    ensures InRoll(t, s, entry, Enrolled(rolls, GroupOf(t, other), other.fixture, more))
  {
  }

  lemma {:induction false} RollsEntered(
    m: Statistics.Maths, t: Tables, strata: seq<Stratum>, rules: Rules, ranks: Ranks, i: nat)
    requires Statistics.ValidMaths(m) && ValidRanks(ranks) && AllGrouped(t, strata) && Distinct(strata)
    requires Drafted(m, t, strata, rules, ranks).Draft? && i < |strata|
    ensures Judged(m, t, strata[i], rules, ranks).Verdict?
    ensures InRoll(t, strata[i], Judged(m, t, strata[i], rules, ranks).entry, Drafted(m, t, strata, rules, ranks).rolls)
  {
    hide Statistics.ValidMaths, ValidRanks, Judged, InRoll, Enrolled, GroupOf;
    var n := |strata| - 1;
    var before := Drafted(m, t, strata[..n], rules, ranks);
    var v := Judged(m, t, strata[n], rules, ranks);
    if i == n {
      EnrolledEnters(t, strata[n], v.entry, before.rolls);
    } else {
      RollsEntered(m, t, strata[..n], rules, ranks, i);
      EnrolledKeeps(t, strata[i], Judged(m, t, strata[i], rules, ranks).entry, before.rolls, strata[n], v.entry);
    }
  }

  // A fixture of a roll has the roll's class, and a stratum under the roll's setting.
  ghost predicate OfGroup(t: Tables, g: Group, fixture: int) {
    && g.axis == Whole && ClassOf(fixture) in t.facts && t.facts[ClassOf(fixture)] == Digest(g.fixtureClass)
    && Stratum(fixture, g.setting) in t.groups
  }

  lemma RollsOf(m: Statistics.Maths, t: Tables, strata: seq<Stratum>, rules: Rules, ranks: Ranks, g: Group, f: int)
    requires Statistics.ValidMaths(m) && ValidRanks(ranks) && AllGrouped(t, strata) && Distinct(strata)
    requires Drafted(m, t, strata, rules, ranks).Draft? && ClassesKnown(t)
    requires var rolls := Drafted(m, t, strata, rules, ranks).rolls; g in rolls && Holds(rolls[g], f)
    ensures OfGroup(t, g, f)
  {
    hide Statistics.ValidMaths, ValidRanks, Drafted, Placed, GroupOf;
    RollsCover(m, t, strata, rules, ranks);
    var rolls := Drafted(m, t, strata, rules, ranks).rolls;
    assert RollOf(rolls, g) == rolls[g];
    assert Placed(t, strata, g, f);
    PlacedIn(t, strata, g, f);
  }

  lemma PlacedIn(t: Tables, strata: seq<Stratum>, g: Group, f: int)
    requires Placed(t, strata, g, f) && AllGrouped(t, strata) && ClassesKnown(t)
    ensures OfGroup(t, g, f)
  {
    var i :| Places(t, strata, g, f, i);
    assert strata[i] == Stratum(f, g.setting);
  }

  // --- Classes and subgroups -------------------------------------------------------------------------------

  // A compared artifact of a fixture, under a setting.
  predicate IsOf(roles: Roles, a: Artifact, fixture: int, setting: int) {
    IsCompared(roles, a) && a.stratum == Stratum(fixture, setting)
  }

  // The fixtures of a class aggregate have artifacts of its class under its setting.
  lemma ClassTraced(
    m: Statistics.Maths, artifacts: seq<Artifact>, rules: Rules, ranks: Ranks, g: Group, f: int) returns (j: nat)
    requires Statistics.ValidMaths(m) && ValidRanks(ranks) && Fold(rules.roles, artifacts).Folded?
    requires var t := Fold(rules.roles, artifacts).tables;
             var d := Drafted(m, t, StrataOf(t, ranks), rules, ranks);
             d.Draft? && g in d.rolls && Holds(d.rolls[g], f)
    ensures j < |artifacts| && IsOf(rules.roles, artifacts[j], f, g.setting)
    ensures artifacts[j].fixtureClass == g.fixtureClass
  {
    hide Statistics.ValidMaths, ValidRanks, Fold, Drafted, Holds;
    var t := Fold(rules.roles, artifacts).tables;
    FoldClasses(rules.roles, artifacts);
    RollsOf(m, t, StrataOf(t, ranks), rules, ranks, g, f);
    j := StratumHasRun(rules.roles, artifacts, Stratum(f, g.setting));
    FoldFacts(rules.roles, artifacts, j);
  }

  // A block that one of the clients did not finish.
  predicate IsMissed(blocks: map<int, Block>, q: int) {
    q in blocks && !(blocks[q].baseline.Timed? && blocks[q].candidate.Timed?)
  }

  // Every compared artifact's fixture is in the roll of its class under its setting: with the
  // pairs of its stratum, or withheld because a run of its stratum did not finish.
  lemma ClassComplete(
    m: Statistics.Maths, artifacts: seq<Artifact>, rules: Rules, ranks: Ranks, j: nat)
    requires Statistics.ValidMaths(m) && ValidRanks(ranks) && Fold(rules.roles, artifacts).Folded?
    requires j < |artifacts| && IsCompared(rules.roles, artifacts[j])
    requires var t := Fold(rules.roles, artifacts).tables; Drafted(m, t, StrataOf(t, ranks), rules, ranks).Draft?
    ensures var t, a := Fold(rules.roles, artifacts).tables, artifacts[j];
            var rolls := Drafted(m, t, StrataOf(t, ranks), rules, ranks).rolls;
            var g := Group(Whole, "", a.fixtureClass, a.stratum.setting);
            && g in rolls && Holds(rolls[g], a.stratum.fixture) && a.stratum in t.groups
            && (a.stratum.fixture in rolls[g].samples ==>
                  PairsUp(t.groups[a.stratum], DurationOf, rolls[g].samples[a.stratum.fixture]))
            && (a.stratum.fixture in rolls[g].withheld <==> exists q :: IsMissed(t.groups[a.stratum], q))
  {
    hide Statistics.ValidMaths, ValidRanks, Fold, Drafted, Judged, PairsUp, RollOf, Placed, IsMissed, StatesRun,
      StatesBuild, StatesCommon;
    var t, a := Fold(rules.roles, artifacts).tables, artifacts[j];
    var strata := StrataOf(t, ranks);
    FoldRecords(rules.roles, artifacts, j);
    FoldFacts(rules.roles, artifacts, j);
    assert a.stratum in strata;
    var i :| 0 <= i < |strata| && strata[i] == a.stratum;
    RollsEntered(m, t, strata, rules, ranks, i);
    RollsDisjoint(m, t, strata, rules, ranks, Group(Whole, "", a.fixtureClass, a.stratum.setting), a.stratum.fixture);
    EntryMeans(m, t, a.stratum, rules, ranks);
  }

  lemma RollsDisjoint(
    m: Statistics.Maths, t: Tables, strata: seq<Stratum>, rules: Rules, ranks: Ranks, g: Group, f: int)
    requires Statistics.ValidMaths(m) && ValidRanks(ranks) && AllGrouped(t, strata) && Distinct(strata)
    requires Drafted(m, t, strata, rules, ranks).Draft?
    ensures var rolls := Drafted(m, t, strata, rules, ranks).rolls;
            g in rolls ==> !(f in rolls[g].samples && f in rolls[g].withheld)
  {
    hide Statistics.ValidMaths, ValidRanks, Drafted, Placed;
    RollsCover(m, t, strata, rules, ranks);
    var rolls := Drafted(m, t, strata, rules, ranks).rolls;
    assert g in rolls ==> RollOf(rolls, g) == rolls[g];
  }

  // A stratum is pooled exactly when every block of it is a pair.
  lemma EntryMeans(m: Statistics.Maths, t: Tables, s: Stratum, rules: Rules, ranks: Ranks)
    requires Statistics.ValidMaths(m) && ValidRanks(ranks) && s in t.groups && Judged(m, t, s, rules, ranks).Verdict?
    ensures var entry := Judged(m, t, s, rules, ranks).entry;
            && (entry.Pooled? ==> PairsUp(t.groups[s], DurationOf, entry.samples))
            && (entry.Withheld? <==> exists q :: IsMissed(t.groups[s], q))
  {
    hide Statistics.ValidMaths, ValidRanks, PairsUp, Considered, Samples, Tally, Judged, CounterSamples;
    StratumPairsUp(t, s, rules);
    JudgedBalanced(m, t, s, rules, ranks);
    JudgedCompletion(m, t, s, rules, ranks);
    JudgedEntry(m, t, s, rules, ranks);
    MissedSomewhere(t.groups[s], Judged(m, t, s, rules, ranks).comparison.completion);
  }

  lemma JudgedEntry(m: Statistics.Maths, t: Tables, s: Stratum, rules: Rules, ranks: Ranks)
    requires Statistics.ValidMaths(m) && ValidRanks(ranks) && s in t.groups && Judged(m, t, s, rules, ranks).Verdict?
    ensures var v := Judged(m, t, s, rules, ranks);
            v.entry.Withheld? <==> v.comparison.completion.baselineMissed > 0 || v.comparison.completion.candidateMissed > 0
  {
    hide Statistics.ValidMaths, ValidRanks, FigureOf, Statistics.Summarized, Considered, Recorded, Samples, Tally,
      AllComplete, Excluded, PairsOf, Described, CompletionOf;
    DescribedCompletion(m, t, s, rules, ranks);
    MissedCounts(Recorded(t, s), Considered(t, s, rules),
      Excluded(rules.exclusions, rules.roles.baseline, s.fixture),
      Excluded(rules.exclusions, rules.roles.candidate, s.fixture));
  }

  lemma MissedSomewhere(blocks: map<int, Block>, c: Completion)
    requires CompletionIs(c, blocks)
    ensures (c.baselineMissed > 0 || c.candidateMissed > 0) <==> exists q :: IsMissed(blocks, q)
  {
    var x := set q | q in blocks && !blocks[q].baseline.Timed?;
    var y := set q | q in blocks && !blocks[q].candidate.Timed?;
    if q :| IsMissed(blocks, q) {
      assert q in x || q in y;
    }
    if x != {} {
      SomeId(x);
      var q :| q in x;
      assert IsMissed(blocks, q);
    }
    if y != {} {
      SomeId(y);
      var q :| q in y;
      assert IsMissed(blocks, q);
    }
  }

  // A fixture's subgroup on each axis follows the axes that its artifacts declare.
  lemma SubgroupTraced(
    artifacts: seq<Artifact>, roles: Roles, parents: map<Group, Roll>, division: map<Group, Roll>, parent: Group,
    g: Group, j: nat)
    requires Fold(roles, artifacts).Folded? && j < |artifacts| && IsCompared(roles, artifacts[j])
    requires Classes(parents) && IsSubgroups(Fold(roles, artifacts).tables.facts, parents, division)
    requires parent in parents && Holds(parents[parent], artifacts[j].stratum.fixture)
    requires g.axis != Whole && g.fixtureClass == parent.fixtureClass && g.setting == parent.setting
    ensures var f, declared := artifacts[j].stratum.fixture, artifacts[j].declared;
            var repair := declared.repairProfile != "" && declared.repairProfile != "clean";
            (g in division && Holds(division[g], f) <==>
               (g.axis == Repair ==> g.value == if repair then "repair_required" else "clean") &&
               (g.axis == Encryption ==>
                  g.value == if declared.encryption == "" then "unspecified" else declared.encryption))
  {
    hide Fold, IsSubgroups, Classes;
    var facts, f := Fold(roles, artifacts).tables.facts, artifacts[j].stratum.fixture;
    FoldFacts(roles, artifacts, j);
    WholeParent(parents, parent);
    assert parent.(axis := g.axis, value := g.value) == g;
    AxisPartitions(facts, parents, division, parent, g.axis, g.value, f);
  }

  lemma WholeParent(parents: map<Group, Roll>, parent: Group)
    requires Classes(parents) && parent in parents
    ensures parent == ParentOf(parent)
  {
  }

  // --- Figures ---------------------------------------------------------------------------------------------

  // The figure of an aggregate is the geometric mean of the ratios of the fixtures it names.
  lemma AggregateFigure(m: Statistics.Maths, g: Group, roll: Roll, rules: Rules)
    requires Statistics.ValidMaths(m) && AggregateOf(m, g, roll, rules).Some?
    requires AggregateOf(m, g, roll, rules).value.figure.Some?
    ensures var a := AggregateOf(m, g, roll, rules).value;
            && roll.withheld == {} && |a.compared| > 0 && rules.resamples > 0
            && CrossFixture.AllUsable(roll.samples, a.compared) && a.figure.value.fixtures == a.compared
            && IsMean(a.figure.value.ratio, OwnRatios(m, roll.samples, a.compared, rules.seed, rules.resamples))
  {
    hide Statistics.ValidMaths, IsMean, CrossFixture.AllUsable, Sorted;
    var a := AggregateOf(m, g, roll, rules).value;
    FigureIsGeometric(m, roll.samples, a.compared, rules.seed, rules.resamples);
  }
}
