// The whole of buildSummaryReport: cmd/nntpbench/summarize.go.
module Summary {
  import opened Ordering
  import Statistics
  import opened Subgroups
  import opened SummaryFold
  import opened SummaryReport

  datatype Report = NoReport | Report(comparisons: seq<Comparison>, aggregates: seq<Aggregate>, subgroups: seq<Aggregate>)

  // --- Preparing the steps ------------------------------------------------------------------------------------

  lemma StrataListed(t: Tables, strata: seq<Stratum>, rank: Stratum -> int)
    requires Lists(strata, t.groups.Keys, rank)
    ensures AllGrouped(t, strata) && Distinct(strata)
  {
    forall i | 0 <= i < |strata|
      ensures strata[i] in t.groups
    {
      assert strata[i] in strata;
    }
    forall i, j | 0 <= i < j < |strata|
      ensures strata[i] != strata[j]
    {
      assert rank(strata[i]) < rank(strata[j]);
    }
  }

  ghost function StrataOf(t: Tables, ranks: Ranks): (strata: seq<Stratum>)
    requires ValidRanks(ranks)
    ensures Lists(strata, t.groups.Keys, ranks.strata) && AllGrouped(t, strata) && Distinct(strata)
  {
    var strata := Sorted(t.groups.Keys, ranks.strata);
    StrataListed(t, strata, ranks.strata);
    strata
  }

  ghost function GroupsOf(rolls: map<Group, Roll>, ranks: Ranks): (groups: seq<Group>)
    requires ValidRanks(ranks)
    ensures Lists(groups, rolls.Keys, ranks.groups)
    ensures forall i :: 0 <= i < |groups| ==> groups[i] in rolls
  {
    var groups := Sorted(rolls.Keys, ranks.groups);
    GroupsKnown(rolls, groups, ranks);
    groups
  }

  // Rolls are those of whole classes.
  lemma {:induction false} DraftClasses(
    m: Statistics.Maths, t: Tables, strata: seq<Stratum>, rules: Rules, ranks: Ranks)
    requires Statistics.ValidMaths(m) && ValidRanks(ranks) && AllGrouped(t, strata)
    requires Drafted(m, t, strata, rules, ranks).Draft?
    ensures Classes(Drafted(m, t, strata, rules, ranks).rolls)
  {
    hide Statistics.ValidMaths, Judged;
    if |strata| != 0 {
      DraftClasses(m, t, strata[..|strata| - 1], rules, ranks);
    }
  }

  lemma {:induction false} DraftLength(
    m: Statistics.Maths, t: Tables, strata: seq<Stratum>, rules: Rules, ranks: Ranks)
    requires Statistics.ValidMaths(m) && ValidRanks(ranks) && AllGrouped(t, strata)
    requires Drafted(m, t, strata, rules, ranks).Draft?
    ensures var c := Drafted(m, t, strata, rules, ranks).comparisons;
            |c| == |strata| && forall i :: 0 <= i < |c| ==>
              Judged(m, t, strata[i], rules, ranks).Verdict? && c[i] == Judged(m, t, strata[i], rules, ranks).comparison
  {
    hide Statistics.ValidMaths, Judged, Enrolled;
    if |strata| != 0 {
      DraftLength(m, t, strata[..|strata| - 1], rules, ranks);
    }
  }

  // --- The report -----------------------------------------------------------------------------------------------

  // A report of folded artifacts, for some division into subgroups.
  ghost predicate IsReport(m: Statistics.Maths, f: Folded, rules: Rules, ranks: Ranks, r: Report)
    requires Statistics.ValidMaths(m) && ValidRanks(ranks)
  {
    match f
    case Refused => r.NoReport?
    case Folded(t) =>
      match Drafted(m, t, StrataOf(t, ranks), rules, ranks)
      case Rejected => r.NoReport?
      case Draft(comparisons, rolls) =>
        if |comparisons| == 0 then r.NoReport?
        else exists division :: IsSubgroups(t.facts, rolls, division) && Pooled(m, rules, ranks, comparisons, rolls, division, r)
  }

  ghost predicate Pooled(
    m: Statistics.Maths, rules: Rules, ranks: Ranks, comparisons: seq<Comparison>, rolls: map<Group, Roll>,
    division: map<Group, Roll>, r: Report)
    requires Statistics.ValidMaths(m) && ValidRanks(ranks)
  {
    var a := AggregatesOf(m, rolls, GroupsOf(rolls, ranks), rules);
    var s := AggregatesOf(m, division, GroupsOf(division, ranks), rules);
    if a.NoAggregates? || s.NoAggregates? then r.NoReport? else r == Report(comparisons, a.list, s.list)
  }

  method BuildSummaryReport(
    m: Statistics.Maths, artifacts: seq<Artifact>, rules: Rules, ranks: Ranks) returns (r: Report)
    requires Statistics.ValidMaths(m) && ValidRanks(ranks)
    ensures IsReport(m, Fold(rules.roles, artifacts), rules, ranks, r)
  {
    hide Statistics.ValidMaths, ValidRanks, Fold, Drafted, AggregatesOf, IsSubgroups, Sorted, Classes;
    var f, lists := FoldArtifacts(rules.roles, artifacts);
    if f.Refused? {
      return NoReport;
    }
    var t := f.tables;
    var strata := SortStrata(t, ranks);
    var draft := DraftReport(m, t, lists, strata, rules, ranks);
    if draft.Rejected? || |draft.comparisons| == 0 {
      return NoReport;
    }
    DraftClasses(m, t, strata, rules, ranks);
    var division := SubgroupAccounts(t.facts, draft.rolls);
    var a := BuildClassAggregates(m, draft.rolls, rules, ranks);
    assert a == AggregatesOf(m, draft.rolls, GroupsOf(draft.rolls, ranks), rules);
    if a.NoAggregates? {
      assert Pooled(m, rules, ranks, draft.comparisons, draft.rolls, division, NoReport);
      return NoReport;
    }
    var s := BuildClassAggregates(m, division, rules, ranks);
    assert s == AggregatesOf(m, division, GroupsOf(division, ranks), rules);
    r := if s.NoAggregates? then NoReport else Report(draft.comparisons, a.list, s.list);
    assert Pooled(m, rules, ranks, draft.comparisons, draft.rolls, division, r);
  }

  method SortStrata(t: Tables, ranks: Ranks) returns (strata: seq<Stratum>)
    requires ValidRanks(ranks)
    ensures strata == StrataOf(t, ranks)
  {
    strata := SortKeys(t.groups.Keys, ranks.strata);
  }

  // --- Order does not matter ------------------------------------------------------------------------------------

  lemma ReportUnique(m: Statistics.Maths, f: Folded, rules: Rules, ranks: Ranks, x: Report, y: Report)
    requires Statistics.ValidMaths(m) && ValidRanks(ranks)
    requires IsReport(m, f, rules, ranks, x) && IsReport(m, f, rules, ranks, y)
    ensures x == y
  {
    hide Statistics.ValidMaths, ValidRanks, Drafted, AggregatesOf, IsSubgroups, Sorted;
    if f.Folded? {
      var t := f.tables;
      var d := Drafted(m, t, StrataOf(t, ranks), rules, ranks);
      if d.Draft? && |d.comparisons| > 0 {
        var v :| IsSubgroups(t.facts, d.rolls, v) && Pooled(m, rules, ranks, d.comparisons, d.rolls, v, x);
        var w :| IsSubgroups(t.facts, d.rolls, w) && Pooled(m, rules, ranks, d.comparisons, d.rolls, w, y);
        DivisionUnique(t.facts, d.rolls, v, w);
      }
    }
  }

  // Two lists of the same artifacts, in any two orders, give the same report or no report.
  lemma ReportIgnoresOrder(
    m: Statistics.Maths, a: seq<Artifact>, b: seq<Artifact>, rules: Rules, ranks: Ranks, x: Report, y: Report)
    requires Statistics.ValidMaths(m) && ValidRanks(ranks)
    requires multiset(a) == multiset(b)
    requires IsReport(m, Fold(rules.roles, a), rules, ranks, x) && IsReport(m, Fold(rules.roles, b), rules, ranks, y)
    ensures x == y
  {
    hide Statistics.ValidMaths, ValidRanks, IsReport, Fold;
    OrderIrrelevant(rules.roles, a, b);
    ReportUnique(m, Fold(rules.roles, a), rules, ranks, x, y);
  }

  // --- Timing and summary agree -----------------------------------------------------------------------------------

  // In every report of every list of artifacts, the interval of each timing assessment encloses
  // the interval of the comparison beside it.
  lemma ReportEncloses(m: Statistics.Maths, artifacts: seq<Artifact>, rules: Rules, ranks: Ranks, r: Report)
    requires Statistics.ValidMaths(m) && ValidRanks(ranks)
    requires IsReport(m, Fold(rules.roles, artifacts), rules, ranks, r) && r.Report?
    ensures forall i :: 0 <= i < |r.comparisons| ==> Enclosed(r.comparisons[i])
  {
    hide Statistics.ValidMaths, ValidRanks, Fold, Drafted, Judged, AggregatesOf, IsSubgroups, Sorted, PlausibleTables,
      Enclosed;
    var t := Fold(rules.roles, artifacts).tables;
    var strata := StrataOf(t, ranks);
    var d := Drafted(m, t, strata, rules, ranks);
    FoldPlausible(rules.roles, artifacts);
    DraftLength(m, t, strata, rules, ranks);
    forall i | 0 <= i < |strata|
      ensures Enclosed(d.comparisons[i])
    {
      JudgedEnclosed(m, t, strata[i], rules, ranks);
    }
  }

  // --- What a report says ---------------------------------------------------------------------------------------

  lemma DivisionSound(facts: map<Fact, Value>, parents: map<Group, Roll>, division: map<Group, Roll>, rules: Rules)
    requires Classes(parents) && IsSubgroups(facts, parents, division) && Sound(parents, rules)
    ensures Sound(division, rules)
  {
    hide IsSubgroups, Classes;
    forall g | g in division
      ensures division[g].samples == map[] ==> division[g].withheld != {}
      ensures division[g].samples != map[] ==> rules.resamples >= 1
      ensures forall f :: f in division[g].samples ==> CrossFixture.Usable(division[g].samples, f)
    {
      GroupSound(facts, parents, division, g, rules);
    }
  }

  lemma GroupSound(
    facts: map<Fact, Value>, parents: map<Group, Roll>, division: map<Group, Roll>, g: Group, rules: Rules)
    requires Classes(parents) && IsSubgroups(facts, parents, division) && Sound(parents, rules) && g in division
    ensures division[g].samples == map[] ==> division[g].withheld != {}
    ensures division[g].samples != map[] ==> rules.resamples >= 1
    ensures forall f :: f in division[g].samples ==> CrossFixture.Usable(division[g].samples, f)
  {
    hide IsSubgroups;
    OnlyDivisions(facts, parents, division, g);
    var parent := ParentOf(g);
    assert parent.(axis := g.axis, value := g.value) == g;
    assert parent in parents;
    forall f
      ensures f in division[g].samples ==>
                f in parents[parent].samples && division[g].samples[f] == parents[parent].samples[f]
    {
      AxisPartitions(facts, parents, division, parent, g.axis, g.value, f);
    }
    var id :| Holds(division[g], id);
    SomeKey(division[g].samples);
    assert forall f :: f in parents[parent].samples ==> CrossFixture.Usable(parents[parent].samples, f);
  }

  // Once the artifacts are folded and every stratum is judged, the figures over fixtures never
  // fail. The report has one comparison for each stratum, one aggregate for each class, and
  // one for each subgroup; each names its fixtures and has a figure exactly when none of them
  // is withheld.
  lemma ReportComplete(m: Statistics.Maths, f: Folded, rules: Rules, ranks: Ranks, r: Report)
    requires Statistics.ValidMaths(m) && ValidRanks(ranks) && IsReport(m, f, rules, ranks, r)
    requires f.Folded? && Drafted(m, f.tables, StrataOf(f.tables, ranks), rules, ranks).Draft? && f.tables.groups != map[]
    ensures r.Report? && |r.comparisons| == |StrataOf(f.tables, ranks)|
    ensures var rolls := Drafted(m, f.tables, StrataOf(f.tables, ranks), rules, ranks).rolls;
            && Covers(f.tables, StrataOf(f.tables, ranks), rolls)
            && AllReported(r.aggregates, rolls, ranks)
            && exists division :: IsSubgroups(f.tables.facts, rolls, division) && AllReported(r.subgroups, division, ranks)
  {
    hide Statistics.ValidMaths, ValidRanks, Drafted, AggregatesOf, IsSubgroups, Sorted, Classes, Sound, Covers, Lists;
    var t := f.tables;
    var strata := StrataOf(t, ranks);
    var d := Drafted(m, t, strata, rules, ranks);
    DraftLength(m, t, strata, rules, ranks);
    SomeStratum(t, strata, ranks);
    RollsCover(m, t, strata, rules, ranks);
    RollsSound(m, t, strata, rules, ranks);
    DraftClasses(m, t, strata, rules, ranks);
    var division :| IsSubgroups(t.facts, d.rolls, division) && Pooled(m, rules, ranks, d.comparisons, d.rolls, division, r);
    DivisionSound(t.facts, d.rolls, division, rules);
    SoundAggregates(m, d.rolls, GroupsOf(d.rolls, ranks), rules);
    SoundAggregates(m, division, GroupsOf(division, ranks), rules);
  }

  lemma SomeStratum(t: Tables, strata: seq<Stratum>, ranks: Ranks)
    requires ValidRanks(ranks) && strata == StrataOf(t, ranks) && t.groups != map[]
    ensures |strata| > 0
  {
    ListsEmpty(strata, t.groups.Keys, ranks.strata);
    NoStrata(t.groups);
  }

  lemma NoStrata(groups: map<Stratum, map<int, Block>>)
    ensures groups.Keys == {} ==> groups == map[]
  {
  }

  // One aggregate for each group, in order, about the fixtures of its roll.
  ghost predicate AllReported(aggregates: seq<Aggregate>, rolls: map<Group, Roll>, ranks: Ranks)
    requires ValidRanks(ranks)
  {
    |aggregates| == |GroupsOf(rolls, ranks)| &&
    forall i :: 0 <= i < |aggregates| ==>
      Reports(aggregates[i], GroupsOf(rolls, ranks)[i], rolls[GroupsOf(rolls, ranks)[i]])
  }
}
