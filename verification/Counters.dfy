// The comparison of one secondary counter: buildCounterComparison of
// cmd/nntpbench/summarize.go.
module Counters {
  import opened Ordering
  import opened Statistics
  import opened SummaryFold
  import opened Wrappers

  datatype Reason =
    | CollectorsDiffer
    | SourceChanged(client: int)
    | NothingMeasured(client: int)
    | NoFinishedBlock(client: int)
    | ScopesDiffer
    | TooFewPairs

  // What is reported of the provenance that a client's numbers come from.
  datatype Source = Source(scope: int, collector: int, version: int)

  datatype Accounting = Accounting(
    client: int, source: Option<Source>, measured: nat, unavailable: nat, unavailableReasons: seq<int>)

  datatype CounterComparison = CounterComparison(
    accounting: seq<Accounting>, paired: nat, caveats: seq<int>, withheld: seq<Reason>, summary: Option<Summary>)

  function Provenances(account: Account): set<Provenance> {
    set p | p in account.measured
  }

  // A client's account has one source: at least one block measured, all by one provenance.
  ghost predicate OneSource(account: Option<Account>, p: Provenance) {
    account.Some? && Provenances(account.value) == {p}
  }

  // Both clients were measured, each by a single source, and by the same one.
  ghost predicate Comparable(baseline: Option<Account>, candidate: Option<Account>) {
    exists p :: OneSource(baseline, p) && OneSource(candidate, p)
  }

  // The sorted provenances of an account have one entry exactly when it has one source.
  lemma SourceListed(account: Account, s: seq<Provenance>, rank: Provenance -> int)
    requires Lists(s, Provenances(account), rank)
    ensures |account.measured| == 0 <==> |s| == 0
    ensures |s| == 0 <==> Provenances(account) == {}
    ensures |s| > 0 ==> s[0] in Provenances(account)
    ensures |s| == 1 <==> |s| > 0 && OneSource(Some(account), s[0])
  {
    OneKey(Provenances(account), s, rank);
    EmptyMultiset(account);
    if |s| > 0 {
      assert s[0] in s;
    }
  }

  function Max2(n: int): int {
    if n > 2 then n else 2
  }

  // What one client contributes to the reasons and the accounting, and the provenance that
  // stands for it.
  datatype ClientCheck = ClientCheck(reasons: seq<Reason>, first: Option<Provenance>, accounting: Accounting)

  function FirstOf(sources: seq<Provenance>): Option<Provenance> {
    if |sources| > 0 then Some(sources[0]) else None
  }

  function SourceOf(first: Option<Provenance>): Option<Source> {
    match first
    case None => None
    case Some(p) => Some(Source(p.scope, p.collector, p.version))
  }

  function SourceReasons(
    client: int, sources: seq<Provenance>, measured: nat, compatible: Option<Provenance>): seq<Reason>
  {
    (if |sources| > 0 && compatible.Some? && compatible.value != sources[0] then [CollectorsDiffer] else []) +
    (if |sources| > 1 then [SourceChanged(client)] else []) +
    (if measured == 0 then [NothingMeasured(client)] else [])
  }

  ghost function CheckOf(
    client: int, account: Option<Account>, compatible: Option<Provenance>, rank: Provenance -> int): ClientCheck
    requires Injective(rank)
  {
    match account
    case None => ClientCheck([NoFinishedBlock(client)], None, Accounting(client, None, 0, 0, []))
    case Some(a) =>
      IdentityInjective();
      var sources := Sorted(Provenances(a), rank);
      ClientCheck(
        SourceReasons(client, sources, |a.measured|, compatible), FirstOf(sources),
        Accounting(client, SourceOf(FirstOf(sources)), |a.measured|, a.unavailable, Sorted(a.reasons, Identity())))
  }

  method CheckClient(
    client: int, account: Option<Account>, compatible: Option<Provenance>, rank: Provenance -> int)
    returns (check: ClientCheck)
    requires Injective(rank)
    ensures check == CheckOf(client, account, compatible, rank)
  {
    hide Provenances, Injective, Sorted, Lists, Identity;
    if account.None? {
      return ClientCheck([NoFinishedBlock(client)], None, Accounting(client, None, 0, 0, []));
    }
    IdentityInjective();
    var reasons, source := [], None;
    var first: Option<Provenance> := None;
    var unavailable := SortKeys(account.value.reasons, Identity());
    var provenances := SortKeys(Provenances(account.value), rank);
    if |provenances| > 0 {
      first := Some(provenances[0]);
      if compatible.Some? && compatible != first {
        reasons := reasons + [CollectorsDiffer];
      }
      source := Some(Source(provenances[0].scope, provenances[0].collector, provenances[0].version));
    }
    if |provenances| > 1 {
      reasons := reasons + [SourceChanged(client)];
    }
    if |account.value.measured| == 0 {
      reasons := reasons + [NothingMeasured(client)];
    }
    check := ClientCheck(reasons, first,
      Accounting(client, source, |account.value.measured|, account.value.unavailable, unavailable));
  }

  // A client gives no reason exactly when it was measured by one source, that of the client
  // before it if there is one.
  lemma CheckMeans(client: int, account: Option<Account>, compatible: Option<Provenance>, rank: Provenance -> int)
    requires Injective(rank)
    ensures var check := CheckOf(client, account, compatible, rank);
            && (check.first.Some? ==> account.Some? && check.first.value in Provenances(account.value))
            && (check.first.None? ==> account.None? || Provenances(account.value) == {})
            && (|check.reasons| == 0 <==>
                  check.first.Some? && OneSource(account, check.first.value) &&
                  (compatible.Some? ==> compatible == check.first))
  {
    if account.Some? {
      var sources := Sorted(Provenances(account.value), rank);
      SourceListed(account.value, sources, rank);
      assert account == Some(account.value);
      hide OneSource, Provenances, Injective, Sorted, Lists;
    }
  }

  lemma EmptyMultiset(account: Account)
    ensures |account.measured| == 0 <==> Provenances(account) == {}
  {
    if |account.measured| != 0 {
      var p :| p in account.measured;
      assert p in Provenances(account);
    } else {
      assert forall p :: p !in account.measured;
    }
  }

  lemma OneKey<T(!new)>(keys: set<T>, s: seq<T>, rank: T -> int)
    requires Lists(s, keys, rank)
    ensures |s| == 0 <==> keys == {}
    ensures |s| == 1 <==> |s| > 0 && keys == {s[0]}
  {
    ListsEmpty(s, keys, rank);
    if |s| > 0 {
      assert s[0] in s;
      if |s| == 1 {
        assert forall k :: k in keys ==> k in s;
      } else {
        assert s[1] in s && rank(s[0]) < rank(s[1]);
      }
    }
  }

  // The empty scope.
  const NO_SCOPE := 0

  function ScopeOf(source: Option<Source>): int {
    if source.Some? then source.value.scope else NO_SCOPE
  }

  function ScopeReasons(b: Accounting, c: Accounting): seq<Reason> {
    if ScopeOf(b.source) != NO_SCOPE && ScopeOf(c.source) != NO_SCOPE && ScopeOf(b.source) != ScopeOf(c.source)
    then [ScopesDiffer] else []
  }

  ghost function AccountingOf(
    roles: Roles, baseline: Option<Account>, candidate: Option<Account>, rank: Provenance -> int): seq<Accounting>
    requires Injective(rank)
  {
    var b := CheckOf(roles.baseline, baseline, None, rank);
    [b.accounting, CheckOf(roles.candidate, candidate, b.first, rank).accounting]
  }

  // Why a comparison is withheld: something in the accounts, or otherwise too few pairs.
  ghost function ReasonsOf(
    roles: Roles, baseline: Option<Account>, candidate: Option<Account>, paired: nat, minimumBlocks: int,
    rank: Provenance -> int): seq<Reason>
    requires Injective(rank)
  {
    var b := CheckOf(roles.baseline, baseline, None, rank);
    var c := CheckOf(roles.candidate, candidate, b.first, rank);
    var reasons := b.reasons + c.reasons + ScopeReasons(b.accounting, c.accounting);
    if |reasons| > 0 then reasons else if paired < Max2(minimumBlocks) then [TooFewPairs] else []
  }

  // A counter is compared exactly when both clients measured it, each from one source and
  // both from the same, over at least two pairs and the minimum asked for.
  lemma NoReason(
    roles: Roles, baseline: Option<Account>, candidate: Option<Account>, paired: nat, minimumBlocks: int,
    rank: Provenance -> int)
    requires Injective(rank)
    ensures |ReasonsOf(roles, baseline, candidate, paired, minimumBlocks, rank)| == 0 <==>
              Comparable(baseline, candidate) && paired >= 2 && paired >= minimumBlocks
  {
    var b := CheckOf(roles.baseline, baseline, None, rank);
    var c := CheckOf(roles.candidate, candidate, b.first, rank);
    CheckMeans(roles.baseline, baseline, None, rank);
    CheckMeans(roles.candidate, candidate, b.first, rank);
    SourceKept(roles.baseline, baseline, None, rank);
    SourceKept(roles.candidate, candidate, b.first, rank);
    hide CheckOf, Injective;
    if Comparable(baseline, candidate) {
      var p :| OneSource(baseline, p) && OneSource(candidate, p);
      assert p in Provenances(baseline.value);
    }
  }

  lemma SourceKept(client: int, account: Option<Account>, compatible: Option<Provenance>, rank: Provenance -> int)
    requires Injective(rank)
    ensures var check := CheckOf(client, account, compatible, rank);
            check.accounting.source == SourceOf(check.first)
  {
  }

  // Which reason is given when.
  lemma ReasonsMean(
    roles: Roles, baseline: Option<Account>, candidate: Option<Account>, paired: nat, minimumBlocks: int,
    rank: Provenance -> int)
    requires Injective(rank) && roles.baseline != roles.candidate
    ensures var reasons := ReasonsOf(roles, baseline, candidate, paired, minimumBlocks, rank);
            && (NoFinishedBlock(roles.baseline) in reasons <==> baseline.None?)
            && (NoFinishedBlock(roles.candidate) in reasons <==> candidate.None?)
            && (NothingMeasured(roles.baseline) in reasons <==> baseline.Some? && |baseline.value.measured| == 0)
            && (NothingMeasured(roles.candidate) in reasons <==> candidate.Some? && |candidate.value.measured| == 0)
            && (SourceChanged(roles.baseline) in reasons <==>
                  baseline.Some? && |Provenances(baseline.value)| > 1)
            && (SourceChanged(roles.candidate) in reasons <==>
                  candidate.Some? && |Provenances(candidate.value)| > 1)
            && (TooFewPairs in reasons <==>
                  Comparable(baseline, candidate) && (paired < 2 || paired < minimumBlocks))
  {
    hide CheckOf, Injective, Comparable, ReasonsOf, Provenances;
    var b := CheckOf(roles.baseline, baseline, None, rank);
    CheckReasons(roles.baseline, baseline, None, rank);
    CheckReasons(roles.candidate, candidate, b.first, rank);
    forall r: Reason
      ensures r in ReasonsOf(roles, baseline, candidate, paired, minimumBlocks, rank) <==>
                var c := CheckOf(roles.candidate, candidate, b.first, rank);
                r in b.reasons || r in c.reasons || r in ScopeReasons(b.accounting, c.accounting) ||
                (r == TooFewPairs && Comparable(baseline, candidate) && (paired < 2 || paired < minimumBlocks))
    {
      ReasonListed(roles, baseline, candidate, paired, minimumBlocks, rank, r);
    }
  }

  lemma ReasonListed(
    roles: Roles, baseline: Option<Account>, candidate: Option<Account>, paired: nat, minimumBlocks: int,
    rank: Provenance -> int, r: Reason)
    requires Injective(rank)
    ensures var b := CheckOf(roles.baseline, baseline, None, rank);
            var c := CheckOf(roles.candidate, candidate, b.first, rank);
            r in ReasonsOf(roles, baseline, candidate, paired, minimumBlocks, rank) <==>
              r in b.reasons || r in c.reasons || r in ScopeReasons(b.accounting, c.accounting) ||
              (r == TooFewPairs && Comparable(baseline, candidate) && (paired < 2 || paired < minimumBlocks))
  {
    hide CheckOf, Injective, Comparable, ScopeReasons;
    var enough := if minimumBlocks > 2 then minimumBlocks else 2;
    NoReason(roles, baseline, candidate, enough, minimumBlocks, rank);
    var b := CheckOf(roles.baseline, baseline, None, rank);
    var c := CheckOf(roles.candidate, candidate, b.first, rank);
    InThree(b.reasons, c.reasons, ScopeReasons(b.accounting, c.accounting), r);
  }

  lemma InThree<T>(a: seq<T>, b: seq<T>, c: seq<T>, x: T)
    ensures x in a + b + c <==> x in a || x in b || x in c
    ensures |a + b + c| == 0 ==> x !in a && x !in b && x !in c
  {
  }

  // What one client can give as reasons.
  lemma CheckReasons(client: int, account: Option<Account>, compatible: Option<Provenance>, rank: Provenance -> int)
    requires Injective(rank)
    ensures var reasons := CheckOf(client, account, compatible, rank).reasons;
            && (NoFinishedBlock(client) in reasons <==> account.None?)
            && (NothingMeasured(client) in reasons <==> account.Some? && |account.value.measured| == 0)
            && (SourceChanged(client) in reasons <==> account.Some? && |Provenances(account.value)| > 1)
            && (forall r :: r in reasons ==>
                  r == CollectorsDiffer || r == NoFinishedBlock(client) || r == NothingMeasured(client) ||
                  r == SourceChanged(client))
  {
    if account.Some? {
      IdentityInjective();
      var sources := Sorted(Provenances(account.value), rank);
      hide Sorted, Lists, Injective, Identity, Provenances;
      PartsListed(client, sources, |account.value.measured|, compatible);
    }
  }

  lemma PartsListed(client: int, sources: seq<Provenance>, measured: nat, compatible: Option<Provenance>)
    ensures var reasons := SourceReasons(client, sources, measured, compatible);
            && (NothingMeasured(client) in reasons <==> measured == 0)
            && (SourceChanged(client) in reasons <==> |sources| > 1)
            && NoFinishedBlock(client) !in reasons
            && (forall r :: r in reasons ==>
                  r == CollectorsDiffer || r == NothingMeasured(client) || r == SourceChanged(client))
  {
  }

  // What is reported of a counter. None: its samples cannot be summarized, an error of the
  // whole report.
  ghost function ComparisonOf(
    m: Maths, roles: Roles, baseline: Option<Account>, candidate: Option<Account>, caveats: set<int>,
    samples: seq<Sample>, minimumBlocks: int, seed: int, resamples: int, rank: Provenance -> int)
    : Option<CounterComparison>
    requires ValidMaths(m) && Injective(rank)
  {
    IdentityInjective();
    var accounting := AccountingOf(roles, baseline, candidate, rank);
    var reasons := ReasonsOf(roles, baseline, candidate, |samples|, minimumBlocks, rank);
    var withheld := CounterComparison(accounting, |samples|, Sorted(caveats, Identity()), reasons, None);
    if |reasons| > 0 then Some(withheld)
    else if resamples >= 1 && |samples| >= 2 && AllPositive(samples) then
      Some(withheld.(summary := Some(Summarized(m, samples, seed, resamples))))
    else None
  }

  method BuildCounterComparison(
    m: Maths, roles: Roles, baseline: Option<Account>, candidate: Option<Account>, caveats: set<int>,
    samples: seq<Sample>, minimumBlocks: int, seed: int, resamples: int, rank: Provenance -> int)
    returns (result: Option<CounterComparison>)
    requires ValidMaths(m) && Injective(rank)
    ensures result ==
              ComparisonOf(m, roles, baseline, candidate, caveats, samples, minimumBlocks, seed, resamples, rank)
    ensures result.None? <==>
              Comparable(baseline, candidate) && |samples| >= 2 && |samples| >= minimumBlocks &&
              !(resamples >= 1 && AllPositive(samples))
    ensures result.Some? ==>
              (result.value.summary.Some? <==>
                 Comparable(baseline, candidate) && |samples| >= 2 && |samples| >= minimumBlocks)
    ensures result.Some? ==> (result.value.summary.None? <==> |result.value.withheld| > 0)
  {
    hide ValidMaths, Summarized, AllPositive, Injective, CheckOf, Comparable, Sorted, Lists, Identity;
    IdentityInjective();
    NoReason(roles, baseline, candidate, |samples|, minimumBlocks, rank);
    var caveatList := SortKeys(caveats, Identity());
    var b := CheckClient(roles.baseline, baseline, None, rank);
    var c := CheckClient(roles.candidate, candidate, b.first, rank);
    var withheld := b.reasons + c.reasons;
    if ScopeOf(b.accounting.source) != NO_SCOPE && ScopeOf(c.accounting.source) != NO_SCOPE &&
       ScopeOf(b.accounting.source) != ScopeOf(c.accounting.source)
    {
      withheld := withheld + [ScopesDiffer];
    }
    var comparison := CounterComparison([b.accounting, c.accounting], |samples|, caveatList, withheld, None);
    assert withheld == b.reasons + c.reasons + ScopeReasons(b.accounting, c.accounting);
    if |withheld| > 0 {
      return Some(comparison);
    }
    if |samples| < Max2(minimumBlocks) {
      return Some(comparison.(withheld := [TooFewPairs]));
    }
    var r := SummarizePaired(m, samples, seed, resamples);
    if r.Error? {
      return None;
    }
    return Some(comparison.(summary := Some(r.summary)));
  }
}
