// What the fold over the artifacts has collected, told by the fields of the artifacts:
// cmd/nntpbench/summarize.go.
module FoldedTables {
  import opened SummaryFold

  // --- Facts -----------------------------------------------------------------------------------------------

  // The facts that every artifact states, and those of the compared clients.
  predicate StatesCommon(facts: map<Fact, Value>, a: Artifact) {
    && StorageProfile in facts && facts[StorageProfile] == Stored(a.storage)
    && (a.pinned.Output? ==>
          Pinned(a.stratum.fixture) in facts && facts[Pinned(a.stratum.fixture)] == Digest(a.pinned.digest))
  }

  predicate StatesRun(facts: map<Fact, Value>, a: Artifact) {
    && Workload(a.stratum) in facts && facts[Workload(a.stratum)] == Digest(a.workload)
    && Infrastructure(a.stratum) in facts && facts[Infrastructure(a.stratum)] == Digest(a.infrastructure)
    && BuildOf(Product(a.stratum, a.client)) in facts && facts[BuildOf(Product(a.stratum, a.client))] == Built(a.build)
  }

  predicate StatesFixture(facts: map<Fact, Value>, a: Artifact) {
    && ClassOf(a.stratum.fixture) in facts && facts[ClassOf(a.stratum.fixture)] == Digest(a.fixtureClass)
    && CaseOf(a.stratum.fixture) in facts && facts[CaseOf(a.stratum.fixture)] == Declared(a.declared)
    && EncodingOf(a.stratum.fixture) in facts && facts[EncodingOf(a.stratum.fixture)] == Digest(a.encoding)
  }

  predicate StatesBuild(facts: map<Fact, Value>, a: Artifact) {
    var fact := Aggregated(a.fixtureClass, a.stratum.setting, a.client);
    && fact in facts && facts[fact].Built?
    && facts[fact].build.identity == a.build.identity && facts[fact].build.policy == a.build.policy
  }

  predicate IsCompared(roles: Roles, a: Artifact) {
    a.client == roles.baseline || a.client == roles.candidate
  }

  predicate Contains(facts: map<Fact, Value>, f: map<Fact, Value>) {
    forall k :: k in f ==> k in facts && facts[k] == f[k]
  }

  lemma ContainedFacts(roles: Roles, facts: map<Fact, Value>, a: Artifact)
    requires Contains(facts, FactsOf(roles, a))
    ensures StatesCommon(facts, a)
    ensures IsCompared(roles, a) ==> StatesRun(facts, a) && StatesFixture(facts, a) && StatesBuild(facts, a)
  {
    ContainsParts(roles, facts, a);
    hide Contains;
    ContainedCommon(facts, a);
    if IsCompared(roles, a) {
      ContainedRun(facts, a);
      ContainedFixture(facts, a);
    }
  }

  lemma ContainsParts(roles: Roles, facts: map<Fact, Value>, a: Artifact)
    requires Contains(facts, FactsOf(roles, a))
    ensures Contains(facts, CommonFacts(a))
    ensures IsCompared(roles, a) ==>
              Contains(facts, RunFacts(a)) && Contains(facts, FixtureFacts(a)) && Contains(facts, ProductFacts(a))
  {
    KindsDiffer(a);
    ComparedKinds(a);
    hide CommonFacts, RunFacts, FixtureFacts, ProductFacts;
  }

  lemma ContainedCommon(facts: map<Fact, Value>, a: Artifact)
    requires Contains(facts, CommonFacts(a))
    ensures StatesCommon(facts, a)
  {
    assert StorageProfile in CommonFacts(a);
    if a.pinned.Output? {
      assert Pinned(a.stratum.fixture) in CommonFacts(a);
    }
  }

  lemma ContainedRun(facts: map<Fact, Value>, a: Artifact)
    requires Contains(facts, RunFacts(a)) && Contains(facts, ProductFacts(a))
    ensures StatesRun(facts, a) && StatesBuild(facts, a)
  {
    assert Workload(a.stratum) in RunFacts(a) && Infrastructure(a.stratum) in RunFacts(a);
    assert BuildOf(Product(a.stratum, a.client)) in ProductFacts(a);
    assert Aggregated(a.fixtureClass, a.stratum.setting, a.client) in ProductFacts(a);
  }

  lemma ContainedFixture(facts: map<Fact, Value>, a: Artifact)
    requires Contains(facts, FixtureFacts(a))
    ensures StatesFixture(facts, a)
  {
    assert ClassOf(a.stratum.fixture) in FixtureFacts(a) && CaseOf(a.stratum.fixture) in FixtureFacts(a);
    assert EncodingOf(a.stratum.fixture) in FixtureFacts(a);
  }

  lemma {:induction false} FoldContains(roles: Roles, artifacts: seq<Artifact>, i: nat)
    requires Fold(roles, artifacts).Folded? && i < |artifacts|
    ensures Contains(Fold(roles, artifacts).tables.facts, FactsOf(roles, artifacts[i]))
  {
    hide FactsOf;
    var n := |artifacts| - 1;
    var less := Fold(roles, artifacts[..n]).tables;
    AddedFacts(roles, less, artifacts[n]);
    if i < n {
      FoldContains(roles, artifacts[..n], i);
    }
  }

  lemma AddedFacts(roles: Roles, t: Tables, a: Artifact)
    requires Accepted(roles, t, a)
    ensures Contains(Added(roles, t, a).facts, t.facts) && Contains(Added(roles, t, a).facts, FactsOf(roles, a))
  {
    hide FactsOf;
  }

  // Every artifact finds its own values in the tables, and so all artifacts share them.
  lemma FoldFacts(roles: Roles, artifacts: seq<Artifact>, i: nat)
    requires Fold(roles, artifacts).Folded? && i < |artifacts|
    ensures var facts, a := Fold(roles, artifacts).tables.facts, artifacts[i];
            && StatesCommon(facts, a)
            && (IsCompared(roles, a) ==> StatesRun(facts, a) && StatesFixture(facts, a) && StatesBuild(facts, a))
  {
    hide Fold, FactsOf, Contains, StatesCommon, StatesRun, StatesFixture, StatesBuild;
    FoldContains(roles, artifacts, i);
    ContainedFacts(roles, Fold(roles, artifacts).tables.facts, artifacts[i]);
  }

  // A client has a build in a stratum only through an artifact.
  ghost predicate Ran(roles: Roles, artifacts: seq<Artifact>, s: Stratum, client: int) {
    exists i :: 0 <= i < |artifacts| && IsCompared(roles, artifacts[i]) &&
      artifacts[i].stratum == s && artifacts[i].client == client
  }

  lemma {:induction false} FoldBuilds(roles: Roles, artifacts: seq<Artifact>, s: Stratum, client: int)
    requires Fold(roles, artifacts).Folded?
    ensures BuildOf(Product(s, client)) in Fold(roles, artifacts).tables.facts <==> Ran(roles, artifacts, s, client)
  {
    hide Accepted, FactsOf;
    if |artifacts| != 0 {
      var n := |artifacts| - 1;
      FoldBuilds(roles, artifacts[..n], s, client);
      OwnBuild(roles, artifacts[n], s, client);
      AddedFactsAre(roles, Fold(roles, artifacts[..n]).tables, artifacts[n]);
      RanNext(roles, artifacts, s, client);
    }
  }

  lemma AddedFactsAre(roles: Roles, t: Tables, a: Artifact)
    ensures Added(roles, t, a).facts == t.facts + FactsOf(roles, a)
  {
    hide FactsOf;
  }

  lemma OwnBuild(roles: Roles, a: Artifact, s: Stratum, client: int)
    ensures BuildOf(Product(s, client)) in FactsOf(roles, a) <==>
              IsCompared(roles, a) && a.stratum == s && a.client == client
  {
  }

  lemma RanNext(roles: Roles, artifacts: seq<Artifact>, s: Stratum, client: int)
    requires |artifacts| > 0
    ensures var n := |artifacts| - 1;
            Ran(roles, artifacts, s, client) <==>
              Ran(roles, artifacts[..n], s, client) ||
              (IsCompared(roles, artifacts[n]) && artifacts[n].stratum == s && artifacts[n].client == client)
  {
    var n := |artifacts| - 1;
    if Ran(roles, artifacts[..n], s, client) {
      var i :| 0 <= i < n && IsCompared(roles, artifacts[..n][i]) &&
        artifacts[..n][i].stratum == s && artifacts[..n][i].client == client;
      assert artifacts[i] == artifacts[..n][i];
    }
    if Ran(roles, artifacts, s, client) {
      var i :| 0 <= i < |artifacts| && IsCompared(roles, artifacts[i]) &&
        artifacts[i].stratum == s && artifacts[i].client == client;
      if i < n {
        assert artifacts[..n][i] == artifacts[i];
      }
    }
  }

  // What two artifacts must share: the storage profile and the pinned output of a fixture; and,
  // when both are of the compared clients, what their fixture, stratum, client and class fix.
  predicate Shares(roles: Roles, a: Artifact, b: Artifact) {
    && a.storage == b.storage
    && (a.pinned.Output? && b.pinned.Output? && a.stratum.fixture == b.stratum.fixture ==> a.pinned == b.pinned)
    && (IsCompared(roles, a) && IsCompared(roles, b) ==> SharesRun(a, b) && SharesFixture(a, b))
  }

  predicate SharesRun(a: Artifact, b: Artifact) {
    && (a.stratum == b.stratum ==> a.workload == b.workload && a.infrastructure == b.infrastructure)
    && (a.stratum == b.stratum && a.client == b.client ==> a.build == b.build)
    && (a.fixtureClass == b.fixtureClass && a.stratum.setting == b.stratum.setting && a.client == b.client ==>
          a.build.identity == b.build.identity && a.build.policy == b.build.policy)
  }

  predicate SharesFixture(a: Artifact, b: Artifact) {
    a.stratum.fixture == b.stratum.fixture ==>
      a.fixtureClass == b.fixtureClass && a.declared == b.declared && a.encoding == b.encoding
  }

  // Two observations of one side of a block.
  predicate Collides(roles: Roles, a: Artifact, b: Artifact) {
    && IsCompared(roles, a) && IsCompared(roles, b) && a.stratum == b.stratum && a.repetition == b.repetition
    && (a.client == roles.baseline <==> b.client == roles.baseline)
  }

  lemma AgreeParts<K, V>(c: map<K, V>, d: map<K, V>, e: map<K, V>, f: map<K, V>)
    requires forall k :: k in c ==> k !in d && k !in f
    requires forall k :: k in e ==> k !in f && k !in d
    ensures Agree(c + d, e + f) <==> Agree(c, e) && Agree(d, f)
  {
    if Agree(c + d, e + f) {
      forall k | k in c && k in e
        ensures c[k] == e[k]
      {
        assert (c + d)[k] == c[k] && (e + f)[k] == e[k];
      }
      forall k | k in d && k in f
        ensures d[k] == f[k]
      {
        assert (c + d)[k] == d[k] && (e + f)[k] == f[k];
      }
    }
  }

  lemma KindsOfFacts(a: Artifact)
    ensures forall k :: k in CommonFacts(a) ==> k.StorageProfile? || k.Pinned?
    ensures forall k :: k in ComparedFacts(a) ==> !k.StorageProfile? && !k.Pinned?
    ensures forall k :: k in RunFacts(a) ==> k.Workload? || k.Infrastructure?
    ensures forall k :: k in FixtureFacts(a) ==> k.ClassOf? || k.CaseOf? || k.EncodingOf?
    ensures forall k :: k in ProductFacts(a) ==> k.BuildOf? || k.Aggregated?
  {
  }

  lemma CommonAgree(a: Artifact, b: Artifact)
    ensures Agree(CommonFacts(a), CommonFacts(b)) <==>
              a.storage == b.storage &&
              (a.pinned.Output? && b.pinned.Output? && a.stratum.fixture == b.stratum.fixture ==> a.pinned == b.pinned)
  {
    var f, g := CommonFacts(a), CommonFacts(b);
    assert StorageProfile in f && StorageProfile in g;
    if a.pinned.Output? && b.pinned.Output? && a.stratum.fixture == b.stratum.fixture {
      assert Pinned(a.stratum.fixture) in f && Pinned(a.stratum.fixture) in g;
    }
  }

  lemma RunAgree(a: Artifact, b: Artifact)
    ensures Agree(RunFacts(a), RunFacts(b)) <==>
              (a.stratum == b.stratum ==> a.workload == b.workload && a.infrastructure == b.infrastructure)
  {
    var f, g := RunFacts(a), RunFacts(b);
    if a.stratum == b.stratum {
      assert Workload(a.stratum) in f && Workload(a.stratum) in g;
      assert Infrastructure(a.stratum) in f && Infrastructure(a.stratum) in g;
    }
  }

  lemma FixtureAgree(a: Artifact, b: Artifact)
    ensures Agree(FixtureFacts(a), FixtureFacts(b)) <==> SharesFixture(a, b)
  {
    var f, g := FixtureFacts(a), FixtureFacts(b);
    if a.stratum.fixture == b.stratum.fixture {
      assert ClassOf(a.stratum.fixture) in f && ClassOf(a.stratum.fixture) in g;
      assert CaseOf(a.stratum.fixture) in f && CaseOf(a.stratum.fixture) in g;
      assert EncodingOf(a.stratum.fixture) in f && EncodingOf(a.stratum.fixture) in g;
    }
  }

  lemma ProductAgree(a: Artifact, b: Artifact)
    ensures Agree(ProductFacts(a), ProductFacts(b)) <==>
              && (a.stratum == b.stratum && a.client == b.client ==> a.build == b.build)
              && (a.fixtureClass == b.fixtureClass && a.stratum.setting == b.stratum.setting && a.client == b.client ==>
                    a.build.identity == b.build.identity && a.build.policy == b.build.policy)
  {
    var f, g := ProductFacts(a), ProductFacts(b);
    var x, y := BuildOf(Product(a.stratum, a.client)), Aggregated(a.fixtureClass, a.stratum.setting, a.client);
    assert x in f && y in f;
    if a.stratum == b.stratum && a.client == b.client {
      assert x in g;
    }
    if a.fixtureClass == b.fixtureClass && a.stratum.setting == b.stratum.setting && a.client == b.client {
      assert y in g;
    }
  }

  lemma ComparedAgree(a: Artifact, b: Artifact)
    ensures Agree(ComparedFacts(a), ComparedFacts(b)) <==> SharesRun(a, b) && SharesFixture(a, b)
  {
    KindsOfFacts(a);
    KindsOfFacts(b);
    RunAgree(a, b);
    FixtureAgree(a, b);
    ProductAgree(a, b);
    hide RunFacts, FixtureFacts, ProductFacts, SharesFixture, Agree;
    AgreeParts(FixtureFacts(a), ProductFacts(a), FixtureFacts(b), ProductFacts(b));
    AgreeParts(RunFacts(a), FixtureFacts(a) + ProductFacts(a), RunFacts(b), FixtureFacts(b) + ProductFacts(b));
  }

  // Two artifacts fit together exactly when they share what they must and do not collide.
  lemma ConsistentMeans(roles: Roles, a: Artifact, b: Artifact)
    ensures Consistent(roles, a, b) <==> Shares(roles, a, b) && !Collides(roles, a, b)
  {
    KindsOfFacts(a);
    KindsOfFacts(b);
    CommonAgree(a, b);
    ComparedAgree(a, b);
    hide CommonFacts, ComparedFacts, SharesRun, SharesFixture, Agree;
    var x := if IsCompared(roles, a) then ComparedFacts(a) else map[];
    var y := if IsCompared(roles, b) then ComparedFacts(b) else map[];
    AgreeParts(CommonFacts(a), x, CommonFacts(b), y);
    AgreeNothing(x, y);
    assert FactsOf(roles, a) == CommonFacts(a) + x && FactsOf(roles, b) == CommonFacts(b) + y;
  }

  lemma AgreeNothing<K, V>(x: map<K, V>, y: map<K, V>)
    ensures x == map[] || y == map[] ==> Agree(x, y)
  {
  }

  // The fold accepts exactly the artifacts that are usable on their own, share what they must
  // two by two, and do not observe a side of a block twice.
  lemma FoldAcceptsExactly(roles: Roles, artifacts: seq<Artifact>)
    ensures Fold(roles, artifacts).Folded? <==>
              && (forall i :: 0 <= i < |artifacts| ==> Usable(roles, artifacts[i]))
              && (forall i, j :: 0 <= i < j < |artifacts| ==>
                    Shares(roles, artifacts[i], artifacts[j]) && !Collides(roles, artifacts[i], artifacts[j]))
  {
    hide Fold, Usable, Consistent, Shares, Collides;
    FoldAccepts(roles, artifacts);
    forall i, j | 0 <= i < j < |artifacts|
      ensures Consistent(roles, artifacts[i], artifacts[j]) <==>
                Shares(roles, artifacts[i], artifacts[j]) && !Collides(roles, artifacts[i], artifacts[j])
    {
      ConsistentMeans(roles, artifacts[i], artifacts[j]);
    }
  }

  // --- Blocks ----------------------------------------------------------------------------------------------

  predicate CounterIs(c: Counter, r: Reading) {
    match r
    case Measured(_, value) => c.Count? && c.value == value
    case Unavailable(_) => c.NoCount?
  }

  // A side is what one run left: nothing but its failure, or its own measurements.
  predicate SideIs(side: Side, o: Outcome) {
    match o
    case DidNotFinish => side.Unfinished?
    case Finished(duration, uncertainty, cpu, rss, writes, _, _) =>
      && side.Timed? && side.duration == duration && side.uncertainty == uncertainty
      && CounterIs(side.cpu, cpu) && CounterIs(side.rss, rss) && CounterIs(side.writes, writes)
  }

  // The baseline's runs are the baseline of their blocks; the candidate's are the candidate.
  ghost predicate IsRecorded(groups: map<Stratum, map<int, Block>>, roles: Roles, a: Artifact) {
    && a.stratum in groups && a.repetition in groups[a.stratum]
    && var block := groups[a.stratum][a.repetition];
       if a.client == roles.baseline then SideIs(block.baseline, a.outcome) else SideIs(block.candidate, a.outcome)
  }

  // An artifact for one side of a block.
  predicate IsRun(roles: Roles, a: Artifact, s: Stratum, repetition: int, baseline: bool) {
    IsCompared(roles, a) && a.stratum == s && a.repetition == repetition && (a.client == roles.baseline <==> baseline)
  }

  ghost predicate HasRun(roles: Roles, artifacts: seq<Artifact>, s: Stratum, repetition: int, baseline: bool) {
    exists i :: 0 <= i < |artifacts| && IsRun(roles, artifacts[i], s, repetition, baseline)
  }

  ghost predicate AbsencesFit(
    groups: map<Stratum, map<int, Block>>, roles: Roles, artifacts: seq<Artifact>, s: Stratum, repetition: int)
  {
    && (s in groups && repetition in groups[s] <==>
          HasRun(roles, artifacts, s, repetition, true) || HasRun(roles, artifacts, s, repetition, false))
    && (s in groups && repetition in groups[s] ==>
          && (groups[s][repetition].baseline.Absent? <==> !HasRun(roles, artifacts, s, repetition, true))
          && (groups[s][repetition].candidate.Absent? <==> !HasRun(roles, artifacts, s, repetition, false)))
  }

  lemma PutRecords(groups: map<Stratum, map<int, Block>>, roles: Roles, a: Artifact)
    requires Vacant(groups, roles, a)
    ensures IsRecorded(Put(groups, roles, a), roles, a)
  {
  }

  lemma PutKeeps(groups: map<Stratum, map<int, Block>>, roles: Roles, a: Artifact, b: Artifact)
    requires Vacant(groups, roles, a) && IsRecorded(groups, roles, b)
    ensures IsRecorded(Put(groups, roles, a), roles, b)
  {
  }

  lemma AddedGroups(roles: Roles, t: Tables, a: Artifact)
    requires Accepted(roles, t, a)
    ensures IsCompared(roles, a) ==> Vacant(t.groups, roles, a) && Added(roles, t, a).groups == Put(t.groups, roles, a)
    ensures !IsCompared(roles, a) ==> Added(roles, t, a).groups == t.groups
  {
    hide FactsOf, Agree, Put, Vacant, Tallied, Noted, Carried, Measurable;
  }

  // Every compared artifact is recorded on the side of its client, with its own values.
  lemma {:induction false} FoldRecords(roles: Roles, artifacts: seq<Artifact>, i: nat)
    requires Fold(roles, artifacts).Folded? && i < |artifacts| && IsCompared(roles, artifacts[i])
    ensures IsRecorded(Fold(roles, artifacts).tables.groups, roles, artifacts[i])
  {
    hide Accepted, Added, Put, Vacant, IsRecorded;
    var n := |artifacts| - 1;
    var t := Fold(roles, artifacts[..n]).tables;
    AddedGroups(roles, t, artifacts[n]);
    if i == n {
      PutRecords(t.groups, roles, artifacts[n]);
    } else {
      FoldRecords(roles, artifacts[..n], i);
      if IsCompared(roles, artifacts[n]) {
        PutKeeps(t.groups, roles, artifacts[n], artifacts[i]);
      }
    }
  }

  lemma HasRunNext(roles: Roles, artifacts: seq<Artifact>, s: Stratum, repetition: int, baseline: bool)
    requires |artifacts| > 0
    ensures var n := |artifacts| - 1;
            HasRun(roles, artifacts, s, repetition, baseline) <==>
              HasRun(roles, artifacts[..n], s, repetition, baseline) ||
              IsRun(roles, artifacts[n], s, repetition, baseline)
  {
    hide IsRun;
    var n := |artifacts| - 1;
    if HasRun(roles, artifacts[..n], s, repetition, baseline) {
      var i :| 0 <= i < n && IsRun(roles, artifacts[..n][i], s, repetition, baseline);
      assert artifacts[i] == artifacts[..n][i];
    }
    if HasRun(roles, artifacts, s, repetition, baseline) {
      var i :| 0 <= i < |artifacts| && IsRun(roles, artifacts[i], s, repetition, baseline);
      if i < n {
        assert artifacts[..n][i] == artifacts[i];
      }
    }
  }

  // What recording one run changes in the presence of the sides.
  lemma PutPresence(groups: map<Stratum, map<int, Block>>, roles: Roles, a: Artifact, s: Stratum, repetition: int)
    requires IsCompared(roles, a)
    ensures var after := Put(groups, roles, a);
            var own := a.stratum == s && a.repetition == repetition;
            var before := if s in groups && repetition in groups[s] then groups[s][repetition] else Block(Absent, Absent);
            && (s in after && repetition in after[s] <==> own || (s in groups && repetition in groups[s]))
            && (s in after && repetition in after[s] ==>
                  && (after[s][repetition].baseline.Absent? <==>
                        before.baseline.Absent? && !(own && a.client == roles.baseline))
                  && (after[s][repetition].candidate.Absent? <==>
                        before.candidate.Absent? && !(own && a.client != roles.baseline)))
  {
  }

  // A side is absent exactly when no artifact is for it, and a block exists exactly when one is.
  lemma {:induction false} FoldAbsences(roles: Roles, artifacts: seq<Artifact>, s: Stratum, repetition: int)
    requires Fold(roles, artifacts).Folded?
    ensures AbsencesFit(Fold(roles, artifacts).tables.groups, roles, artifacts, s, repetition)
  {
    hide Accepted, Added, Put, Vacant, HasRun;
    if |artifacts| == 0 {
      NoRuns(roles, s, repetition);
    } else {
      var n := |artifacts| - 1;
      var t := Fold(roles, artifacts[..n]).tables;
      FoldAbsences(roles, artifacts[..n], s, repetition);
      AddedGroups(roles, t, artifacts[n]);
      HasRunNext(roles, artifacts, s, repetition, true);
      HasRunNext(roles, artifacts, s, repetition, false);
      if IsCompared(roles, artifacts[n]) {
        PutPresence(t.groups, roles, artifacts[n], s, repetition);
      }
    }
  }

  lemma NoRuns(roles: Roles, s: Stratum, repetition: int)
    ensures !HasRun(roles, [], s, repetition, true) && !HasRun(roles, [], s, repetition, false)
  {
  }

  // A stratum is in the tables only through a block.
  lemma {:induction false} FoldStrata(roles: Roles, artifacts: seq<Artifact>, s: Stratum)
    requires Fold(roles, artifacts).Folded? && s in Fold(roles, artifacts).tables.groups
    ensures exists r :: r in Fold(roles, artifacts).tables.groups[s]
  {
    hide Accepted, Added, Put, Vacant;
    var n := |artifacts| - 1;
    var t := Fold(roles, artifacts[..n]).tables;
    var a := artifacts[n];
    AddedGroups(roles, t, a);
    if IsCompared(roles, a) {
      if s == a.stratum {
        PutPresence(t.groups, roles, a, s, a.repetition);
      } else {
        PutElsewhere(t.groups, roles, a, s);
        FoldStrata(roles, artifacts[..n], s);
      }
    } else {
      FoldStrata(roles, artifacts[..n], s);
    }
  }

  lemma PutElsewhere(groups: map<Stratum, map<int, Block>>, roles: Roles, a: Artifact, s: Stratum)
    requires s != a.stratum
    ensures s in Put(groups, roles, a) <==> s in groups
    ensures s in groups ==> Put(groups, roles, a)[s] == groups[s]
  {
  }

  // Every stratum has an artifact of a compared client.
  lemma StratumHasRun(roles: Roles, artifacts: seq<Artifact>, s: Stratum) returns (i: nat)
    requires Fold(roles, artifacts).Folded? && s in Fold(roles, artifacts).tables.groups
    ensures i < |artifacts| && IsCompared(roles, artifacts[i]) && artifacts[i].stratum == s
  {
    hide Fold;
    var groups := Fold(roles, artifacts).tables.groups;
    FoldStrata(roles, artifacts, s);
    var r :| r in groups[s];
    FoldAbsences(roles, artifacts, s, r);
    if HasRun(roles, artifacts, s, r, true) {
      i :| 0 <= i < |artifacts| && IsRun(roles, artifacts[i], s, r, true);
    } else {
      i :| 0 <= i < |artifacts| && IsRun(roles, artifacts[i], s, r, false);
    }
  }

  // --- Counters --------------------------------------------------------------------------------------------

  predicate Finishes(a: Artifact, p: Product) {
    a.stratum == p.stratum && a.client == p.client && a.outcome.Finished?
  }

  // The readings of the finished runs of one client over a stratum, one list per counter.
  function CpuIn(artifacts: seq<Artifact>, p: Product): seq<Reading> {
    if |artifacts| == 0 then []
    else
      var a := artifacts[|artifacts| - 1];
      CpuIn(artifacts[..|artifacts| - 1], p) + if Finishes(a, p) then [a.outcome.cpu] else []
  }

  function RssIn(artifacts: seq<Artifact>, p: Product): seq<Reading> {
    if |artifacts| == 0 then []
    else
      var a := artifacts[|artifacts| - 1];
      RssIn(artifacts[..|artifacts| - 1], p) + if Finishes(a, p) then [a.outcome.rss] else []
  }

  function WritesIn(artifacts: seq<Artifact>, p: Product): seq<Reading> {
    if |artifacts| == 0 then []
    else
      var a := artifacts[|artifacts| - 1];
      WritesIn(artifacts[..|artifacts| - 1], p) + if Finishes(a, p) then [a.outcome.writes] else []
  }

  function ProvenancesIn(readings: seq<Reading>): seq<Provenance> {
    if |readings| == 0 then []
    else
      ProvenancesIn(readings[..|readings| - 1]) +
      match readings[|readings| - 1]
      case Measured(provenance, _) => [provenance]
      case Unavailable(_) => []
  }

  // Each reading counts once: under its provenance when measured, with its reason when not.
  ghost predicate AccountIs(account: Account, readings: seq<Reading>) {
    && account.measured == multiset(ProvenancesIn(readings))
    && account.unavailable + |ProvenancesIn(readings)| == |readings|
    && (forall r :: Unavailable(r) in readings ==> r in account.reasons)
    && (forall r :: r in account.reasons ==> Unavailable(r) in readings)
  }

  lemma EnteredAccounts(account: Account, readings: seq<Reading>, r: Reading)
    requires AccountIs(account, readings)
    ensures AccountIs(Entered(account, r), readings + [r])
  {
    assert (readings + [r])[..|readings|] == readings;
  }

  ghost predicate TalliedFor(accounts: map<Product, Accounts>, artifacts: seq<Artifact>, p: Product) {
    && (p in accounts <==> |CpuIn(artifacts, p)| > 0)
    && |CpuIn(artifacts, p)| == |RssIn(artifacts, p)| == |WritesIn(artifacts, p)|
    && (p in accounts ==>
          && AccountIs(accounts[p].cpu, CpuIn(artifacts, p)) && AccountIs(accounts[p].rss, RssIn(artifacts, p))
          && AccountIs(accounts[p].writes, WritesIn(artifacts, p)))
  }

  lemma NoReading(artifacts: seq<Artifact>, p: Product)
    requires |artifacts| > 0 && !Finishes(artifacts[|artifacts| - 1], p)
    ensures var less := artifacts[..|artifacts| - 1];
            && CpuIn(artifacts, p) == CpuIn(less, p) && RssIn(artifacts, p) == RssIn(less, p)
            && WritesIn(artifacts, p) == WritesIn(less, p)
  {
  }

  lemma NothingEntered()
    ensures AccountIs(NO_ACCOUNT, [])
  {
  }

  lemma EmptyReadings(s: seq<Reading>)
    ensures |s| == 0 ==> s == []
  {
  }

  lemma TalliedNext(accounts: map<Product, Accounts>, artifacts: seq<Artifact>, p: Product)
    requires |artifacts| > 0 && TalliedFor(accounts, artifacts[..|artifacts| - 1], p)
    ensures TalliedFor(Tallied(accounts, artifacts[|artifacts| - 1]), artifacts, p)
  {
    hide AccountIs, Entered;
    var less, a := artifacts[..|artifacts| - 1], artifacts[|artifacts| - 1];
    if !Finishes(a, p) {
      NoReading(artifacts, p);
    } else {
      NothingEntered();
      EmptyReadings(CpuIn(less, p));
      EmptyReadings(RssIn(less, p));
      EmptyReadings(WritesIn(less, p));
      var prior := AccountsOf(accounts, p);
      EnteredAccounts(prior.cpu, CpuIn(less, p), a.outcome.cpu);
      EnteredAccounts(prior.rss, RssIn(less, p), a.outcome.rss);
      EnteredAccounts(prior.writes, WritesIn(less, p), a.outcome.writes);
    }
  }

  lemma TalliedSkip(accounts: map<Product, Accounts>, artifacts: seq<Artifact>, p: Product)
    requires |artifacts| > 0 && TalliedFor(accounts, artifacts[..|artifacts| - 1], p)
    requires artifacts[|artifacts| - 1].client != p.client
    ensures TalliedFor(accounts, artifacts, p)
  {
    hide AccountIs;
    NoReading(artifacts, p);
  }

  // The accounts of a compared client hold the readings of its finished runs, counter by counter.
  lemma {:induction false} FoldTallies(roles: Roles, artifacts: seq<Artifact>, p: Product)
    requires Fold(roles, artifacts).Folded? && (p.client == roles.baseline || p.client == roles.candidate)
    ensures TalliedFor(Fold(roles, artifacts).tables.accounts, artifacts, p)
  {
    hide Accepted, FactsOf, Put, Tallied, Noted, Carried, AccountIs;
    if |artifacts| != 0 {
      var n := |artifacts| - 1;
      FoldTallies(roles, artifacts[..n], p);
      var accounts := Fold(roles, artifacts[..n]).tables.accounts;
      if IsCompared(roles, artifacts[n]) {
        TalliedNext(accounts, artifacts, p);
      } else {
        TalliedSkip(accounts, artifacts, p);
      }
    }
  }

  // --- Caveats ---------------------------------------------------------------------------------------------

  predicate NotedBy(roles: Roles, a: Artifact, s: Stratum, x: int) {
    IsCompared(roles, a) && a.stratum == s && a.outcome.Finished? && x in a.outcome.caveats
  }

  // A caveat of a stratum is one of a finished run.
  lemma {:induction false} FoldNotes(roles: Roles, artifacts: seq<Artifact>, s: Stratum, x: int)
    requires Fold(roles, artifacts).Folded?
    ensures var caveats := Fold(roles, artifacts).tables.caveats;
            s in caveats && x in caveats[s] <==>
              exists i :: 0 <= i < |artifacts| && NotedBy(roles, artifacts[i], s, x)
  {
    hide Accepted, FactsOf, Put, Tallied, Carried, NotedBy;
    if |artifacts| != 0 {
      var n := |artifacts| - 1;
      FoldNotes(roles, artifacts[..n], s, x);
      NotedNext(roles, Fold(roles, artifacts[..n]).tables, artifacts[n], s, x);
      assert forall i :: 0 <= i < n ==> artifacts[..n][i] == artifacts[i];
    }
  }

  lemma NotedNext(roles: Roles, t: Tables, a: Artifact, s: Stratum, x: int)
    ensures var caveats := Added(roles, t, a).caveats;
            s in caveats && x in caveats[s] <==> (s in t.caveats && x in t.caveats[s]) || NotedBy(roles, a, s, x)
  {
    hide FactsOf, Put, Tallied, Carried;
  }
}
