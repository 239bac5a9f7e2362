// The validator of internal/benchmark/plan.go. It never looks at how a plan was built: it
// counts, checks membership and uniqueness, and re-derives the interleave. Validate proves
// that this accepts exactly the complete plans.
module PlanValidate {
  import opened Sequences
  import opened PlanModel
  import opened PlanSchedule

  // --- Declared values ----------------------------------------------------------------------------

  method HasDuplicates<T(==, !new)>(values: seq<T>) returns (found: bool)
    ensures found <==> !NoDup(values)
  {
    var seen: set<T> := {};
    for i := 0 to |values|
      invariant seen == Elements(values[..i]) && NoDup(values[..i])
    {
      if values[i] in seen {
        return true;
      }
      assert values[..i + 1] == values[..i] + [values[i]];
      seen := seen + {values[i]};
    }
    assert values[..|values|] == values;
    return false;
  }

  method IsBlank(s: string) returns (blank: bool)
    ensures blank == Blank(s)
  {
    for i := 0 to |s|
      invariant forall j :: 0 <= j < i ==> IsSpace(s[j])
    {
      if !IsSpace(s[i]) {
        return false;
      }
    }
    return true;
  }

  method ValidateProfiles(clients: seq<Client>, profiles: seq<ClientProfile>) returns (ok: bool)
    ensures ok <==> ValidProfiles(clients, profiles)
  {
    if |profiles| != |clients| {
      return false;
    }
    var seen: set<Client> := {};
    for i := 0 to |profiles|
      invariant forall c :: c in seen <==> exists j :: 0 <= j < i && profiles[j].client == c
      invariant forall j, k :: 0 <= j < k < i ==> profiles[j].client != profiles[k].client
      invariant forall j :: 0 <= j < i ==> ValidForTLS(profiles[j].validation) && !Blank(profiles[j].caption)
    {
      if profiles[i].client in seen {
        return false;
      }
      seen := seen + {profiles[i].client};
      var blank := IsBlank(profiles[i].caption);
      if !ValidForTLS(profiles[i].validation) || blank {
        return false;
      }
    }
    assert forall p :: p in profiles ==> p.client in seen;
    for i := 0 to |clients|
      invariant forall j :: 0 <= j < i ==> clients[j] in seen
    {
      assert clients[i] in clients;
      if clients[i] !in seen {
        return false;
      }
    }
    return true;
  }

  predicate EntryOk(o: Options, e: Exclusion) {
    !Blank(e.reason) && e.client in o.clients && e.fixture in o.fixtures
  }

  // The rules on exclusions, for the first i of them.
  ghost predicate PrefixOk(o: Options, i: nat)
    requires i <= |o.exclusions|
  {
    && (forall j :: 0 <= j < i ==> EntryOk(o, o.exclusions[j]))
    && (forall j, k :: 0 <= j < k < i ==>
          o.exclusions[j].client != o.exclusions[k].client || o.exclusions[j].fixture != o.exclusions[k].fixture)
    && (forall j :: 0 <= j < i ==> ExcludedOn(o.exclusions[..i], o.exclusions[j].fixture) < |o.clients|)
  }

  ghost predicate Repeated(o: Options, i: nat)
    requires i < |o.exclusions|
  {
    exists j :: 0 <= j < i && o.exclusions[j].client == o.exclusions[i].client &&
                o.exclusions[j].fixture == o.exclusions[i].fixture
  }

  lemma PrefixStep(o: Options, i: nat)
    requires i < |o.exclusions|
    ensures PrefixOk(o, i + 1) <==>
            PrefixOk(o, i) && EntryOk(o, o.exclusions[i]) && !Repeated(o, i) &&
            ExcludedOn(o.exclusions[..i + 1], o.exclusions[i].fixture) < |o.clients|
  {
    hide EntryOk;
    assert o.exclusions[..i + 1][..i] == o.exclusions[..i];
    var e := o.exclusions[i];
    forall j | 0 <= j < i
      ensures ExcludedOn(o.exclusions[..i + 1], o.exclusions[j].fixture) ==
              ExcludedOn(o.exclusions[..i], o.exclusions[j].fixture) + if o.exclusions[j].fixture == e.fixture then 1 else 0
    {
    }
  }

  lemma {:induction false} PrefixNeeded(o: Options, i: nat, n: nat)
    requires i <= n <= |o.exclusions| && PrefixOk(o, n)
    ensures PrefixOk(o, i)
  {
    hide PrefixOk;
    if i < n {
      PrefixStep(o, n - 1);
      PrefixNeeded(o, i, n - 1);
    }
  }

  lemma PrefixWhole(o: Options)
    ensures PrefixOk(o, |o.exclusions|) <==> ValidExclusions(o)
  {
    assert o.exclusions[..|o.exclusions|] == o.exclusions;
    if PrefixOk(o, |o.exclusions|) {
      forall e | e in o.exclusions
        ensures EntryOk(o, e) && ExcludedOn(o.exclusions, e.fixture) < |o.clients|
      {
        var j :| 0 <= j < |o.exclusions| && o.exclusions[j] == e;
      }
    }
  }

  method ValidateExclusions(o: Options) returns (ok: bool)
    ensures ok <==> ValidExclusions(o)
  {
    hide PrefixOk, ValidExclusions;
    PrefixWhole(o);
    var seen: set<(Client, string)> := {};
    var perFixture: map<string, nat> := map[];
    PrefixEmpty(o);
    for i := 0 to |o.exclusions|
      invariant PrefixOk(o, i)
      invariant forall p :: p in seen <==> exists j :: 0 <= j < i && p == (o.exclusions[j].client, o.exclusions[j].fixture)
      invariant forall f :: (if f in perFixture then perFixture[f] else 0) == ExcludedOn(o.exclusions[..i], f)
    {
      var e := o.exclusions[i];
      PrefixStep(o, i);
      if PrefixOk(o, |o.exclusions|) {
        PrefixNeeded(o, i + 1, |o.exclusions|);
      }
      assert o.exclusions[..i + 1][..i] == o.exclusions[..i];
      var blank := IsBlank(e.reason);
      if blank || e.client !in o.clients || e.fixture !in o.fixtures {
        return false;
      }
      assert (e.client, e.fixture) in seen <==> Repeated(o, i);
      if (e.client, e.fixture) in seen {
        return false;
      }
      seen := seen + {(e.client, e.fixture)};
      var count := (if e.fixture in perFixture then perFixture[e.fixture] else 0) + 1;
      perFixture := perFixture[e.fixture := count];
      assert count == ExcludedOn(o.exclusions[..i + 1], e.fixture);
      if count >= |o.clients| {
        return false;
      }
    }
    return true;
  }

  lemma PrefixEmpty(o: Options)
    ensures PrefixOk(o, 0)
    ensures forall f :: ExcludedOn(o.exclusions[..0], f) == 0
  {
  }

  method ValidateOptions(o: Options) returns (ok: bool)
    ensures ok <==> ValidOptions(o)
  {
    if |o.fixtures| == 0 || |o.clients| == 0 || |o.toolchains| == 0 || |o.transports| == 0 || |o.targets| == 0 ||
       o.repetitions < 1 {
      return false;
    }
    if o.profile != Stock && o.profile != EquivalentThroughput {
      return false;
    }
    if o.passes < 0 || (o.passes > 0 && o.passes != o.repetitions) || (o.passes > 0 && o.link.id != EXTERNAL) {
      return false;
    }
    if !o.article.declared || !o.link.declared {
      return false;
    }
    if exists t :: t in o.targets && t.OtherTarget? {
      return false;
    }
    if !o.storage.declared || (o.storage.nfs && exists t :: t in o.targets && t != DockerLinux) {
      return false;
    }
    var targets := HasDuplicates(o.targets);
    var fixtures := HasDuplicates(o.fixtures);
    var clients := HasDuplicates(o.clients);
    var toolchains := HasDuplicates(o.toolchains);
    var transports := HasDuplicates(o.transports);
    if targets || fixtures || clients || toolchains || transports {
      return false;
    }
    var profiles := ValidateProfiles(o.clients, o.profiles);
    if !profiles {
      return false;
    }
    var exclusions := ValidateExclusions(o);
    if !exclusions {
      return false;
    }
    if exists c :: c in o.clients && !KnownClient(c) {
      return false;
    }
    if exists t :: t in o.toolchains && t.OtherToolchain? {
      return false;
    }
    if Vanilla !in o.toolchains {
      return false;
    }
    if exists t :: t in o.transports && t.OtherTransport? {
      return false;
    }
    return true;
  }

  // --- Exclusions leave a client ---------------------------------------------------------------------

  ghost function ExcludedClients(exclusions: seq<Exclusion>, fixture: string): set<Client> {
    set e | e in exclusions && e.fixture == fixture :: e.client
  }

  lemma {:induction false} ExcludedClientsSize(exclusions: seq<Exclusion>, fixture: string)
    ensures |ExcludedClients(exclusions, fixture)| <= ExcludedOn(exclusions, fixture)
  {
    if |exclusions| == 0 {
      assert ExcludedClients(exclusions, fixture) == {};
    } else {
      var n := |exclusions| - 1;
      var last := exclusions[n];
      assert exclusions == exclusions[..n] + [last];
      ExcludedClientsSize(exclusions[..n], fixture);
      var front := ExcludedClients(exclusions[..n], fixture);
      if last.fixture == fixture {
        assert ExcludedClients(exclusions, fixture) == front + {last.client};
      } else {
        assert ExcludedClients(exclusions, fixture) == front;
      }
    }
  }

  // No fixture drops out of a valid plan.
  lemma FixtureKeepsClient(o: Options, fixture: string) returns (client: Client)
    requires ValidOptions(o)
    ensures client in o.clients && !Excluded(o.exclusions, client, fixture)
  {
    if e :| e in o.exclusions && e.fixture == fixture {
      var excluded := ExcludedClients(o.exclusions, fixture);
      ExcludedClientsSize(o.exclusions, fixture);
      NoDupSize(o.clients);
      assert |Elements(o.clients)| == |o.clients| > |excluded|;
      if Elements(o.clients) <= excluded {
        SubsetSize(Elements(o.clients), excluded);
      }
      client :| client in Elements(o.clients) && client !in excluded;
    } else {
      client := o.clients[0];
    }
  }

  // --- Lanes ---------------------------------------------------------------------------------------

  method BenchmarkLanes(o: Options, target: Target) returns (lanes: seq<Lane>)
    ensures lanes == Lanes(o, target)
  {
    lanes := [];
    for i := 0 to |o.clients|
      invariant lanes == FlatMap(o.clients[..i], ClientLanes(o.toolchains, target))
    {
      var more := LanesOfClient(o.clients[i], o.toolchains, target);
      FlatMapNext(o.clients, i, ClientLanes(o.toolchains, target));
      lanes := lanes + more;
    }
    assert o.clients[..|o.clients|] == o.clients;
  }

  // The inner loop of benchmarkLanes.
  method LanesOfClient(client: Client, toolchains: seq<Toolchain>, target: Target) returns (lanes: seq<Lane>)
    ensures lanes == ClientLanes(toolchains, target)(client)
  {
    lanes := [];
    for j := 0 to |toolchains|
      invariant lanes == FlatMap(toolchains[..j], LaneIf(client, target))
    {
      FlatMapNext(toolchains, j, LaneIf(client, target));
      if ToolchainAllowed(client, toolchains[j], target) {
        lanes := lanes + [Lane(client, toolchains[j])];
      }
    }
    assert toolchains[..|toolchains|] == toolchains;
  }

  method IsExcluded(exclusions: seq<Exclusion>, client: Client, fixture: string) returns (excluded: bool)
    ensures excluded == Excluded(exclusions, client, fixture)
  {
    for i := 0 to |exclusions|
      invariant forall j :: 0 <= j < i ==> exclusions[j].client != client || exclusions[j].fixture != fixture
    {
      if exclusions[i].client == client && exclusions[i].fixture == fixture {
        return true;
      }
    }
    return false;
  }

  method ReverseLanes(lanes: array<Lane>)
    modifies lanes
    ensures lanes[..] == Reverse(old(lanes[..]))
  {
    var n := lanes.Length;
    var left, right := 0, n - 1;
    while left < right
      invariant 0 <= left <= n && right == n - 1 - left && left <= right + 2
      invariant forall k :: 0 <= k < left ==> lanes[k] == old(lanes[n - 1 - k]) && lanes[n - 1 - k] == old(lanes[k])
      invariant forall k :: left <= k <= right ==> lanes[k] == old(lanes[k])
    {
      lanes[left], lanes[right] := lanes[right], lanes[left];
      left, right := left + 1, right - 1;
    }
    Mirrored(old(lanes[..]), lanes[..]);
  }

  lemma Mirrored<T>(before: seq<T>, after: seq<T>)
    requires |before| == |after| && forall k :: 0 <= k < |after| ==> after[k] == before[|before| - 1 - k]
    ensures after == Reverse(before)
  {
  }

  // The lanes of a round in the order the interleave runs them.
  method OrderedLanes(o: Options, r: Round) returns (lanes: array<Lane>)
    ensures fresh(lanes) && lanes[..] == LanesInOrder(o, r)
  {
    var list := BenchmarkLanes(o, r.cell.target);
    lanes := new Lane[|list|](i requires 0 <= i < |list| => list[i]);
    assert lanes[..] == list;
    if r.repetition % 2 == 0 {
      ReverseLanes(lanes);
    }
  }

  // --- Counting and order --------------------------------------------------------------------------

  method CountExpected(o: Options) returns (expected: int)
    ensures expected == ExpectedRuns(o)
  {
    hide TargetSlots;
    expected := 0;
    for i := 0 to |o.targets|
      invariant expected == |FlatMap(o.targets[..i], TargetSlots(o))|
    {
      FlatMapNext(o.targets, i, TargetSlots(o));
      var count := CountTarget(o, o.targets[i]);
      expected := expected + count;
    }
    assert o.targets[..|o.targets|] == o.targets;
    expected := expected * (|o.transports| * o.repetitions);
  }

  // The loops over lanes and fixtures of one target.
  method CountTarget(o: Options, target: Target) returns (count: int)
    ensures count == |TargetSlots(o)(target)|
  {
    var lanes := BenchmarkLanes(o, target);
    count := 0;
    for j := 0 to |lanes|
      invariant count == |FlatMap(lanes[..j], LaneSlots(o, target))|
    {
      FlatMapNext(lanes, j, LaneSlots(o, target));
      ghost var start := count;
      for k := 0 to |o.fixtures|
        invariant count == start + |FlatMap(o.fixtures[..k], SlotIf(o, target, lanes[j]))|
      {
        FlatMapNext(o.fixtures, k, SlotIf(o, target, lanes[j]));
        var excluded := IsExcluded(o.exclusions, lanes[j].client, o.fixtures[k]);
        if !excluded {
          count := count + 1;
        }
      }
      assert o.fixtures[..|o.fixtures|] == o.fixtures;
    }
    assert lanes[..|lanes|] == lanes;
  }

  // Appends the runs of one round to the expected order.
  method AppendRound(o: Options, r: Round, expected: seq<Tuple>) returns (next: seq<Tuple>)
    ensures next == expected + RoundTuples(o)(r)
  {
    next := expected;
    var lanes := OrderedLanes(o, r);
    for i := 0 to lanes.Length
      invariant lanes[..] == LanesInOrder(o, r)
      invariant next == expected + FlatMap(lanes[..][..i], LaneTuples(o, r))
    {
      FlatMapNext(lanes[..], i, LaneTuples(o, r));
      var excluded := IsExcluded(o.exclusions, lanes[i].client, r.cell.fixture);
      if !excluded {
        next := next + [LaneTuple(r, lanes[i])];
      }
    }
    assert lanes[..][..lanes.Length] == LanesInOrder(o, r);
  }

  lemma PassAtNext(cells: seq<Cell>, c: Cell, k: int)
    ensures PassAt(cells + [c])(k) == PassAt(cells)(k) + [Round(c, k)]
  {
  }

  lemma CellFunctions(o: Options, f: string, t: Transport, g: Target)
    ensures FixtureCells(o.transports, o.targets)(f) == FlatMap(o.transports, TransportCells(f, o.targets))
    ensures TransportCells(f, o.targets)(t) == FlatMap(o.targets, CellAt(f, t))
    ensures CellAt(f, t)(g) == [Cell(f, t, g)]
  {
  }

  // One more cell of the current pass.
  lemma OrderNext(o: Options, rounds: seq<Round>, cells: seq<Cell>, c: Cell, pass: int)
    ensures FlatMap(rounds + PassAt(cells + [c])(pass), RoundTuples(o)) ==
            FlatMap(rounds + PassAt(cells)(pass), RoundTuples(o)) + RoundTuples(o)(Round(c, pass))
  {
    hide RoundTuples, PassAt;
    PassAtNext(cells, c, pass);
    var done, next := rounds + PassAt(cells)(pass), [Round(c, pass)];
    assert rounds + (PassAt(cells)(pass) + next) == done + next;
    FlatMapAppend(done, next, RoundTuples(o));
    assert next[..0] == [];
    assert FlatMap(next, RoundTuples(o)) == [] + RoundTuples(o)(Round(c, pass));
  }

  lemma PassAtEmpty(pass: int)
    ensures PassAt([])(pass) == []
  {
  }

  // The order that validateInterleavedOrder derives: pass by pass, and within a pass over
  // fixtures, transports and targets.
  method InterleavedOrder(o: Options) returns (expected: seq<Tuple>)
    requires o.repetitions >= 0 && o.passes == o.repetitions
    ensures expected == Schedule(o)
  {
    hide RoundTuples, PassAt, FixtureCells, TransportCells, CellAt;
    expected := [];
    ghost var passes := Upto(o.repetitions);
    for pass := 1 to o.passes + 1
      invariant expected == FlatMap(FlatMap(passes[..pass - 1], PassAt(Cells(o))), RoundTuples(o))
    {
      ghost var rounds := FlatMap(passes[..pass - 1], PassAt(Cells(o)));
      PassAtEmpty(pass);
      assert rounds + [] == rounds;
      expected := AppendPass(o, pass, rounds, expected);
      FlatMapNext(passes, pass - 1, PassAt(Cells(o)));
    }
    assert passes[..o.repetitions] == passes;
  }

  // The loops over fixtures, transports and targets of one pass.
  method AppendPass(o: Options, pass: int, ghost rounds: seq<Round>, start: seq<Tuple>) returns (expected: seq<Tuple>)
    requires start == FlatMap(rounds, RoundTuples(o))
    ensures expected == FlatMap(rounds + PassAt(Cells(o))(pass), RoundTuples(o))
  {
    hide RoundTuples, PassAt, FixtureCells, TransportCells, CellAt, FlatMap;
    expected := start;
    ghost var cells: seq<Cell> := [];
    PassAtEmpty(pass);
    assert rounds + [] == rounds;
    NoCells(o);
    for i := 0 to |o.fixtures|
      invariant cells == FlatMap(o.fixtures[..i], FixtureCells(o.transports, o.targets))
      invariant expected == FlatMap(rounds + PassAt(cells)(pass), RoundTuples(o))
    {
      var f := o.fixtures[i];
      FlatMapNext(o.fixtures, i, FixtureCells(o.transports, o.targets));
      ghost var before := cells;
      NoTransports(o, f);
      assert before + [] == before;
      for j := 0 to |o.transports|
        invariant cells == before + FlatMap(o.transports[..j], TransportCells(f, o.targets))
        invariant expected == FlatMap(rounds + PassAt(cells)(pass), RoundTuples(o))
      {
        var t := o.transports[j];
        FlatMapNext(o.transports, j, TransportCells(f, o.targets));
        ghost var middle := cells;
        NoTargets(o, f, t);
        assert middle + [] == middle;
        for k := 0 to |o.targets|
          invariant cells == middle + FlatMap(o.targets[..k], CellAt(f, t))
          invariant expected == FlatMap(rounds + PassAt(cells)(pass), RoundTuples(o))
        {
          var c := Cell(f, t, o.targets[k]);
          FlatMapNext(o.targets, k, CellAt(f, t));
          CellFunctions(o, f, t, o.targets[k]);
          OrderNext(o, rounds, cells, c, pass);
          expected := AppendRound(o, Round(c, pass), expected);
          cells := cells + [c];
        }
        CellFunctions(o, f, t, DockerLinux);
        assert o.targets[..|o.targets|] == o.targets;
      }
      CellFunctions(o, f, Plaintext, DockerLinux);
      assert o.transports[..|o.transports|] == o.transports;
    }
    assert o.fixtures[..|o.fixtures|] == o.fixtures;
  }

  lemma NoCells(o: Options)
    ensures FlatMap(o.fixtures[..0], FixtureCells(o.transports, o.targets)) == []
  {
  }

  lemma NoTransports(o: Options, f: string)
    ensures FlatMap(o.transports[..0], TransportCells(f, o.targets)) == []
  {
  }

  lemma NoTargets(o: Options, f: string, t: Transport)
    ensures FlatMap(o.targets[..0], CellAt(f, t)) == []
  {
  }

  method ValidateInterleavedOrder(p: Plan) returns (ok: bool)
    requires p.options.repetitions >= 0 && p.options.passes == p.options.repetitions
    ensures ok <==> Tuples(p.runs) == Schedule(p.options)
  {
    hide Schedule;
    var expected := InterleavedOrder(p.options);
    if |expected| != |p.runs| {
      return false;
    }
    for i := 0 to |p.runs|
      invariant forall j :: 0 <= j < i ==> Tuples(p.runs)[j] == expected[j]
    {
      if TupleOf(p.runs[i]) != expected[i] {
        assert Tuples(p.runs)[i] != expected[i];
        return false;
      }
    }
    return true;
  }

  // --- The validator ---------------------------------------------------------------------------------

  // A complete plan: every planned tuple once and nothing else, canonical positions and
  // metadata, and the declared order if there is one.
  ghost predicate ValidPlan(p: Plan) {
    && p.schema == SCHEMA && ValidOptions(p.options)
    && NoDup(Tuples(p.runs))
    && (forall t :: t in Tuples(p.runs) <==> Planned(p.options, t))
    && (forall i :: 0 <= i < |p.runs| ==> RunOk(p.options, p.runs[i], i))
    && (p.options.passes > 0 ==> Tuples(p.runs) == Schedule(p.options))
  }

  predicate RunAccepted(o: Options, run: Run, i: nat) {
    && 1 <= run.repetition <= o.repetitions
    && run.order == i + 1 && run.id == RunID(i + 1)
    && run.freshState && run.primary && run.profile == o.profile && run.link == o.link
    && run.storage == o.storage
    && run.article == o.article
    && run.target in o.targets
    && run.fixture in o.fixtures && run.client in o.clients && run.transport in o.transports
    && !Excluded(o.exclusions, run.client, run.fixture)
    && ToolchainAllowed(run.client, run.toolchain, run.target)
    && run.toolchain in o.toolchains
    && PolicyOk(o, run)
  }

  lemma AcceptedIsPlanned(o: Options, run: Run, i: nat)
    ensures RunAccepted(o, run, i) <==> RunOk(o, run, i) && Planned(o, TupleOf(run))
  {
  }

  lemma PlannedNames(o: Options, t: Tuple)
    requires ValidOptions(o) && Planned(o, t)
    ensures KnownNames(t) && t.repetition >= 0
  {
  }

  method ValidateRuns(p: Plan) returns (ok: bool)
    requires ValidOptions(p.options)
    ensures ok <==> NoDup(Tuples(p.runs)) &&
                    (forall i :: 0 <= i < |p.runs| ==> RunAccepted(p.options, p.runs[i], i))
  {
    hide ValidOptions, Planned, RunAccepted, RunOk, Key, KnownNames;
    var o := p.options;
    var seen: set<string> := {};
    for i := 0 to |p.runs|
      invariant forall j :: 0 <= j < i ==> RunAccepted(o, p.runs[j], j)
      invariant forall j :: 0 <= j < i ==> TupleOf(p.runs[j]).repetition >= 0
      invariant forall k :: k in seen <==> exists j :: 0 <= j < i && Key(TupleOf(p.runs[j])) == k
      invariant forall j, k :: 0 <= j < k < i ==> TupleOf(p.runs[j]) != TupleOf(p.runs[k])
    {
      if !RunAccepted(o, p.runs[i], i) {
        return false;
      }
      AcceptedIsPlanned(o, p.runs[i], i);
      PlannedNames(o, TupleOf(p.runs[i]));
      var key := Key(TupleOf(p.runs[i]));
      if key in seen {
        var j :| 0 <= j < i && Key(TupleOf(p.runs[j])) == key;
        AcceptedIsPlanned(o, p.runs[j], j);
        PlannedNames(o, TupleOf(p.runs[j]));
        KeyInjective(TupleOf(p.runs[i]), TupleOf(p.runs[j]));
        assert Tuples(p.runs)[i] == Tuples(p.runs)[j];
        return false;
      }
      seen := seen + {key};
    }
    return true;
  }

  method Validate(p: Plan) returns (ok: bool)
    ensures ok <==> ValidPlan(p)
  {
    hide ValidOptions, Planned, RunAccepted, RunOk, ExpectedRuns, Schedule;
    if p.schema != SCHEMA {
      return false;
    }
    ok := ValidateOptions(p.options);
    if !ok {
      return;
    }
    OptionsFacts(p.options);
    ValidPlanChecks(p);
    var expected := CountExpected(p.options);
    if |p.runs| != expected {
      return false;
    }
    if p.options.passes > 0 {
      ok := ValidateInterleavedOrder(p);
      if !ok {
        return;
      }
    }
    ok := ValidateRuns(p);
  }

  lemma OptionsFacts(o: Options)
    requires ValidOptions(o)
    ensures o.repetitions >= 1 && (o.passes > 0 ==> o.passes == o.repetitions)
  {
  }

  // What the validator checks is what a valid plan is.
  lemma ValidPlanChecks(p: Plan)
    requires p.schema == SCHEMA && ValidOptions(p.options) && p.options.repetitions >= 0
    ensures ValidPlan(p) <==>
            && |p.runs| == ExpectedRuns(p.options)
            && NoDup(Tuples(p.runs))
            && (forall i :: 0 <= i < |p.runs| ==> RunAccepted(p.options, p.runs[i], i))
            && (p.options.passes > 0 ==> Tuples(p.runs) == Schedule(p.options))
  {
    hide ValidOptions, Planned, RunAccepted, RunOk, ExpectedRuns, Schedule;
    var o, ts := p.options, Tuples(p.runs);
    forall i | 0 <= i < |p.runs|
      ensures RunAccepted(o, p.runs[i], i) <==> RunOk(o, p.runs[i], i) && Planned(o, ts[i])
    {
      AcceptedIsPlanned(o, p.runs[i], i);
    }
    if NoDup(ts) && (forall t :: t in ts ==> Planned(o, t)) {
      Pigeonhole(o, ts);
    }
    if forall i :: 0 <= i < |p.runs| ==> RunAccepted(o, p.runs[i], i) {
      forall t | t in ts
        ensures Planned(o, t)
      {
        var i :| 0 <= i < |ts| && ts[i] == t;
      }
    }
    if ValidPlan(p) {
      forall i | 0 <= i < |p.runs|
        ensures RunAccepted(o, p.runs[i], i)
      {
        assert ts[i] in ts;
      }
    }
  }
}
