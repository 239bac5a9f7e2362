// The schedule builder of internal/benchmark/plan.go: rounds and lanes in a shuffled or an
// interleaved order, and the plan that results.
module PlanBuild {
  import opened Sequences
  import opened PlanModel
  import opened PlanSchedule
  import opened PlanValidate

  // --- Defaults ---------------------------------------------------------------------------------------

  function DefaultProfile(client: Client): ClientProfile {
    if client == SABnzbd then ClientProfile(client, NotValidated, "tls-unverified")
    else ClientProfile(client, CAVerified, "tls-ca-verified")
  }

  function DefaultProfiles(clients: seq<Client>): seq<ClientProfile> {
    seq(|clients|, i requires 0 <= i < |clients| => DefaultProfile(clients[i]))
  }

  function PublicRootsProfiles(clients: seq<Client>): seq<ClientProfile> {
    seq(|clients|, i requires 0 <= i < |clients| => ClientProfile(clients[i], PublicRoots, "tls-public-roots"))
  }

  // The options with what the caller left unset filled in.
  function WithDefaults(given: Options): Options {
    var link := if given.link.id == "" then ServerLink("unlimited", true) else given.link;
    given.(
      profile := if given.profile == Unset then EquivalentThroughput else given.profile,
      link := link,
      storage := if given.storage.id == "" then Storage("local", true, false) else given.storage,
      article := if given.article.id == "" then Article("750k", true) else given.article,
      profiles :=
        if |given.profiles| != 0 then given.profiles
        else if link.id == EXTERNAL then PublicRootsProfiles(given.clients)
        else DefaultProfiles(given.clients),
      toolchains := if |given.toolchains| == 0 then [Vanilla, Rarpar] else given.toolchains,
      targets := if |given.targets| == 0 then [DockerLinux, MacOSNative, WindowsNative] else given.targets)
  }

  // --- Permuting ----------------------------------------------------------------------------------------

  // rand.Shuffle with arbitrary draws: every permutation is a possible outcome.
  method Shuffle<T>(a: array<T>)
    modifies a
    ensures multiset(a[..]) == multiset(old(a[..]))
  {
    var i := a.Length - 1;
    while i > 0
      invariant multiset(a[..]) == multiset(old(a[..]))
    {
      var j :| 0 <= j <= i;
      a[i], a[j] := a[j], a[i];
      i := i - 1;
    }
  }

  function HasRepetition(k: int): Round -> bool {
    (r: Round) => r.repetition == k
  }

  predicate SortedByRepetition(s: seq<Round>) {
    forall i, j :: 0 <= i < j < |s| ==> s[i].repetition <= s[j].repetition
  }

  // The rounds of each repetition are in the same order in both lists.
  ghost predicate SameOrder(s: seq<Round>, t: seq<Round>) {
    forall k: int :: Filter(s, HasRepetition(k)) == Filter(t, HasRepetition(k))
  }

  lemma SwapFilter(s: seq<Round>, j: nat, k: int)
    requires j + 1 < |s| && s[j].repetition != s[j + 1].repetition
    ensures Filter(s[j := s[j + 1]][j + 1 := s[j]], HasRepetition(k)) == Filter(s, HasRepetition(k))
  {
    var a, b, c := s[..j], s[j + 2..], HasRepetition(k);
    var x, y := [s[j]], [s[j + 1]];
    assert s == a + (x + y) + b;
    assert s[j := s[j + 1]][j + 1 := s[j]] == a + (y + x) + b;
    FilterAppend(a + (x + y), b, c);
    FilterAppend(a, x + y, c);
    FilterAppend(x, y, c);
    FilterAppend(a + (y + x), b, c);
    FilterAppend(a, y + x, c);
    FilterAppend(y, x, c);
    assert x[..0] == [] && y[..0] == [];
  }

  ghost predicate Rearranged(s: seq<Round>, t: seq<Round>) {
    SameOrder(s, t) && multiset(s) == multiset(t)
  }

  lemma SwapRearranges(s: seq<Round>, j: nat, swapped: seq<Round>)
    requires j + 1 < |s| && s[j].repetition != s[j + 1].repetition
    requires swapped == s[j := s[j + 1]][j + 1 := s[j]]
    ensures forall t :: Rearranged(s, t) ==> Rearranged(swapped, t)
  {
    hide Filter;
    forall t | Rearranged(s, t)
      ensures Rearranged(swapped, t)
    {
      forall k: int
        ensures Filter(swapped, HasRepetition(k)) == Filter(t, HasRepetition(k))
      {
        SwapFilter(s, j, k);
        assert Filter(s, HasRepetition(k)) == Filter(t, HasRepetition(k));
      }
    }
  }

  // sort.SliceStable by repetition, as an insertion sort.
  method SortStable(a: array<Round>)
    modifies a
    ensures SortedByRepetition(a[..]) && SameOrder(a[..], old(a[..]))
    ensures multiset(a[..]) == multiset(old(a[..]))
  {
    hide SortedByRepetition;
    ghost var before := a[..];
    SortedStart(before);
    for i := 0 to a.Length
      invariant SortedByRepetition(a[..i])
      invariant Rearranged(a[..], before)
    {
      Insert(a, i, before);
    }
    assert a[..a.Length] == a[..];
  }

  lemma SortedStart(s: seq<Round>)
    ensures SortedByRepetition(s[..0]) && Rearranged(s, s)
  {
  }

  // Moves element i down past the larger ones before it.
  method Insert(a: array<Round>, i: nat, ghost original: seq<Round>)
    requires i < a.Length && SortedByRepetition(a[..i]) && Rearranged(a[..], original)
    modifies a
    ensures SortedByRepetition(a[..i + 1]) && Rearranged(a[..], original)
  {
    hide Rearranged;
    var j := i;
    assert forall p, q :: 0 <= p < q < i ==> a[..i][p] == a[p] && a[..i][q] == a[q];
    while j > 0 && a[j].repetition < a[j - 1].repetition
      invariant 0 <= j <= i
      invariant forall p, q :: 0 <= p < q <= i && q != j ==> a[p].repetition <= a[q].repetition
      invariant Rearranged(a[..], original)
    {
      ghost var s := a[..];
      a[j - 1], a[j] := a[j], a[j - 1];
      SwapRearranges(s, j - 1, a[..]);
      j := j - 1;
    }
  }

  lemma SameOrderMember(s: seq<Round>, t: seq<Round>, r: Round)
    requires SameOrder(s, t) || SameOrder(t, s)
    ensures r in s <==> r in t
  {
    var p := HasRepetition(r.repetition);
    FilterMember(s, p);
    FilterMember(t, p);
    assert Filter(s, p) == Filter(t, p);
  }

  lemma FilterLast(s: seq<Round>, k: int)
    requires |s| > 0
    ensures s[|s| - 1].repetition == k ==>
              Filter(s, HasRepetition(k)) == Filter(s[..|s| - 1], HasRepetition(k)) + [s[|s| - 1]]
    ensures s[|s| - 1].repetition != k ==> Filter(s, HasRepetition(k)) == Filter(s[..|s| - 1], HasRepetition(k))
  {
  }

  // There is only one stable sort.
  lemma {:induction false} StableSortUnique(s: seq<Round>, t: seq<Round>)
    requires SortedByRepetition(s) && SortedByRepetition(t) && SameOrder(s, t)
    ensures s == t
  {
    hide Filter;
    if |s| > 0 {
      SameOrderMember(s, t, s[|s| - 1]);
    }
    if |t| > 0 {
      SameOrderMember(s, t, t[|t| - 1]);
      var m, n := |s| - 1, |t| - 1;
      var k := s[m].repetition;
      assert k == t[n].repetition;
      assert Filter(s, HasRepetition(k)) == Filter(t, HasRepetition(k));
      FilterLast(s, k);
      FilterLast(t, k);
      forall h: int
        ensures Filter(s[..m], HasRepetition(h)) == Filter(t[..n], HasRepetition(h))
      {
        assert Filter(s, HasRepetition(h)) == Filter(t, HasRepetition(h));
        FilterLast(s, h);
        FilterLast(t, h);
        AppendCancel(Filter(s[..m], HasRepetition(k)), Filter(t[..n], HasRepetition(k)), s[m], t[n]);
      }
      AppendCancel(Filter(s[..m], HasRepetition(k)), Filter(t[..n], HasRepetition(k)), s[m], t[n]);
      StableSortUnique(s[..m], t[..n]);
      assert s == s[..m] + [s[m]] && t == t[..n] + [t[n]];
    }
  }

  lemma AppendCancel<T>(a: seq<T>, b: seq<T>, x: T, y: T)
    requires a + [x] == b + [y]
    ensures a == b && x == y
  {
    var s, t := a + [x], b + [y];
    assert |a| == |s| - 1 == |b|;
    assert a == s[..|a|] && b == t[..|b|];
    assert x == s[|a|] && y == t[|b|];
  }

  // --- The stable sort of the rounds is the pass order ------------------------------------------------

  lemma {:induction false} FilterRoundsAt(c: Cell, n: nat, k: int)
    ensures Filter(RoundsAt(n)(c), HasRepetition(k)) == if 1 <= k <= n then [Round(c, k)] else []
  {
    if n != 0 {
      var s := RoundsAt(n)(c);
      assert s[..n - 1] == RoundsAt(n - 1)(c);
      FilterRoundsAt(c, n - 1, k);
    }
  }

  lemma {:induction false} FilterFixtureMajor(cells: seq<Cell>, n: nat, k: int)
    ensures Filter(FlatMap(cells, RoundsAt(n)), HasRepetition(k)) == if 1 <= k <= n then PassAt(cells)(k) else []
  {
    if |cells| != 0 {
      var m := |cells| - 1;
      FilterFixtureMajor(cells[..m], n, k);
      FilterRoundsAt(cells[m], n, k);
      FilterAppend(FlatMap(cells[..m], RoundsAt(n)), RoundsAt(n)(cells[m]), HasRepetition(k));
      assert PassAt(cells)(k) == PassAt(cells[..m])(k) + [Round(cells[m], k)];
    }
  }

  lemma {:induction false} FilterPass(cells: seq<Cell>, j: int, k: int)
    ensures Filter(PassAt(cells)(j), HasRepetition(k)) == if j == k then PassAt(cells)(j) else []
  {
    if |cells| != 0 {
      var m := |cells| - 1;
      FilterPass(cells[..m], j, k);
      assert PassAt(cells)(j)[..m] == PassAt(cells[..m])(j);
    }
  }

  lemma {:induction false} FilterPassMajor(cells: seq<Cell>, n: nat, k: int)
    ensures Filter(FlatMap(Upto(n), PassAt(cells)), HasRepetition(k)) == if 1 <= k <= n then PassAt(cells)(k) else []
  {
    if n != 0 {
      assert Upto(n)[..n - 1] == Upto(n - 1);
      FilterPassMajor(cells, n - 1, k);
      FilterPass(cells, n, k);
      FilterAppend(FlatMap(Upto(n - 1), PassAt(cells)), PassAt(cells)(n), HasRepetition(k));
    }
  }

  lemma {:induction false} PassMajorSorted(cells: seq<Cell>, n: nat)
    ensures SortedByRepetition(FlatMap(Upto(n), PassAt(cells)))
    ensures forall r :: r in FlatMap(Upto(n), PassAt(cells)) ==> r.repetition <= n
  {
    if n != 0 {
      assert Upto(n)[..n - 1] == Upto(n - 1);
      PassMajorSorted(cells, n - 1);
    }
  }

  // Sorting the fixture-major rounds stably by repetition gives the order that
  // validateInterleavedOrder derives with its own loop nest.
  lemma SortedRoundsArePasses(o: Options, sorted: seq<Round>)
    requires o.repetitions >= 0
    requires SortedByRepetition(sorted) && SameOrder(sorted, FixtureMajor(o))
    ensures sorted == PassMajor(o)
  {
    var cells := Cells(o);
    PassMajorSorted(cells, o.repetitions);
    forall k: int
      ensures Filter(sorted, HasRepetition(k)) == Filter(PassMajor(o), HasRepetition(k))
    {
      assert Filter(sorted, HasRepetition(k)) == Filter(FixtureMajor(o), HasRepetition(k));
      FilterFixtureMajor(cells, o.repetitions, k);
      FilterPassMajor(cells, o.repetitions, k);
    }
    StableSortUnique(sorted, PassMajor(o));
  }

  // --- Rounds -----------------------------------------------------------------------------------------

  method BuildRounds(o: Options) returns (rounds: seq<Round>)
    requires o.repetitions >= 0
    ensures rounds == FixtureMajor(o)
  {
    hide FixtureCells, TransportCells, CellAt, RoundsAt, FlatMap;
    rounds := [];
    ghost var cells: seq<Cell> := [];
    NoCells(o);
    NoRounds(o);
    for i := 0 to |o.fixtures|
      invariant cells == FlatMap(o.fixtures[..i], FixtureCells(o.transports, o.targets))
      invariant rounds == FlatMap(cells, RoundsAt(o.repetitions))
    {
      var f := o.fixtures[i];
      FlatMapNext(o.fixtures, i, FixtureCells(o.transports, o.targets));
      ghost var before := cells;
      NoTransports(o, f);
      assert before + [] == before;
      for j := 0 to |o.transports|
        invariant cells == before + FlatMap(o.transports[..j], TransportCells(f, o.targets))
        invariant rounds == FlatMap(cells, RoundsAt(o.repetitions))
      {
        var t := o.transports[j];
        FlatMapNext(o.transports, j, TransportCells(f, o.targets));
        ghost var middle := cells;
        NoTargets(o, f, t);
        assert middle + [] == middle;
        for k := 0 to |o.targets|
          invariant cells == middle + FlatMap(o.targets[..k], CellAt(f, t))
          invariant rounds == FlatMap(cells, RoundsAt(o.repetitions))
        {
          var c := Cell(f, t, o.targets[k]);
          FlatMapNext(o.targets, k, CellAt(f, t));
          CellFunctions(o, f, t, o.targets[k]);
          RoundsNext(o, cells, c);
          rounds := AppendRepetitions(o, c, rounds);
          cells := cells + [c];
        }
        CellFunctions(o, f, t, DockerLinux);
        assert o.targets[..|o.targets|] == o.targets;
      }
      CellFunctions(o, f, Plaintext, DockerLinux);
      assert o.transports[..|o.transports|] == o.transports;
    }
    assert o.fixtures[..|o.fixtures|] == o.fixtures;
  }

  method AppendRepetitions(o: Options, c: Cell, start: seq<Round>) returns (rounds: seq<Round>)
    requires o.repetitions >= 0
    ensures rounds == start + RoundsAt(o.repetitions)(c)
  {
    rounds := start;
    for repetition := 1 to o.repetitions + 1
      invariant rounds == start + RoundsAt(repetition - 1)(c)
    {
      assert RoundsAt(repetition)(c) == RoundsAt(repetition - 1)(c) + [Round(c, repetition)];
      rounds := rounds + [Round(c, repetition)];
    }
  }

  lemma NoRounds(o: Options)
    requires o.repetitions >= 0
    ensures FlatMap([], RoundsAt(o.repetitions)) == []
  {
  }

  lemma RoundsNext(o: Options, cells: seq<Cell>, c: Cell)
    requires o.repetitions >= 0
    ensures FlatMap(cells + [c], RoundsAt(o.repetitions)) ==
            FlatMap(cells, RoundsAt(o.repetitions)) + RoundsAt(o.repetitions)(c)
  {
    hide RoundsAt;
    assert (cells + [c])[..|cells + [c]| - 1] == cells;
  }

  // --- Runs ---------------------------------------------------------------------------------------------

  function MakeRun(o: Options, t: Tuple, order: nat): Run {
    var p := ProfileFor(o.profiles, t.client);
    Run(RunID(order), order, t.fixture, t.client, t.toolchain, t.transport, t.target,
        if t.transport == TLS then p.validation else NotApplicable,
        if t.transport == TLS then p.caption else "plaintext",
        o.profile, o.link, o.storage, o.article, t.repetition, true, true)
  }

  ghost predicate Built(o: Options, runs: seq<Run>) {
    forall i :: 0 <= i < |runs| ==> runs[i] == MakeRun(o, TupleOf(runs[i]), i + 1)
  }

  method AppendRuns(o: Options, r: Round, lanes: array<Lane>, start: seq<Run>) returns (runs: seq<Run>)
    requires Built(o, start)
    ensures Built(o, runs)
    ensures Tuples(runs) == Tuples(start) + FlatMap(lanes[..], LaneTuples(o, r))
  {
    hide MakeRun;
    runs := start;
    for i := 0 to lanes.Length
      invariant Built(o, runs)
      invariant Tuples(runs) == Tuples(start) + FlatMap(lanes[..][..i], LaneTuples(o, r))
    {
      FlatMapNext(lanes[..], i, LaneTuples(o, r));
      var excluded := IsExcluded(o.exclusions, lanes[i].client, r.cell.fixture);
      if !excluded {
        var t := LaneTuple(r, lanes[i]);
        var run := MakeRun(o, t, |runs| + 1);
        MakeRunTuple(o, t, |runs| + 1);
        assert Tuples(runs + [run]) == Tuples(runs) + [t];
        runs := runs + [run];
      }
    }
    assert lanes[..][..lanes.Length] == lanes[..];
  }

  lemma MakeRunTuple(o: Options, t: Tuple, order: nat)
    ensures TupleOf(MakeRun(o, t, order)) == t
  {
  }

  ghost predicate LaneFits(o: Options, t: Tuple) {
    LaneOf(t) in Lanes(o, t.target) && !Excluded(o.exclusions, t.client, t.fixture)
  }

  // The runs of a round, whatever the order of its lanes.
  lemma RoundInAnyOrder(o: Options, r: Round, lanes: seq<Lane>)
    requires NoDup(o.clients) && NoDup(o.toolchains)
    requires multiset(lanes) == multiset(Lanes(o, r.cell.target))
    ensures NoDup(FlatMap(lanes, LaneTuples(o, r)))
    ensures forall t :: t in FlatMap(lanes, LaneTuples(o, r)) <==> RoundOf(t) == r && LaneFits(o, t)
  {
    LanesNoDup(o, r.cell.target);
    MultisetElements(lanes, Lanes(o, r.cell.target));
    FlatMapNoDup(lanes, LaneTuples(o, r));
    forall t: Tuple
      ensures t in FlatMap(lanes, LaneTuples(o, r)) <==> RoundOf(t) == r && LaneFits(o, t)
    {
      FlatMapMember(lanes, LaneTuples(o, r), t);
      assert LaneTuple(r, LaneOf(t)) == t <==> RoundOf(t) == r;
    }
  }

  // The rounds so far cover these tuples, each once.
  ghost predicate Covers(o: Options, rounds: seq<Round>, ts: seq<Tuple>) {
    NoDup(ts) && forall t :: t in ts <==> RoundOf(t) in rounds && LaneFits(o, t)
  }

  lemma CoversNext(o: Options, rounds: seq<Round>, i: nat, ts: seq<Tuple>, chunk: seq<Tuple>)
    requires NoDup(rounds) && i < |rounds| && Covers(o, rounds[..i], ts)
    requires NoDup(chunk)
    requires forall t :: t in chunk <==> RoundOf(t) == rounds[i] && LaneFits(o, t)
    ensures Covers(o, rounds[..i + 1], ts + chunk)
  {
    hide LaneFits;
    assert rounds[..i + 1] == rounds[..i] + [rounds[i]];
    assert rounds[i] !in rounds[..i];
    forall a, b | 0 <= a < |ts| && 0 <= b < |chunk|
      ensures ts[a] != chunk[b]
    {
      assert ts[a] in ts && chunk[b] in chunk;
    }
  }

  // --- The builder ----------------------------------------------------------------------------------------

  // Encrypted runs of scheduled clients use the public roots exactly on the external link.
  ghost predicate PoliciesMatch(o: Options) {
    TLS in o.transports ==>
      forall c, f :: c in o.clients && f in o.fixtures && !Excluded(o.exclusions, c, f) ==>
        (ProfileFor(o.profiles, c).validation == PublicRoots <==> o.link.id == EXTERNAL)
  }

  lemma PolicyOfRun(o: Options, t: Tuple, i: nat)
    requires ValidOptions(o) && t.transport in o.transports
    ensures RunOk(o, MakeRun(o, t, i + 1), i) <==>
            (t.transport == TLS ==> (ProfileFor(o.profiles, t.client).validation == PublicRoots <==> o.link.id == EXTERNAL))
  {
    hide RunID;
  }

  lemma VanillaTuple(o: Options, c: Client, f: string) returns (t: Tuple)
    requires ValidOptions(o) && TLS in o.transports
    requires c in o.clients && f in o.fixtures && !Excluded(o.exclusions, c, f)
    ensures Planned(o, t) && t.client == c && t.fixture == f && t.transport == TLS
  {
    t := Tuple(f, TLS, o.targets[0], 1, c, Vanilla);
  }

  // A plan that covers its tuples with built runs is valid exactly when the policies match.
  lemma BuiltPlanValid(o: Options, runs: seq<Run>)
    requires ValidOptions(o) && o.repetitions >= 0 && Built(o, runs)
    requires NoDup(Tuples(runs)) && forall t :: t in Tuples(runs) <==> Planned(o, t)
    requires o.passes > 0 ==> Tuples(runs) == Schedule(o)
    ensures ValidPlan(Plan(SCHEMA, o, runs)) <==> PoliciesMatch(o)
  {
    hide ValidOptions, RunOk, MakeRun, Schedule;
    forall i | 0 <= i < |runs|
      ensures runs[i].transport in o.transports
      ensures RunOk(o, runs[i], i) <==>
              (runs[i].transport == TLS ==>
                 (ProfileFor(o.profiles, runs[i].client).validation == PublicRoots <==> o.link.id == EXTERNAL))
      ensures runs[i].client in o.clients && runs[i].fixture in o.fixtures
      ensures !Excluded(o.exclusions, runs[i].client, runs[i].fixture)
    {
      assert Tuples(runs)[i] in Tuples(runs);
      PolicyOfRun(o, TupleOf(runs[i]), i);
    }
    if ValidPlan(Plan(SCHEMA, o, runs)) && TLS in o.transports {
      forall c, f | c in o.clients && f in o.fixtures && !Excluded(o.exclusions, c, f)
        ensures ProfileFor(o.profiles, c).validation == PublicRoots <==> o.link.id == EXTERNAL
      {
        var t := VanillaTuple(o, c, f);
        var i :| 0 <= i < |Tuples(runs)| && Tuples(runs)[i] == t;
      }
    }
  }

  datatype Result = Failed | Success(plan: Plan)

  // The lanes of a round in the order they run: reversed on even passes of an interleave,
  // shuffled otherwise.
  method LanesToRun(o: Options, r: Round, interleaved: bool) returns (lanes: array<Lane>)
    ensures fresh(lanes) && multiset(lanes[..]) == multiset(Lanes(o, r.cell.target))
    ensures interleaved ==> lanes[..] == LanesInOrder(o, r)
  {
    hide Lanes;
    var list := BenchmarkLanes(o, r.cell.target);
    lanes := new Lane[|list|](k requires 0 <= k < |list| => list[k]);
    assert lanes[..] == list;
    if interleaved {
      if r.repetition % 2 == 0 {
        ReverseLanes(lanes);
      }
      LanesInOrderSame(o, r);
    } else {
      Shuffle(lanes);
    }
  }

  method RoundsToRun(o: Options) returns (rounds: array<Round>)
    requires ValidOptions(o) && o.repetitions >= 0
    ensures fresh(rounds) && NoDup(rounds[..])
    ensures forall r :: r in rounds[..] <==> r in PassMajor(o)
    ensures o.passes > 0 ==> rounds[..] == PassMajor(o)
  {
    hide ValidOptions, FixtureMajor, PassMajor;
    var list := BuildRounds(o);
    rounds := new Round[|list|](i requires 0 <= i < |list| => list[i]);
    assert rounds[..] == list;
    if o.passes > 0 {
      SortStable(rounds);
      SortedRoundsArePasses(o, rounds[..]);
    } else {
      Shuffle(rounds);
    }
    RoundsFacts(o, rounds[..]);
  }

  method BuildPlan(given: Options) returns (result: Result)
    ensures result.Success? <==> ValidOptions(WithDefaults(given)) && PoliciesMatch(WithDefaults(given))
    ensures result.Success? ==> ValidPlan(result.plan) && result.plan.options == WithDefaults(given)
  {
    hide ValidOptions, WithDefaults, PoliciesMatch, ValidPlan;
    var o := WithDefaults(given);
    var ok := ValidateOptions(o);
    if !ok {
      return Failed;
    }
    OptionsFacts(o);
    var runs := BuildRuns(o);
    BuiltPlanValid(o, runs);
    var plan := Plan(SCHEMA, o, runs);
    var valid := Validate(plan);
    if !valid {
      return Failed;
    }
    return Success(plan);
  }

  // The loop over the rounds.
  method BuildRuns(o: Options) returns (runs: seq<Run>)
    requires ValidOptions(o) && o.repetitions >= 0
    ensures Built(o, runs)
    ensures NoDup(Tuples(runs)) && forall t :: t in Tuples(runs) <==> Planned(o, t)
    ensures o.passes > 0 ==> Tuples(runs) == Schedule(o)
  {
    hide ValidOptions, Planned, Covers, Built, LaneFits, PassMajor, Schedule, RoundTuples, LaneTuples, FlatMap;
    var rounds := RoundsToRun(o);
    ListsNoDup(o);
    ghost var order := rounds[..];
    runs := [];
    NothingBuilt(o, order);
    for i := 0 to rounds.Length
      invariant rounds[..] == order
      invariant Built(o, runs) && Covers(o, order[..i], Tuples(runs))
      invariant o.passes > 0 ==> Tuples(runs) == FlatMap(order[..i], RoundTuples(o))
    {
      var lanes := LanesToRun(o, rounds[i], o.passes > 0);
      RoundInAnyOrder(o, order[i], lanes[..]);
      CoversNext(o, order, i, Tuples(runs), FlatMap(lanes[..], LaneTuples(o, order[i])));
      FlatMapNext(order, i, RoundTuples(o));
      InterleavedLanes(o, order[i]);
      runs := AppendRuns(o, rounds[i], lanes, runs);
    }
    assert order[..rounds.Length] == order;
    WholePlan(o, order, Tuples(runs), o.passes > 0);
  }

  lemma ListsNoDup(o: Options)
    requires ValidOptions(o)
    ensures NoDup(o.clients) && NoDup(o.toolchains)
  {
  }

  lemma RoundsFacts(o: Options, rounds: seq<Round>)
    requires ValidOptions(o) && o.repetitions >= 0 && multiset(rounds) == multiset(FixtureMajor(o))
    ensures NoDup(rounds) && NoDup(o.clients) && NoDup(o.toolchains)
    ensures forall r :: r in rounds <==> r in PassMajor(o)
  {
    CellsNoDup(o);
    FixtureMajorNoDup(o);
    MultisetElements(rounds, FixtureMajor(o));
    forall r: Round
      ensures r in rounds <==> r in PassMajor(o)
    {
      FixtureMajorMember(o, r);
      PassMajorMember(o, r);
    }
  }

  lemma NothingBuilt(o: Options, rounds: seq<Round>)
    ensures Built(o, []) && Covers(o, rounds[..0], Tuples([]))
    ensures Tuples([]) == FlatMap(rounds[..0], RoundTuples(o))
  {
  }

  lemma InterleavedLanes(o: Options, r: Round)
    ensures multiset(LanesInOrder(o, r)) == multiset(Lanes(o, r.cell.target))
    ensures RoundTuples(o)(r) == FlatMap(LanesInOrder(o, r), LaneTuples(o, r))
  {
    LanesInOrderSame(o, r);
  }

  lemma WholePlan(o: Options, rounds: seq<Round>, ts: seq<Tuple>, interleaved: bool)
    requires o.repetitions >= 0 && Covers(o, rounds, ts)
    requires forall r :: r in rounds <==> r in PassMajor(o)
    requires interleaved ==> rounds == PassMajor(o) && ts == FlatMap(rounds, RoundTuples(o))
    ensures NoDup(ts) && forall t :: t in ts <==> Planned(o, t)
    ensures interleaved ==> ts == Schedule(o)
  {
    hide Planned, PassMajor, RoundTuples;
    forall t: Tuple
      ensures t in ts <==> Planned(o, t)
    {
      PlannedRound(o, t);
    }
  }

  // --- Defaulted client profiles --------------------------------------------------------------------------

  lemma {:induction false} ProfileListed(profiles: seq<ClientProfile>, client: Client)
    requires exists i :: 0 <= i < |profiles| && profiles[i].client == client
    ensures ProfileFor(profiles, client) in profiles && ProfileFor(profiles, client).client == client
  {
    if profiles[0].client != client {
      var i :| 0 <= i < |profiles| && profiles[i].client == client;
      assert profiles[1..][i - 1].client == client;
      ProfileListed(profiles[1..], client);
    }
  }

  // One client that trusts the laboratory's certificate, on the external link.
  const MISMATCHED := Options(
    ["fixture"], [Weaver], [ClientProfile(Weaver, CAVerified, "tls")], [Vanilla], [TLS], [DockerLinux], Stock,
    ServerLink("external", true), Storage("local", true, false), Article("750k", true), 1, 0, 0, [])

  // Valid options that have no plan.
  lemma PoliciesCanDiffer()
    ensures WithDefaults(MISMATCHED) == MISMATCHED && ValidOptions(MISMATCHED) && !PoliciesMatch(MISMATCHED)
  {
    var o := MISMATCHED;
    assert Weaver in o.clients && "fixture" in o.fixtures && !Excluded(o.exclusions, Weaver, "fixture");
    assert ProfileFor(o.profiles, Weaver) == o.profiles[0];
    assert o.profiles[0] in o.profiles;
    assert !IsSpace("tls"[0]);
  }

  // With the client profiles left to the defaults, every valid set of options gives a plan.
  lemma DefaultProfilesMatch(given: Options)
    requires |given.profiles| == 0
    ensures PoliciesMatch(WithDefaults(given))
  {
    var o := WithDefaults(given);
    forall c | c in o.clients
      ensures ProfileFor(o.profiles, c).validation == PublicRoots <==> o.link.id == EXTERNAL
    {
      var i :| 0 <= i < |o.clients| && o.clients[i] == c;
      assert o.profiles[i].client == c;
      ProfileListed(o.profiles, c);
    }
  }
}
