// The order of an interleaved plan and the values a plan defaults to, told without the loops:
// internal/benchmark/plan.go.
module PlanOrder {
  import opened Ordering
  import opened Sequences
  import opened PlanModel
  import opened PlanSchedule
  import opened PlanBuild
  import Text

  // --- Positions in the declared lists -----------------------------------------------------------------------

  function IndexIn<T(==)>(s: seq<T>, x: T): nat {
    if |s| == 0 || s[0] == x then 0 else 1 + IndexIn(s[1..], x)
  }

  lemma {:induction false} IndexAt<T(!new)>(s: seq<T>, i: nat)
    requires NoDup(s) && i < |s|
    ensures IndexIn(s, s[i]) == i
  {
    if i > 0 {
      IndexAt(s[1..], i - 1);
    }
  }

  // --- Ascending concatenations --------------------------------------------------------------------------------

  ghost predicate AllBelow<A>(s: seq<A>, t: seq<A>, below: (A, A) -> bool) {
    forall i, j :: 0 <= i < |s| && 0 <= j < |t| ==> below(s[i], t[j])
  }

  lemma AscendingConcat<A>(s: seq<A>, t: seq<A>, below: (A, A) -> bool)
    requires AscendingBy(s, below) && AscendingBy(t, below) && AllBelow(s, t, below)
    ensures AscendingBy(s + t, below)
  {
  }

  lemma AllBelowConcat<A>(s: seq<A>, t: seq<A>, u: seq<A>, below: (A, A) -> bool)
    requires AllBelow(s, u, below) && AllBelow(t, u, below)
    ensures AllBelow(s + t, u, below)
  {
  }

  lemma {:induction false} FlatMapBelow<A, B>(s: seq<A>, f: A -> seq<B>, u: seq<B>, below: (B, B) -> bool)
    requires forall i :: 0 <= i < |s| ==> AllBelow(f(s[i]), u, below)
    ensures AllBelow(FlatMap(s, f), u, below)
  {
    hide AllBelow;
    if |s| == 0 {
      NothingBelow(u, below);
    } else {
      FlatMapBelow(s[..|s| - 1], f, u, below);
      AllBelowConcat(FlatMap(s[..|s| - 1], f), f(s[|s| - 1]), u, below);
    }
  }

  lemma NothingBelow<A>(u: seq<A>, below: (A, A) -> bool)
    ensures AllBelow([], u, below)
  {
  }

  // Ascending images, each below the later ones, are ascending together.
  lemma {:induction false} FlatMapAscending<A, B>(s: seq<A>, f: A -> seq<B>, below: (B, B) -> bool)
    requires forall i :: 0 <= i < |s| ==> AscendingBy(f(s[i]), below)
    requires forall i, j :: 0 <= i < j < |s| ==> AllBelow(f(s[i]), f(s[j]), below)
    ensures AscendingBy(FlatMap(s, f), below)
  {
    hide AllBelow, AscendingBy;
    if |s| == 0 {
      NothingAscending(below);
    } else {
      var n := |s| - 1;
      FlatMapAscending(s[..n], f, below);
      FlatMapBelow(s[..n], f, f(s[n]), below);
      AscendingConcat(FlatMap(s[..n], f), f(s[n]), below);
    }
  }

  lemma NothingAscending<B>(below: (B, B) -> bool)
    ensures AscendingBy<B>([], below)
  {
  }

  // --- The order ---------------------------------------------------------------------------------------------

  // Clients in declared order, and the toolchains of a client in declared order.
  function LaneBefore(o: Options): (Lane, Lane) -> bool {
    (x: Lane, y: Lane) =>
      IndexIn(o.clients, x.client) < IndexIn(o.clients, y.client) ||
      (x.client == y.client && IndexIn(o.toolchains, x.toolchain) < IndexIn(o.toolchains, y.toolchain))
  }

  // Fixtures, then transports, then targets, each in declared order.
  function CellBefore(o: Options): (Cell, Cell) -> bool {
    (x: Cell, y: Cell) =>
      IndexIn(o.fixtures, x.fixture) < IndexIn(o.fixtures, y.fixture) ||
      (x.fixture == y.fixture &&
         (IndexIn(o.transports, x.transport) < IndexIn(o.transports, y.transport) ||
            (x.transport == y.transport && IndexIn(o.targets, x.target) < IndexIn(o.targets, y.target))))
  }

  // Passes in order, the cells of a pass in order, and the lanes of a cell forwards on odd
  // passes and backwards on even ones.
  function TupleBefore(o: Options): (Tuple, Tuple) -> bool {
    (t: Tuple, u: Tuple) =>
      var x, y := Cell(t.fixture, t.transport, t.target), Cell(u.fixture, u.transport, u.target);
      var v, w := Lane(t.client, t.toolchain), Lane(u.client, u.toolchain);
      t.repetition < u.repetition ||
      (t.repetition == u.repetition &&
         (CellBefore(o)(x, y) ||
            (x == y && if t.repetition % 2 == 1 then LaneBefore(o)(v, w) else LaneBefore(o)(w, v))))
  }

  // --- Lanes -------------------------------------------------------------------------------------------------

  lemma ClientLanesAscend(o: Options, target: Target, c: Client)
    requires NoDup(o.toolchains)
    ensures AscendingBy(ClientLanes(o.toolchains, target)(c), LaneBefore(o))
  {
    var f := LaneIf(c, target);
    forall i, j | 0 <= i < j < |o.toolchains|
      ensures AllBelow(f(o.toolchains[i]), f(o.toolchains[j]), LaneBefore(o))
    {
      IndexAt(o.toolchains, i);
      IndexAt(o.toolchains, j);
    }
    FlatMapAscending(o.toolchains, f, LaneBefore(o));
  }

  lemma LanesAscend(o: Options, target: Target)
    requires NoDup(o.toolchains) && NoDup(o.clients)
    ensures AscendingBy(Lanes(o, target), LaneBefore(o))
  {
    var f := ClientLanes(o.toolchains, target);
    forall i | 0 <= i < |o.clients|
      ensures AscendingBy(f(o.clients[i]), LaneBefore(o))
    {
      ClientLanesAscend(o, target, o.clients[i]);
    }
    forall i, j | 0 <= i < j < |o.clients|
      ensures AllBelow(f(o.clients[i]), f(o.clients[j]), LaneBefore(o))
    {
      ClientsBelow(o, target, i, j);
    }
    FlatMapAscending(o.clients, f, LaneBefore(o));
  }

  lemma LanesOfClient(o: Options, target: Target, c: Client, i: nat)
    requires i < |ClientLanes(o.toolchains, target)(c)|
    ensures ClientLanes(o.toolchains, target)(c)[i].client == c
  {
    var lanes := ClientLanes(o.toolchains, target)(c);
    FlatMapMember(o.toolchains, LaneIf(c, target), lanes[i]);
  }

  lemma ClientsBelow(o: Options, target: Target, i: nat, j: nat)
    requires NoDup(o.clients) && i < j < |o.clients|
    ensures var f := ClientLanes(o.toolchains, target);
            AllBelow(f(o.clients[i]), f(o.clients[j]), LaneBefore(o))
  {
    var f := ClientLanes(o.toolchains, target);
    IndexAt(o.clients, i);
    IndexAt(o.clients, j);
    forall a, b | 0 <= a < |f(o.clients[i])| && 0 <= b < |f(o.clients[j])|
      ensures LaneBefore(o)(f(o.clients[i])[a], f(o.clients[j])[b])
    {
      LanesOfClient(o, target, o.clients[i], a);
      LanesOfClient(o, target, o.clients[j], b);
    }
  }

  // --- Cells -------------------------------------------------------------------------------------------------

  lemma TargetsAscend(o: Options, f: string, t: Transport)
    requires NoDup(o.targets)
    ensures AscendingBy(TransportCells(f, o.targets)(t), CellBefore(o))
  {
    var g := CellAt(f, t);
    forall i, j | 0 <= i < j < |o.targets|
      ensures AllBelow(g(o.targets[i]), g(o.targets[j]), CellBefore(o))
    {
      IndexAt(o.targets, i);
      IndexAt(o.targets, j);
    }
    FlatMapAscending(o.targets, g, CellBefore(o));
  }

  lemma CellsOfTransport(o: Options, f: string, t: Transport, i: nat)
    requires i < |TransportCells(f, o.targets)(t)|
    ensures TransportCells(f, o.targets)(t)[i].fixture == f && TransportCells(f, o.targets)(t)[i].transport == t
  {
    FlatMapMember(o.targets, CellAt(f, t), TransportCells(f, o.targets)(t)[i]);
  }

  lemma TransportsAscend(o: Options, f: string)
    requires NoDup(o.targets) && NoDup(o.transports)
    ensures AscendingBy(FixtureCells(o.transports, o.targets)(f), CellBefore(o))
  {
    var g := TransportCells(f, o.targets);
    forall i | 0 <= i < |o.transports|
      ensures AscendingBy(g(o.transports[i]), CellBefore(o))
    {
      TargetsAscend(o, f, o.transports[i]);
    }
    forall i, j | 0 <= i < j < |o.transports|
      ensures AllBelow(g(o.transports[i]), g(o.transports[j]), CellBefore(o))
    {
      TransportsBelow(o, f, i, j);
    }
    FlatMapAscending(o.transports, g, CellBefore(o));
  }

  lemma TransportsBelow(o: Options, f: string, i: nat, j: nat)
    requires NoDup(o.transports) && i < j < |o.transports|
    ensures var g := TransportCells(f, o.targets);
            AllBelow(g(o.transports[i]), g(o.transports[j]), CellBefore(o))
  {
    var g := TransportCells(f, o.targets);
    IndexAt(o.transports, i);
    IndexAt(o.transports, j);
    forall a, b | 0 <= a < |g(o.transports[i])| && 0 <= b < |g(o.transports[j])|
      ensures CellBefore(o)(g(o.transports[i])[a], g(o.transports[j])[b])
    {
      CellsOfTransport(o, f, o.transports[i], a);
      CellsOfTransport(o, f, o.transports[j], b);
    }
  }

  lemma CellsOfFixture(o: Options, f: string, i: nat)
    requires i < |FixtureCells(o.transports, o.targets)(f)|
    ensures FixtureCells(o.transports, o.targets)(f)[i].fixture == f
  {
    var c := FixtureCells(o.transports, o.targets)(f)[i];
    FlatMapMember(o.transports, TransportCells(f, o.targets), c);
    var t :| t in o.transports && c in TransportCells(f, o.targets)(t);
    FlatMapMember(o.targets, CellAt(f, t), c);
  }

  lemma FixturesBelow(o: Options, i: nat, j: nat)
    requires NoDup(o.fixtures) && i < j < |o.fixtures|
    ensures var g := FixtureCells(o.transports, o.targets);
            AllBelow(g(o.fixtures[i]), g(o.fixtures[j]), CellBefore(o))
  {
    var g := FixtureCells(o.transports, o.targets);
    IndexAt(o.fixtures, i);
    IndexAt(o.fixtures, j);
    forall a, b | 0 <= a < |g(o.fixtures[i])| && 0 <= b < |g(o.fixtures[j])|
      ensures CellBefore(o)(g(o.fixtures[i])[a], g(o.fixtures[j])[b])
    {
      CellsOfFixture(o, o.fixtures[i], a);
      CellsOfFixture(o, o.fixtures[j], b);
    }
  }

  lemma CellsAscend(o: Options)
    requires NoDup(o.targets) && NoDup(o.transports) && NoDup(o.fixtures)
    ensures AscendingBy(Cells(o), CellBefore(o))
  {
    var g := FixtureCells(o.transports, o.targets);
    forall i | 0 <= i < |o.fixtures|
      ensures AscendingBy(g(o.fixtures[i]), CellBefore(o))
    {
      TransportsAscend(o, o.fixtures[i]);
    }
    forall i, j | 0 <= i < j < |o.fixtures|
      ensures AllBelow(g(o.fixtures[i]), g(o.fixtures[j]), CellBefore(o))
    {
      FixturesBelow(o, i, j);
    }
    FlatMapAscending(o.fixtures, g, CellBefore(o));
  }

  // --- Rounds and tuples -------------------------------------------------------------------------------------

  function RoundBefore(o: Options): (Round, Round) -> bool {
    (x: Round, y: Round) =>
      x.repetition < y.repetition || (x.repetition == y.repetition && CellBefore(o)(x.cell, y.cell))
  }

  lemma PassAscends(o: Options, k: int)
    requires AscendingBy(Cells(o), CellBefore(o))
    ensures AscendingBy(PassAt(Cells(o))(k), RoundBefore(o))
  {
    hide Cells, CellBefore;
  }

  lemma PassesAscend(o: Options)
    requires o.repetitions >= 0 && AscendingBy(Cells(o), CellBefore(o))
    ensures AscendingBy(PassMajor(o), RoundBefore(o))
  {
    hide Cells, CellBefore, AscendingBy;
    var s, f := Upto(o.repetitions), PassAt(Cells(o));
    forall i | 0 <= i < |s|
      ensures AscendingBy(f(s[i]), RoundBefore(o))
    {
      PassAscends(o, s[i]);
    }
    FlatMapAscending(s, f, RoundBefore(o));
  }

  lemma OrderedLanesAscend(o: Options, r: Round, i: nat, j: nat)
    requires AscendingBy(Lanes(o, r.cell.target), LaneBefore(o)) && i < j < |LanesInOrder(o, r)|
    ensures var x, y := LanesInOrder(o, r)[i], LanesInOrder(o, r)[j];
            if r.repetition % 2 == 1 then LaneBefore(o)(x, y) else LaneBefore(o)(y, x)
  {
    hide Lanes, LaneBefore;
  }

  lemma RoundAscends(o: Options, r: Round)
    requires AscendingBy(Lanes(o, r.cell.target), LaneBefore(o))
    ensures AscendingBy(RoundTuples(o)(r), TupleBefore(o))
  {
    hide AscendingBy, LaneBefore, CellBefore;
    var lanes, f := LanesInOrder(o, r), LaneTuples(o, r);
    forall i | 0 <= i < |lanes|
      ensures AscendingBy(f(lanes[i]), TupleBefore(o))
    {
      AtMostOne(f(lanes[i]), TupleBefore(o));
    }
    forall i, j | 0 <= i < j < |lanes|
      ensures AllBelow(f(lanes[i]), f(lanes[j]), TupleBefore(o))
    {
      OrderedLanesAscend(o, r, i, j);
    }
    FlatMapAscending(lanes, f, TupleBefore(o));
  }

  lemma AtMostOne<A>(s: seq<A>, below: (A, A) -> bool)
    requires |s| <= 1
    ensures AscendingBy(s, below)
  {
  }

  lemma TuplesOfRound(o: Options, r: Round, i: nat)
    requires i < |RoundTuples(o)(r)|
    ensures RoundOf(RoundTuples(o)(r)[i]) == r
  {
    FlatMapMember(LanesInOrder(o, r), LaneTuples(o, r), RoundTuples(o)(r)[i]);
  }

  lemma RoundsBelow(o: Options, x: Round, y: Round)
    requires RoundBefore(o)(x, y)
    ensures AllBelow(RoundTuples(o)(x), RoundTuples(o)(y), TupleBefore(o))
  {
    hide LaneBefore, CellBefore, RoundTuples;
    forall a, b | 0 <= a < |RoundTuples(o)(x)| && 0 <= b < |RoundTuples(o)(y)|
      ensures TupleBefore(o)(RoundTuples(o)(x)[a], RoundTuples(o)(y)[b])
    {
      TuplesOfRound(o, x, a);
      TuplesOfRound(o, y, b);
    }
  }

  // The interleaved schedule is in this order, whatever lists the plan declares. With its
  // completeness that says which schedule it is.
  lemma ScheduleOrdered(o: Options)
    requires ValidOptions(o)
    ensures AscendingBy(Schedule(o), TupleBefore(o))
  {
    hide AscendingBy, LaneBefore, CellBefore, TupleBefore, RoundBefore, RoundTuples, PassMajor, Cells, Lanes;
    CellsAscend(o);
    PassesAscend(o);
    var rounds, f := PassMajor(o), RoundTuples(o);
    forall i | 0 <= i < |rounds|
      ensures AscendingBy(f(rounds[i]), TupleBefore(o))
    {
      LanesAscend(o, rounds[i].cell.target);
      RoundAscends(o, rounds[i]);
    }
    forall i, j | 0 <= i < j < |rounds|
      ensures AllBelow(f(rounds[i]), f(rounds[j]), TupleBefore(o))
    {
      AscendingPair(rounds, RoundBefore(o), i, j);
      RoundsBelow(o, rounds[i], rounds[j]);
    }
    FlatMapAscending(rounds, f, TupleBefore(o));
  }

  lemma OrderStrict(o: Options)
    ensures Antisymmetric(TupleBefore(o))
  {
    forall t, u
      ensures !(TupleBefore(o)(t, u) && TupleBefore(o)(u, t))
    {
      OneWay(o, t, u);
    }
  }

  lemma OneWay(o: Options, t: Tuple, u: Tuple)
    ensures !(TupleBefore(o)(t, u) && TupleBefore(o)(u, t))
  {
    var x, y := Cell(t.fixture, t.transport, t.target), Cell(u.fixture, u.transport, u.target);
    var v, w := Lane(t.client, t.toolchain), Lane(u.client, u.toolchain);
    assert !(CellBefore(o)(x, y) && CellBefore(o)(y, x));
    assert !(LaneBefore(o)(v, w) && LaneBefore(o)(w, v));
    hide CellBefore, LaneBefore;
  }

  // There is one list of the planned tuples, each once, in this order.
  lemma ScheduleIs(o: Options, ts: seq<Tuple>)
    requires ValidOptions(o) && NoDup(ts) && AscendingBy(ts, TupleBefore(o))
    requires forall t :: t in ts <==> Planned(o, t)
    ensures ts == Schedule(o)
  {
    hide Planned, Schedule, TupleBefore, AscendingBy, NoDup;
    ScheduleOrdered(o);
    ScheduleComplete(o);
    OrderStrict(o);
    NoDupMultiset(ts);
    NoDupMultiset(Schedule(o));
    assert Elements(ts) == Elements(Schedule(o));
    AscendingUnique(ts, Schedule(o), TupleBefore(o));
  }

  lemma AscendingPair<A>(s: seq<A>, below: (A, A) -> bool, i: nat, j: nat)
    requires AscendingBy(s, below) && i < j < |s|
    ensures below(s[i], s[j])
  {
  }

  // --- Rules and defaults --------------------------------------------------------------------------------------

  // Vanilla runs everywhere; Rarpar runs in Docker only, with SABnzbd and NZBGet.
  lemma ToolchainsPlanned(o: Options, t: Tuple)
    requires ValidOptions(o) && Planned(o, t)
    ensures t.toolchain == Vanilla || t.toolchain == Rarpar
    ensures t.toolchain == Rarpar ==> t.target == DockerLinux && (t.client == SABnzbd || t.client == NZBGet)
    ensures Planned(o, t.(toolchain := Vanilla))
    ensures t.target == DockerLinux && (t.client == SABnzbd || t.client == NZBGet) && Rarpar in o.toolchains ==>
              Planned(o, t.(toolchain := Rarpar))
  {
  }

  // A caption or a reason is blank when it has none but these 25 characters.
  lemma BlankMeans(s: string)
    ensures Blank(s) <==> forall i :: 0 <= i < |s| ==> s[i] as int in SPACES
  {
    assert forall c: char :: IsSpace(c) <==> c as int in SPACES;
  }

  const SPACES: set<int> := {
    0x09, 0x0a, 0x0b, 0x0c, 0x0d, 0x20, 0x85, 0xa0, 0x1680, 0x2000, 0x2001, 0x2002, 0x2003, 0x2004, 0x2005, 0x2006,
    0x2007, 0x2008, 0x2009, 0x200a, 0x2028, 0x2029, 0x202f, 0x205f, 0x3000
  }

  ghost predicate DefaultedProfiles(given: Options, o: Options) {
    && |o.profiles| == |given.clients|
    && forall i :: 0 <= i < |given.clients| ==>
         var p := o.profiles[i];
         && p.client == given.clients[i]
         && (o.link.id == "external" ==> p.validation == PublicRoots && p.caption == "tls-public-roots")
         && (o.link.id != "external" && p.client == SABnzbd ==>
               p.validation == NotValidated && p.caption == "tls-unverified")
         && (o.link.id != "external" && p.client != SABnzbd ==>
               p.validation == CAVerified && p.caption == "tls-ca-verified")
  }

  // What is left unset gets its default, and only SABnzbd is left unverified; what is set stays.
  lemma DefaultsMean(given: Options)
    ensures var o := WithDefaults(given);
            && (if given.profile.Unset? then o.profile == EquivalentThroughput else o.profile == given.profile)
            && (if given.link.id == "" then o.link == ServerLink("unlimited", true) else o.link == given.link)
            && (if given.storage.id == "" then o.storage == Storage("local", true, false) else o.storage == given.storage)
            && (if given.article.id == "" then o.article == Article("750k", true) else o.article == given.article)
            && (if |given.toolchains| == 0 then o.toolchains == [Vanilla, Rarpar] else o.toolchains == given.toolchains)
            && (if |given.targets| == 0 then o.targets == [DockerLinux, MacOSNative, WindowsNative]
                else o.targets == given.targets)
            && (if |given.profiles| == 0 then DefaultedProfiles(given, o) else o.profiles == given.profiles)
            && o.fixtures == given.fixtures && o.clients == given.clients && o.transports == given.transports
            && o.repetitions == given.repetitions && o.seed == given.seed && o.passes == given.passes
            && o.exclusions == given.exclusions
  {
  }

  // --- Identifiers -------------------------------------------------------------------------------------------

  // A run's identifier is its number in at least four digits, with zeros in front only to reach
  // four.
  lemma RunIDReads(n: nat)
    ensures |RunID(n)| >= 8 && RunID(n)[..4] == "run-" && Text.Value(RunID(n)[4..]) == n
    ensures forall i :: 4 <= i < |RunID(n)| ==> '0' <= RunID(n)[i] <= '9'
    ensures |RunID(n)| > 8 ==> RunID(n)[4] != '0'
  {
    hide Padded4, Text.Value;
    PaddedValue(n);
    PaddedDigits(n);
    assert RunID(n)[4..] == Padded4(n);
  }

  lemma PaddedDigits(n: nat)
    ensures |Padded4(n)| >= 4 && forall i :: 0 <= i < |Padded4(n)| ==> '0' <= Padded4(n)[i] <= '9'
    ensures |Padded4(n)| > 4 ==> Padded4(n)[0] != '0'
  {
    hide Text.Decimal;
    Text.DecimalValue(n);
    NoLeadingZero(n);
    if |Text.Decimal(n)| > 4 {
      assert Padded4(n) == Text.Decimal(n);
    }
  }

  lemma {:induction false} NoLeadingZero(n: nat)
    ensures n > 0 ==> Text.Decimal(n)[0] != '0'
    ensures |Text.Decimal(n)| > 1 ==> n > 0
  {
    if n >= 10 {
      NoLeadingZero(n / 10);
    }
  }
}
