// The order in which a plan's runs are laid out: rounds of lanes, and the fixed
// forward/reverse interleave.
module PlanSchedule {
  import opened Sequences
  import opened PlanModel

  datatype Lane = Lane(client: Client, toolchain: Toolchain)
  datatype Cell = Cell(fixture: string, transport: Transport, target: Target)
  datatype Round = Round(cell: Cell, repetition: int)
  datatype Slot = Slot(target: Target, lane: Lane, fixture: string)

  // --- Lanes ------------------------------------------------------------------------------------

  function LaneIf(client: Client, target: Target): Toolchain -> seq<Lane> {
    (k: Toolchain) => if ToolchainAllowed(client, k, target) then [Lane(client, k)] else []
  }

  function ClientLanes(toolchains: seq<Toolchain>, target: Target): Client -> seq<Lane> {
    (c: Client) => FlatMap(toolchains, LaneIf(c, target))
  }

  function Lanes(o: Options, target: Target): seq<Lane> {
    FlatMap(o.clients, ClientLanes(o.toolchains, target))
  }

  lemma LanesMember(o: Options, target: Target, lane: Lane)
    ensures lane in Lanes(o, target) <==>
            lane.client in o.clients && lane.toolchain in o.toolchains &&
            ToolchainAllowed(lane.client, lane.toolchain, target)
  {
    FlatMapMember(o.clients, ClientLanes(o.toolchains, target), lane);
    forall c: Client
      ensures lane in ClientLanes(o.toolchains, target)(c) <==>
              lane.client == c && lane.toolchain in o.toolchains && ToolchainAllowed(c, lane.toolchain, target)
    {
      FlatMapMember(o.toolchains, LaneIf(c, target), lane);
    }
  }

  lemma LanesNoDup(o: Options, target: Target)
    requires NoDup(o.clients) && NoDup(o.toolchains)
    ensures NoDup(Lanes(o, target))
  {
    forall c: Client
      ensures NoDup(ClientLanes(o.toolchains, target)(c))
      ensures forall lane :: lane in ClientLanes(o.toolchains, target)(c) ==> lane.client == c
    {
      FlatMapNoDup(o.toolchains, LaneIf(c, target));
      forall lane | lane in ClientLanes(o.toolchains, target)(c)
        ensures lane.client == c
      {
        FlatMapMember(o.toolchains, LaneIf(c, target), lane);
      }
    }
    FlatMapNoDup(o.clients, ClientLanes(o.toolchains, target));
  }

  // --- Cells and rounds ---------------------------------------------------------------------------

  function CellAt(fixture: string, transport: Transport): Target -> seq<Cell> {
    (g: Target) => [Cell(fixture, transport, g)]
  }

  function TransportCells(fixture: string, targets: seq<Target>): Transport -> seq<Cell> {
    (t: Transport) => FlatMap(targets, CellAt(fixture, t))
  }

  function FixtureCells(transports: seq<Transport>, targets: seq<Target>): string -> seq<Cell> {
    (f: string) => FlatMap(transports, TransportCells(f, targets))
  }

  function Cells(o: Options): seq<Cell> {
    FlatMap(o.fixtures, FixtureCells(o.transports, o.targets))
  }

  lemma CellsMember(o: Options, c: Cell)
    ensures c in Cells(o) <==> c.fixture in o.fixtures && c.transport in o.transports && c.target in o.targets
  {
    FlatMapMember(o.fixtures, FixtureCells(o.transports, o.targets), c);
    forall f: string
      ensures c in FixtureCells(o.transports, o.targets)(f) <==>
              c.fixture == f && c.transport in o.transports && c.target in o.targets
    {
      FlatMapMember(o.transports, TransportCells(f, o.targets), c);
      forall t: Transport
        ensures c in TransportCells(f, o.targets)(t) <==>
                c.fixture == f && c.transport == t && c.target in o.targets
      {
        FlatMapMember(o.targets, CellAt(f, t), c);
      }
    }
  }

  lemma TransportCellsShape(f: string, t: Transport, targets: seq<Target>)
    requires NoDup(targets)
    ensures NoDup(TransportCells(f, targets)(t))
    ensures forall c :: c in TransportCells(f, targets)(t) ==> c.fixture == f && c.transport == t
  {
    FlatMapNoDup(targets, CellAt(f, t));
    forall c | c in TransportCells(f, targets)(t)
      ensures c.fixture == f && c.transport == t
    {
      FlatMapMember(targets, CellAt(f, t), c);
    }
  }

  lemma FixtureCellsShape(f: string, transports: seq<Transport>, targets: seq<Target>)
    requires NoDup(transports) && NoDup(targets)
    ensures NoDup(FixtureCells(transports, targets)(f))
    ensures forall c :: c in FixtureCells(transports, targets)(f) ==> c.fixture == f
  {
    forall t: Transport
      ensures NoDup(TransportCells(f, targets)(t))
      ensures forall c :: c in TransportCells(f, targets)(t) ==> c.fixture == f && c.transport == t
    {
      TransportCellsShape(f, t, targets);
    }
    FlatMapNoDup(transports, TransportCells(f, targets));
    forall c | c in FixtureCells(transports, targets)(f)
      ensures c.fixture == f
    {
      FlatMapMember(transports, TransportCells(f, targets), c);
    }
  }

  lemma CellsNoDup(o: Options)
    requires NoDup(o.fixtures) && NoDup(o.transports) && NoDup(o.targets)
    ensures NoDup(Cells(o))
  {
    forall f: string
      ensures NoDup(FixtureCells(o.transports, o.targets)(f))
      ensures forall c :: c in FixtureCells(o.transports, o.targets)(f) ==> c.fixture == f
    {
      FixtureCellsShape(f, o.transports, o.targets);
    }
    FlatMapNoDup(o.fixtures, FixtureCells(o.transports, o.targets));
  }

  function RoundsAt(n: nat): Cell -> seq<Round> {
    (c: Cell) => seq(n, i => Round(c, i + 1))
  }

  // The rounds as the builder first lists them: all repetitions of a cell together.
  function FixtureMajor(o: Options): seq<Round>
    requires o.repetitions >= 0
  {
    FlatMap(Cells(o), RoundsAt(o.repetitions))
  }

  function Upto(n: nat): (s: seq<int>)
    ensures |s| == n && forall i :: 0 <= i < n ==> s[i] == i + 1
  {
    seq(n, i => i + 1)
  }

  function PassAt(cells: seq<Cell>): int -> seq<Round> {
    (k: int) => seq(|cells|, i requires 0 <= i < |cells| => Round(cells[i], k))
  }

  // The rounds in pass order: all cells of a repetition together.
  function PassMajor(o: Options): seq<Round>
    requires o.repetitions >= 0
  {
    FlatMap(Upto(o.repetitions), PassAt(Cells(o)))
  }

  lemma PassMajorMember(o: Options, r: Round)
    requires o.repetitions >= 0
    ensures r in PassMajor(o) <==> r.cell in Cells(o) && 1 <= r.repetition <= o.repetitions
  {
    var cells := Cells(o);
    FlatMapMember(Upto(o.repetitions), PassAt(cells), r);
    forall k: int
      ensures r in PassAt(cells)(k) <==> r.cell in cells && r.repetition == k
    {
      if r.cell in cells && r.repetition == k {
        var i :| 0 <= i < |cells| && cells[i] == r.cell;
        assert PassAt(cells)(k)[i] == r;
      }
    }
    if r in PassMajor(o) {
      var k :| k in Upto(o.repetitions) && r in PassAt(cells)(k);
      assert r.repetition == k;
    }
    if r.cell in cells && 1 <= r.repetition <= o.repetitions {
      assert Upto(o.repetitions)[r.repetition - 1] == r.repetition;
      assert r in PassAt(cells)(r.repetition);
    }
  }

  lemma PassMajorNoDup(o: Options)
    requires o.repetitions >= 0 && NoDup(Cells(o))
    ensures NoDup(PassMajor(o))
  {
    FlatMapNoDup(Upto(o.repetitions), PassAt(Cells(o)));
  }

  lemma FixtureMajorMember(o: Options, r: Round)
    requires o.repetitions >= 0
    ensures r in FixtureMajor(o) <==> r.cell in Cells(o) && 1 <= r.repetition <= o.repetitions
  {
    FlatMapMember(Cells(o), RoundsAt(o.repetitions), r);
    forall c: Cell
      ensures r in RoundsAt(o.repetitions)(c) <==> r.cell == c && 1 <= r.repetition <= o.repetitions
    {
      if r.cell == c && 1 <= r.repetition <= o.repetitions {
        assert RoundsAt(o.repetitions)(c)[r.repetition - 1] == r;
      }
    }
    if r in FixtureMajor(o) {
      var c :| c in Cells(o) && r in RoundsAt(o.repetitions)(c);
      assert r.cell == c;
    }
    if r.cell in Cells(o) && 1 <= r.repetition <= o.repetitions {
      assert r in RoundsAt(o.repetitions)(r.cell);
    }
  }

  lemma FixtureMajorNoDup(o: Options)
    requires o.repetitions >= 0 && NoDup(Cells(o))
    ensures NoDup(FixtureMajor(o))
  {
    FlatMapNoDup(Cells(o), RoundsAt(o.repetitions));
  }

  // --- The interleave -------------------------------------------------------------------------------

  function LanesInOrder(o: Options, r: Round): seq<Lane> {
    if r.repetition % 2 == 0 then Reverse(Lanes(o, r.cell.target)) else Lanes(o, r.cell.target)
  }

  function LaneTuple(r: Round, lane: Lane): Tuple {
    Tuple(r.cell.fixture, r.cell.transport, r.cell.target, r.repetition, lane.client, lane.toolchain)
  }

  function LaneTuples(o: Options, r: Round): Lane -> seq<Tuple> {
    (lane: Lane) => if Excluded(o.exclusions, lane.client, r.cell.fixture) then [] else [LaneTuple(r, lane)]
  }

  function RoundTuples(o: Options): Round -> seq<Tuple> {
    (r: Round) => FlatMap(LanesInOrder(o, r), LaneTuples(o, r))
  }

  // The declared forward/reverse schedule.
  function Schedule(o: Options): seq<Tuple>
    requires o.repetitions >= 0
  {
    FlatMap(PassMajor(o), RoundTuples(o))
  }

  function RoundOf(t: Tuple): Round {
    Round(Cell(t.fixture, t.transport, t.target), t.repetition)
  }

  function LaneOf(t: Tuple): Lane {
    Lane(t.client, t.toolchain)
  }

  lemma LanesInOrderSame(o: Options, r: Round)
    ensures multiset(LanesInOrder(o, r)) == multiset(Lanes(o, r.cell.target))
  {
    ReverseMultiset(Lanes(o, r.cell.target));
  }

  lemma RoundTuplesMember(o: Options, r: Round, t: Tuple)
    ensures t in RoundTuples(o)(r) <==>
            RoundOf(t) == r && LaneOf(t) in Lanes(o, r.cell.target) && !Excluded(o.exclusions, t.client, t.fixture)
  {
    LanesInOrderSame(o, r);
    MultisetElements(LanesInOrder(o, r), Lanes(o, r.cell.target));
    FlatMapMember(LanesInOrder(o, r), LaneTuples(o, r), t);
    assert LaneTuple(r, LaneOf(t)) == t <==> RoundOf(t) == r;
  }

  lemma RoundTuplesNoDup(o: Options, r: Round)
    requires NoDup(o.clients) && NoDup(o.toolchains)
    ensures NoDup(RoundTuples(o)(r))
  {
    LanesNoDup(o, r.cell.target);
    LanesInOrderSame(o, r);
    MultisetElements(LanesInOrder(o, r), Lanes(o, r.cell.target));
    FlatMapNoDup(LanesInOrder(o, r), LaneTuples(o, r));
  }

  lemma PlannedRound(o: Options, t: Tuple)
    requires o.repetitions >= 0
    ensures Planned(o, t) <==>
            RoundOf(t) in PassMajor(o) && LaneOf(t) in Lanes(o, t.target) && !Excluded(o.exclusions, t.client, t.fixture)
  {
    LanesMember(o, t.target, LaneOf(t));
    PassMajorMember(o, RoundOf(t));
    CellsMember(o, RoundOf(t).cell);
  }

  // The schedule lists every planned tuple once.
  lemma ScheduleComplete(o: Options)
    requires ValidOptions(o)
    ensures NoDup(Schedule(o))
    ensures forall t :: t in Schedule(o) <==> Planned(o, t)
  {
    CellsNoDup(o);
    PassMajorNoDup(o);
    forall r: Round
      ensures NoDup(RoundTuples(o)(r))
      ensures forall t :: t in RoundTuples(o)(r) ==> RoundOf(t) == r
    {
      RoundTuplesNoDup(o, r);
      forall t | t in RoundTuples(o)(r)
        ensures RoundOf(t) == r
      {
        RoundTuplesMember(o, r, t);
      }
    }
    FlatMapNoDup(PassMajor(o), RoundTuples(o));
    forall t: Tuple
      ensures t in Schedule(o) <==> Planned(o, t)
    {
      FlatMapMember(PassMajor(o), RoundTuples(o), t);
      PlannedRound(o, t);
      RoundTuplesMember(o, RoundOf(t), t);
      forall r: Round
        ensures t in RoundTuples(o)(r) ==> r == RoundOf(t)
      {
        RoundTuplesMember(o, r, t);
      }
    }
  }

  // --- Counting ---------------------------------------------------------------------------------------

  function SlotIf(o: Options, target: Target, lane: Lane): string -> seq<Slot> {
    (f: string) => if Excluded(o.exclusions, lane.client, f) then [] else [Slot(target, lane, f)]
  }

  function LaneSlots(o: Options, target: Target): Lane -> seq<Slot> {
    (lane: Lane) => FlatMap(o.fixtures, SlotIf(o, target, lane))
  }

  function TargetSlots(o: Options): Target -> seq<Slot> {
    (g: Target) => FlatMap(Lanes(o, g), LaneSlots(o, g))
  }

  // Lanes and fixtures that are not excluded, over all targets: what Validate counts.
  function Slots(o: Options): seq<Slot> {
    FlatMap(o.targets, TargetSlots(o))
  }

  function ExpectedRuns(o: Options): int {
    |Slots(o)| * (|o.transports| * o.repetitions)
  }

  function SlotTuple(s: Slot, t: Transport, k: int): Tuple {
    Tuple(s.fixture, t, s.target, k, s.lane.client, s.lane.toolchain)
  }

  function TransportTuples(n: nat, s: Slot): Transport -> seq<Tuple> {
    (t: Transport) => seq(n, i => SlotTuple(s, t, i + 1))
  }

  function SlotTuples(o: Options): Slot -> seq<Tuple>
  {
    (s: Slot) => FlatMap(o.transports, TransportTuples(if o.repetitions >= 0 then o.repetitions else 0, s))
  }

  function AllTuples(o: Options): seq<Tuple> {
    FlatMap(Slots(o), SlotTuples(o))
  }

  function SlotOf(t: Tuple): Slot {
    Slot(t.target, LaneOf(t), t.fixture)
  }

  lemma SlotsMember(o: Options, s: Slot)
    ensures s in Slots(o) <==>
            s.target in o.targets && s.lane in Lanes(o, s.target) && s.fixture in o.fixtures &&
            !Excluded(o.exclusions, s.lane.client, s.fixture)
  {
    FlatMapMember(o.targets, TargetSlots(o), s);
    forall g: Target
      ensures s in TargetSlots(o)(g) <==>
              s.target == g && s.lane in Lanes(o, g) && s.fixture in o.fixtures &&
              !Excluded(o.exclusions, s.lane.client, s.fixture)
    {
      FlatMapMember(Lanes(o, g), LaneSlots(o, g), s);
      forall lane: Lane
        ensures s in LaneSlots(o, g)(lane) <==>
                s.target == g && s.lane == lane && s.fixture in o.fixtures && !Excluded(o.exclusions, lane.client, s.fixture)
      {
        FlatMapMember(o.fixtures, SlotIf(o, g, lane), s);
      }
    }
  }

  lemma LaneSlotsShape(o: Options, g: Target, lane: Lane)
    requires NoDup(o.fixtures)
    ensures NoDup(LaneSlots(o, g)(lane))
    ensures forall s :: s in LaneSlots(o, g)(lane) ==> s.target == g && s.lane == lane
  {
    FlatMapNoDup(o.fixtures, SlotIf(o, g, lane));
    forall s | s in LaneSlots(o, g)(lane)
      ensures s.target == g && s.lane == lane
    {
      FlatMapMember(o.fixtures, SlotIf(o, g, lane), s);
    }
  }

  lemma TargetSlotsShape(o: Options, g: Target)
    requires NoDup(o.fixtures) && NoDup(o.clients) && NoDup(o.toolchains)
    ensures NoDup(TargetSlots(o)(g))
    ensures forall s :: s in TargetSlots(o)(g) ==> s.target == g
  {
    LanesNoDup(o, g);
    forall lane: Lane
      ensures NoDup(LaneSlots(o, g)(lane))
      ensures forall s :: s in LaneSlots(o, g)(lane) ==> s.target == g && s.lane == lane
    {
      LaneSlotsShape(o, g, lane);
    }
    FlatMapNoDup(Lanes(o, g), LaneSlots(o, g));
    forall s | s in TargetSlots(o)(g)
      ensures s.target == g
    {
      FlatMapMember(Lanes(o, g), LaneSlots(o, g), s);
    }
  }

  lemma SlotsNoDup(o: Options)
    requires NoDup(o.fixtures) && NoDup(o.clients) && NoDup(o.toolchains) && NoDup(o.targets)
    ensures NoDup(Slots(o))
  {
    forall g: Target
      ensures NoDup(TargetSlots(o)(g))
      ensures forall s :: s in TargetSlots(o)(g) ==> s.target == g
    {
      TargetSlotsShape(o, g);
    }
    FlatMapNoDup(o.targets, TargetSlots(o));
  }

  lemma SlotTuplesShape(o: Options, s: Slot)
    requires NoDup(o.transports) && o.repetitions >= 0
    ensures NoDup(SlotTuples(o)(s)) && |SlotTuples(o)(s)| == |o.transports| * o.repetitions
    ensures forall t :: t in SlotTuples(o)(s) <==>
              SlotOf(t) == s && t.transport in o.transports && 1 <= t.repetition <= o.repetitions
  {
    var f := TransportTuples(o.repetitions, s);
    FlatMapNoDup(o.transports, f);
    FlatMapLength(o.transports, f, o.repetitions);
    forall t: Tuple
      ensures t in SlotTuples(o)(s) <==>
              SlotOf(t) == s && t.transport in o.transports && 1 <= t.repetition <= o.repetitions
    {
      FlatMapMember(o.transports, f, t);
      if SlotOf(t) == s && 1 <= t.repetition <= o.repetitions {
        assert f(t.transport)[t.repetition - 1] == t;
      }
    }
  }

  // There are exactly as many planned tuples as Validate expects runs.
  lemma PlannedCount(o: Options)
    requires ValidOptions(o)
    ensures NoDup(AllTuples(o)) && |AllTuples(o)| == ExpectedRuns(o)
    ensures forall t :: t in AllTuples(o) <==> Planned(o, t)
  {
    hide ValidOptions, Planned, AllTuples;
    AllTuplesNoDup(o);
    forall t: Tuple
      ensures t in AllTuples(o) <==> Planned(o, t)
    {
      TuplePlanned(o, t);
    }
  }

  lemma AllTuplesNoDup(o: Options)
    requires ValidOptions(o)
    ensures NoDup(AllTuples(o)) && |AllTuples(o)| == ExpectedRuns(o)
  {
    TuplesNoDup(o);
  }

  lemma TuplesNoDup(o: Options)
    requires NoDup(o.fixtures) && NoDup(o.clients) && NoDup(o.toolchains) && NoDup(o.targets) && NoDup(o.transports)
    requires o.repetitions >= 0
    ensures NoDup(AllTuples(o)) && |AllTuples(o)| == ExpectedRuns(o)
  {
    hide SlotTuples, Slots, NoDup;
    SlotsNoDup(o);
    SlotTuplesFit(o);
    FlatMapApart(Slots(o), SlotTuples(o), SlotOf);
    FlatMapLength(Slots(o), SlotTuples(o), |o.transports| * o.repetitions);
  }

  // The tuples of a slot are its own.
  lemma SlotTuplesFit(o: Options)
    requires NoDup(o.transports) && o.repetitions >= 0
    ensures forall s :: NoDup(SlotTuples(o)(s)) && |SlotTuples(o)(s)| == |o.transports| * o.repetitions
    ensures forall s, t :: t in SlotTuples(o)(s) ==> SlotOf(t) == s
  {
    hide SlotTuples, NoDup;
    forall s: Slot
      ensures NoDup(SlotTuples(o)(s)) && |SlotTuples(o)(s)| == |o.transports| * o.repetitions
      ensures forall t :: t in SlotTuples(o)(s) ==> SlotOf(t) == s
    {
      SlotTuplesShape(o, s);
    }
  }

  lemma TuplePlanned(o: Options, t: Tuple)
    requires ValidOptions(o)
    ensures t in AllTuples(o) <==> Planned(o, t)
  {
    hide SlotTuples, Slots, Lanes;
    FlatMapMember(Slots(o), SlotTuples(o), t);
    forall s: Slot
      ensures t in SlotTuples(o)(s) <==>
                SlotOf(t) == s && t.transport in o.transports && 1 <= t.repetition <= o.repetitions
    {
      SlotTuplesShape(o, s);
    }
    SlotsMember(o, SlotOf(t));
    LanesMember(o, t.target, LaneOf(t));
  }

  // A list of planned tuples without repetition is complete exactly when it has the
  // expected length.
  lemma Pigeonhole(o: Options, ts: seq<Tuple>)
    requires ValidOptions(o) && NoDup(ts)
    requires forall t :: t in ts ==> Planned(o, t)
    ensures |ts| == ExpectedRuns(o) <==> (forall t :: Planned(o, t) ==> t in ts)
  {
    hide Planned, AllTuples, ExpectedRuns;
    var all := AllTuples(o);
    PlannedCount(o);
    NoDupSize(ts);
    NoDupSize(all);
    assert Elements(ts) <= Elements(all);
    SubsetSize(Elements(ts), Elements(all));
    if |ts| == ExpectedRuns(o) {
      forall t | Planned(o, t)
        ensures t in ts
      {
        assert t in Elements(all);
      }
    }
    if forall t :: Planned(o, t) ==> t in ts {
      forall t | t in all
        ensures t in ts
      {
        assert Planned(o, t);
      }
      assert Elements(all) == Elements(ts);
    }
  }
}
