// Why the interleave runs forward and then reversed: a cost that grows steadily with the
// position of a run in the session falls on every lane of a round alike.
module PlanDrift {
  import opened Sequences
  import opened PlanModel
  import opened PlanSchedule
  import opened PlanValidate

  // A run of the given cell and lane in one of the given passes.
  predicate Matches(t: Tuple, cell: Cell, lane: Lane, passes: set<int>) {
    RoundOf(t).cell == cell && LaneOf(t) == lane && t.repetition in passes
  }

  // The sum of the positions, counted from start + 1, of the matching tuples.
  function Positions(ts: seq<Tuple>, start: int, cell: Cell, lane: Lane, passes: set<int>): int {
    if |ts| == 0 then 0
    else Positions(ts[..|ts| - 1], start, cell, lane, passes) +
         if Matches(ts[|ts| - 1], cell, lane, passes) then start + |ts| else 0
  }

  function Count(ts: seq<Tuple>, cell: Cell, lane: Lane, passes: set<int>): nat {
    if |ts| == 0 then 0
    else Count(ts[..|ts| - 1], cell, lane, passes) +
         if Matches(ts[|ts| - 1], cell, lane, passes) then 1 else 0
  }

  lemma {:induction false} PositionsShift(ts: seq<Tuple>, start: int, cell: Cell, lane: Lane, passes: set<int>)
    ensures Positions(ts, start, cell, lane, passes) ==
            Positions(ts, 0, cell, lane, passes) + start * Count(ts, cell, lane, passes)
  {
    if |ts| != 0 {
      PositionsShift(ts[..|ts| - 1], start, cell, lane, passes);
    }
  }

  lemma {:induction false} PositionsAppend(
    s: seq<Tuple>, t: seq<Tuple>, start: int, cell: Cell, lane: Lane, passes: set<int>)
    ensures Positions(s + t, start, cell, lane, passes) ==
            Positions(s, start, cell, lane, passes) + Positions(t, start + |s|, cell, lane, passes)
  {
    if |t| == 0 {
      assert s + t == s;
    } else {
      assert (s + t)[..|s + t| - 1] == s + t[..|t| - 1];
      PositionsAppend(s, t[..|t| - 1], start, cell, lane, passes);
    }
  }

  // --- One round ------------------------------------------------------------------------------------

  function NotExcluded(o: Options, fixture: string): Lane -> bool {
    (lane: Lane) => !Excluded(o.exclusions, lane.client, fixture)
  }

  // The lanes that a round runs on a forward pass.
  function Surviving(o: Options, cell: Cell): seq<Lane> {
    Filter(Lanes(o, cell.target), NotExcluded(o, cell.fixture))
  }

  function SurvivingInOrder(o: Options, r: Round): seq<Lane> {
    if r.repetition % 2 == 0 then Reverse(Surviving(o, r.cell)) else Surviving(o, r.cell)
  }

  lemma {:induction false} LaneTuplesFiltered(o: Options, r: Round, lanes: seq<Lane>)
    ensures |FlatMap(lanes, LaneTuples(o, r))| == |Filter(lanes, NotExcluded(o, r.cell.fixture))|
    ensures forall i :: 0 <= i < |Filter(lanes, NotExcluded(o, r.cell.fixture))| ==>
              FlatMap(lanes, LaneTuples(o, r))[i] == LaneTuple(r, Filter(lanes, NotExcluded(o, r.cell.fixture))[i])
  {
    if |lanes| != 0 {
      LaneTuplesFiltered(o, r, lanes[..|lanes| - 1]);
    }
  }

  lemma RoundTuplesInOrder(o: Options, r: Round)
    ensures |RoundTuples(o)(r)| == |SurvivingInOrder(o, r)|
    ensures forall i :: 0 <= i < |SurvivingInOrder(o, r)| ==>
              RoundTuples(o)(r)[i] == LaneTuple(r, SurvivingInOrder(o, r)[i])
  {
    LaneTuplesFiltered(o, r, LanesInOrder(o, r));
    FilterReverse(Lanes(o, r.cell.target), NotExcluded(o, r.cell.fixture));
  }

  lemma {:induction false} SingleMatch(ts: seq<Tuple>, start: int, cell: Cell, lane: Lane, passes: set<int>, k: nat)
    requires k < |ts| && Matches(ts[k], cell, lane, passes)
    requires forall i :: 0 <= i < |ts| && i != k ==> !Matches(ts[i], cell, lane, passes)
    ensures Positions(ts, start, cell, lane, passes) == start + k + 1 && Count(ts, cell, lane, passes) == 1
  {
    var n := |ts| - 1;
    if k == n {
      NoMatch(ts[..n], start, cell, lane, passes);
    } else {
      SingleMatch(ts[..n], start, cell, lane, passes, k);
    }
  }

  lemma {:induction false} NoMatch(ts: seq<Tuple>, start: int, cell: Cell, lane: Lane, passes: set<int>)
    requires forall i :: 0 <= i < |ts| ==> !Matches(ts[i], cell, lane, passes)
    ensures Positions(ts, start, cell, lane, passes) == 0 && Count(ts, cell, lane, passes) == 0
  {
    if |ts| != 0 {
      NoMatch(ts[..|ts| - 1], start, cell, lane, passes);
    }
  }

  lemma SurvivingNoDup(o: Options, cell: Cell)
    requires NoDup(o.clients) && NoDup(o.toolchains)
    ensures NoDup(Surviving(o, cell))
  {
    LanesNoDup(o, cell.target);
    FilterNoDup(Lanes(o, cell.target), NotExcluded(o, cell.fixture));
  }

  // A lane's position in the round of its cell: forward or mirrored.
  lemma RoundPosition(o: Options, r: Round, k: nat, passes: set<int>)
    requires NoDup(o.clients) && NoDup(o.toolchains)
    requires k < |Surviving(o, r.cell)| && r.repetition in passes
    ensures var n, lane := |Surviving(o, r.cell)|, Surviving(o, r.cell)[k];
            Positions(RoundTuples(o)(r), 0, r.cell, lane, passes) == (if r.repetition % 2 == 0 then n - k else k + 1) &&
            Count(RoundTuples(o)(r), r.cell, lane, passes) == 1
  {
    hide Surviving, RoundTuples, Reverse;
    SurvivingNoDup(o, r.cell);
    RoundTuplesInOrder(o, r);
    var n, lane := |Surviving(o, r.cell)|, Surviving(o, r.cell)[k];
    var order := SurvivingInOrder(o, r);
    var at := if r.repetition % 2 == 0 then n - 1 - k else k;
    forall i | 0 <= i < n
      ensures order[i] == lane <==> i == at
    {
    }
    SingleMatch(RoundTuples(o)(r), 0, r.cell, lane, passes, at);
  }

  lemma OtherRound(o: Options, r: Round, cell: Cell, lane: Lane, passes: set<int>)
    requires r.cell != cell || r.repetition !in passes
    ensures Positions(RoundTuples(o)(r), 0, cell, lane, passes) == 0
    ensures Count(RoundTuples(o)(r), cell, lane, passes) == 0
  {
    hide RoundTuples;
    RoundTuplesInOrder(o, r);
    NoMatch(RoundTuples(o)(r), 0, cell, lane, passes);
  }

  // --- All rounds ---------------------------------------------------------------------------------------

  // Forward rounds of the cell minus reversed ones.
  function Balance(rounds: seq<Round>, cell: Cell, passes: set<int>): int {
    if |rounds| == 0 then 0
    else
      var r := rounds[|rounds| - 1];
      Balance(rounds[..|rounds| - 1], cell, passes) +
      if r.cell == cell && r.repetition in passes then (if r.repetition % 2 == 0 then -1 else 1) else 0
  }

  // Two lanes drift apart by their single-pass distance for each unbalanced round.
  lemma {:induction false} DriftApart(o: Options, rounds: seq<Round>, cell: Cell, i: nat, j: nat, passes: set<int>)
    requires NoDup(o.clients) && NoDup(o.toolchains)
    requires i < |Surviving(o, cell)| && j < |Surviving(o, cell)|
    ensures var ts, x, y := FlatMap(rounds, RoundTuples(o)), Surviving(o, cell)[i], Surviving(o, cell)[j];
            Positions(ts, 0, cell, x, passes) - Positions(ts, 0, cell, y, passes) == (i - j) * Balance(rounds, cell, passes)
  {
    hide RoundTuples, Surviving, Count, Positions;
    var x, y := Surviving(o, cell)[i], Surviving(o, cell)[j];
    if |rounds| == 0 {
      PositionsOfNone(cell, x, passes);
      PositionsOfNone(cell, y, passes);
    } else {
      var n := |rounds| - 1;
      var r, front := rounds[n], FlatMap(rounds[..n], RoundTuples(o));
      DriftApart(o, rounds[..n], cell, i, j, passes);
      PositionsAppend(front, RoundTuples(o)(r), 0, cell, x, passes);
      PositionsAppend(front, RoundTuples(o)(r), 0, cell, y, passes);
      PositionsShift(RoundTuples(o)(r), |front|, cell, x, passes);
      PositionsShift(RoundTuples(o)(r), |front|, cell, y, passes);
      var b := Balance(rounds[..n], cell, passes);
      if r.cell == cell && r.repetition in passes {
        RoundPosition(o, r, i, passes);
        RoundPosition(o, r, j, passes);
        assert (i - j) * (b + 1) == (i - j) * b + (i - j);
        assert (i - j) * (b - 1) == (i - j) * b - (i - j);
      } else {
        OtherRound(o, r, cell, x, passes);
        OtherRound(o, r, cell, y, passes);
      }
    }
  }

  lemma PositionsOfNone(cell: Cell, lane: Lane, passes: set<int>)
    ensures Positions([], 0, cell, lane, passes) == 0
  {
  }

  lemma {:induction false} BalanceAppend(s: seq<Round>, t: seq<Round>, cell: Cell, passes: set<int>)
    ensures Balance(s + t, cell, passes) == Balance(s, cell, passes) + Balance(t, cell, passes)
  {
    if |t| == 0 {
      assert s + t == s;
    } else {
      assert (s + t)[..|s + t| - 1] == s + t[..|t| - 1];
      BalanceAppend(s, t[..|t| - 1], cell, passes);
    }
  }

  lemma {:induction false} BalanceOfPass(cells: seq<Cell>, k: int, cell: Cell, passes: set<int>)
    requires NoDup(cells)
    ensures Balance(PassAt(cells)(k), cell, passes) ==
            if cell in cells && k in passes then (if k % 2 == 0 then -1 else 1) else 0
  {
    if |cells| != 0 {
      var n := |cells| - 1;
      assert cells == cells[..n] + [cells[n]];
      assert PassAt(cells)(k)[..n] == PassAt(cells[..n])(k);
      BalanceOfPass(cells[..n], k, cell, passes);
    }
  }

  function AllPasses(n: nat): set<int> {
    if n == 0 then {} else AllPasses(n - 1) + {n}
  }

  lemma PassesNext(cells: seq<Cell>, n: nat, cell: Cell, passes: set<int>)
    requires NoDup(cells) && cell in cells && n > 0
    ensures Balance(FlatMap(Upto(n), PassAt(cells)), cell, passes) ==
            Balance(FlatMap(Upto(n - 1), PassAt(cells)), cell, passes) +
            if n in passes then (if n % 2 == 0 then -1 else 1) else 0
  {
    hide Balance, PassAt;
    assert Upto(n)[..n - 1] == Upto(n - 1);
    BalanceOfPass(cells, n, cell, passes);
    BalanceAppend(FlatMap(Upto(n - 1), PassAt(cells)), PassAt(cells)(n), cell, passes);
  }

  lemma {:induction false} BalanceOfAll(cells: seq<Cell>, n: nat, cell: Cell, passes: set<int>)
    requires NoDup(cells) && cell in cells && AllPasses(n) <= passes
    ensures Balance(FlatMap(Upto(n), PassAt(cells)), cell, passes) == n % 2
  {
    hide PassAt;
    if n != 0 {
      PassesNext(cells, n, cell, passes);
      BalanceOfAll(cells, n - 1, cell, passes);
    }
  }

  lemma {:induction false} BalanceOfFirst(cells: seq<Cell>, n: nat, cell: Cell)
    requires NoDup(cells) && cell in cells
    ensures Balance(FlatMap(Upto(n), PassAt(cells)), cell, {1}) == if n == 0 then 0 else 1
  {
    hide PassAt;
    if n != 0 {
      PassesNext(cells, n, cell, {1});
      BalanceOfFirst(cells, n - 1, cell);
    }
  }

  // --- The balance of a saved plan ------------------------------------------------------------------------

  // The sum of the order numbers of a lane's runs in a round of the plan.
  function TotalOrder(runs: seq<Run>, cell: Cell, lane: Lane, passes: set<int>): int {
    if |runs| == 0 then 0
    else
      var run := runs[|runs| - 1];
      TotalOrder(runs[..|runs| - 1], cell, lane, passes) +
      if Matches(TupleOf(run), cell, lane, passes) then run.order else 0
  }

  lemma {:induction false} OrdersArePositions(o: Options, runs: seq<Run>, cell: Cell, lane: Lane, passes: set<int>)
    requires forall i :: 0 <= i < |runs| ==> RunOk(o, runs[i], i)
    ensures TotalOrder(runs, cell, lane, passes) == Positions(Tuples(runs), 0, cell, lane, passes)
  {
    hide RunOk, Matches;
    if |runs| != 0 {
      var n := |runs| - 1;
      OrdersArePositions(o, runs[..n], cell, lane, passes);
      assert Tuples(runs)[..n] == Tuples(runs[..n]);
      OrderOfRun(o, runs[n], n);
    }
  }

  lemma OrderOfRun(o: Options, run: Run, i: nat)
    requires RunOk(o, run, i)
    ensures run.order == i + 1
  {
  }

  ghost predicate Survives(o: Options, cell: Cell, lane: Lane) {
    lane in Lanes(o, cell.target) && !Excluded(o.exclusions, lane.client, cell.fixture)
  }

  lemma OrderGap(p: Plan, cell: Cell, i: nat, j: nat, passes: set<int>)
    requires ValidPlan(p) && p.options.passes > 0
    requires i < |Surviving(p.options, cell)| && j < |Surviving(p.options, cell)|
    ensures var x, y := Surviving(p.options, cell)[i], Surviving(p.options, cell)[j];
            TotalOrder(p.runs, cell, x, passes) - TotalOrder(p.runs, cell, y, passes) ==
            (i - j) * Balance(PassMajor(p.options), cell, passes)
  {
    hide RunOk, Planned, Matches, Positions, TotalOrder, Balance, Surviving;
    BalanceFacts(p);
    DriftApart(p.options, PassMajor(p.options), cell, i, j, passes);
    OrdersArePositions(p.options, p.runs, cell, Surviving(p.options, cell)[i], passes);
    OrdersArePositions(p.options, p.runs, cell, Surviving(p.options, cell)[j], passes);
  }

  lemma BalanceFacts(p: Plan)
    requires ValidPlan(p) && p.options.passes > 0
    ensures var o := p.options;
            NoDup(o.clients) && NoDup(o.toolchains) && NoDup(Cells(o)) && o.repetitions == o.passes >= 1 &&
            Tuples(p.runs) == FlatMap(PassMajor(o), RoundTuples(o))
  {
    CellsNoDup(p.options);
  }

  // In every interleaved plan that the validator accepts, and for any two lanes that survive
  // the exclusions of a round: with an even number of passes their order numbers add up to
  // the same total, with an odd number the totals differ by the distance of a single pass.
  lemma DriftCancels(p: Plan, cell: Cell, x: Lane, y: Lane)
    requires ValidPlan(p) && p.options.passes > 0
    requires cell in Cells(p.options) && Survives(p.options, cell, x) && Survives(p.options, cell, y)
    ensures var all := AllPasses(p.options.passes);
            var total := TotalOrder(p.runs, cell, x, all) - TotalOrder(p.runs, cell, y, all);
            var single := TotalOrder(p.runs, cell, x, {1}) - TotalOrder(p.runs, cell, y, {1});
            total == if p.options.passes % 2 == 0 then 0 else single
  {
    hide ValidPlan, TotalOrder, Surviving, Survives, AllPasses;
    SurvivingMember(p.options, cell, x);
    SurvivingMember(p.options, cell, y);
    var i :| 0 <= i < |Surviving(p.options, cell)| && Surviving(p.options, cell)[i] == x;
    var j :| 0 <= j < |Surviving(p.options, cell)| && Surviving(p.options, cell)[j] == y;
    OrderGaps(p, cell, i, j);
  }

  lemma OrderGaps(p: Plan, cell: Cell, i: nat, j: nat)
    requires ValidPlan(p) && p.options.passes > 0 && cell in Cells(p.options)
    requires i < |Surviving(p.options, cell)| && j < |Surviving(p.options, cell)|
    ensures var all, x, y := AllPasses(p.options.passes), Surviving(p.options, cell)[i], Surviving(p.options, cell)[j];
            TotalOrder(p.runs, cell, x, all) - TotalOrder(p.runs, cell, y, all) == (i - j) * (p.options.passes % 2) &&
            TotalOrder(p.runs, cell, x, {1}) - TotalOrder(p.runs, cell, y, {1}) == i - j
  {
    hide ValidPlan, TotalOrder, Surviving, AllPasses, Balance, Cells, PassAt;
    var o := p.options;
    BalanceFacts(p);
    OrderGap(p, cell, i, j, AllPasses(o.passes));
    OrderGap(p, cell, i, j, {1});
    BalanceOfAll(Cells(o), o.repetitions, cell, AllPasses(o.passes));
    BalanceOfFirst(Cells(o), o.repetitions, cell);
  }

  lemma SurvivingMember(o: Options, cell: Cell, lane: Lane)
    ensures lane in Surviving(o, cell) <==> Survives(o, cell, lane)
  {
    FilterMember(Lanes(o, cell.target), NotExcluded(o, cell.fixture));
  }
}
