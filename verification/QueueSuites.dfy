// The suite grouper and the adapter-result check of internal/benchmark/queue.go, and why
// they can rely on what the plan validator established.
module QueueSuites {
  import opened Sequences
  import opened PlanModel
  import opened PlanSchedule
  import opened PlanValidate
  import Text

  const MINIMUM_COPIES := 2

  datatype LaneKey = LaneKey(
    client: Client, toolchain: Toolchain, transport: Transport, validation: Validation, caption: string)

  datatype Suite = Suite(id: string, runs: seq<Run>)

  datatype Outcome = Refused | Grouped(suites: seq<Suite>)

  function KeyOf(run: Run): LaneKey {
    LaneKey(run.client, run.toolchain, run.transport, run.validation, run.caption)
  }

  function OnLane(target: Target, key: LaneKey): Run -> bool {
    (run: Run) => run.target == target && KeyOf(run) == key
  }

  // The lanes of a target in the order in which they first run.
  function KeysOf(runs: seq<Run>, target: Target): seq<LaneKey> {
    if |runs| == 0 then []
    else
      var keys, run := KeysOf(runs[..|runs| - 1], target), runs[|runs| - 1];
      if run.target == target && KeyOf(run) !in keys then keys + [KeyOf(run)] else keys
  }

  function SuiteID(n: nat): string {
    "queue-transition-" + Padded4(n)
  }

  // One suite per lane, with the lane's runs in plan order.
  function SuitesOf(runs: seq<Run>, target: Target): (suites: seq<Suite>)
    ensures |suites| == |KeysOf(runs, target)|
  {
    var keys := KeysOf(runs, target);
    seq(|keys|, s requires 0 <= s < |keys| => Suite(SuiteID(s + 1), Filter(runs, OnLane(target, keys[s]))))
  }

  lemma {:induction false} KeysShape(runs: seq<Run>, target: Target)
    ensures NoDup(KeysOf(runs, target))
    ensures forall key :: key in KeysOf(runs, target) <==>
              exists run :: run in runs && run.target == target && KeyOf(run) == key
  {
    hide KeyOf;
    if |runs| != 0 {
      var n := |runs| - 1;
      KeysShape(runs[..n], target);
      assert runs == runs[..n] + [runs[n]];
      forall key
        ensures key in KeysOf(runs, target) <==>
                exists run :: run in runs && run.target == target && KeyOf(run) == key
      {
        if key in KeysOf(runs, target) && key !in KeysOf(runs[..n], target) {
          assert runs[n] in runs;
        }
      }
    }
  }

  lemma LaneNext(runs: seq<Run>, target: Target, run: Run, key: LaneKey)
    ensures Filter(runs + [run], OnLane(target, key)) ==
            if run.target == target && KeyOf(run) == key then Filter(runs, OnLane(target, key)) + [run]
            else Filter(runs, OnLane(target, key))
  {
    assert (runs + [run])[..|runs + [run]| - 1] == runs;
  }

  lemma KeysNext(runs: seq<Run>, target: Target, run: Run)
    ensures KeysOf(runs + [run], target) ==
            if run.target == target && KeyOf(run) !in KeysOf(runs, target) then KeysOf(runs, target) + [KeyOf(run)]
            else KeysOf(runs, target)
  {
    assert (runs + [run])[..|runs + [run]| - 1] == runs;
  }

  lemma SuitesLength(runs: seq<Run>, target: Target, run: Run)
    ensures var keys := KeysOf(runs, target);
            && |SuitesOf(runs, target)| == |keys|
            && |SuitesOf(runs + [run], target)| ==
                 |keys| + if run.target == target && KeyOf(run) !in keys then 1 else 0
  {
    hide KeyOf, KeysOf;
    KeysNext(runs, target, run);
  }

  lemma SuiteExtended(runs: seq<Run>, target: Target, run: Run, s: nat)
    requires s < |KeysOf(runs, target)|
    ensures var before, after := SuitesOf(runs, target), SuitesOf(runs + [run], target);
            && s < |before| && s < |after| && after[s].id == before[s].id
            && after[s].runs ==
                 if run.target == target && KeyOf(run) == KeysOf(runs, target)[s] then before[s].runs + [run]
                 else before[s].runs
  {
    hide KeyOf, SuiteID, Filter, KeysOf;
    KeysNext(runs, target, run);
    LaneNext(runs, target, run, KeysOf(runs, target)[s]);
  }

  lemma SuiteOpened(runs: seq<Run>, target: Target, run: Run)
    requires run.target == target && KeyOf(run) !in KeysOf(runs, target)
    ensures var n, after := |KeysOf(runs, target)|, SuitesOf(runs + [run], target);
            n < |after| && after[n] == Suite(SuiteID(n + 1), [run])
  {
    hide KeyOf, SuiteID, Filter, KeysOf;
    KeysNext(runs, target, run);
    LaneNext(runs, target, run, KeyOf(run));
    NoneOnLane(runs, target, KeyOf(run));
    assert [] + [run] == [run];
  }

  // Adding a run to the suites of its predecessors: another target leaves them alone, a new
  // lane opens a suite, and a known lane extends its suite.
  lemma SuitesNext(runs: seq<Run>, target: Target, run: Run)
    ensures run.target != target ==> SuitesOf(runs + [run], target) == SuitesOf(runs, target)
    ensures run.target == target && KeyOf(run) !in KeysOf(runs, target) ==>
              SuitesOf(runs + [run], target) ==
              SuitesOf(runs, target) + [Suite(SuiteID(|SuitesOf(runs, target)| + 1), [] + [run])]
    ensures run.target == target ==>
              forall s :: 0 <= s < |KeysOf(runs, target)| && KeysOf(runs, target)[s] == KeyOf(run) ==>
                SuitesOf(runs + [run], target) ==
                SuitesOf(runs, target)[s := Suite(SuitesOf(runs, target)[s].id, SuitesOf(runs, target)[s].runs + [run])]
  {
    hide KeyOf, SuiteID, Filter, KeysOf, SuitesOf;
    var before, keys, after := SuitesOf(runs, target), KeysOf(runs, target), SuitesOf(runs + [run], target);
    KeysShape(runs, target);
    SuitesLength(runs, target, run);
    assert run.target != target ==> |after| == |before|;
    forall s | 0 <= s < |keys|
      ensures after[s].id == before[s].id
      ensures after[s].runs ==
              if run.target == target && KeyOf(run) == keys[s] then before[s].runs + [run] else before[s].runs
    {
      SuiteExtended(runs, target, run, s);
    }
    if run.target == target && KeyOf(run) !in keys {
      SuiteOpened(runs, target, run);
      assert [] + [run] == [run];
      assert forall s :: 0 <= s < |keys| ==> keys[s] in keys;
      assert after[..|keys|] == before;
      assert after == after[..|keys|] + [after[|keys|]];
    }
    forall s | 0 <= s < |keys| && run.target == target && keys[s] == KeyOf(run)
      ensures after == before[s := Suite(before[s].id, before[s].runs + [run])]
    {
      assert keys[s] in keys;
    }
  }

  lemma NoneOnLane(runs: seq<Run>, target: Target, key: LaneKey)
    requires key !in KeysOf(runs, target)
    ensures Filter(runs, OnLane(target, key)) == []
  {
    hide KeyOf;
    KeysShape(runs, target);
    var on := Filter(runs, OnLane(target, key));
    FilterMember(runs, OnLane(target, key));
    FirstMember(on);
  }

  lemma FirstMember(runs: seq<Run>)
    ensures |runs| > 0 ==> runs[0] in runs
  {
  }

  lemma NoSuites(target: Target)
    ensures KeysOf([], target) == [] && SuitesOf([], target) == []
  {
  }

  // The grouping loop, with its map from lanes to suite positions.
  method GroupRuns(runs: seq<Run>, fixture: string, target: Target) returns (outcome: Outcome)
    ensures outcome.Refused? <==> exists run :: run in runs && run.target == target && run.fixture != fixture
    ensures outcome.Grouped? ==> outcome.suites == SuitesOf(runs, target)
  {
    hide KeyOf, SuiteID, Filter, SuitesOf, KeysOf;
    NoSuites(target);
    var suites: seq<Suite> := [];
    var byLane: map<LaneKey, nat> := map[];
    for i := 0 to |runs|
      invariant suites == SuitesOf(runs[..i], target)
      invariant forall key :: key in byLane <==> key in KeysOf(runs[..i], target)
      invariant forall key :: key in byLane ==> byLane[key] < |suites| && KeysOf(runs[..i], target)[byLane[key]] == key
      invariant forall run :: run in runs[..i] && run.target == target ==> run.fixture == fixture
    {
      var run := runs[i];
      assert runs[..i + 1] == runs[..i] + [run];
      SuitesNext(runs[..i], target, run);
      KeysNext(runs[..i], target, run);
      if run.target == target {
        if run.fixture != fixture {
          assert run in runs;
          return Refused;
        }
        var key := KeyOf(run);
        if key !in byLane {
          byLane := byLane[key := |suites|];
          suites := suites + [Suite(SuiteID(|suites| + 1), [])];
        }
        var index := byLane[key];
        suites := suites[index := Suite(suites[index].id, suites[index].runs + [run])];
      }
    }
    assert runs[..|runs|] == runs;
    return Grouped(suites);
  }

  method QueueTransitionSuites(plan: Plan, target: Target) returns (outcome: Outcome)
    ensures outcome.Grouped? ==> outcome.suites == SuitesOf(plan.runs, target)
    ensures outcome.Grouped? <==>
              && |plan.options.fixtures| == 1 && plan.options.repetitions >= 2
              && (forall run :: run in plan.runs && run.target == target ==> run.fixture == plan.options.fixtures[0])
              && (forall s :: 0 <= s < |SuitesOf(plan.runs, target)| ==>
                    |SuitesOf(plan.runs, target)[s].runs| == plan.options.repetitions)
    ensures ValidPlan(plan) && |plan.options.fixtures| == 1 && plan.options.repetitions >= 2 ==>
              outcome.Grouped?
  {
    hide ValidPlan, SuitesOf, KeyOf;
    if |plan.options.fixtures| != 1 || plan.options.repetitions < MINIMUM_COPIES {
      return Refused;
    }
    outcome := GroupRuns(plan.runs, plan.options.fixtures[0], target);
    if ValidPlan(plan) {
      TransitionAccepts(plan, target);
    }
    if outcome.Refused? {
      return;
    }
    for s := 0 to |outcome.suites|
      invariant forall h :: 0 <= h < s ==> |outcome.suites[h].runs| == plan.options.repetitions
    {
      if |outcome.suites[s].runs| != plan.options.repetitions {
        return Refused;
      }
    }
  }

  // --- Valid plans group into full suites -----------------------------------------------------------

  lemma TransitionAccepts(plan: Plan, target: Target)
    requires ValidPlan(plan) && |plan.options.fixtures| == 1
    ensures forall run :: run in plan.runs ==> run.fixture == plan.options.fixtures[0]
    ensures forall s :: 0 <= s < |SuitesOf(plan.runs, target)| ==>
              |SuitesOf(plan.runs, target)[s].runs| == plan.options.repetitions
  {
    hide KeyOf, RunOk, SuiteID;
    forall run | run in plan.runs
      ensures run.fixture == plan.options.fixtures[0]
    {
      var i :| 0 <= i < |plan.runs| && plan.runs[i] == run;
      assert Tuples(plan.runs)[i] in Tuples(plan.runs);
    }
    var keys := KeysOf(plan.runs, target);
    forall s | 0 <= s < |keys|
      ensures |Filter(plan.runs, OnLane(target, keys[s]))| == plan.options.repetitions
    {
      assert keys[s] in keys;
      KeysShape(plan.runs, target);
      var run :| run in plan.runs && run.target == target && KeyOf(run) == keys[s];
      LaneIsFull(plan, run);
    }
  }

  function Repetitions(runs: seq<Run>): (ks: seq<int>)
    ensures |ks| == |runs|
  {
    seq(|runs|, i requires 0 <= i < |runs| => runs[i].repetition)
  }

  lemma SameLaneSamePolicy(o: Options, x: Run, i: nat, y: Run, j: nat)
    requires RunOk(o, x, i) && RunOk(o, y, j)
    requires x.client == y.client && x.toolchain == y.toolchain && x.transport == y.transport
    ensures KeyOf(x) == KeyOf(y)
  {
    hide RunID;
  }

  // The runs of a lane are its repetitions, each once.
  lemma LaneIsFull(plan: Plan, run: Run)
    requires ValidPlan(plan) && |plan.options.fixtures| == 1 && run in plan.runs
    ensures |Filter(plan.runs, OnLane(run.target, KeyOf(run)))| == plan.options.repetitions
  {
    hide RunOk, Schedule;
    var o := plan.options;
    var on := Filter(plan.runs, OnLane(run.target, KeyOf(run)));
    FilterMember(plan.runs, OnLane(run.target, KeyOf(run)));
    RunsNoDup(plan);
    FilterNoDup(plan.runs, OnLane(run.target, KeyOf(run)));
    var ks := Repetitions(on);
    forall i, j | 0 <= i < j < |on|
      ensures ks[i] != ks[j]
    {
      assert on[i] in on && on[j] in on;
      LaneTupleFacts(plan, on[i]);
      LaneTupleFacts(plan, on[j]);
      if ks[i] == ks[j] {
        SameTupleSameRun(plan, on[i], on[j]);
      }
    }
    forall k: int
      ensures k in ks <==> k in Upto(o.repetitions)
    {
      if k in ks {
        var i :| 0 <= i < |ks| && ks[i] == k;
        assert on[i] in on;
        LaneTupleFacts(plan, on[i]);
        assert Upto(o.repetitions)[k - 1] == k;
      }
      if k in Upto(o.repetitions) {
        RepetitionRuns(plan, run, k, on);
      }
    }
    NoDupSize(ks);
    NoDupSize(Upto(o.repetitions));
    assert Elements(ks) == Elements(Upto(o.repetitions));
  }

  lemma LaneTupleFacts(plan: Plan, run: Run)
    requires ValidPlan(plan) && |plan.options.fixtures| == 1 && run in plan.runs
    ensures Planned(plan.options, TupleOf(run)) && run.fixture == plan.options.fixtures[0]
    ensures exists i :: 0 <= i < |plan.runs| && plan.runs[i] == run && RunOk(plan.options, run, i)
  {
    hide RunOk, Schedule;
    var i :| 0 <= i < |plan.runs| && plan.runs[i] == run;
    assert Tuples(plan.runs)[i] in Tuples(plan.runs);
  }

  lemma RunsNoDup(plan: Plan)
    requires ValidPlan(plan)
    ensures NoDup(plan.runs)
  {
    hide RunOk, Schedule, Planned;
    forall i, j | 0 <= i < j < |plan.runs|
      ensures plan.runs[i] != plan.runs[j]
    {
      assert Tuples(plan.runs)[i] != Tuples(plan.runs)[j];
    }
  }

  lemma SameTupleSameRun(plan: Plan, x: Run, y: Run)
    requires ValidPlan(plan) && x in plan.runs && y in plan.runs && TupleOf(x) == TupleOf(y)
    ensures x == y
  {
    hide RunOk, Schedule, Planned;
    var i :| 0 <= i < |plan.runs| && plan.runs[i] == x;
    var j :| 0 <= j < |plan.runs| && plan.runs[j] == y;
    assert Tuples(plan.runs)[i] == Tuples(plan.runs)[j];
  }

  lemma RepetitionRuns(plan: Plan, run: Run, k: int, on: seq<Run>)
    requires ValidPlan(plan) && |plan.options.fixtures| == 1 && run in plan.runs
    requires 1 <= k <= plan.options.repetitions
    requires forall x :: x in on <==> x in plan.runs && OnLane(run.target, KeyOf(run))(x)
    ensures k in Repetitions(on)
  {
    hide ValidPlan, KeyOf;
    var x := RepetitionRun(plan, run, k);
    assert x in on;
    var h :| 0 <= h < |on| && on[h] == x;
    assert Repetitions(on)[h] == k;
  }

  // The run of another repetition on the same lane.
  lemma RepetitionRun(plan: Plan, run: Run, k: int) returns (x: Run)
    requires ValidPlan(plan) && |plan.options.fixtures| == 1 && run in plan.runs
    requires 1 <= k <= plan.options.repetitions
    ensures x in plan.runs && x.repetition == k && x.target == run.target && KeyOf(x) == KeyOf(run)
  {
    hide RunOk, Schedule, KeyOf;
    LaneTupleFacts(plan, run);
    var t := TupleOf(run).(repetition := k);
    assert Planned(plan.options, t);
    var j :| 0 <= j < |Tuples(plan.runs)| && Tuples(plan.runs)[j] == t;
    x := plan.runs[j];
    var i :| 0 <= i < |plan.runs| && plan.runs[i] == run && RunOk(plan.options, run, i);
    assert RunOk(plan.options, x, j);
    SameLaneSamePolicy(plan.options, run, i, x, j);
  }

  lemma SuiteMembers(runs: seq<Run>, target: Target, s: nat, run: Run)
    requires s < |SuitesOf(runs, target)|
    ensures run in SuitesOf(runs, target)[s].runs <==>
            run in runs && run.target == target && KeyOf(run) == KeysOf(runs, target)[s]
  {
    hide KeyOf, SuiteID, Filter;
    FilterMember(runs, OnLane(target, KeysOf(runs, target)[s]));
  }

  // Every run of the target is in exactly one suite, and the suites contain nothing else.
  lemma SuitesPartition(runs: seq<Run>, target: Target, run: Run)
    ensures run in runs && run.target == target ==>
              exists s :: 0 <= s < |SuitesOf(runs, target)| && run in SuitesOf(runs, target)[s].runs
    ensures forall s, h :: 0 <= s < h < |SuitesOf(runs, target)| ==>
              !(run in SuitesOf(runs, target)[s].runs && run in SuitesOf(runs, target)[h].runs)
    ensures run !in runs || run.target != target ==>
              forall s :: 0 <= s < |SuitesOf(runs, target)| ==> run !in SuitesOf(runs, target)[s].runs
  {
    hide SuitesOf, KeyOf, KeysOf;
    KeysShape(runs, target);
    var keys := KeysOf(runs, target);
    forall s | 0 <= s < |keys|
      ensures run in SuitesOf(runs, target)[s].runs <==>
                run in runs && run.target == target && KeyOf(run) == keys[s]
    {
      SuiteMembers(runs, target, s, run);
    }
    if run in runs && run.target == target {
      assert KeyOf(run) in keys;
      var s :| 0 <= s < |keys| && keys[s] == KeyOf(run);
      assert run in SuitesOf(runs, target)[s].runs;
    }
  }

  // --- The suites of a plan ---------------------------------------------------------------------------------

  // Suites are numbered from 1, so no two have the same identifier.
  lemma SuitesNumbered(runs: seq<Run>, target: Target, s: nat, h: nat)
    requires s < |SuitesOf(runs, target)| && h < |SuitesOf(runs, target)|
    ensures var id := SuitesOf(runs, target)[s].id;
            id[..17] == "queue-transition-" && Text.Value(id[17..]) == s + 1
    ensures SuitesOf(runs, target)[s].id == SuitesOf(runs, target)[h].id <==> s == h
  {
    hide KeysOf, Filter, Padded4;
    SuiteIDReads(s + 1);
    SuiteIDReads(h + 1);
  }

  lemma SuiteIDReads(n: nat)
    ensures |SuiteID(n)| >= 17 && SuiteID(n)[..17] == "queue-transition-" && Text.Value(SuiteID(n)[17..]) == n
  {
    hide Padded4;
    PaddedValue(n);
    assert SuiteID(n)[17..] == Padded4(n);
  }

  lemma {:induction false} KeysPrefix(runs: seq<Run>, target: Target, k: nat)
    requires k <= |runs|
    ensures KeysOf(runs[..k], target) <= KeysOf(runs, target)
  {
    hide KeyOf;
    if k == |runs| {
      assert runs[..k] == runs;
    } else {
      KeysPrefix(runs[..|runs| - 1], target, k);
      assert runs[..|runs| - 1][..k] == runs[..k];
    }
  }

  // Suites are in the order in which their lanes first run: before any run of a later suite
  // there is one of each earlier suite.
  lemma SuitesInOrder(runs: seq<Run>, target: Target, s: nat, h: nat, j: nat) returns (i: nat)
    requires s < h < |SuitesOf(runs, target)| && j < |runs| && runs[j] in SuitesOf(runs, target)[h].runs
    ensures i < j && runs[i] in SuitesOf(runs, target)[s].runs
  {
    hide KeyOf, KeysOf, SuitesOf;
    var keys, less := KeysOf(runs, target), runs[..j + 1];
    SuiteMembers(runs, target, h, runs[j]);
    SuitesLength(runs, target, runs[j]);
    KeysShape(runs, target);
    KeysShape(less, target);
    KeysPrefix(runs, target, j + 1);
    assert less[j] == runs[j] && runs[j] in less;
    LaterKey(KeysOf(less, target), keys, s, h);
    var run :| run in less && run.target == target && KeyOf(run) == keys[s];
    i :| 0 <= i < |less| && less[i] == run;
    assert runs[i] == less[i];
    SuiteMembers(runs, target, s, runs[i]);
  }

  lemma LaterKey(less: seq<LaneKey>, keys: seq<LaneKey>, s: nat, h: nat)
    requires less <= keys && s < h < |keys| && NoDup(keys) && keys[h] in less
    ensures keys[s] in less && keys[s] != keys[h]
  {
    var k :| 0 <= k < |less| && less[k] == keys[h];
    assert keys[k] == keys[h];
    assert less[s] == keys[s];
  }

  // The runs of a suite are in plan order.
  lemma SuiteAscends(plan: Plan, target: Target, s: nat, i: nat, j: nat)
    requires ValidPlan(plan) && s < |SuitesOf(plan.runs, target)|
    requires i < j < |SuitesOf(plan.runs, target)[s].runs|
    ensures SuitesOf(plan.runs, target)[s].runs[i].order < SuitesOf(plan.runs, target)[s].runs[j].order
  {
    hide KeysOf, Filter;
    OrdersAscend(plan);
    FilterAscends(plan.runs, OnLane(target, KeysOf(plan.runs, target)[s]));
  }

  ghost predicate OrderAscends(runs: seq<Run>) {
    forall i, j :: 0 <= i < j < |runs| ==> runs[i].order < runs[j].order
  }

  lemma OrdersAscend(plan: Plan)
    requires ValidPlan(plan)
    ensures OrderAscends(plan.runs)
  {
    hide Planned, Schedule, PolicyOk;
  }

  lemma {:induction false} FilterAscends(runs: seq<Run>, p: Run -> bool)
    requires OrderAscends(runs)
    ensures OrderAscends(Filter(runs, p))
    ensures forall run :: run in Filter(runs, p) ==> run in runs
  {
    if |runs| != 0 {
      var n := |runs| - 1;
      FilterAscends(runs[..n], p);
      assert runs == runs[..n] + [runs[n]];
      forall run | run in runs[..n]
        ensures run.order < runs[n].order
      {
        var i :| 0 <= i < n && runs[..n][i] == run;
        assert runs[i] == run;
      }
    }
  }

  // --- Adapter results ------------------------------------------------------------------------------------

  // Whether the fields of a job other than its run pass ValidateFor's checks on timing,
  // status and resources is a fact about the job here, as is whether the result's header
  // fits the suite.
  datatype Job = Job(run: string, checked: bool)
  datatype AdapterResult = AdapterResult(fits: bool, jobs: seq<Job>)

  function RunIDs(runs: seq<Run>): (ids: seq<string>)
    ensures |ids| == |runs|
  {
    seq(|runs|, i requires 0 <= i < |runs| => runs[i].id)
  }

  function JobRuns(jobs: seq<Job>): (ids: seq<string>)
    ensures |ids| == |jobs|
  {
    seq(|jobs|, i requires 0 <= i < |jobs| => jobs[i].run)
  }

  // The jobs so far are checked, and each has taken a run of its own out of the expected set.
  ghost predicate Taken(jobs: seq<Job>, i: nat, all: set<string>, left: set<string>)
    requires i <= |jobs|
  {
    var ids := JobRuns(jobs)[..i];
    (forall j :: 0 <= j < i ==> jobs[j].checked) && NoDup(ids) && Elements(ids) <= all && left == all - Elements(ids)
  }

  lemma TakeNext(jobs: seq<Job>, i: nat, all: set<string>, left: set<string>)
    requires i < |jobs| && Taken(jobs, i, all, left)
    ensures jobs[i].checked && jobs[i].run in left ==> Taken(jobs, i + 1, all, left - {jobs[i].run})
    ensures !(jobs[i].checked && jobs[i].run in left) ==>
              !jobs[i].checked || !NoDup(JobRuns(jobs)) || Elements(JobRuns(jobs)) != all
  {
    var ids := JobRuns(jobs);
    assert ids[..i + 1] == ids[..i] + [ids[i]];
    NoDupSplit(ids[..i + 1]);
    assert ids[..i + 1][..i] == ids[..i];
    assert ids[i] in ids;
    if ids[i] in ids[..i] {
      var j :| 0 <= j < i && ids[..i][j] == ids[i];
      assert ids[j] == ids[i];
    }
  }

  // The loop over the jobs.
  method TakeJobs(jobs: seq<Job>, all: set<string>) returns (ok: bool)
    requires |jobs| == |all|
    ensures ok <==> (forall job :: job in jobs ==> job.checked) && NoDup(JobRuns(jobs)) && Elements(JobRuns(jobs)) == all
  {
    hide Taken, NoDup, Elements, JobRuns;
    var expected := all;
    TakeNone(jobs, all);
    for i := 0 to |jobs|
      invariant Taken(jobs, i, all, expected)
    {
      TakeNext(jobs, i, all, expected);
      if jobs[i].run !in expected || !jobs[i].checked {
        assert jobs[i] in jobs;
        return false;
      }
      expected := expected - {jobs[i].run};
    }
    TakeAll(jobs, all, expected);
    return expected == {};
  }

  lemma TakeNone(jobs: seq<Job>, all: set<string>)
    ensures Taken(jobs, 0, all, all)
  {
  }

  lemma TakeAll(jobs: seq<Job>, all: set<string>, left: set<string>)
    requires Taken(jobs, |jobs|, all, left) && |jobs| == |all|
    ensures left == {} && NoDup(JobRuns(jobs)) && Elements(JobRuns(jobs)) == all
    ensures forall job :: job in jobs ==> job.checked
  {
    var ids := JobRuns(jobs);
    assert ids[..|jobs|] == ids;
    NoDupSize(ids);
    SubsetSize(Elements(ids), all);
  }

  method ValidateFor(result: AdapterResult, suite: Suite) returns (ok: bool)
    ensures ok <==> result.fits && |suite.runs| > 0 && (forall job :: job in result.jobs ==> job.checked) &&
                    NoDup(JobRuns(result.jobs)) && Elements(JobRuns(result.jobs)) == Elements(RunIDs(suite.runs))
  {
    if !result.fits || |suite.runs| == 0 {
      return false;
    }
    var expected := ExpectedIDs(suite.runs);
    ghost var jobs := JobRuns(result.jobs);
    NoDupSize(jobs);
    if |result.jobs| != |expected| {
      return false;
    }
    ok := TakeJobs(result.jobs, expected);
  }

  method ExpectedIDs(runs: seq<Run>) returns (expected: set<string>)
    ensures expected == Elements(RunIDs(runs))
  {
    ghost var ids := RunIDs(runs);
    expected := {};
    for i := 0 to |runs|
      invariant expected == Elements(ids[..i])
    {
      assert ids[..i + 1] == ids[..i] + [ids[i]];
      expected := expected + {runs[i].id};
    }
    assert ids[..|ids|] == ids;
  }

  // For a suite of a valid plan, an accepted result has exactly one job for each run.
  lemma JobsPairWithRuns(plan: Plan, target: Target, s: nat, jobs: seq<Job>)
    requires ValidPlan(plan) && s < |SuitesOf(plan.runs, target)|
    requires NoDup(JobRuns(jobs)) && Elements(JobRuns(jobs)) == Elements(RunIDs(SuitesOf(plan.runs, target)[s].runs))
    ensures multiset(JobRuns(jobs)) == multiset(RunIDs(SuitesOf(plan.runs, target)[s].runs))
  {
    hide ValidPlan, SuitesOf;
    SuiteIDsNoDup(plan, target, s);
    NoDupMultiset(JobRuns(jobs));
    NoDupMultiset(RunIDs(SuitesOf(plan.runs, target)[s].runs));
  }

  lemma SuiteIDsNoDup(plan: Plan, target: Target, s: nat)
    requires ValidPlan(plan) && s < |SuitesOf(plan.runs, target)|
    ensures NoDup(RunIDs(SuitesOf(plan.runs, target)[s].runs))
  {
    var on := OnLane(target, KeysOf(plan.runs, target)[s]);
    var runs := SuitesOf(plan.runs, target)[s].runs;
    RunsNoDup(plan);
    FilterNoDup(plan.runs, on);
    FilterMember(plan.runs, on);
    assert runs == Filter(plan.runs, on);
    hide ValidPlan, SuitesOf, OnLane, Filter;
    forall i, j | 0 <= i < j < |runs|
      ensures RunIDs(runs)[i] != RunIDs(runs)[j]
    {
      assert runs[i] in runs && runs[j] in runs;
      DifferentIDs(plan, runs[i], runs[j]);
    }
  }

  lemma DifferentIDs(plan: Plan, x: Run, y: Run)
    requires ValidPlan(plan) && x in plan.runs && y in plan.runs && x != y
    ensures x.id != y.id
  {
    hide Planned, Schedule, RunID;
    var a :| 0 <= a < |plan.runs| && plan.runs[a] == x;
    var b :| 0 <= b < |plan.runs| && plan.runs[b] == y;
    if x.id == y.id {
      RunIDInjective(a + 1, b + 1);
    }
  }
}
