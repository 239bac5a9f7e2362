// The groups of a class along each axis: cmd/nntpbench/subgroups.go.
module Subgroups {
  import opened SummaryFold
  import opened SummaryReport

  // The value of a fixture on an axis.
  function ValueOn(axis: Axis, c: Case): string {
    match axis
    case Whole => ""
    case Repair => if c.repairProfile != "" && c.repairProfile != "clean" then "repair_required" else "clean"
    case Encryption => if c.encryption == "" then "unspecified" else c.encryption
  }

  function SubgroupOf(facts: map<Fact, Value>, parent: Group, axis: Axis, id: int): Group {
    parent.(axis := axis, value := ValueOn(axis, CaseFor(facts, id)))
  }

  function ParentOf(g: Group): Group {
    g.(axis := Whole, value := "")
  }

  predicate Holds(roll: Roll, id: int) {
    id in roll.samples || id in roll.withheld
  }

  // The accounts to be divided are those of whole classes.
  predicate Classes(parents: map<Group, Roll>) {
    forall g :: g in parents ==> g == ParentOf(g)
  }

  // A fixture of a class, on an axis.
  datatype Place = Place(parent: Group, axis: Axis, id: int)

  ghost predicate InSubgroup(facts: map<Fact, Value>, done: set<Place>, g: Group, id: int) {
    Place(ParentOf(g), g.axis, id) in done && SubgroupOf(facts, ParentOf(g), g.axis, id) == g
  }

  ghost predicate SamplesDivided(
    facts: map<Fact, Value>, parents: map<Group, Roll>, done: set<Place>, result: map<Group, Roll>) {
    forall g, id ::
      && (id in RollOf(result, g).samples <==>
            InSubgroup(facts, done, g, id) && id in RollOf(parents, ParentOf(g)).samples)
      && (id in RollOf(result, g).samples && id in RollOf(parents, ParentOf(g)).samples ==>
            RollOf(result, g).samples[id] == RollOf(parents, ParentOf(g)).samples[id])
  }

  ghost predicate WithheldDivided(
    facts: map<Fact, Value>, parents: map<Group, Roll>, done: set<Place>, result: map<Group, Roll>) {
    forall g, id ::
      id in RollOf(result, g).withheld <==>
        InSubgroup(facts, done, g, id) && id !in RollOf(parents, ParentOf(g)).samples
  }

  // The groups so far hold the fixtures that were placed in them, as their classes hold them,
  // and none is empty.
  ghost predicate Divided(
    facts: map<Fact, Value>, parents: map<Group, Roll>, done: set<Place>, result: map<Group, Roll>) {
    && SamplesDivided(facts, parents, done, result)
    && WithheldDivided(facts, parents, done, result)
    && (forall g :: g in result ==> result[g].samples != map[] || result[g].withheld != {})
  }

  ghost predicate AllPlaced(parents: map<Group, Roll>, done: set<Place>) {
    forall p: Place :: p in done <==> p.axis != Whole && p.parent in parents && Holds(parents[p.parent], p.id)
  }

  ghost predicate IsSubgroups(facts: map<Fact, Value>, parents: map<Group, Roll>, result: map<Group, Roll>) {
    exists done :: AllPlaced(parents, done) && Divided(facts, parents, done, result)
  }

  function EntryOf(roll: Roll, id: int): Entry {
    if id in roll.samples then Pooled(roll.samples[id]) else Withheld
  }

  lemma InSubgroupNext(
    facts: map<Fact, Value>, done: set<Place>, parent: Group, axis: Axis, id: int, g: Group, other: int)
    requires parent == ParentOf(parent)
    ensures InSubgroup(facts, done + {Place(parent, axis, id)}, g, other) <==>
              InSubgroup(facts, done, g, other) || (g == SubgroupOf(facts, parent, axis, id) && other == id)
  {
  }

  lemma SamplesNext(
    facts: map<Fact, Value>, parents: map<Group, Roll>, done: set<Place>, result: map<Group, Roll>,
    parent: Group, axis: Axis, id: int)
    requires parent in parents && parent == ParentOf(parent) && SamplesDivided(facts, parents, done, result)
    ensures SamplesDivided(facts, parents, done + {Place(parent, axis, id)},
              Enrolled(result, SubgroupOf(facts, parent, axis, id), id, EntryOf(parents[parent], id)))
  {
    hide InSubgroup;
    var g := SubgroupOf(facts, parent, axis, id);
    assert ParentOf(g) == parent;
    forall h, other
      ensures InSubgroup(facts, done + {Place(parent, axis, id)}, h, other) <==>
                InSubgroup(facts, done, h, other) || (h == g && other == id)
    {
      InSubgroupNext(facts, done, parent, axis, id, h, other);
    }
  }

  lemma WithheldNext(
    facts: map<Fact, Value>, parents: map<Group, Roll>, done: set<Place>, result: map<Group, Roll>,
    parent: Group, axis: Axis, id: int)
    requires parent in parents && parent == ParentOf(parent) && WithheldDivided(facts, parents, done, result)
    ensures WithheldDivided(facts, parents, done + {Place(parent, axis, id)},
              Enrolled(result, SubgroupOf(facts, parent, axis, id), id, EntryOf(parents[parent], id)))
  {
    hide InSubgroup;
    var g := SubgroupOf(facts, parent, axis, id);
    assert ParentOf(g) == parent;
    forall h, other
      ensures InSubgroup(facts, done + {Place(parent, axis, id)}, h, other) <==>
                InSubgroup(facts, done, h, other) || (h == g && other == id)
    {
      InSubgroupNext(facts, done, parent, axis, id, h, other);
    }
  }

  lemma EnrolledHolds(rolls: map<Group, Roll>, g: Group, id: int, entry: Entry)
    requires forall h :: h in rolls ==> rolls[h].samples != map[] || rolls[h].withheld != {}
    ensures var after := Enrolled(rolls, g, id, entry);
            forall h :: h in after ==> after[h].samples != map[] || after[h].withheld != {}
  {
    var after := Enrolled(rolls, g, id, entry);
    assert id in after[g].samples || id in after[g].withheld;
  }

  // Placing one fixture of a class on one axis.
  lemma DividedNext(
    facts: map<Fact, Value>, parents: map<Group, Roll>, done: set<Place>, result: map<Group, Roll>,
    parent: Group, axis: Axis, id: int)
    requires parent in parents && parent == ParentOf(parent) && Divided(facts, parents, done, result)
    ensures Divided(facts, parents, done + {Place(parent, axis, id)},
              Enrolled(result, SubgroupOf(facts, parent, axis, id), id, EntryOf(parents[parent], id)))
  {
    hide SamplesDivided, WithheldDivided, Enrolled;
    SamplesNext(facts, parents, done, result, parent, axis, id);
    WithheldNext(facts, parents, done, result, parent, axis, id);
    EnrolledHolds(result, SubgroupOf(facts, parent, axis, id), id, EntryOf(parents[parent], id));
  }

  // A fixture that was not placed yet is not held, so the list of withheld fixtures of the
  // source, here a set, gets it once.
  lemma NotHeldYet(
    facts: map<Fact, Value>, parents: map<Group, Roll>, done: set<Place>, result: map<Group, Roll>,
    parent: Group, axis: Axis, id: int)
    requires parent == ParentOf(parent) && Divided(facts, parents, done, result) && Place(parent, axis, id) !in done
    ensures !Holds(RollOf(result, SubgroupOf(facts, parent, axis, id)), id)
  {
    var g := SubgroupOf(facts, parent, axis, id);
    assert ParentOf(g) == parent && !InSubgroup(facts, done, g, id);
  }

  // One fixture on both axes.
  method PlaceFixture(facts: map<Fact, Value>, parents: map<Group, Roll>, key: Group, id: int,
                      before: map<Group, Roll>, ghost done: set<Place>)
    returns (result: map<Group, Roll>)
    requires key in parents && key == ParentOf(key) && Divided(facts, parents, done, before)
    requires Place(key, Repair, id) !in done && Place(key, Encryption, id) !in done
    ensures Divided(facts, parents, done + {Place(key, Repair, id), Place(key, Encryption, id)}, result)
    ensures !Holds(RollOf(before, SubgroupOf(facts, key, Repair, id)), id)
    ensures !Holds(RollOf(before, SubgroupOf(facts, key, Encryption, id)), id)
  {
    hide Divided, Enrolled, Holds;
    var entry := EntryOf(parents[key], id);
    NotHeldYet(facts, parents, done, before, key, Repair, id);
    NotHeldYet(facts, parents, done, before, key, Encryption, id);
    DividedNext(facts, parents, done, before, key, Repair, id);
    result := Enrolled(before, SubgroupOf(facts, key, Repair, id), id, entry);
    DividedNext(facts, parents, done + {Place(key, Repair, id)}, result, key, Encryption, id);
    result := Enrolled(result, SubgroupOf(facts, key, Encryption, id), id, entry);
    assert done + {Place(key, Repair, id)} + {Place(key, Encryption, id)} ==
           done + {Place(key, Repair, id), Place(key, Encryption, id)};
  }

  lemma SomeId(s: set<int>)
    ensures s != {} ==> exists i :: i in s
  {
    if forall i :: i !in s {
      assert s == {};
    }
  }

  lemma SomeGroup(s: set<Group>)
    ensures s != {} ==> exists g :: g in s
  {
    if forall g :: g !in s {
      assert s == {};
    }
  }

  ghost predicate PlacedFrom(parents: map<Group, Roll>, keys: set<Group>, done: set<Place>) {
    forall p: Place ::
      p in done <==> p.axis != Whole && p.parent in keys && p.parent in parents && Holds(parents[p.parent], p.id)
  }

  ghost predicate PlacedIds(key: Group, ids: set<int>, done: set<Place>, more: set<Place>) {
    forall p: Place :: p in more <==> p in done || (p.axis != Whole && p.parent == key && p.id in ids)
  }

  // The fixtures of one class, in any order.
  method PlaceClass(facts: map<Fact, Value>, parents: map<Group, Roll>, key: Group, ids: set<int>,
                    before: map<Group, Roll>, ghost done: set<Place>)
    returns (result: map<Group, Roll>, ghost more: set<Place>)
    requires key in parents && key == ParentOf(key) && Divided(facts, parents, done, before)
    requires forall p: Place :: p in done ==> p.parent != key
    ensures Divided(facts, parents, more, result) && PlacedIds(key, ids, done, more)
  {
    hide Divided;
    result, more := before, done;
    var rest := ids;
    while rest != {}
      invariant rest <= ids
      invariant Divided(facts, parents, more, result) && PlacedIds(key, ids - rest, done, more)
      decreases rest
    {
      SomeId(rest);
      var id :| id in rest;
      result := PlaceFixture(facts, parents, key, id, result, more);
      PlacedOne(key, ids - rest, done, more, id);
      more := more + {Place(key, Repair, id), Place(key, Encryption, id)};
      assert ids - (rest - {id}) == ids - rest + {id};
      rest := rest - {id};
    }
    assert ids - rest == ids;
  }

  lemma PlacedOne(key: Group, ids: set<int>, done: set<Place>, more: set<Place>, id: int)
    requires PlacedIds(key, ids, done, more)
    ensures PlacedIds(key, ids + {id}, done, more + {Place(key, Repair, id), Place(key, Encryption, id)})
  {
    var now := more + {Place(key, Repair, id), Place(key, Encryption, id)};
    forall p: Place
      ensures p in now <==> p in done || (p.axis != Whole && p.parent == key && p.id in ids + {id})
    {
      assert p in more <==> p in done || (p.axis != Whole && p.parent == key && p.id in ids);
      assert p in now <==> p in more || p == Place(key, Repair, id) || p == Place(key, Encryption, id);
      assert p == Place(p.parent, p.axis, p.id);
    }
  }

  // The classes, in any order.
  method SubgroupAccounts(facts: map<Fact, Value>, parents: map<Group, Roll>) returns (result: map<Group, Roll>)
    requires Classes(parents)
    ensures IsSubgroups(facts, parents, result)
  {
    hide Divided;
    result := map[];
    ghost var done: set<Place> := {};
    NothingDivided(facts, parents);
    var rest := parents.Keys;
    while rest != {}
      invariant rest <= parents.Keys
      invariant Divided(facts, parents, done, result) && PlacedFrom(parents, parents.Keys - rest, done)
      decreases rest
    {
      SomeGroup(rest);
      var key :| key in rest;
      var roll := parents[key];
      ghost var more;
      result, more := PlaceClass(facts, parents, key, roll.samples.Keys + roll.withheld, result, done);
      ClassPlaced(parents, parents.Keys - rest, key, done, more);
      assert parents.Keys - (rest - {key}) == parents.Keys - rest + {key};
      done := more;
      rest := rest - {key};
    }
    assert parents.Keys - rest == parents.Keys;
    assert AllPlaced(parents, done);
  }

  lemma NothingDivided(facts: map<Fact, Value>, parents: map<Group, Roll>)
    ensures Divided(facts, parents, {}, map[])
  {
  }

  lemma ClassPlaced(parents: map<Group, Roll>, keys: set<Group>, key: Group, done: set<Place>, more: set<Place>)
    requires PlacedFrom(parents, keys, done) && key in parents
    requires PlacedIds(key, parents[key].samples.Keys + parents[key].withheld, done, more)
    ensures PlacedFrom(parents, keys + {key}, more)
  {
  }

  // --- What the division means ------------------------------------------------------------------------------

  // Along each axis every fixture of a class is in exactly one group, the one of its own
  // value, and each group holds its fixtures as the class does.
  lemma AxisPartitions(facts: map<Fact, Value>, parents: map<Group, Roll>, result: map<Group, Roll>,
                       parent: Group, axis: Axis, value: string, id: int)
    requires Classes(parents) && IsSubgroups(facts, parents, result)
    requires parent in parents && axis != Whole
    ensures var roll := RollOf(result, parent.(axis := axis, value := value));
            && (Holds(roll, id) <==> Holds(parents[parent], id) && value == ValueOn(axis, CaseFor(facts, id)))
            && (id in roll.samples <==>
                  id in parents[parent].samples && value == ValueOn(axis, CaseFor(facts, id)))
            && (id in roll.samples && id in parents[parent].samples ==>
                  roll.samples[id] == parents[parent].samples[id])
            && (id in roll.withheld ==> id in parents[parent].withheld)
  {
    var done :| AllPlaced(parents, done) && Divided(facts, parents, done, result);
    var g := parent.(axis := axis, value := value);
    assert ParentOf(g) == parent;
    assert InSubgroup(facts, done, g, id) <==>
           Holds(parents[parent], id) && value == ValueOn(axis, CaseFor(facts, id));
  }

  // Only groups of a class along an axis exist.
  lemma OnlyDivisions(facts: map<Fact, Value>, parents: map<Group, Roll>, result: map<Group, Roll>, g: Group)
    requires Classes(parents) && IsSubgroups(facts, parents, result) && g in result
    ensures g.axis != Whole && ParentOf(g) in parents
    ensures exists id :: Holds(result[g], id)
  {
    var done :| AllPlaced(parents, done) && Divided(facts, parents, done, result);
    if result[g].samples != map[] {
      SomeKey(result[g].samples);
      var id :| id in result[g].samples;
      assert id in RollOf(result, g).samples;
      assert Holds(result[g], id);
    } else {
      SomeId(result[g].withheld);
      var id :| id in result[g].withheld;
      assert id in RollOf(result, g).withheld;
      assert Holds(result[g], id);
    }
  }

  lemma SomeKey<V>(m: map<int, V>)
    ensures m != map[] ==> exists k :: k in m
  {
    if forall k :: k !in m {
      assert m == map[];
    }
  }

  // The division is determined by the classes: it does not depend on the order in which maps
  // are traversed.
  lemma DivisionUnique(facts: map<Fact, Value>, parents: map<Group, Roll>, x: map<Group, Roll>, y: map<Group, Roll>)
    requires IsSubgroups(facts, parents, x) && IsSubgroups(facts, parents, y)
    ensures x == y
  {
    var done :| AllPlaced(parents, done) && Divided(facts, parents, done, x);
    var more :| AllPlaced(parents, more) && Divided(facts, parents, more, y);
    SamePlaces(parents, done, more);
    forall g
      ensures RollOf(x, g) == RollOf(y, g)
    {
      SameRoll(facts, parents, done, x, y, g);
    }
    EmptyOutside(facts, parents, done, x, y);
    assert x.Keys == y.Keys;
    forall g | g in x
      ensures x[g] == y[g]
    {
      assert RollOf(x, g) == RollOf(y, g);
    }
  }

  lemma SamePlaces(parents: map<Group, Roll>, done: set<Place>, more: set<Place>)
    requires AllPlaced(parents, done) && AllPlaced(parents, more)
    ensures done == more
  {
  }

  lemma SameRoll(
    facts: map<Fact, Value>, parents: map<Group, Roll>, done: set<Place>, x: map<Group, Roll>, y: map<Group, Roll>,
    g: Group)
    requires Divided(facts, parents, done, x) && Divided(facts, parents, done, y)
    ensures RollOf(x, g) == RollOf(y, g)
  {
    hide InSubgroup;
    var a, b := RollOf(x, g), RollOf(y, g);
    var p := RollOf(parents, ParentOf(g));
    assert forall id :: id in a.samples <==> id in b.samples;
    assert forall id :: id in a.samples ==> id in p.samples && a.samples[id] == p.samples[id] == b.samples[id];
    assert a.samples == b.samples;
    assert forall id :: id in a.withheld <==> id in b.withheld;
    assert a.withheld == b.withheld;
  }

  lemma EmptyOutside(
    facts: map<Fact, Value>, parents: map<Group, Roll>, done: set<Place>, x: map<Group, Roll>, y: map<Group, Roll>)
    requires Divided(facts, parents, done, x) && Divided(facts, parents, done, y)
    requires forall g :: RollOf(x, g) == RollOf(y, g)
    ensures forall g :: g in x <==> g in y
  {
    hide SamplesDivided, WithheldDivided;
    forall g
      ensures g in x <==> g in y
    {
      assert RollOf(x, g) == RollOf(y, g);
    }
  }
}
