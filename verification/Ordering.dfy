// Sorting. The keys of a map come in any order and are sorted by an injective rank, so their
// list depends on the keys alone; lists with repetitions are sorted by a total order.
module Ordering {

  ghost predicate Injective<T(!new)>(rank: T -> int) {
    forall x, y :: rank(x) == rank(y) ==> x == y
  }

  predicate Rising<T>(s: seq<T>, rank: T -> int) {
    forall i, j :: 0 <= i < j < |s| ==> rank(s[i]) < rank(s[j])
  }

  ghost predicate Lists<T(!new)>(s: seq<T>, keys: set<T>, rank: T -> int) {
    Rising(s, rank) && forall k :: k in s <==> k in keys
  }

  lemma HasMember<T(!new)>(keys: set<T>)
    ensures keys != {} ==> exists k :: k in keys
  {
    if forall k :: k !in keys {
      assert keys == {};
    }
  }

  ghost predicate IsLargest<T(!new)>(keys: set<T>, rank: T -> int, k: T) {
    k in keys && forall x :: x in keys ==> rank(x) <= rank(k)
  }

  lemma LargerOfTwo<T(!new)>(keys: set<T>, rank: T -> int, k: T, l: T)
    requires k in keys && IsLargest(keys - {k}, rank, l)
    ensures IsLargest(keys, rank, if rank(l) <= rank(k) then k else l)
  {
    assert forall x :: x in keys ==> x == k || x in keys - {k};
  }

  lemma {:induction false} HasLargest<T(!new)>(keys: set<T>, rank: T -> int)
    requires keys != {}
    ensures exists k :: IsLargest(keys, rank, k)
    decreases |keys|
  {
    HasMember(keys);
    var k :| k in keys;
    var rest := keys - {k};
    if rest == {} {
      assert forall x :: x in keys ==> x == k || x in rest;
      assert IsLargest(keys, rank, k);
    } else {
      HasLargest(rest, rank);
      var l :| IsLargest(rest, rank, l);
      LargerOfTwo(keys, rank, k, l);
    }
  }

  ghost function Largest<T(!new)>(keys: set<T>, rank: T -> int): (k: T)
    requires keys != {}
    ensures IsLargest(keys, rank, k)
  {
    HasLargest(keys, rank);
    var k :| IsLargest(keys, rank, k);
    k
  }

  lemma ListsAppend<T(!new)>(s: seq<T>, keys: set<T>, rank: T -> int, k: T)
    requires Injective(rank) && IsLargest(keys, rank, k) && Lists(s, keys - {k}, rank)
    ensures Lists(s + [k], keys, rank)
  {
    var r := s + [k];
    assert forall x :: x in r <==> x in s || x == k;
    forall i, j | 0 <= i < j < |r|
      ensures rank(r[i]) < rank(r[j])
    {
      assert s[i] in s && s[i] != k;
    }
  }

  // The keys in order.
  ghost function Sorted<T(!new)>(keys: set<T>, rank: T -> int): (s: seq<T>)
    requires Injective(rank)
    ensures |s| == |keys| && Lists(s, keys, rank)
    decreases |keys|
  {
    if keys == {} then []
    else
      var k := Largest(keys, rank);
      var s := Sorted(keys - {k}, rank);
      ListsAppend(s, keys, rank, k);
      s + [k]
  }

  lemma ListsEmpty<T(!new)>(s: seq<T>, keys: set<T>, rank: T -> int)
    requires Lists(s, keys, rank)
    ensures |s| == 0 <==> keys == {}
  {
    if |s| != 0 {
      assert s[0] in s;
    }
    if keys != {} {
      HasMember(keys);
      var k :| k in keys;
      assert k in s;
    }
  }

  lemma ListsInit<T(!new)>(s: seq<T>, keys: set<T>, rank: T -> int)
    requires |s| > 0 && Lists(s, keys, rank)
    ensures Lists(s[..|s| - 1], keys - {s[|s| - 1]}, rank)
    ensures s[|s| - 1] in keys && forall x :: x in keys ==> rank(x) <= rank(s[|s| - 1])
  {
    var a := |s| - 1;
    assert s == s[..a] + [s[a]];
    assert s[a] in s;
    forall x | x in keys
      ensures rank(x) <= rank(s[a])
    {
      assert x in s;
    }
  }

  // There is one list of the keys in order.
  lemma {:induction false} ListsUnique<T(!new)>(s: seq<T>, t: seq<T>, keys: set<T>, rank: T -> int)
    requires Injective(rank) && Lists(s, keys, rank) && Lists(t, keys, rank)
    ensures s == t
    decreases |s|
  {
    ListsEmpty(s, keys, rank);
    ListsEmpty(t, keys, rank);
    if |s| != 0 {
      var a, b := |s| - 1, |t| - 1;
      ListsInit(s, keys, rank);
      ListsInit(t, keys, rank);
      hide Rising;
      assert rank(s[a]) == rank(t[b]);
      ListsUnique(s[..a], t[..b], keys - {s[a]}, rank);
      assert s == s[..a] + [s[a]] && t == t[..b] + [t[b]];
    }
  }

  lemma InsertedMembers<T>(s: seq<T>, f: T, i: nat)
    requires i <= |s|
    ensures forall g :: g in s[..i] + [f] + s[i..] <==> g in s || g == f
  {
    assert s == s[..i] + s[i..];
  }

  lemma InsertedRising<T>(s: seq<T>, rank: T -> int, f: T, i: nat)
    requires Rising(s, rank) && i <= |s|
    requires forall k :: 0 <= k < i ==> rank(s[k]) < rank(f)
    requires i < |s| ==> rank(s[i]) > rank(f)
    ensures Rising(s[..i] + [f] + s[i..], rank)
  {
    var r := s[..i] + [f] + s[i..];
    forall j, k | 0 <= j < k < |r|
      ensures rank(r[j]) < rank(r[k])
    {
      assert r[j] == if j < i then s[j] else if j == i then f else s[j - 1];
      assert r[k] == if k < i then s[k] else if k == i then f else s[k - 1];
    }
  }

  lemma InsertedKey<T(!new)>(s: seq<T>, keys: set<T>, rank: T -> int, f: T, i: nat)
    requires Injective(rank) && Lists(s, keys, rank) && f !in keys && i <= |s|
    requires forall k :: 0 <= k < i ==> rank(s[k]) < rank(f)
    requires i < |s| ==> rank(s[i]) >= rank(f)
    ensures Lists(s[..i] + [f] + s[i..], keys + {f}, rank)
  {
    hide Rising;
    if i < |s| {
      assert s[i] in s;
    }
    InsertedMembers(s, f, i);
    InsertedRising(s, rank, f, i);
  }

  method SortKeys<T(==, !new)>(keys: set<T>, rank: T -> int) returns (s: seq<T>)
    requires Injective(rank)
    ensures s == Sorted(keys, rank) && Lists(s, keys, rank)
  {
    s := [];
    var rest := keys;
    while rest != {}
      invariant rest <= keys && Lists(s, keys - rest, rank)
      decreases rest
    {
      HasMember(rest);
      var f :| f in rest;
      var i := 0;
      while i < |s| && rank(s[i]) < rank(f)
        invariant 0 <= i <= |s|
        invariant forall k :: 0 <= k < i ==> rank(s[k]) < rank(f)
      {
        i := i + 1;
      }
      InsertedKey(s, keys - rest, rank, f, i);
      assert keys - (rest - {f}) == keys - rest + {f};
      s, rest := s[..i] + [f] + s[i..], rest - {f};
    }
    assert keys - rest == keys;
    ListsUnique(s, Sorted(keys, rank), keys, rank);
  }

  // --- Lists with repetitions ---------------------------------------------------------------------------------

  // Sorting is by insertion here; AscendingUnique says that the algorithm does not matter when
  // no two elements rank alike.
  predicate AscendingBy<T>(s: seq<T>, below: (T, T) -> bool) {
    forall i, j :: 0 <= i < j < |s| ==> below(s[i], s[j])
  }

  ghost predicate Antisymmetric<T(!new)>(below: (T, T) -> bool) {
    forall x, y :: below(x, y) && below(y, x) ==> x == y
  }

  ghost predicate TotalOrder<T(!new)>(below: (T, T) -> bool) {
    && (forall x, y :: below(x, y) || below(y, x))
    && (forall x, y, z :: below(x, y) && below(y, z) ==> below(x, z))
  }

  function InsertBy<T>(x: T, s: seq<T>, below: (T, T) -> bool): (r: seq<T>)
    ensures |r| == |s| + 1
  {
    if |s| == 0 || below(x, s[0]) then [x] + s else [s[0]] + InsertBy(x, s[1..], below)
  }

  // The elements in ascending order.
  function SortBy<T>(s: seq<T>, below: (T, T) -> bool): (r: seq<T>)
    ensures |r| == |s|
  {
    if |s| == 0 then [] else InsertBy(s[0], SortBy(s[1..], below), below)
  }

  lemma AscendingFirst<T(!new)>(x: T, s: seq<T>, below: (T, T) -> bool)
    requires AscendingBy(s, below) && forall i :: 0 <= i < |s| ==> below(x, s[i])
    ensures AscendingBy([x] + s, below) && multiset([x] + s) == multiset{x} + multiset(s)
  {
  }

  lemma AscendingTail<T(!new)>(s: seq<T>, below: (T, T) -> bool)
    requires |s| > 0 && TotalOrder(below) && AscendingBy(s, below)
    ensures AscendingBy(s[1..], below) && multiset(s) == multiset{s[0]} + multiset(s[1..])
    ensures forall x, i :: 0 <= i < |s| && below(x, s[0]) ==> below(x, s[i])
  {
    assert s == [s[0]] + s[1..];
    forall x, i | 0 <= i < |s| && below(x, s[0])
      ensures below(x, s[i])
    {
      if i > 0 {
        assert below(s[0], s[i]);
      }
    }
  }

  lemma HeadBelow<T(!new)>(s: seq<T>, x: T, r: seq<T>, below: (T, T) -> bool)
    requires |s| > 0 && AscendingBy(s, below) && below(s[0], x) && multiset(r) == multiset{x} + multiset(s[1..])
    ensures forall i :: 0 <= i < |r| ==> below(s[0], r[i])
  {
    forall i | 0 <= i < |r|
      ensures below(s[0], r[i])
    {
      assert r[i] in multiset(r);
      if r[i] != x {
        assert r[i] in s[1..];
      }
    }
  }

  lemma {:induction false} InsertByAscending<T(!new)>(x: T, s: seq<T>, below: (T, T) -> bool)
    requires TotalOrder(below) && AscendingBy(s, below)
    ensures AscendingBy(InsertBy(x, s, below), below)
    ensures multiset(InsertBy(x, s, below)) == multiset{x} + multiset(s)
  {
    hide AscendingBy;
    if |s| == 0 {
      AscendingFirst(x, s, below);
    } else {
      AscendingTail(s, below);
      if below(x, s[0]) {
        AscendingFirst(x, s, below);
      } else {
        var r := InsertBy(x, s[1..], below);
        InsertByAscending(x, s[1..], below);
        HeadBelow(s, x, r, below);
        AscendingFirst(s[0], r, below);
        assert multiset{s[0]} + (multiset{x} + multiset(s[1..])) == multiset{x} + (multiset{s[0]} + multiset(s[1..]));
      }
    }
  }

  lemma {:induction false} SortByAscending<T(!new)>(s: seq<T>, below: (T, T) -> bool)
    requires TotalOrder(below)
    ensures AscendingBy(SortBy(s, below), below) && multiset(SortBy(s, below)) == multiset(s)
  {
    hide TotalOrder;
    if |s| != 0 {
      SortByAscending(s[1..], below);
      InsertByAscending(s[0], SortBy(s[1..], below), below);
      assert s == [s[0]] + s[1..];
    }
  }

  lemma LastLargest<T>(s: seq<T>, t: seq<T>, below: (T, T) -> bool)
    requires |s| > 0 && AscendingBy(t, below) && multiset(s) == multiset(t)
    ensures |t| == |s|
    ensures s[|s| - 1] == t[|t| - 1] || below(s[|s| - 1], t[|t| - 1])
  {
    assert |t| == |multiset(t)| == |s|;
    assert s[|s| - 1] in multiset(t);
    var i :| 0 <= i < |t| && t[i] == s[|s| - 1];
  }

  lemma SameLast<T(!new)>(s: seq<T>, t: seq<T>, below: (T, T) -> bool)
    requires |s| > 0 && Antisymmetric(below)
    requires AscendingBy(s, below) && AscendingBy(t, below) && multiset(s) == multiset(t)
    ensures |t| == |s| && s[|s| - 1] == t[|t| - 1]
  {
    hide AscendingBy;
    LastLargest(s, t, below);
    LastLargest(t, s, below);
  }

  lemma InitMultiset<T>(s: seq<T>)
    requires |s| > 0
    ensures multiset(s[..|s| - 1]) == multiset(s) - multiset{s[|s| - 1]}
  {
    assert s == s[..|s| - 1] + [s[|s| - 1]];
  }

  lemma AscendingInit<T>(s: seq<T>, below: (T, T) -> bool)
    requires |s| > 0 && AscendingBy(s, below)
    ensures AscendingBy(s[..|s| - 1], below)
  {
  }

  lemma SameSize<T>(s: seq<T>, t: seq<T>)
    requires multiset(s) == multiset(t)
    ensures |s| == |t|
  {
    assert |s| == |multiset(s)| == |multiset(t)| == |t|;
  }

  // There is one ascending list of given elements.
  lemma {:induction false} AscendingUnique<T(!new)>(s: seq<T>, t: seq<T>, below: (T, T) -> bool)
    requires Antisymmetric(below) && AscendingBy(s, below) && AscendingBy(t, below) && multiset(s) == multiset(t)
    ensures s == t
  {
    hide AscendingBy, Antisymmetric;
    SameSize(s, t);
    if |s| != 0 {
      SameLast(s, t, below);
      var n := |s| - 1;
      InitMultiset(s);
      InitMultiset(t);
      AscendingInit(s, below);
      AscendingInit(t, below);
      AscendingUnique(s[..n], t[..n], below);
      assert s == s[..n] + [s[n]] && t == t[..n] + [t[n]];
    }
  }

  // Integers ranked by themselves.
  function Identity(): int -> int {
    (x: int) => x
  }

  lemma IdentityInjective()
    ensures Injective(Identity())
  {
  }
}
