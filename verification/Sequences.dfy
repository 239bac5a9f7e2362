// Lists without repetition, their sets of elements, and the list operations the schedule is
// described with.
module Sequences {

  ghost predicate NoDup<T(!new)>(s: seq<T>) {
    forall i, j :: 0 <= i < j < |s| ==> s[i] != s[j]
  }

  ghost function Elements<T(!new)>(s: seq<T>): set<T> {
    set x | x in s
  }

  lemma NoDupSplit<T(!new)>(s: seq<T>)
    requires |s| > 0
    ensures NoDup(s) <==> NoDup(s[..|s| - 1]) && s[|s| - 1] !in s[..|s| - 1]
    ensures Elements(s) == Elements(s[..|s| - 1]) + {s[|s| - 1]}
  {
    var n := |s| - 1;
    assert s == s[..n] + [s[n]];
    if s[n] in s[..n] {
      var k :| 0 <= k < n && s[..n][k] == s[n];
      assert s[k] == s[n];
    }
  }

  lemma {:induction false} NoDupSize<T(!new)>(s: seq<T>)
    ensures |Elements(s)| <= |s|
    ensures NoDup(s) <==> |Elements(s)| == |s|
  {
    if |s| == 0 {
      assert Elements(s) == {};
    } else {
      hide NoDup;
      NoDupSplit(s);
      NoDupSize(s[..|s| - 1]);
    }
  }

  lemma {:induction false} SubsetSize<T>(a: set<T>, b: set<T>)
    requires a <= b
    ensures |a| <= |b|
    ensures |a| == |b| ==> a == b
  {
    ProperSubsetSize(a, b);
    forall x | x in b && x !in a
      ensures |a| < |b|
    {
      ProperSubsetSize(a, b - {x});
    }
    if |a| == |b| {
      assert forall x :: x in b ==> x in a;
    }
  }

  lemma {:induction false} ProperSubsetSize<T>(a: set<T>, b: set<T>)
    requires a <= b
    ensures |a| <= |b|
    decreases a
  {
    if a != {} {
      var x :| x in a;
      ProperSubsetSize(a - {x}, b - {x});
    }
  }

  // Two lists without repetition and with the same elements are rearrangements.
  lemma {:induction false} NoDupMultiset<T(!new)>(s: seq<T>)
    requires NoDup(s)
    ensures multiset(s) == multiset(Elements(s))
  {
    if |s| == 0 {
      assert Elements(s) == {};
    } else {
      var n := |s| - 1;
      NoDupMultiset(s[..n]);
      assert s == s[..n] + [s[n]];
      assert Elements(s) == Elements(s[..n]) + {s[n]};
      assert s[n] !in Elements(s[..n]);
    }
  }

  lemma MultisetElements<T(!new)>(s: seq<T>, t: seq<T>)
    requires multiset(s) == multiset(t)
    ensures Elements(s) == Elements(t) && |s| == |t|
    ensures forall x :: x in s <==> x in t
    ensures NoDup(s) <==> NoDup(t)
  {
    assert |s| == |multiset(s)| && |t| == |multiset(t)|;
    forall x
      ensures x in s <==> x in t
    {
      assert x in s <==> x in multiset(s);
      assert x in t <==> x in multiset(t);
    }
    NoDupSize(s);
    NoDupSize(t);
  }

  // --- Concatenated images ------------------------------------------------------------------------

  function FlatMap<A, B>(s: seq<A>, f: A -> seq<B>): seq<B> {
    if |s| == 0 then [] else FlatMap(s[..|s| - 1], f) + f(s[|s| - 1])
  }

  lemma FlatMapNext<A, B>(s: seq<A>, i: nat, f: A -> seq<B>)
    requires i < |s|
    ensures FlatMap(s[..i + 1], f) == FlatMap(s[..i], f) + f(s[i])
  {
    assert s[..i + 1][..i] == s[..i];
  }

  lemma {:induction false} FlatMapAppend<A, B>(s: seq<A>, t: seq<A>, f: A -> seq<B>)
    ensures FlatMap(s + t, f) == FlatMap(s, f) + FlatMap(t, f)
  {
    if |t| == 0 {
      assert s + t == s;
    } else {
      var n := |t| - 1;
      assert (s + t)[..|s + t| - 1] == s + t[..n];
      FlatMapAppend(s, t[..n], f);
    }
  }

  lemma {:induction false} FlatMapMember<A(!new), B>(s: seq<A>, f: A -> seq<B>, x: B)
    ensures x in FlatMap(s, f) <==> exists a :: a in s && x in f(a)
  {
    if |s| != 0 {
      var n := |s| - 1;
      FlatMapMember(s[..n], f, x);
      assert s == s[..n] + [s[n]];
    }
  }

  lemma {:induction false} FlatMapNoDup<A(!new), B(!new)>(s: seq<A>, f: A -> seq<B>)
    requires NoDup(s)
    requires forall a :: a in s ==> NoDup(f(a))
    requires forall a, b, x :: a in s && b in s && x in f(a) && x in f(b) ==> a == b
    ensures NoDup(FlatMap(s, f))
  {
    if |s| != 0 {
      var n := |s| - 1;
      FlatMapNoDup(s[..n], f);
      var front, last := FlatMap(s[..n], f), f(s[n]);
      forall i, j | 0 <= i < |front| && 0 <= j < |last|
        ensures front[i] != last[j]
      {
        FlatMapMember(s[..n], f, front[i]);
      }
    }
  }

  // Images that belong to different owners have nothing in common.
  lemma FlatMapApart<A(!new), B(!new)>(s: seq<A>, f: A -> seq<B>, owner: B -> A)
    requires NoDup(s) && (forall a :: NoDup(f(a))) && forall a, x :: x in f(a) ==> owner(x) == a
    ensures NoDup(FlatMap(s, f))
  {
    hide NoDup;
    forall a, b, x | x in f(a) && x in f(b)
      ensures a == b
    {
      assert owner(x) == a && owner(x) == b;
    }
    FlatMapNoDup(s, f);
  }

  lemma {:induction false} FlatMapLength<A(!new), B>(s: seq<A>, f: A -> seq<B>, n: nat)
    requires forall a :: a in s ==> |f(a)| == n
    ensures |FlatMap(s, f)| == |s| * n
  {
    if |s| != 0 {
      var k := |s| - 1;
      FlatMapLength(s[..k], f, n);
      assert |s| * n == k * n + n;
    }
  }

  // --- Reversal ---------------------------------------------------------------------------------------

  function Reverse<T>(s: seq<T>): (r: seq<T>)
    ensures |r| == |s|
    ensures forall i :: 0 <= i < |s| ==> r[i] == s[|s| - 1 - i]
  {
    if |s| == 0 then [] else Reverse(s[1..]) + [s[0]]
  }

  lemma {:induction false} ReverseMultiset<T>(s: seq<T>)
    ensures multiset(Reverse(s)) == multiset(s)
  {
    if |s| != 0 {
      ReverseMultiset(s[1..]);
      assert s == [s[0]] + s[1..];
    }
  }

  // --- Filtering ---------------------------------------------------------------------------------------

  function Filter<T>(s: seq<T>, p: T -> bool): seq<T> {
    if |s| == 0 then []
    else Filter(s[..|s| - 1], p) + if p(s[|s| - 1]) then [s[|s| - 1]] else []
  }

  lemma {:induction false} FilterAppend<T>(s: seq<T>, t: seq<T>, p: T -> bool)
    ensures Filter(s + t, p) == Filter(s, p) + Filter(t, p)
  {
    if |t| == 0 {
      assert s + t == s;
    } else {
      var n := |t| - 1;
      assert (s + t)[..|s + t| - 1] == s + t[..n];
      FilterAppend(s, t[..n], p);
    }
  }

  lemma {:induction false} FilterMember<T(!new)>(s: seq<T>, p: T -> bool)
    ensures forall x :: x in Filter(s, p) <==> x in s && p(x)
  {
    if |s| != 0 {
      var n := |s| - 1;
      FilterMember(s[..n], p);
      assert s == s[..n] + [s[n]];
    }
  }

  lemma {:induction false} FilterNoDup<T(!new)>(s: seq<T>, p: T -> bool)
    requires NoDup(s)
    ensures NoDup(Filter(s, p))
  {
    if |s| != 0 {
      var n := |s| - 1;
      FilterNoDup(s[..n], p);
      FilterMember(s[..n], p);
    }
  }

  lemma {:induction false} FilterReverse<T>(s: seq<T>, p: T -> bool)
    ensures Filter(Reverse(s), p) == Reverse(Filter(s, p))
  {
    if |s| != 0 {
      var head, tail := [s[0]], s[1..];
      FilterReverse(tail, p);
      FilterAppend(Reverse(tail), head, p);
      FilterAppend(head, tail, p);
      assert s == head + tail;
      assert head[..0] == [];
      assert Filter(head, p) == if p(s[0]) then head else [];
      if !p(s[0]) {
        assert Filter(s, p) == Filter(tail, p);
      } else {
        assert Filter(s, p)[1..] == Filter(tail, p);
      }
    }
  }
}
