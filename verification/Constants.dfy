// The base constants of PAR2: powers of 2 whose exponents avoid the factors of 65535.
//
// There are exactly 32768 such exponents below 65535. The constants of parConstants are
// distinct exactly as long as no more than that many are asked for.
module Constants {
  import opened Arithmetic
  import opened GaloisField
  import opened FieldInverse
  import opened GroupOrder

  const MAX_SLICES: int := 32768

  predicate Allowed(e: nat) {
    e % 3 != 0 && e % 5 != 0 && e % 17 != 0 && e % 257 != 0
  }

  // --- The loop -----------------------------------------------------------------------------

  // The exponent is an unsigned 32-bit counter.
  function Succ(e: nat): nat {
    (e + 1) % WORD32
  }

  // How far the counter is from an exponent that is 1 modulo 65535, which is allowed.
  // WORD32 - 1 is a multiple of 65535, so wrapping around costs one more step.
  function Distance(e: nat): nat {
    2 * ((GROUP + 1 - e % GROUP) % GROUP) + if e == WORD32 - 1 then 1 else 0
  }

  lemma DistanceDecreases(e: nat)
    requires e < WORD32 && !Allowed(e)
    ensures Succ(e) < WORD32 && Distance(Succ(e)) < Distance(e)
  {
    AllowedAtOne(e);
  }

  lemma AllowedAtOne(e: nat)
    ensures e % GROUP == 1 ==> Allowed(e)
  {
    var d := e / GROUP;
    RemainderOf(3, 21845 * d, 1);
    RemainderOf(5, 13107 * d, 1);
    RemainderOf(17, 3855 * d, 1);
    RemainderOf(257, 255 * d, 1);
  }

  function ExponentsFrom(n: nat, e: nat): (exps: seq<nat>)
    requires e < WORD32
    ensures |exps| == n
    decreases n, Distance(e)
  {
    if n == 0 then []
    else if Allowed(e) then [e] + ExponentsFrom(n - 1, Succ(e))
    else DistanceDecreases(e); ExponentsFrom(n, Succ(e))
  }

  function Exponents(n: nat): (exps: seq<nat>)
    ensures |exps| == n
  {
    ExponentsFrom(n, 1)
  }

  function PowersOf2(exps: seq<nat>): (out: seq<Elem>)
    ensures |out| == |exps|
  {
    seq(|exps|, i requires 0 <= i < |exps| => Pow(2, exps[i]))
  }

  function ConstantsOf(n: nat): (out: seq<Elem>)
    ensures |out| == n
  {
    PowersOf2(Exponents(n))
  }

  method ParConstants(n: nat) returns (out: seq<Elem>)
    ensures out == ConstantsOf(n)
  {
    hide Pow, Allowed, ExponentsFrom, Distance;
    out := [];
    var exp: nat := 1;
    ghost var done: seq<nat> := [];
    while |out| < n
      invariant exp < WORD32 && |out| <= n && |done| == |out|
      invariant out == PowersOf2(done)
      invariant done + ExponentsFrom(n - |out|, exp) == Exponents(n)
      decreases n - |out|, Distance(exp)
    {
      ExponentStep(n - |out|, exp);
      if exp % 3 != 0 && exp % 5 != 0 && exp % 17 != 0 && exp % 257 != 0 {
        var power := GfPower(2, exp);
        assert PowersOf2(done + [exp]) == PowersOf2(done) + [power];
        out := out + [power];
        done := done + [exp];
      }
      exp := (exp + 1) % WORD32;
    }
    ExponentsEnd(exp);
    assert done == Exponents(n);
  }

  // One round of the loop, with room for n more exponents.
  lemma ExponentStep(n: nat, e: nat)
    requires n > 0 && e < WORD32
    ensures Allowed(e) <==> e % 3 != 0 && e % 5 != 0 && e % 17 != 0 && e % 257 != 0
    ensures Allowed(e) ==> ExponentsFrom(n, e) == [e] + ExponentsFrom(n - 1, Succ(e))
    ensures !Allowed(e) ==> ExponentsFrom(n, e) == ExponentsFrom(n, Succ(e)) && Distance(Succ(e)) < Distance(e)
  {
    if !Allowed(e) {
      DistanceDecreases(e);
    }
  }

  lemma ExponentsEnd(e: nat)
    requires e < WORD32
    ensures ExponentsFrom(0, e) == []
  {
  }

  // --- Counting exponents -----------------------------------------------------------------------

  // The number of x below n that satisfy p.
  ghost function CountIf(p: nat -> bool, n: nat): nat {
    if n == 0 then 0 else CountIf(p, n - 1) + if p(n - 1) then 1 else 0
  }

  lemma {:induction false} CountPeriod(p: nat -> bool, m: nat, n: nat)
    requires forall x: nat :: p(x + m) == p(x)
    ensures CountIf(p, m + n) == CountIf(p, m) + CountIf(p, n)
  {
    if n != 0 {
      CountPeriod(p, m, n - 1);
      assert p(n - 1 + m) == p(n - 1);
    }
  }

  lemma {:induction false} CountPeriods(p: nat -> bool, m: nat, k: nat, total: nat)
    requires forall x: nat :: p(x + m) == p(x)
    requires total == k * m
    ensures CountIf(p, total) == k * CountIf(p, m)
  {
    if k != 0 {
      Distribute(k, m);
      Distribute(k, CountIf(p, m));
      CountPeriods(p, m, k - 1, (k - 1) * m);
      CountPeriod(p, m, (k - 1) * m);
    }
  }

  // Dropping the multiples of q from p, when p cannot tell s from q * s. The block of q
  // numbers that starts at q * k loses exactly its first member, if that was in p.
  lemma {:induction false} CountBlock(p: nat -> bool, p': nat -> bool, q: nat, k: nat, start: nat, r: nat)
    requires 0 < r <= q && start == q * k
    requires forall x: nat :: p'(x) == (p(x) && x % q != 0)
    requires p(start) == p(k)
    ensures CountIf(p', start + r) - CountIf(p', start) + (if p(k) then 1 else 0) ==
            CountIf(p, start + r) - CountIf(p, start)
  {
    var x := start + r - 1;
    RemainderOf(q, k, r - 1);
    assert p'(x) == (p(x) && x % q != 0);
    if r > 1 {
      CountBlock(p, p', q, k, start, r - 1);
    }
  }

  lemma {:induction false} CountWithout(p: nat -> bool, p': nat -> bool, q: nat, k: nat)
    requires q > 0
    requires forall x: nat :: p'(x) == (p(x) && x % q != 0)
    requires forall s: nat :: p(q * s) == p(s)
    ensures CountIf(p', q * k) + CountIf(p, k) == CountIf(p, q * k)
  {
    if k != 0 {
      CountWithout(p, p', q, k - 1);
      assert p(q * (k - 1)) == p(k - 1);
      CountBlock(p, p', q, k - 1, q * (k - 1), q);
      assert q * k == q * (k - 1) + q;
    }
  }

  lemma Sieve(p: nat -> bool, p': nat -> bool, m: nat, q: nat)
    requires m > 0 && q > 0
    requires forall x: nat :: p(x + m) == p(x)
    requires forall x: nat :: p'(x) == (p(x) && x % q != 0)
    requires forall s: nat :: p(q * s) == p(s)
    ensures CountIf(p', q * m) == (q - 1) * CountIf(p, m)
  {
    CountWithout(p, p', q, m);
    CountPeriods(p, m, q, q * m);
    Distribute(q, CountIf(p, m));
  }

  predicate Avoids3(e: nat) {
    e % 3 != 0
  }

  predicate Avoids15(e: nat) {
    e % 3 != 0 && e % 5 != 0
  }

  predicate Avoids255(e: nat) {
    e % 3 != 0 && e % 5 != 0 && e % 17 != 0
  }

  lemma Periods(x: nat)
    ensures Avoids3(x + 3) == Avoids3(x)
    ensures Avoids15(x + 15) == Avoids15(x)
    ensures Avoids255(x + 255) == Avoids255(x)
  {
    Shifted(x, 3, 1);
    Shifted(x, 3, 5);
    Shifted(x, 5, 3);
    Shifted(x, 3, 85);
    Shifted(x, 5, 51);
    Shifted(x, 17, 15);
  }

  lemma ProductSum(p: nat, q: nat, k: nat)
    ensures p * (q + k) == p * q + p * k
  {
  }

  lemma Shifted(x: nat, p: nat, k: nat)
    requires p > 0
    ensures (x + p * k) % p == x % p
  {
    var q := x / p;
    assert x == p * q + x % p;
    ProductSum(p, q, k);
    RemainderOf(p, q + k, x % p);
  }

  lemma Scalings(x: nat)
    ensures Avoids3(5 * x) == Avoids3(x)
    ensures Avoids15(17 * x) == Avoids15(x)
    ensures Avoids255(257 * x) == Avoids255(x)
  {
    Scaled(5, 3, 2, 3, x);
    Scaled(17, 3, 2, 11, x);
    Scaled(17, 5, 3, 10, x);
    Scaled(257, 3, 2, 171, x);
    Scaled(257, 5, 3, 154, x);
    Scaled(257, 17, 9, 136, x);
  }

  lemma Refinements(x: nat)
    ensures Avoids15(x) == (Avoids3(x) && x % 5 != 0)
    ensures Avoids255(x) == (Avoids15(x) && x % 17 != 0)
    ensures Allowed(x) == (Avoids255(x) && x % 257 != 0)
  {
  }

  lemma CountThree()
    ensures CountIf(Avoids3, 3) == 2
  {
    assert CountIf(Avoids3, 1) == 0;
    assert CountIf(Avoids3, 2) == 1;
  }

  // Exactly 32768 exponents below 65535 are allowed.
  lemma CountAllowed()
    ensures CountIf(Allowed, GROUP) == MAX_SLICES
  {
    hide CountIf, Avoids3, Avoids15, Avoids255, Allowed;
    forall x: nat
      ensures Avoids3(x + 3) == Avoids3(x)
      ensures Avoids15(x + 15) == Avoids15(x)
      ensures Avoids255(x + 255) == Avoids255(x)
    {
      Periods(x);
    }
    forall x: nat
      ensures Avoids3(5 * x) == Avoids3(x)
      ensures Avoids15(17 * x) == Avoids15(x)
      ensures Avoids255(257 * x) == Avoids255(x)
    {
      Scalings(x);
    }
    forall x: nat
      ensures Avoids15(x) == (Avoids3(x) && x % 5 != 0)
      ensures Avoids255(x) == (Avoids15(x) && x % 17 != 0)
      ensures Allowed(x) == (Avoids255(x) && x % 257 != 0)
    {
      Refinements(x);
    }
    CountThree();
    Sieve(Avoids3, Avoids15, 3, 5);
    Sieve(Avoids15, Avoids255, 15, 17);
    Sieve(Avoids255, Allowed, 255, 257);
  }

  // --- The exponents are the allowed numbers, in order ------------------------------------------

  lemma GroupEnds()
    ensures !Allowed(GROUP) && Allowed(GROUP + 1)
  {
  }

  lemma CountAllowedUpTo(e: nat)
    requires GROUP <= e <= GROUP + 2
    ensures CountIf(Allowed, e) == MAX_SLICES + if e == GROUP + 2 then 1 else 0
  {
    hide Allowed;
    CountAllowed();
    GroupEnds();
  }

  lemma {:induction false} CountMonotone(p: nat -> bool, m: nat, n: nat)
    requires m <= n
    ensures CountIf(p, m) <= CountIf(p, n)
  {
    if m < n {
      CountMonotone(p, m, n - 1);
    }
  }

  // From exponent e on, with room left in the first round: each listed exponent is allowed
  // and its rank among the allowed numbers is its position, so none is skipped.
  lemma {:induction false} ExponentsRanked(n: nat, e: nat)
    requires 1 <= e <= GROUP + 2
    requires n + CountIf(Allowed, e) <= MAX_SLICES + 1
    ensures forall i :: 0 <= i < n ==>
              var x := ExponentsFrom(n, e)[i];
              Allowed(x) && e <= x <= GROUP + 1 && CountIf(Allowed, x) == CountIf(Allowed, e) + i
    decreases n, Distance(e)
  {
    hide Allowed, Distance, ExponentsFrom, CountIf;
    if n != 0 {
      if e == GROUP + 2 {
        CountAllowedUpTo(e);
      } else {
        ExponentsStep(n, e);
        CountStep(e);
        if Allowed(e) {
          ExponentsRanked(n - 1, e + 1);
        } else {
          DistanceDecreases(e);
          ExponentsRanked(n, e + 1);
        }
      }
    }
  }

  lemma ExponentsStep(n: nat, e: nat)
    requires n > 0 && e < GROUP + 2
    ensures Succ(e) == e + 1
    ensures ExponentsFrom(n, e) == if Allowed(e) then [e] + ExponentsFrom(n - 1, e + 1) else ExponentsFrom(n, e + 1)
  {
    hide Allowed, Distance;
  }

  lemma CountStep(e: nat)
    ensures CountIf(Allowed, e + 1) == CountIf(Allowed, e) + if Allowed(e) then 1 else 0
  {
    hide Allowed;
  }

  lemma CountZero()
    ensures CountIf(Allowed, 1) == 0
  {
    assert CountIf(Allowed, 0) == 0;
    assert !Allowed(0);
  }

  lemma ExponentsInOrder(n: nat)
    requires n <= MAX_SLICES
    ensures forall i :: 0 <= i < n ==>
              var x := Exponents(n)[i];
              Allowed(x) && 0 < x < GROUP && CountIf(Allowed, x) == i
  {
    hide Allowed;
    CountZero();
    ExponentsRanked(n, 1);
    CountAllowedUpTo(GROUP);
    CountAllowedUpTo(GROUP + 1);
    forall i | 0 <= i < n
      ensures Exponents(n)[i] < GROUP
    {
      var x := Exponents(n)[i];
      if x >= GROUP {
        CountMonotone(Allowed, GROUP, x);
      }
    }
  }

  predicate Distinct(s: seq<Elem>) {
    forall i, j :: 0 <= i < j < |s| ==> s[i] != s[j]
  }

  // Up to the 32768 slices that PAR2 supports the constants are non-zero and pairwise
  // distinct, and beyond that the first one comes back.
  lemma ConstantsDistinct(n: nat)
    ensures forall i :: 0 <= i < n ==> ConstantsOf(n)[i] != 0
    ensures Distinct(ConstantsOf(n)) <==> n <= MAX_SLICES
  {
    hide Pow, Allowed;
    var exps := Exponents(n);
    forall i | 0 <= i < n
      ensures ConstantsOf(n)[i] != 0
    {
      PowNonZero(2, exps[i]);
    }
    if n <= MAX_SLICES {
      ExponentsInOrder(n);
      forall i, j | 0 <= i < j < n
        ensures ConstantsOf(n)[i] != ConstantsOf(n)[j]
      {
        PowersOfTwo(exps[i], exps[j]);
        SmallRemainder(exps[i], GROUP);
        SmallRemainder(exps[j], GROUP);
      }
    } else {
      FirstComesBack(n);
    }
  }

  lemma SmallRemainder(e: nat, m: nat)
    requires e < m
    ensures e % m == e
  {
  }

  lemma {:induction false} ExponentsPrefix(m: nat, n: nat, e: nat)
    requires m <= n && e < WORD32
    ensures ExponentsFrom(n, e)[..m] == ExponentsFrom(m, e)
    decreases n, Distance(e)
  {
    hide Allowed;
    if m != 0 {
      if Allowed(e) {
        ExponentsPrefix(m - 1, n - 1, Succ(e));
      } else {
        DistanceDecreases(e);
        ExponentsPrefix(m, n, Succ(e));
      }
    }
  }

  lemma FirstRound()
    ensures Allowed(1) && Allowed(GROUP + 1) && CountIf(Allowed, GROUP + 1) == MAX_SLICES
  {
    hide CountIf;
    CountAllowedUpTo(GROUP + 1);
  }

  lemma FirstComesBack(n: nat)
    requires n > MAX_SLICES
    ensures ConstantsOf(n)[0] == ConstantsOf(n)[MAX_SLICES]
  {
    hide Pow, Allowed, CountIf;
    var m := MAX_SLICES + 1;
    var exps := Exponents(n);
    ExponentsPrefix(m, n, 1);
    assert exps[0] == exps[..m][0] && exps[m - 1] == exps[..m][m - 1];
    CountZero();
    ExponentsRanked(m, 1);
    FirstRound();
    RankDetermines(exps[0], 1);
    RankDetermines(exps[m - 1], GROUP + 1);
    PowersOfTwo(1, GROUP + 1);
  }

  lemma CountStrict(p: nat -> bool, x: nat, y: nat)
    requires p(x) && x < y
    ensures CountIf(p, x) < CountIf(p, y)
  {
    CountMonotone(p, x + 1, y);
  }

  lemma RankDetermines(x: nat, y: nat)
    requires Allowed(x) && Allowed(y)
    ensures CountIf(Allowed, x) == CountIf(Allowed, y) ==> x == y
  {
    if x < y {
      CountStrict(Allowed, x, y);
    } else if y < x {
      CountStrict(Allowed, y, x);
    }
  }
}
