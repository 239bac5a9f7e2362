// 2 generates the multiplicative group of the PAR2 field: its powers repeat with period
// exactly 65535 = 3 * 5 * 17 * 257.
module GroupOrder {
  import opened Arithmetic
  import opened GaloisField
  import opened FieldInverse

  // --- The four maximal proper powers of 2 are not 1 ----------------------------------------

  lemma PowSeventeen(a: Elem)
    ensures Pow(a, 17) == Mul(a, Frobenius(a, 4))
  {
    hide Pow, Mul, Frobenius;
    FrobeniusPow(a, 4);
    assert PowerOf(2, 4) == 16;
    PowStep(a, 16);
  }

  lemma Pow257(a: Elem)
    ensures Pow(a, 257) == Mul(a, Frobenius(a, 8))
  {
    hide Pow, Mul, Frobenius;
    FrobeniusPow(a, 8);
    assert PowerOf(2, 8) == 256;
    PowStep(a, 256);
  }

  lemma SmallPowers()
    ensures Pow(2, 3) == 0x8 && Pow(2, 5) == 0x20 && Pow(2, 15) == 0x8000
  {
    hide Mul, Pow;
    PowZero(2);
    Pow4(2, 2, 4, 8, 16, 0);
    Pow4(16, 32, 64, 128, 256, 4);
    Pow4(256, 512, 1024, 2048, 4096, 8);
    Pow4(4096, 8192, 16384, 32768, 0x100b, 12);
  }

  lemma Pow4(a: Elem, b: Elem, c: Elem, d: Elem, e: Elem, n: nat)
    requires Pow(2, n) == if n == 0 then 1 else a
    requires n != 0 ==> Double(a) == b
    requires n == 0 ==> b == 2
    requires Double(b) == c && Double(c) == d && Double(d) == e
    ensures Pow(2, n + 1) == b && Pow(2, n + 2) == c && Pow(2, n + 3) == d && Pow(2, n + 4) == e
  {
    hide Mul, Double;
    PowTwo(2);
    PowStep(2, n);
    PowStep(2, n + 1);
    PowStep(2, n + 2);
    PowStep(2, n + 3);
    DoubleIsMulTwo(a);
    DoubleIsMulTwo(b);
    DoubleIsMulTwo(c);
    DoubleIsMulTwo(d);
  }

  lemma Order257()
    ensures Pow(2, 255) != 1
  {
    hide Mul, Pow, Frobenius;
    TwoSquared4();
    TwoSquared8();
    FrobeniusCompose(2, 4, 4);
    FrobeniusPow(2, 8);
    assert PowerOf(2, 8) == 256;
    PowStep(2, 255);
    MulOne(2);
  }

  lemma Frobenius15()
    ensures Frobenius(0x8000, 8) == 0x8be8
  {
    hide Frobenius;
    FrobeniusFour(0x8000, 0x8efa, 0xc9c5, 0x27b7, 0x6b65);
    FrobeniusFour(0x6b65, 0xc38d, 0x3537, 0x70f2, 0x8be8);
    FrobeniusCompose(0x8000, 4, 4);
  }

  lemma Order17()
    ensures Pow(2, 3855) != 1
  {
    hide Mul, Pow, Frobenius;
    SmallPowers();
    PowMul(2, 15, 257);
    Pow257(0x8000);
    Frobenius15();
    Value(0x8000, 0x8be8, 0x4d78);
  }

  lemma Value(a: Elem, b: Elem, c: Elem)
    requires MulBits(a, b) == c
    ensures Mul(a, b) == c
  {
    hide Mul, MulBits;
    MulIsBits(a, b);
  }

  lemma Power51()
    ensures Pow(2, 51) == 0x41be
  {
    hide Mul, Pow, Frobenius;
    SmallPowers();
    PowMul(2, 3, 17);
    PowSeventeen(0x8);
    FrobeniusFour(0x8, 0x40, 0x1000, 0x1bbb, 0x4c35);
    Value(0x8, 0x4c35, 0x41be);
  }

  lemma Frobenius51()
    ensures Frobenius(0x41be, 8) == 0xbd18
  {
    hide Frobenius;
    FrobeniusFour(0x41be, 0xfee4, 0x167d, 0x5e7d, 0xb72a);
    FrobeniusFour(0xb72a, 0xbf75, 0xeccc, 0x49aa, 0xbd18);
    FrobeniusCompose(0x41be, 4, 4);
  }

  lemma Order5()
    ensures Pow(2, 13107) != 1
  {
    hide Mul, Pow, Frobenius;
    Power51();
    PowMul(2, 51, 257);
    Pow257(0x41be);
    Frobenius51();
    Value(0x41be, 0xbd18, 0x1ce8);
  }

  lemma Power85()
    ensures Pow(2, 85) == 0x1539
  {
    hide Mul, Pow, Frobenius;
    SmallPowers();
    PowMul(2, 5, 17);
    PowSeventeen(0x20);
    FrobeniusFour(0x20, 0x400, 0x10bb, 0x5efe, 0xf72f);
    Value(0x20, 0xf72f, 0x1539);
  }

  lemma Frobenius85()
    ensures Frobenius(0x1539, 8) == 0xb266
  {
    hide Frobenius;
    FrobeniusFour(0x1539, 0x1e4a, 0x1984, 0x94c, 0x42b7);
    FrobeniusFour(0x42b7, 0xae82, 0xb269, 0xafc0, 0xb266);
    FrobeniusCompose(0x1539, 4, 4);
  }

  lemma Order3()
    ensures Pow(2, 21845) != 1
  {
    hide Mul, Pow, Frobenius;
    Power85();
    PowMul(2, 85, 257);
    Pow257(0x1539);
    Frobenius85();
    Value(0x1539, 0xb266, 0x15e);
  }

  // --- From primes to the order ---------------------------------------------------------------

  ghost predicate Prime(q: nat) {
    q > 1 && forall r :: 1 < r < q ==> q % r != 0
  }

  lemma SmallFactor(r: int, t: int)
    requires 1 < r <= 16
    ensures r * t != 257
  {
    if r == 2 || r == 3 || r == 4 || r == 5 || r == 6 {
    } else if r == 7 || r == 8 || r == 9 || r == 10 || r == 11 {
    } else {
      assert r == 12 || r == 13 || r == 14 || r == 15 || r == 16;
    }
  }

  lemma NoDivisor(r: int, t: int)
    requires 1 < r < 257 && 1 < t
    ensures r * t != 257
  {
    if r <= 16 {
      SmallFactor(r, t);
    } else if t <= 16 {
      SmallFactor(t, r);
    } else {
      assert r * t >= 17 * 17;
    }
  }

  lemma Primes()
    ensures Prime(3) && Prime(5) && Prime(17) && Prime(257)
  {
    forall r | 1 < r < 257
      ensures 257 % r != 0
    {
      var t := 257 / r;
      assert 257 == r * t + 257 % r;
      if t > 1 {
        NoDivisor(r, t);
      }
    }
  }

  // An element with g^q = g^r = 1 for a prime q and 0 < r < q is 1: Euclid's algorithm
  // on the exponents.
  lemma {:induction false} PrimeOrder(g: Elem, q: nat, r: nat)
    requires Prime(q) && 0 < r < q
    requires Pow(g, q) == 1 && Pow(g, r) == 1
    ensures g == 1
    decreases r
  {
    hide Mul;
    if r == 1 {
      PowTwo(g);
    } else {
      PowMod(g, q, r);
      PrimeOrder(g, q, q % r);
    }
  }

  lemma PowMod(g: Elem, m: nat, k: nat)
    requires k > 0 && Pow(g, k) == 1
    ensures Pow(g, m % k) == Pow(g, m)
  {
    hide Mul, Pow;
    assert m == k * (m / k) + m % k;
    PowAdd(g, k * (m / k), m % k);
    PowMul(g, k, m / k);
    OnePow(m / k);
    OneMul(Pow(g, m % k));
  }

  lemma PrimeDivides(q: nat, c: nat, k: nat)
    requires Prime(q) && c * q == GROUP && Pow(2, c) != 1
    requires Pow(2, k) == 1
    ensures k % q == 0
  {
    hide Mul, Pow;
    if k % q != 0 {
      var g := Pow(2, c);
      PowMul(2, c, q);
      PowGroup(2);
      PowMul(2, c, k);
      PowMul(2, k, c);
      assert c * k == k * c;
      OnePow(c);
      PowMod(g, k, q);
      PrimeOrder(g, q, k % q);
    }
  }

  lemma CoprimeFactors(k: nat)
    requires k % 3 == 0 && k % 5 == 0 && k % 17 == 0 && k % 257 == 0
    ensures k % GROUP == 0
  {
    CoprimeDivides(k, 3, 5, 2, -1);
    CoprimeDivides(k, 15, 17, 8, -7);
    CoprimeDivides(k, 255, 257, 128, -127);
  }

  // 2^k = 1 exactly when 65535 divides k.
  lemma OrderOfTwo(k: nat)
    ensures Pow(2, k) == 1 <==> k % GROUP == 0
  {
    hide Mul, Pow;
    if Pow(2, k) == 1 {
      Primes();
      Order3();
      Order5();
      Order17();
      Order257();
      PrimeDivides(3, 21845, k);
      PrimeDivides(5, 13107, k);
      PrimeDivides(17, 3855, k);
      PrimeDivides(257, 255, k);
      CoprimeFactors(k);
    }
    if k % GROUP == 0 {
      PowGroup(2);
      PowMod(2, k, GROUP);
      PowZero(2);
    }
  }

  lemma PowZero(a: Elem)
    ensures Pow(a, 0) == 1
  {
  }

  // Two powers of 2 agree exactly when their exponents agree modulo 65535.
  lemma PowersOfTwo(m: nat, n: nat)
    ensures Pow(2, m) == Pow(2, n) <==> m % GROUP == n % GROUP
  {
    hide Mul, Pow;
    if m > n {
      PowersOfTwo(n, m);
    } else {
      PowAdd(2, m, n - m);
      OrderOfTwo(n - m);
      PowNonZero(2, m);
      MulOne(Pow(2, m));
      if Pow(2, m) == Pow(2, n) {
        MulCancel(Pow(2, m), Pow(2, n - m), 1);
      }
    }
  }
}
