// Mul is multiplication of polynomials over GF(2) modulo
// x^16 + x^12 + x^3 + x + 1 (0x1100B): a 32-bit word holds the whole product of two
// 16-bit polynomials, and Mul is its remainder.
module CarrylessProduct {
  import opened GaloisField

  type Poly = bv32

  const MODULUS: Poly := 0x1100b

  function Sum(a: Poly, b: Poly): Poly {
    a ^ b
  }

  function TimesX(a: Poly): Poly {
    a << 1
  }

  function Term(a: Poly, b: Elem): Poly {
    if b & 1 != 0 then a else 0
  }

  function Widen(a: Elem): Poly {
    a as Poly
  }

  // The product without carries. The first factor is shifted past the bits of the second.
  function Product(a: Poly, b: Elem): Poly
    decreases b
  {
    if b == 0 then 0 else HalfLess(b); Sum(Term(a, b), Product(TimesX(a), Half(b)))
  }

  // --- Exclusive or on wide words ---------------------------------------------------------

  lemma SumAssoc(a: Poly, b: Poly, c: Poly)
    ensures Sum(Sum(a, b), c) == Sum(a, Sum(b, c))
  {
    assert (a ^ b) ^ c == a ^ (b ^ c);
  }

  lemma SumComm(a: Poly, b: Poly)
    ensures Sum(a, b) == Sum(b, a)
  {
    assert a ^ b == b ^ a;
  }

  lemma SumZero(a: Poly)
    ensures Sum(a, 0) == a && Sum(0, a) == a
  {
  }

  lemma SumCancel(a: Poly, b: Poly)
    ensures Sum(a, Sum(a, b)) == b
  {
    assert a ^ (a ^ b) == b;
  }

  lemma SumSelf(a: Poly)
    ensures Sum(a, a) == 0
  {
  }

  lemma SumExchange(a: Poly, b: Poly, c: Poly, d: Poly)
    ensures Sum(Sum(a, b), Sum(c, d)) == Sum(Sum(a, c), Sum(b, d))
  {
    hide Sum;
    SumAssoc(a, b, Sum(c, d));
    SumAssoc(b, c, d);
    SumComm(b, c);
    SumAssoc(c, b, d);
    SumAssoc(a, c, Sum(b, d));
  }

  lemma TimesXSum(a: Poly, b: Poly)
    ensures TimesX(Sum(a, b)) == Sum(TimesX(a), TimesX(b))
  {
    assert (a ^ b) << 1 == (a << 1) ^ (b << 1);
  }

  lemma TermSum(a: Poly, c: Poly, b: Elem)
    ensures Term(Sum(a, c), b) == Sum(Term(a, b), Term(c, b))
  {
  }

  // --- The product is bilinear --------------------------------------------------------------

  lemma {:induction false} ProductSumLeft(a: Poly, c: Poly, b: Elem)
    ensures Product(Sum(a, c), b) == Sum(Product(a, b), Product(c, b))
    decreases b
  {
    hide Sum, TimesX, Term, Half;
    if b == 0 {
      SumZero(0);
    } else {
      HalfLess(b);
      TimesXSum(a, c);
      TermSum(a, c, b);
      ProductSumLeft(TimesX(a), TimesX(c), Half(b));
      SumExchange(Term(a, b), Term(c, b), Product(TimesX(a), Half(b)), Product(TimesX(c), Half(b)));
    }
  }

  lemma TermAdd(a: Poly, b: Elem, c: Elem)
    ensures Term(a, Add(b, c)) == Sum(Term(a, b), Term(a, c))
  {
    LowBitAdd(b, c);
    SumSelf(a);
    SumZero(a);
    SumZero(0);
  }

  lemma LowBitAdd(b: Elem, c: Elem)
    ensures (Add(b, c) & 1 != 0) == ((b & 1 != 0) != (c & 1 != 0))
  {
    assert ((b ^ c) & 1 != 0) == ((b & 1 != 0) != (c & 1 != 0));
  }

  lemma HalfAdd(b: Elem, c: Elem)
    ensures Half(Add(b, c)) == Add(Half(b), Half(c))
  {
    assert (b ^ c) >> 1 == (b >> 1) ^ (c >> 1);
  }

  lemma ProductUnfold(a: Poly, b: Elem)
    ensures Product(a, b) == Sum(Term(a, b), Product(TimesX(a), Half(b)))
  {
    hide Sum, TimesX;
    if b == 0 {
      SumZero(0);
    }
  }

  lemma {:induction false} ProductAddRight(a: Poly, b: Elem, c: Elem)
    ensures Product(a, Add(b, c)) == Sum(Product(a, b), Product(a, c))
    decreases b, c
  {
    hide Sum, TimesX, Term, Half, Add;
    if b == 0 {
      AddZero(c);
      SumZero(Product(a, c));
    } else {
      HalfLess(b);
      ProductUnfold(a, Add(b, c));
      ProductUnfold(a, b);
      ProductUnfold(a, c);
      TermAdd(a, b, c);
      HalfAdd(b, c);
      ProductAddRight(TimesX(a), Half(b), Half(c));
      SumExchange(Term(a, b), Term(a, c), Product(TimesX(a), Half(b)), Product(TimesX(a), Half(c)));
    }
  }

  lemma {:induction false} ProductTimesX(a: Poly, b: Elem)
    ensures Product(TimesX(a), b) == TimesX(Product(a, b))
    decreases b
  {
    hide Sum, TimesX, Term, Half;
    if b == 0 {
      TimesXZero();
    } else {
      HalfLess(b);
      ProductTimesX(TimesX(a), Half(b));
      TimesXSum(Term(a, b), Product(TimesX(a), Half(b)));
      TimesXTerm(a, b);
    }
  }

  lemma TimesXZero()
    ensures TimesX(0) == 0
  {
  }

  lemma TimesXTerm(a: Poly, b: Elem)
    ensures TimesX(Term(a, b)) == Term(TimesX(a), b)
  {
  }

  lemma {:induction false} ProductOne(b: Elem)
    ensures Product(1, b) == Widen(b)
    decreases b
  {
    hide Sum, TimesX, Term, Half, Widen;
    if b == 0 {
      WidenZero();
    } else {
      HalfLess(b);
      ProductOne(Half(b));
      ProductTimesX(1, Half(b));
      WidenSplit(b);
    }
  }

  lemma WidenZero()
    ensures Widen(0) == 0
  {
  }

  lemma WidenSplit(b: Elem)
    ensures Widen(b) == Sum(Term(1, b), TimesX(Widen(Half(b))))
  {
    assert b as Poly == ((b & 1) as Poly) ^ (((b >> 1) as Poly) << 1);
    assert b & 1 == 0 || b & 1 == 1;
  }

  // --- Division with remainder ------------------------------------------------------------

  function Quotient(a: Elem, b: Elem): Elem
    decreases b
  {
    if b == 0 then 0
    else HalfLess(b); Add(if Top(a) then Half(b) else 0, Quotient(Double(a), Half(b)))
  }

  lemma DoubleReduces(a: Elem)
    ensures TimesX(Widen(a)) == Sum(Widen(Double(a)), if Top(a) then MODULUS else 0)
  {
    if a & 0x8000 != 0 {
      assert (a as Poly) << 1 == (((a << 1) ^ 0x100b) as Poly) ^ 0x1100b;
    } else {
      assert (a as Poly) << 1 == (a << 1) as Poly;
    }
  }

  lemma WidenPart(a: Elem, b: Elem)
    ensures Widen(Part(a, b)) == Term(Widen(a), b)
  {
  }

  lemma WidenAdd(a: Elem, b: Elem)
    ensures Widen(Add(a, b)) == Sum(Widen(a), Widen(b))
  {
  }

  lemma {:induction false} ProductZero(b: Elem)
    ensures Product(0, b) == 0 && Product(MODULUS, 0) == 0
  {
    hide Sum;
    ProductSumLeft(0, 0, b);
    SumZero(0);
    SumCancel(Product(0, b), 0);
    SumZero(Product(0, b));
  }

  // a * b = quotient * modulus + Mul(a, b), without overflow of the 32-bit words.
  lemma {:induction false} CarrylessRemainder(a: Elem, b: Elem)
    ensures Product(Widen(a), b) == Sum(Product(MODULUS, Quotient(a, b)), Widen(Mul(a, b)))
    decreases b
  {
    hide Sum, TimesX, Term, Half, Widen, Add, Part, Double, Top;
    if b == 0 {
      ProductZero(0);
      WidenZero();
      SumZero(0);
    } else {
      HalfLess(b);
      var rest := Half(b);
      var carry: Elem := if Top(a) then rest else 0;
      var m := Product(MODULUS, Quotient(Double(a), rest));
      var r := Widen(Mul(Double(a), rest));
      var t := Term(Widen(a), b);
      CarrylessRemainder(Double(a), rest);
      DoubleReduces(a);
      ProductZero(rest);
      ProductSumLeft(Widen(Double(a)), if Top(a) then MODULUS else 0, rest);
      ProductAddRight(MODULUS, carry, Quotient(Double(a), rest));
      WidenAdd(Part(a, b), Mul(Double(a), rest));
      WidenPart(a, b);
      var c := Product(MODULUS, carry);
      assert Product(Widen(a), b) == Sum(t, Sum(Sum(m, r), c));
      calc {
        Sum(t, Sum(Sum(m, r), c));
        { SumComm(Sum(m, r), c); SumAssoc(c, m, r); }
        Sum(t, Sum(Sum(c, m), r));
        { SumAssoc(t, Sum(c, m), r); SumComm(t, Sum(c, m)); SumAssoc(Sum(c, m), t, r); }
        Sum(Sum(c, m), Sum(t, r));
      }
    }
  }

  // --- The remainder is unique ------------------------------------------------------------

  function Shifted(a: Poly, n: nat): Poly {
    if n == 0 then a else TimesX(Shifted(a, n - 1))
  }

  lemma {:induction false} ProductShifted(n: nat, q: Elem)
    ensures Product(Shifted(1, n), q) == Shifted(Widen(q), n)
  {
    hide Widen, TimesX;
    if n == 0 {
      ProductOne(q);
    } else {
      ProductShifted(n - 1, q);
      ProductTimesX(Shifted(1, n - 1), q);
    }
  }

  lemma Shifted4(a: Poly)
    ensures Shifted(a, 1) == a << 1
    ensures Shifted(a, 3) == a << 3
    ensures Shifted(a, 4) == a << 4
  {
    hide TimesX;
    assert Shifted(a, 1) == TimesX(Shifted(a, 0));
    assert Shifted(a, 2) == TimesX(Shifted(a, 1));
    TimesXRaw(a);
  }

  lemma TimesXRaw(a: Poly)
    ensures TimesX(a) == a << 1
    ensures TimesX(TimesX(a)) == a << 2
    ensures TimesX(TimesX(TimesX(a))) == a << 3
    ensures TimesX(TimesX(TimesX(TimesX(a)))) == a << 4
  {
  }

  lemma {:induction false} ShiftedAdd(a: Poly, m: nat, n: nat)
    ensures Shifted(Shifted(a, m), n) == Shifted(a, m + n)
  {
    hide TimesX;
    if n != 0 {
      ShiftedAdd(a, m, n - 1);
    }
  }

  lemma ShiftFours(a: Poly)
    ensures (a << 4) << 4 == a << 8
    ensures (a << 8) << 4 == a << 12
    ensures (a << 12) << 4 == a << 16
  {
  }

  lemma Shifted8(a: Poly)
    ensures Shifted(a, 8) == a << 8
  {
    hide Shifted;
    var b := a << 4;
    ShiftFours(a);
    Shifted4(a);
    Shifted4(b);
    ShiftedAdd(a, 4, 4);
  }

  lemma Shifted12(a: Poly)
    ensures Shifted(a, 12) == a << 12
  {
    hide Shifted;
    var b := a << 8;
    ShiftFours(a);
    Shifted8(a);
    Shifted4(b);
    ShiftedAdd(a, 8, 4);
  }

  lemma Shifted16(a: Poly)
    ensures Shifted(a, 16) == a << 16
  {
    hide Shifted;
    var b := a << 12;
    ShiftFours(a);
    Shifted12(a);
    Shifted4(b);
    ShiftedAdd(a, 12, 4);
  }

  lemma ModulusTerms()
    ensures MODULUS == Sum(1, Sum(Shifted(1, 1), Sum(Shifted(1, 3), Sum(Shifted(1, 12), Shifted(1, 16)))))
  {
    hide Shifted;
    Shifted4(1);
    Shifted12(1);
    Shifted16(1);
  }

  lemma ModulusMultiple(q: Elem)
    ensures var w := Widen(q);
            Product(MODULUS, q) ==
            Sum(w, Sum(Shifted(w, 1), Sum(Shifted(w, 3), Sum(Shifted(w, 12), Shifted(w, 16)))))
  {
    hide Sum, Shifted, Product, Widen;
    var t12 := Sum(Shifted(1, 12), Shifted(1, 16));
    var t3 := Sum(Shifted(1, 3), t12);
    var t1 := Sum(Shifted(1, 1), t3);
    ModulusTerms();
    ProductSumLeft(1, t1, q);
    ProductSumLeft(Shifted(1, 1), t3, q);
    ProductSumLeft(Shifted(1, 3), t12, q);
    ProductSumLeft(Shifted(1, 12), Shifted(1, 16), q);
    ProductOne(q);
    ProductShifted(1, q);
    ProductShifted(3, q);
    ProductShifted(12, q);
    ProductShifted(16, q);
  }

  // A non-zero multiple of the modulus has a bit above the low sixteen.
  lemma SmallMultiple(w: Poly, t12: Poly, t3: Poly, t1: Poly, m: Poly)
    requires t12 == (w << 12) ^ (w << 16)
    requires t3 == (w << 3) ^ t12
    requires t1 == (w << 1) ^ t3
    requires m == w ^ t1
    requires w < 0x10000 && m < 0x10000
    ensures w == 0
  {
  }

  lemma ModulusSmallMultiple(q: Elem)
    requires Product(MODULUS, q) < 0x10000
    ensures q == 0
  {
    hide Shifted, Product, Widen;
    var w := Widen(q);
    var t12 := Sum(Shifted(w, 12), Shifted(w, 16));
    var t3 := Sum(Shifted(w, 3), t12);
    var t1 := Sum(Shifted(w, 1), t3);
    ModulusMultiple(q);
    Shifted4(w);
    Shifted12(w);
    Shifted16(w);
    WidenSmall(q);
    SmallMultiple(w, t12, t3, t1, Product(MODULUS, q));
    WidenInjective(q);
  }

  // No other remainder below 2^16 exists: whatever writes a * b as a multiple of the
  // modulus plus a 16-bit word has computed Mul(a, b).
  lemma RemainderUnique(a: Elem, b: Elem, q: Elem, r: Elem)
    requires Product(Widen(a), b) == Sum(Product(MODULUS, q), Widen(r))
    ensures r == Mul(a, b)
  {
    hide Product, Sum, Widen, Mul, Quotient, Add;
    var q0, r0 := Quotient(a, b), Mul(a, b);
    CarrylessRemainder(a, b);
    ProductAddRight(MODULUS, q, q0);
    var m, m0 := Product(MODULUS, q), Product(MODULUS, q0);
    SumExchange(m, m0, Widen(r), Widen(r0));
    var d := Product(MODULUS, Add(q, q0));
    assert Sum(d, Sum(Widen(r), Widen(r0))) == 0 by {
      SumExchange(m, Widen(r), m0, Widen(r0));
      SumSelf(Sum(m, Widen(r)));
    }
    SumIsZero(d, Sum(Widen(r), Widen(r0)));
    WidenAdd(r, r0);
    WidenSmall(Add(r, r0));
    ModulusSmallMultiple(Add(q, q0));
    ProductZero(0);
    WidenInjective(Add(r, r0));
    AddIsZero(r, r0);
  }

  lemma SumIsZero(a: Poly, b: Poly)
    ensures Sum(a, b) == 0 <==> a == b
  {
    assert a ^ b == 0 <==> a == b;
  }

  lemma WidenSmall(a: Elem)
    ensures Widen(a) < 0x10000
  {
  }

  lemma WidenInjective(a: Elem)
    ensures Widen(a) == 0 ==> a == 0
  {
  }
}
