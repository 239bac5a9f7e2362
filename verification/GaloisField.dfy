// The arithmetic of internal/adversarial/par2_multi.go: shift-and-xor
// multiplication of 16-bit words modulo x^16 + x^12 + x^3 + x + 1, and
// square-and-multiply powers.
//
// The loops are proved against the functions Mul and Pow, and Mul is proved to be
// polynomial multiplication modulo 0x1100B (CarrylessRemainder) and the product of
// a field (the ring laws here, inverses in FieldInverse).
module GaloisField {

  type Elem = bv16

  // --- Addition: exclusive or ------------------------------------------------------

  function Add(a: Elem, b: Elem): Elem {
    a ^ b
  }

  lemma AddComm(a: Elem, b: Elem)
    ensures Add(a, b) == Add(b, a)
  {
    assert a ^ b == b ^ a;
  }

  lemma AddAssoc(a: Elem, b: Elem, c: Elem)
    ensures Add(Add(a, b), c) == Add(a, Add(b, c))
  {
    assert (a ^ b) ^ c == a ^ (b ^ c);
  }

  lemma AddZero(a: Elem)
    ensures Add(a, 0) == a && Add(0, a) == a
  {
  }

  lemma AddSelf(a: Elem)
    ensures Add(a, a) == 0
  {
    assert a ^ a == 0;
  }

  lemma AddIsZero(a: Elem, b: Elem)
    ensures Add(a, b) == 0 <==> a == b
  {
    assert a ^ b == 0 <==> a == b;
  }

  lemma AddCancel(a: Elem, b: Elem)
    ensures Add(a, Add(a, b)) == b
  {
    assert a ^ (a ^ b) == b;
  }

  lemma AddExchange(a: Elem, b: Elem, c: Elem, d: Elem)
    ensures Add(Add(a, b), Add(c, d)) == Add(Add(a, c), Add(b, d))
  {
    hide Add;
    AddAssoc(a, b, Add(c, d));
    AddAssoc(b, c, d);
    AddComm(b, c);
    AddAssoc(c, b, d);
    AddAssoc(a, c, Add(b, d));
  }

  // --- Multiplication by x, and the bits of the multiplier -------------------------

  predicate Top(a: Elem) {
    a & 0x8000 != 0
  }

  function Shift(a: Elem): Elem {
    a << 1
  }

  function Half(b: Elem): Elem {
    b >> 1
  }

  function Double(a: Elem): Elem {
    if Top(a) then Add(Shift(a), 0x100b) else Shift(a)
  }

  // a when the low bit of b is set, otherwise nothing.
  function Part(a: Elem, b: Elem): Elem {
    if b & 1 != 0 then a else 0
  }

  lemma HalfLess(b: Elem)
    requires b != 0
    ensures Half(b) < b
  {
  }

  lemma TopAdd(a: Elem, c: Elem)
    ensures Top(Add(a, c)) == (Top(a) != Top(c))
  {
    assert ((a ^ c) & 0x8000 != 0) == ((a & 0x8000 != 0) != (c & 0x8000 != 0));
  }

  lemma ShiftAdd(a: Elem, c: Elem)
    ensures Shift(Add(a, c)) == Add(Shift(a), Shift(c))
  {
    assert (a ^ c) << 1 == (a << 1) ^ (c << 1);
  }

  lemma DoubleAdd(a: Elem, c: Elem)
    ensures Double(Add(a, c)) == Add(Double(a), Double(c))
  {
    hide Add, Shift, Top;
    TopAdd(a, c);
    ShiftAdd(a, c);
    var p: Elem := 0x100b;
    AddExchange(Shift(a), p, Shift(c), p);
    AddSelf(p);
    AddZero(Add(Shift(a), Shift(c)));
    AddAssoc(Shift(a), Shift(c), p);
    AddAssoc(Shift(a), p, Shift(c));
    AddComm(p, Shift(c));
  }

  lemma PartAdd(a: Elem, c: Elem, b: Elem)
    ensures Part(Add(a, c), b) == Add(Part(a, b), Part(c, b))
  {
  }

  lemma DoublePart(a: Elem, b: Elem)
    ensures Double(Part(a, b)) == Part(Double(a), b)
  {
  }

  lemma SplitBits(a: Elem)
    ensures a == (a & 1) ^ ((a >> 1) << 1)
    ensures (a >> 1) & 0x8000 == 0
    ensures a & 1 == 0 || a & 1 == 1
  {
  }

  // Every word is its low bit plus x times the rest.
  lemma Split(a: Elem)
    ensures a == Add(Part(1, a), Double(Half(a)))
  {
    SplitBits(a);
    assert Part(1, a) == a & 1;
    assert Double(Half(a)) == Shift(Half(a));
  }

  // --- The product ------------------------------------------------------------------

  function Mul(a: Elem, b: Elem): Elem
    decreases b
  {
    if b == 0 then 0 else HalfLess(b); Add(Part(a, b), Mul(Double(a), Half(b)))
  }

  // The loop of the source. b is consumed from its low bit, a is doubled in the field.
  method GfMultiply(a0: Elem, b0: Elem) returns (result: Elem)
    ensures result == Mul(a0, b0)
  {
    hide Add, Mul;
    var a, b := a0, b0;
    result := 0;
    AddZero(Mul(a0, b0));
    while b != 0
      invariant Add(result, Mul(a, b)) == Mul(a0, b0)
      decreases b
    {
      ghost var result', a', b' := result, a, b;
      if b & 1 != 0 {
        result := result ^ a;
      }
      var high := a & 0x8000;
      a := a << 1;
      if high != 0 {
        a := a ^ 0x100b;
      }
      b := b >> 1;
      MultiplyStep(result', a', b', result, a, b);
    }
    MulByZero(a);
    AddZero(result);
  }

  lemma MulByZero(a: Elem)
    ensures Mul(a, 0) == 0
  {
  }

  // One round of the loop keeps result + a * b.
  lemma MultiplyStep(result: Elem, a: Elem, b: Elem, result': Elem, a': Elem, b': Elem)
    requires b != 0
    requires b & 1 != 0 ==> result' == result ^ a
    requires b & 1 == 0 ==> result' == result
    requires a & 0x8000 != 0 ==> a' == (a << 1) ^ 0x100b
    requires a & 0x8000 == 0 ==> a' == a << 1
    requires b' == b >> 1
    ensures Add(result', Mul(a', b')) == Add(result, Mul(a, b))
    ensures b' < b
  {
    AccumulateStep(result, a, b, result');
    DoubleStep(a, a');
    HalfStep(b);
    MultiplyStepFields(result, a, b);
  }

  lemma MultiplyStepFields(result: Elem, a: Elem, b: Elem)
    requires b != 0
    ensures Add(Add(result, Part(a, b)), Mul(Double(a), Half(b))) == Add(result, Mul(a, b))
    ensures Half(b) < b
  {
    hide Add, Half, Part, Double;
    HalfLess(b);
    AddAssoc(result, Part(a, b), Mul(Double(a), Half(b)));
  }

  lemma AccumulateStep(previous: Elem, a: Elem, b: Elem, result: Elem)
    requires result == if b & 1 != 0 then previous ^ a else previous
    ensures result == Add(previous, Part(a, b))
  {
    AddZero(previous);
  }

  lemma DoubleStep(a: Elem, shifted: Elem)
    requires shifted == if a & 0x8000 != 0 then (a << 1) ^ 0x100b else a << 1
    ensures shifted == Double(a)
  {
  }

  lemma HalfStep(b: Elem)
    ensures b >> 1 == Half(b)
  {
  }

  // --- Ring laws ----------------------------------------------------------------------

  lemma DoubleZero()
    ensures Double(0) == 0
  {
    assert (0 as Elem) << 1 == 0;
  }

  lemma {:induction false} MulAddLeft(a: Elem, c: Elem, b: Elem)
    ensures Mul(Add(a, c), b) == Add(Mul(a, b), Mul(c, b))
    decreases b
  {
    hide Add, Half, Part, Double;
    if b == 0 {
      AddZero(0);
    } else {
      HalfLess(b);
      DoubleAdd(a, c);
      PartAdd(a, c, b);
      MulAddLeft(Double(a), Double(c), Half(b));
      AddExchange(Part(a, b), Part(c, b), Mul(Double(a), Half(b)), Mul(Double(c), Half(b)));
    }
  }

  lemma {:induction false} MulDouble(a: Elem, b: Elem)
    ensures Mul(Double(a), b) == Double(Mul(a, b))
    decreases b
  {
    hide Add, Half, Part, Double;
    if b == 0 {
      DoubleZero();
    } else {
      HalfLess(b);
      MulDouble(Double(a), Half(b));
      DoubleAdd(Part(a, b), Mul(Double(a), Half(b)));
      DoublePart(a, b);
    }
  }

  lemma ZeroMul(b: Elem)
    ensures Mul(0, b) == 0 && Mul(b, 0) == 0
  {
    hide Add;
    MulAddLeft(0, 0, b);
    AddSelf(0);
    AddSelf(Mul(0, b));
  }

  lemma {:induction false} OneMul(b: Elem)
    ensures Mul(1, b) == b
    decreases b
  {
    hide Add, Half, Part, Double;
    if b != 0 {
      HalfLess(b);
      OneMul(Half(b));
      MulDouble(1, Half(b));
      Split(b);
    }
  }

  lemma {:induction false} MulComm(a: Elem, b: Elem)
    ensures Mul(a, b) == Mul(b, a)
    decreases a
  {
    hide Add, Half, Part, Double;
    ZeroMul(b);
    if a != 0 {
      HalfLess(a);
      Split(a);
      MulAddLeft(Part(1, a), Double(Half(a)), b);
      PartMul(a, b);
      MulDouble(Half(a), b);
      MulComm(Half(a), b);
      MulDouble(b, Half(a));
    }
  }

  lemma PartMul(a: Elem, b: Elem)
    ensures Mul(Part(1, a), b) == Part(b, a)
  {
    hide Add, Half, Double;
    OneMul(b);
    ZeroMul(b);
  }

  lemma MulOne(a: Elem)
    ensures Mul(a, 1) == a
  {
    OneMul(a);
    MulComm(a, 1);
  }

  lemma MulAddRight(a: Elem, b: Elem, c: Elem)
    ensures Mul(a, Add(b, c)) == Add(Mul(a, b), Mul(a, c))
  {
    hide Add, Mul;
    MulComm(a, Add(b, c));
    MulAddLeft(b, c, a);
    MulComm(a, b);
    MulComm(a, c);
  }

  lemma {:induction false} MulAssoc(a: Elem, b: Elem, c: Elem)
    ensures Mul(Mul(a, b), c) == Mul(a, Mul(b, c))
    decreases c
  {
    hide Add, Half, Part, Double;
    ZeroMul(a);
    if c != 0 {
      HalfLess(c);
      MulComm(a, b);
      MulDouble(b, a);
      MulComm(a, Double(b));
      MulAssoc(a, Double(b), Half(c));
      MulAddRight(a, Part(b, c), Mul(Double(b), Half(c)));
      MulPart(a, b, c);
    }
  }

  lemma MulPart(a: Elem, b: Elem, c: Elem)
    ensures Mul(a, Part(b, c)) == Part(Mul(a, b), c)
  {
    hide Add, Half, Double;
    ZeroMul(a);
  }

  lemma MulExchange(a: Elem, b: Elem, c: Elem)
    ensures Mul(Mul(a, b), c) == Mul(Mul(a, c), b)
  {
    hide Mul;
    MulAssoc(a, b, c);
    MulComm(b, c);
    MulAssoc(a, c, b);
  }

  // --- Evaluation ------------------------------------------------------------------------

  // The recursion of Mul written out, four bits at a time, so that products of constants
  // can be computed.
  function Quad(a: Elem, b: Elem): Elem {
    Add(
      Add(Part(a, b), Part(Double(a), b >> 1)),
      Add(Part(Double(Double(a)), b >> 2), Part(Double(Double(Double(a))), b >> 3)))
  }

  function Times16(a: Elem): Elem {
    Double(Double(Double(Double(a))))
  }

  function MulBits(a: Elem, b: Elem): Elem {
    var a4 := Times16(a);
    var a8 := Times16(a4);
    var a12 := Times16(a8);
    Add(Add(Quad(a, b), Quad(a4, b >> 4)), Add(Quad(a8, b >> 8), Quad(a12, b >> 12)))
  }

  lemma MulUnfold(a: Elem, b: Elem)
    ensures Mul(a, b) == Add(Part(a, b), Mul(Double(a), Half(b)))
  {
    hide Add, Double;
    if b == 0 {
      AddZero(0);
    }
  }

  lemma Halves(b: Elem)
    ensures Half(b) == b >> 1
    ensures Half(Half(b)) == b >> 2
    ensures Half(Half(Half(b))) == b >> 3
    ensures Half(Half(Half(Half(b)))) == b >> 4
  {
  }

  lemma MulQuad(a: Elem, b: Elem)
    ensures Mul(a, b) == Add(Quad(a, b), Mul(Times16(a), b >> 4))
  {
    hide Add, Part, Double;
    Halves(b);
    var b1, b2, b3 := Half(b), Half(Half(b)), Half(Half(Half(b)));
    var a1 := Double(a);
    var a2 := Double(a1);
    var a3 := Double(a2);
    var rest := Mul(Double(a3), b >> 4);
    MulUnfold(a, b);
    MulUnfold(a1, b1);
    MulUnfold(a2, b2);
    MulUnfold(a3, b3);
    AddAssoc(Part(a2, b2), Part(a3, b3), rest);
    AddAssoc(Part(a, b), Part(a1, b1), Add(Add(Part(a2, b2), Part(a3, b3)), rest));
    AddAssoc(Add(Part(a, b), Part(a1, b1)), Add(Part(a2, b2), Part(a3, b3)), rest);
  }

  lemma ShiftShift(b: Elem)
    ensures (b >> 4) >> 4 == b >> 8
    ensures (b >> 8) >> 4 == b >> 12
    ensures (b >> 12) >> 4 == 0
  {
  }

  lemma MulIsBits(a: Elem, b: Elem)
    ensures Mul(a, b) == MulBits(a, b)
  {
    hide Add, Quad, Times16;
    ShiftShift(b);
    var a4 := Times16(a);
    var a8 := Times16(a4);
    var a12 := Times16(a8);
    MulQuad(a, b);
    MulQuad(a4, b >> 4);
    MulQuad(a8, b >> 8);
    MulQuad(a12, b >> 12);
    AddZero(Quad(a12, b >> 12));
    AddAssoc(Quad(a, b), Quad(a4, b >> 4), Add(Quad(a8, b >> 8), Quad(a12, b >> 12)));
  }

  // --- Powers ---------------------------------------------------------------------------

  // The n-fold product.
  function Pow(a: Elem, n: nat): Elem {
    if n == 0 then 1 else Mul(a, Pow(a, n - 1))
  }

  const WORD32: int := 0x1_0000_0000

  // Square and multiply. The exponent is an unsigned 32-bit word in the source, so its
  // low bit and its right shift are the remainder and quotient by two.
  method GfPower(a0: Elem, n0: nat) returns (result: Elem)
    requires n0 < WORD32
    ensures result == Pow(a0, n0)
  {
    hide Mul;
    var a, n := a0, n0;
    result := 1;
    OneMul(Pow(a0, n0));
    while n != 0
      invariant Mul(result, Pow(a, n)) == Pow(a0, n0)
    {
      PowSquare(a, n / 2);
      if n % 2 != 0 {
        assert Pow(a, n) == Mul(a, Pow(a, n - 1)) && n - 1 == 2 * (n / 2);
        MulAssoc(result, a, Pow(a, n - 1));
        result := GfMultiply(result, a);
      } else {
        assert n == 2 * (n / 2);
      }
      a := GfMultiply(a, a);
      n := n / 2;
    }
    MulOne(result);
  }

  lemma {:induction false} PowAdd(a: Elem, m: nat, n: nat)
    ensures Pow(a, m + n) == Mul(Pow(a, m), Pow(a, n))
  {
    hide Mul;
    if m == 0 {
      OneMul(Pow(a, n));
    } else {
      PowAdd(a, m - 1, n);
      MulAssoc(a, Pow(a, m - 1), Pow(a, n));
    }
  }

  lemma {:induction false} PowSquare(a: Elem, n: nat)
    ensures Pow(Mul(a, a), n) == Pow(a, 2 * n)
  {
    hide Mul;
    if n != 0 {
      PowSquare(a, n - 1);
      PowTwo(a);
      PowAdd(a, 2, 2 * (n - 1));
    }
  }

  lemma PowTwo(a: Elem)
    ensures Pow(a, 2) == Mul(a, a) && Pow(a, 1) == a
  {
    hide Mul;
    assert Pow(a, 1) == Mul(a, Pow(a, 0));
    MulOne(a);
  }

  lemma {:induction false} PowMul(a: Elem, m: nat, n: nat)
    ensures Pow(Pow(a, m), n) == Pow(a, m * n)
  {
    hide Mul;
    if n == 0 {
    } else {
      PowMul(a, m, n - 1);
      PowAdd(a, m, m * (n - 1));
      assert m + m * (n - 1) == m * n;
    }
  }

  lemma {:induction false} OnePow(n: nat)
    ensures Pow(1, n) == 1
  {
    hide Mul;
    if n != 0 {
      OnePow(n - 1);
      OneMul(1);
    }
  }

  lemma {:induction false} ProductPow(a: Elem, b: Elem, n: nat)
    ensures Pow(Mul(a, b), n) == Mul(Pow(a, n), Pow(b, n))
  {
    hide Mul;
    if n == 0 {
      OneMul(1);
    } else {
      ProductPow(a, b, n - 1);
      var p, q := Pow(a, n - 1), Pow(b, n - 1);
      MulAssoc(Mul(a, b), p, q);
      MulExchange(a, b, p);
      MulAssoc(Mul(a, p), b, q);
    }
  }
}
