// Every non-zero element of the PAR2 field has an inverse, its 65534th power.
module FieldInverse {
  import opened Arithmetic
  import opened GaloisField

  // --- Squaring is additive -----------------------------------------------------------

  function Square(a: Elem): Elem {
    Mul(a, a)
  }

  lemma SquareAdd(a: Elem, b: Elem)
    ensures Square(Add(a, b)) == Add(Square(a), Square(b))
  {
    hide Add, Mul;
    MulAddLeft(a, b, Add(a, b));
    MulAddRight(a, a, b);
    MulAddRight(b, a, b);
    MulComm(a, b);
    var ab := Mul(a, b);
    AddExchange(Mul(a, a), ab, ab, Mul(b, b));
    AddAssoc(Mul(a, a), ab, Add(ab, Mul(b, b)));
    AddCancel(ab, Mul(b, b));
  }

  lemma SquareMul(a: Elem, b: Elem)
    ensures Square(Mul(a, b)) == Mul(Square(a), Square(b))
  {
    hide Add, Mul;
    MulAssoc(Mul(a, b), a, b);
    MulExchange(a, b, a);
    MulAssoc(Mul(a, a), b, b);
  }

  // n squarings.
  function Frobenius(a: Elem, n: nat): Elem {
    if n == 0 then a else Square(Frobenius(a, n - 1))
  }

  lemma {:induction false} FrobeniusAdd(a: Elem, b: Elem, n: nat)
    ensures Frobenius(Add(a, b), n) == Add(Frobenius(a, n), Frobenius(b, n))
  {
    hide Add, Square;
    if n != 0 {
      FrobeniusAdd(a, b, n - 1);
      SquareAdd(Frobenius(a, n - 1), Frobenius(b, n - 1));
    }
  }

  lemma {:induction false} FrobeniusMul(a: Elem, b: Elem, n: nat)
    ensures Frobenius(Mul(a, b), n) == Mul(Frobenius(a, n), Frobenius(b, n))
  {
    hide Mul, Square;
    if n != 0 {
      FrobeniusMul(a, b, n - 1);
      SquareMul(Frobenius(a, n - 1), Frobenius(b, n - 1));
    }
  }

  lemma {:induction false} FrobeniusPow(a: Elem, n: nat)
    ensures Frobenius(a, n) == Pow(a, PowerOf(2, n))
  {
    hide Mul;
    if n == 0 {
      PowTwo(a);
    } else {
      FrobeniusPow(a, n - 1);
      PowAdd(a, PowerOf(2, n - 1), PowerOf(2, n - 1));
    }
  }

  // --- 2 is fixed by sixteen squarings, hence so is everything ---------------------------

  lemma {:induction false} FrobeniusCompose(a: Elem, m: nat, n: nat)
    ensures Frobenius(Frobenius(a, m), n) == Frobenius(a, m + n)
  {
    hide Square;
    if n != 0 {
      FrobeniusCompose(a, m, n - 1);
    }
  }

  lemma FrobeniusFour(a: Elem, b: Elem, c: Elem, d: Elem, e: Elem)
    requires MulBits(a, a) == b && MulBits(b, b) == c && MulBits(c, c) == d && MulBits(d, d) == e
    ensures Frobenius(a, 4) == e
  {
    hide Mul, MulBits;
    MulIsBits(a, a);
    MulIsBits(b, b);
    MulIsBits(c, c);
    MulIsBits(d, d);
    assert Frobenius(a, 1) == b;
    assert Frobenius(a, 2) == c;
    assert Frobenius(a, 3) == d;
  }

  lemma TwoSquared4()
    ensures Frobenius(0x2, 4) == 0x100b
  {
    FrobeniusFour(0x2, 0x4, 0x10, 0x100, 0x100b);
  }

  lemma TwoSquared8()
    ensures Frobenius(0x100b, 4) == 0xb2f
  {
    FrobeniusFour(0x100b, 0x1bfe, 0x5c24, 0xe647, 0xb2f);
  }

  lemma TwoSquared12()
    ensures Frobenius(0xb2f, 4) == 0x1b27
  {
    FrobeniusFour(0xb2f, 0x169e, 0xa78, 0x1780, 0x1b27);
  }

  lemma TwoSquared16()
    ensures Frobenius(0x1b27, 4) == 0x2
  {
    FrobeniusFour(0x1b27, 0xd65, 0x564d, 0xf0c6, 0x2);
  }

  lemma TwoFixed()
    ensures Frobenius(2, 16) == 2
  {
    hide Frobenius;
    TwoSquared4();
    TwoSquared8();
    TwoSquared12();
    TwoSquared16();
    FrobeniusCompose(2, 4, 4);
    FrobeniusCompose(2, 8, 4);
    FrobeniusCompose(2, 12, 4);
  }

  lemma {:induction false} UnitsFixed(n: nat)
    ensures Frobenius(0, n) == 0 && Frobenius(1, n) == 1
  {
    hide Mul;
    if n != 0 {
      UnitsFixed(n - 1);
      ZeroMul(0);
      OneMul(1);
    }
  }

  lemma PartFixed(a: Elem)
    ensures Frobenius(Part(1, a), 16) == Part(1, a)
  {
    hide Frobenius;
    UnitsFixed(16);
  }

  lemma DoubleIsMulTwo(a: Elem)
    ensures Double(a) == Mul(2, a)
  {
    hide Mul;
    MulDouble(1, a);
    OneMul(a);
    assert Double(1) == 2;
  }

  // a^65536 = a for every a.
  lemma {:induction false} AllFixed(a: Elem)
    ensures Frobenius(a, 16) == a
    decreases a
  {
    hide Frobenius, Add, Double, Half, Part, Mul;
    if a == 0 {
      UnitsFixed(16);
    } else {
      HalfLess(a);
      Split(a);
      DoubleIsMulTwo(Half(a));
      FrobeniusAdd(Part(1, a), Double(Half(a)), 16);
      PartFixed(a);
      FrobeniusMul(2, Half(a), 16);
      TwoFixed();
      AllFixed(Half(a));
    }
  }

  lemma TwoToSixteen()
    ensures PowerOf(2, 16) == 65536
  {
    assert PowerOf(2, 8) == 256;
    assert PowerOf(2, 12) == 4096;
  }

  lemma PowFixed(a: Elem)
    ensures Pow(a, 65536) == a
  {
    hide Pow, Frobenius;
    AllFixed(a);
    FrobeniusPow(a, 16);
    TwoToSixteen();
  }

  // --- Only 0 and 1 are idempotent --------------------------------------------------------

  lemma SquareZero()
    ensures Square(0) == 0
  {
    ZeroMul(0);
  }

  lemma SquareDouble(a: Elem)
    ensures Square(Double(a)) == Double(Double(Square(a)))
  {
    hide Double, Mul;
    MulDouble(a, Double(a));
    MulComm(a, Double(a));
    MulDouble(a, a);
  }

  lemma SquarePart(a: Elem)
    ensures Square(Part(1, a)) == Part(1, a)
  {
    hide Mul;
    ZeroMul(0);
    OneMul(1);
  }

  // Squaring, one bit at a time.
  lemma SquareSplit(a: Elem)
    ensures Square(a) == Add(Part(1, a), Double(Double(Square(Half(a)))))
  {
    hide Add, Part, Double, Half, Square;
    Split(a);
    SquareAdd(Part(1, a), Double(Half(a)));
    SquarePart(a);
    SquareDouble(Half(a));
  }

  lemma DoubleTwice(s: Elem, d: Elem, r: Elem)
    requires s & 0x8000 != 0 ==> d == (s << 1) ^ 0x100b
    requires s & 0x8000 == 0 ==> d == s << 1
    requires d & 0x8000 != 0 ==> r == (d << 1) ^ 0x100b
    requires d & 0x8000 == 0 ==> r == d << 1
    ensures r == (s << 2) ^ (if s & 0x4000 != 0 then 0x100b else 0) ^ (if s & 0x8000 != 0 then 0x2016 else 0)
  {
    assert d & 0x8000 == (s & 0x4000) << 1;
    if s & 0x8000 != 0 {
      if s & 0x4000 != 0 {
      } else {
      }
    } else {
      if s & 0x4000 != 0 {
      } else {
      }
    }
  }

  // The square of a from s, the square of its half.
  function FromHalf(a: Elem, s: Elem): Elem {
    (a & 1) ^ (s << 2) ^ (if s & 0x4000 != 0 then 0x100b else 0) ^ (if s & 0x8000 != 0 then 0x2016 else 0)
  }

  lemma SquareUnfold(a: Elem)
    ensures Square(a) == FromHalf(a, Square(a >> 1))
  {
    hide Square, Double;
    var s := Square(Half(a));
    SquareSplit(a);
    var d := if s & 0x8000 != 0 then (s << 1) ^ 0x100b else s << 1;
    var r := if d & 0x8000 != 0 then (d << 1) ^ 0x100b else d << 1;
    DoubleStep(s, d);
    DoubleStep(d, r);
    DoubleTwice(s, d, r);
    StepBits(a, r, s);
  }

  lemma StepBits(a: Elem, d: Elem, s: Elem)
    requires d == (s << 2) ^ (if s & 0x4000 != 0 then 0x100b else 0) ^ (if s & 0x8000 != 0 then 0x2016 else 0)
    ensures Add(Part(1, a), d) == FromHalf(a, s)
    ensures Half(a) == a >> 1
  {
    SplitBits(a);
  }

  // The square of a from that of a without its two, four or eight low bits.
  function FromTwo(a: Elem, s: Elem): Elem {
    FromHalf(a, FromHalf(a >> 1, s))
  }

  function FromFour(a: Elem, s: Elem): Elem {
    FromTwo(a, FromTwo(a >> 2, s))
  }

  function FromEight(a: Elem, s: Elem): Elem {
    FromFour(a, FromFour(a >> 4, s))
  }

  lemma TwoBits(a: Elem)
    ensures Square(a) == FromTwo(a, Square(a >> 2))
  {
    hide Square, FromHalf;
    SquareUnfold(a);
    SquareUnfold(a >> 1);
    assert (a >> 1) >> 1 == a >> 2;
  }

  lemma FourBits(a: Elem)
    ensures Square(a) == FromFour(a, Square(a >> 4))
  {
    hide Square, FromTwo;
    TwoBits(a);
    TwoBits(a >> 2);
    assert (a >> 2) >> 2 == a >> 4;
  }

  lemma EightBits(a: Elem)
    ensures Square(a) == FromEight(a, Square(a >> 8))
  {
    hide Square, FromFour;
    FourBits(a);
    FourBits(a >> 4);
    assert (a >> 4) >> 4 == a >> 8;
  }

  lemma SixteenBits(a: Elem)
    ensures Square(a) == FromEight(a, FromEight(a >> 8, 0))
  {
    hide Square, FromEight;
    EightBits(a);
    EightBits(a >> 8);
    assert (a >> 8) >> 8 == 0;
    SquareZero();
  }

  lemma Idempotent(e: Elem)
    requires Mul(e, e) == e
    ensures e == 0 || e == 1
  {
    hide Mul, FromEight;
    SixteenBits(e);
    SixteenFixed(e);
  }

  lemma SixteenFixed(e: Elem)
    requires FromEight(e, FromEight(e >> 8, 0)) == e
    ensures e == 0 || e == 1
  {
  }

  // --- Inverses ---------------------------------------------------------------------------

  const GROUP: int := 65535

  function Inverse(a: Elem): Elem {
    Pow(a, GROUP - 1)
  }

  lemma InverseLaw(a: Elem)
    requires a != 0
    ensures Mul(a, Inverse(a)) == 1
  {
    hide Mul, Pow;
    var e := Mul(a, Inverse(a));
    PowStep(a, GROUP - 1);
    PowStep(a, GROUP);
    PowFixed(a);
    assert Mul(a, e) == a;
    calc {
      Mul(e, e);
      { MulAssoc(a, Inverse(a), e); MulComm(Inverse(a), e); MulAssoc(a, e, Inverse(a)); }
      Mul(Mul(a, e), Inverse(a));
      e;
    }
    Idempotent(e);
    ZeroMul(a);
  }

  lemma PowStep(a: Elem, n: nat)
    ensures Pow(a, n + 1) == Mul(a, Pow(a, n))
  {
  }

  lemma PowGroup(a: Elem)
    requires a != 0
    ensures Pow(a, GROUP) == 1
  {
    hide Mul, Pow;
    InverseLaw(a);
    PowStep(a, GROUP - 1);
  }

  lemma NoZeroDivisors(a: Elem, b: Elem)
    ensures Mul(a, b) == 0 <==> a == 0 || b == 0
  {
    hide Mul, Inverse;
    ZeroMul(a);
    ZeroMul(b);
    if Mul(a, b) == 0 && a != 0 {
      InverseLaw(a);
      MulComm(a, Inverse(a));
      MulAssoc(Inverse(a), a, b);
      OneMul(b);
      ZeroMul(Inverse(a));
    }
  }

  lemma MulCancel(a: Elem, b: Elem, c: Elem)
    requires a != 0 && Mul(a, b) == Mul(a, c)
    ensures b == c
  {
    hide Mul, Add;
    MulAddRight(a, b, c);
    AddSelf(Mul(a, b));
    NoZeroDivisors(a, Add(b, c));
    AddIsZero(b, c);
  }

  lemma {:induction false} PowNonZero(a: Elem, n: nat)
    requires a != 0
    ensures Pow(a, n) != 0
  {
    hide Mul;
    if n != 0 {
      PowNonZero(a, n - 1);
      NoZeroDivisors(a, Pow(a, n - 1));
    }
  }
}
