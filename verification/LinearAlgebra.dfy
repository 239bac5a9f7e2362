// Linear equations over the PAR2 field: equations whose coefficients are consecutive powers
// of distinct constants have one solution (Vandermonde), and fewer equations than unknowns
// always have several.
module LinearAlgebra {
  import opened GaloisField
  import opened FieldInverse

  type Vector = seq<Elem>

  ghost function Dot(x: Vector, y: Vector): Elem
    requires |x| == |y|
  {
    if |x| == 0 then 0
    else Add(Dot(x[..|x| - 1], y[..|x| - 1]), Mul(x[|x| - 1], y[|x| - 1]))
  }

  ghost function Plus(x: Vector, y: Vector): Vector
    requires |x| == |y|
  {
    seq(|x|, i requires 0 <= i < |x| => Add(x[i], y[i]))
  }

  ghost function Scaled(s: Elem, x: Vector): Vector {
    seq(|x|, i requires 0 <= i < |x| => Mul(s, x[i]))
  }

  // The coefficients of the recovery block with exponent e.
  ghost function Powers(c: Vector, e: nat): Vector {
    seq(|c|, i requires 0 <= i < |c| => Pow(c[i], e))
  }

  // Zero outside of the positions in s.
  ghost predicate SupportedIn(d: Vector, s: set<nat>) {
    forall i: nat :: i < |d| && i !in s ==> d[i] == 0
  }

  ghost predicate IsZero(d: Vector) {
    forall i :: 0 <= i < |d| ==> d[i] == 0
  }

  // --- Dot is bilinear ------------------------------------------------------------------------

  lemma {:induction false} DotPlus(x: Vector, y: Vector, z: Vector)
    requires |x| == |y| == |z|
    ensures Dot(Plus(x, y), z) == Add(Dot(x, z), Dot(y, z))
  {
    hide Add, Mul;
    if |x| == 0 {
      AddZero(0);
    } else {
      var n := |x| - 1;
      assert Plus(x, y)[..n] == Plus(x[..n], y[..n]);
      DotPlus(x[..n], y[..n], z[..n]);
      MulAddLeft(x[n], y[n], z[n]);
      AddExchange(Dot(x[..n], z[..n]), Dot(y[..n], z[..n]), Mul(x[n], z[n]), Mul(y[n], z[n]));
    }
  }

  lemma {:induction false} DotScaled(s: Elem, x: Vector, z: Vector)
    requires |x| == |z|
    ensures Dot(Scaled(s, x), z) == Mul(s, Dot(x, z))
  {
    hide Add, Mul;
    if |x| == 0 {
      ZeroMul(s);
    } else {
      var n := |x| - 1;
      assert Scaled(s, x)[..n] == Scaled(s, x[..n]);
      DotScaled(s, x[..n], z[..n]);
      MulAssoc(s, x[n], z[n]);
      MulAddRight(s, Dot(x[..n], z[..n]), Mul(x[n], z[n]));
    }
  }

  lemma {:induction false} DotComm(x: Vector, y: Vector)
    requires |x| == |y|
    ensures Dot(x, y) == Dot(y, x)
  {
    hide Add, Mul;
    if |x| != 0 {
      var n := |x| - 1;
      DotComm(x[..n], y[..n]);
      MulComm(x[n], y[n]);
    }
  }

  // At most position p contributes.
  lemma {:induction false} DotSingle(x: Vector, y: Vector, p: nat)
    requires |x| == |y| && p < |x|
    requires forall i :: 0 <= i < |x| && i != p ==> Mul(x[i], y[i]) == 0
    ensures Dot(x, y) == Mul(x[p], y[p])
  {
    hide Add, Mul;
    var n := |x| - 1;
    if p == n {
      DotVanishes(x[..n], y[..n]);
    } else {
      DotSingle(x[..n], y[..n], p);
    }
    AddZero(Mul(x[p], y[p]));
  }

  lemma {:induction false} DotVanishes(x: Vector, y: Vector)
    requires |x| == |y|
    requires forall i :: 0 <= i < |x| ==> Mul(x[i], y[i]) == 0
    ensures Dot(x, y) == 0
  {
    hide Add, Mul;
    if |x| != 0 {
      DotVanishes(x[..|x| - 1], y[..|x| - 1]);
      AddZero(0);
    }
  }

  // --- Equations with consecutive exponents -------------------------------------------------------

  // Multiplying each component by c[i] + c[p].
  ghost function Eliminated(d: Vector, c: Vector, p: nat): Vector
    requires |d| == |c| && p < |c|
  {
    seq(|d|, i requires 0 <= i < |d| => Mul(d[i], Add(c[i], c[p])))
  }

  lemma {:induction false} EliminatedDot(d: Vector, c: Vector, cp: Elem, m: Vector, e: nat)
    requires |d| == |c| == |m|
    requires forall i :: 0 <= i < |d| ==> m[i] == Mul(d[i], Add(c[i], cp))
    ensures Dot(m, Powers(c, e)) == Add(Dot(d, Powers(c, e + 1)), Mul(cp, Dot(d, Powers(c, e))))
  {
    hide Add, Mul, Pow;
    if |d| == 0 {
      ZeroMul(cp);
      AddZero(0);
    } else {
      var n := |d| - 1;
      var x, y := Dot(d[..n], Powers(c, e + 1)[..n]), Dot(d[..n], Powers(c, e)[..n]);
      assert Powers(c, e)[..n] == Powers(c[..n], e);
      assert Powers(c, e + 1)[..n] == Powers(c[..n], e + 1);
      EliminatedDot(d[..n], c[..n], cp, m[..n], e);
      EliminatedTerm(d[n], c[n], cp, e);
      var t1, t2 := Mul(d[n], Pow(c[n], e + 1)), Mul(d[n], Pow(c[n], e));
      MulAddRight(cp, y, t2);
      AddExchange(x, Mul(cp, y), t1, Mul(cp, t2));
    }
  }

  lemma EliminatedTerm(d: Elem, c: Elem, cp: Elem, e: nat)
    ensures Mul(Mul(d, Add(c, cp)), Pow(c, e)) ==
            Add(Mul(d, Pow(c, e + 1)), Mul(cp, Mul(d, Pow(c, e))))
  {
    hide Add, Mul, Pow;
    var q := Pow(c, e);
    MulAddRight(d, c, cp);
    MulAddLeft(Mul(d, c), Mul(d, cp), q);
    MulAssoc(d, c, q);
    PowStep(c, e);
    MulComm(d, cp);
    MulAssoc(cp, d, q);
  }

  // |s| equations with consecutive exponents leave no freedom at the positions in s.
  lemma {:induction false} Vandermonde(d: Vector, c: Vector, s: set<nat>, first: nat)
    requires |d| == |c| && (forall i :: i in s ==> i < |c|)
    requires forall i, j :: i in s && j in s && i != j ==> c[i] != c[j]
    requires forall i :: i in s ==> c[i] != 0
    requires SupportedIn(d, s)
    requires forall e: nat :: first <= e < first + |s| ==> Dot(d, Powers(c, e)) == 0
    ensures IsZero(d)
    decreases |s|
  {
    hide Add, Mul, Pow, Dot;
    if s != {} {
      var p :| p in s;
      var m := Eliminated(d, c, p);
      var rest := s - {p};
      AddSelf(c[p]);
      ZeroMul(d[p]);
      forall i: nat | i < |m| && i !in rest
        ensures m[i] == 0
      {
        if i != p {
          ZeroMul(Add(c[i], c[p]));
        }
      }
      forall e: nat | first <= e < first + |rest|
        ensures Dot(m, Powers(c, e)) == 0
      {
        EliminatedDot(d, c, c[p], m, e);
        ZeroMul(c[p]);
        AddZero(0);
      }
      Vandermonde(m, c, rest, first);
      forall i: nat | i < |d| && i != p
        ensures d[i] == 0
      {
        if i in s {
          assert m[i] == 0;
          NoZeroDivisors(d[i], Add(c[i], c[p]));
          AddIsZero(c[i], c[p]);
        }
      }
      LastUnknown(d, c, p, first);
    }
  }

  lemma ZeroFactor(a: Elem, b: Elem)
    requires a == 0 || b == 0
    ensures Mul(a, b) == 0
  {
    ZeroMul(a);
    ZeroMul(b);
  }

  lemma LastUnknown(d: Vector, c: Vector, p: nat, e: nat)
    requires |d| == |c| && p < |c| && c[p] != 0
    requires forall i: nat :: i < |d| && i != p ==> d[i] == 0
    requires Dot(d, Powers(c, e)) == 0
    ensures d[p] == 0
  {
    hide Add, Mul, Pow, Dot;
    forall i: nat | i < |d| && i != p
      ensures Mul(d[i], Powers(c, e)[i]) == 0
    {
      ZeroFactor(d[i], Powers(c, e)[i]);
    }
    DotSingle(d, Powers(c, e), p);
    PowNonZero(c[p], e);
    NoZeroDivisors(d[p], Pow(c[p], e));
  }

  // --- Fewer equations than unknowns --------------------------------------------------------------

  ghost predicate Solves(rows: seq<Vector>, d: Vector) {
    forall r :: 0 <= r < |rows| ==> |rows[r]| == |d| && Dot(rows[r], d) == 0
  }

  ghost function Unit(n: nat, p: nat): Vector {
    seq(n, i => if i == p then 1 else 0)
  }

  // Subtract a multiple of the pivot row from a row.
  ghost function Reduced(row: Vector, pivot: Vector, p: nat): Vector
    requires |row| == |pivot| && p < |row|
  {
    Plus(row, Scaled(Mul(row[p], Inverse(pivot[p])), pivot))
  }

  lemma {:induction false} Underdetermined(rows: seq<Vector>, n: nat, s: set<nat>) returns (d: Vector)
    requires forall r :: 0 <= r < |rows| ==> |rows[r]| == n
    requires |rows| < |s| && forall i :: i in s ==> i < n
    ensures |d| == n && SupportedIn(d, s) && !IsZero(d) && Solves(rows, d)
    decreases |rows|
  {
    hide Add, Mul, Dot, Inverse;
    if |rows| == 0 {
      var p :| p in s;
      d := Unit(n, p);
      assert d[p] != 0;
    } else {
      var pivot, rest := rows[0], rows[1..];
      if p: nat :| p in s && pivot[p] != 0 {
        var s' := s - {p};
        var reduced := seq(|rest|, r requires 0 <= r < |rest| => Reduced(rest[r], pivot, p));
        var d' := Underdetermined(reduced, n, s');
        d := d'[p := Mul(Inverse(pivot[p]), Dot(pivot, d'))];
        var q :| 0 <= q < |d'| && d'[q] != 0;
        assert d[q] != 0;
        BackSubstitute(pivot, pivot, p, d');
        forall r | 0 <= r < |rows|
          ensures Dot(rows[r], d) == 0
        {
          if r > 0 {
            assert Dot(reduced[r - 1], d') == 0;
            BackSubstitute(rows[r], pivot, p, d');
          } else {
            PivotReduced(pivot, p, d');
          }
        }
      } else {
        d := Underdetermined(rest, n, s);
        forall i | 0 <= i < n
          ensures Mul(pivot[i], d[i]) == 0
        {
          ZeroMul(if i in s then d[i] else pivot[i]);
        }
        DotVanishes(pivot, d);
        forall r | 0 <= r < |rows|
          ensures Dot(rows[r], d) == 0
        {
          if r > 0 {
            assert rows[r] == rest[r - 1];
          }
        }
      }
    }
  }

  lemma PivotReduced(pivot: Vector, p: nat, d: Vector)
    requires p < |pivot| == |d| && pivot[p] != 0
    ensures Dot(Reduced(pivot, pivot, p), d) == 0
  {
    hide Add, Mul, Dot, Inverse;
    InverseLaw(pivot[p]);
    DotPlus(pivot, Scaled(1, pivot), d);
    DotScaled(1, pivot, d);
    OneMul(Dot(pivot, d));
    AddSelf(Dot(pivot, d));
  }

  // The reduced equation is the equation with the pivot unknown substituted.
  lemma BackSubstitute(row: Vector, pivot: Vector, p: nat, d: Vector)
    requires |row| == |pivot| == |d| && p < |row| && pivot[p] != 0 && d[p] == 0
    ensures Dot(row, d[p := Mul(Inverse(pivot[p]), Dot(pivot, d))]) == Dot(Reduced(row, pivot, p), d)
  {
    hide Add, Mul, Dot, Inverse;
    var v := Dot(pivot, d);
    var x := Mul(Inverse(pivot[p]), v);
    var single := seq(|d|, i requires 0 <= i < |d| => if i == p then x else 0);
    forall i | 0 <= i < |d|
      ensures Add(d[i], single[i]) == d[p := x][i]
    {
      AddZero(d[i]);
      AddZero(x);
    }
    assert d[p := x] == Plus(d, single);
    DotComm(row, Plus(d, single));
    DotPlus(d, single, row);
    DotComm(d, row);
    forall i | 0 <= i < |d| && i != p
      ensures Mul(single[i], row[i]) == 0
    {
      ZeroMul(row[i]);
    }
    DotSingle(single, row, p);
    var factor := Mul(row[p], Inverse(pivot[p]));
    DotPlus(row, Scaled(factor, pivot), d);
    DotScaled(factor, pivot, d);
    MulComm(x, row[p]);
    MulAssoc(row[p], Inverse(pivot[p]), v);
  }
}
