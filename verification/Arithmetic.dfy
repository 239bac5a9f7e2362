// Facts about products and remainders that the other modules need.
module Arithmetic {
  lemma Distribute(k: int, m: int)
    ensures k * m == (k - 1) * m + m
  {
  }

  lemma RemainderOf(q: nat, k: nat, r: nat)
    requires r < q
    ensures (q * k + r) % q == r
  {
    var n := q * k + r;
    var d, m := n / q, n % q;
    assert n == q * d + m;
    assert q * (d - k) == r - m;
    if d > k {
      Scale(q, 1, d - k);
    } else if d < k {
      Scale(q, d - k, -1);
    }
  }

  lemma Scale(q: nat, a: int, b: int)
    requires a <= b
    ensures q * a <= q * b
  {
  }

  lemma Multiple(n: int, p: int, c: int)
    requires p > 0 && n == c * p
    ensures n % p == 0
  {
    var d, m := n / p, n % p;
    assert n == p * d + m;
    assert p * (c - d) == m;
    if c > d {
      Scale(p, 1, c - d);
    } else if c < d {
      Scale(p, c - d, -1);
    }
  }

  lemma CoprimeDivides(k: nat, p: nat, q: nat, i: int, j: int)
    requires p > 0 && q > 0 && i * p + j * q == 1
    requires k % p == 0 && k % q == 0
    ensures k % (p * q) == 0
  {
    var a, b := k / p, k / q;
    assert k == p * a && k == q * b;
    assert p * q > 0;
    calc {
      k;
      (i * p + j * q) * k;
      i * p * k + j * q * k;
      i * p * (q * b) + j * q * (p * a);
      (i * b + j * a) * (p * q);
    }
    Multiple(k, p * q, i * b + j * a);
  }

  // q and p are coprime, by the Bezout coefficients i and j: p divides q * s only when it
  // divides s.
  lemma Scaled(q: nat, p: nat, i: int, j: int, s: nat)
    requires p > 0 && i * q - j * p == 1
    ensures (q * s) % p == 0 <==> s % p == 0
  {
    var u, t := (q * s) / p, s / p;
    if (q * s) % p == 0 {
      calc {
        s;
        (i * q - j * p) * s;
        i * (q * s) - j * p * s;
        { assert q * s == p * u; }
        i * (p * u) - j * p * s;
        (i * u - j * s) * p;
      }
      Multiple(s, p, i * u - j * s);
    }
    if s % p == 0 {
      calc {
        q * s;
        { assert s == p * t; }
        q * (p * t);
        (q * t) * p;
      }
      Multiple(q * s, p, q * t);
    }
  }

  lemma SmallQuotient(t: nat, size: nat)
    requires t < size
    ensures t / size == 0 && t % size == t
  {
    var d, m := t / size, t % size;
    assert t == size * d + m;
    if d > 0 {
      Scale(size, 1, d);
    } else if d < 0 {
      Scale(size, d, -1);
    }
  }

  lemma NextQuotient(t: nat, size: nat)
    requires 0 < size <= t
    ensures t / size == (t - size) / size + 1
    ensures (t - size) / size >= 0
    ensures t % size == (t - size) % size
  {
    var d, m := t / size, t % size;
    assert t - size == size * (d - 1) + m;
    if d <= 0 {
      Scale(size, d, 0);
    }
    RemainderOf(size, d - 1, m);
    var d', m' := (t - size) / size, (t - size) % size;
    assert size * d' == size * (d - 1);
    if d' < d - 1 {
      Scale(size, d' + 1, d - 1);
    } else if d' > d - 1 {
      Scale(size, d, d');
    }
  }

  function PowerOf(base: nat, n: nat): nat {
    if n == 0 then 1 else base * PowerOf(base, n - 1)
  }
}
