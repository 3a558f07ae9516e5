/** Powers of two, and division with a known quotient. */
module Powers {

  function Pow2(n: nat): (r: nat)
    ensures r >= 1
  {
    if n == 0 then 1 else 2 * Pow2(n - 1)
  }

  lemma {:induction false} Pow2Sum(a: nat, b: nat)
    ensures Pow2(a + b) == Pow2(a) * Pow2(b)
    decreases a
  {
    if a != 0 {
      Pow2Sum(a - 1, b);
      assert Pow2(a) * Pow2(b) == 2 * (Pow2(a - 1) * Pow2(b));
    }
  }

  lemma Multiple(m: nat, d: int)
    requires m >= 1
    ensures d >= 1 ==> m * d >= m
    ensures d <= -1 ==> m * d + m <= 0
  {
  }

  lemma DivModOf(b: nat, m: nat, q: nat, r: nat)
    requires b == m * q + r && r < m
    ensures b / m == q && b % m == r
  {
    assert b == m * (b / m) + b % m;
    assert m * (b / m - q) == m * (b / m) - m * q;
    Multiple(m, b / m - q);
  }

  /** Splitting a remainder of twice `m` at `m`. */
  lemma HalfMod(b: nat, m: nat)
    requires m >= 1
    ensures b / m % 2 == 1 <==> b % (2 * m) >= m
    ensures b % m == if b % (2 * m) >= m then b % (2 * m) - m else b % (2 * m)
  {
    HalfModOf(b, m, 2 * m);
  }

  lemma HalfModOf(b: nat, m: nat, two: nat)
    requires m >= 1 && two == 2 * m
    ensures b / m % 2 == 1 <==> b % two >= m
    ensures b % m == if b % two >= m then b % two - m else b % two
  {
    var q, rest := b / two, b % two;
    Euclid(b, two);
    var half := if rest >= m then 1 else 0;
    assert two * q == m * (2 * q) by { TwiceLeft(m, q); }
    assert m * (2 * q + half) == m * (2 * q) + m * half;
    DivModOf(b, m, 2 * q + half, rest - m * half);
  }

  lemma Euclid(b: nat, m: nat)
    requires m >= 1
    ensures b == m * (b / m) + b % m && 0 <= b % m < m && b / m >= 0
  {
  }

  lemma TwiceLeft(m: nat, q: nat)
    ensures (2 * m) * q == m * (2 * q)
  {
  }

  lemma Twice(p: nat, v: nat)
    ensures 2 * (p * v) == (2 * p) * v
  {
  }

  /** A product loses exactly what lies above the modulus. */
  lemma ShiftedOut(v: nat, low: nat, high: nat, a: nat, b: nat, m: nat)
    requires v == low + b * high && m == a * b && a * low < m
    ensures v * a % m == a * low
  {
    assert v * a == m * high + a * low by {
      assert (b * high) * a == (a * b) * high;
      assert (low + b * high) * a == low * a + (b * high) * a;
    }
    DivModOf(v * a, m, high, a * low);
  }

  lemma PowerTable()
    ensures Pow2(2) == 4 && Pow2(3) == 8 && Pow2(7) == 0x80 && Pow2(9) == 0x200
    ensures Pow2(12) == 0x1000 && Pow2(20) == 0x10_0000 && Pow2(25) == 0x200_0000
    ensures Pow2(32) == 0x1_0000_0000
  {
    assert Pow2(5) == 32 && Pow2(10) == 1024 && Pow2(12) == 0x1000;
    Pow2Sum(10, 10);
    Pow2Sum(20, 5);
    Pow2Sum(20, 12);
  }
}
