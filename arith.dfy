/** Facts about multiplication and division, on integers and on reals, that
    the solver does not find on its own. */
module Arith {

  lemma MulMonotone(a: int, b: int, k: int)
    requires a <= b && k > 0
    ensures a * k <= b * k
  {
    assert b * k - a * k == (b - a) * k;
  }

  /** i / L and i % L are the unique q, r with i == q * L + r and 0 <= r < L. */
  lemma DivModUnique(i: int, L: int, q: int, r: int)
    requires L > 0 && i == q * L + r && 0 <= r < L
    ensures i / L == q && i % L == r
  {
    var q0, r0 := i / L, i % L;
    assert i == q0 * L + r0;
    if q0 < q {
      MulMonotone(q0 + 1, q, L);
    } else if q < q0 {
      MulMonotone(q + 1, q0, L);
    }
  }

  lemma DivMonotone(i: nat, j: nat, L: int)
    requires i <= j && L > 0
    ensures i / L <= j / L
  {
    var qi, qj := i / L, j / L;
    assert i == qi * L + i % L && j == qj * L + j % L;
    if qj < qi {
      MulMonotone(qj + 1, qi, L);
    }
  }

  /** A real with an inverse has a nonzero square. */
  lemma SquareNonZero(d: real, e: real)
    requires d * e == 1.0
    ensures d * d != 0.0
  {
    if d * d == 0.0 {
      assert d == (d * d) * e;
    }
  }

  lemma PositiveProduct(a: real, b: real)
    requires a > 0.0 && b > 0.0
    ensures a * b > 0.0
  {
  }

  lemma NonNegativeSquare(a: real)
    ensures a * a >= 0.0
  {
    if a < 0.0 {
      PositiveProduct(-a, -a);
    }
  }

  lemma NonNegativeProduct(a: real, b: real)
    requires a >= 0.0 && b > 0.0
    ensures a * b >= 0.0
  {
  }

  lemma PositiveQuotient(a: real, b: real)
    requires a > 0.0 && b > 0.0
    ensures a / b > 0.0
  {
  }

  lemma BelowQuotient(x: real, t: real, dt: real)
    requires dt > 0.0
    ensures x * dt < t <==> x < t / dt
  {
    var q := t / dt;
    assert q * dt == t;
    if x < q {
      assert q * dt - x * dt == (q - x) * dt;
      PositiveProduct(q - x, dt);
    } else {
      assert x * dt - q * dt == (x - q) * dt;
      NonNegativeProduct(x - q, dt);
    }
  }

  /** Scaling a non-negative value by a factor in [0, 1] keeps it in [0, x]. */
  lemma ScaledBetween(x: real, f: real)
    ensures x >= 0.0 && 0.0 <= f <= 1.0 ==> 0.0 <= x * f <= x
  {
    if x >= 0.0 && 0.0 < f < 1.0 {
      NonNegativeProduct(x, f);
      NonNegativeProduct(x, 1.0 - f);
      assert x - x * f == x * (1.0 - f);
    }
  }

  function Abs(x: int): nat { if x < 0 then -x else x }

  function AbsReal(x: real): real { if x < 0.0 then -x else x }

  /** Against a nonzero e, f * e is smaller in magnitude exactly when |f| < 1
      and larger exactly when |f| > 1. */
  lemma ScaledMagnitude(f: real, e: real)
    requires e != 0.0
    ensures AbsReal(f * e) < AbsReal(e) <==> AbsReal(f) < 1.0
    ensures AbsReal(f * e) > AbsReal(e) <==> AbsReal(f) > 1.0
  {
    var a, b := AbsReal(f), AbsReal(e);
    assert AbsReal(f * e) == a * b by {
      if f < 0.0 && e < 0.0 { assert f * e == (-f) * (-e); }
      else if f < 0.0 { assert -(f * e) == (-f) * e; }
      else if e < 0.0 { assert -(f * e) == f * (-e); }
    }
    assert a * b - b == (a - 1.0) * b;
    if a < 1.0 {
      PositiveProduct(1.0 - a, b);
    } else if a > 1.0 {
      PositiveProduct(a - 1.0, b);
    }
  }

  /** A distance d == (1 - x) * e to a nonzero e shrinks exactly when
      0 < x < 2, and grows whenever x < 0. */
  lemma FactorMagnitude(d: real, x: real, e: real)
    requires e != 0.0 && d == (1.0 - x) * e
    ensures AbsReal(d) < AbsReal(e) <==> 0.0 < x < 2.0
    ensures x < 0.0 ==> AbsReal(d) > AbsReal(e)
  {
    ScaledMagnitude(1.0 - x, e);
    assert AbsReal(1.0 - x) == if x <= 1.0 then 1.0 - x else x - 1.0;
  }

  lemma Products(n: int, r: int, s: int, k: int)
    requires k > 0
    ensures (n - s * k) - (n - r * k) == (r - s) * k
    ensures r - s >= 1 ==> (r - s) * k >= k && (r - s >= 2 ==> (r - s) * k >= 2 * k)
    ensures r - s <= -1 ==> -((r - s) * k) >= k && (r - s <= -2 ==> -((r - s) * k) >= 2 * k)
  {
    var d := r - s;
    if d >= 1 {
      MulAtLeast(d, k);
    } else if d <= -1 {
      MulAtLeast(-d, k);
      assert (-d) * k == -(d * k);
    }
  }

  /* The arithmetic core of uniqueness, free of multiplication. */
  lemma NearestTies(a: int, b: int, d: int, dk: int, k: int, s: int, r: int)
    requires k > 0 && a - b == dk && d == r - s
    requires 2 * Abs(a) <= k && 2 * Abs(b) <= k
    requires 2 * Abs(a) == k ==> s % 2 == 0
    requires 2 * Abs(b) == k ==> r % 2 == 0
    requires d >= 1 ==> dk >= k && (d >= 2 ==> dk >= 2 * k)
    requires d <= -1 ==> -dk >= k && (d <= -2 ==> -dk >= 2 * k)
    ensures d == 0
  {
  }

  lemma MulAtLeast(d: int, k: int)
    requires d >= 1 && k > 0
    ensures d * k >= k
    ensures d >= 2 ==> d * k >= 2 * k
  {
  }
}
