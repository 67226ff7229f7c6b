/** Multiples and powers, for block sizes and for the digits of a counter. */
module Arithmetic {

  /** A multiple of `m` that is not 0 is at least `m` away from it. */
  lemma Multiples(d: int, m: nat)
    requires m > 0
    ensures d >= 1 ==> d * m >= m
    ensures d <= -1 ==> d * m <= 0 - m
  {
    if d >= 1 {
      assert (d - 1) * m >= 0;
    } else if d <= -1 {
      assert (d + 1) * m <= 0;
    }
  }

  lemma MultipleMod(k: int, m: nat)
    requires m > 0
    ensures (k * m) % m == 0
  {
    var q := (k * m) / m;
    Multiples(k - q, m);
    assert (k - q) * m == k * m - q * m == (k * m) % m;
  }

  lemma ModAdd(x: int, y: int, m: nat)
    requires m > 0 && x % m == 0 && y % m == 0
    ensures (x + y) % m == 0 && (x - y) % m == 0
  {
    var i, j := x / m, y / m;
    assert x == i * m && y == j * m;
    MultipleMod(i + j, m);
    MultipleMod(i - j, m);
    assert (i + j) * m == x + y && (i - j) * m == x - y;
  }

  /** Two multiples less than `m` apart are equal. */
  lemma ModClose(x: int, y: int, m: nat)
    requires m > 0 && x % m == 0 && y % m == 0 && x - y < m && y - x < m
    ensures x == y
  {
    ModAdd(x, y, m);
    var d := (x - y) / m;
    assert x - y == d * m;
    Multiples(d, m);
  }

  function Power(b: nat, n: nat): (p: nat)
    requires b > 0
    ensures p > 0
  {
    if n == 0 then 1 else b * Power(b, n - 1)
  }

  predicate PowerDivides(b: nat, n: nat, x: nat)
    requires b > 0
  {
    x % Power(b, n) == 0
  }

  /** Digit `n - 1` of `x` to base `b` is zero, given the lower ones are, exactly when `x` is a
      multiple of the next power. */
  lemma DigitZero(x: nat, b: nat, n: nat)
    requires b > 1 && n >= 1 && PowerDivides(b, n - 1, x)
    ensures (x / Power(b, n - 1)) % b == 0 <==> PowerDivides(b, n, x)
    ensures x / Power(b, n - 1) / b == x / Power(b, n)
  {
    DivDiv(x, Power(b, n - 1), b);
  }

  lemma DivDiv(x: nat, p: nat, b: nat)
    requires p > 0 && b > 0 && x % p == 0
    ensures b * p > 0
    ensures (x / p) % b == 0 <==> x % (b * p) == 0
    ensures x / p / b == x / (b * p)
  {
    var y := x / p;
    var q, d := y / b, y % b;
    assert x == y * p && y == q * b + d;
    assert x == q * (b * p) + d * p by {
      assert (q * b + d) * p == q * (b * p) + d * p;
    }
    assert 0 <= d * p < b * p by {
      assert (b - d) * p > 0;
    }
    DivIs(x, b * p, q, d * p);
  }

  lemma DivIs(x: nat, m: nat, q: nat, r: nat)
    requires m > 0 && x == q * m + r && r < m
    ensures x / m == q && x % m == r
  {
    var e := x / m;
    assert x == e * m + x % m;
    assert (e - q) * m == r - x % m;
    Multiples(e - q, m);
  }

  /** Not a multiple of one power, then of no higher one. */
  lemma {:induction false} HigherPowers(x: nat, b: nat, n: nat, j: nat)
    requires b > 1 && n <= j && !PowerDivides(b, n, x)
    ensures !PowerDivides(b, j, x)
  {
    if n < j {
      HigherPowers(x, b, n, j - 1);
      FactorMod(x, b, Power(b, j - 1));
    }
  }

  lemma FactorMod(x: nat, b: nat, p: nat)
    requires b > 0 && p > 0 && x % p != 0
    ensures b * p > 0 && x % (b * p) != 0
  {
    assert b * p > 0;
    if x % (b * p) == 0 {
      var e := x / (b * p);
      assert x == e * (b * p) == (e * b) * p;
      MultipleMod(e * b, p);
    }
  }
}
