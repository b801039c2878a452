/** Integer arithmetic that the models share: products, quotients, and counting around a modulus. */
module Arithmetic {

  function Min(a: int, b: int): int { if a < b then a else b }

  function Max(a: int, b: int): int { if a > b then a else b }

  /** A sample at a level. */
  function Scaled(level: real, x: real): real { level * x }

  lemma ProductMonotone(a: int, b: int, c: nat)
    requires a <= b
    ensures a * c <= b * c
  {
    assert b * c == a * c + (b - a) * c;
    assert (b - a) * c >= 0;
  }

  /** A product under a name, so that only the facts asked for are looked at. */
  function Product(a: nat, b: nat): nat { a * b }

  lemma {:induction false} ProductNext(a: nat, b: nat)
    requires a > 0
    ensures Product(a, b) == b + Product(a - 1, b)
  {
    assert a * b == (a - 1) * b + b;
  }

  lemma {:induction false} ProductAtLeast(a: nat, b: nat)
    requires b > 0
    ensures a <= Product(a, b)
  {
    ProductMonotone(1, b, a);
    assert b * a == a * b;
  }

  lemma {:induction false} ProductCommutes(a: nat, b: nat)
    ensures Product(a, b) == Product(b, a)
  {
  }

  lemma {:induction false} ProductAssociates(a: nat, b: nat, c: nat)
    ensures Product(Product(a, b), c) == Product(a, Product(b, c))
  {
  }

  lemma {:induction false} ProductDistributes(a: nat, b: nat, c: nat)
    ensures Product(a + b, c) == Product(a, c) + Product(b, c)
  {
  }

  lemma {:induction false} ProductGrows(a: nat, b: nat, c: nat)
    requires a <= b
    ensures Product(a, c) <= Product(b, c)
  {
    ProductDistributes(a, b - a, c);
  }

  lemma {:induction false} QuotientBounds(a: nat, b: nat)
    requires b > 0
    ensures Product(a / b, b) <= a < Product(a / b, b) + b
  {
  }

  lemma {:induction false} QuotientAtMost(a: nat, b: nat, m: nat)
    requires b > 0 && a < Product(m, b) + b
    ensures a / b <= m
  {
    QuotientBounds(a, b);
    ProductDistributes(m, 1, b);
    if a / b > m {
      ProductGrows(m + 1, a / b, b);
    }
  }

  lemma {:induction false} QuotientAtLeast(a: nat, b: nat, m: nat)
    requires b > 0 && Product(m, b) <= a
    ensures m <= a / b
  {
    QuotientBounds(a, b);
    ProductDistributes(a / b, 1, b);
    if m > a / b {
      ProductGrows(a / b + 1, m, b);
    }
  }

  lemma QuotientIs(n: int, d: nat, q: int, m: nat)
    requires d > 0 && n == q * d + m && m < d
    ensures n / d == q && n % d == m
  {
    var q', m' := n / d, n % d;
    assert n == q' * d + m';
    assert (q' + 1) * d == q' * d + d && (q + 1) * d == q * d + d;
    if q' < q {
      ProductMonotone(q' + 1, q, d);
    } else if q < q' {
      ProductMonotone(q + 1, q', d);
    }
  }

  /** Multiples of the divisor make no difference to a remainder. */
  lemma ModShift(n: int, k: int, d: nat)
    requires d > 0
    ensures (n + k * d) % d == n % d
  {
    var q, m := n / d, n % d;
    assert n + k * d == (q + k) * d + m by {
      assert n == q * d + m;
      assert (q + k) * d == q * d + k * d;
    }
    QuotientIs(n + k * d, d, q + k, m);
  }

  // ---------------------------------------------------------------- greatest common divisors

  function Gcd(a: nat, b: nat): (g: nat)
    ensures a > 0 || b > 0 ==> g > 0
    decreases b
  {
    if b == 0 then a else Gcd(b, a % b)
  }

  lemma {:induction false} GcdDivides(a: nat, b: nat) returns (p: nat, q: nat)
    requires a > 0 || b > 0
    ensures a == p * Gcd(a, b) && b == q * Gcd(a, b)
    decreases b
  {
    if b == 0 {
      p, q := 1, 0;
    } else {
      var g := Gcd(b, a % b);
      var r;
      q, r := GcdDivides(b, a % b);
      p := a / b * q + r;
      assert a == a / b * b + a % b;
      assert a / b * (q * g) == a / b * q * g;
      assert p * g == a / b * q * g + r * g;
    }
  }

  lemma {:induction false} Bezout(a: nat, b: nat) returns (x: int, y: int)
    requires a > 0 || b > 0
    ensures a * x + b * y == Gcd(a, b)
    decreases b
  {
    if b == 0 {
      x, y := 1, 0;
    } else {
      var u, v := Bezout(b, a % b);
      x, y := v, u - a / b * v;
      assert a % b == a - b * (a / b);
      assert (a - b * (a / b)) * v == a * v - b * (a / b) * v;
      assert b * (u - a / b * v) == b * u - b * (a / b * v);
      assert b * (a / b) * v == b * (a / b * v);
    }
  }

  lemma GcdAtMost(a: nat, b: nat)
    requires b > 0
    ensures 0 < Gcd(a, b) <= b
    ensures b % Gcd(a, b) == 0
  {
    var p, q := GcdDivides(a, b);
    var g := Gcd(a, b);
    if q == 0 {
      ZeroTimes(g);
    } else {
      ProductMonotone(1, q, g);
    }
    QuotientIs(b, g, q, 0);
  }

  lemma ZeroTimes(n: int)
    ensures 0 * n == 0
  {
  }

  lemma GcdOfDivisor(a: nat, b: nat)
    requires 0 < a && 0 < b && b % a == 0
    ensures Gcd(a, b) == a
  {
    if a < b {
      QuotientIs(a, b, 0, a);
      assert Gcd(b, a) == Gcd(a, 0);
    } else {
      var k := b / a;
      assert b == k * a;
      if k >= 2 {
        ProductMonotone(2, k, a);
      } else if k <= 0 {
        ProductMonotone(k, 0, a);
      }
      assert a % a == 0;
    }
  }

  // ---------------------------------------------------------------- steps around a modulus

  lemma StepsExpand(start: int, n: int, step: int, p: int, modulus: int, m: int, g: int, q: int)
    requires step == p * g && modulus == m * g
    ensures start + n * step - q * modulus == start + (n * p - q * m) * g
  {
    assert n * (p * g) == n * p * g;
    assert q * (m * g) == q * m * g;
    assert (n * p - q * m) * g == n * p * g - q * m * g;
  }

  /** Steps around a modulus keep the remainder by the greatest common divisor. */
  lemma RemainderKept(start: int, step: nat, modulus: nat, n: int)
    requires modulus > 0
    ensures Gcd(step, modulus) > 0
    ensures (start + n * step) % modulus % Gcd(step, modulus) == start % Gcd(step, modulus)
  {
    var g := Gcd(step, modulus);
    var p, m := GcdDivides(step, modulus);
    var x := start + n * step;
    var q := x / modulus;
    assert x % modulus == x - q * modulus;
    StepsExpand(start, n, step, p, modulus, m, g, q);
    ModShift(start, n * p - q * m, g);
  }

  /** Steps of `step` around `modulus` come to every multiple of the greatest common divisor. */
  lemma Reach(step: nat, modulus: nat, t: int) returns (n: nat, k: int)
    requires modulus > 0
    ensures n * step == modulus * k - Gcd(step, modulus) * t
  {
    var x, y := Bezout(step, modulus);
    var g := Gcd(step, modulus);
    var m := -x * t;
    n := m % modulus;
    var q := m / modulus;
    k := y * t - q * step;
    ReachSum(step, modulus, x, y, t, q, n);
  }

  lemma ReachSum(step: int, modulus: int, x: int, y: int, t: int, q: int, n: int)
    requires -x * t == q * modulus + n
    ensures n * step == modulus * (y * t - q * step) - (step * x + modulus * y) * t
  {
    assert n == -(x * t) - q * modulus;
    assert n * step == -(x * t) * step - q * modulus * step;
    assert modulus * (y * t - q * step) == modulus * (y * t) - modulus * (q * step);
    assert (step * x + modulus * y) * t == step * x * t + modulus * y * t;
    assert modulus * (y * t) == modulus * y * t;
    assert modulus * (q * step) == q * modulus * step;
    assert step * x * t == (x * t) * step;
  }

  lemma ReachedSum(start: int, n: int, step: int, modulus: int, k: int, g: int, t: int, r: int)
    requires n * step == modulus * k - g * t && start == r + g * t
    ensures start + (n + modulus) * step == (k + step) * modulus + r
  {
    assert (n + modulus) * step == n * step + modulus * step;
    assert (k + step) * modulus == k * modulus + step * modulus;
  }

  /** They come to every remainder that this leaves. */
  lemma RemainderReached(start: int, step: nat, modulus: nat, r: nat) returns (n: nat)
    requires r < modulus && r % Gcd(step, modulus) == start % Gcd(step, modulus)
    ensures n > 0 && (start + n * step) % modulus == r
  {
    var g := Gcd(step, modulus);
    var t := start / g - r / g;
    assert start == r + g * t by {
      assert start == start / g * g + start % g && r == r / g * g + r % g;
      assert g * t == start / g * g - r / g * g;
    }
    var j, k := Reach(step, modulus, t);
    n := j + modulus;
    ReachedSum(start, j, step, modulus, k, g, t, r);
    QuotientIs(start + n * step, modulus, k + step, r);
  }

  /** A multiple of a divisor of `m` that is below `m` is a whole divisor below it. */
  lemma MultipleBelow(x: nat, m: nat, g: nat)
    requires g > 0 && x < m && x % g == 0 && m % g == 0
    ensures x <= m - g
  {
    var j, k := x / g, m / g;
    assert x == j * g && m == k * g;
    if j >= k {
      ProductMonotone(k, j, g);
    } else {
      ProductMonotone(j, k - 1, g);
      assert (k - 1) * g == k * g - g;
    }
  }
}
