/** Facts about integer division and remainder with a variable divisor,
    which the solver does not find by itself. Dafny's `%` agrees with
    Python's for a positive divisor. */
module Arith {

  /** Adding the divisor does not change the remainder. */
  lemma ModShift(k: nat, n: nat)
    requires n > 0
    ensures (k + n) % n == k % n
  {
    var q, r := k / n, k % n;
    assert k == q * n + r;
    assert k + n == (q + 1) * n + r;
    ModUnique(k + n, n, q + 1, r);
  }

  /** The quotient and remainder are the only q and r in [0, n) with
      a == q * n + r. */
  lemma ModUnique(a: int, n: int, q: int, r: int)
    requires n > 0 && 0 <= r < n && a == q * n + r
    ensures a % n == r && a / n == q
  {
    var q', r' := a / n, a % n;
    assert a == q' * n + r';
    if q > q' {
      MulAtLeast(q - q', n);
    } else if q < q' {
      MulAtLeast(q' - q, n);
    }
  }

  lemma MulAtLeast(d: int, n: int)
    requires d >= 1 && n > 0
    ensures d * n >= n
  {
  }

  /** Euclid's greatest common divisor. */
  function Gcd(a: nat, b: nat): nat
    decreases b
  {
    if b == 0 then a else Gcd(b, a % b)
  }

  /** Bezout coefficients from the extended Euclidean algorithm. */
  function Bezout(a: nat, b: nat): (r: (int, int))
    ensures a * r.0 + b * r.1 == Gcd(a, b)
    decreases b
  {
    if b == 0 then (1, 0)
    else
      var (x, y) := Bezout(b, a % b);
      BezoutStep(a, b, x, y, Gcd(b, a % b));
      (y, x - (a / b) * y)
  }

  lemma BezoutStep(a: nat, b: nat, x: int, y: int, g: int)
    requires b > 0 && b * x + (a % b) * y == g
    ensures a * y + b * (x - (a / b) * y) == g
  {
    var q, r := a / b, a % b;
    assert a == q * b + r;
    assert a * y == q * b * y + r * y;
    assert b * (x - q * y) == b * x - q * b * y;
  }

  /** If n divides a * p and n is coprime to p, then n divides a. */
  lemma CoprimeCancel(n: nat, p: nat, a: int)
    requires n > 0 && Gcd(n, p) == 1
    requires (a * p) % n == 0
    ensures a % n == 0
  {
    var (x, y) := Bezout(n, p);
    var q := (a * p) / n;
    assert a * p == n * q;
    CancelCore(n, p, a, x, y, q);
    ModUnique(a, n, a * x + q * y, 0);
  }

  lemma CancelCore(n: int, p: int, a: int, x: int, y: int, q: int)
    requires n * x + p * y == 1 && a * p == n * q
    ensures a == (a * x + q * y) * n
  {
    assert a == a * (n * x + p * y);
    assert a * (n * x + p * y) == (a * x) * n + (a * p) * y;
    assert (a * p) * y == (q * y) * n;
  }

  /** A multiple of n strictly between -n and n is zero. */
  lemma SmallMultipleIsZero(d: int, n: int)
    requires n > 0 && -n < d < n && d % n == 0
    ensures d == 0
  {
    var q := d / n;
    assert d == q * n;
    if q >= 1 {
      MulAtLeast(q, n);
    } else if q <= -1 {
      MulAtLeast(-q, n);
    }
  }

  /** Python's `a // b` (rounding toward minus infinity) for b != 0. */
  function FloorDiv(a: int, b: int): int
    requires b != 0
  {
    if b > 0 then a / b else (-a) / (-b)
  }

  /** Python's `a % b`, which takes the sign of b. */
  function FloorMod(a: int, b: int): (r: int)
    requires b != 0
    ensures a == b * FloorDiv(a, b) + r
    ensures b > 0 ==> 0 <= r < b && r == a % b && FloorDiv(a, b) == a / b
    ensures b < 0 ==> b < r <= 0
  {
    a - b * FloorDiv(a, b)
  }
}
