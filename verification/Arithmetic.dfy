/** Greatest common divisors: the loop of chrono_io and what the unit conversion needs to know of it. */
module Arithmetic {

  newtype uint64 = x: int | 0 <= x <= 0xFFFF_FFFF_FFFF_FFFF

  const UINT64_MAX: nat := 0xFFFF_FFFF_FFFF_FFFF

  ghost predicate Divides(d: nat, n: nat) {
    exists k: nat :: d * k == n
  }

  function Gcd(x: nat, y: nat): nat
    decreases y
  {
    if y == 0 then x else Gcd(y, x % y)
  }

  /** __gcd. */
  method ComputeGcd(x: uint64, y: uint64) returns (g: uint64)
    ensures g as nat == Gcd(x as nat, y as nat)
  {
    var a, b := x, y;
    while b != 0
      invariant Gcd(a as nat, b as nat) == Gcd(x as nat, y as nat)
    {
      a, b := b, a % b;
    }
    g := a;
  }

  // ------------------------------------------------- the greatest divisor

  lemma DividesSum(d: nat, a: nat, b: nat, q: nat)
    requires Divides(d, a) && Divides(d, b)
    ensures Divides(d, a * q + b)
  {
    var i: nat :| d * i == a;
    var j: nat :| d * j == b;
    assert d * (i * q + j) == a * q + b by { Distribute(d, i, q, j); }
  }

  lemma Distribute(d: int, i: int, q: int, j: int)
    ensures d * (i * q + j) == (d * i) * q + d * j
  {
  }

  lemma FactorOut(g: int, a: int, i: int, b: int, j: int)
    ensures a * (g * i) + b * (g * j) == g * (a * i + b * j)
  {
  }

  lemma DividesRemainder(d: nat, x: nat, y: nat)
    requires y > 0 && Divides(d, x) && Divides(d, y)
    ensures Divides(d, x % y)
  {
    DivisorIsSmaller(d, y);
    var i: nat :| d * i == x;
    var j: nat :| d * j == y;
    var q := x / y;
    Distribute(d, j, -q, i);
    assert y * -q == -(y * q);
    assert d * (j * -q + i) == x % y;
    NonNegativeFactor(d, j * -q + i);
  }

  lemma NonNegativeFactor(d: int, n: int)
    requires d > 0 && d * n >= 0
    ensures n >= 0
  {
  }

  lemma DivisorIsSmaller(d: nat, n: nat)
    requires Divides(d, n) && n > 0
    ensures 0 < d <= n
  {
  }

  lemma MonotoneProduct(d: nat, a: nat, b: nat)
    requires a <= b
    ensures d * a <= d * b
  {
  }

  lemma {:induction false} GcdDivides(x: nat, y: nat)
    ensures Divides(Gcd(x, y), x) && Divides(Gcd(x, y), y)
    decreases y
  {
    if y == 0 {
      assert x * 1 == x && x * 0 == 0;
    } else {
      GcdDivides(y, x % y);
      DividesSum(Gcd(x, y), y, x % y, x / y);
      assert y * (x / y) + x % y == x;
    }
  }

  lemma {:induction false} CommonDivisorDividesGcd(x: nat, y: nat, d: nat)
    requires Divides(d, x) && Divides(d, y)
    ensures Divides(d, Gcd(x, y))
    decreases y
  {
    if y != 0 {
      DividesRemainder(d, x, y);
      CommonDivisorDividesGcd(y, x % y, d);
    }
  }

  /** The loop's result is the greatest common divisor, for all inputs that are not both zero. */
  lemma GcdIsGreatest(x: nat, y: nat)
    requires x != 0 || y != 0
    ensures Gcd(x, y) > 0 && Divides(Gcd(x, y), x) && Divides(Gcd(x, y), y)
    ensures forall d: nat :: Divides(d, x) && Divides(d, y) ==> d <= Gcd(x, y) && Divides(d, Gcd(x, y))
  {
    GcdDivides(x, y);
    var g := Gcd(x, y);
    if x != 0 { DivisorIsSmaller(g, x); } else { DivisorIsSmaller(g, y); }
    forall d: nat | Divides(d, x) && Divides(d, y) ensures d <= g && Divides(d, g) {
      CommonDivisorDividesGcd(x, y, d);
      DivisorIsSmaller(d, g);
    }
  }

  // ------------------------------------------------------ no common divisor

  predicate Coprime(x: nat, y: nat) {
    Gcd(x, y) == 1
  }

  lemma {:induction false} Bezout(x: nat, y: nat) returns (a: int, b: int)
    ensures a * x + b * y == Gcd(x, y)
    decreases y
  {
    if y == 0 {
      a, b := 1, 0;
    } else {
      var c, d := Bezout(y, x % y);
      var q := x / y;
      a, b := d, c - d * q;
      assert x % y == x - q * y;
      assert d * x + (c - d * q) * y == c * y + d * (x - q * y) by { BezoutStep(c, d, q, x, y); }
    }
  }

  lemma BezoutStep(c: int, d: int, q: int, x: int, y: int)
    ensures d * x + (c - d * q) * y == c * y + d * (x - q * y)
  {
  }

  lemma CoprimeFrom(x: nat, y: nat, a: int, b: int)
    requires a * x + b * y == 1
    ensures Coprime(x, y)
  {
    var g := Gcd(x, y);
    GcdDivides(x, y);
    var i: nat :| g * i == x;
    var j: nat :| g * j == y;
    FactorOut(g, a, i, b, j);
    UnitProduct(g, a * i + b * j);
  }

  lemma UnitProduct(g: nat, n: int)
    requires g * n == 1
    ensures g == 1
  {
  }

  /** Divisors of coprime numbers are coprime. */
  lemma CoprimeDivisors(x: nat, y: nat, x1: nat, y1: nat, kx: nat, ky: nat)
    requires Coprime(x, y) && x == kx * x1 && y == ky * y1
    ensures Coprime(x1, y1)
  {
    var a, b := Bezout(x, y);
    assert a * (kx * x1) == (a * kx) * x1;
    assert b * (ky * y1) == (b * ky) * y1;
    CoprimeFrom(x1, y1, a * kx, b * ky);
  }

  /** What is left after dividing by the greatest common divisor is coprime. */
  lemma CoprimeQuotients(x: nat, y: nat, x1: nat, y1: nat)
    requires Gcd(x, y) > 0 && x == Gcd(x, y) * x1 && y == Gcd(x, y) * y1
    ensures Coprime(x1, y1)
  {
    var g := Gcd(x, y);
    var a, b := Bezout(x, y);
    FactorOut(g, a, x1, b, y1);
    CancelOne(g, a * x1 + b * y1);
    CoprimeFrom(x1, y1, a, b);
  }

  lemma CancelOne(g: nat, n: int)
    requires g > 0 && g * n == g
    ensures n == 1
  {
  }

  lemma CoprimeSymmetric(x: nat, y: nat)
    requires Coprime(x, y)
    ensures Coprime(y, x)
  {
    var a, b := Bezout(x, y);
    CoprimeFrom(y, x, b, a);
  }

  /** Coprime to both factors, coprime to the product. */
  lemma CoprimeProduct(x: nat, y: nat, z: nat)
    requires Coprime(x, y) && Coprime(x, z)
    ensures Coprime(x, y * z)
  {
    var a, b := Bezout(x, y);
    var c, d := Bezout(x, z);
    CoprimeProductStep(x, y, z, a, b, c, d);
    CoprimeFrom(x, y * z, a + b * y * c, b * d);
  }

  lemma CoprimeProductStep(x: int, y: int, z: int, a: int, b: int, c: int, d: int)
    requires a * x + b * y == 1 && c * x + d * z == 1
    ensures (a + b * y * c) * x + (b * d) * (y * z) == 1
  {
  }

  /** Euclid: a divisor of a product that is coprime to one factor divides the other. */
  lemma EuclidsLemma(b: nat, a: nat, r: nat)
    requires b > 0 && Coprime(a, b) && Divides(b, r * a)
    ensures Divides(b, r)
  {
    var u, v := Bezout(a, b);
    var k: nat :| b * k == r * a;
    var n := u * k + v * r;
    EuclidStep(b, a, r, u, v, k);
    NonNegativeFactor(b, n);
  }

  lemma EuclidStep(b: int, a: int, r: int, u: int, v: int, k: int)
    requires u * a + v * b == 1 && b * k == r * a
    ensures b * (u * k + v * r) == r
  {
  }

  /** A divisor shows in the greatest common divisor. */
  lemma GcdOfMultiple(r: nat, b: nat)
    requires b > 0
    ensures Gcd(r, b) == b <==> Divides(b, r)
  {
    if Gcd(r, b) == b {
      GcdDivides(r, b);
    }
    if Divides(b, r) {
      GcdIsGreatest(r, b);
      assert Divides(b, b) by { assert b * 1 == b; }
      assert b <= Gcd(r, b);
      DivisorIsSmaller(Gcd(r, b), b);
    }
  }

  lemma ExactQuotient(g: nat, k: nat, b: nat)
    requires g > 0 && g * k == b
    ensures b / g == k
  {
    var q := b / g;
    assert g * (k - q) == b % g by {
      assert b == g * q + b % g;
      assert g * (k - q) == g * k - g * q;
    }
    SmallProduct(g, k - q);
  }

  lemma SmallProduct(g: int, n: int)
    requires 0 <= g * n < g
    ensures n == 0
  {
  }

  lemma ProductIsNat(a: nat, b: nat)
    ensures a * b >= 0
  {
  }

  /** The greatest common divisor divides without remainder. */
  lemma QuotientTimes(x: nat, y: nat)
    requires Gcd(x, y) > 0
    ensures x == Gcd(x, y) * (x / Gcd(x, y)) && y == Gcd(x, y) * (y / Gcd(x, y))
  {
    var g := Gcd(x, y);
    GcdDivides(x, y);
    var i: nat :| g * i == x;
    var j: nat :| g * j == y;
    ExactQuotient(g, i, x);
    ExactQuotient(g, j, y);
  }
}
