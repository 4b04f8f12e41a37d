/** The conversion at the end of chrono_io's duration reader: a count of one unit as a count of another. */
module DurationReader {
  import opened Arithmetic

  /** What the reader does with a count and a unit. A written unit with a zero in it makes it divide by zero. */
  datatype Outcome = Stored(count: nat) | Rejected | DividesByZero

  function Product(a: nat, b: nat): nat {
    ProductIsNat(a, b);
    a * b
  }

  /** The two parts of (num/den) / (pn/pd), reduced crosswise as the reader reduces them. */
  function FactorNum(num: nat, den: nat, pn: nat, pd: nat): nat
    requires pn > 0 && pd > 0
  {
    GcdPositive(num, pn);
    GcdPositive(den, pd);
    Product(num / Gcd(num, pn), pd / Gcd(den, pd))
  }

  function FactorDen(num: nat, den: nat, pn: nat, pd: nat): nat
    requires pn > 0 && pd > 0
  {
    GcdPositive(num, pn);
    GcdPositive(den, pd);
    Product(den / Gcd(den, pd), pn / Gcd(num, pn))
  }

  lemma GcdPositive(x: nat, y: nat)
    requires y > 0
    ensures 0 < Gcd(x, y) <= y
  {
    GcdIsGreatest(x, y);
    DivisorIsSmaller(Gcd(x, y), y);
  }

  /** `count` of (num/den) in units of pn/pd: the reduced factor must fit, its denominator must divide the
      count, and the result must fit. */
  ghost function Convert(count: nat, num: nat, den: nat, pn: nat, pd: nat, max: nat): Outcome
    requires pn > 0 && pd > 0
  {
    var a, b := FactorNum(num, den, pn, pd), FactorDen(num, den, pn, pd);
    if a > UINT64_MAX || b > UINT64_MAX || !Divides(b, count) then Rejected
    else if a == 0 || b == 0 then DividesByZero
    else
      var q := Scaled(count, a, b);
      if q > max then Rejected else Stored(q)
  }

  function Scaled(count: nat, a: nat, b: nat): nat
    requires b > 0
  {
    Product(count / b, a)
  }

  lemma ProductFits(a: nat, b: nat)
    requires b > 0
    ensures a > UINT64_MAX / b <==> a * b > UINT64_MAX
  {
    var q := UINT64_MAX / b;
    assert q * b <= UINT64_MAX < (q + 1) * b;
    if a > q {
      MonotoneProduct(b, q + 1, a);
    } else {
      MonotoneProduct(b, a, q);
    }
  }

  lemma DividesZero(n: nat)
    ensures Divides(0, n) <==> n == 0
  {
    if n == 0 {
      assert 0 * 0 == n;
    }
  }

  /** operator>> from the unit on. All products are 64-bit and none overflows. */
  method ConvertCount(count: uint64, num: uint64, den: uint64, pn: uint64, pd: uint64, max: uint64)
    returns (o: Outcome)
    requires pn > 0 && pd > 0
    ensures o == Convert(count as nat, num as nat, den as nat, pn as nat, pd as nat, max as nat)
  {
    var fits, a, b := ReduceFactor(num, den, pn, pd);
    if !fits {
      return Rejected;
    }
    o := ApplyFactor(count, a, b, max);
  }

  /** Reduces (num/den) / (pn/pd) to lowest terms, if both parts fit. */
  method ReduceFactor(num: uint64, den: uint64, pn: uint64, pd: uint64) returns (fits: bool, a: uint64, b: uint64)
    requires pn > 0 && pd > 0
    ensures fits <==> FactorNum(num as nat, den as nat, pn as nat, pd as nat) <= UINT64_MAX
                      && FactorDen(num as nat, den as nat, pn as nat, pd as nat) <= UINT64_MAX
    ensures fits ==> a as nat == FactorNum(num as nat, den as nat, pn as nat, pd as nat)
    ensures fits ==> b as nat == FactorDen(num as nat, den as nat, pn as nat, pd as nat)
  {
    Quotients(num as nat, pn as nat);
    Quotients(den as nat, pd as nat);
    var g1 := ComputeGcd(num, pn);
    var g2 := ComputeGcd(den, pd);
    a := num / g1;
    b := den / g2;
    var n2 := pn / g1;
    var d2 := pd / g2;
    ProductFits(a as nat, d2 as nat);
    ProductFits(b as nat, n2 as nat);
    if a > 0xFFFF_FFFF_FFFF_FFFF / d2 || b > 0xFFFF_FFFF_FFFF_FFFF / n2 {
      return false, a, b;
    }
    ProductIsNat(a as nat, d2 as nat);
    ProductIsNat(b as nat, n2 as nat);
    a := a * d2;
    b := b * n2;
    fits := true;
  }

  /** Multiplies a count by a factor, if that is exact and fits. */
  method ApplyFactor(count: uint64, a: uint64, b: uint64, max: uint64) returns (o: Outcome)
    ensures o == (if !Divides(b as nat, count as nat) then Rejected
                  else if a == 0 || b == 0 then DividesByZero
                  else if Scaled(count as nat, a as nat, b as nat) > max as nat then Rejected
                  else Stored(Scaled(count as nat, a as nat, b as nat)))
  {
    var t, r, den := ReduceCount(count, b);
    if t == 0 {
      return DividesByZero;
    }
    if den != 1 {
      return Rejected;
    }
    o := Multiply(r, a, den, max);
  }

  /** Divides a count and a denominator by their greatest common divisor, if it is not zero. */
  method ReduceCount(count: uint64, b: uint64) returns (t: uint64, r: uint64, den: uint64)
    ensures t == 0 ==> b == 0 && Divides(b as nat, count as nat)
    ensures t != 0 ==> (den == 1 <==> Divides(b as nat, count as nat))
    ensures t != 0 && den == 1 ==> b != 0 && r as nat == count as nat / b as nat
  {
    r, den := count, b;
    t := ComputeGcd(r, den);
    if t == 0 {
      ZeroGcd(r as nat, b as nat);
      return;
    }
    QuotientIsSmaller(r as nat, t as nat);
    QuotientIsSmaller(b as nat, t as nat);
    r := r / t;
    den := den / t;
    ReducesToOne(count as nat, b as nat);
  }

  lemma QuotientIsSmaller(x: nat, g: nat)
    requires g > 0
    ensures 0 <= x / g <= x
  {
    var q := x / g;
    assert g * q + x % g == x;
    NonNegativeFactor(g, q + 1);
    MonotoneProduct(q, 1, g);
  }

  /** The product of a reduced count and the factor, which is divided by the rest of the denominator. */
  method Multiply(r: uint64, a: uint64, den: uint64, max: uint64) returns (o: Outcome)
    requires den == 1
    ensures o == (if a == 0 then DividesByZero
                  else if Product(r as nat, a as nat) > max as nat then Rejected
                  else Stored(Product(r as nat, a as nat)))
  {
    if a == 0 {
      return DividesByZero;
    }
    ProductFits(r as nat, a as nat);
    if r > 0xFFFF_FFFF_FFFF_FFFF / a {
      return Rejected;
    }
    ProductIsNat(r as nat, a as nat);
    var q := r * a;
    q := q / den;
    if max < q {
      return Rejected;
    }
    o := Stored(q as nat);
  }

  lemma Quotients(x: nat, y: nat)
    requires y > 0
    ensures 0 < Gcd(x, y) <= y && x / Gcd(x, y) <= x && 0 < y / Gcd(x, y) <= y
  {
    GcdPositive(x, y);
    QuotientTimes(x, y);
    FactorBounds(Gcd(x, y), x / Gcd(x, y), x);
    FactorBounds(Gcd(x, y), y / Gcd(x, y), y);
  }

  lemma FactorBounds(g: nat, q: nat, x: nat)
    requires g > 0 && x == g * q
    ensures q <= x && (x > 0 ==> q > 0)
  {
  }

  lemma ZeroGcd(x: nat, y: nat)
    requires Gcd(x, y) == 0
    ensures x == 0 && y == 0 && Divides(y, x)
  {
    GcdDivides(x, y);
    DividesZero(x);
    DividesZero(y);
  }

  /** Dividing by the greatest common divisor leaves 1 exactly when the denominator divides the count. */
  lemma ReducesToOne(r: nat, b: nat)
    requires Gcd(r, b) > 0
    ensures b / Gcd(r, b) == 1 <==> Divides(b, r)
    ensures b / Gcd(r, b) == 1 ==> Gcd(r, b) == b
  {
    var g := Gcd(r, b);
    if b == 0 {
      DividesZero(r);
    } else {
      QuotientTimes(r, b);
      GcdOfMultiple(r, b);
      if Divides(b, r) {
        ExactQuotient(g, 1, b);
      }
    }
  }

  // ------------------------------------------------------------- exactness

  /** The factor's parts are the four numbers without what the reader divides out. */
  lemma FactorParts(num: nat, den: nat, pn: nat, pd: nat) returns (g1: nat, g2: nat)
    requires pn > 0 && pd > 0
    ensures g1 > 0 && g2 > 0
    ensures num * pd == FactorNum(num, den, pn, pd) * (g1 * g2)
    ensures den * pn == FactorDen(num, den, pn, pd) * (g1 * g2)
  {
    g1, g2 := Gcd(num, pn), Gcd(den, pd);
    GcdPositive(num, pn);
    GcdPositive(den, pd);
    QuotientTimes(num, pn);
    QuotientTimes(den, pd);
    Regroup(g1, num / g1, g2, pd / g2);
    Regroup(g2, den / g2, g1, pn / g1);
    assert g2 * g1 == g1 * g2;
  }

  lemma Regroup(g: nat, a: nat, h: nat, b: nat)
    ensures (g * a) * (h * b) == (a * b) * (g * h)
  {
  }

  lemma ScaledEquation(q: nat, r: nat, a: nat, b: nat, g: nat)
    requires g > 0
    ensures q * (b * g) == r * (a * g) <==> q * b == r * a
  {
  }

  lemma CancelFactor(x: int, y: int, g: nat)
    requires g > 0 && x * g == y * g
    ensures x == y
  {
    assert (x - y) * g == 0;
  }

  /** q of pn/pd is exactly `count` of num/den. */
  predicate SameDuration(q: nat, pn: nat, pd: nat, count: nat, num: nat, den: nat) {
    q * (den * pn) == count * (num * pd)
  }

  lemma SameDurationIff(q: nat, count: nat, num: nat, den: nat, pn: nat, pd: nat)
    requires pn > 0 && pd > 0
    ensures SameDuration(q, pn, pd, count, num, den) <==>
            q * FactorDen(num, den, pn, pd) == count * FactorNum(num, den, pn, pd)
  {
    var g1, g2 := FactorParts(num, den, pn, pd);
    assert g1 * g2 > 0;
    ScaledEquation(q, count, FactorNum(num, den, pn, pd), FactorDen(num, den, pn, pd), g1 * g2);
  }

  /** Whatever the unit: what is stored is exactly the duration that was written. */
  lemma StoredIsExact(count: nat, num: nat, den: nat, pn: nat, pd: nat, max: nat)
    requires pn > 0 && pd > 0 && Convert(count, num, den, pn, pd, max).Stored?
    ensures Convert(count, num, den, pn, pd, max).count <= max
    ensures SameDuration(Convert(count, num, den, pn, pd, max).count, pn, pd, count, num, den)
  {
    var a, b := FactorNum(num, den, pn, pd), FactorDen(num, den, pn, pd);
    var q := Convert(count, num, den, pn, pd, max).count;
    QuotientScales(count, a, b);
    SameDurationIff(q, count, num, den, pn, pd);
  }

  lemma QuotientScales(count: nat, a: nat, b: nat)
    requires b > 0 && Divides(b, count)
    ensures Scaled(count, a, b) * b == count * a
  {
    var k: nat :| b * k == count;
    ExactQuotient(b, k, count);
    assert (k * a) * b == (b * k) * a;
  }

  lemma FactorCoprime(num: nat, den: nat, pn: nat, pd: nat)
    requires num > 0 && den > 0 && pn > 0 && pd > 0 && Coprime(num, den) && Coprime(pn, pd)
    ensures Coprime(FactorNum(num, den, pn, pd), FactorDen(num, den, pn, pd))
  {
    var g1, g2 := Gcd(num, pn), Gcd(den, pd);
    GcdPositive(num, pn);
    GcdPositive(den, pd);
    QuotientTimes(num, pn);
    QuotientTimes(den, pd);
    var n1, n2, d1, d2 := num / g1, pn / g1, den / g2, pd / g2;
    CoprimeQuotients(num, pn, n1, n2);
    CoprimeQuotients(den, pd, d1, d2);
    CoprimeDivisors(num, den, n1, d1, g1, g2);
    CoprimeDivisors(pn, pd, n2, d2, g1, g2);
    CrossProductsCoprime(n1, d1, n2, d2);
  }

  lemma CrossProductsCoprime(n1: nat, d1: nat, n2: nat, d2: nat)
    requires Coprime(n1, n2) && Coprime(n1, d1) && Coprime(d1, d2) && Coprime(n2, d2)
    ensures Coprime(n1 * d2, d1 * n2)
  {
    CoprimeProduct(n1, d1, n2);
    CoprimeSymmetric(d1, d2);
    CoprimeSymmetric(n2, d2);
    CoprimeProduct(d2, d1, n2);
    CoprimeSymmetric(n1, d1 * n2);
    CoprimeSymmetric(d2, d1 * n2);
    CoprimeProduct(d1 * n2, n1, d2);
    CoprimeSymmetric(d1 * n2, n1 * d2);
  }

  lemma FactorsPositive(num: nat, den: nat, pn: nat, pd: nat)
    requires num > 0 && den > 0 && pn > 0 && pd > 0
    ensures FactorNum(num, den, pn, pd) > 0 && FactorDen(num, den, pn, pd) > 0
  {
    var g1, g2 := FactorParts(num, den, pn, pd);
    assert num * pd > 0 && den * pn > 0;
  }

  /** Exact conversion: for a unit and a period in lowest terms the reader stores q if and only if both parts of
      the reduced factor fit 64 bits, q of the period is the duration written, and q fits the count type. */
  lemma ConversionIsExact(count: nat, num: nat, den: nat, pn: nat, pd: nat, max: nat, q: nat)
    requires num > 0 && den > 0 && pn > 0 && pd > 0 && Coprime(num, den) && Coprime(pn, pd)
    ensures
      Convert(count, num, den, pn, pd, max) == Stored(q) <==>
      && FactorNum(num, den, pn, pd) <= UINT64_MAX
      && FactorDen(num, den, pn, pd) <= UINT64_MAX
      && SameDuration(q, pn, pd, count, num, den)
      && q <= max
  {
    var a, b := FactorNum(num, den, pn, pd), FactorDen(num, den, pn, pd);
    FactorsPositive(num, den, pn, pd);
    FactorCoprime(num, den, pn, pd);
    SameDurationIff(q, count, num, den, pn, pd);
    if q * b == count * a {
      assert b * q == count * a;
      EuclidsLemma(b, a, count);
      QuotientIs(count, a, b, q);
    }
    if Convert(count, num, den, pn, pd, max) == Stored(q) {
      StoredIsExact(count, num, den, pn, pd, max);
    }
  }

  lemma QuotientIs(count: nat, a: nat, b: nat, q: nat)
    requires b > 0 && Divides(b, count) && q * b == count * a
    ensures Scaled(count, a, b) == q
  {
    QuotientScales(count, a, b);
    CancelFactor(q, Scaled(count, a, b), b);
  }

  // ---------------------------------------- units that are not in lowest terms

  /** Two of [6/4] seconds are three seconds, but the reader rejects them. */
  lemma UnreducedUnitIsRejected()
    ensures SameDuration(3, 1, 1, 2, 6, 4) && Convert(2, 6, 4, 1, 1, UINT64_MAX) == Rejected
  {
  }

  /** Every convertible count is read. */
  ghost predicate ReadsAllConvertible(num: nat, den: nat, pn: nat, pd: nat)
    requires pn > 0 && pd > 0
  {
    forall count: nat, q: nat ::
      count <= UINT64_MAX && q <= UINT64_MAX && SameDuration(q, pn, pd, count, num, den) ==>
      Convert(count, num, den, pn, pd, UINT64_MAX) == Stored(q)
  }

  /** Exactly when the reader accepts every count that has an exact conversion: when the reduced factor fits and the
      crosswise reduction has left nothing to reduce. */
  lemma ReadsAllConvertibleIff(num: nat, den: nat, pn: nat, pd: nat)
    requires num > 0 && den > 0 && pn > 0 && pd > 0
    ensures
      var (a, b) := (FactorNum(num, den, pn, pd), FactorDen(num, den, pn, pd));
      ReadsAllConvertible(num, den, pn, pd) <==> a <= UINT64_MAX && b <= UINT64_MAX && Coprime(a, b)
  {
    var a, b := FactorNum(num, den, pn, pd), FactorDen(num, den, pn, pd);
    FactorsPositive(num, den, pn, pd);
    if a > UINT64_MAX || b > UINT64_MAX {
      MissedZero(num, den, pn, pd);
    } else if Coprime(a, b) {
      forall count: nat, q: nat | SameDuration(q, pn, pd, count, num, den) && q <= UINT64_MAX
        ensures Convert(count, num, den, pn, pd, UINT64_MAX) == Stored(q)
      {
        SameDurationIff(q, count, num, den, pn, pd);
        assert b * q == count * a;
        EuclidsLemma(b, a, count);
        QuotientIs(count, a, b, q);
      }
    } else {
      MissedCount(num, den, pn, pd, a, b);
    }
  }

  /** When the factor does not fit, even nothing of the unit is rejected. */
  lemma MissedZero(num: nat, den: nat, pn: nat, pd: nat)
    requires num > 0 && den > 0 && pn > 0 && pd > 0
    requires FactorNum(num, den, pn, pd) > UINT64_MAX || FactorDen(num, den, pn, pd) > UINT64_MAX
    ensures !ReadsAllConvertible(num, den, pn, pd)
  {
    assert SameDuration(0, pn, pd, 0, num, den);
    assert Convert(0, num, den, pn, pd, UINT64_MAX) == Rejected;
  }

  /** A common divisor g > 1 of a and b: b/g counts make exactly a/g, but b does not divide b/g. */
  lemma MissedQuotients(a: nat, b: nat, g: nat, q: nat, count: nat)
    requires a > 0 && b > 0 && g > 1 && a == g * q && b == g * count
    ensures q * b == count * a && q <= a && 0 < count < b && !Divides(b, count)
  {
  }

  lemma MissedCount(num: nat, den: nat, pn: nat, pd: nat, a: nat, b: nat)
    requires num > 0 && den > 0 && pn > 0 && pd > 0
    requires a == FactorNum(num, den, pn, pd) && b == FactorDen(num, den, pn, pd)
    requires 0 < a <= UINT64_MAX && 0 < b <= UINT64_MAX && !Coprime(a, b)
    ensures !ReadsAllConvertible(num, den, pn, pd)
  {
    var g := Gcd(a, b);
    GcdPositive(a, b);
    QuotientTimes(a, b);
    var count, q := b / g, a / g;
    MissedQuotients(a, b, g, q, count);
    SameDurationIff(q, count, num, den, pn, pd);
    assert Convert(count, num, den, pn, pd, UINT64_MAX) == Rejected;
  }

  lemma ZeroFactors(num: nat, den: nat, pn: nat, pd: nat)
    requires pn > 0 && pd > 0
    ensures FactorNum(num, den, pn, pd) == 0 <==> num == 0
    ensures FactorDen(num, den, pn, pd) == 0 <==> den == 0
  {
    var g1, g2 := FactorParts(num, den, pn, pd);
    var a, b := FactorNum(num, den, pn, pd), FactorDen(num, den, pn, pd);
    assert g1 * g2 > 0;
    ZeroProduct(a, g1 * g2);
    ZeroProduct(b, g1 * g2);
    ZeroProduct(num, pd);
    ZeroProduct(den, pn);
  }

  lemma ZeroProduct(x: nat, y: nat)
    requires y > 0
    ensures x * y == 0 <==> x == 0
  {
  }

  lemma GcdOfZero(y: nat)
    requires y > 0
    ensures Gcd(0, y) == y && y / y == 1
  {
    assert Gcd(0, y) == Gcd(y, 0);
    ExactQuotient(y, 1, y);
  }

  /** Nothing is left of the period's part that stands against a zero. */
  lemma ZeroUnitFactor(x: nat, y: nat, zero: nat, period: nat)
    requires y > 0 && period > 0 && zero == 0
    ensures Gcd(x, y) > 0 && Gcd(zero, period) > 0 && Product(x / Gcd(x, y), period / Gcd(zero, period)) <= x
  {
    GcdOfZero(period);
    Quotients(x, y);
  }

  /** With a zero in the unit the reduced factor fits. */
  lemma ZeroUnitFits(num: nat, den: nat, pn: nat, pd: nat)
    requires pn > 0 && pd > 0 && (num == 0 || den == 0) && num <= UINT64_MAX && den <= UINT64_MAX
    ensures FactorNum(num, den, pn, pd) <= UINT64_MAX && FactorDen(num, den, pn, pd) <= UINT64_MAX
  {
    ZeroFactors(num, den, pn, pd);
    if num == 0 {
      ZeroUnitFactor(den, pd, num, pn);
    }
    if den == 0 {
      ZeroUnitFactor(num, pn, den, pd);
    }
  }

  /** The one input that the reader's caller must avoid: a unit with a zero part, if the factor's denominator divides
      the count (as the denominator 0 divides the count 0). */
  lemma DividesByZeroIff(count: nat, num: nat, den: nat, pn: nat, pd: nat, max: nat)
    requires pn > 0 && pd > 0 && num <= UINT64_MAX && den <= UINT64_MAX
    ensures Convert(count, num, den, pn, pd, max) == DividesByZero <==>
            (num == 0 || den == 0) && Divides(FactorDen(num, den, pn, pd), count)
  {
    ZeroFactors(num, den, pn, pd);
    if num == 0 || den == 0 {
      ZeroUnitFits(num, den, pn, pd);
    }
  }
}
