/** chrono_io's round: the nearest whole count, and the even one of two that are equally near. */
module Rounding {

  /** The duration n/d as a whole count; a tie goes to the even neighbour. */
  function RoundQuotient(n: nat, d: nat): nat
    requires d > 0
  {
    var t0 := n / d;
    var t1 := t0 + 1;
    var diff0 := n - t0 * d;
    var diff1 := t1 * d - n;
    if diff0 == diff1 then (if t0 % 2 == 1 then t1 else t0)
    else if diff0 < diff1 then t0
    else t1
  }

  function Distance(n: nat, d: nat, k: int): nat {
    var x := n - k * d;
    if x < 0 then -x else x
  }

  /** No count is nearer than the one that is returned, and if another is as near, the returned one is even. */
  lemma RoundsToNearestEven(n: nat, d: nat, k: int)
    requires d > 0
    ensures
      var q := RoundQuotient(n, d);
      && Distance(n, d, q) <= Distance(n, d, k)
      && (k != q && Distance(n, d, k) == Distance(n, d, q) ==> q % 2 == 0)
  {
    var t0, r := n / d, n % d;
    RoundByRemainder(n, d, t0, r);
    if k <= t0 {
      Below(n, d, t0, r, k);
    } else {
      Above(n, d, t0, r, k);
    }
  }

  /** No count is nearer to n/d than this one, and if another is as near, this one is even. */
  ghost predicate NearestEven(n: nat, d: nat, q: nat) {
    forall k: int :: IsNoNearer(n, d, q, k)
  }

  predicate IsNoNearer(n: nat, d: nat, q: nat, k: int) {
    Distance(n, d, q) <= Distance(n, d, k) && (k != q && Distance(n, d, k) == Distance(n, d, q) ==> q % 2 == 0)
  }

  /** That determines the rounding. */
  lemma RoundIff(n: nat, d: nat, q: nat)
    requires d > 0
    ensures q == RoundQuotient(n, d) <==> NearestEven(n, d, q)
  {
    var r := RoundQuotient(n, d);
    forall k: int
      ensures IsNoNearer(n, d, r, k)
    {
      RoundsToNearestEven(n, d, k);
    }
    if NearestEven(n, d, q) && q != r {
      assert IsNoNearer(n, d, q, r) && IsNoNearer(n, d, r, q);
      EvenNeighbours(n, d, q, r);
    }
  }

  /** Of two counts that are equally near and nearest one is odd. */
  lemma EvenNeighbours(n: nat, d: nat, q: nat, r: nat)
    requires d > 0 && r == RoundQuotient(n, d) && q != r && Distance(n, d, q) == Distance(n, d, r)
    ensures q % 2 == 1 || r % 2 == 1
  {
    var t0 := n / d;
    RoundByRemainder(n, d, t0, n % d);
    if q <= t0 {
      Below(n, d, t0, n % d, q);
    } else {
      Above(n, d, t0, n % d, q);
    }
  }

  lemma RoundByRemainder(n: nat, d: nat, t0: nat, r: nat)
    requires d > 0 && t0 == n / d && r == n % d
    ensures Distance(n, d, t0) == r && Distance(n, d, t0 + 1) == d - r && r < d
    ensures RoundQuotient(n, d) ==
            if r == d - r then (if t0 % 2 == 1 then t0 + 1 else t0) else if r < d - r then t0 else t0 + 1
  {
  }

  lemma Below(n: nat, d: nat, t0: nat, r: nat, k: int)
    requires d > 0 && n == t0 * d + r && k <= t0
    ensures Distance(n, d, k) >= r && (k != t0 ==> Distance(n, d, k) >= r + d)
  {
    var j := t0 - k;
    assert k * d == t0 * d - j * d;
    Multiple(j, d);
  }

  lemma Above(n: nat, d: nat, t0: nat, r: nat, k: int)
    requires n == t0 * d + r && r < d && k > t0
    ensures Distance(n, d, k) >= d - r && (k != t0 + 1 ==> Distance(n, d, k) >= d - r + d)
  {
    var j := k - t0 - 1;
    assert k * d == t0 * d + d + j * d;
    Multiple(j, d);
  }

  lemma Multiple(j: nat, d: nat)
    ensures j * d >= 0 && (j > 0 ==> j * d >= d)
  {
  }

  /** Rounding commutes with the addition of an even whole count. */
  lemma RoundShift(a: nat, b: nat, d: nat)
    requires d > 0 && a % 2 == 0
    ensures RoundQuotient(a * d + b, d) == a + RoundQuotient(b, d)
  {
    var t0, r := b / d, b % d;
    assert b == t0 * d + r;
    assert (a + t0) * d == a * d + t0 * d;
    assert (a + t0 + 1) * d == a * d + t0 * d + d;
    assert (t0 + 1) * d == t0 * d + d;
    QuotientIs(a * d + b, d, a + t0, r);
  }

  lemma QuotientIs(n: nat, d: nat, q: nat, r: nat)
    requires d > 0 && n == q * d + r && r < d
    ensures n / d == q
  {
    var x := n / d;
    assert (q - x) * d == n % d - r by {
      assert n == x * d + n % d;
      assert (q - x) * d == q * d - x * d;
    }
    SmallMultiple(q - x, d);
  }

  lemma SmallMultiple(n: int, d: int)
    requires -d < n * d < d
    ensures n == 0
  {
  }

  lemma RoundWhole(n: nat, a: nat, d: nat)
    requires d > 0 && n == a * d
    ensures RoundQuotient(n, d) == a
  {
    QuotientIs(n, d, a, 0);
    assert (a + 1) * d == a * d + d;
  }
}
