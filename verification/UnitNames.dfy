/** What the names of the units mean, told by the names themselves: the prefixes of the SI (section 3 of the SI
    Brochure, 9th edition), minutes and hours. */
module UnitNames {
  import opened Wrappers
  import opened Text
  import opened Arithmetic
  import opened DurationReader
  import opened DurationText

  /** The powers of ten of a second that have a name, the second itself included. */
  predicate HasName(e: int) {
    e in {-18, -15, -12, -9, -6, -3, -2, -1, 0, 1, 2, 3, 6, 9, 12, 15, 18}
  }

  /** The prefix of a power of ten, as a word and as a symbol; the micro sign is two bytes. */
  function Prefix(e: int): (string, string)
    requires HasName(e)
  {
    match e
    case 18 => ("exa", "E")
    case 15 => ("peta", "P")
    case 12 => ("tera", "T")
    case 9 => ("giga", "G")
    case 6 => ("mega", "M")
    case 3 => ("kilo", "k")
    case 2 => ("hecto", "h")
    case 1 => ("deca", "da")
    case -1 => ("deci", "d")
    case -2 => ("centi", "c")
    case -3 => ("milli", "m")
    case -6 => ("micro", "\U{00C2}\U{00B5}")
    case -9 => ("nano", "n")
    case -12 => ("pico", "p")
    case -15 => ("femto", "f")
    case -18 => ("atto", "a")
    case _ => ("", "")
  }

  /** The name of ten to the e seconds. */
  function SecondsName(e: int, long: bool): string
    requires HasName(e)
  {
    if long then Prefix(e).0 + "seconds" else Prefix(e).1 + "s"
  }

  /** Ten to the e as a ratio. */
  function PowerOfTen(e: int): (nat, nat) {
    if e >= 0 then (Pow10(e), 1) else (1, Pow10(-e))
  }

  // ------------------------------------------------------- rows of the table

  lemma Powers()
    ensures Pow10(1) == 10 && Pow10(2) == 100 && Pow10(3) == 1_000 && Pow10(6) == 1_000_000
    ensures Pow10(9) == 1_000_000_000 && Pow10(12) == 1_000_000_000_000 && Pow10(15) == 1_000_000_000_000_000
    ensures Pow10(18) == 1_000_000_000_000_000_000
  {
    assert Pow10(5) == 100 * Pow10(3);
    assert Pow10(8) == 100 * Pow10(6);
    assert Pow10(11) == 100 * Pow10(9);
    assert Pow10(14) == 100 * Pow10(12);
    assert Pow10(17) == 100 * Pow10(15);
  }

  function RowOf(e: int): nat
    requires HasName(e)
  {
    if e == 0 then 16
    else if e <= -3 then (e + 18) / 3
    else if e < 0 then e + 8
    else if e < 3 then e + 7
    else e / 3 + 9
  }

  lemma RowIs(e: int, long: bool)
    requires HasName(e)
    ensures RowOf(e) <= 16 && Ratio(RowOf(e)) == PowerOfTen(e) && Name(RowOf(e), long) == SecondsName(e, long)
  {
    Powers();
  }

  lemma NameFound(k: nat, long: bool, rest: string)
    requires k < UNITS && EndsName(rest)
    ensures ReadUnit(Name(k, long) + rest) == Some(Ratio(k))
  {
    NameScanned(k, long, rest, 0, UNITS);
    NamesAreSpelt(k, long);
    assert NameChar((Name(k, long) + rest)[0]);
  }

  lemma RatiosDiffer(j: nat, k: nat)
    requires j < k < UNITS
    ensures Ratio(j) != Ratio(k)
  {
  }

  lemma {:induction false} RowFound(k: nat, from: nat)
    requires from <= k < UNITS
    ensures NamedUnit(Ratio(k), from) == Some(k)
    decreases k - from
  {
    if from < k {
      RatiosDiffer(from, k);
      RowFound(k, from + 1);
    }
  }

  /** A period that is a named power of ten of a second is printed by that name. */
  lemma PrintedByName(count: nat, e: int, long: bool)
    requires HasName(e)
    ensures WriteDuration(count, PowerOfTen(e), long) == Digits(count) + (" " + SecondsName(e, long))
  {
    RowIs(e, long);
    RowFound(RowOf(e), 0);
  }

  // ----------------------------------------------- factors of powers of ten

  lemma {:induction false} PowerSum(a: nat, b: nat)
    ensures Pow10(a + b) == Pow10(a) * Pow10(b)
  {
    if a > 0 {
      PowerSum(a - 1, b);
      assert Pow10(a - 1 + b) == Pow10(a - 1) * Pow10(b);
      assert (10 * Pow10(a - 1)) * Pow10(b) == 10 * (Pow10(a - 1) * Pow10(b));
    }
  }

  function Less(a: nat, b: nat): nat {
    if a > b then a - b else 0
  }

  /** Two powers of ten without their common divisor. */
  lemma CommonPower(a: nat, b: nat)
    ensures
      var g := Gcd(Pow10(a), Pow10(b));
      g > 0 && Pow10(a) / g == Pow10(Less(a, b)) && Pow10(b) / g == Pow10(Less(b, a))
  {
    if a >= b {
      LesserPower(a, b);
    } else {
      LesserPower(b, a);
      GcdTurned(Pow10(a), Pow10(b));
    }
  }

  lemma LesserPower(a: nat, b: nat)
    requires b <= a
    ensures Gcd(Pow10(a), Pow10(b)) == Pow10(b) && Pow10(b) <= Pow10(a)
    ensures Pow10(a) / Pow10(b) == Pow10(a - b) && Pow10(b) / Pow10(b) == 1
  {
    PowerSum(b, a - b);
    GcdOfMultiple(Pow10(a), Pow10(b));
    ExactQuotient(Pow10(b), Pow10(a - b), Pow10(a));
    assert Pow10(b) * 1 == Pow10(b);
    ExactQuotient(Pow10(b), 1, Pow10(b));
    MonotoneProduct(Pow10(b), 1, Pow10(a - b));
  }

  lemma GcdTurned(x: nat, y: nat)
    requires x <= y
    ensures Gcd(x, y) == Gcd(y, x)
  {
    if x < y {
      assert x % y == x;
    }
  }

  /** The two parts of a power of ten, as exponents. */
  function Above(e: int): nat { if e > 0 then e else 0 }

  function Under(e: int): nat { if e < 0 then -e else 0 }

  lemma PowerFactors(e: int, d: int)
    ensures
      var (num, den) := PowerOfTen(e);
      var (pn, pd) := PowerOfTen(d);
      FactorNum(num, den, pn, pd) == Pow10(Above(e - d)) && FactorDen(num, den, pn, pd) == Pow10(Under(e - d))
  {
    CommonPower(Above(e), Above(d));
    CommonPower(Under(e), Under(d));
    PowerSum(Less(Above(e), Above(d)), Less(Under(d), Under(e)));
    PowerSum(Less(Under(e), Under(d)), Less(Above(d), Above(e)));
  }

  lemma PowersCoprime(e: int)
    ensures Coprime(PowerOfTen(e).0, PowerOfTen(e).1)
  {
    CommonPower(Above(e), Under(e));
    LesserPower(Above(e) + Under(e), 0);
    GcdTurned(1, Pow10(Under(e)));
  }

  // --------------------------------------------------- what the names mean

  /** A count of a unit, as a text that may go on. */
  function CountOf(n: nat, unit: string, rest: string): string {
    Digits(n) + (" " + (unit + rest))
  }

  lemma UnitCounted(n: nat, k: nat, long: bool, rest: string, limit: nat, pn: nat, pd: nat, max: nat)
    requires n <= limit && k < UNITS && EndsName(rest) && pn > 0 && pd > 0
    ensures ReadDuration(CountOf(n, Name(k, long), rest), limit, pn, pd, max) ==
            Convert(n, Ratio(k).0, Ratio(k).1, pn, pd, max)
  {
    var unit := Name(k, long) + rest;
    NameFound(k, long, rest);
    IntegerRead(n, " " + unit, limit);
    assert (" " + unit)[1..] == unit;
  }

  lemma PowersConvert(n: nat, e: int, d: int, max: nat, q: nat)
    ensures
      var (num, den) := PowerOfTen(e);
      var (pn, pd) := PowerOfTen(d);
      Convert(n, num, den, pn, pd, max) == Stored(q) <==>
      && q * Pow10(Under(e - d)) == n * Pow10(Above(e - d))
      && Pow10(Above(e - d)) <= UINT64_MAX && Pow10(Under(e - d)) <= UINT64_MAX && q <= max
  {
    var (num, den) := PowerOfTen(e);
    var (pn, pd) := PowerOfTen(d);
    PowersCoprime(e);
    PowersCoprime(d);
    PowerFactors(e, d);
    ConversionIsExact(n, num, den, pn, pd, max, q);
    SameDurationIff(q, n, num, den, pn, pd);
  }

  /** A kilosecond is a thousand seconds, and so on: n units of ten to the e seconds, read in a period of ten to the d
      seconds, are q if and only if n units make exactly q by a power of ten that fits 64 bits, and q fits. */
  lemma PrefixesMeanPowers(n: nat, e: int, d: int, long: bool, rest: string, limit: nat, max: nat, q: nat)
    requires HasName(e) && HasName(d) && n <= limit && EndsName(rest)
    ensures
      var (pn, pd) := PowerOfTen(d);
      ReadDuration(CountOf(n, SecondsName(e, long), rest), limit, pn, pd, max) == Stored(q) <==>
      && (if e >= d then q == n * Pow10(e - d) else q * Pow10(d - e) == n)
      && Pow10(if e >= d then e - d else d - e) <= UINT64_MAX && q <= max
  {
    var (pn, pd) := PowerOfTen(d);
    RowIs(e, long);
    UnitCounted(n, RowOf(e), long, rest, limit, pn, pd, max);
    PowersConvert(n, e, d, max, q);
  }

  /** A unit that is a whole multiple of the period. */
  lemma WholeFactor(n: nat, f: nat, num: nat, pn: nat, max: nat)
    requires 0 < f <= UINT64_MAX && pn > 0 && num == pn * f
    ensures Convert(n, num, 1, pn, 1, max) == if f * n <= max then Stored(f * n) else Rejected
  {
    GcdOfMultiple(num, pn);
    ExactQuotient(pn, f, num);
    assert pn * 1 == pn;
    ExactQuotient(pn, 1, pn);
    assert 1 * n == n && Divides(1, n);
    assert n * f == f * n;
  }

  lemma MultipleCounted(n: nat, k: nat, f: nat, long: bool, rest: string, limit: nat, pn: nat, max: nat)
    requires n <= limit && k < UNITS && EndsName(rest) && pn > 0 && 0 < f <= UINT64_MAX && Ratio(k) == (pn * f, 1)
    ensures ReadDuration(CountOf(n, Name(k, long), rest), limit, pn, 1, max) ==
            if f * n <= max then Stored(f * n) else Rejected
  {
    UnitCounted(n, k, long, rest, limit, pn, 1, max);
    WholeFactor(n, f, pn * f, pn, max);
  }

  /** A minute is sixty seconds, */
  lemma MinutesMeanSeconds(n: nat, long: bool, rest: string, limit: nat, max: nat, q: nat)
    requires n <= limit && EndsName(rest)
    ensures ReadDuration(CountOf(n, if long then "minutes" else "m", rest), limit, 1, 1, max) == Stored(q) <==>
            q == 60 * n && q <= max
  {
    MultipleCounted(n, 17, 60, long, rest, limit, 1, max);
  }

  /** and an hour sixty minutes. */
  lemma HoursMeanMinutes(n: nat, long: bool, rest: string, limit: nat, max: nat, q: nat)
    requires n <= limit && EndsName(rest)
    ensures ReadDuration(CountOf(n, if long then "hours" else "h", rest), limit, 60, 1, max) == Stored(q) <==>
            q == 60 * n && q <= max
  {
    MultipleCounted(n, 18, 60, long, rest, limit, 60, max);
  }

  // ---------------------------------------------- how a period is printed

  /** Minutes and hours are printed by their names, */
  lemma MinutesAndHoursPrinted(n: nat, long: bool)
    ensures WriteDuration(n, (60, 1), long) == Digits(n) + (" " + if long then "minutes" else "m")
    ensures WriteDuration(n, (3600, 1), long) == Digits(n) + (" " + if long then "hours" else "h")
  {
    RowFound(17, 0);
    RowFound(18, 0);
  }

  /** The ratio of a minute, an hour or a named power of ten of a second. */
  ghost predicate IsNamed(num: nat, den: nat) {
    (num, den) == (60, 1) || (num, den) == (3600, 1) || exists e: int :: HasName(e) && (num, den) == PowerOfTen(e)
  }

  lemma NamedRows(num: nat, den: nat)
    requires !IsNamed(num, den)
    ensures NamedUnit((num, den), 0).None?
  {
    var k := NamedUnit((num, den), 0);
    if k.Some? && k.value <= 16 {
      RowIs(ExponentOf(k.value), true);
    }
  }

  /** and every other period in brackets. */
  lemma OthersPrintedInBrackets(n: nat, num: nat, den: nat, long: bool)
    requires !IsNamed(num, den)
    ensures WriteDuration(n, (num, den), long) ==
            Digits(n) + (" " + ("[" + (Digits(num) + ("/" + (Digits(den) + ("]" + if long then "seconds" else "s"))))))
  {
    NamedRows(num, den);
  }

  function ExponentOf(k: nat): (e: int)
    requires k <= 16
    ensures HasName(e) && RowOf(e) == k
  {
    if k == 16 then 0
    else if k <= 5 then 3 * k - 18
    else if k <= 7 then k - 8
    else if k <= 9 then k - 7
    else 3 * (k - 9)
  }
}
