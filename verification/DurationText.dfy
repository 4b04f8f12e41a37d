/** The text of a duration, as chrono_io writes and reads it with the default names of the units. */
module DurationText {
  import opened Wrappers
  import opened Text
  import opened Arithmetic
  import opened DurationReader

  // ---------------------------------------------------------------- units

  /** The named units in the order of the reader's table: sixteen SI prefixes, seconds, minutes, hours. */
  const UNITS: nat := 19

  const PREFIXES: seq<string> :=
    ["atto", "femto", "pico", "nano", "micro", "milli", "centi", "deci",
     "deca", "hecto", "kilo", "mega", "giga", "tera", "peta", "exa"]

  const SYMBOLS: seq<string> :=
    ["a", "f", "p", "n", "\U{00C2}\U{00B5}", "m", "c", "d", "da", "h", "k", "M", "G", "T", "P", "E"]

  /** __get_unit for a named unit. */
  function Name(k: nat, long: bool): string
    requires k < UNITS
  {
    if k < 16 then (if long then PREFIXES[k] + "seconds" else SYMBOLS[k] + "s")
    else if k == 16 then (if long then "seconds" else "s")
    else if k == 17 then (if long then "minutes" else "m")
    else (if long then "hours" else "h")
  }

  /** The unit in seconds, as a ratio. */
  function Ratio(k: nat): (r: (nat, nat))
    requires k < UNITS
    ensures 0 < r.0 <= UINT64_MAX && 0 < r.1 <= UINT64_MAX
  {
    if k == 0 then (1, 1_000_000_000_000_000_000)
    else if k == 1 then (1, 1_000_000_000_000_000)
    else if k == 2 then (1, 1_000_000_000_000)
    else if k == 3 then (1, 1_000_000_000)
    else if k == 4 then (1, 1_000_000)
    else if k == 5 then (1, 1_000)
    else if k == 6 then (1, 100)
    else if k == 7 then (1, 10)
    else if k == 8 then (10, 1)
    else if k == 9 then (100, 1)
    else if k == 10 then (1_000, 1)
    else if k == 11 then (1_000_000, 1)
    else if k == 12 then (1_000_000_000, 1)
    else if k == 13 then (1_000_000_000_000, 1)
    else if k == 14 then (1_000_000_000_000_000, 1)
    else if k == 15 then (1_000_000_000_000_000_000, 1)
    else if k == 16 then (1, 1)
    else if k == 17 then (60, 1)
    else (3600, 1)
  }

  /** The first named unit from the k-th on with this ratio: the overload of __get_unit that is chosen. */
  function NamedUnit(ratio: (nat, nat), k: nat): (r: Option<nat>)
    ensures r.Some? ==> r.value < UNITS && Ratio(r.value) == ratio
    decreases UNITS - k
  {
    if k >= UNITS then None else if Ratio(k) == ratio then Some(k) else NamedUnit(ratio, k + 1)
  }

  function GenericName(ratio: (nat, nat), long: bool): string {
    "[" + (Digits(ratio.0) + ("/" + (Digits(ratio.1) + ("]" + Name(16, long)))))
  }

  function UnitText(ratio: (nat, nat), long: bool): string {
    var k := NamedUnit(ratio, 0);
    if k.Some? then Name(k.value, long) else GenericName(ratio, long)
  }

  // -------------------------------------------------------------- writing

  /** operator<<. */
  function WriteDuration(count: nat, ratio: (nat, nat), long: bool): string {
    Digits(count) + (" " + UnitText(ratio, long))
  }

  // -------------------------------------------------------------- reading

  /** The keywords of some units, the long and the short name of each in turn. */
  function Names(low: nat, high: nat): seq<string>
    requires low <= high <= UNITS
  {
    seq(2 * (high - low), i requires 0 <= i < 2 * (high - low) => Name(low + i / 2, i % 2 == 0))
  }

  /** Some keyword begins with p. */
  predicate BeginsName(p: string, names: seq<string>) {
    exists k :: 0 <= k < |names| && p <= names[k]
  }

  /** __scan_keyword: it consumes as long as what it has consumed begins some keyword. */
  function Consumed(s: string, n: nat, names: seq<string>): (r: nat)
    requires n <= |s|
    ensures n <= r <= |s|
    ensures r < |s| ==> !BeginsName(s[..r + 1], names)
    decreases |s| - n
  {
    if n < |s| && BeginsName(s[..n + 1], names) then Consumed(s, n + 1, names) else n
  }

  /** ... and then looks up exactly what it has consumed. */
  function FirstNamed(p: string, low: nat, high: nat): (r: Option<nat>)
    requires high <= UNITS
    ensures r.Some? ==> low <= r.value < high && (p == Name(r.value, true) || p == Name(r.value, false))
    ensures r.None? ==> forall k :: low <= k < high ==> p != Name(k, true) && p != Name(k, false)
    decreases high - low
  {
    if low >= high then None
    else if p == Name(low, true) || p == Name(low, false) then Some(low)
    else FirstNamed(p, low + 1, high)
  }

  function ScanUnit(s: string, low: nat, high: nat): Option<nat>
    requires low <= high <= UNITS
  {
    FirstNamed(s[..Consumed(s, 0, Names(low, high))], low, high)
  }

  /** "[N/D]" has been opened. */
  function ReadGenericUnit(s: string): (r: Option<(nat, nat)>)
    ensures r.Some? ==> r.value.0 <= UINT64_MAX && r.value.1 <= UINT64_MAX
  {
    match ReadInteger(s, UINT64_MAX)
    case None => None
    case Some((num, s)) =>
      var s1 := SkipSpaces(s);
      if s1 == [] || s1[0] != '/' then None
      else
        (match ReadInteger(s1[1..], UINT64_MAX)
         case None => None
         case Some((den, s)) =>
           if s == [] || s[0] != ']' || ScanUnit(s[1..], 16, 17).None? then None else Some((num, den)))
  }

  function ReadUnit(s: string): (r: Option<(nat, nat)>)
    ensures r.Some? ==> r.value.0 <= UINT64_MAX && r.value.1 <= UINT64_MAX
  {
    if s == [] then None
    else if s[0] == '[' then ReadGenericUnit(s[1..])
    else
      var k := ScanUnit(s, 0, UNITS);
      if k.Some? then Some(Ratio(k.value)) else None
  }

  /** operator>> for a period of pn/pd seconds; `limit` bounds the integer that is read, `max` the count. */
  ghost function ReadDuration(text: string, limit: nat, pn: nat, pd: nat, max: nat): Outcome
    requires pn > 0 && pd > 0
  {
    match ReadInteger(text, limit)
    case None => Rejected
    case Some((count, s)) =>
      if s == [] || s[0] != ' ' then Rejected
      else
        (match ReadUnit(s[1..])
         case None => Rejected
         case Some((num, den)) => Convert(count, num, den, pn, pd, max))
  }

  /** operator>> with its 64-bit numbers. */
  method Read(text: string, limit: uint64, pn: uint64, pd: uint64, max: uint64) returns (o: Outcome)
    requires pn > 0 && pd > 0
    ensures o == ReadDuration(text, limit as nat, pn as nat, pd as nat, max as nat)
  {
    var count := ReadInteger(text, limit as nat);
    if count.None? {
      return Rejected;
    }
    var (r, s) := count.value;
    if s == [] || s[0] != ' ' {
      return Rejected;
    }
    var unit := ReadUnit(s[1..]);
    if unit.None? {
      return Rejected;
    }
    var (num, den) := unit.value;
    o := ConvertCount(r as uint64, num as uint64, den as uint64, pn, pd, max);
  }

  // ------------------------------------------------------ the table of names

  /** The unit that a name belongs to, told by a few of its characters. */
  function UnitNamed(s: string): int {
    if |s| == 1 then (if s[0] == 's' then 16 else if s[0] == 'm' then 17 else 18)
    else if |s| == 3 then (if s[0] == 'd' then 8 else 4)
    else if |s| == 2 then
      (match s[0]
       case 'a' => 0 case 'f' => 1 case 'p' => 2 case 'n' => 3 case 'm' => 5 case 'c' => 6 case 'd' => 7
       case 'h' => 9 case 'k' => 10 case 'M' => 11 case 'G' => 12 case 'T' => 13 case 'P' => 14 case _ => 15)
    else if |s| < 5 then -1
    else
      (match s[0]
       case 'a' => 0 case 'f' => 1 case 'n' => 3 case 'c' => 6
       case 'k' => 10 case 'g' => 12 case 't' => 13 case 'e' => 15 case 's' => 16
       case 'p' => if s[1] == 'i' then 2 else 14
       case 'd' => if s[3] == 'i' then 7 else 8
       case 'h' => if s[1] == 'e' then 9 else 18
       case 'm' =>
         if s[1] == 'e' then 11 else if s[2] == 'c' then 4 else if s[2] == 'l' then 5 else 17
       case _ => -1)
  }

  lemma NameTellsUnit(k: nat, long: bool)
    requires k < UNITS
    ensures UnitNamed(Name(k, long)) == k
  {
  }

  /** Letters, and the two bytes of the micro sign. */
  predicate NameChar(c: char) {
    'a' <= c <= 'z' || 'A' <= c <= 'Z' || c == '\U{00C2}' || c == '\U{00B5}'
  }

  predicate NameChars(s: string) {
    forall i :: 0 <= i < |s| ==> NameChar(s[i])
  }

  lemma NamesAreSpelt(k: nat, long: bool)
    requires k < UNITS
    ensures NameChars(Name(k, long)) && Name(k, long) != []
  {
  }

  // ------------------------------------------------ reading what is written

  /** What may follow a unit: the end, or a character that is in no name. */
  predicate EndsName(rest: string) {
    rest == [] || !NameChar(rest[0])
  }

  lemma NamesAreSpeltOut(low: nat, high: nat, k: nat)
    requires low <= high <= UNITS && k < |Names(low, high)|
    ensures NameChars(Names(low, high)[k])
  {
    NamesAreSpelt(low + k / 2, k % 2 == 0);
  }

  lemma PastTheName(name: string, rest: string, names: seq<string>)
    requires rest != [] && !NameChar(rest[0]) && forall k :: 0 <= k < |names| ==> NameChars(names[k])
    ensures !BeginsName((name + rest)[..|name| + 1], names)
  {
    var p := (name + rest)[..|name| + 1];
    assert !NameChar(p[|name|]);
  }

  /** Every beginning of the name begins a name. */
  ghost predicate Beginnings(name: string, names: seq<string>) {
    forall i :: 0 < i <= |name| ==> BeginsName(name[..i], names)
  }

  lemma NameBegins(k: nat, long: bool, low: nat, high: nat)
    requires low <= k < high <= UNITS
    ensures Beginnings(Name(k, long), Names(low, high))
  {
    var at := NameListed(k, long, low, high);
    ItselfBegins(Names(low, high), at);
  }

  lemma NameListed(k: nat, long: bool, low: nat, high: nat) returns (at: nat)
    requires low <= k < high <= UNITS
    ensures at < |Names(low, high)| && Names(low, high)[at] == Name(k, long)
  {
    at := 2 * (k - low) + if long then 0 else 1;
  }

  lemma ItselfBegins(names: seq<string>, at: nat)
    requires at < |names|
    ensures Beginnings(names[at], names)
  {
    forall i | 0 < i <= |names[at]|
      ensures BeginsName(names[at][..i], names)
    {
      assert names[at][..i] <= names[at];
    }
  }

  /** The scan goes on as far as what it has consumed begins a name. */
  lemma {:induction false} ConsumedIs(s: string, n: nat, m: nat, names: seq<string>)
    requires n <= m <= |s|
    requires forall i :: n < i <= m ==> BeginsName(s[..i], names)
    requires m < |s| ==> !BeginsName(s[..m + 1], names)
    ensures Consumed(s, n, names) == m
    decreases m - n
  {
    if n < m {
      ConsumedIs(s, n + 1, m, names);
    }
  }

  lemma NameConsumed(name: string, s: string, names: seq<string>)
    requires name <= s && Beginnings(name, names) && (|name| < |s| ==> !BeginsName(s[..|name| + 1], names))
    ensures Consumed(s, 0, names) == |name| && s[..|name|] == name
  {
    forall i | 0 < i <= |name|
      ensures BeginsName(s[..i], names)
    {
      assert s[..i] == name[..i];
    }
    ConsumedIs(s, 0, |name|, names);
  }

  lemma NameIsFirst(k: nat, long: bool, low: nat, high: nat)
    requires low <= k < high <= UNITS
    ensures FirstNamed(Name(k, long), low, high) == Some(k)
  {
    var r := FirstNamed(Name(k, long), low, high);
    assert r.Some?;
    NameTellsUnit(k, long);
    NameTellsUnit(r.value, true);
    NameTellsUnit(r.value, false);
  }

  /** The scan finds the unit of the name, though one name may begin another. */
  lemma NameScanned(k: nat, long: bool, rest: string, low: nat, high: nat)
    requires low <= k < high <= UNITS && EndsName(rest)
    ensures ScanUnit(Name(k, long) + rest, low, high) == Some(k)
  {
    NameBegins(k, long, low, high);
    if rest != [] {
      forall i | 0 <= i < |Names(low, high)|
        ensures NameChars(Names(low, high)[i])
      {
        NamesAreSpeltOut(low, high, i);
      }
      PastTheName(Name(k, long), rest, Names(low, high));
    }
    NameConsumed(Name(k, long), Name(k, long) + rest, Names(low, high));
    NameIsFirst(k, long, low, high);
  }

  lemma GenericPartsRead(num: nat, den: nat, rest: string)
    requires num <= UINT64_MAX && den <= UINT64_MAX && ScanUnit(rest, 16, 17).Some?
    ensures ReadGenericUnit(Digits(num) + ("/" + (Digits(den) + ("]" + rest)))) == Some((num, den))
  {
    var s := Digits(den) + ("]" + rest);
    IntegerRead(num, "/" + s, UINT64_MAX);
    assert SkipSpaces("/" + s) == "/" + s && ("/" + s)[1..] == s;
    IntegerRead(den, "]" + rest, UINT64_MAX);
    assert ("]" + rest)[1..] == rest;
  }

  lemma GenericNameFollowed(ratio: (nat, nat), long: bool, rest: string)
    ensures GenericName(ratio, long) + rest ==
            "[" + (Digits(ratio.0) + ("/" + (Digits(ratio.1) + ("]" + (Name(16, long) + rest)))))
  {
  }

  lemma GenericUnitRead(ratio: (nat, nat), long: bool, rest: string)
    requires ratio.0 <= UINT64_MAX && ratio.1 <= UINT64_MAX && EndsName(rest)
    ensures ReadUnit(GenericName(ratio, long) + rest) == Some(ratio)
  {
    var s := Digits(ratio.0) + ("/" + (Digits(ratio.1) + ("]" + (Name(16, long) + rest))));
    GenericNameFollowed(ratio, long, rest);
    NameScanned(16, long, rest, 16, 17);
    GenericPartsRead(ratio.0, ratio.1, Name(16, long) + rest);
    OpenedUnit(s);
  }

  lemma OpenedUnit(s: string)
    ensures ReadUnit("[" + s) == ReadGenericUnit(s)
  {
  }

  lemma UnitRead(ratio: (nat, nat), long: bool, rest: string)
    requires ratio.0 <= UINT64_MAX && ratio.1 <= UINT64_MAX && EndsName(rest)
    ensures ReadUnit(UnitText(ratio, long) + rest) == Some(ratio)
  {
    var k := NamedUnit(ratio, 0);
    if k.Some? {
      NameScanned(k.value, long, rest, 0, UNITS);
      NamesAreSpelt(k.value, long);
      assert NameChar((Name(k.value, long) + rest)[0]);
    } else {
      GenericUnitRead(ratio, long, rest);
    }
  }

  /** A printed duration is read as its count of its unit, converted, in whatever form the unit was printed. */
  lemma WrittenDurationIsRead(count: nat, ratio: (nat, nat), long: bool, rest: string,
                              limit: nat, pn: nat, pd: nat, max: nat)
    requires count <= limit && ratio.0 <= UINT64_MAX && ratio.1 <= UINT64_MAX && EndsName(rest) && pn > 0 && pd > 0
    ensures ReadDuration(WriteDuration(count, ratio, long) + rest, limit, pn, pd, max) ==
            Convert(count, ratio.0, ratio.1, pn, pd, max)
  {
    var unit := UnitText(ratio, long) + rest;
    assert WriteDuration(count, ratio, long) + rest == Digits(count) + (" " + unit);
    IntegerRead(count, " " + unit, limit);
    assert (" " + unit)[1..] == unit;
    UnitRead(ratio, long, rest);
  }

  /** Across units: a duration printed in one period and read in another is the q-fold period if and only if q of
      the one is exactly the count of the other, q fits, and so do the parts of the reduced factor. */
  lemma AcrossUnits(count: nat, ratio: (nat, nat), long: bool, rest: string,
                    limit: nat, pn: nat, pd: nat, max: nat, q: nat)
    requires count <= limit && EndsName(rest)
    requires 0 < ratio.0 <= UINT64_MAX && 0 < ratio.1 <= UINT64_MAX && Coprime(ratio.0, ratio.1)
    requires pn > 0 && pd > 0 && Coprime(pn, pd)
    ensures
      ReadDuration(WriteDuration(count, ratio, long) + rest, limit, pn, pd, max) == Stored(q) <==>
      && FactorNum(ratio.0, ratio.1, pn, pd) <= UINT64_MAX
      && FactorDen(ratio.0, ratio.1, pn, pd) <= UINT64_MAX
      && SameDuration(q, pn, pd, count, ratio.0, ratio.1)
      && q <= max
  {
    WrittenDurationIsRead(count, ratio, long, rest, limit, pn, pd, max);
    ConversionIsExact(count, ratio.0, ratio.1, pn, pd, max, q);
  }

  /** In the period it was printed in, a duration is read back as it was. */
  lemma RoundTrip(count: nat, ratio: (nat, nat), long: bool, rest: string, limit: nat, max: nat)
    requires count <= limit && count <= max && EndsName(rest)
    requires 0 < ratio.0 <= UINT64_MAX && 0 < ratio.1 <= UINT64_MAX && Coprime(ratio.0, ratio.1)
    ensures ReadDuration(WriteDuration(count, ratio, long) + rest, limit, ratio.0, ratio.1, max) == Stored(count)
  {
    AcrossUnits(count, ratio, long, rest, limit, ratio.0, ratio.1, max, count);
    OwnFactor(ratio.0, ratio.1);
    assert count * (ratio.1 * ratio.0) == count * (ratio.0 * ratio.1) by {
      assert ratio.1 * ratio.0 == ratio.0 * ratio.1;
    }
  }

  lemma OwnFactor(num: nat, den: nat)
    requires num > 0 && den > 0
    ensures FactorNum(num, den, num, den) == 1 && FactorDen(num, den, num, den) == 1
  {
    GcdOfMultiple(num, num);
    GcdOfMultiple(den, den);
    assert num * 1 == num && Divides(num, num);
    assert den * 1 == den && Divides(den, den);
    ExactQuotient(num, 1, num);
    ExactQuotient(den, 1, den);
  }

  // ---------------------------------------------- texts that divide by zero

  lemma NoSuchUnit(ratio: (nat, nat))
    requires ratio.0 == 0 || ratio.1 == 0
    ensures UnitText(ratio, false) == GenericName(ratio, false)
  {
    assert NamedUnit(ratio, 0).None?;
  }

  /** Whatever the period: the reader divides by the zero of this text's denominator, */
  lemma ZeroDenominatorDivides(limit: nat, pn: nat, pd: nat, max: nat)
    requires pn > 0 && pd > 0
    ensures ReadDuration("0 [1/0]s", limit, pn, pd, max) == DividesByZero
  {
    NoSuchUnit((1, 0));
    assert WriteDuration(0, (1, 0), false) + "" == "0 [1/0]s";
    WrittenDurationIsRead(0, (1, 0), false, "", limit, pn, pd, max);
    ZeroFactors(1, 0, pn, pd);
    DividesZero(0);
    DividesByZeroIff(0, 1, 0, pn, pd, max);
  }

  /** and by the zero that this one's numerator leaves. */
  lemma ZeroNumeratorDivides(limit: nat, pn: nat, pd: nat, max: nat)
    requires pn > 0 && pd > 0 && limit >= 1
    ensures ReadDuration("1 [0/1]s", limit, pn, pd, max) == DividesByZero
  {
    NoSuchUnit((0, 1));
    assert WriteDuration(1, (0, 1), false) + "" == "1 [0/1]s";
    WrittenDurationIsRead(1, (0, 1), false, "", limit, pn, pd, max);
    ZeroUnitFactor(1, pd, 0, pn);
    ZeroFactors(0, 1, pn, pd);
    assert FactorDen(0, 1, pn, pd) == 1;
    assert 1 * 1 == 1 && Divides(1, 1);
    DividesByZeroIff(1, 0, 1, pn, pd, max);
  }
}
