/** Exactly which texts the duration reader accepts, and as what. */
module DurationGrammar {
  import opened Wrappers
  import opened Text
  import opened Arithmetic
  import opened DurationReader
  import opened DurationText

  // ------------------------------------------------------- names of units

  /** The text begins with this name, and with no more than it that begins a name. */
  ghost predicate Stands(name: string, s: string, names: seq<string>) {
    name <= s && (|name| < |s| ==> !BeginsName(s[..|name| + 1], names))
  }

  /** One of the names of the k-th unit stands at the beginning. */
  ghost predicate NameAt(s: string, k: nat, low: nat, high: nat)
    requires low <= high <= UNITS
  {
    && low <= k < high
    && (Stands(Name(k, true), s, Names(low, high)) || Stands(Name(k, false), s, Names(low, high)))
  }

  lemma StandingName(k: nat, long: bool, s: string, low: nat, high: nat)
    requires low <= k < high <= UNITS && Stands(Name(k, long), s, Names(low, high))
    ensures ScanUnit(s, low, high) == Some(k)
  {
    NameBegins(k, long, low, high);
    NameConsumed(Name(k, long), s, Names(low, high));
    NameIsFirst(k, long, low, high);
  }

  /** The scan finds a unit exactly where one of its names stands. */
  lemma ScanIff(s: string, low: nat, high: nat, k: nat)
    requires low <= high <= UNITS
    ensures ScanUnit(s, low, high) == Some(k) <==> NameAt(s, k, low, high)
  {
    if ScanUnit(s, low, high) == Some(k) {
      var n := Consumed(s, 0, Names(low, high));
      assert Stands(s[..n], s, Names(low, high));
    }
    if NameAt(s, k, low, high) {
      StandingName(k, Stands(Name(k, true), s, Names(low, high)), s, low, high);
    }
  }

  // ------------------------------------------------------------ any unit

  /** A unit in brackets stands at the beginning: "[", a number, spaces, "/", a number, "]", and a name of the second. */
  ghost predicate BracketsAt(s: string, num: nat, den: nat) {
    exists s1, w, s2, s3 :: BracketsIn(s, num, den, s1, w, s2, s3)
  }

  ghost predicate BracketsIn(s: string, num: nat, den: nat, s1: string, w: string, s2: string, s3: string) {
    && s != [] && s[0] == '[' && NumberAt(s[1..], num, s1)
    && s1 == w + ("/" + s2) && AllSpaces(w) && NumberAt(s2, den, "]" + s3) && NameAt(s3, 16, 16, 17)
  }

  lemma BracketsRead(s: string, num: nat, den: nat)
    requires num <= UINT64_MAX && den <= UINT64_MAX && BracketsAt(s, num, den)
    ensures ReadUnit(s) == Some((num, den))
  {
    var s1, w, s2, s3 :| BracketsIn(s, num, den, s1, w, s2, s3);
    ReadIntegerIff(s[1..], UINT64_MAX, num, s1);
    SpacesSkipped(w, "/" + s2);
    assert ("/" + s2)[1..] == s2 && ("]" + s3)[1..] == s3;
    ReadIntegerIff(s2, UINT64_MAX, den, "]" + s3);
    ScanIff(s3, 16, 17, 16);
  }

  lemma BracketsFound(s: string, num: nat, den: nat)
    requires s != [] && s[0] == '[' && ReadUnit(s) == Some((num, den))
    ensures num <= UINT64_MAX && den <= UINT64_MAX && BracketsAt(s, num, den)
  {
    var (n, s1) := ReadInteger(s[1..], UINT64_MAX).value;
    ReadIntegerIff(s[1..], UINT64_MAX, num, s1);
    var w := SpacesBefore(s1);
    var s2 := SkipSpaces(s1)[1..];
    assert SkipSpaces(s1) == "/" + s2;
    var (d, s4) := ReadInteger(s2, UINT64_MAX).value;
    ReadIntegerIff(s2, UINT64_MAX, den, s4);
    var s3 := s4[1..];
    assert s4 == "]" + s3;
    ScanIff(s3, 16, 17, ScanUnit(s3, 16, 17).value);
    assert BracketsIn(s, num, den, s1, w, s2, s3);
  }

  lemma NoNameThere(s: string, k: nat)
    requires k < UNITS && (s == [] || s[0] == '[')
    ensures !NameAt(s, k, 0, UNITS)
  {
    NamesAreSpelt(k, true);
    NamesAreSpelt(k, false);
    assert !NameChar('[');
  }

  /** A name stands at the beginning, and its unit is this. */
  ghost predicate NamedAt(s: string, num: nat, den: nat) {
    exists k :: 0 <= k < UNITS && NameAt(s, k, 0, UNITS) && (num, den) == Ratio(k)
  }

  lemma NamedIff(s: string, num: nat, den: nat)
    requires s != [] && s[0] != '['
    ensures ReadUnit(s) == Some((num, den)) <==> NamedAt(s, num, den)
  {
    var r := ScanUnit(s, 0, UNITS);
    if r.Some? {
      ScanIff(s, 0, UNITS, r.value);
    }
    if NamedAt(s, num, den) {
      var k :| 0 <= k < UNITS && NameAt(s, k, 0, UNITS) && (num, den) == Ratio(k);
      ScanIff(s, 0, UNITS, k);
    }
  }

  lemma NotNamed(s: string, num: nat, den: nat)
    requires s == [] || s[0] == '['
    ensures !NamedAt(s, num, den)
  {
    if NamedAt(s, num, den) {
      var k :| 0 <= k < UNITS && NameAt(s, k, 0, UNITS) && (num, den) == Ratio(k);
      NoNameThere(s, k);
    }
  }

  /** A unit of num/den seconds stands at the beginning, by a name or in brackets. */
  ghost predicate UnitAt(s: string, num: nat, den: nat) {
    NamedAt(s, num, den) || (BracketsAt(s, num, den) && num <= UINT64_MAX && den <= UINT64_MAX)
  }

  /** A unit is read exactly where one stands. */
  lemma ReadUnitIff(s: string, num: nat, den: nat)
    ensures ReadUnit(s) == Some((num, den)) <==> UnitAt(s, num, den)
  {
    if s == [] || s[0] == '[' {
      NotNamed(s, num, den);
      if UnitAt(s, num, den) {
        BracketsRead(s, num, den);
      } else if ReadUnit(s) == Some((num, den)) {
        BracketsFound(s, num, den);
      }
    } else {
      NamedIff(s, num, den);
    }
  }

  // ----------------------------------------------------- the whole text

  /** A count, one space, and a unit. */
  ghost predicate Spells(text: string, count: nat, num: nat, den: nat) {
    exists unit :: NumberAt(text, count, " " + unit) && UnitAt(unit, num, den)
  }

  /** The text is a count and a unit that are converted to this. */
  ghost predicate Means(
      text: string, limit: nat, pn: nat, pd: nat, max: nat, count: nat, num: nat, den: nat, o: Outcome)
    requires pn > 0 && pd > 0
  {
    count <= limit && Spells(text, count, num, den) && Convert(count, num, den, pn, pd, max) == o
  }

  /** What is spelt is converted. */
  lemma SpeltIsRead(text: string, limit: nat, pn: nat, pd: nat, max: nat, count: nat, num: nat, den: nat)
    requires pn > 0 && pd > 0 && count <= limit && Spells(text, count, num, den)
    ensures ReadDuration(text, limit, pn, pd, max) == Convert(count, num, den, pn, pd, max)
  {
    var unit :| NumberAt(text, count, " " + unit) && UnitAt(unit, num, den);
    ReadIntegerIff(text, limit, count, " " + unit);
    assert (" " + unit)[1..] == unit;
    ReadUnitIff(unit, num, den);
  }

  lemma SpellingFound(text: string, limit: nat, pn: nat, pd: nat, max: nat) returns (count: nat, num: nat, den: nat)
    requires pn > 0 && pd > 0 && !ReadDuration(text, limit, pn, pd, max).Rejected?
    ensures count <= limit && Spells(text, count, num, den)
  {
    var (n, s) := ReadInteger(text, limit).value;
    var unit := s[1..];
    var (a, b) := ReadUnit(unit).value;
    assert s == " " + unit;
    ReadIntegerIff(text, limit, n, s);
    ReadUnitIff(unit, a, b);
    count, num, den := n, a, b;
  }

  /** A text is not rejected exactly if it spells a count and a unit whose conversion is not, and the outcome is that of
      the conversion. */
  lemma ReadDurationIff(text: string, limit: nat, pn: nat, pd: nat, max: nat, o: Outcome)
    requires pn > 0 && pd > 0 && !o.Rejected?
    ensures ReadDuration(text, limit, pn, pd, max) == o <==>
            exists count, num, den :: Means(text, limit, pn, pd, max, count, num, den, o)
  {
    if ReadDuration(text, limit, pn, pd, max) == o {
      var count, num, den := SpellingFound(text, limit, pn, pd, max);
      SpeltIsRead(text, limit, pn, pd, max, count, num, den);
      assert Means(text, limit, pn, pd, max, count, num, den, o);
    } else if exists count, num, den :: Means(text, limit, pn, pd, max, count, num, den, o) {
      var count, num, den :| Means(text, limit, pn, pd, max, count, num, den, o);
      SpeltIsRead(text, limit, pn, pd, max, count, num, den);
    }
  }
}
