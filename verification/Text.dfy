/** Decimal digits, written and read. */
module Text {
  import opened Wrappers

  predicate IsDigit(c: char) {
    '0' <= c <= '9'
  }

  function DigitChar(d: nat): (c: char)
    requires d < 10
    ensures IsDigit(c) && DigitValue(c) == d
  {
    ('0' as int + d) as char
  }

  function DigitValue(c: char): nat
    requires IsDigit(c)
  {
    c as int - '0' as int
  }

  predicate AllDigits(s: string) {
    forall k :: 0 <= k < |s| ==> IsDigit(s[k])
  }

  /** The number that a row of digits denotes. */
  function Value(s: string): nat
    requires AllDigits(s)
  {
    if s == [] then 0 else Value(s[..|s| - 1]) * 10 + DigitValue(s[|s| - 1])
  }

  /** A number as it is printed. */
  function Digits(n: nat): string {
    if n < 10 then [DigitChar(n)] else Digits(n / 10) + [DigitChar(n % 10)]
  }

  /** The last `width` digits of a number, with leading zeros. */
  function Padded(n: nat, width: nat): string {
    if width == 0 then [] else Padded(n / 10, width - 1) + [DigitChar(n % 10)]
  }

  function Pow10(k: nat): (r: nat)
    ensures r > 0
  {
    if k == 0 then 1 else 10 * Pow10(k - 1)
  }

  lemma ValueSnoc(s: string, c: char)
    requires AllDigits(s) && IsDigit(c)
    ensures AllDigits(s + [c]) && Value(s + [c]) == Value(s) * 10 + DigitValue(c)
  {
    assert (s + [c])[..|s + [c]| - 1] == s;
  }

  lemma {:induction false} DigitsDenote(n: nat)
    ensures AllDigits(Digits(n)) && Digits(n) != [] && Value(Digits(n)) == n
  {
    if n < 10 {
      ValueSnoc([], DigitChar(n));
      assert [] + [DigitChar(n)] == Digits(n);
    } else {
      DigitsDenote(n / 10);
      ValueSnoc(Digits(n / 10), DigitChar(n % 10));
    }
  }

  lemma {:induction false} PaddedDenotes(n: nat, width: nat)
    requires n < Pow10(width)
    ensures AllDigits(Padded(n, width)) && |Padded(n, width)| == width && Value(Padded(n, width)) == n
  {
    if width > 0 {
      PaddedDenotes(n / 10, width - 1);
      ValueSnoc(Padded(n / 10, width - 1), DigitChar(n % 10));
    }
  }

  lemma {:induction false} PaddedWidth(n: nat, width: nat)
    ensures |Padded(n, width)| == width && AllDigits(Padded(n, width))
  {
    if width > 0 {
      PaddedWidth(n / 10, width - 1);
    }
  }

  lemma TenTimes(a: nat, p: nat)
    ensures a * (10 * p) == (a * p) * 10
  {
  }

  /** Digits after digits: the first row counts for as many tens as the second has digits. */
  lemma {:induction false} ValueOfJoined(a: string, b: string)
    requires AllDigits(a) && AllDigits(b)
    ensures AllDigits(a + b) && Value(a + b) == Value(a) * Pow10(|b|) + Value(b)
  {
    if b == [] {
      assert a + b == a;
    } else {
      var front, c := b[..|b| - 1], b[|b| - 1];
      ValueOfJoined(a, front);
      ValueSnoc(a + front, c);
      assert a + b == (a + front) + [c];
      TenTimes(Value(a), Pow10(|front|));
    }
  }

  // ------------------------------------------------------------- reading

  /** How many digits a text begins with, up to a limit. */
  function LeadingDigits(s: string, limit: nat): (n: nat)
    ensures n <= |s| && n <= limit && AllDigits(s[..n])
    ensures n < limit && n < |s| ==> !IsDigit(s[n])
  {
    if limit == 0 || s == [] || !IsDigit(s[0]) then 0
    else
      var n := LeadingDigits(s[1..], limit - 1);
      assert s[..n + 1] == [s[0]] + s[1..][..n];
      n + 1
  }

  /** A row of digits is read back whole when the limit allows it and no digit follows, or at the limit. */
  lemma {:induction false} LeadingDigitsAre(d: string, rest: string, limit: nat)
    requires AllDigits(d) && |d| <= limit
    requires |d| == limit || rest == [] || !IsDigit(rest[0])
    ensures LeadingDigits(d + rest, limit) == |d|
    ensures (d + rest)[..|d|] == d && (d + rest)[|d|..] == rest
  {
    if d == [] {
      assert d + rest == rest;
    } else {
      assert (d + rest)[1..] == d[1..] + rest;
      LeadingDigitsAre(d[1..], rest, limit - 1);
    }
  }

  predicate IsSpace(c: char) {
    c == ' ' || '\t' <= c <= '\r'
  }

  function SkipSpaces(s: string): string {
    if s != [] && IsSpace(s[0]) then SkipSpaces(s[1..]) else s
  }

  /** istream >> integer, without a sign. */
  function ReadInteger(text: string, max: nat): Option<(nat, string)> {
    var s := SkipSpaces(text);
    var n := LeadingDigits(s, |s|);
    if n == 0 || Value(s[..n]) > max then None else Some((Value(s[..n]), s[n..]))
  }

  lemma IntegerRead(n: nat, rest: string, max: nat)
    requires n <= max && (rest == [] || !IsDigit(rest[0]))
    ensures ReadInteger(Digits(n) + rest, max) == Some((n, rest))
  {
    DigitsDenote(n);
    var s := Digits(n) + rest;
    assert IsDigit(s[0]) && SkipSpaces(s) == s;
    LeadingDigitsAre(Digits(n), rest, |s|);
  }

  // ------------------------------------------------- exactly what is read

  /** The white space of the C locale, by section 7.4.1.10 of ISO C: space, and tab to carriage return. */
  const WHITE_SPACE := " \t\n\U{00000B}\U{00000C}\r"

  predicate AllSpaces(s: string) {
    forall k :: 0 <= k < |s| ==> s[k] in WHITE_SPACE
  }

  lemma SpaceIsWhite(c: char)
    ensures IsSpace(c) <==> c in WHITE_SPACE
  {
    assert WHITE_SPACE[0] == ' ' && WHITE_SPACE[1] == '\t' && WHITE_SPACE[2] == '\n' && WHITE_SPACE[5] == '\r';
    assert WHITE_SPACE[3] as int == 11 && WHITE_SPACE[4] as int == 12;
    assert '\t' as int == 9 && '\r' as int == 13;
  }

  lemma {:induction false} SpacesSkipped(w: string, s: string)
    requires AllSpaces(w) && (s == [] || !IsSpace(s[0]))
    ensures SkipSpaces(w + s) == s
  {
    if w == [] {
      assert w + s == s;
    } else {
      SpaceIsWhite(w[0]);
      assert (w + s)[1..] == w[1..] + s;
      SpacesSkipped(w[1..], s);
    }
  }

  lemma {:induction false} SpacesBefore(text: string) returns (w: string)
    ensures text == w + SkipSpaces(text) && AllSpaces(w)
    ensures SkipSpaces(text) == [] || !IsSpace(SkipSpaces(text)[0])
  {
    if text != [] && IsSpace(text[0]) {
      w := SpacesBefore(text[1..]);
      SpaceIsWhite(text[0]);
      assert text == [text[0]] + text[1..];
      w := [text[0]] + w;
    } else {
      w := [];
    }
  }

  /** Spaces, digits that denote n, and the rest, which begins with no digit. */
  ghost predicate NumberAt(text: string, n: nat, rest: string) {
    exists w, d :: NumberIn(text, w, d, n, rest)
  }

  predicate NumberIn(text: string, w: string, d: string, n: nat, rest: string) {
    && text == w + (d + rest) && AllSpaces(w)
    && d != [] && AllDigits(d) && Value(d) == n && (rest == [] || !IsDigit(rest[0]))
  }

  lemma NumberFound(text: string, max: nat)
    requires ReadInteger(text, max).Some?
    ensures ReadInteger(text, max).value.0 <= max
    ensures NumberAt(text, ReadInteger(text, max).value.0, ReadInteger(text, max).value.1)
  {
    var w := SpacesBefore(text);
    var s := SkipSpaces(text);
    var k := LeadingDigits(s, |s|);
    var (n, rest) := ReadInteger(text, max).value;
    Halves(s, k);
    assert NumberIn(text, w, s[..k], n, rest);
  }

  lemma Halves(s: string, k: nat)
    requires k <= |s|
    ensures s[..k] + s[k..] == s
  {
  }

  lemma NumberIsRead(text: string, w: string, d: string, n: nat, rest: string, max: nat)
    requires NumberIn(text, w, d, n, rest) && n <= max
    ensures ReadInteger(text, max) == Some((n, rest))
  {
    var s := d + rest;
    assert !IsSpace(s[0]);
    SpacesSkipped(w, s);
    LeadingDigitsAre(d, rest, |s|);
  }

  /** A number is read exactly where one stands, whatever its leading zeros, if it is not too large. */
  lemma ReadIntegerIff(text: string, max: nat, n: nat, rest: string)
    ensures ReadInteger(text, max) == Some((n, rest)) <==> n <= max && NumberAt(text, n, rest)
  {
    if ReadInteger(text, max) == Some((n, rest)) {
      NumberFound(text, max);
    } else if n <= max && NumberAt(text, n, rest) {
      var w, d :| NumberIn(text, w, d, n, rest);
      NumberIsRead(text, w, d, n, rest, max);
    }
  }
}
