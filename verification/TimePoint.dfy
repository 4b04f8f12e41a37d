/** The text of a system_clock time point, as chrono_io writes and reads it in its default format. */
module TimePoint {
  import opened Wrappers
  import opened Text
  import opened Calendar
  import opened Rounding

  const NANOS: nat := 1_000_000_000
  const MICROS: nat := 1_000_000

  // ------------------------------------------------------------- writing

  /** A pattern of time_put and time_get: numbers of some digits and in a range, literal characters, and a
      space, which is written as one and stands for any number of them when it is read. */
  datatype Pattern =
    | End
    | Number(limit: nat, low: nat, high: nat, rest: Pattern)
    | Literal(c: char, rest: Pattern)
    | Spaces(rest: Pattern)

  /** "%Y-%m-%d %H:%M:", which is also "%F %H:%M:". */
  const DATE: Pattern :=
    Number(4, 0, 9999, Literal('-', Number(2, 1, 12, Literal('-', Number(2, 1, 31,
    Spaces(Number(2, 0, 23, Literal(':', Number(2, 0, 59, Literal(':', End))))))))))

  function Numbers(p: Pattern): nat {
    match p
    case End => 0
    case Number(_, _, _, rest) => 1 + Numbers(rest)
    case Literal(_, rest) => Numbers(rest)
    case Spaces(rest) => Numbers(rest)
  }

  /** A number with at least `width` digits. */
  function NumberText(n: nat, width: nat): string {
    if n < Pow10(width) then Padded(n, width) else Digits(n)
  }

  function WritePattern(p: Pattern, vs: seq<nat>, tail: string): string
    requires |vs| == Numbers(p)
    decreases p
  {
    match p
    case End => tail
    case Number(limit, _, _, rest) => NumberText(vs[0], limit) + WritePattern(rest, vs[1..], tail)
    case Literal(c, rest) => [c] + WritePattern(rest, vs, tail)
    case Spaces(rest) => [' '] + WritePattern(rest, vs, tail)
  }

  function DateText(f: Fields, tail: string): string {
    WritePattern(DATE, [f.year, f.month, f.day, f.hour, f.minute], tail)
  }

  /** A zone as %z writes it. */
  datatype Zone = Zone(west: bool, hours: nat, minutes: nat)
  {
    predicate Valid() {
      hours < 100 && minutes < 100
    }

    /** What is added to a time of the zone to get UTC, in minutes. */
    function ToUtc(): int {
      if west then hours * 60 + minutes else -(hours * 60 + minutes)
    }
  }

  const UTC := Zone(false, 0, 0)

  /** " %z". */
  function OffsetText(z: Zone): string {
    [' ', if z.west then '-' else '+'] + (Padded(z.hours, 2) + Padded(z.minutes, 2))
  }

  /** A date, whole seconds, their decimals and an offset. */
  function TimeText(f: Fields, a: string, b: string, z: Zone): string {
    DateText(f, a + ("." + (b + OffsetText(z))))
  }

  /** The whole part of some microseconds, in seconds. */
  function WholeText(micros: nat, zero: bool): string {
    (if zero then "0" else "") + Digits(micros / MICROS)
  }

  /** Their six decimals. */
  function DecimalsText(micros: nat): string {
    Padded(micros % MICROS, 6)
  }

  /** The text of a broken-down time with the nanoseconds of its minute. The leading zero is put by the value
      before it is rounded. */
  function FieldsText(f: Fields, nanos: nat, z: Zone): string {
    TimeText(f, SecondsField(nanos), DecimalsText(RoundQuotient(nanos, 1000)), z)
  }

  function NanosOfMinute(f: Fields, t: nat): nat {
    f.second * NANOS + t % NANOS
  }

  /** The seconds that localtime_r splits in the zone. */
  function LocalSeconds(t: nat, z: Zone): int {
    t / NANOS - z.ToUtc() * 60
  }

  /** operator<<, which prints the time of day of the zone. */
  function WriteTime(t: nat, z: Zone): string
    requires LocalSeconds(t, z) >= 0
  {
    var f := GmTime(LocalSeconds(t, z));
    FieldsText(f, NanosOfMinute(f, t), z)
  }

  // ------------------------------------------------- the field of the seconds

  /** What stands for the seconds in the text of a time with these nanoseconds in its minute. */
  function SecondsField(nanos: nat): string {
    WholeText(RoundQuotient(nanos, 1000), nanos < 10 * NANOS)
  }

  lemma DigitsOfSmall(n: nat)
    requires n < 100
    ensures |Digits(n)| == if n < 10 then 1 else 2
  {
    if n >= 10 {
      assert Digits(n) == Digits(n / 10) + [DigitChar(n % 10)];
    }
  }

  /** The field is two digits for a second of a minute except when rounding carries the seconds over to ten, which
      gives three digits, or over to sixty. */
  lemma SecondsFieldIsProperIff(nanos: nat)
    requires nanos < 60 * NANOS
    ensures |SecondsField(nanos)| == 2 && RoundQuotient(nanos, 1000) / MICROS < 60 <==>
            !(9_999_999_500 <= nanos < 10 * NANOS) && nanos < 59_999_999_500
  {
    var whole := RoundQuotient(nanos, 1000) / MICROS;
    CarriedSeconds(nanos);
    DigitsOfSmall(whole);
  }

  lemma CarriedSeconds(nanos: nat)
    requires nanos < 60 * NANOS
    ensures RoundQuotient(nanos, 1000) / MICROS <= 60
    ensures RoundQuotient(nanos, 1000) / MICROS < 60 <==> nanos < 59_999_999_500
    ensures RoundQuotient(nanos, 1000) / MICROS < 10 <==> nanos < 9_999_999_500
  {
  }

  /** A time of whole microseconds has a proper field. */
  lemma WholeMicrosecondsAreProper(nanos: nat)
    requires nanos < 60 * NANOS && nanos % 1000 == 0
    ensures |SecondsField(nanos)| == 2 && RoundQuotient(nanos, 1000) / MICROS < 60
  {
    SecondsFieldIsProperIff(nanos);
  }

  /** Three hundred nanoseconds before the tenth second the field has three digits. */
  lemma ThreeDigitSeconds()
    ensures NanosOfMinute(GmTime(9), 9_999_999_700) == 9_999_999_700
    ensures SecondsField(9_999_999_700) == "010"
  {
    assert RoundQuotient(9_999_999_700, 1000) == 10 * MICROS;
    assert Digits(10) == "10";
  }

  /** Three hundred nanoseconds before the second minute the field is no second of a minute. */
  lemma SixtySeconds()
    ensures NanosOfMinute(GmTime(59), 59_999_999_700) == 59_999_999_700
    ensures SecondsField(59_999_999_700) == "60"
  {
    assert RoundQuotient(59_999_999_700, 1000) == 60 * MICROS;
    assert Digits(60) == "60";
  }

  // ------------------------------------------------------------- reading

  function ReadPattern(p: Pattern, s: string): (r: Option<(seq<nat>, string)>)
    ensures r.Some? ==> |r.value.0| == Numbers(p)
    decreases p
  {
    match p
    case End => Some(([], s))
    case Number(limit, low, high, rest) =>
      var n := LeadingDigits(s, limit);
      if n == 0 || !(low <= Value(s[..n]) <= high) then None
      else (match ReadPattern(rest, s[n..])
            case None => None
            case Some((vs, s1)) => Some(([Value(s[..n])] + vs, s1)))
    case Literal(c, rest) => if s != [] && s[0] == c then ReadPattern(rest, s[1..]) else None
    case Spaces(rest) => ReadPattern(rest, SkipSpaces(s))
  }

  /** The date and the time of day to the minute; the seconds stay zero. */
  function ReadDate(s: string): Option<(Fields, string)> {
    match ReadPattern(DATE, s)
    case None => None
    case Some((v, rest)) => Some((Fields(v[0], v[1], v[2], v[3], v[4], 0), rest))
  }

  /** A decimal number: its digits without the point, and how many stand after the point. */
  function ReadSeconds(text: string): (r: Option<(string, nat, string)>)
    ensures r.Some? ==> AllDigits(r.value.0)
  {
    var s := SkipSpaces(text);
    var i := LeadingDigits(s, |s|);
    var fraction := if i < |s| && s[i] == '.' then s[i + 1..] else [];
    var j := LeadingDigits(fraction, |fraction|);
    var rest := if i < |s| && s[i] == '.' then fraction[j..] else s[i..];
    if i + j == 0 then None else Some((s[..i] + fraction[..j], j, rest))
  }

  /** hhmm in minutes. */
  function OffsetSize(d: string): int
    requires |d| == 4 && AllDigits(d)
  {
    (DigitValue(d[0]) * 10 + DigitValue(d[1])) * 60 + DigitValue(d[2]) * 10 + DigitValue(d[3])
  }

  /** The minutes to add to get UTC: a space, a sign and four digits. */
  function Offset(s: string): Option<int> {
    if |s| >= 6 && s[0] == ' ' && (s[1] == '+' || s[1] == '-') && AllDigits(s[2..6]) then
      Some(if s[1] == '-' then OffsetSize(s[2..6]) else -OffsetSize(s[2..6]))
    else None
  }

  /** The part of operator>> that reads the offset character by character. */
  method ReadOffset(s: string) returns (minutes: Option<int>)
    ensures minutes == Offset(s)
  {
    if |s| < 2 || s[0] != ' ' { return None; }
    if |s| < 3 || (s[1] != '+' && s[1] != '-') { return None; }
    var n := if s[1] == '-' then 1 else -1;
    if |s| < 4 || !IsDigit(s[2]) { return None; }
    var min := DigitValue(s[2]) * 600;
    if |s| < 5 || !IsDigit(s[3]) { return None; }
    min := min + DigitValue(s[3]) * 60;
    if |s| < 6 || !IsDigit(s[4]) { return None; }
    min := min + DigitValue(s[4]) * 10;
    if !IsDigit(s[5]) { return None; }
    min := min + DigitValue(s[5]);
    assert AllDigits(s[2..6]);
    minutes := Some(n * min);
  }

  /** What a text says: a time to the minute, a row of digits with some after the point, an offset. */
  datatype Stamp = Stamp(date: Fields, digits: string, decimals: nat, minutes: int)

  function ReadStamp(text: string): (r: Option<Stamp>)
    ensures r.Some? ==> AllDigits(r.value.digits)
  {
    match ReadDate(text)
    case None => None
    case Some((f, s)) =>
    match ReadSeconds(s)
    case None => None
    case Some((digits, decimals, s)) =>
    match Offset(s)
    case None => None
    case Some(minutes) => Some(Stamp(f, digits, decimals, minutes))
  }

  /** timegm of the date, and the offset, and the seconds in microseconds. */
  function Instant(f: Fields, minutes: int, micros: nat): int {
    TimeGm(f) * MICROS + minutes * 60 * MICROS + micros
  }

  /** The nearest whole number of microseconds to a decimal number of seconds. */
  function MicrosOf(digits: string, decimals: nat): nat
    requires AllDigits(digits)
  {
    RoundQuotient(Value(digits) * MICROS, Pow10(decimals))
  }

  /** operator>>: the microseconds since the epoch. */
  function ReadTime(text: string): Option<int> {
    match ReadStamp(text)
    case None => None
    case Some(p) => Some(Instant(p.date, p.minutes, MicrosOf(p.digits, p.decimals)))
  }

  /** operator>> in steps: the date, the seconds, the offset, and their sum. */
  method Read(text: string) returns (micros: Option<int>)
    ensures micros == ReadTime(text)
  {
    var date := ReadDate(text);
    if date.None? {
      return None;
    }
    var (f, s) := date.value;
    var seconds := ReadSeconds(s);
    if seconds.None? {
      return None;
    }
    var (digits, decimals, rest) := seconds.value;
    var minutes := ReadOffset(rest);
    if minutes.None? {
      return None;
    }
    micros := Some(Instant(f, minutes.value, MicrosOf(digits, decimals)));
  }

  // ------------------------------------------------ reading what is written

  /** No digit can follow a number, and no space can follow the spaces. */
  predicate Separated(p: Pattern) {
    match p
    case End => true
    case Number(limit, _, _, rest) =>
      limit > 0 && Separated(rest) && (rest.Spaces? || (rest.Literal? && !IsDigit(rest.c)))
    case Literal(c, rest) => Separated(rest)
    case Spaces(rest) => rest.Number? && Separated(rest)
  }

  predicate Fit(p: Pattern, vs: seq<nat>)
    requires |vs| == Numbers(p)
    decreases p
  {
    match p
    case End => true
    case Number(limit, low, high, rest) => vs[0] < Pow10(limit) && low <= vs[0] <= high && Fit(rest, vs[1..])
    case Literal(_, rest) => Fit(rest, vs)
    case Spaces(rest) => Fit(rest, vs)
  }

  /** Numbers in the ranges of a pattern are read as they were written. */
  lemma {:induction false} PatternRead(p: Pattern, vs: seq<nat>, tail: string)
    requires Separated(p) && |vs| == Numbers(p) && Fit(p, vs)
    ensures ReadPattern(p, WritePattern(p, vs, tail)) == Some((vs, tail))
    decreases p
  {
    match p
    case End =>
    case Number(limit, _, _, rest) =>
      PatternRead(rest, vs[1..], tail);
      NumberRead(p, vs, WritePattern(rest, vs[1..], tail), tail);
    case Literal(c, rest) =>
      PatternRead(rest, vs, tail);
      assert ([c] + WritePattern(rest, vs, tail))[1..] == WritePattern(rest, vs, tail);
    case Spaces(rest) =>
      PatternRead(rest, vs, tail);
      SpaceSkipped(rest, vs, tail);
  }

  lemma NumberRead(p: Pattern, vs: seq<nat>, text: string, tail: string)
    requires p.Number? && p.limit > 0 && |vs| == Numbers(p) && vs[0] < Pow10(p.limit) && p.low <= vs[0] <= p.high
    requires text != [] && !IsDigit(text[0]) && ReadPattern(p.rest, text) == Some((vs[1..], tail))
    ensures ReadPattern(p, NumberText(vs[0], p.limit) + text) == Some((vs, tail))
  {
    PaddedDenotes(vs[0], p.limit);
    LeadingDigitsAre(Padded(vs[0], p.limit), text, p.limit);
    assert [vs[0]] + vs[1..] == vs;
  }

  lemma SpaceSkipped(p: Pattern, vs: seq<nat>, tail: string)
    requires p.Number? && p.limit > 0 && |vs| == Numbers(p) && vs[0] < Pow10(p.limit)
    ensures SkipSpaces([' '] + WritePattern(p, vs, tail)) == WritePattern(p, vs, tail)
  {
    var text := WritePattern(p, vs, tail);
    PaddedWidth(vs[0], p.limit);
    assert IsDigit(text[0]);
    assert ([' '] + text)[1..] == text;
  }

  /** A date in the calendar's ranges; the day may be past the end of its month. */
  predicate InRanges(f: Fields) {
    f.year <= 9999 && 1 <= f.month <= 12 && 1 <= f.day <= 31 && f.hour < 24 && f.minute < 60
  }

  lemma DateFits(f: Fields)
    requires InRanges(f)
    ensures Fit(DATE, [f.year, f.month, f.day, f.hour, f.minute])
  {
    assert Pow10(4) == 10000 && Pow10(2) == 100;
    var d: Pattern := DATE.rest.rest;
    var h: Pattern := d.rest.rest.rest.rest;
    assert Fit(h, [f.hour, f.minute]) by {
      assert [f.hour, f.minute][1..] == [f.minute];
    }
    assert [f.year, f.month, f.day, f.hour, f.minute][1..] == [f.month, f.day, f.hour, f.minute];
    assert [f.month, f.day, f.hour, f.minute][1..] == [f.day, f.hour, f.minute];
    assert [f.day, f.hour, f.minute][1..] == [f.hour, f.minute];
  }

  lemma DateRead(f: Fields, tail: string)
    requires InRanges(f)
    ensures ReadDate(DateText(f, tail)) == Some((f.(second := 0), tail))
  {
    DateFits(f);
    PatternRead(DATE, [f.year, f.month, f.day, f.hour, f.minute], tail);
  }

  lemma SecondsRead(a: string, b: string, rest: string)
    requires AllDigits(a) && AllDigits(b) && a != [] && rest != [] && !IsDigit(rest[0])
    ensures ReadSeconds(a + ("." + (b + rest))) == Some((a + b, |b|, rest))
  {
    var s := a + ("." + (b + rest));
    assert IsDigit(s[0]) && SkipSpaces(s) == s;
    LeadingDigitsAre(a, "." + (b + rest), |s|);
    assert s[|a|] == '.';
    assert s[|a| + 1..] == b + rest;
    LeadingDigitsAre(b, rest, |b + rest|);
  }

  lemma OffsetRead(z: Zone)
    requires z.Valid()
    ensures Offset(OffsetText(z)) == Some(z.ToUtc())
  {
    TwoDigitValue(z.hours);
    TwoDigitValue(z.minutes);
    assert OffsetText(z)[2..6] == Padded(z.hours, 2) + Padded(z.minutes, 2);
  }

  lemma TwoDigitValue(n: nat)
    requires n < 100
    ensures |Padded(n, 2)| == 2 && AllDigits(Padded(n, 2))
    ensures DigitValue(Padded(n, 2)[0]) * 10 + DigitValue(Padded(n, 2)[1]) == n
  {
    assert Padded(n, 2) == [DigitChar(n / 10 % 10), DigitChar(n % 10)] by {
      assert Padded(n / 10, 1) == [] + [DigitChar(n / 10 % 10)];
    }
  }

  /** A well-formed text denotes its calendar time, the seconds and the offset. */
  lemma TextDenotes(f: Fields, a: string, b: string, z: Zone)
    requires InRanges(f) && AllDigits(a) && AllDigits(b) && a != [] && z.Valid()
    ensures ReadStamp(TimeText(f, a, b, z)) == Some(Stamp(f.(second := 0), a + b, |b|, z.ToUtc()))
  {
    DateRead(f, a + ("." + (b + OffsetText(z))));
    SecondsRead(a, b, OffsetText(z));
    OffsetRead(z);
  }

  lemma ZeroBefore(d: string)
    requires AllDigits(d)
    ensures AllDigits("0" + d) && Value("0" + d) == Value(d)
  {
    assert "0"[..0] == [] && Value("0") == 0;
    ValueOfJoined("0", d);
  }

  lemma WholeSecondsDenote(n: nat, zero: string)
    requires zero == "" || zero == "0"
    ensures AllDigits(zero + Digits(n)) && zero + Digits(n) != [] && Value(zero + Digits(n)) == n
  {
    DigitsDenote(n);
    if zero == "" {
      assert zero + Digits(n) == Digits(n);
    } else {
      ZeroBefore(Digits(n));
    }
  }

  lemma SecondsDenote(micros: nat, zero: bool)
    ensures
      var (a, b) := (WholeText(micros, zero), DecimalsText(micros));
      && a != [] && AllDigits(a) && AllDigits(b) && AllDigits(a + b) && |b| == 6
      && Value(a + b) == micros
  {
    WholeSecondsDenote(micros / MICROS, if zero then "0" else "");
    MillionIsPow10();
    PaddedDenotes(micros % MICROS, 6);
    ValueOfJoined(WholeText(micros, zero), DecimalsText(micros));
  }

  lemma MillionIsPow10()
    ensures Pow10(6) == MICROS
  {
    assert Pow10(3) == 1000;
  }

  /** A time of the years up to 9999. */
  predicate Printable(t: int) {
    t >= 0 && GmTime(t).year <= 9999
  }

  /** What a text with six decimals says. */
  lemma MicrosAreRead(f: Fields, micros: nat, zero: bool, z: Zone)
    requires InRanges(f) && z.Valid()
    ensures ReadStamp(TimeText(f, WholeText(micros, zero), DecimalsText(micros), z)) ==
            Some(Stamp(f.(second := 0), WholeText(micros, zero) + DecimalsText(micros), 6, z.ToUtc()))
  {
    SecondsDenote(micros, zero);
    TextDenotes(f, WholeText(micros, zero), DecimalsText(micros), z);
  }

  lemma StampIsTime(text: string, p: Stamp, micros: nat)
    requires AllDigits(p.digits) && ReadStamp(text) == Some(p) && p.decimals == 6 && Value(p.digits) == micros
    ensures ReadTime(text) == Some(Instant(p.date, p.minutes, micros))
  {
    MillionIsPow10();
    RoundWhole(micros * MICROS, micros, MICROS);
  }

  lemma MicrosTextIsTime(f: Fields, micros: nat, zero: bool, z: Zone)
    requires InRanges(f) && z.Valid()
    ensures ReadTime(TimeText(f, WholeText(micros, zero), DecimalsText(micros), z)) ==
            Some(Instant(f.(second := 0), z.ToUtc(), micros))
  {
    var a, b := WholeText(micros, zero), DecimalsText(micros);
    MicrosAreRead(f, micros, zero, z);
    SecondsDenote(micros, zero);
    StampIsTime(TimeText(f, a, b, z), Stamp(f.(second := 0), a + b, 6, z.ToUtc()), micros);
  }

  lemma NanosTextIsTime(f: Fields, nanos: nat, z: Zone)
    requires InRanges(f) && z.Valid()
    ensures ReadTime(FieldsText(f, nanos, z)) ==
            Some(Instant(f.(second := 0), z.ToUtc(), RoundQuotient(nanos, 1000)))
  {
    MicrosTextIsTime(f, RoundQuotient(nanos, 1000), nanos < 10 * NANOS, z);
  }

  /** The text of a time point carries it to the nearest microsecond, in whatever zone it is written. */
  lemma WrittenTimeIsRead(t: nat, z: Zone)
    requires z.Valid() && Printable(LocalSeconds(t, z))
    ensures ReadTime(WriteTime(t, z)) == Some(RoundQuotient(t, 1000))
  {
    var f := GmTime(LocalSeconds(t, z));
    TimeGmInvertsGmTime(LocalSeconds(t, z));
    NanosTextIsTime(f, NanosOfMinute(f, t), z);
    WholeMinutes(t, z.ToUtc(), f);
  }

  /** Every quantity of a broken-down time but its seconds is in whole minutes. */
  lemma SecondsOfMinute(f: Fields)
    ensures TimeGm(f) == TimeGm(f.(second := 0)) + f.second && TimeGm(f.(second := 0)) % 60 == 0
  {
    var days := DaysBeforeYear(f.year) + DaysBeforeMonth(f.year, f.month) + f.day - 1;
    assert TimeGm(f.(second := 0)) == 60 * (days * 1440 + f.hour * 60 + f.minute);
  }

  lemma WholeMinutes(t: nat, toUtc: int, f: Fields)
    requires TimeGm(f) == t / NANOS - toUtc * 60 && f.second < 60
    ensures Instant(f.(second := 0), toUtc, RoundQuotient(NanosOfMinute(f, t), 1000)) == RoundQuotient(t, 1000)
  {
    SecondsOfMinute(f);
    RoundFromMinute(t, toUtc, TimeGm(f.(second := 0)), f.second);
  }

  lemma MinuteAndRest(t: nat, whole: int, second: nat)
    requires whole == t / NANOS - second && whole % 60 == 0 && second < 60
    ensures whole >= 0 && (whole * MICROS) % 2 == 0 && whole * MICROS * 1000 + (second * NANOS + t % NANOS) == t
  {
  }

  lemma RoundFromMinute(t: nat, toUtc: int, start: int, second: nat)
    requires start + second == t / NANOS - toUtc * 60 && start % 60 == 0 && second < 60
    ensures start * MICROS + toUtc * 60 * MICROS + RoundQuotient(second * NANOS + t % NANOS, 1000) ==
            RoundQuotient(t, 1000)
  {
    var whole, rest := start + toUtc * 60, second * NANOS + t % NANOS;
    MinuteAndRest(t, whole, second);
    RoundShift(whole * MICROS, rest, 1000);
  }

  /** A time point that is a whole number of microseconds is read back as it was. */
  lemma WholeMicrosecondsRoundTrip(t: nat, z: Zone)
    requires z.Valid() && Printable(LocalSeconds(t, z)) && t % 1000 == 0
    ensures ReadTime(WriteTime(t, z)) == Some(t / 1000)
  {
    WrittenTimeIsRead(t, z);
    RoundWhole(t, t / 1000, 1000);
  }

  // --------------------------------------------------------------- offsets

  /** The instant that a date, a time of day and an offset denote, in minutes since the epoch. */
  function MinuteOf(f: Fields, z: Zone): int {
    TimeGm(f.(second := 0)) / 60 + z.ToUtc()
  }

  lemma TimeTextIsTime(f: Fields, a: string, b: string, z: Zone)
    requires InRanges(f) && z.Valid() && AllDigits(a) && AllDigits(b) && a != []
    ensures AllDigits(a + b)
    ensures ReadTime(TimeText(f, a, b, z)) == Some(Instant(f.(second := 0), z.ToUtc(), MicrosOf(a + b, |b|)))
  {
    TextDenotes(f, a, b, z);
  }

  lemma SameInstant(f1: Fields, z1: Zone, f2: Fields, z2: Zone, micros: nat)
    ensures Instant(f1.(second := 0), z1.ToUtc(), micros) == Instant(f2.(second := 0), z2.ToUtc(), micros) <==>
            MinuteOf(f1, z1) == MinuteOf(f2, z2)
  {
    SecondsOfMinute(f1);
    SecondsOfMinute(f2);
    SameMinute(TimeGm(f1.(second := 0)), z1.ToUtc(), TimeGm(f2.(second := 0)), z2.ToUtc());
  }

  lemma SameMinute(t1: int, m1: int, t2: int, m2: int)
    requires t1 % 60 == 0 && t2 % 60 == 0
    ensures t1 * MICROS + m1 * 60 * MICROS == t2 * MICROS + m2 * 60 * MICROS <==> t1 / 60 + m1 == t2 / 60 + m2
  {
  }

  /** Texts with the same seconds are read as the same time if, and only if, date, time of day and offset
      together denote the same minute. */
  lemma OffsetsAgree(f1: Fields, z1: Zone, f2: Fields, z2: Zone, a: string, b: string)
    requires InRanges(f1) && InRanges(f2) && z1.Valid() && z2.Valid()
    requires AllDigits(a) && AllDigits(b) && a != []
    ensures ReadTime(TimeText(f1, a, b, z1)) == ReadTime(TimeText(f2, a, b, z2)) <==>
            MinuteOf(f1, z1) == MinuteOf(f2, z2)
  {
    TimeTextIsTime(f1, a, b, z1);
    TimeTextIsTime(f2, a, b, z2);
    SameInstant(f1, z1, f2, z2, MicrosOf(a + b, |b|));
  }

  /** A text with an offset reads as the text of the same instant in UTC. */
  lemma OffsetReadsAsUtc(f: Fields, z: Zone, a: string, b: string)
    requires InRanges(f) && z.Valid() && AllDigits(a) && AllDigits(b) && a != []
    requires Printable(MinuteOf(f, z) * 60)
    ensures
      var utc := GmTime(MinuteOf(f, z) * 60);
      ReadTime(TimeText(f, a, b, z)) == ReadTime(TimeText(utc, a, b, UTC))
  {
    var utc := GmTime(MinuteOf(f, z) * 60);
    TimeGmInvertsGmTime(MinuteOf(f, z) * 60);
    SecondsOfMinute(utc);
    OffsetsAgree(f, z, utc, UTC, a, b);
  }
}
