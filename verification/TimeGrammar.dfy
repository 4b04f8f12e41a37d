/** Exactly which texts the time point reader accepts, and as what; and where things stand in a text it writes. */
module TimeGrammar {
  import opened Wrappers
  import opened Text
  import opened Calendar
  import opened Rounding
  import opened TimePoint

  // ------------------------------------------------------------- the date

  /** One to `limit` digits for a number in a range. */
  predicate Numeral(d: string, limit: nat, low: nat, high: nat) {
    1 <= |d| <= limit && AllDigits(d) && low <= Value(d) <= high
  }

  /** The parts of a date and a time of day to the minute. */
  datatype DateParts = DateParts(year: string, month: string, day: string, gap: string, hour: string, minute: string)
  {
    /** yyyy-mm-dd hh:mm: in this order, with any space between day and hour, and none at all after two digits. */
    predicate Valid() {
      && Numeral(year, 4, 0, 9999) && Numeral(month, 2, 1, 12) && Numeral(day, 2, 1, 31)
      && AllSpaces(gap) && (gap != [] || |day| == 2)
      && Numeral(hour, 2, 0, 23) && Numeral(minute, 2, 0, 59)
    }

    function Spelling(tail: string): string {
      year + ("-" + (month + ("-" + (day + (gap + (hour + (":" + (minute + (":" + tail)))))))))
    }

    function Date(): Fields
      requires Valid()
    {
      Fields(Value(year), Value(month), Value(day), Value(hour), Value(minute), 0)
    }
  }

  lemma NumberStep(d: string, s: string, limit: nat, low: nat, high: nat, rest: Pattern)
    requires Numeral(d, limit, low, high) && (|d| == limit || s == [] || !IsDigit(s[0]))
    ensures
      ReadPattern(Number(limit, low, high, rest), d + s) ==
      match ReadPattern(rest, s)
      case None => None
      case Some((vs, s1)) => Some(([Value(d)] + vs, s1))
  {
    LeadingDigitsAre(d, s, limit);
  }

  lemma LiteralStep(c: char, s: string, rest: Pattern)
    ensures ReadPattern(Literal(c, rest), [c] + s) == ReadPattern(rest, s)
  {
    assert ([c] + s)[1..] == s;
  }

  lemma SpacesStep(w: string, s: string, rest: Pattern)
    requires AllSpaces(w) && (s == [] || !IsSpace(s[0]))
    ensures ReadPattern(Spaces(rest), w + s) == ReadPattern(rest, s)
  {
    SpacesSkipped(w, s);
  }

  /** The patterns of what is left from the hour, the day and the month on. */
  const TIME: Pattern := Number(2, 0, 23, Literal(':', Number(2, 0, 59, Literal(':', End))))
  const DAY: Pattern := Number(2, 1, 31, Spaces(TIME))
  const MONTH: Pattern := Number(2, 1, 12, Literal('-', DAY))

  lemma SpeltTimeIsRead(hour: string, minute: string, tail: string)
    requires Numeral(hour, 2, 0, 23) && Numeral(minute, 2, 0, 59)
    ensures ReadPattern(TIME, hour + (":" + (minute + (":" + tail)))) == Some(([Value(hour), Value(minute)], tail))
  {
    LiteralStep(':', tail, End);
    NumberStep(minute, ":" + tail, 2, 0, 59, Literal(':', End));
    LiteralStep(':', minute + (":" + tail), Number(2, 0, 59, Literal(':', End)));
    NumberStep(hour, ":" + (minute + (":" + tail)), 2, 0, 23, TIME.rest);
    assert [Value(hour)] + ([Value(minute)] + []) == [Value(hour), Value(minute)];
  }

  lemma SpeltDayIsRead(day: string, gap: string, time: string, vs: seq<nat>, tail: string)
    requires Numeral(day, 2, 1, 31) && AllSpaces(gap) && (gap != [] || |day| == 2)
    requires time != [] && IsDigit(time[0]) && ReadPattern(TIME, time) == Some((vs, tail))
    ensures ReadPattern(DAY, day + (gap + time)) == Some(([Value(day)] + vs, tail))
  {
    SpacesStep(gap, time, TIME);
    assert gap != [] ==> IsSpace((gap + time)[0]);
    NumberStep(day, gap + time, 2, 1, 31, Spaces(TIME));
  }

  lemma SpeltMonthIsRead(month: string, day: string, vs: seq<nat>, tail: string)
    requires Numeral(month, 2, 1, 12) && ReadPattern(DAY, day) == Some((vs, tail))
    ensures ReadPattern(MONTH, month + ("-" + day)) == Some(([Value(month)] + vs, tail))
  {
    LiteralStep('-', day, DAY);
    NumberStep(month, "-" + day, 2, 1, 12, Literal('-', DAY));
  }

  lemma SpeltYearIsRead(year: string, month: string, vs: seq<nat>, tail: string)
    requires Numeral(year, 4, 0, 9999) && ReadPattern(MONTH, month) == Some((vs, tail))
    ensures ReadPattern(DATE, year + ("-" + month)) == Some(([Value(year)] + vs, tail))
  {
    assert DATE == Number(4, 0, 9999, Literal('-', MONTH));
    LiteralStep('-', month, MONTH);
    NumberStep(year, "-" + month, 4, 0, 9999, Literal('-', MONTH));
  }

  lemma FieldsInOrder(text: string, y: nat, m: nat, d: nat, h: nat, min: nat, tail: string)
    requires ReadPattern(DATE, text) == Some(([y] + ([m] + ([d] + [h, min])), tail))
    ensures ReadDate(text) == Some((Fields(y, m, d, h, min, 0), tail))
  {
    assert [y] + ([m] + ([d] + [h, min])) == [y, m, d, h, min];
  }

  lemma SpeltDateIsRead(p: DateParts, tail: string)
    requires p.Valid()
    ensures ReadDate(p.Spelling(tail)) == Some((p.Date(), tail))
  {
    var vs := [Value(p.hour), Value(p.minute)];
    SpeltTimeIsRead(p.hour, p.minute, tail);
    var time := p.hour + (":" + (p.minute + (":" + tail)));
    SpeltDayIsRead(p.day, p.gap, time, vs, tail);
    var day := p.day + (p.gap + time);
    SpeltMonthIsRead(p.month, day, [Value(p.day)] + vs, tail);
    SpeltYearIsRead(p.year, p.month + ("-" + day), [Value(p.month)] + ([Value(p.day)] + vs), tail);
    FieldsInOrder(p.Spelling(tail), Value(p.year), Value(p.month), Value(p.day), Value(p.hour), Value(p.minute), tail);
  }

  // -------------------------------------------------------- taking it apart

  lemma NumberTaken(s: string, limit: nat, low: nat, high: nat, rest: Pattern) returns (d: string, s1: string)
    requires ReadPattern(Number(limit, low, high, rest), s).Some?
    ensures s == d + s1 && Numeral(d, limit, low, high) && (|d| == limit || s1 == [] || !IsDigit(s1[0]))
    ensures ReadPattern(rest, s1).Some?
  {
    var n := LeadingDigits(s, limit);
    d, s1 := s[..n], s[n..];
  }

  lemma LiteralTaken(s: string, c: char, rest: Pattern) returns (s1: string)
    requires ReadPattern(Literal(c, rest), s).Some?
    ensures s == [c] + s1 && ReadPattern(rest, s1).Some?
  {
    s1 := s[1..];
  }

  lemma ClockTaken(s: string) returns (hour: string, minute: string, tail: string)
    requires ReadPattern(TIME, s).Some?
    ensures s == hour + (":" + (minute + (":" + tail))) && Numeral(hour, 2, 0, 23) && Numeral(minute, 2, 0, 59)
  {
    var s1, s2, s3;
    hour, s1 := NumberTaken(s, 2, 0, 23, TIME.rest);
    s2 := LiteralTaken(s1, ':', TIME.rest.rest);
    minute, s3 := NumberTaken(s2, 2, 0, 59, Literal(':', End));
    tail := LiteralTaken(s3, ':', End);
  }

  lemma DayTaken(s: string) returns (day: string, gap: string, time: string)
    requires ReadPattern(DAY, s).Some?
    ensures s == day + (gap + time) && Numeral(day, 2, 1, 31) && AllSpaces(gap) && (gap != [] || |day| == 2)
    ensures ReadPattern(TIME, time).Some?
  {
    var s1;
    day, s1 := NumberTaken(s, 2, 1, 31, Spaces(TIME));
    gap := SpacesBefore(s1);
    time := SkipSpaces(s1);
  }

  /** Whatever the reader takes for a date is one. */
  lemma DateTaken(s: string) returns (p: DateParts, tail: string)
    requires ReadDate(s).Some?
    ensures p.Valid() && s == p.Spelling(tail)
  {
    assert DATE == Number(4, 0, 9999, Literal('-', MONTH));
    var year, s1 := NumberTaken(s, 4, 0, 9999, Literal('-', MONTH));
    var s2 := LiteralTaken(s1, '-', MONTH);
    var month, s3 := NumberTaken(s2, 2, 1, 12, Literal('-', DAY));
    var s4 := LiteralTaken(s3, '-', DAY);
    var day, gap, time := DayTaken(s4);
    var hour, minute, rest := ClockTaken(time);
    p, tail := DateParts(year, month, day, gap, hour, minute), rest;
  }

  // --------------------------------------------------------- the seconds

  /** Spaces, and digits with or without a point among them, of which there is at least one. */
  datatype SecondsParts = SecondsParts(lead: string, whole: string, point: bool, decimals: string)
  {
    predicate Valid() {
      AllSpaces(lead) && AllDigits(whole) && AllDigits(decimals) && whole + decimals != [] && (!point ==> decimals == [])
    }

    function Spelling(tail: string): string {
      lead + (whole + (if point then "." + (decimals + tail) else tail))
    }
  }

  /** No number goes on here. */
  predicate EndsNumber(tail: string) {
    tail == [] || (!IsDigit(tail[0]) && tail[0] != '.')
  }

  lemma SpeltSecondsAreRead(p: SecondsParts, tail: string)
    requires p.Valid() && EndsNumber(tail)
    ensures ReadSeconds(p.Spelling(tail)) == Some((p.whole + p.decimals, |p.decimals|, tail))
  {
    var after := if p.point then "." + (p.decimals + tail) else tail;
    var s := p.whole + after;
    assert s != [] && !IsSpace(s[0]);
    SpacesSkipped(p.lead, s);
    LeadingDigitsAre(p.whole, after, |s|);
    if p.point {
      assert after[1..] == p.decimals + tail;
      LeadingDigitsAre(p.decimals, tail, |p.decimals + tail|);
      assert s[|p.whole|] == '.' && s[|p.whole| + 1..] == p.decimals + tail;
    } else {
      assert p.whole + p.decimals == p.whole;
    }
  }

  lemma PointTaken(text: string) returns (p: SecondsParts, tail: string)
    requires ReadSeconds(text).Some?
    requires var s := SkipSpaces(text); var i := LeadingDigits(s, |s|); i < |s| && s[i] == '.'
    ensures p.Valid() && text == p.Spelling(tail)
    ensures ReadSeconds(text) == Some((p.whole + p.decimals, |p.decimals|, tail))
  {
    var lead := SpacesBefore(text);
    var s := SkipSpaces(text);
    var i := LeadingDigits(s, |s|);
    var fraction := s[i + 1..];
    var j := LeadingDigits(fraction, |fraction|);
    p, tail := SecondsParts(lead, s[..i], true, fraction[..j]), fraction[j..];
    CutAtPoint(s, i);
    Halves(fraction, j);
  }

  lemma CutAtPoint(s: string, i: nat)
    requires i < |s| && s[i] == '.'
    ensures s == s[..i] + ("." + s[i + 1..])
  {
  }

  lemma NoPointTaken(text: string) returns (p: SecondsParts, tail: string)
    requires ReadSeconds(text).Some?
    requires var s := SkipSpaces(text); var i := LeadingDigits(s, |s|); i == |s| || s[i] != '.'
    ensures p.Valid() && text == p.Spelling(tail)
    ensures ReadSeconds(text) == Some((p.whole + p.decimals, |p.decimals|, tail))
  {
    var lead := SpacesBefore(text);
    var s := SkipSpaces(text);
    var i := LeadingDigits(s, |s|);
    p, tail := SecondsParts(lead, s[..i], false, []), s[i..];
    Halves(s, i);
  }

  /** Whatever the reader takes for the seconds are such. */
  lemma SecondsTaken(text: string) returns (p: SecondsParts, tail: string)
    requires ReadSeconds(text).Some?
    ensures p.Valid() && text == p.Spelling(tail)
    ensures ReadSeconds(text) == Some((p.whole + p.decimals, |p.decimals|, tail))
  {
    var s := SkipSpaces(text);
    var i := LeadingDigits(s, |s|);
    if i < |s| && s[i] == '.' {
      p, tail := PointTaken(text);
    } else {
      p, tail := NoPointTaken(text);
    }
  }

  // ----------------------------------------------------------- the offset

  /** A sign and hhmm. */
  predicate IsOffset(sign: char, digits: string) {
    (sign == '+' || sign == '-') && |digits| == 4 && AllDigits(digits)
  }

  /** The minutes that are added to get UTC: a zone that is ahead of it has the plus sign. */
  function MinutesToUtc(sign: char, digits: string): int
    requires IsOffset(sign, digits)
  {
    var minutes := Value(digits[..2]) * 60 + Value(digits[2..]);
    if sign == '-' then minutes else -minutes
  }

  lemma ValueOfTwo(s: string)
    requires |s| == 2 && AllDigits(s)
    ensures Value(s) == DigitValue(s[0]) * 10 + DigitValue(s[1])
  {
    assert s[..1][..0] == [] && Value(s[..1]) == DigitValue(s[0]);
  }

  lemma OffsetMinutes(sign: char, digits: string)
    requires IsOffset(sign, digits)
    ensures MinutesToUtc(sign, digits) == if sign == '-' then OffsetSize(digits) else -OffsetSize(digits)
  {
    ValueOfTwo(digits[..2]);
    ValueOfTwo(digits[2..]);
  }

  lemma SpeltOffsetIsRead(sign: char, digits: string, rest: string)
    requires IsOffset(sign, digits)
    ensures Offset([' ', sign] + (digits + rest)) == Some(MinutesToUtc(sign, digits))
  {
    var s := [' ', sign] + (digits + rest);
    assert s[2..6] == digits;
    OffsetMinutes(sign, digits);
  }

  lemma OffsetTaken(s: string) returns (sign: char, digits: string, rest: string)
    requires Offset(s).Some?
    ensures IsOffset(sign, digits) && s == [' ', sign] + (digits + rest)
    ensures Offset(s) == Some(MinutesToUtc(sign, digits))
  {
    sign, digits, rest := s[1], s[2..6], s[6..];
    assert s == [' ', sign] + (digits + rest);
    OffsetMinutes(sign, digits);
  }

  // ------------------------------------------------------- the whole text

  datatype TimeParts =
    TimeParts(date: DateParts, seconds: SecondsParts, sign: char, offset: string, rest: string)
  {
    predicate Valid() {
      date.Valid() && seconds.Valid() && IsOffset(sign, offset)
    }

    function Spelling(): string {
      date.Spelling(seconds.Spelling([' ', sign] + (offset + rest)))
    }

    /** What stands in the text, as a row of digits with some behind the point, and otherwise as numbers. */
    function Meaning(): Stamp
      requires Valid()
    {
      Stamp(date.Date(), seconds.whole + seconds.decimals, |seconds.decimals|, MinutesToUtc(sign, offset))
    }
  }

  lemma SpeltTimePointIsRead(p: TimeParts)
    requires p.Valid()
    ensures ReadStamp(p.Spelling()) == Some(p.Meaning())
  {
    var offset := [' ', p.sign] + (p.offset + p.rest);
    assert offset[0] == ' ';
    SpeltDateIsRead(p.date, p.seconds.Spelling(offset));
    SpeltSecondsAreRead(p.seconds, offset);
    SpeltOffsetIsRead(p.sign, p.offset, p.rest);
  }

  lemma TimeTaken(text: string) returns (p: TimeParts)
    requires ReadStamp(text).Some?
    ensures p.Valid() && p.Spelling() == text && ReadStamp(text) == Some(p.Meaning())
  {
    var date, s1 := DateTaken(text);
    SpeltDateIsRead(date, s1);
    var seconds, s2 := SecondsTaken(s1);
    var sign, offset, rest := OffsetTaken(s2);
    p := TimeParts(date, seconds, sign, offset, rest);
  }

  /** A text is accepted exactly if it is a date, seconds and an offset in this form, and for what stands in it. */
  lemma ReadStampIff(text: string, stamp: Stamp)
    ensures ReadStamp(text) == Some(stamp) <==>
            exists p: TimeParts :: p.Valid() && p.Spelling() == text && p.Meaning() == stamp
  {
    if ReadStamp(text) == Some(stamp) {
      var p := TimeTaken(text);
    }
    forall p: TimeParts | p.Valid() && p.Spelling() == text
      ensures ReadStamp(text) == Some(p.Meaning())
    {
      SpeltTimePointIsRead(p);
    }
  }

  /** The microseconds of the text are the nearest to its seconds, the even one of two, and the time is that of its
      calendar fields by the expression of POSIX, brought to UTC. */
  ghost predicate Denotes(p: TimeParts, t: int)
    requires p.Valid()
  {
    exists micros: nat :: DenotesWith(p.Meaning(), t, micros)
  }

  ghost predicate DenotesWith(stamp: Stamp, t: int, micros: nat)
    requires AllDigits(stamp.digits)
  {
    && NearestEven(Value(stamp.digits) * MICROS, Pow10(stamp.decimals), micros)
    && t == SecondsSinceEpoch(stamp.date) * MICROS + stamp.minutes * 60 * MICROS + micros
  }

  lemma InstantIff(stamp: Stamp, t: int)
    requires AllDigits(stamp.digits) && 1 <= stamp.date.month <= 12
    ensures t == Instant(stamp.date, stamp.minutes, MicrosOf(stamp.digits, stamp.decimals)) <==>
            exists micros: nat :: DenotesWith(stamp, t, micros)
  {
    TimeGmIsPosix(stamp.date);
    RoundIff(Value(stamp.digits) * MICROS, Pow10(stamp.decimals), MicrosOf(stamp.digits, stamp.decimals));
    assert t == Instant(stamp.date, stamp.minutes, MicrosOf(stamp.digits, stamp.decimals)) ==>
        DenotesWith(stamp, t, MicrosOf(stamp.digits, stamp.decimals));
    forall micros: nat | DenotesWith(stamp, t, micros)
      ensures micros == MicrosOf(stamp.digits, stamp.decimals)
    {
      RoundIff(Value(stamp.digits) * MICROS, Pow10(stamp.decimals), micros);
    }
  }

  /** A time is read from a text exactly if the text is well formed and denotes it. */
  lemma ReadTimeIff(text: string, t: int)
    ensures ReadTime(text) == Some(t) <==> exists p: TimeParts :: p.Valid() && p.Spelling() == text && Denotes(p, t)
  {
    if ReadStamp(text).Some? {
      var p := TimeTaken(text);
      InstantIff(p.Meaning(), t);
    }
    forall p: TimeParts | p.Valid() && p.Spelling() == text
      ensures ReadStamp(text) == Some(p.Meaning()) && (ReadTime(text) == Some(t) <==> Denotes(p, t))
    {
      SpeltTimePointIsRead(p);
      InstantIff(p.Meaning(), t);
    }
  }

  // --------------------------------------------------------- what is written

  /** The first seventeen characters of a text are this date and time of day, every number in its place. */
  predicate DateStands(s: string, f: Fields) {
    && |s| >= 17 && AllDigits(s[..4]) && AllDigits(s[5..7]) && AllDigits(s[8..10])
    && AllDigits(s[11..13]) && AllDigits(s[14..16])
    && s[4] == '-' && s[7] == '-' && s[10] == ' ' && s[13] == ':' && s[16] == ':'
    && Value(s[..4]) == f.year && Value(s[5..7]) == f.month && Value(s[8..10]) == f.day
    && Value(s[11..13]) == f.hour && Value(s[14..16]) == f.minute
  }

  lemma ClockIsJoined(h: nat, min: nat, tail: string)
    requires h < 100 && min < 100
    ensures WritePattern(TIME, [h, min], tail) == Padded(h, 2) + ([':'] + (Padded(min, 2) + ([':'] + tail)))
  {
    assert Pow10(2) == 100 && [h, min][1..] == [min];
  }

  lemma DayIsJoined(m: nat, d: nat, h: nat, min: nat, tail: string)
    requires m < 100 && d < 100
    ensures WritePattern(MONTH, [m, d, h, min], tail) ==
            Padded(m, 2) + (['-'] + (Padded(d, 2) + ([' '] + WritePattern(TIME, [h, min], tail))))
  {
    assert Pow10(2) == 100 && [m, d, h, min][1..] == [d, h, min] && [d, h, min][1..] == [h, min];
  }

  lemma DateIsJoined(f: Fields, tail: string)
    requires InRanges(f)
    ensures DateText(f, tail) ==
            Padded(f.year, 4) + (['-'] + WritePattern(MONTH, [f.month, f.day, f.hour, f.minute], tail))
  {
    assert Pow10(4) == 10000;
    assert [f.year, f.month, f.day, f.hour, f.minute][1..] == [f.month, f.day, f.hour, f.minute];
    assert DATE == Number(4, 0, 9999, Literal('-', MONTH));
  }

  /** Two digits and a character, and then the rest. */
  lemma TwoStand(n: nat, c: char, rest: string)
    requires n < 100
    ensures
      var s := Padded(n, 2) + ([c] + rest);
      |s| == 3 + |rest| && AllDigits(s[..2]) && Value(s[..2]) == n && s[2] == c && s[3..] == rest
  {
    assert Pow10(2) == 100;
    PaddedDenotes(n, 2);
    var s := Padded(n, 2) + ([c] + rest);
    assert s[..2] == Padded(n, 2);
  }

  /** In every text that is written the date stands in its place, and the seconds follow. */
  lemma DateInPlace(f: Fields, tail: string)
    requires InRanges(f)
    ensures DateStands(DateText(f, tail), f) && DateText(f, tail)[17..] == tail
  {
    var s := DateText(f, tail);
    var clock := WritePattern(TIME, [f.hour, f.minute], tail);
    var day := [' '] + clock;
    var months := WritePattern(MONTH, [f.month, f.day, f.hour, f.minute], tail);
    DateIsJoined(f, tail);
    DayIsJoined(f.month, f.day, f.hour, f.minute, tail);
    ClockIsJoined(f.hour, f.minute, tail);
    assert Pow10(4) == 10000;
    PaddedDenotes(f.year, 4);
    assert s[..4] == Padded(f.year, 4) && s[4] == '-' && s[5..] == months;
    TwoStand(f.month, '-', Padded(f.day, 2) + day);
    TwoStand(f.day, ' ', clock);
    TwoStand(f.hour, ':', Padded(f.minute, 2) + ([':'] + tail));
    TwoStand(f.minute, ':', tail);
    Places(s, months);
  }

  lemma Places(s: string, months: string)
    requires |s| >= 17 && s[5..] == months
    ensures s[5..7] == months[..2] && s[7] == months[2] && s[8..] == months[3..]
    ensures s[8..10] == months[3..][..2] && s[10] == months[3..][2] && s[11..] == months[3..][3..]
    ensures s[11..13] == s[11..][..2] && s[13] == s[11..][2] && s[14..] == s[11..][3..]
    ensures s[14..16] == s[14..][..2] && s[16] == s[14..][2] && s[17..] == s[14..][3..]
  {
  }

  /** Two digits, a point, six digits, a space, a sign and four digits: these microseconds of the minute and zone. */
  predicate SecondsStand(s: string, micros: nat, z: Zone) {
    && |s| == 15 && AllDigits(s[..2]) && s[2] == '.' && AllDigits(s[3..9])
    && Value(s[..2]) == micros / MICROS && Value(s[3..9]) == micros % MICROS
    && s[9] == ' ' && IsOffset(s[10], s[11..15]) && MinutesToUtc(s[10], s[11..15]) == z.ToUtc()
  }

  lemma OffsetInPlace(z: Zone)
    requires z.Valid()
    ensures
      var s := OffsetText(z);
      |s| == 6 && s[0] == ' ' && IsOffset(s[1], s[2..6]) && MinutesToUtc(s[1], s[2..6]) == z.ToUtc()
  {
    var s := OffsetText(z);
    TwoDigitValue(z.hours);
    TwoDigitValue(z.minutes);
    assert s[2..6] == Padded(z.hours, 2) + Padded(z.minutes, 2);
    OffsetMinutes(s[1], s[2..6]);
  }

  lemma SecondsInPlace(nanos: nat, z: Zone)
    requires |SecondsField(nanos)| == 2 && z.Valid()
    ensures SecondsStand(SecondsField(nanos) + ("." + (DecimalsText(RoundQuotient(nanos, 1000)) + OffsetText(z))),
                         RoundQuotient(nanos, 1000), z)
  {
    var micros := RoundQuotient(nanos, 1000);
    var a, b, offset := SecondsField(nanos), DecimalsText(micros), OffsetText(z);
    var s := a + ("." + (b + offset));
    WholeSecondsDenote(micros / MICROS, if nanos < 10 * NANOS then "0" else "");
    MillionIsPow10();
    PaddedDenotes(micros % MICROS, 6);
    OffsetInPlace(z);
    assert s[..2] == a && s[3..9] == b && s[9..] == offset && s[11..15] == offset[2..6];
  }

  /** Where the field of the seconds is proper, a written time has thirty-two characters, which are the date and time
      of day of the zone, the microseconds of the minute, and the zone, each number in its place. */
  lemma WrittenTimeStands(t: nat, z: Zone)
    requires z.Valid() && Printable(LocalSeconds(t, z))
    requires var nanos := NanosOfMinute(GmTime(LocalSeconds(t, z)), t);
             !(9_999_999_500 <= nanos < 10 * NANOS) && nanos < 59_999_999_500
    ensures
      var f, s := GmTime(LocalSeconds(t, z)), WriteTime(t, z);
      && RealDate(f) && SecondsSinceEpoch(f) == LocalSeconds(t, z)
      && DateStands(s, f) && SecondsStand(s[17..], RoundQuotient(NanosOfMinute(f, t), 1000), z)
  {
    var f := GmTime(LocalSeconds(t, z));
    var nanos := NanosOfMinute(f, t);
    GmTimeIff(LocalSeconds(t, z), f);
    TimeGmInvertsGmTime(LocalSeconds(t, z));
    SecondsFieldIsProperIff(nanos);
    SecondsInPlace(nanos, z);
    DateInPlace(f, SecondsField(nanos) + ("." + (DecimalsText(RoundQuotient(nanos, 1000)) + OffsetText(z))));
  }

  /** UTC is written with a plus sign. */
  lemma UtcIsPlusZero()
    ensures OffsetText(UTC) == " +0000"
  {
    TwoDigitValue(0);
    assert Padded(0, 2) == "00";
  }
}
