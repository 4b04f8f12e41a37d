/** gmtime_r and timegm: the Gregorian calendar and the seconds since the epoch of POSIX (section 4.16 of the
    Base Definitions, "Seconds Since the Epoch"). */
module Calendar {

  /** A broken-down time with the month from 1 and the full year. */
  datatype Fields = Fields(year: nat, month: nat, day: nat, hour: nat, minute: nat, second: nat)

  const DAY: nat := 86400

  predicate IsLeap(y: nat) {
    (y % 4 == 0 && y % 100 != 0) || y % 400 == 0
  }

  function DaysInYear(y: nat): nat {
    if IsLeap(y) then 366 else 365
  }

  function DaysInMonth(y: nat, m: nat): nat {
    if m == 2 then (if IsLeap(y) then 29 else 28)
    else if m == 4 || m == 6 || m == 9 || m == 11 then 30
    else 31
  }

  function DaysBeforeMonth(y: nat, m: nat): nat {
    if m <= 1 then 0 else DaysBeforeMonth(y, m - 1) + DaysInMonth(y, m - 1)
  }

  /** The days from the epoch to the first of January, by the formula of POSIX. */
  function DaysBeforeYear(y: nat): int {
    365 * (y - 1970) + (y - 1969) / 4 - (y - 1901) / 100 + (y - 1601) / 400
  }

  predicate ValidFields(f: Fields) {
    && f.year >= 1970
    && 1 <= f.month <= 12
    && 1 <= f.day <= DaysInMonth(f.year, f.month)
    && f.hour < 24 && f.minute < 60 && f.second < 60
  }

  /** timegm. A day past the end of its month counts on into the next. */
  function TimeGm(f: Fields): int {
    (DaysBeforeYear(f.year) + DaysBeforeMonth(f.year, f.month) + f.day - 1) * DAY
    + f.hour * 3600 + f.minute * 60 + f.second
  }

  /** The year and the day of the year, counted on from the first day of year y. */
  function YearAndDay(y: nat, days: nat): (nat, nat)
    decreases days
  {
    if days < DaysInYear(y) then (y, days) else YearAndDay(y + 1, days - DaysInYear(y))
  }

  /** The month and the day of the month, counted on from the first day of month m. */
  function MonthAndDay(y: nat, m: nat, days: nat): (nat, nat)
    decreases days
  {
    if days < DaysInMonth(y, m) then (m, days + 1) else MonthAndDay(y, m + 1, days - DaysInMonth(y, m))
  }

  /** gmtime_r. */
  function GmTime(t: nat): Fields {
    var (year, yday) := YearAndDay(1970, t / DAY);
    var (month, day) := MonthAndDay(year, 1, yday);
    var s := t % DAY;
    Fields(year, month, day, s / 3600, s / 60 % 60, s % 60)
  }

  /** The formula of POSIX counts every leap day. */
  lemma YearHasItsDays(y: nat)
    requires y >= 1970
    ensures DaysBeforeYear(y + 1) == DaysBeforeYear(y) + DaysInYear(y)
  {
    FourthYears(y);
    HundredthYears(y);
    FourHundredthYears(y);
    LeapByDivisors(y);
  }

  lemma FourthYears(y: nat)
    requires y >= 1970
    ensures (y + 1 - 1969) / 4 == (y - 1969) / 4 + if y % 4 == 0 then 1 else 0
  {
  }

  lemma HundredthYears(y: nat)
    requires y >= 1970
    ensures (y + 1 - 1901) / 100 == (y - 1901) / 100 + if y % 100 == 0 then 1 else 0
  {
  }

  lemma FourHundredthYears(y: nat)
    requires y >= 1970
    ensures (y + 1 - 1601) / 400 == (y - 1601) / 400 + if y % 400 == 0 then 1 else 0
  {
  }

  lemma LeapByDivisors(y: nat)
    ensures DaysInYear(y) == 365 + (if y % 4 == 0 then 1 else 0) - (if y % 100 == 0 then 1 else 0)
                             + (if y % 400 == 0 then 1 else 0)
  {
    assert y % 100 == 0 ==> y % 4 == 0;
    assert y % 400 == 0 ==> y % 100 == 0;
  }

  lemma {:induction false} YearAndDayInvert(y: nat, days: nat)
    requires y >= 1970
    ensures
      var (year, yday) := YearAndDay(y, days);
      year >= y && yday < DaysInYear(year) && DaysBeforeYear(year) + yday == DaysBeforeYear(y) + days
    decreases days
  {
    if days >= DaysInYear(y) {
      YearHasItsDays(y);
      YearAndDayInvert(y + 1, days - DaysInYear(y));
    }
  }

  lemma MonthsOfYear(y: nat)
    ensures DaysBeforeMonth(y, 13) == DaysInYear(y)
  {
    assert DaysBeforeMonth(y, 2) == 31;
    assert DaysBeforeMonth(y, 3) == 31 + DaysInMonth(y, 2);
    assert DaysBeforeMonth(y, 5) == DaysBeforeMonth(y, 3) + 61;
    assert DaysBeforeMonth(y, 7) == DaysBeforeMonth(y, 5) + 61;
    assert DaysBeforeMonth(y, 9) == DaysBeforeMonth(y, 7) + 62;
    assert DaysBeforeMonth(y, 11) == DaysBeforeMonth(y, 9) + 61;
    assert DaysBeforeMonth(y, 13) == DaysBeforeMonth(y, 11) + 61;
  }

  lemma {:induction false} MonthAndDayInvert(y: nat, m: nat, days: nat)
    requires 1 <= m <= 13 && DaysBeforeMonth(y, m) + days < DaysInYear(y)
    ensures
      var (month, day) := MonthAndDay(y, m, days);
      && m <= month <= 12 && 1 <= day <= DaysInMonth(y, month)
      && DaysBeforeMonth(y, month) + day - 1 == DaysBeforeMonth(y, m) + days
    decreases days
  {
    MonthsOfYear(y);
    if days >= DaysInMonth(y, m) {
      MonthAndDayInvert(y, m + 1, days - DaysInMonth(y, m));
    }
  }

  /** The split of a time gives the fields of a real date, and timegm puts them together again. */
  lemma TimeGmInvertsGmTime(t: nat)
    ensures ValidFields(GmTime(t)) && TimeGm(GmTime(t)) == t
  {
    YearAndDayInvert(1970, t / DAY);
    var (year, yday) := YearAndDay(1970, t / DAY);
    MonthAndDayInvert(year, 1, yday);
    var s := t % DAY;
    assert s == (s / 3600) * 3600 + (s / 60 % 60) * 60 + s % 60;
  }

  // ------------------------------------------------------- the other way

  lemma {:induction false} YearAndDayOf(y: nat, year: nat, yday: nat)
    requires 1970 <= y <= year && yday < DaysInYear(year)
    ensures DaysBeforeYear(y) <= DaysBeforeYear(year)
    ensures YearAndDay(y, DaysBeforeYear(year) - DaysBeforeYear(y) + yday) == (year, yday)
    decreases year - y
  {
    if y < year {
      YearHasItsDays(y);
      YearAndDayOf(y + 1, year, yday);
    }
  }

  lemma {:induction false} MonthAndDayOf(y: nat, m: nat, month: nat, day: nat)
    requires 1 <= m <= month <= 12 && 1 <= day <= DaysInMonth(y, month)
    ensures DaysBeforeMonth(y, m) <= DaysBeforeMonth(y, month)
    ensures MonthAndDay(y, m, DaysBeforeMonth(y, month) - DaysBeforeMonth(y, m) + day - 1) == (month, day)
    decreases month - m
  {
    if m < month {
      MonthAndDayOf(y, m + 1, month, day);
    }
  }

  lemma {:induction false} MonthWithinYear(y: nat, m: nat)
    requires 1 <= m <= 12
    ensures DaysBeforeMonth(y, m) + DaysInMonth(y, m) <= DaysInYear(y)
    decreases 12 - m
  {
    if m < 12 {
      MonthWithinYear(y, m + 1);
    } else {
      MonthsOfYear(y);
    }
  }

  /** Every real date from 1970 on is the split of its time. */
  lemma GmTimeInvertsTimeGm(f: Fields)
    requires ValidFields(f)
    ensures TimeGm(f) >= 0 && GmTime(TimeGm(f)) == f
  {
    var yday := DaysBeforeMonth(f.year, f.month) + f.day - 1;
    MonthWithinYear(f.year, f.month);
    YearAndDayOf(1970, f.year, yday);
    MonthAndDayOf(f.year, 1, f.month, f.day);
    SplitDay(DaysBeforeYear(f.year) + yday, f);
  }

  lemma SplitDay(days: nat, f: Fields)
    requires f.hour < 24 && f.minute < 60 && f.second < 60
    ensures
      var t := days * DAY + f.hour * 3600 + f.minute * 60 + f.second;
      && t / DAY == days
      && t % DAY / 3600 == f.hour && t % DAY / 60 % 60 == f.minute && t % DAY % 60 == f.second
  {
  }

  // ------------------------------------------------ by formulas, not by tables

  /** The days of the year before the first of a month, where month 13 is the next January: from March on the lengths
      31, 30, 31, 30, 31 repeat, and five months have 153 days. */
  function MonthStart(y: nat, m: nat): int {
    if m == 1 then 0
    else if m == 2 then 31
    else 59 + (if IsLeap(y) then 1 else 0) + (153 * (m - 3) + 2) / 5
  }

  lemma {:induction false} MonthStarts(y: nat, m: nat)
    requires 1 <= m <= 13
    ensures DaysBeforeMonth(y, m) == MonthStart(y, m)
  {
    if m > 1 {
      MonthStarts(y, m - 1);
    }
  }

  /** A date that there is, from 1970 on, and a time of day. */
  predicate RealDate(f: Fields) {
    && f.year >= 1970 && 1 <= f.month <= 12
    && 1 <= f.day <= MonthStart(f.year, f.month + 1) - MonthStart(f.year, f.month)
    && f.hour < 24 && f.minute < 60 && f.second < 60
  }

  /** The seconds since the epoch, by the expression of POSIX. */
  function SecondsSinceEpoch(f: Fields): int {
    var year, yday := f.year - 1900, MonthStart(f.year, f.month) + f.day - 1;
    f.second + f.minute * 60 + f.hour * 3600 + yday * 86400 + (year - 70) * 31536000
    + ((year - 69) / 4) * 86400 - ((year - 1) / 100) * 86400 + ((year + 299) / 400) * 86400
  }

  lemma TimeGmIsPosix(f: Fields)
    requires 1 <= f.month <= 12
    ensures TimeGm(f) == SecondsSinceEpoch(f)
  {
    MonthStarts(f.year, f.month);
  }

  lemma MonthLength(y: nat, m: nat)
    requires 1 <= m <= 12
    ensures DaysInMonth(y, m) == MonthStart(y, m + 1) - MonthStart(y, m)
  {
    MonthStarts(y, m);
    MonthStarts(y, m + 1);
  }

  /** A time is split into these fields exactly if they are a real date and time of day and POSIX gives them this
      time. */
  lemma GmTimeIff(t: nat, f: Fields)
    ensures GmTime(t) == f <==> RealDate(f) && SecondsSinceEpoch(f) == t
  {
    TimeGmInvertsGmTime(t);
    if 1 <= f.month <= 12 {
      MonthLength(f.year, f.month);
      TimeGmIsPosix(f);
      if RealDate(f) {
        GmTimeInvertsTimeGm(f);
      }
    }
  }

  /** Midnight of the first of July 2016. */
  lemma FirstOfJuly()
    ensures GmTime(1_467_331_200) == Fields(2016, 7, 1, 0, 0, 0)
  {
    GmTimeIff(1_467_331_200, Fields(2016, 7, 1, 0, 0, 0));
  }
}
