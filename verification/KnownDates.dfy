/** The Gregorian calendar against an independent count of its days, and what the keys of days look like. */
module KnownDates {
  import opened Results
  import JsText
  import opened CivilDates
  import opened Gregorian
  import DayKeys

  /** Thirty days have April, June, September and November, and February has 28 or 29. */
  lemma MonthHasItsLength(year: int, month: int)
    requires 0 <= month < 12
    ensures GREGORIAN.days(12 * year + month) ==
            if month == 1 then (if year % 4 == 0 && (year % 100 != 0 || year % 400 == 0) then 29 else 28)
            else if month in {3, 5, 8, 10} then 30
            else 31
  {
    Split(year, month);
  }

  /** Days from the first of March of year 0 to a date, counted in years that begin in March, so that the leap
    * day comes last. */
  function DaysFromMarch(d: Date): int {
    var year := if d.month < 2 then d.year - 1 else d.year;
    var month := if d.month < 2 then d.month + 10 else d.month - 2;
    365 * year + year / 4 - year / 100 + year / 400 + (153 * month + 2) / 5 + d.day - 1
  }

  lemma YearsFromMarch(year: int)
    ensures DayFromYear(year) == 365 * (year - 1) + (year - 1) / 4 - (year - 1) / 100 + (year - 1) / 400 - 719162
  {
    assert (year - 1969) / 4 == (year - 1) / 4 - 492;
    assert (year - 1901) / 100 == (year - 1) / 100 - 19;
    assert (year - 1601) / 400 == (year - 1) / 400 - 4;
  }

  lemma MonthsBefore(leap: bool, m: nat)
    requires m < 12
    ensures DaysBefore(leap, m) ==
            if m == 0 then 0 else if m == 1 then 31
            else (153 * (m - 2) + 2) / 5 + 59 + if leap then 1 else 0
  {
    var more := if leap then 1 else 0;
    assert DaysBefore(leap, 0) == 0;
    assert DaysBefore(leap, 1) == 31;
    assert DaysBefore(leap, 2) == 59 + more;
    assert DaysBefore(leap, 3) == 90 + more;
    assert DaysBefore(leap, 4) == 120 + more;
    assert DaysBefore(leap, 5) == 151 + more;
    assert DaysBefore(leap, 6) == 181 + more;
    assert DaysBefore(leap, 7) == 212 + more;
    assert DaysBefore(leap, 8) == 243 + more;
    assert DaysBefore(leap, 9) == 273 + more;
    assert DaysBefore(leap, 10) == 304 + more;
  }

  lemma NextQuotients(year: int)
    ensures year / 4 == (year - 1) / 4 + if year % 4 == 0 then 1 else 0
    ensures year / 100 == (year - 1) / 100 + if year % 100 == 0 then 1 else 0
    ensures year / 400 == (year - 1) / 400 + if year % 400 == 0 then 1 else 0
  {}

  lemma AfterLeapDay(year: int)
    ensures DayFromYear(year) + 59 + (if IsLeap(year) then 1 else 0) ==
            365 * year + year / 4 - year / 100 + year / 400 - 719468
  {
    YearsFromMarch(year);
    NextQuotients(year);
    Multiples(year);
  }

  /** Day numbers agree with the count from March, 719468 days of which lie before the first of January 1970. */
  lemma DayNumberCountsFromMarch(d: Date)
    requires 0 <= d.month <= 11
    ensures DayNumber(GREGORIAN, d) == DaysFromMarch(d) - 719468
  {
    Split(d.year, d.month);
    assert DayNumber(GREGORIAN, d) == DayFromYear(d.year) + DaysBefore(IsLeap(d.year), d.month) + d.day - 1;
    MonthsBefore(IsLeap(d.year), d.month);
    if d.month < 2 {
      YearsFromMarch(d.year);
    } else {
      AfterLeapDay(d.year);
    }
  }

  /** The leap day of 2024. */
  lemma KnownDay(d: Date)
    requires d == Date(2024, 1, 29)
    ensures DayNumber(GREGORIAN, d) == 19782
  {
    DayNumberCountsFromMarch(d);
  }

  // ---------- Keys ----------

  predicate IsTwoDigits(s: string, n: nat) {
    |s| == 2 && s[0] as int == '0' as int + n / 10 && s[1] as int == '0' as int + n % 10
  }

  lemma PadsToTwo(n: nat)
    requires n < 100
    ensures IsTwoDigits(DayKeys.Pad2(n), n)
  {
    if n >= 10 {
      assert |JsText.Decimal(n / 10)| == 1;
    }
  }

  /** A key is the year, the month from 1 on and the day, both with two digits, joined by dashes. */
  lemma KeysHaveWidth(c: Calendar, d: Date) returns (month: string, day: string)
    requires IsCalendar(c) && IsDate(c, d) && d.year >= 0
    ensures DayKeys.Ymd(d) == JsText.Decimal(d.year) + "-" + month + "-" + day
    ensures IsTwoDigits(month, d.month + 1) && IsTwoDigits(day, d.day)
  {
    month, day := DayKeys.Pad2(d.month + 1), DayKeys.Pad2(d.day);
    NextMonth(c, MonthOf(d));
    PadsToTwo(d.month + 1);
    PadsToTwo(d.day);
  }
}
