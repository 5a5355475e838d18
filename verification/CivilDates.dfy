/** Local civil dates, and the overflow rule of the date setters (MakeDay, section 21.4.1 of ECMA-262).
  * The arithmetic is done for any table of months; the Gregorian calendar gives one. */
module CivilDates {
  /** The month counts from 0. */
  datatype Date = Date(year: int, month: int, day: int)

  /** Months are counted from January of year 0, in either direction: the day number of the first of each,
    * the length of each, and the leap years. */
  datatype Calendar = Calendar(first: int -> int, days: int -> int, leap: int -> bool)

  predicate Follows(c: Calendar, month: int) {
    c.first(month + 1) == c.first(month) + c.days(month) && 28 <= c.days(month) <= 31
  }

  function Length(month: int, leap: bool): int {
    if month == 1 then (if leap then 29 else 28)
    else if month == 3 || month == 5 || month == 8 || month == 10 then 30
    else 31
  }

  predicate HasLength(c: Calendar, year: int, month: int) {
    c.days(12 * year + month) == Length(month, c.leap(year))
  }

  /** Months follow each other without a gap and have the usual lengths. */
  ghost predicate IsCalendar(c: Calendar) {
    && (forall month :: Follows(c, month))
    && (forall year, month | 0 <= month < 12 :: HasLength(c, year, month))
  }

  function MonthOf(d: Date): int {
    12 * d.year + d.month
  }

  predicate IsDate(c: Calendar, d: Date) {
    0 <= d.month <= 11 && 1 <= d.day <= c.days(MonthOf(d))
  }

  /** A month that is out of range carries into the year, a day that is out of range into the months. */
  function MakeDay(c: Calendar, year: int, month: int, day: int): int {
    c.first(12 * year + month) + day - 1
  }

  function DayNumber(c: Calendar, d: Date): int {
    MakeDay(c, d.year, d.month, d.day)
  }

  lemma NextMonth(c: Calendar, month: int)
    requires IsCalendar(c)
    ensures c.first(month + 1) == c.first(month) + c.days(month) && 28 <= c.days(month) <= 31
  {
    assert Follows(c, month);
  }

  lemma MonthLength(c: Calendar, year: int, month: int)
    requires IsCalendar(c) && 0 <= month < 12
    ensures c.days(12 * year + month) == Length(month, c.leap(year))
  {
    assert HasLength(c, year, month);
  }

  lemma {:induction false} LaterMonth(c: Calendar, a: int, b: int)
    requires IsCalendar(c) && a < b
    ensures c.first(a) + c.days(a) <= c.first(b)
    decreases b - a
  {
    NextMonth(c, b - 1);
    if a < b - 1 {
      LaterMonth(c, a, b - 1);
    }
  }

  /** Different dates have different day numbers. */
  lemma DayNumberIsInjective(c: Calendar, a: Date, b: Date)
    requires IsCalendar(c) && IsDate(c, a) && IsDate(c, b) && DayNumber(c, a) == DayNumber(c, b)
    ensures a == b
  {
    if MonthOf(a) < MonthOf(b) {
      LaterMonth(c, MonthOf(a), MonthOf(b));
    } else if MonthOf(b) < MonthOf(a) {
      LaterMonth(c, MonthOf(b), MonthOf(a));
    }
  }

  // ---------- The date of a day number ----------

  predicate IsIn(c: Calendar, month: int, n: int) {
    c.first(month) <= n < c.first(month) + c.days(month)
  }

  function DateIn(c: Calendar, month: int, n: int): (d: Date)
    requires IsIn(c, month, n)
    ensures IsDate(c, d) && DayNumber(c, d) == n
  {
    assert month == 12 * (month / 12) + month % 12;
    Date(month / 12, month % 12, n - c.first(month) + 1)
  }

  function DateFrom(c: Calendar, month: int, n: int): (d: Date)
    requires IsCalendar(c) && c.first(month) <= n
    ensures IsDate(c, d) && DayNumber(c, d) == n
    decreases n - c.first(month)
  {
    NextMonth(c, month);
    if IsIn(c, month, n) then DateIn(c, month, n) else DateFrom(c, month + 1, n)
  }

  function DateBefore(c: Calendar, month: int, n: int): (d: Date)
    requires IsCalendar(c) && n < c.first(month)
    ensures IsDate(c, d) && DayNumber(c, d) == n
    decreases c.first(month) - n
  {
    NextMonth(c, month - 1);
    if IsIn(c, month - 1, n) then DateIn(c, month - 1, n) else DateBefore(c, month - 1, n)
  }

  /** The date with a day number, found month by month. */
  function DateOf(c: Calendar, n: int): (d: Date)
    requires IsCalendar(c)
    ensures IsDate(c, d) && DayNumber(c, d) == n
  {
    if n < c.first(0) then DateBefore(c, 0, n) else DateFrom(c, 0, n)
  }

  lemma DateOfDayNumber(c: Calendar, d: Date)
    requires IsCalendar(c) && IsDate(c, d)
    ensures DateOf(c, DayNumber(c, d)) == d
  {
    DayNumberIsInjective(c, DateOf(c, DayNumber(c, d)), d);
  }

  /** 0 is Sunday; day 0, the first of January 1970, was a Thursday. */
  function DayOfWeek(n: int): int {
    (n + 4) % 7
  }

  lemma WeekdaysCount(c: Calendar, epoch: Date, n: int)
    requires IsCalendar(c) && IsDate(c, epoch) && DayNumber(c, epoch) == 0
    ensures DateOf(c, 0) == epoch && DayOfWeek(DayNumber(c, DateOf(c, n))) == (4 + n) % 7
  {
    DateOfDayNumber(c, epoch);
  }
}

/** The proleptic Gregorian calendar. */
module Gregorian {
  import opened CivilDates

  predicate IsLeap(year: int) {
    year % 4 == 0 && (year % 100 != 0 || year % 400 == 0)
  }

  /** Days from the first of January 1970 to the first of January of a year. */
  function DayFromYear(year: int): int {
    365 * (year - 1970) + (year - 1969) / 4 - (year - 1901) / 100 + (year - 1601) / 400
  }

  /** Days in the first `m` months of a year. */
  function DaysBefore(leap: bool, m: nat): int {
    if m == 0 then 0 else DaysBefore(leap, m - 1) + Length(m - 1, leap)
  }

  function FirstOf(month: int): int {
    DayFromYear(month / 12) + DaysBefore(IsLeap(month / 12), month % 12)
  }

  function DaysIn(month: int): int {
    Length(month % 12, IsLeap(month / 12))
  }

  const GREGORIAN := Calendar(FirstOf, DaysIn, IsLeap)

  lemma QuotientBy4(year: int)
    ensures (year - 1968) / 4 == (year - 1969) / 4 + if year % 4 == 0 then 1 else 0
  {}

  lemma QuotientBy100(year: int)
    ensures (year - 1900) / 100 == (year - 1901) / 100 + if year % 100 == 0 then 1 else 0
  {}

  lemma QuotientBy400(year: int)
    ensures (year - 1600) / 400 == (year - 1601) / 400 + if year % 400 == 0 then 1 else 0
  {}

  lemma MultipleOf4(k: int)
    ensures (4 * k) % 4 == 0
  {}

  lemma MultipleOf100(k: int)
    ensures (100 * k) % 100 == 0
  {}

  lemma Multiples(year: int)
    ensures year % 100 == 0 ==> year % 4 == 0
    ensures year % 400 == 0 ==> year % 100 == 0
  {
    MultipleOf4(25 * (year / 100));
    MultipleOf100(4 * (year / 400));
  }

  lemma YearLength(year: int)
    ensures DayFromYear(year + 1) == DayFromYear(year) + if IsLeap(year) then 366 else 365
  {
    QuotientBy4(year);
    QuotientBy100(year);
    QuotientBy400(year);
    Multiples(year);
  }

  lemma TwelveMonths(leap: bool)
    ensures DaysBefore(leap, 11) + Length(11, leap) == if leap then 366 else 365
  {
    assert DaysBefore(leap, 0) == 0;
    assert DaysBefore(leap, 1) == 31;
    assert DaysBefore(leap, 2) == 31 + Length(1, leap);
    assert DaysBefore(leap, 4) == DaysBefore(leap, 2) + 61;
    assert DaysBefore(leap, 6) == DaysBefore(leap, 4) + 61;
    assert DaysBefore(leap, 8) == DaysBefore(leap, 6) + 62;
    assert DaysBefore(leap, 10) == DaysBefore(leap, 8) + 61;
    assert DaysBefore(leap, 11) == DaysBefore(leap, 10) + 30;
  }

  lemma Split(year: int, m: int)
    requires 0 <= m < 12
    ensures (12 * year + m) / 12 == year && (12 * year + m) % 12 == m
  {}

  lemma MonthsFollow(month: int)
    ensures FirstOf(month + 1) == FirstOf(month) + DaysIn(month) && 28 <= DaysIn(month) <= 31
  {
    var year, m := month / 12, month % 12;
    if m == 11 {
      Split(year + 1, 0);
      YearLength(year);
      TwelveMonths(IsLeap(year));
    } else {
      Split(year, m + 1);
    }
  }

  /** The months of the Gregorian calendar follow each other, across the ends of leap years and centuries. */
  lemma GregorianIsCalendar()
    ensures IsCalendar(GREGORIAN)
  {
    forall month ensures Follows(GREGORIAN, month) {
      MonthsFollow(month);
    }
    forall year, month | 0 <= month < 12 ensures HasLength(GREGORIAN, year, month) {
      Split(year, month);
    }
  }

  lemma DayZero()
    ensures IsDate(GREGORIAN, Date(1970, 0, 1)) && DayNumber(GREGORIAN, Date(1970, 0, 1)) == 0
  {}

  /** The weekday is anchored: day 0 is the first of January 1970, a Thursday, and n days later the weekday
    * is n further on. */
  lemma WeekdaysCountFromThursday(n: int)
    ensures IsCalendar(GREGORIAN) && DateOf(GREGORIAN, 0) == Date(1970, 0, 1)
    ensures DayOfWeek(DayNumber(GREGORIAN, DateOf(GREGORIAN, n))) == (4 + n) % 7
  {
    GregorianIsCalendar();
    DayZero();
    WeekdaysCount(GREGORIAN, Date(1970, 0, 1), n);
  }
}
