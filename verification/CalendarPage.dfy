/** The month grid and rescheduling by drag, in any calendar with the usual months. */
module CalendarPage {
  import opened CivilDates
  import opened Gregorian

  // ---------- The setters ----------

  function WithOverflow(c: Calendar, year: int, month: int, day: int): Date
    requires IsCalendar(c)
  {
    DateOf(c, MakeDay(c, year, month, day))
  }

  function WithFullYear(c: Calendar, d: Date, year: int): Date
    requires IsCalendar(c)
  {
    WithOverflow(c, year, d.month, d.day)
  }

  function WithMonth(c: Calendar, d: Date, month: int): Date
    requires IsCalendar(c)
  {
    WithOverflow(c, d.year, month, d.day)
  }

  function WithDate(c: Calendar, d: Date, day: int): Date
    requires IsCalendar(c)
  {
    WithOverflow(c, d.year, d.month, day)
  }

  lemma FitsMonth(c: Calendar, year: int, month: int, day: int)
    requires IsCalendar(c) && 0 <= month <= 11 && 1 <= day <= c.days(12 * year + month)
    ensures WithOverflow(c, year, month, day) == Date(year, month, day)
  {
    DateOfDayNumber(c, Date(year, month, day));
  }

  lemma Carries(c: Calendar, year: int, month: int, day: int)
    requires IsCalendar(c)
    ensures MakeDay(c, year, month, day) == MakeDay(c, year, month + 1, day - c.days(12 * year + month))
    ensures c.days(12 * year + month) >= 28
  {
    NextMonth(c, 12 * year + month);
  }

  /** Days past the end of a month other than December are the first days of the next. */
  lemma OverflowsMonth(c: Calendar, year: int, month: int, day: int)
    requires IsCalendar(c) && 0 <= month < 11 && c.days(12 * year + month) < day <= 31
    ensures WithOverflow(c, year, month, day) == Date(year, month + 1, day - c.days(12 * year + month))
  {
    var n := c.days(12 * year + month);
    Carries(c, year, month, day);
    NextMonth(c, 12 * year + (month + 1));
    FitsMonth(c, year, month + 1, day - n);
  }

  // ---------- Rescheduling ----------

  /** The three setters one after the other. */
  function Moved(c: Calendar, was: Date, target: Date): Date
    requires IsCalendar(c)
  {
    WithDate(c, WithMonth(c, WithFullYear(c, was, target.year), target.month), target.day)
  }

  /** The day of the month that is left when the year has been set. */
  function DayLeft(c: Calendar, was: Date, year: int): int {
    if was.month == 1 && was.day == 29 && !c.leap(year) then 1 else was.day
  }

  lemma YearIsSet(c: Calendar, was: Date, year: int)
    requires IsCalendar(c) && IsDate(c, was)
    ensures var d := WithFullYear(c, was, year); d.year == year && d.day == DayLeft(c, was, year) && IsDate(c, d)
  {
    MonthLength(c, year, was.month);
    MonthLength(c, was.year, was.month);
    if was.day <= c.days(12 * year + was.month) {
      FitsMonth(c, year, was.month, was.day);
    } else {
      OverflowsMonth(c, year, was.month, was.day);
    }
  }

  lemma MonthIsSet(c: Calendar, d: Date, month: int)
    requires IsCalendar(c) && IsDate(c, d) && 0 <= month <= 11
    ensures var n := c.days(12 * d.year + month);
            WithMonth(c, d, month) ==
            if d.day <= n then Date(d.year, month, d.day) else Date(d.year, month + 1, d.day - n)
    ensures d.day > c.days(12 * d.year + month) ==> month < 11
  {
    MonthLength(c, d.year, month);
    NextMonth(c, MonthOf(d));
    if d.day <= c.days(12 * d.year + month) {
      FitsMonth(c, d.year, month, d.day);
    } else {
      OverflowsMonth(c, d.year, month, d.day);
    }
  }

  lemma LandsOn(c: Calendar, d: Date, target: Date)
    requires IsCalendar(c) && IsDate(c, d) && IsDate(c, target)
    requires d.year == target.year && d.day <= c.days(MonthOf(target))
    ensures WithDate(c, WithMonth(c, d, target.month), target.day) == target
  {
    MonthIsSet(c, d, target.month);
    FitsMonth(c, target.year, target.month, target.day);
  }

  lemma LandsAfter(c: Calendar, d: Date, target: Date)
    requires IsCalendar(c) && IsDate(c, d) && IsDate(c, target)
    requires d.year == target.year && d.day > c.days(MonthOf(target))
    ensures target.month < 11
    ensures WithDate(c, WithMonth(c, d, target.month), target.day) == Date(target.year, target.month + 1, target.day)
  {
    MonthIsSet(c, d, target.month);
    NextMonth(c, MonthOf(d));
    MonthLength(c, target.year, target.month);
    MonthLength(c, target.year, target.month + 1);
    FitsMonth(c, target.year, target.month + 1, target.day);
  }

  /** A drag lands on the target day exactly when the day of the month that is left after setting the year
    * fits the target month; otherwise it lands on the same day of the month after. */
  lemma DragLands(c: Calendar, was: Date, target: Date)
    requires IsCalendar(c) && IsDate(c, was) && IsDate(c, target)
    ensures var fits := DayLeft(c, was, target.year) <= c.days(MonthOf(target));
            && (Moved(c, was, target) == target <==> fits)
            && (!fits ==> target.month < 11 && Moved(c, was, target) == Date(target.year, target.month + 1, target.day))
  {
    var d := WithFullYear(c, was, target.year);
    YearIsSet(c, was, target.year);
    if d.day <= c.days(MonthOf(target)) {
      LandsOn(c, d, target);
    } else {
      LandsAfter(c, d, target);
    }
  }

  /** A drag from the last day of January 2025 to the 10th of February ends on the 10th of March. */
  lemma DragMissesFebruary(c: Calendar)
    requires IsCalendar(c) && !c.leap(2025)
    ensures Moved(c, Date(2025, 0, 31), Date(2025, 1, 10)) == Date(2025, 2, 10)
  {
    MonthLength(c, 2025, 0);
    MonthLength(c, 2025, 1);
    DragLands(c, Date(2025, 0, 31), Date(2025, 1, 10));
  }

  /** A point in local time, changed in place. */
  class LocalDate {
    const calendar: Calendar
    var day: int
    var timeOfDay: int

    constructor (calendar: Calendar, day: int, timeOfDay: int)
      ensures this.calendar == calendar && this.day == day && this.timeOfDay == timeOfDay
    {
      this.calendar, this.day, this.timeOfDay := calendar, day, timeOfDay;
    }

    function Get(): Date
      requires IsCalendar(calendar)
      reads this
    {
      DateOf(calendar, day)
    }

    method SetFullYear(year: int)
      requires IsCalendar(calendar)
      modifies this`day
      ensures Get() == WithFullYear(calendar, old(Get()), year)
    {
      day := MakeDay(calendar, year, Get().month, Get().day);
    }

    method SetMonth(month: int)
      requires IsCalendar(calendar)
      modifies this`day
      ensures Get() == WithMonth(calendar, old(Get()), month)
    {
      day := MakeDay(calendar, Get().year, month, Get().day);
    }

    method SetDate(date: int)
      requires IsCalendar(calendar)
      modifies this`day
      ensures Get() == WithDate(calendar, old(Get()), date)
    {
      day := MakeDay(calendar, Get().year, Get().month, date);
    }
  }

  /** Drops a task that is due on `due` on the cell of `target`; tells whether the task is rescheduled. */
  method OnDragEnd(due: LocalDate, target: Date) returns (moved: bool)
    requires IsCalendar(due.calendar) && IsDate(due.calendar, target)
    modifies due`day
    ensures moved <==> old(due.Get()) != target
    ensures due.Get() ==
            if !moved || DayLeft(due.calendar, old(due.Get()), target.year) <= due.calendar.days(MonthOf(target))
            then target
            else Date(target.year, target.month + 1, target.day)
  {
    if due.Get() == target {
      return false;
    }
    DragLands(due.calendar, due.Get(), target);
    due.SetFullYear(target.year);
    due.SetMonth(target.month);
    due.SetDate(target.day);
    moved := true;
  }

  // ---------- The month grid ----------

  datatype DayInfo = DayInfo(date: Date, inMonth: bool)

  /** The date constructor takes the years 0 to 99 for 1900 to 1999. */
  function FullYear(year: int): int {
    if 0 <= year <= 99 then 1900 + year else year
  }

  /** Days from Monday to the first. */
  function FirstWeekday(c: Calendar, first: Date): (n: int)
    ensures 0 <= n <= 6
  {
    (DayOfWeek(DayNumber(c, first)) + 6) % 7
  }

  function GridStart(c: Calendar, first: Date): int {
    MakeDay(c, FullYear(first.year), first.month, 1 - FirstWeekday(c, first))
  }

  /** The cell of a day number in the grid of a month. */
  function CellOf(c: Calendar, month: int, n: int): DayInfo
    requires IsCalendar(c)
  {
    DayInfo(DateOf(c, n), DateOf(c, n).month == month)
  }

  function Cell(c: Calendar, first: Date, k: int): DayInfo
    requires IsCalendar(c)
  {
    CellOf(c, first.month, GridStart(c, first) + k)
  }

  /** Six rows of seven cells. */
  method BuildMonth(c: Calendar, first: Date) returns (weeks: seq<seq<DayInfo>>)
    requires IsCalendar(c)
    ensures |weeks| == 6 && forall w | 0 <= w < 6 :: |weeks[w]| == 7
    ensures forall w, d | 0 <= w < 6 && 0 <= d < 7 :: weeks[w][d] == Cell(c, first, 7 * w + d)
  {
    var start := DateOf(c, GridStart(c, first));
    weeks := [];
    for w := 0 to 6
      invariant |weeks| == w && forall i | 0 <= i < w :: |weeks[i]| == 7
      invariant forall i, d | 0 <= i < w && 0 <= d < 7 :: weeks[i][d] == Cell(c, first, 7 * i + d)
    {
      var row: seq<DayInfo> := [];
      for d := 0 to 7
        invariant |row| == d && forall i | 0 <= i < d :: row[i] == Cell(c, first, 7 * w + i)
      {
        var day := WithDate(c, start, start.day + w * 7 + d);
        row := row + [DayInfo(day, day.month == first.month)];
      }
      weeks := weeks + [row];
    }
  }

  predicate IsFirst(c: Calendar, first: Date) {
    IsDate(c, first) && first.day == 1
  }

  /** The cells are consecutive days, in every year; outside the years 0 to 99 they begin on the last Monday
    * up to the first of the month, so that each row begins on a Monday. */
  lemma GridIsConsecutive(c: Calendar, first: Date, k: int)
    requires IsCalendar(c) && IsFirst(c, first)
    ensures DayNumber(c, Cell(c, first, k + 1).date) == DayNumber(c, Cell(c, first, k).date) + 1
    ensures FullYear(first.year) == first.year ==>
              && DayNumber(c, Cell(c, first, k).date) == DayNumber(c, first) - FirstWeekday(c, first) + k
              && DayOfWeek(DayNumber(c, Cell(c, first, k).date)) == (k + 1) % 7
  {}

  /** Each day of the month is in the grid, in one cell. */
  lemma GridHasMonth(c: Calendar, first: Date, day: int, k: int)
    requires IsCalendar(c) && IsFirst(c, first)
    requires FullYear(first.year) == first.year && 1 <= day <= c.days(MonthOf(first))
    ensures var at := FirstWeekday(c, first) + day - 1;
            0 <= at < 42 && (Cell(c, first, k).date == first.(day := day) <==> k == at)
  {
    GridIsConsecutive(c, first, k);
    NextMonth(c, MonthOf(first));
    DateOfDayNumber(c, first.(day := day));
  }

  /** A cell of the grid is flagged exactly when it belongs to the month. */
  lemma FlagsAreExact(c: Calendar, first: Date, k: int)
    requires IsCalendar(c) && IsFirst(c, first) && FullYear(first.year) == first.year && 0 <= k < 42
    ensures Cell(c, first, k).inMonth <==> MonthOf(Cell(c, first, k).date) == MonthOf(first)
  {
    GridIsConsecutive(c, first, k);
    var date := Cell(c, first, k).date;
    if date.month == first.month && date.year != first.year {
      AYearApart(c, date, first);
    }
  }

  lemma AYearApart(c: Calendar, a: Date, b: Date)
    requires IsCalendar(c) && IsDate(c, a) && IsDate(c, b) && a.month == b.month && a.year != b.year
    ensures DayNumber(c, a) < DayNumber(c, b) - 200 || DayNumber(c, b) < DayNumber(c, a) - 200
  {
    NextMonth(c, MonthOf(a));
    NextMonth(c, MonthOf(b));
    if a.year < b.year {
      FarApart(c, MonthOf(a), MonthOf(b));
    } else {
      FarApart(c, MonthOf(b), MonthOf(a));
    }
  }

  lemma FarApart(c: Calendar, a: int, b: int)
    requires IsCalendar(c) && a + 12 <= b
    ensures c.first(a) + 300 <= c.first(b)
  {
    FourMonths(c, a);
    FourMonths(c, a + 4);
    FourMonths(c, a + 8);
    if a + 12 < b {
      LaterMonth(c, a + 12, b);
      NextMonth(c, a + 12);
    }
  }

  lemma FourMonths(c: Calendar, a: int)
    requires IsCalendar(c)
    ensures c.first(a) + 112 <= c.first(a + 4)
  {
    NextMonth(c, a);
    NextMonth(c, a + 1);
    NextMonth(c, a + 2);
    NextMonth(c, a + 3);
  }

  /** In the years 0 to 99 the grid shows days of another century: none of the month's own. */
  lemma EarlyYearsAreMissed(c: Calendar, first: Date, k: int)
    requires IsCalendar(c) && IsFirst(c, first) && 0 <= first.year <= 99 && 0 <= k < 42
    ensures MonthOf(Cell(c, first, k).date) != MonthOf(first)
  {
    var date := Cell(c, first, k).date;
    FarApart(c, MonthOf(first), 12 * FullYear(first.year) + first.month);
    assert DayNumber(c, date) > DayNumber(c, first) + 40;
    NextMonth(c, MonthOf(date));
  }

  /** What it shows instead are the days around the same month of the years 1900 to 1999. */
  lemma EarlyYearsShowTheirCentury(c: Calendar, first: Date, k: int)
    requires IsCalendar(c) && IsFirst(c, first) && 0 <= first.year <= 99
    ensures DayNumber(c, Cell(c, first, k).date) ==
            DayNumber(c, Date(1900 + first.year, first.month, 1)) - FirstWeekday(c, first) + k
  {}

  /** The grid shows its month exactly outside the years 0 to 99. */
  lemma GridIsRightExactly(c: Calendar, first: Date)
    requires IsCalendar(c) && IsFirst(c, first)
    ensures (exists k | 0 <= k < 42 :: Cell(c, first, k).date == first) <==> !(0 <= first.year <= 99)
  {
    if 0 <= first.year <= 99 {
      forall k | 0 <= k < 42 ensures Cell(c, first, k).date != first {
        EarlyYearsAreMissed(c, first, k);
      }
    } else {
      var k := FirstWeekday(c, first);
      NextMonth(c, MonthOf(first));
      GridHasMonth(c, first, 1, k);
      assert first.(day := 1) == first;
    }
  }

  /** All of this holds in the Gregorian calendar; a drag to the 29th of February, for one, lands there
    * exactly from a task that is due on one of the first 29 days of a month. */
  lemma DragToLeapDay(was: Date, year: int)
    requires IsDate(GREGORIAN, was) && IsLeap(year)
    ensures IsCalendar(GREGORIAN) && IsDate(GREGORIAN, Date(year, 1, 29))
    ensures Moved(GREGORIAN, was, Date(year, 1, 29)) == Date(year, 1, 29) <==> was.day <= 29
  {
    GregorianIsCalendar();
    MonthLength(GREGORIAN, year, 1);
    DragLands(GREGORIAN, was, Date(year, 1, 29));
  }
}
