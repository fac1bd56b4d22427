/** `daynum`: the Gregorian day of the year of a calendar date. */
module DayNumber {
  import Python

  /** Gregorian leap-year rule. */
  predicate IsLeapYear(year: int) {
    (year % 4 == 0 && year % 100 != 0) || year % 400 == 0
  }

  function YearLength(year: int): (n: int)
    ensures n == 365 || n == 366
    ensures n == 366 <==> IsLeapYear(year)
  {
    if IsLeapYear(year) then 366 else 365
  }

  /** Days before the first of each month in a common year. */
  const BegMonth: seq<int> := [0, 31, 59, 90, 120, 151, 181, 212, 243, 273, 304, 334]

  /** Length of `month` (1..12) in `year`: the reference calendar. */
  function DaysInMonth(year: int, month: int): (n: int)
    requires 1 <= month <= 12
    ensures 28 <= n <= 31
    ensures month == 2 ==> (n == 29 <==> IsLeapYear(year))
  {
    if month == 2 then (if IsLeapYear(year) then 29 else 28)
    else if month == 4 || month == 6 || month == 9 || month == 11 then 30
    else 31
  }

  predicate ValidDate(year: int, month: int, day: int) {
    1 <= year && 1 <= month <= 12 && 1 <= day <= DaysInMonth(year, month)
  }

  /** The dates `datetime.strptime` accepts: valid dates of the years 1 to 9999. */
  predicate DateParses(year: int, month: int, day: int) {
    ValidDate(year, month, day) && year <= 9999
  }

  /** Days of `year` in the months before `month`, summed month by month. */
  function DaysBeforeMonth(year: int, month: int): (n: int)
    requires 1 <= month <= 13
    decreases month
  {
    if month == 1 then 0 else DaysBeforeMonth(year, month - 1) + DaysInMonth(year, month - 1)
  }

  /** `daynum(year, month, day)`. An out-of-range year gives -1 before the
      month is looked at. Otherwise the month indexes a Python list, so
      months -11..0 wrap to the end of the table and any month outside
      -11..12 raises; the caller must avoid those. */
  function DayNum(year: int, month: int, day: int): (r: int)
    requires year < 1 || -12 <= month - 1 <= 11
    ensures year < 1 ==> r == -1
  {
    if year < 1 then -1
    else
      var leapyr := if IsLeapYear(year) then 1 else 0;
      var dnum := Python.At(BegMonth, month - 1) + day;
      if leapyr == 1 && month > 2 then dnum + 1 else dnum
  }

  /** `daynum` agrees with the month-by-month reference count on valid dates. */
  lemma {:induction false} DayNumMatchesCalendar(year: int, month: int, day: int)
    requires ValidDate(year, month, day)
    ensures DayNum(year, month, day) == DaysBeforeMonth(year, month) + day
  {
    var l := if IsLeapYear(year) then 1 else 0;
    assert DaysBeforeMonth(year, 1) == 0;
    assert DaysBeforeMonth(year, 2) == 31;
    assert DaysBeforeMonth(year, 3) == 59 + l;
    assert DaysBeforeMonth(year, 4) == 90 + l;
    assert DaysBeforeMonth(year, 5) == 120 + l;
    assert DaysBeforeMonth(year, 6) == 151 + l;
    assert DaysBeforeMonth(year, 7) == 181 + l;
    assert DaysBeforeMonth(year, 8) == 212 + l;
    assert DaysBeforeMonth(year, 9) == 243 + l;
    assert DaysBeforeMonth(year, 10) == 273 + l;
    assert DaysBeforeMonth(year, 11) == 304 + l;
    assert DaysBeforeMonth(year, 12) == 334 + l;
  }

  lemma {:induction false} DaysBeforeMonthBounds(year: int, month: int)
    requires 1 <= month <= 13
    ensures 28 * (month - 1) <= DaysBeforeMonth(year, month) <= 31 * (month - 1)
    ensures month == 13 ==> DaysBeforeMonth(year, month) == YearLength(year)
  {
    if month > 1 {
      DaysBeforeMonthBounds(year, month - 1);
    }
    if month == 13 {
      var l := if IsLeapYear(year) then 1 else 0;
      assert DaysBeforeMonth(year, 3) == 59 + l;
      assert DaysBeforeMonth(year, 13) == 365 + l;
    }
  }

  /** 1900 is not a leap year, 2000 is. */
  lemma CenturyRule()
    ensures !IsLeapYear(1900) && IsLeapYear(2000) && IsLeapYear(1996) && !IsLeapYear(2001)
  {
  }

  /** In January the day number is the day of the month, whatever the year. */
  lemma JanuaryIsDay(year: int, day: int)
    requires year >= 1
    ensures DayNum(year, 1, day) == day
  {
  }

  /** A valid date numbers a day of its year, 1 .. 365 or 366. */
  lemma {:induction false} DayNumInYear(year: int, month: int, day: int)
    requires ValidDate(year, month, day)
    ensures 1 <= DayNum(year, month, day) <= YearLength(year)
  {
    DayNumMatchesCalendar(year, month, day);
    DaysBeforeMonthBounds(year, month);
    DaysBeforeMonthBounds(year, month + 1);
  }

  /** December 31 is the last day of the year. */
  lemma DecemberLast(year: int)
    requires year >= 1
    ensures DayNum(year, 12, 31) == YearLength(year)
  {
  }

  /** The next day of the same month, and the first of the next month, number
      one day later. */
  lemma {:induction false} DayNumSuccessor(year: int, month: int, day: int)
    requires ValidDate(year, month, day)
    ensures day < DaysInMonth(year, month) ==> DayNum(year, month, day + 1) == DayNum(year, month, day) + 1
    ensures day == DaysInMonth(year, month) && month < 12 ==> DayNum(year, month + 1, 1) == DayNum(year, month, day) + 1
  {
    DayNumMatchesCalendar(year, month, day);
    if day < DaysInMonth(year, month) {
      DayNumMatchesCalendar(year, month, day + 1);
    }
    if day == DaysInMonth(year, month) && month < 12 {
      DayNumMatchesCalendar(year, month + 1, 1);
    }
  }

  // ------------------------------------------------- ordinal arithmetic

  /** Days from 2000/01/00 to `year`/01/00, counted year by year with the
      calendar's own year lengths. */
  function DaysFrom2000(year: int): int
    decreases if year < 2000 then 2000 - year else year - 2000
  {
    if year == 2000 then 0
    else if year > 2000 then DaysFrom2000(year - 1) + YearLength(year - 1)
    else DaysFrom2000(year + 1) - YearLength(year)
  }

  /** A day of a year: `day` counts from 1 on January 1 (strftime's `%j`). */
  datatype YearDay = YearDay(year: int, day: int)

  predicate InYear(yd: YearDay) {
    1 <= yd.day <= YearLength(yd.year)
  }

  /** The ordinal of a day: days since 2000/01/00. */
  function Ordinal(yd: YearDay): int {
    DaysFrom2000(yd.year) + yd.day
  }

  function NextDay(yd: YearDay): (r: YearDay)
    requires InYear(yd)
    ensures InYear(r) && Ordinal(r) == Ordinal(yd) + 1
  {
    if yd.day < YearLength(yd.year) then YearDay(yd.year, yd.day + 1)
    else YearDay(yd.year + 1, 1)
  }

  function PrevDay(yd: YearDay): (r: YearDay)
    requires InYear(yd)
    ensures InYear(r) && Ordinal(r) == Ordinal(yd) - 1
  {
    if yd.day > 1 then YearDay(yd.year, yd.day - 1)
    else YearDay(yd.year - 1, YearLength(yd.year - 1))
  }

  /** The day `k` days after `yd` (before it when `k` is negative), as
      `datetime` + `timedelta(days=k)` gives it. */
  function ShiftDays(yd: YearDay, k: int): (r: YearDay)
    requires InYear(yd)
    ensures InYear(r)
    decreases if k < 0 then -k else k
  {
    if k == 0 then yd
    else if k > 0 then ShiftDays(NextDay(yd), k - 1)
    else ShiftDays(PrevDay(yd), k + 1)
  }

  /** Shifting by `k` days moves the ordinal by exactly `k`. */
  lemma {:induction false} ShiftDaysMovesOrdinal(yd: YearDay, k: int)
    requires InYear(yd)
    ensures Ordinal(ShiftDays(yd, k)) == Ordinal(yd) + k
    decreases if k < 0 then -k else k
  {
    if k > 0 {
      ShiftDaysMovesOrdinal(NextDay(yd), k - 1);
    } else if k < 0 {
      ShiftDaysMovesOrdinal(PrevDay(yd), k + 1);
    }
  }

  /** Distinct in-year days have distinct ordinals, so the ordinal fixes the day. */
  lemma {:induction false} OrdinalInjective(a: YearDay, b: YearDay)
    requires InYear(a) && InYear(b) && Ordinal(a) == Ordinal(b)
    ensures a == b
    decreases if a.year < b.year then b.year - a.year else a.year - b.year
  {
    if a.year < b.year {
      OrdinalGrowsByYear(a.year, b.year);
      assert false;
    } else if a.year > b.year {
      OrdinalGrowsByYear(b.year, a.year);
      assert false;
    }
  }

  lemma {:induction false} OrdinalGrowsByYear(y: int, z: int)
    requires y < z
    ensures DaysFrom2000(z) >= DaysFrom2000(y) + YearLength(y)
    decreases z - y
  {
    if z > y + 1 {
      OrdinalGrowsByYear(y, z - 1);
      DaysFrom2000Step(z - 1);
    } else {
      DaysFrom2000Step(y);
    }
  }

  lemma DaysFrom2000Step(y: int)
    ensures DaysFrom2000(y + 1) == DaysFrom2000(y) + YearLength(y)
  {
  }
}
