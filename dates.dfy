/** The slice of java.time the services use: ISO (proleptic Gregorian) dates,
    month arithmetic that clamps the day (`plusMonths`, `minusMonths`), and the
    partial constructors `LocalDate.of` / `withDayOfMonth`, which fail instead of
    clamping. */
module Dates {
  import opened Wrappers

  datatype Date = Date(year: int, month: int, day: int)

  function Min(a: int, b: int): int { if a <= b then a else b }

  predicate IsLeapYear(y: int) {
    y % 4 == 0 && (y % 100 != 0 || y % 400 == 0)
  }

  function DaysInMonth(y: int, m: int): (n: int)
    requires 1 <= m <= 12
    ensures 28 <= n <= 31
    ensures m == 2 ==> (n == 29 <==> IsLeapYear(y))
  {
    if m == 2 then (if IsLeapYear(y) then 29 else 28)
    else if m == 4 || m == 6 || m == 9 || m == 11 then 30
    else 31
  }

  predicate ValidMonth(d: Date) { 1 <= d.month <= 12 }

  predicate ValidDate(d: Date) {
    1 <= d.month <= 12 && 1 <= d.day <= DaysInMonth(d.year, d.month)
  }

  /** `lengthOfMonth()` */
  function LengthOfMonth(d: Date): int
    requires ValidMonth(d)
  {
    DaysInMonth(d.year, d.month)
  }

  /** The proleptic month count (`YearMonth` as one number): consecutive
      calendar months have consecutive indices. */
  function MonthIndex(d: Date): int { d.year * 12 + d.month - 1 }

  function YearOfIndex(idx: int): int { idx / 12 }
  function MonthOfIndex(idx: int): (m: int) ensures 1 <= m <= 12 { idx % 12 + 1 }

  /** `LocalDate.of(y, m, day)`: absent when the day does not exist. */
  function Of(y: int, m: int, day: int): (r: Option<Date>)
    ensures r.Some? <==> 1 <= m <= 12 && 1 <= day <= DaysInMonth(y, m)
    ensures r.Some? ==> ValidDate(r.value) && r.value == Date(y, m, day)
  {
    if 1 <= m <= 12 && 1 <= day <= DaysInMonth(y, m) then Some(Date(y, m, day)) else None
  }

  /** `LocalDate.of` for the month with the given index. */
  function OfIndex(idx: int, day: int): (r: Option<Date>)
    ensures r.Some? ==> ValidDate(r.value) && MonthIndex(r.value) == idx && r.value.day == day
    ensures r.Some? <==> 1 <= day <= DaysInMonth(YearOfIndex(idx), MonthOfIndex(idx))
  {
    Of(YearOfIndex(idx), MonthOfIndex(idx), day)
  }

  /** `d.withDayOfMonth(day)`: absent when the day does not exist in d's month. */
  function WithDayOfMonth(d: Date, day: int): (r: Option<Date>)
    requires ValidMonth(d)
    ensures r.Some? <==> 1 <= day <= LengthOfMonth(d)
    ensures r.Some? ==> ValidDate(r.value) && MonthIndex(r.value) == MonthIndex(d) && r.value.day == day
  {
    Of(d.year, d.month, day)
  }

  /** The first day of the month with the given index. */
  function FirstOfIndex(idx: int): (r: Date)
    ensures ValidDate(r) && MonthIndex(r) == idx && r.day == 1
  {
    Date(YearOfIndex(idx), MonthOfIndex(idx), 1)
  }

  /** `d.plusMonths(n)`: the month moves by n, the day is kept but clamped to
      the length of the target month. */
  function PlusMonths(d: Date, n: int): (r: Date)
    ensures MonthIndex(r) == MonthIndex(d) + n
    ensures ValidMonth(r) && r.day == Min(d.day, DaysInMonth(r.year, r.month))
    ensures ValidDate(d) ==> ValidDate(r)
    ensures ValidDate(d) && d.day <= DaysInMonth(r.year, r.month) ==> r.day == d.day
  {
    var idx := MonthIndex(d) + n;
    Date(YearOfIndex(idx), MonthOfIndex(idx), Min(d.day, DaysInMonth(YearOfIndex(idx), MonthOfIndex(idx))))
  }

  /** `d.minusMonths(n)`, which java.time defines as `plusMonths(-n)`. */
  function MinusMonths(d: Date, n: int): (r: Date)
    ensures MonthIndex(r) == MonthIndex(d) - n
    ensures ValidMonth(r) && (ValidDate(d) ==> ValidDate(r))
  {
    PlusMonths(d, -n)
  }

  /** A number that orders valid dates chronologically (see OrdIsChronological). */
  function Ord(d: Date): int { MonthIndex(d) * 32 + d.day }

  /** `a.isBefore(b)` */
  predicate Before(a: Date, b: Date) { Ord(a) < Ord(b) }

  /** `!a.isAfter(b)`, i.e. a <= b */
  predicate NotAfter(a: Date, b: Date) { Ord(a) <= Ord(b) }

  predicate Chronological(a: Date, b: Date) {
    a.year < b.year || (a.year == b.year && (a.month < b.month || (a.month == b.month && a.day < b.day)))
  }

  lemma OrdIsChronological(a: Date, b: Date)
    requires ValidDate(a) && ValidDate(b)
    ensures Before(a, b) <==> Chronological(a, b)
    ensures Ord(a) == Ord(b) <==> a == b
  {
  }

  /** A date in an earlier month is before any date in a later month. */
  lemma EarlierMonthIsBefore(a: Date, b: Date)
    requires ValidDate(a) && ValidDate(b) && MonthIndex(a) < MonthIndex(b)
    ensures Before(a, b)
  {
  }

  /** A month index names one calendar month. */
  lemma MonthIndexInjective(a: Date, b: Date)
    requires ValidMonth(a) && ValidMonth(b) && MonthIndex(a) == MonthIndex(b)
    ensures a.year == b.year && a.month == b.month
  {
  }

  /** Adding zero months changes nothing. */
  lemma PlusZeroMonths(d: Date)
    requires ValidDate(d)
    ensures PlusMonths(d, 0) == d
  {
    MonthIndexInjective(PlusMonths(d, 0), d);
  }

  lemma BeforeMonthIndex(a: Date, b: Date)
    requires ValidDate(a) && ValidDate(b) && NotAfter(a, b)
    ensures MonthIndex(a) <= MonthIndex(b)
  {
  }

  // ---- Day counts ----

  /** The days of the years before y, counted from 1 January of year 1. */
  function DaysBeforeYear(y: int): int
  {
    var p := y - 1;
    365 * p + p / 4 - p / 100 + p / 400
  }

  /** The days of the months of year y before month m. */
  function DaysBeforeMonth(y: int, m: int): (n: int)
    requires 1 <= m <= 12
    ensures 28 * (m - 1) <= n <= 31 * (m - 1)
  {
    if m == 1 then 0 else DaysBeforeMonth(y, m - 1) + DaysInMonth(y, m - 1)
  }

  /** `toEpochDay()`, counted from 1 January of year 1 rather than of 1970;
      only differences of it are used. */
  function DayNumber(d: Date): int
    requires ValidMonth(d)
  {
    DaysBeforeYear(d.year) + DaysBeforeMonth(d.year, d.month) + d.day - 1
  }

  /** `ChronoUnit.DAYS.between(a, b)` */
  function DaysBetween(a: Date, b: Date): int
    requires ValidMonth(a) && ValidMonth(b)
  {
    DayNumber(b) - DayNumber(a)
  }

  /** `d.plusDays(1)` */
  function NextDay(d: Date): Date
    requires ValidDate(d)
  {
    if d.day < LengthOfMonth(d) then Date(d.year, d.month, d.day + 1)
    else if d.month < 12 then Date(d.year, d.month + 1, 1)
    else Date(d.year + 1, 1, 1)
  }

  /** A year has 366 days when it is a leap year and 365 otherwise. */
  lemma YearLength(y: int)
    ensures DaysBeforeYear(y + 1) - DaysBeforeYear(y) == if IsLeapYear(y) then 366 else 365
  {
    var p := y - 1;
    DivStep(p, 4);
    DivStep(p, 100);
    DivStep(p, 400);
    var d4, d100, d400 := (p + 1) / 4 - p / 4, (p + 1) / 100 - p / 100, (p + 1) / 400 - p / 400;
    assert DaysBeforeYear(y + 1) - DaysBeforeYear(y) == 365 + d4 - d100 + d400;
    if y % 400 == 0 {
      assert y % 100 == 0 && y % 4 == 0;
    } else if y % 100 == 0 {
      assert y % 4 == 0;
    }
  }

  /** p / n grows by one exactly when p + 1 is a multiple of n. */
  lemma DivStep(p: int, n: int)
    requires n == 4 || n == 100 || n == 400
    ensures (p + 1) / n - p / n == if (p + 1) % n == 0 then 1 else 0
  {
    if n == 4 {
      assert (p + 1) / 4 - p / 4 == if (p + 1) % 4 == 0 then 1 else 0;
    } else if n == 100 {
      assert (p + 1) / 100 - p / 100 == if (p + 1) % 100 == 0 then 1 else 0;
    } else {
      assert (p + 1) / 400 - p / 400 == if (p + 1) % 400 == 0 then 1 else 0;
    }
  }

  /** The twelve months add up to the year's length. */
  lemma MonthsFillYear(y: int)
    ensures DaysBeforeMonth(y, 12) + DaysInMonth(y, 12) == DaysBeforeYear(y + 1) - DaysBeforeYear(y)
  {
    YearLength(y);
    var feb := DaysInMonth(y, 2);
    assert DaysBeforeMonth(y, 2) == 31;
    assert DaysBeforeMonth(y, 3) == 31 + feb;
    assert DaysBeforeMonth(y, 4) == 62 + feb;
    assert DaysBeforeMonth(y, 5) == 92 + feb;
    assert DaysBeforeMonth(y, 6) == 123 + feb;
    assert DaysBeforeMonth(y, 7) == 153 + feb;
    assert DaysBeforeMonth(y, 8) == 184 + feb;
    assert DaysBeforeMonth(y, 9) == 215 + feb;
    assert DaysBeforeMonth(y, 10) == 245 + feb;
    assert DaysBeforeMonth(y, 11) == 276 + feb;
    assert DaysBeforeMonth(y, 12) == 306 + feb;
  }

  lemma {:induction false} MonthsIncrease(y: int, m1: int, m2: int)
    requires 1 <= m1 < m2 <= 12
    ensures DaysBeforeMonth(y, m1) + DaysInMonth(y, m1) <= DaysBeforeMonth(y, m2)
    decreases m2
  {
    if m1 < m2 - 1 {
      MonthsIncrease(y, m1, m2 - 1);
    }
  }

  lemma {:induction false} YearsIncrease(y1: int, y2: int)
    requires y1 <= y2
    ensures DaysBeforeYear(y1) <= DaysBeforeYear(y2)
    decreases y2 - y1
  {
    if y1 < y2 {
      YearLength(y1);
      YearsIncrease(y1 + 1, y2);
    }
  }

  /** Every day of year y comes before the first day of year y + 1. */
  lemma WithinYear(d: Date)
    requires ValidDate(d)
    ensures DaysBeforeYear(d.year) <= DayNumber(d) < DaysBeforeYear(d.year + 1)
  {
    var y := d.year;
    MonthsFillYear(y);
    assert DaysBeforeMonth(y, d.month) + DaysInMonth(y, d.month) <= DaysBeforeMonth(y, 12) + DaysInMonth(y, 12) by {
      if d.month < 12 {
        MonthsIncrease(y, d.month, 12);
      }
    }
  }

  /** The day number counts days: the next day has the next number. */
  lemma DayNumberNext(d: Date)
    requires ValidDate(d)
    ensures ValidDate(NextDay(d)) && DayNumber(NextDay(d)) == DayNumber(d) + 1
  {
    if d.day == LengthOfMonth(d) && d.month == 12 {
      MonthsFillYear(d.year);
    }
  }

  /** The day number orders valid dates as the calendar does and names each
      date once, so `DAYS.between(a, b)` is positive iff a is before b. */
  lemma DayNumberOrder(a: Date, b: Date)
    requires ValidDate(a) && ValidDate(b)
    ensures Before(a, b) <==> DayNumber(a) < DayNumber(b)
    ensures DayNumber(a) == DayNumber(b) <==> a == b
  {
    OrdIsChronological(a, b);
    OrdIsChronological(b, a);
    if Chronological(a, b) {
      DayNumberIncreases(a, b);
    } else if Chronological(b, a) {
      DayNumberIncreases(b, a);
    }
  }

  lemma DayNumberIncreases(a: Date, b: Date)
    requires ValidDate(a) && ValidDate(b) && Chronological(a, b)
    ensures DayNumber(a) < DayNumber(b)
  {
    if a.year < b.year {
      WithinYear(a);
      WithinYear(b);
      YearsIncrease(a.year + 1, b.year);
    } else if a.month < b.month {
      MonthsIncrease(a.year, a.month, b.month);
    }
  }

  /** Day counts across a month end, a leap day and a year end. */
  lemma DaysBetweenExamples()
    ensures DaysBetween(Date(2024, 3, 15), Date(2024, 4, 10)) == 26
    ensures DaysBetween(Date(2024, 2, 28), Date(2024, 3, 1)) == 2
    ensures DaysBetween(Date(2023, 2, 28), Date(2023, 3, 1)) == 1
    ensures DaysBetween(Date(2023, 12, 31), Date(2024, 1, 1)) == 1
  {
  }

  /** Month-end clamping, the two documented cases. */
  lemma ClampExamples()
    ensures PlusMonths(Date(2024, 1, 31), 1) == Date(2024, 2, 29)
    ensures PlusMonths(Date(2023, 1, 31), 1) == Date(2023, 2, 28)
    ensures Of(2023, 2, 29) == None
  {
  }
}
