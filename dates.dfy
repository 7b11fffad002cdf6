/**
  Calendar dates as java.time.LocalDate has them: the proleptic Gregorian
  calendar, ordered field by field (year, then month, then day), with day
  arithmetic done through the epoch day (days since 1970-01-01).
 */
module Dates {

  datatype Date = Date(year: int, month: int, day: int)

  predicate IsLeapYear(y: int) {
    y % 4 == 0 && (y % 100 != 0 || y % 400 == 0)
  }

  function YearLength(y: int): int {
    if IsLeapYear(y) then 366 else 365
  }

  function MonthLength(y: int, m: int): (n: int)
    ensures 28 <= n <= 31
  {
    if m == 2 then (if IsLeapYear(y) then 29 else 28)
    else if m == 4 || m == 6 || m == 9 || m == 11 then 30
    else 31
  }

  predicate ValidDate(d: Date) {
    1 <= d.month <= 12 && 1 <= d.day <= MonthLength(d.year, d.month)
  }

  /** A LocalDate always names an existing calendar day. */
  type LocalDate = d: Date | ValidDate(d) witness Date(1970, 1, 1)

  /** a.compareTo(b) <= 0 for LocalDate: the field-by-field order. */
  predicate NotAfter(a: Date, b: Date) {
    || a.year < b.year
    || (a.year == b.year && (a.month < b.month || (a.month == b.month && a.day <= b.day)))
  }

  /** Days of year y that lie before the first day of month m (m == 13: the whole year). */
  function DaysBeforeMonth(y: int, m: int): int
    requires 1 <= m <= 13
  {
    var leapDay := if m > 2 && IsLeapYear(y) then 1 else 0;
    leapDay + match m
      case 1 => 0    case 2 => 31   case 3 => 59   case 4 => 90
      case 5 => 120  case 6 => 151  case 7 => 181  case 8 => 212
      case 9 => 243  case 10 => 273 case 11 => 304 case 12 => 334
      case _ => 365
  }

  /** Leap years in [0, y) for y >= 0; minus the leap years in [y, 0) for y < 0. */
  function LeapYearsBefore(y: int): int {
    (y + 3) / 4 - (y + 99) / 100 + (y + 399) / 400
  }

  /** Days from 0000-01-01 to the first day of year y (negative before year 0). */
  function DaysBeforeYear(y: int): int {
    365 * y + LeapYearsBefore(y)
  }

  /** Days from 0000-01-01 to 1970-01-01. */
  const DaysFrom0000To1970: int := 719528

  /** LocalDate.toEpochDay. */
  function EpochDay(d: LocalDate): int {
    DaysBeforeYear(d.year) + DaysBeforeMonth(d.year, d.month) + d.day - 1 - DaysFrom0000To1970
  }

  /**
    ChronoUnit.DAYS.between(a, b): whole days from a to b. It is non-negative
    exactly when a is not after b, and zero exactly when a == b.
   */
  function DaysBetween(a: LocalDate, b: LocalDate): (n: int)
    ensures n >= 0 <==> NotAfter(a, b)
    ensures n == 0 <==> a == b
  {
    assert a != b ==> (NotAfter(a, b) <==> EpochDay(a) < EpochDay(b)) && EpochDay(a) != EpochDay(b) by {
      if a != b {
        if NotAfter(a, b) {
          EpochDayIncreasing(a, b);
        } else {
          EpochDayIncreasing(b, a);
        }
      }
    }
    EpochDay(b) - EpochDay(a)
  }

  /** d.withDayOfMonth(1): the first day of d's month. */
  function FirstOfMonth(d: LocalDate): (r: LocalDate)
    ensures r.year == d.year && r.month == d.month && r.day == 1
    ensures NotAfter(r, d) && DaysBetween(r, d) == d.day - 1
  {
    Date(d.year, d.month, 1)
  }

  /** d.plusDays(1): the calendar day after d. */
  function NextDay(d: LocalDate): (r: LocalDate)
    ensures NotAfter(d, r) && r != d
  {
    if d.day < MonthLength(d.year, d.month) then Date(d.year, d.month, d.day + 1)
    else if d.month < 12 then Date(d.year, d.month + 1, 1)
    else Date(d.year + 1, 1, 1)
  }

  /** Consecutive days are consecutive epoch days, so DAYS.between counts whole days. */
  lemma EpochDayNext(d: LocalDate)
    ensures EpochDay(NextDay(d)) == EpochDay(d) + 1
    ensures DaysBetween(d, NextDay(d)) == 1
  {
    if d.month == 12 && d.day == 31 {
      NextYear(d.year);
    }
  }

  /** The epoch starts at 1970-01-01: the day before it is day -1. */
  lemma EpochOrigin()
    ensures EpochDay(Date(1970, 1, 1)) == 0
    ensures EpochDay(Date(1969, 12, 31)) == -1
  {
  }

  /** LocalDate.toEpochDay on two dates after a leap day. */
  lemma EpochDaySamples()
    ensures EpochDay(Date(2000, 3, 1)) == 11017
    ensures EpochDay(Date(2024, 1, 1)) == 19723
  {
  }

  /** The proleptic year 0 is a leap year: it starts 719528 days before the epoch. */
  lemma EpochDayOfYearZero()
    ensures EpochDay(Date(0, 1, 1)) == -719528
  {
  }

  /** The proleptic year -1 is not a leap year: it is 365 days long. */
  lemma EpochDayOfYearMinusOne()
    ensures EpochDay(Date(-1, 1, 1)) == -719893
  {
  }

  /** Moving to the next year adds the length of the year left behind. */
  lemma NextYear(y: int)
    ensures DaysBeforeYear(y + 1) == DaysBeforeYear(y) + YearLength(y)
  {
    DivisibleStep(y);
  }

  lemma DivisibleStep(y: int)
    ensures (y + 4) / 4 - (y + 3) / 4 == if y % 4 == 0 then 1 else 0
    ensures (y + 100) / 100 - (y + 99) / 100 == if y % 100 == 0 then 1 else 0
    ensures (y + 400) / 400 - (y + 399) / 400 == if y % 400 == 0 then 1 else 0
    ensures y % 400 == 0 ==> y % 100 == 0
    ensures y % 100 == 0 ==> y % 4 == 0
  {
    var q4, q100, q400 := y / 4, y / 100, y / 400;
    assert (y + 4) / 4 == q4 + 1;
    assert (y + 3) / 4 == if y % 4 == 0 then q4 else q4 + 1;
    assert (y + 100) / 100 == q100 + 1;
    assert (y + 99) / 100 == if y % 100 == 0 then q100 else q100 + 1;
    assert (y + 400) / 400 == q400 + 1;
    assert (y + 399) / 400 == if y % 400 == 0 then q400 else q400 + 1;
    if y % 400 == 0 {
      assert y == 100 * (4 * q400);
      assert y / 100 == 4 * q400;
    }
    if y % 100 == 0 {
      assert y == 4 * (25 * q100);
      assert y / 4 == 25 * q100;
    }
  }

  lemma {:induction false} DaysBeforeYearGrows(y1: int, y2: int)
    requires y1 < y2
    ensures DaysBeforeYear(y1) + YearLength(y1) <= DaysBeforeYear(y2)
    decreases y2 - y1
  {
    NextYear(y1);
    if y1 + 1 < y2 {
      DaysBeforeYearGrows(y1 + 1, y2);
    }
  }

  lemma DaysBeforeMonthGrows(y: int, m1: int, m2: int)
    requires 1 <= m1 < m2 <= 13
    ensures DaysBeforeMonth(y, m1) + MonthLength(y, m1) <= DaysBeforeMonth(y, m2)
  {
  }

  /** The field-by-field order of LocalDate and the order of epoch days agree. */
  lemma EpochDayIncreasing(a: LocalDate, b: LocalDate)
    requires NotAfter(a, b) && a != b
    ensures EpochDay(a) < EpochDay(b)
  {
    if a.year < b.year {
      DaysBeforeMonthGrows(a.year, a.month, 13);
      DaysBeforeYearGrows(a.year, b.year);
    } else if a.month < b.month {
      DaysBeforeMonthGrows(a.year, a.month, b.month);
    }
  }
}
