/**
 * Calendar dates in the proleptic Gregorian calendar that JavaScript's `Date` uses.
 * A date is a year and a 0-based day of that year; its day number counts days
 * since 1970-01-01, the epoch of `Date`.
 */
module Calendar {

  predicate IsLeap(year: int) {
    year % 4 == 0 && (year % 100 != 0 || year % 400 == 0)
  }

  function DaysInYear(year: int): nat {
    if IsLeap(year) then 366 else 365
  }

  /** `dayOfYear` is 0 on January 1st. */
  datatype Date = Date(year: int, dayOfYear: nat)

  predicate ValidDate(d: Date) {
    d.dayOfYear < DaysInYear(d.year)
  }

  /** Number of leap years among the years 1 .. n (extended to all n by floor division). */
  function LeapsThrough(n: int): int {
    n / 4 - n / 100 + n / 400
  }

  /** Day number of January 1st of `year`. */
  function DaysBeforeYear(year: int): int {
    365 * (year - 1970) + LeapsThrough(year - 1) - LeapsThrough(1969)
  }

  function DayNumber(d: Date): int {
    DaysBeforeYear(d.year) + d.dayOfYear
  }

  /** Day of the week of a day number, as `Date.getDay` gives it: 0 is Sunday. 1970-01-01 was a Thursday. */
  function Weekday(day: int): (w: nat)
    ensures w < 7
    ensures (day - w) % 7 == 3
  {
    (day + 4) % 7
  }

  /** `startOfYear.getDay()`. */
  function Jan1Weekday(year: int): (w: nat)
    ensures w < 7
  {
    Weekday(DaysBeforeYear(year))
  }

  /** Floor division by a positive constant steps by one exactly at its multiples. */
  lemma LeapStep(n: int)
    ensures n / 4 - (n - 1) / 4 == (if n % 4 == 0 then 1 else 0)
    ensures n / 100 - (n - 1) / 100 == (if n % 100 == 0 then 1 else 0)
    ensures n / 400 - (n - 1) / 400 == (if n % 400 == 0 then 1 else 0)
  {
  }

  /** Consecutive years' first days are a year's length apart. */
  lemma YearLength(year: int)
    ensures DaysBeforeYear(year + 1) == DaysBeforeYear(year) + DaysInYear(year)
  {
    LeapStep(year);
    assert LeapsThrough(year) - LeapsThrough(year - 1)
        == (year / 4 - (year - 1) / 4) - (year / 100 - (year - 1) / 100) + (year / 400 - (year - 1) / 400);
    if year % 400 == 0 {
      var k := year / 400;
      assert year == 100 * (4 * k) && year == 4 * (100 * k);
    } else if year % 100 == 0 {
      var k := year / 100;
      assert year == 4 * (25 * k);
    }
  }

  /** The last day of a year is followed by January 1st of the next year. */
  lemma NewYear(year: int)
    ensures DayNumber(Date(year + 1, 0)) == DayNumber(Date(year, DaysInYear(year) - 1)) + 1
  {
    YearLength(year);
  }

  /** Within the valid dates, day numbers follow calendar order, also across years. */
  lemma {:induction false} DayNumberOrder(a: Date, b: Date)
    requires ValidDate(a) && ValidDate(b)
    requires a.year < b.year || (a.year == b.year && a.dayOfYear < b.dayOfYear)
    ensures DayNumber(a) < DayNumber(b)
    decreases b.year - a.year
  {
    if a.year < b.year {
      YearLength(a.year);
      if a.year + 1 < b.year {
        DayNumberOrder(Date(a.year + 1, 0), b);
      }
    }
  }

  /** January 1st moves one weekday on after a common year and two after a leap year. */
  lemma Jan1WeekdayNextYear(year: int)
    ensures Jan1Weekday(year + 1) == (Jan1Weekday(year) + (if IsLeap(year) then 2 else 1)) % 7
  {
    YearLength(year);
    var d := DaysBeforeYear(year);
    var e := if IsLeap(year) then 2 else 1;
    assert DaysBeforeYear(year + 1) + 4 == (d + 4) + 364 + e;
    WeeksLater(d + 4, e);
  }

  /** Moving on a whole number of weeks keeps the weekday. */
  lemma WeeksLater(a: int, e: int)
    ensures (a + 364 + e) % 7 == (a % 7 + e) % 7
  {
    var q, r := a / 7, a % 7;
    assert a == 7 * q + r;
    assert a + 364 + e == 7 * (q + 52) + (r + e);
  }

  /** January 1st, 2024 was a Monday. */
  lemma Jan1st2024()
    ensures DaysBeforeYear(2024) == 19723
    ensures Jan1Weekday(2024) == 1
  {
  }
}
