/** The proleptic Gregorian calendar of java.time: local dates, offset
  * date-times with nanosecond time of day, the instant order that
  * `OffsetDateTime.isAfter`/`isBefore` use, and the month component of
  * `Period.between`. */
module Calendar {
  import opened Rounding

  datatype Date = Date(year: int, month: int, day: int)

  predicate IsLeapYear(year: int)
  {
    year % 4 == 0 && (year % 100 != 0 || year % 400 == 0)
  }

  function DaysInMonth(year: int, month: int): (n: int)
    requires 1 <= month <= 12
    ensures 28 <= n <= 31
    ensures n == 29 <==> month == 2 && IsLeapYear(year)
    ensures n == 28 <==> month == 2 && !IsLeapYear(year)
  {
    if month == 2 then (if IsLeapYear(year) then 29 else 28)
    else if month == 4 || month == 6 || month == 9 || month == 11 then 30
    else 31
  }

  predicate ValidDate(d: Date)
  {
    1 <= d.month <= 12 && 1 <= d.day <= DaysInMonth(d.year, d.month)
  }

  const NanosPerSecond: int := 1_000_000_000
  const NanosPerDay: int := 86_400 * NanosPerSecond
  /** `LocalTime.MIN` and `LocalTime.MAX` as nanoseconds of the day. */
  const StartOfDay: int := 0
  const EndOfDay: int := NanosPerDay - 1
  /** `ZoneOffset.UTC` and the widest offset java.time admits, in seconds. */
  const Utc: int := 0
  const MaxOffsetSeconds: int := 18 * 3600

  /** An `OffsetDateTime`: local date, nanosecond of the day, offset from UTC. */
  datatype DateTime = DateTime(date: Date, nanoOfDay: int, offsetSeconds: int)

  predicate ValidDateTime(t: DateTime)
  {
    ValidDate(t.date) && 0 <= t.nanoOfDay < NanosPerDay
    && -MaxOffsetSeconds <= t.offsetSeconds <= MaxOffsetSeconds
  }

  // ---- day numbering -------------------------------------------------------

  /** Days from 0001-01-01 to the first day of `year`. */
  function DaysBeforeYear(year: int): int
  {
    var y := year - 1;
    365 * y + y / 4 - y / 100 + y / 400
  }

  /** Days from the first of January to the first of `month`. */
  function DaysBeforeMonth(year: int, month: int): int
    requires 1 <= month <= 12
  {
    var common :=
      if month == 1 then 0 else if month == 2 then 31 else if month == 3 then 59
      else if month == 4 then 90 else if month == 5 then 120 else if month == 6 then 151
      else if month == 7 then 181 else if month == 8 then 212 else if month == 9 then 243
      else if month == 10 then 273 else if month == 11 then 304 else 334;
    if month > 2 && IsLeapYear(year) then common + 1 else common
  }

  function EpochDay(d: Date): int
    requires 1 <= d.month <= 12
  {
    DaysBeforeYear(d.year) + DaysBeforeMonth(d.year, d.month) + d.day - 1
  }

  /** The instant of `t` on a nanosecond time line (origin irrelevant). */
  function InstantNanos(t: DateTime): int
    requires 1 <= t.date.month <= 12
  {
    EpochDay(t.date) * NanosPerDay + t.nanoOfDay - t.offsetSeconds * NanosPerSecond
  }

  predicate IsAfter(a: DateTime, b: DateTime)
    requires 1 <= a.date.month <= 12 && 1 <= b.date.month <= 12
  {
    InstantNanos(a) > InstantNanos(b)
  }

  predicate IsBefore(a: DateTime, b: DateTime)
    requires 1 <= a.date.month <= 12 && 1 <= b.date.month <= 12
  {
    InstantNanos(a) < InstantNanos(b)
  }

  // ---- date arithmetic -----------------------------------------------------

  /** `LocalDate.plusDays(1)`. */
  function NextDay(d: Date): (r: Date)
    requires ValidDate(d)
    ensures ValidDate(r)
  {
    if d.day < DaysInMonth(d.year, d.month) then Date(d.year, d.month, d.day + 1)
    else if d.month < 12 then Date(d.year, d.month + 1, 1)
    else Date(d.year + 1, 1, 1)
  }

  /** `LocalDate.minusDays(1)`. */
  function PreviousDay(d: Date): (r: Date)
    requires ValidDate(d)
    ensures ValidDate(r)
    ensures NextDay(r) == d
  {
    if d.day > 1 then Date(d.year, d.month, d.day - 1)
    else if d.month > 1 then Date(d.year, d.month - 1, DaysInMonth(d.year, d.month - 1))
    else Date(d.year - 1, 12, 31)
  }

  /** `LocalDate.plusMonths(k)`: the day is clamped to the length of the new month. */
  function PlusMonths(d: Date, k: int): (r: Date)
    requires ValidDate(d)
    ensures ValidDate(r)
    ensures r.year * 12 + r.month == d.year * 12 + d.month + k
    ensures r.day == if d.day <= DaysInMonth(r.year, r.month) then d.day else DaysInMonth(r.year, r.month)
  {
    var count := d.year * 12 + (d.month - 1) + k;
    var y := count / 12;
    var m := count % 12 + 1;
    Date(y, m, if d.day <= DaysInMonth(y, m) then d.day else DaysInMonth(y, m))
  }

  /** `LocalDate.minusYears(k)`: the 29th of February of a leap year falls back to the 28th. */
  function MinusYears(d: Date, k: int): (r: Date)
    requires ValidDate(d)
    ensures ValidDate(r)
    ensures r.year == d.year - k && r.month == d.month
    ensures r.day == d.day || (d.month == 2 && d.day == 29 && r.day == 28 && !IsLeapYear(r.year))
  {
    var y := d.year - k;
    Date(y, d.month, if d.day <= DaysInMonth(y, d.month) then d.day else DaysInMonth(y, d.month))
  }

  // ---- Period.between(...).getMonths() -------------------------------------

  function ProlepticMonth(d: Date): int
  {
    d.year * 12 + d.month - 1
  }

  /** The months component of `Period.between(start, end)`: the whole months
    * between the dates, a last incomplete month dropped, and the years
    * component removed with Java's truncating remainder. */
  function PeriodMonths(start: Date, end: Date): (m: int)
    ensures -11 <= m <= 11
  {
    var total := ProlepticMonth(end) - ProlepticMonth(start);
    var days := end.day - start.day;
    var whole :=
      if total > 0 && days < 0 then total - 1
      else if total < 0 && days > 0 then total + 1
      else total;
    TruncRem(whole, 12)
  }

  // ---- lemmas ----------------------------------------------------------------

  /** A year has 366 days exactly when it is a leap year. */
  lemma YearLength(year: int)
    ensures DaysBeforeYear(year + 1) - DaysBeforeYear(year)
            == if IsLeapYear(year) then 366 else 365
  {
    DivisionStep(year, 4);
    DivisionStep(year, 100);
    DivisionStep(year, 400);
    if year % 100 == 0 {
      DivisorsOfHundred(year);
    }
    if year % 400 == 0 {
      DivisorsOfFourHundred(year);
    }
  }

  /** Stepping from a - 1 to a adds one to the quotient exactly at multiples. */
  lemma DivisionStep(a: int, k: int)
    requires k == 4 || k == 100 || k == 400
    ensures a / k - (a - 1) / k == if a % k == 0 then 1 else 0
  {
    if k == 4 {
      var q, r := a / 4, a % 4;
      assert (a - 1) / 4 == if r == 0 then q - 1 else q;
    } else if k == 100 {
      var q, r := a / 100, a % 100;
      assert (a - 1) / 100 == if r == 0 then q - 1 else q;
    } else {
      var q, r := a / 400, a % 400;
      assert (a - 1) / 400 == if r == 0 then q - 1 else q;
    }
  }

  lemma DivisorsOfHundred(a: int)
    requires a % 100 == 0
    ensures a % 4 == 0
  {
    var q := a / 100;
    assert a == 4 * (25 * q);
  }

  lemma DivisorsOfFourHundred(a: int)
    requires a % 400 == 0
    ensures a % 100 == 0
  {
    var q := a / 400;
    assert a == 100 * (4 * q);
  }

  /** `EpochDay` counts consecutive days: the next day is one later. */
  lemma {:induction false} NextDayIsOneDayLater(d: Date)
    requires ValidDate(d)
    ensures EpochDay(NextDay(d)) == EpochDay(d) + 1
  {
    if d.day == DaysInMonth(d.year, d.month) && d.month == 12 {
      YearLength(d.year);
    }
  }

  /** Within one year, a later month starts after every day of an earlier month. */
  lemma LaterMonthLaterDay(a: Date, b: Date)
    requires ValidDate(a) && ValidDate(b) && a.year == b.year
    requires a.month < b.month || (a.month == b.month && a.day < b.day)
    ensures EpochDay(a) < EpochDay(b)
  {
  }

  /** From a date to the 31st of December of the same or a later year, the
    * months component counts the months left in the start year. */
  lemma PeriodMonthsToYearEnd(start: Date, year: int)
    requires ValidDate(start) && start.year <= year
    ensures PeriodMonths(start, Date(year, 12, 31)) == 12 - start.month
  {
    var k := year - start.year;
    var total := ProlepticMonth(Date(year, 12, 31)) - ProlepticMonth(start);
    assert total == 12 * k + (12 - start.month);
    var q := total / 12;
    assert 12 * q + total % 12 == 12 * k + (12 - start.month);
    assert q == k;
    assert TruncDiv(total, 12) == k;
  }

  /** For dates of one year whose day-of-month does not go back, the month
    * component of the period is the plain difference of the month numbers. */
  lemma PeriodMonthsWithinYear(start: Date, end: Date)
    requires start.year == end.year && 1 <= start.month <= end.month <= 12
    requires start.day <= end.day
    ensures PeriodMonths(start, end) == end.month - start.month
  {
  }

}
