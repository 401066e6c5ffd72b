/** The date snapping helpers (`DateUtils`) shared by the income and
  * calculator services: the first instant of a month or year, the last
  * instant of a month or year, and the end of the previous day. */
module DateUtils {
  import opened Calendar

  /** The first day of the month of `t`, at `LocalTime.MIN`, in the offset of `t`. */
  function MinFirstDayOfMonth(t: DateTime): (r: DateTime)
    requires ValidDateTime(t)
    ensures ValidDateTime(r)
    ensures r.date.year == t.date.year && r.date.month == t.date.month && r.date.day == 1
    ensures r.nanoOfDay == StartOfDay && r.offsetSeconds == t.offsetSeconds
  {
    DateTime(Date(t.date.year, t.date.month, 1), StartOfDay, t.offsetSeconds)
  }

  /** As `MinFirstDayOfMonth`, for a local date placed in UTC. */
  function MinFirstDayOfMonthFromDate(d: Date): (r: DateTime)
    requires ValidDate(d)
    ensures ValidDateTime(r)
    ensures r == MinFirstDayOfMonth(DateTime(d, StartOfDay, Utc))
  {
    DateTime(Date(d.year, d.month, 1), StartOfDay, Utc)
  }

  function MinFirstDayOfYear(t: DateTime): (r: DateTime)
    requires ValidDateTime(t)
    ensures ValidDateTime(r)
    ensures r.date == Date(t.date.year, 1, 1) && r.nanoOfDay == StartOfDay && r.offsetSeconds == t.offsetSeconds
  {
    DateTime(Date(t.date.year, 1, 1), StartOfDay, t.offsetSeconds)
  }

  /** The last day of the month of `t`, at `LocalTime.MAX`, in the offset of `t`. */
  function MaxLastDayOfMonth(t: DateTime): (r: DateTime)
    requires ValidDateTime(t)
    ensures ValidDateTime(r)
    ensures r.date.year == t.date.year && r.date.month == t.date.month
    ensures r.date.day == DaysInMonth(t.date.year, t.date.month) && NextDay(r.date).day == 1
    ensures r.nanoOfDay == EndOfDay && r.offsetSeconds == t.offsetSeconds
  {
    DateTime(Date(t.date.year, t.date.month, DaysInMonth(t.date.year, t.date.month)), EndOfDay, t.offsetSeconds)
  }

  /** As `MaxLastDayOfMonth`, for a local date placed in UTC. */
  function MaxLastDayOfMonthFromDate(d: Date): (r: DateTime)
    requires ValidDate(d)
    ensures ValidDateTime(r)
    ensures r == MaxLastDayOfMonth(DateTime(d, StartOfDay, Utc))
  {
    DateTime(Date(d.year, d.month, DaysInMonth(d.year, d.month)), EndOfDay, Utc)
  }

  function MaxLastDayOfYear(t: DateTime): (r: DateTime)
    requires ValidDateTime(t)
    ensures ValidDateTime(r)
    ensures r.date == Date(t.date.year, 12, 31) && r.nanoOfDay == EndOfDay && r.offsetSeconds == t.offsetSeconds
  {
    DateTime(Date(t.date.year, 12, 31), EndOfDay, t.offsetSeconds)
  }

  /** The last instant (`LocalTime.MAX`) of the day before `t`, in the offset of `t`. */
  function JustBefore(t: DateTime): (r: DateTime)
    requires ValidDateTime(t)
    ensures ValidDateTime(r)
    ensures NextDay(r.date) == t.date && r.nanoOfDay == EndOfDay && r.offsetSeconds == t.offsetSeconds
  {
    DateTime(PreviousDay(t.date), EndOfDay, t.offsetSeconds)
  }

  /** `with(TemporalAdjusters.lastDayOfYear())`: the 31st of December of the
    * same year, time of day and offset kept. */
  function WithLastDayOfYear(t: DateTime): (r: DateTime)
    requires ValidDateTime(t)
    ensures ValidDateTime(r)
    ensures r.date == Date(t.date.year, 12, 31) && r.nanoOfDay == t.nanoOfDay && r.offsetSeconds == t.offsetSeconds
  {
    DateTime(Date(t.date.year, 12, 31), t.nanoOfDay, t.offsetSeconds)
  }

  /** `withDayOfYear(1)`: the 1st of January of the same year, time of day and offset kept. */
  function WithFirstDayOfYear(t: DateTime): (r: DateTime)
    requires ValidDateTime(t)
    ensures ValidDateTime(r)
    ensures r.date == Date(t.date.year, 1, 1) && r.nanoOfDay == t.nanoOfDay && r.offsetSeconds == t.offsetSeconds
  {
    DateTime(Date(t.date.year, 1, 1), t.nanoOfDay, t.offsetSeconds)
  }

  // ---- properties ------------------------------------------------------------

  /** Every instant lies between the first and the last instant of its month,
    * and both ends stay in the same year, month and offset. */
  lemma MonthBracket(t: DateTime)
    requires ValidDateTime(t)
    ensures !IsAfter(MinFirstDayOfMonth(t), t) && !IsAfter(t, MaxLastDayOfMonth(t))
    ensures MinFirstDayOfMonth(t).date.month == t.date.month == MaxLastDayOfMonth(t).date.month
    ensures MinFirstDayOfMonth(t).date.year == t.date.year == MaxLastDayOfMonth(t).date.year
  {
  }

  /** Every instant lies between the first and the last instant of its year. */
  lemma YearBracket(t: DateTime)
    requires ValidDateTime(t)
    ensures !IsAfter(MinFirstDayOfYear(t), t) && !IsAfter(t, MaxLastDayOfYear(t))
  {
    YearStartsBefore(t);
    YearEndsAfter(t);
  }

  lemma YearStartsBefore(t: DateTime)
    requires ValidDateTime(t)
    ensures EpochDay(Date(t.date.year, 1, 1)) <= EpochDay(t.date)
  {
    if t.date != Date(t.date.year, 1, 1) {
      LaterMonthLaterDay(Date(t.date.year, 1, 1), t.date);
    }
  }

  lemma YearEndsAfter(t: DateTime)
    requires ValidDateTime(t)
    ensures EpochDay(t.date) <= EpochDay(Date(t.date.year, 12, 31))
  {
    if t.date != Date(t.date.year, 12, 31) {
      LaterMonthLaterDay(t.date, Date(t.date.year, 12, 31));
    }
  }

  /** The last day of the month is the day whose next day opens another month. */
  lemma LastDayOfMonthIsLast(t: DateTime)
    requires ValidDateTime(t)
    ensures var next := NextDay(MaxLastDayOfMonth(t).date);
      next.day == 1 && next != t.date && ProlepticMonth(next) == ProlepticMonth(t.date) + 1
  {
  }

  /** Snapping to a month boundary is idempotent, and either boundary of a
    * month snaps to the same two boundaries. */
  lemma SnapIdempotent(t: DateTime)
    requires ValidDateTime(t)
    ensures MinFirstDayOfMonth(MinFirstDayOfMonth(t)) == MinFirstDayOfMonth(t)
    ensures MaxLastDayOfMonth(MaxLastDayOfMonth(t)) == MaxLastDayOfMonth(t)
    ensures MinFirstDayOfMonth(MaxLastDayOfMonth(t)) == MinFirstDayOfMonth(t)
    ensures MaxLastDayOfMonth(MinFirstDayOfMonth(t)) == MaxLastDayOfMonth(t)
  {
  }

  /** `JustBefore(t)` is exactly one nanosecond before the start of the day of `t`. */
  lemma JustBeforeIsEndOfPreviousDay(t: DateTime)
    requires ValidDateTime(t)
    ensures InstantNanos(JustBefore(t)) == InstantNanos(DateTime(t.date, StartOfDay, t.offsetSeconds)) - 1
    ensures NextDay(JustBefore(t).date) == t.date
  {
    NextDayIsOneDayLater(PreviousDay(t.date));
  }

}
