/** Calendar dates as the handlers use them: a local date-time broken into year,
    month (1-12, as MongoDB's `$month` reports it), day of month and the
    milliseconds since midnight. JavaScript's `getMonth()` is this month minus one. */
module Calendar {

  type Month = m: int | 1 <= m <= 12 witness 1
  type MonthDay = d: int | 1 <= d <= 31 witness 1
  type DayMillis = t: int | 0 <= t < 86400000 witness 0

  datatype Date = Date(year: int, month: Month, day: MonthDay, millis: DayMillis)

  /** `a < b` on two dates: lexicographic on (year, month, day, millis). */
  predicate Before(a: Date, b: Date)
  {
    a.year < b.year
    || (a.year == b.year && a.month < b.month)
    || (a.year == b.year && a.month == b.month && a.day < b.day)
    || (a.year == b.year && a.month == b.month && a.day == b.day && a.millis < b.millis)
  }

  predicate AtOrBefore(a: Date, b: Date)
  {
    !Before(b, a)
  }

  /** `date.getMonth()`: the zero-based month. */
  function MonthZero(d: Date): int
  {
    d.month - 1
  }

  /** `new Date(year, month0, 1)` for a zero-based month in 0..12, where 12 rolls
      over to January of the next year, exactly as the JavaScript constructor does. */
  function FirstOfMonthZero(year: int, month0: int): (r: Date)
    requires 0 <= month0 <= 12
    ensures r.day == 1 && r.millis == 0
    ensures month0 < 12 ==> r.year == year && r.month == month0 + 1
    ensures month0 == 12 ==> r.year == year + 1 && r.month == 1
  {
    if month0 == 12 then Date(year + 1, 1, 1, 0) else Date(year, month0 + 1, 1, 0)
  }

  /** `new Date(d.getFullYear(), d.getMonth(), 1)` */
  function StartOfMonth(d: Date): Date
  {
    FirstOfMonthZero(d.year, MonthZero(d))
  }

  /** `new Date(d.getFullYear(), d.getMonth() + 1, 1)` */
  function StartOfNextMonth(d: Date): Date
  {
    FirstOfMonthZero(d.year, MonthZero(d) + 1)
  }

  /** The number of whole months since the year 0: consecutive months differ by one. */
  function MonthIndex(d: Date): int
  {
    12 * d.year + d.month
  }

  /** Midnight at the start of the day of `d`. */
  function DayOf(d: Date): (r: Date)
    ensures AtOrBefore(r, d) && r.year == d.year && r.month == d.month && r.day == d.day
  {
    Date(d.year, d.month, d.day, 0)
  }

  /** `start <= x < next`, the month window the billing and export pipelines match on. */
  predicate InWindow(x: Date, start: Date, next: Date)
  {
    AtOrBefore(start, x) && Before(x, next)
  }

  /** The window is never empty: the start of a month comes before the start of the next one. */
  lemma StartBeforeNext(d: Date)
    ensures Before(StartOfMonth(d), StartOfNextMonth(d))
    ensures MonthIndex(StartOfNextMonth(d)) == MonthIndex(StartOfMonth(d)) + 1
    ensures StartOfMonth(d).year == d.year && StartOfMonth(d).month == d.month
  {
  }

  /** A date lies in the window of `d`'s month exactly when it has the same year and month. */
  lemma WindowIsCalendarMonth(d: Date, x: Date)
    ensures InWindow(x, StartOfMonth(d), StartOfNextMonth(d)) <==> (x.year == d.year && x.month == d.month)
  {
  }

  /** Being before the start of the next month means belonging to this month or an earlier one. */
  lemma BeforeNextMonth(d: Date, x: Date)
    ensures Before(x, StartOfNextMonth(d)) <==> MonthIndex(x) <= MonthIndex(d)
  {
  }

  lemma BeforeTransitive(a: Date, b: Date, c: Date)
    requires Before(a, b) && Before(b, c)
    ensures Before(a, c)
  {
  }

  lemma AtOrBeforeTotal(a: Date, b: Date)
    ensures AtOrBefore(a, b) || AtOrBefore(b, a)
  {
  }
}
