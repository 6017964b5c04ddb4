/**
 * Calendar dates without a time component (Sequelize's DATEONLY), the
 * Gregorian leap-year rule, and the "YYYY-MM" month range that the expense
 * listing turns into an inclusive date interval.
 */
module Calendar {

  /** A month number as JavaScript's `new Date(y, m - 1, 1)` is given it for a well-formed "YYYY-MM" token. */
  type Month = m: int | 1 <= m <= 12 witness 1

  datatype Date = Date(year: int, month: int, day: int)

  datatype YearMonth = YearMonth(year: int, month: Month)

  /**
   * Gregorian rule. Only whether a remainder is zero matters, so Dafny's
   * Euclidean `%` agrees with JavaScript's truncating `%` here.
   */
  predicate IsLeapYear(y: int) {
    y % 4 == 0 && (y % 100 != 0 || y % 400 == 0)
  }

  function DaysInMonth(y: int, m: Month): (n: int)
    ensures 28 <= n <= 31
    ensures n == 29 <==> m == 2 && IsLeapYear(y)
    ensures n == 28 <==> m == 2 && !IsLeapYear(y)
    ensures n == 30 <==> m in {4, 6, 9, 11}
  {
    if m == 2 then (if IsLeapYear(y) then 29 else 28)
    else if m in {4, 6, 9, 11} then 30
    else 31
  }

  /** A real calendar day. */
  predicate ValidDate(d: Date) {
    1 <= d.month <= 12 && 1 <= d.day <= DaysInMonth(d.year, d.month)
  }

  /** Chronological order on dates: year, then month, then day. */
  predicate Before(a: Date, b: Date) {
    a.year < b.year
    || (a.year == b.year && a.month < b.month)
    || (a.year == b.year && a.month == b.month && a.day < b.day)
  }

  predicate NotAfter(a: Date, b: Date) {
    a == b || Before(a, b)
  }

  /** The day after `d`, rolling over month and year ends. */
  function NextDay(d: Date): (r: Date)
    requires ValidDate(d)
    ensures ValidDate(r) && Before(d, r)
  {
    if d.day < DaysInMonth(d.year, d.month) then Date(d.year, d.month, d.day + 1)
    else if d.month < 12 then Date(d.year, d.month + 1, 1)
    else Date(d.year + 1, 1, 1)
  }

  function NextMonth(ym: YearMonth): (r: YearMonth)
  {
    if ym.month < 12 then YearMonth(ym.year, ym.month + 1) else YearMonth(ym.year + 1, 1)
  }

  /** `new Date(year, month - 1, 1)`: the first day of the month. */
  function FirstDay(ym: YearMonth): (d: Date)
    ensures ValidDate(d) && d.year == ym.year && d.month == ym.month && d.day == 1
  {
    Date(ym.year, ym.month, 1)
  }

  /**
   * `new Date(year, month, 0)`: day 0 of the following month, which
   * JavaScript normalises to the last day of `ym`.
   */
  function LastDay(ym: YearMonth): (d: Date)
    ensures ValidDate(d) && d.year == ym.year && d.month == ym.month
  {
    Date(ym.year, ym.month, DaysInMonth(ym.year, ym.month))
  }

  /** The inclusive interval [first day, last day] used as `Op.between`. */
  predicate InMonthRange(d: Date, ym: YearMonth) {
    NotAfter(FirstDay(ym), d) && NotAfter(d, LastDay(ym))
  }

  /** The last day of a month is exactly the day before the first of the next one (the day-0 rule). */
  lemma LastDayPrecedesNextMonth(ym: YearMonth)
    ensures NextDay(LastDay(ym)) == FirstDay(NextMonth(ym))
  {
  }

  /** For a real date, lying in the month range is the same as having that year and month. */
  lemma MonthRangeExact(d: Date, ym: YearMonth)
    requires ValidDate(d)
    ensures InMonthRange(d, ym) <==> d.year == ym.year && d.month == ym.month
  {
  }

  /** "2024-02" keeps the leap day and drops the first of March; 2023 has no Feb 29. */
  lemma LeapFebruaryExample()
    ensures InMonthRange(Date(2024, 2, 29), YearMonth(2024, 2))
    ensures !InMonthRange(Date(2024, 3, 1), YearMonth(2024, 2))
    ensures LastDay(YearMonth(2023, 2)) == Date(2023, 2, 28)
    ensures LastDay(YearMonth(1900, 2)) == Date(1900, 2, 28)
    ensures LastDay(YearMonth(2000, 2)) == Date(2000, 2, 29)
  {
    assert IsLeapYear(2024) && !IsLeapYear(2023) && !IsLeapYear(1900) && IsLeapYear(2000);
  }
}
