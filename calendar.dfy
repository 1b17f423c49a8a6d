/** Calendar arithmetic behind the report: proleptic Gregorian months and
    dates, PHP's relative month shift, and the window of epoch seconds a
    month covers (naive UTC: one fixed offset, no daylight saving). */
module Calendar {

  /** A month number, 1 (January) through 12 (December). */
  type MonthNumber = m: int | 1 <= m <= 12 witness 1

  /** A calendar month: the day-insensitive key of a report row. */
  datatype YearMonth = YearMonth(year: int, month: MonthNumber)

  predicate IsLeapYear(y: int) {
    (y % 4 == 0 && y % 100 != 0) || y % 400 == 0
  }

  /** Number of days in the month: what the 't' date format prints. */
  function DaysInMonth(ym: YearMonth): (n: int)
    ensures 28 <= n <= 31
    ensures n == 29 <==> ym.month == 2 && IsLeapYear(ym.year)
  {
    if ym.month == 2 then (if IsLeapYear(ym.year) then 29 else 28)
    else if ym.month == 4 || ym.month == 6 || ym.month == 9 || ym.month == 11 then 30
    else 31
  }

  /** Months counted from January of year 0. */
  function MonthIndex(ym: YearMonth): int {
    ym.year * 12 + ym.month - 1
  }

  function FromMonthIndex(i: int): (ym: YearMonth)
    ensures MonthIndex(ym) == i
  {
    YearMonth(i / 12, i % 12 + 1)
  }

  lemma MonthIndexInjective(a: YearMonth, b: YearMonth)
    requires MonthIndex(a) == MonthIndex(b)
    ensures a == b
  {
  }

  /** The month after `ym`; December is followed by January of the next year. */
  function NextMonth(ym: YearMonth): (n: YearMonth)
    ensures MonthIndex(n) == MonthIndex(ym) + 1
  {
    if ym.month == 12 then YearMonth(ym.year + 1, 1) else YearMonth(ym.year, ym.month + 1)
  }

  /** A calendar date at midnight, as a DateTime built from a 'Y-m-d' string holds it. */
  datatype Date = Date(year: int, month: MonthNumber, day: int)

  function MonthOf(d: Date): YearMonth {
    YearMonth(d.year, d.month)
  }

  predicate ValidDate(d: Date) {
    1 <= d.day <= DaysInMonth(MonthOf(d))
  }

  /** 'first day of' the month. */
  function FirstDay(ym: YearMonth): (d: Date)
    ensures ValidDate(d) && MonthOf(d) == ym && d.day == 1
  {
    Date(ym.year, ym.month, 1)
  }

  /** The date the 'Y-m-t' format names: the last day of the month. */
  function LastDay(ym: YearMonth): (d: Date)
    ensures ValidDate(d) && MonthOf(d) == ym
    ensures forall e: Date :: ValidDate(e) && MonthOf(e) == ym ==> e.day <= d.day
  {
    Date(ym.year, ym.month, DaysInMonth(ym))
  }

  /** Strict chronological order of two dates (both at midnight). */
  predicate Before(a: Date, b: Date) {
    MonthIndex(MonthOf(a)) < MonthIndex(MonthOf(b))
    || (MonthOf(a) == MonthOf(b) && a.day < b.day)
  }

  /** PHP's relative shift by `n` months ('+1 month', '-11 months'): the
      month moves by `n` and the day is kept; a day past the end of the
      target month rolls over into the month after it. */
  function AddMonths(d: Date, n: int): (r: Date)
    requires ValidDate(d)
    ensures ValidDate(r)
    ensures MonthIndex(MonthOf(r)) == MonthIndex(MonthOf(d)) + n
            || (MonthIndex(MonthOf(r)) == MonthIndex(MonthOf(d)) + n + 1 && r.day <= 3)
    ensures d.day <= 28 ==> MonthIndex(MonthOf(r)) == MonthIndex(MonthOf(d)) + n && r.day == d.day
    ensures var t := FromMonthIndex(MonthIndex(MonthOf(d)) + n);
            if d.day <= DaysInMonth(t) then MonthOf(r) == t && r.day == d.day
            else MonthOf(r) == NextMonth(t) && r.day == d.day - DaysInMonth(t)
  {
    var target := FromMonthIndex(MonthIndex(MonthOf(d)) + n);
    if d.day <= DaysInMonth(target) then
      Date(target.year, target.month, d.day)
    else
      var next := NextMonth(target);
      Date(next.year, next.month, d.day - DaysInMonth(target))
  }

  const SecondsPerDay := 86400

  function DaysInYear(y: int): int {
    if IsLeapYear(y) then 366 else 365
  }

  /** Days from 1970-01-01 to January 1 of year `y` (negative before 1970). */
  function DaysBeforeYear(y: int): int
    decreases if y < 1970 then 1970 - y else y - 1970
  {
    if y == 1970 then 0
    else if y > 1970 then DaysBeforeYear(y - 1) + DaysInYear(y - 1)
    else DaysBeforeYear(y + 1) - DaysInYear(y)
  }

  lemma DaysBeforeNextYear(y: int)
    ensures DaysBeforeYear(y + 1) == DaysBeforeYear(y) + DaysInYear(y)
  {
  }

  /** Days from January 1 to the first of the month, within its year. */
  function DaysBeforeMonth(ym: YearMonth): int {
    var cumulative := [0, 31, 59, 90, 120, 151, 181, 212, 243, 273, 304, 334];
    cumulative[ym.month - 1] + (if ym.month > 2 && IsLeapYear(ym.year) then 1 else 0)
  }

  /** Days from 1970-01-01 to the date. */
  function EpochDay(d: Date): int {
    DaysBeforeYear(d.year) + DaysBeforeMonth(MonthOf(d)) + d.day - 1
  }

  /** Epoch seconds of the given time of day on date `d`. */
  function EpochSeconds(d: Date, hour: int, minute: int, second: int): int {
    EpochDay(d) * SecondsPerDay + hour * 3600 + minute * 60 + second
  }

  /** An inclusive range of epoch seconds [startTs, endTs]. */
  datatype Window = Window(startTs: int, endTs: int)

  predicate InWindow(t: int, w: Window) {
    w.startTs <= t <= w.endTs
  }

  /** The window of a month: from 'Y-m-01 00:00:00' to 'Y-m-t 23:59:59'. */
  function MonthWindow(ym: YearMonth): (w: Window)
    ensures w.startTs <= w.endTs
    ensures w.endTs - w.startTs + 1 == DaysInMonth(ym) * SecondsPerDay
  {
    Window(EpochSeconds(FirstDay(ym), 0, 0, 0), EpochSeconds(LastDay(ym), 23, 59, 59))
  }

  /** The first second of 1970-01-01 is epoch 0. */
  lemma EpochOrigin()
    ensures MonthWindow(YearMonth(1970, 1)).startTs == 0
  {
  }

  /** Consecutive months' windows touch: the next month begins one second
      after this month's last second, also from December to January. */
  lemma MonthWindowsAdjacent(ym: YearMonth)
    ensures MonthWindow(NextMonth(ym)).startTs == MonthWindow(ym).endTs + 1
  {
    if ym.month == 12 {
      DaysBeforeNextYear(ym.year);
    }
  }

  /** An earlier month's window ends before a later month's window starts. */
  lemma {:induction false} MonthWindowsOrdered(a: YearMonth, b: YearMonth)
    requires MonthIndex(a) < MonthIndex(b)
    ensures MonthWindow(a).endTs < MonthWindow(b).startTs
    decreases MonthIndex(b) - MonthIndex(a)
  {
    MonthWindowsAdjacent(a);
    if MonthIndex(b) == MonthIndex(a) + 1 {
      MonthIndexInjective(NextMonth(a), b);
    } else {
      MonthWindowsOrdered(NextMonth(a), b);
    }
  }

  /** Month windows never overlap: an instant lies in at most one of them. */
  lemma InstantInOneMonth(t: int, a: YearMonth, b: YearMonth)
    requires InWindow(t, MonthWindow(a)) && InWindow(t, MonthWindow(b))
    ensures a == b
  {
    if MonthIndex(a) < MonthIndex(b) {
      MonthWindowsOrdered(a, b);
    } else if MonthIndex(b) < MonthIndex(a) {
      MonthWindowsOrdered(b, a);
    } else {
      MonthIndexInjective(a, b);
    }
  }

  /** Epoch 0 lies in the window of January 1970 and of no other month. */
  lemma EpochZeroOnlyInJanuary1970(ym: YearMonth)
    ensures InWindow(0, MonthWindow(ym)) <==> ym == YearMonth(1970, 1)
  {
    EpochOrigin();
    if InWindow(0, MonthWindow(ym)) {
      InstantInOneMonth(0, ym, YearMonth(1970, 1));
    }
  }
}
