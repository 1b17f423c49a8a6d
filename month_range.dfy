/** The month range builder: turns a start and an end date into the
    ascending list of months a report covers, and the default range the
    report pages fall back to. */
module MonthRange {
  import opened Calendar

  /** Every month from `first` through `last`, ascending; empty when `first`
      comes after `last`. The reference the builder is proved against. */
  function MonthSpan(first: YearMonth, last: YearMonth): seq<YearMonth> {
    var n := MonthIndex(last) - MonthIndex(first) + 1;
    if n <= 0 then [] else seq(n, k requires 0 <= k < n => FromMonthIndex(MonthIndex(first) + k))
  }

  lemma MonthSpanIndex(first: YearMonth, last: YearMonth)
    ensures |MonthSpan(first, last)|
            == if MonthIndex(last) < MonthIndex(first) then 0 else MonthIndex(last) - MonthIndex(first) + 1
    ensures forall k :: 0 <= k < |MonthSpan(first, last)| ==>
              MonthIndex(MonthSpan(first, last)[k]) == MonthIndex(first) + k
  {
    var r := MonthSpan(first, last);
    forall k | 0 <= k < |r|
      ensures MonthIndex(r[k]) == MonthIndex(first) + k
    {
      assert r[k] == FromMonthIndex(MonthIndex(first) + k);
    }
  }

  /** The exclusive bound of the builder: the end date moved to the first
      day of the following month. */
  function RangeBound(end: Date): (b: Date)
    ensures b.day == 1 && MonthIndex(MonthOf(b)) == MonthIndex(MonthOf(end)) + 1
  {
    FirstDay(NextMonth(MonthOf(end)))
  }

  /** The months the builder emits from `cursor`: the cursor's month while
      the cursor is before `bound`, then the cursor moves by PHP's '+1 month'. */
  function MonthsFrom(cursor: Date, bound: Date): (r: seq<YearMonth>)
    requires ValidDate(cursor)
    ensures r == [] <==> !Before(cursor, bound)
    ensures r != [] ==> r[0] == MonthOf(cursor)
    ensures forall k :: 0 <= k < |r| ==>
              MonthIndex(MonthOf(cursor)) + k <= MonthIndex(r[k]) <= MonthIndex(MonthOf(bound))
    decreases MonthIndex(MonthOf(bound)) - MonthIndex(MonthOf(cursor))
  {
    if Before(cursor, bound) then [MonthOf(cursor)] + MonthsFrom(AddMonths(cursor, 1), bound)
    else []
  }

  /** The builder as written: the cursor starts at the start date itself,
      whatever its day of month. */
  method GetMonthRangeAsWritten(start: Date, end: Date) returns (months: seq<YearMonth>)
    requires ValidDate(start)
    ensures months == MonthsFrom(start, RangeBound(end))
  {
    var bound := RangeBound(end);
    var cursor := start;
    months := [];
    while Before(cursor, bound)
      invariant ValidDate(cursor)
      invariant months + MonthsFrom(cursor, bound) == MonthsFrom(start, bound)
      decreases MonthIndex(MonthOf(bound)) - MonthIndex(MonthOf(cursor))
    {
      months := months + [MonthOf(cursor)];
      cursor := AddMonths(cursor, 1);
    }
  }

  /** The builder with the cursor first moved to the first day of the start
      month: exactly the months from the start's through the end's. */
  method GetMonthRange(start: Date, end: Date) returns (months: seq<YearMonth>)
    ensures months == MonthSpan(MonthOf(start), MonthOf(end))
  {
    var first := FirstDay(MonthOf(start));
    months := GetMonthRangeAsWritten(first, end);
    AsWrittenAgreesFromEarlyDays(first, end);
  }

  lemma MonthSpanCons(first: YearMonth, last: YearMonth)
    requires MonthIndex(first) <= MonthIndex(last)
    ensures MonthSpan(first, last) == [first] + MonthSpan(NextMonth(first), last)
  {
    var r := MonthSpan(first, last);
    var t := MonthSpan(NextMonth(first), last);
    MonthSpanIndex(first, last);
    MonthSpanIndex(NextMonth(first), last);
    MonthIndexInjective(r[0], first);
    assert |r| == |t| + 1;
    forall k | 0 <= k < |t|
      ensures r[k + 1] == t[k]
    {
      MonthIndexInjective(r[k + 1], t[k]);
    }
  }

  /** From a cursor on day 28 or earlier, '+1 month' never overflows, so
      the builder emits exactly the months up to the bound's. */
  lemma {:induction false} MonthsFromEarlyDay(cursor: Date, bound: Date)
    requires ValidDate(cursor) && cursor.day <= 28 && bound.day == 1
    ensures MonthsFrom(cursor, bound)
            == MonthSpan(MonthOf(cursor), FromMonthIndex(MonthIndex(MonthOf(bound)) - 1))
    decreases MonthIndex(MonthOf(bound)) - MonthIndex(MonthOf(cursor))
  {
    var last := FromMonthIndex(MonthIndex(MonthOf(bound)) - 1);
    if Before(cursor, bound) {
      var next := AddMonths(cursor, 1);
      MonthsFromEarlyDay(next, bound);
      MonthIndexInjective(MonthOf(next), NextMonth(MonthOf(cursor)));
      MonthSpanCons(MonthOf(cursor), last);
    }
  }

  /** The builder as written is right whenever the start day is 28 or less
      (in particular for the first of a month). */
  lemma AsWrittenAgreesFromEarlyDays(start: Date, end: Date)
    requires ValidDate(start) && start.day <= 28
    ensures MonthsFrom(start, RangeBound(end)) == MonthSpan(MonthOf(start), MonthOf(end))
  {
    MonthsFromEarlyDay(start, RangeBound(end));
    MonthIndexInjective(FromMonthIndex(MonthIndex(MonthOf(RangeBound(end))) - 1), MonthOf(end));
  }

  /** PHP's '+1 month' from January 31, 2025 gives February 31, which
      rolls over to March 3. */
  lemma JanuaryThirtyFirstPlusOneMonth()
    ensures AddMonths(Date(2025, 1, 31), 1) == Date(2025, 3, 3)
  {
    assert FromMonthIndex(MonthIndex(YearMonth(2025, 1)) + 1) == YearMonth(2025, 2);
    assert !IsLeapYear(2025);
  }

  lemma FromMarchThird()
    ensures MonthsFrom(Date(2025, 3, 3), Date(2025, 4, 1)) == [YearMonth(2025, 3)]
  {
    assert AddMonths(Date(2025, 3, 3), 1) == Date(2025, 4, 3) by {
      assert FromMonthIndex(MonthIndex(YearMonth(2025, 3)) + 1) == YearMonth(2025, 4);
    }
  }

  /** As written, a start on January 31 skips February: the range
      2025-01-31 .. 2025-03-31 yields 2025-01, 2025-03, where the three
      months 2025-01, 2025-02, 2025-03 are meant. */
  lemma AsWrittenSkipsFebruary()
    ensures MonthsFrom(Date(2025, 1, 31), RangeBound(Date(2025, 3, 31)))
            == [YearMonth(2025, 1), YearMonth(2025, 3)]
    ensures MonthSpan(YearMonth(2025, 1), YearMonth(2025, 3))
            == [YearMonth(2025, 1), YearMonth(2025, 2), YearMonth(2025, 3)]
  {
    assert RangeBound(Date(2025, 3, 31)) == Date(2025, 4, 1);
    FromJanuaryThirtyFirst();
    FirstQuarterSpan();
  }

  lemma FromJanuaryThirtyFirst()
    ensures MonthsFrom(Date(2025, 1, 31), Date(2025, 4, 1)) == [YearMonth(2025, 1), YearMonth(2025, 3)]
  {
    var c, b := Date(2025, 1, 31), Date(2025, 4, 1);
    assert Before(c, b);
    JanuaryThirtyFirstPlusOneMonth();
    assert MonthsFrom(c, b) == [MonthOf(c)] + MonthsFrom(Date(2025, 3, 3), b);
    FromMarchThird();
  }

  lemma FirstQuarterSpan()
    ensures MonthSpan(YearMonth(2025, 1), YearMonth(2025, 3))
            == [YearMonth(2025, 1), YearMonth(2025, 2), YearMonth(2025, 3)]
  {
    var first, last := YearMonth(2025, 1), YearMonth(2025, 3);
    MonthSpanCons(first, last);
    MonthSpanCons(YearMonth(2025, 2), last);
    MonthSpanSingle(last);
  }

  /** The span is empty exactly when the first month is after the last;
      otherwise it starts at the first month and ends at the last. */
  lemma MonthSpanEnds(first: YearMonth, last: YearMonth)
    ensures MonthSpan(first, last) == [] <==> MonthIndex(last) < MonthIndex(first)
    ensures MonthSpan(first, last) != [] ==>
              MonthSpan(first, last)[0] == first
              && MonthSpan(first, last)[|MonthSpan(first, last)| - 1] == last
  {
    var r := MonthSpan(first, last);
    MonthSpanIndex(first, last);
    if r != [] {
      MonthIndexInjective(r[0], first);
      MonthIndexInjective(r[|r| - 1], last);
    }
  }

  /** Start and end in the same month give exactly that month. */
  lemma MonthSpanSingle(ym: YearMonth)
    ensures MonthSpan(ym, ym) == [ym]
  {
    MonthSpanEnds(ym, ym);
  }

  /** Each month of the span is followed by the next calendar month, so
      December is followed by January of the next year: no gaps. */
  lemma MonthSpanConsecutive(first: YearMonth, last: YearMonth)
    ensures forall k :: 0 <= k < |MonthSpan(first, last)| - 1 ==>
              MonthSpan(first, last)[k + 1] == NextMonth(MonthSpan(first, last)[k])
  {
    var r := MonthSpan(first, last);
    MonthSpanIndex(first, last);
    forall k | 0 <= k < |r| - 1
      ensures r[k + 1] == NextMonth(r[k])
    {
      MonthIndexInjective(r[k + 1], NextMonth(r[k]));
    }
  }

  /** The span is strictly ascending, so it has no duplicates. */
  lemma MonthSpanAscending(first: YearMonth, last: YearMonth)
    ensures forall i, j :: 0 <= i < j < |MonthSpan(first, last)| ==>
              MonthIndex(MonthSpan(first, last)[i]) < MonthIndex(MonthSpan(first, last)[j])
  {
    MonthSpanIndex(first, last);
  }

  /** A month is in the span exactly when it lies between first and last. */
  lemma MonthSpanMembers(first: YearMonth, last: YearMonth, ym: YearMonth)
    ensures ym in MonthSpan(first, last) <==> MonthIndex(first) <= MonthIndex(ym) <= MonthIndex(last)
  {
    var r := MonthSpan(first, last);
    MonthSpanIndex(first, last);
    if MonthIndex(first) <= MonthIndex(ym) <= MonthIndex(last) {
      var k := MonthIndex(ym) - MonthIndex(first);
      MonthIndexInjective(r[k], ym);
    }
  }

  /** A range over a year boundary: 2024-11-15 .. 2025-02-10. */
  lemma YearBoundaryExample()
    ensures MonthSpan(MonthOf(Date(2024, 11, 15)), MonthOf(Date(2025, 2, 10)))
            == [YearMonth(2024, 11), YearMonth(2024, 12), YearMonth(2025, 1), YearMonth(2025, 2)]
  {
    var first, last := YearMonth(2024, 11), YearMonth(2025, 2);
    MonthSpanCons(first, last);
    MonthSpanCons(YearMonth(2024, 12), last);
    MonthSpanCons(YearMonth(2025, 1), last);
    MonthSpanSingle(last);
  }

  /** The default start as written: 'Y-m-01' of the date eleven months
      before today, where the shift itself may overflow into the next month. */
  function DefaultStartAsWritten(today: Date): (d: Date)
    requires ValidDate(today)
    ensures d.day == 1
    ensures MonthIndex(MonthOf(d)) == MonthIndex(MonthOf(today)) - 11
            || MonthIndex(MonthOf(d)) == MonthIndex(MonthOf(today)) - 10
    ensures today.day <= 28 ==> MonthIndex(MonthOf(d)) == MonthIndex(MonthOf(today)) - 11
    ensures MonthIndex(MonthOf(d)) == MonthIndex(MonthOf(today)) - 10
            <==> today.day > DaysInMonth(FromMonthIndex(MonthIndex(MonthOf(today)) - 11))
  {
    FirstDay(MonthOf(AddMonths(today, -11)))
  }

  /** The default start: the first day of the month eleven months back. */
  function DefaultStart(today: Date): (d: Date)
    ensures d.day == 1 && MonthIndex(MonthOf(d)) == MonthIndex(MonthOf(today)) - 11
  {
    FirstDay(FromMonthIndex(MonthIndex(MonthOf(today)) - 11))
  }

  /** The default end: 'Y-m-t', the last day of the current month. */
  function DefaultEnd(today: Date): (d: Date)
    ensures MonthOf(d) == MonthOf(today) && ValidDate(d)
    ensures d.day == DaysInMonth(MonthOf(today))
  {
    LastDay(MonthOf(today))
  }

  /** The default range covers the trailing twelve months, ending with the
      current one. */
  lemma DefaultRangeIsTrailingYear(today: Date)
    ensures |MonthSpan(MonthOf(DefaultStart(today)), MonthOf(DefaultEnd(today)))| == 12
    ensures MonthSpan(MonthOf(DefaultStart(today)), MonthOf(DefaultEnd(today)))[11] == MonthOf(today)
  {
    MonthSpanEnds(MonthOf(DefaultStart(today)), MonthOf(DefaultEnd(today)));
  }

  /** As written, on 2025-03-31 the shift lands on 2024-04-31, which rolls
      over to 2024-05-01, and the default range has only eleven months. */
  lemma DefaultStartAsWrittenShortOnMarch31()
    ensures DefaultStartAsWritten(Date(2025, 3, 31)) == Date(2024, 5, 1)
    ensures |MonthSpan(MonthOf(DefaultStartAsWritten(Date(2025, 3, 31))), MonthOf(DefaultEnd(Date(2025, 3, 31))))| == 11
  {
    MarchThirtyFirstMinusElevenMonths();
    var first, last := YearMonth(2024, 5), MonthOf(DefaultEnd(Date(2025, 3, 31)));
    assert last == YearMonth(2025, 3);
    MonthSpanEnds(first, last);
  }

  /** 2025-03-31 shifted back eleven months lands on 2024-04-31, which
      rolls over to 2024-05-01. */
  lemma MarchThirtyFirstMinusElevenMonths()
    ensures AddMonths(Date(2025, 3, 31), -11) == Date(2024, 5, 1)
  {
    var target := FromMonthIndex(MonthIndex(YearMonth(2025, 3)) - 11);
    MonthIndexInjective(target, YearMonth(2024, 4));
    assert DaysInMonth(target) == 30;
  }

  /** On days 1 to 28 the default start as written is the intended one. */
  lemma DefaultStartAsWrittenAgreesEarly(today: Date)
    requires ValidDate(today) && today.day <= 28
    ensures DefaultStartAsWritten(today) == DefaultStart(today)
  {
    MonthIndexInjective(MonthOf(DefaultStartAsWritten(today)), MonthOf(DefaultStart(today)));
  }
}
