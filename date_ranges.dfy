/** The period-end date ranges the return calculation counts:
    `pd.date_range(start, end, freq=f, inclusive='left')` with f either
    'Y' (calendar year end) or 'M' (calendar month end).

    pandas rolls `start` forward to the first period end on or after it,
    steps one period end at a time while the date stays on or before
    `end`, and with `inclusive='left'` drops `end` itself, unless `start`
    and `end` are the same date: then a period end there is kept. The
    result is every period-end date d with start <= d < end, in increasing
    order, or the single date `start` when start == end is a period end. */
module DateRanges {
  import opened Dates

  /** The two offsets the application uses: 'Y' and 'M'. */
  datatype Frequency = YearEnd | MonthEnd

  /** A month that holds a period end: any month for month ends, December
      for year ends. */
  predicate IsAnchorMonth(f: Frequency, p: Month) {
    IsMonth(p) && (f == YearEnd ==> p.month == 12)
  }

  /** The anchor month of the period a date falls in. */
  function AnchorMonthOf(f: Frequency, d: Date): Month {
    match f
    case YearEnd => Month(d.year, 12)
    case MonthEnd => MonthOf(d)
  }

  /** The anchor month of the next period. */
  function NextAnchorMonth(f: Frequency, p: Month): (q: Month)
    requires IsAnchorMonth(f, p)
    ensures IsAnchorMonth(f, q) && Index(p) < Index(q)
  {
    match f
    case YearEnd => Month(p.year + 1, 12)
    case MonthEnd => Next(p)
  }

  /** December 31, or the last day of a month. */
  predicate IsPeriodEnd(f: Frequency, d: Date) {
    match f
    case YearEnd => d.month == 12 && d.day == 31
    case MonthEnd => d.day == Length(MonthOf(d))
  }

  /** Position of a period on the time line: a year, or a month index. */
  function Period(f: Frequency, p: Month): int {
    match f
    case YearEnd => p.year
    case MonthEnd => Index(p)
  }

  lemma {:induction false} NextAnchorPeriod(f: Frequency, p: Month)
    requires IsAnchorMonth(f, p)
    ensures Period(f, NextAnchorMonth(f, p)) == Period(f, p) + 1
  {
  }

  /** The last day of anchor month p is on or after d exactly when the
      period of p is not earlier than the period of d. */
  lemma {:induction false} AnchorReaches(f: Frequency, p: Month, d: Date)
    requires IsAnchorMonth(f, p) && IsCalendarDate(d)
    ensures Ordinal(d) <= Ordinal(LastDay(p)) <==> Period(f, AnchorMonthOf(f, d)) <= Period(f, p)
  {
    LastDayReaches(p, d);
  }

  lemma {:induction false} AnchorIsPeriodEnd(f: Frequency, p: Month)
    requires IsAnchorMonth(f, p)
    ensures IsCalendarDate(LastDay(p)) && IsPeriodEnd(f, LastDay(p))
    ensures AnchorMonthOf(f, LastDay(p)) == p
  {
    LastDayOrdinal(p);
  }

  /** Every period end is the last day of its own anchor month. */
  lemma {:induction false} PeriodEndIsAnchor(f: Frequency, d: Date)
    requires IsCalendarDate(d) && IsPeriodEnd(f, d)
    ensures IsAnchorMonth(f, AnchorMonthOf(f, d)) && LastDay(AnchorMonthOf(f, d)) == d
  {
  }

  /** Anchor months of one frequency are told apart by their periods. */
  lemma {:induction false} AnchorPeriodInjective(f: Frequency, p: Month, q: Month)
    requires IsAnchorMonth(f, p) && IsAnchorMonth(f, q) && Period(f, p) == Period(f, q)
    ensures p == q
  {
    if f == MonthEnd {
      IndexInjective(p, q);
    }
  }

  /** The period ends from the one in anchor month p on, stopping before `end`. */
  function AnchorsFrom(f: Frequency, p: Month, end: Date): (r: seq<Date>)
    requires IsAnchorMonth(f, p) && IsCalendarDate(end)
    ensures |r| == if Period(f, p) < Period(f, AnchorMonthOf(f, end))
                   then Period(f, AnchorMonthOf(f, end)) - Period(f, p) else 0
    ensures forall i :: 0 <= i < |r| ==>
      IsAnchorMonth(f, AnchorMonthOf(f, r[i])) && r[i] == LastDay(AnchorMonthOf(f, r[i]))
      && Period(f, AnchorMonthOf(f, r[i])) == Period(f, p) + i
    decreases Period(f, AnchorMonthOf(f, end)) - Period(f, p)
  {
    AnchorReaches(f, p, end);
    AnchorIsPeriodEnd(f, p);
    if Ordinal(LastDay(p)) < Ordinal(end) then
      NextAnchorPeriod(f, p);
      [LastDay(p)] + AnchorsFrom(f, NextAnchorMonth(f, p), end)
    else
      []
  }

  /** `pd.date_range(start, end, freq=f, inclusive='left')`: exactly the
      period ends d with start <= d < end, in increasing order; as many as
      there are periods from that of `start` up to, not including, that of
      `end`. When start and end are one date, the end is not dropped: the
      range is that date if it is a period end, and empty otherwise. */
  function DateRange(f: Frequency, start: Date, end: Date): (r: seq<Date>)
    requires IsCalendarDate(start) && IsCalendarDate(end)
    ensures forall d :: d in r <==>
      IsCalendarDate(d) && IsPeriodEnd(f, d)
      && (Ordinal(start) <= Ordinal(d) < Ordinal(end) || (start == end && d == start))
    ensures StrictlyIncreasing(r)
    ensures var first, last := Period(f, AnchorMonthOf(f, start)), Period(f, AnchorMonthOf(f, end));
      |r| == if start == end && IsPeriodEnd(f, start) then 1
             else if first < last then last - first else 0
  {
    if start == end && IsPeriodEnd(f, start) then
      [start]
    else
      var r := AnchorsFrom(f, AnchorMonthOf(f, start), end);
      DateRangeMembers(f, start, end, r);
      DateRangeIncreasing(f, start, end, r);
      r
  }

  lemma {:induction false} DateRangeMembers(f: Frequency, start: Date, end: Date, r: seq<Date>)
    requires IsCalendarDate(start) && IsCalendarDate(end)
    requires r == AnchorsFrom(f, AnchorMonthOf(f, start), end)
    ensures forall d :: d in r <==>
      IsCalendarDate(d) && IsPeriodEnd(f, d) && Ordinal(start) <= Ordinal(d) < Ordinal(end)
  {
    var first := Period(f, AnchorMonthOf(f, start));
    forall d | d in r
      ensures IsCalendarDate(d) && IsPeriodEnd(f, d) && Ordinal(start) <= Ordinal(d) < Ordinal(end)
    {
      var i :| 0 <= i < |r| && r[i] == d;
      var p := AnchorMonthOf(f, d);
      AnchorIsPeriodEnd(f, p);
      AnchorReaches(f, p, start);
      AnchorReaches(f, p, end);
    }
    forall d | IsCalendarDate(d) && IsPeriodEnd(f, d) && Ordinal(start) <= Ordinal(d) < Ordinal(end)
      ensures d in r
    {
      var p := AnchorMonthOf(f, d);
      PeriodEndIsAnchor(f, d);
      AnchorReaches(f, p, start);
      AnchorReaches(f, p, end);
      var i := Period(f, p) - first;
      var q := AnchorMonthOf(f, r[i]);
      AnchorPeriodInjective(f, p, q);
      assert r[i] == d;
    }
  }

  lemma {:induction false} DateRangeIncreasing(f: Frequency, start: Date, end: Date, r: seq<Date>)
    requires IsCalendarDate(start) && IsCalendarDate(end)
    requires r == AnchorsFrom(f, AnchorMonthOf(f, start), end)
    ensures StrictlyIncreasing(r)
  {
    forall d | d in r ensures IsCalendarDate(d) {
      AnchorIsPeriodEnd(f, AnchorMonthOf(f, d));
    }
    forall i, j | 0 <= i < j < |r| ensures Ordinal(r[i]) < Ordinal(r[j]) {
      var p, q := AnchorMonthOf(f, r[i]), AnchorMonthOf(f, r[j]);
      LastDayOrdinal(p);
      LastDayOrdinal(q);
      StartOrder(Next(q), Next(p));
    }
  }
}
