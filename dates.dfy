/** Proleptic Gregorian calendar dates and their day numbers.

    The application parses every date string with the format `%Y-%m-%d`
    (an ISO 8601 extended calendar date, section 5.2.1.1 of ISO 8601:2004)
    and compares the resulting timestamps. All of them fall at midnight, so
    comparing two timestamps is comparing their day numbers, and subtracting
    them gives a whole number of days. */
module Dates {

  datatype Date = Date(year: int, month: int, day: int)

  /** A calendar month: `month` of `year`. */
  datatype Month = Month(year: int, month: int)

  predicate IsLeapYear(y: int) {
    y % 4 == 0 && (y % 100 != 0 || y % 400 == 0)
  }

  predicate IsMonth(p: Month) {
    1 <= p.month <= 12
  }

  /** Number of days in a month (a month number outside 1..12 is given 31
      so that the function is total; no date has such a month). */
  function Length(p: Month): (n: int)
    ensures 28 <= n <= 31
    ensures p.month == 2 ==> (n == 29 <==> IsLeapYear(p.year))
  {
    if p.month == 2 then (if IsLeapYear(p.year) then 29 else 28)
    else if p.month == 4 || p.month == 6 || p.month == 9 || p.month == 11 then 30
    else 31
  }

  function MonthOf(d: Date): Month {
    Month(d.year, d.month)
  }

  /** A day that exists in the Gregorian calendar, in any year. */
  predicate IsCalendarDate(d: Date) {
    IsMonth(MonthOf(d)) && 1 <= d.day <= Length(MonthOf(d))
  }

  /** Position of a month on the time line, in months since January of year 0. */
  function Index(p: Month): int {
    12 * p.year + p.month - 1
  }

  function Next(p: Month): (q: Month)
    requires IsMonth(p)
    ensures IsMonth(q) && Index(q) == Index(p) + 1
  {
    if p.month == 12 then Month(p.year + 1, 1) else Month(p.year, p.month + 1)
  }

  function Previous(p: Month): (q: Month)
    requires IsMonth(p)
    ensures IsMonth(q) && Index(q) == Index(p) - 1
  {
    if p.month == 1 then Month(p.year - 1, 12) else Month(p.year, p.month - 1)
  }

  /** Day number of the first day of a month, counted so that January of
      year 1 starts on day 1: each month starts where the one before it ends. */
  function Start(p: Month): int
    requires IsMonth(p)
    decreases if Index(p) < 12 then 12 - Index(p) else Index(p) - 12
  {
    if Index(p) == 12 then 1
    else if Index(p) > 12 then Start(Previous(p)) + Length(Previous(p))
    else Start(Next(p)) - Length(p)
  }

  /** Day number of a date, 0001-01-01 being day 1 (Python's ordinal). A
      month number outside 1..12 is read as January so that the function is
      total; no date has such a month. */
  function Ordinal(d: Date): int {
    var p := MonthOf(d);
    Start(if IsMonth(p) then p else Month(d.year, 1)) + d.day - 1
  }

  /** The last day of a month. */
  function LastDay(p: Month): Date {
    Date(p.year, p.month, Length(p))
  }

  /** A month is determined by its index. */
  lemma {:induction false} IndexInjective(p: Month, q: Month)
    requires IsMonth(p) && IsMonth(q) && Index(p) == Index(q)
    ensures p == q
  {
    assert 12 * (q.year - p.year) == p.month - q.month;
  }

  lemma {:induction false} StartStep(p: Month)
    requires IsMonth(p)
    ensures Start(Next(p)) == Start(p) + Length(p)
  {
    var q := Next(p);
    assert Previous(q) == p;
    if Index(p) < 12 {
      assert Next(p) == q;
    }
  }

  lemma {:induction false} StartIncreasing(p: Month, q: Month)
    requires IsMonth(p) && IsMonth(q) && Index(p) < Index(q)
    ensures Start(p) < Start(q)
    decreases Index(q) - Index(p)
  {
    StartStep(p);
    if Index(Next(p)) < Index(q) {
      StartIncreasing(Next(p), q);
    } else {
      IndexInjective(Next(p), q);
    }
  }

  /** Month starts are ordered as the months are. */
  lemma {:induction false} StartOrder(p: Month, q: Month)
    requires IsMonth(p) && IsMonth(q)
    ensures Index(p) <= Index(q) <==> Start(p) <= Start(q)
  {
    if Index(p) < Index(q) {
      StartIncreasing(p, q);
    } else if Index(q) < Index(p) {
      StartIncreasing(q, p);
    } else {
      IndexInjective(p, q);
    }
  }

  /** A calendar date lies in its own month: on or after that month's first
      day and before the next month's first day. */
  lemma {:induction false} OrdinalWithinMonth(d: Date)
    requires IsCalendarDate(d)
    ensures Start(MonthOf(d)) <= Ordinal(d) < Start(Next(MonthOf(d)))
  {
    StartStep(MonthOf(d));
  }

  lemma {:induction false} LastDayOrdinal(p: Month)
    requires IsMonth(p)
    ensures IsCalendarDate(LastDay(p)) && MonthOf(LastDay(p)) == p
    ensures Ordinal(LastDay(p)) == Start(Next(p)) - 1
  {
    StartStep(p);
  }

  /** The last day of month p is on or after a date d exactly when p is not
      earlier than the month of d. */
  lemma {:induction false} LastDayReaches(p: Month, d: Date)
    requires IsMonth(p) && IsCalendarDate(d)
    ensures Ordinal(d) <= Ordinal(LastDay(p)) <==> Index(MonthOf(d)) <= Index(p)
  {
    var m := MonthOf(d);
    LastDayOrdinal(p);
    OrdinalWithinMonth(d);
    if Index(m) <= Index(p) {
      StartOrder(Next(m), Next(p));
      assert Ordinal(d) < Start(Next(p));
    } else {
      StartOrder(Next(p), m);
      assert Start(Next(p)) <= Ordinal(d);
    }
  }

  /** Lexicographic order on (year, month, day). */
  predicate CalendarBefore(a: Date, b: Date) {
    a.year < b.year
    || (a.year == b.year && a.month < b.month)
    || (a.year == b.year && a.month == b.month && a.day < b.day)
  }

  /** Comparing day numbers is comparing dates on the calendar; in
      particular two calendar dates with one day number are one date. */
  lemma {:induction false} OrdinalIsCalendarOrder(a: Date, b: Date)
    requires IsCalendarDate(a) && IsCalendarDate(b)
    ensures Ordinal(a) < Ordinal(b) <==> CalendarBefore(a, b)
    ensures Ordinal(a) == Ordinal(b) <==> a == b
  {
    OrdinalWithinMonth(a);
    OrdinalWithinMonth(b);
    var p, q := MonthOf(a), MonthOf(b);
    if Index(p) < Index(q) {
      StartOrder(Next(p), q);
    } else if Index(q) < Index(p) {
      StartOrder(Next(q), p);
    } else {
      IndexInjective(p, q);
    }
  }

  predicate AllCalendarDates(s: seq<Date>) {
    forall d :: d in s ==> IsCalendarDate(d)
  }

  /** Calendar dates in strictly increasing order, as a pandas index of
      unique, sorted timestamps. */
  predicate StrictlyIncreasing(s: seq<Date>) {
    AllCalendarDates(s) && forall i, j :: 0 <= i < j < |s| ==> Ordinal(s[i]) < Ordinal(s[j])
  }

  /** A date before every date of a sorted sequence can be put in front of it. */
  lemma {:induction false} IncreasingCons(d: Date, s: seq<Date>)
    requires IsCalendarDate(d) && StrictlyIncreasing(s)
    requires forall e :: e in s ==> Ordinal(d) < Ordinal(e)
    ensures StrictlyIncreasing([d] + s)
  {
    var r := [d] + s;
    forall i, j | 0 <= i < j < |r| ensures Ordinal(r[i]) < Ordinal(r[j]) {
      if i > 0 {
        assert r[i] == s[i - 1] && r[j] == s[j - 1];
      } else {
        assert r[j] in s;
      }
    }
  }
}
