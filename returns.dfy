/** `calculate_returns`: the percentage change of one district's cleaned
    price series between two snapped dates, and the duration between them
    in years, or in months when it is under a year. */
module Returns {
  import opened Wrappers
  import opened Dates
  import opened DateRanges
  import opened Snapping
  import opened DataSet

  /** The percentage before rounding. Float division by a zero start price
      gives inf or nan in numpy rather than an error. */
  datatype Percent = Finite(value: real) | NonFinite

  datatype Unit = Years | Months

  datatype Duration = Duration(count: nat, unit: Unit)

  datatype ReturnResult = ReturnResult(percent: Percent, duration: Duration)

  /** `(end_price - start_price) / start_price * 100`: growing the start
      price by the result, as a percentage, gives the end price. */
  function PercentChange(startPrice: real, endPrice: real): (r: Percent)
    ensures r.NonFinite? <==> startPrice == 0.0
    ensures r.Finite? ==> startPrice + startPrice * r.value / 100.0 == endPrice
  {
    if startPrice == 0.0 then NonFinite else Finite((endPrice - startPrice) / startPrice * 100.0)
  }

  /** With a positive start price the sign of the change is the sign of the
      price movement: a loss is negative. */
  lemma {:induction false} PercentSign(startPrice: real, endPrice: real)
    requires startPrice > 0.0
    ensures PercentChange(startPrice, endPrice).Finite?
    ensures var v := PercentChange(startPrice, endPrice).value;
      (v > 0.0 <==> endPrice > startPrice) && (v < 0.0 <==> endPrice < startPrice)
  {
    var v := PercentChange(startPrice, endPrice).value;
    assert v == (endPrice - startPrice) * (100.0 / startPrice);
  }

  /** The duration between two dates: the year ends d with start <= d < end
      when there is at least one, otherwise the month ends, as months. Year
      ends and month ends are December 31 and the last day of a month, not
      January 1 or the first of a month. Two equal dates on a period end
      count that one period end. */
  function DurationBetween(start: Date, end: Date): (r: Duration)
    requires IsCalendarDate(start) && IsCalendarDate(end)
    ensures var years, months := end.year - start.year, Index(MonthOf(end)) - Index(MonthOf(start));
      r == if start == end && IsPeriodEnd(YearEnd, start) then Duration(1, Years)
           else if start == end && IsPeriodEnd(MonthEnd, start) then Duration(1, Months)
           else if years >= 1 then Duration(years, Years)
           else Duration(if months > 0 then months else 0, Months)
    ensures r.unit == Years ==> r.count >= 1
    ensures r.unit == Months ==> r.count <= 11
  {
    var years := |DateRange(YearEnd, start, end)|;
    if years < 1 then
      Duration(|DateRange(MonthEnd, start, end)|, Months)
    else
      Duration(years, Years)
  }

  /** One year end (2020-12-31) lies in [2020-01-01, 2021-01-01). */
  lemma {:induction false} OneYearExample()
    ensures DurationBetween(Date(2020, 1, 1), Date(2021, 1, 1)) == Duration(1, Years)
  {
  }

  /** No year end lies in [2020-01-01, 2020-04-01), but three month ends do. */
  lemma {:induction false} ThreeMonthsExample()
    ensures DurationBetween(Date(2020, 1, 1), Date(2020, 4, 1)) == Duration(3, Months)
  {
  }

  /** A snapped start and end on the same December 31 count one year. */
  lemma {:induction false} SameYearEndExample()
    ensures DurationBetween(Date(2020, 12, 31), Date(2020, 12, 31)) == Duration(1, Years)
  {
  }

  /** On the same end of March they count one month; on the same mid-month
      day, nothing. */
  lemma {:induction false} SameMonthEndExample()
    ensures DurationBetween(Date(2020, 3, 31), Date(2020, 3, 31)) == Duration(1, Months)
    ensures DurationBetween(Date(2020, 3, 15), Date(2020, 3, 15)) == Duration(0, Months)
  {
  }

  /** Two weeks that straddle a December 31 already count as one year. */
  lemma {:induction false} YearEndExample()
    ensures DurationBetween(Date(2019, 12, 31), Date(2020, 1, 14)) == Duration(1, Years)
  {
  }

  /** `df.loc[date]` on a series with a unique index. */
  function PriceOn(series: seq<Price>, date: Date): (r: Option<real>)
    ensures r.Some? ==> Price(date, r.value) in series
    ensures r.None? <==> date !in PriceDates(series)
  {
    if series == [] then None
    else if series[0].date == date then Some(series[0].price)
    else
      assert PriceDates(series[1..]) == PriceDates(series)[1..];
      PriceOn(series[1..], date)
  }

  /** `calculate_returns(df, start, end)` on a series already cleaned of
      missing values: snap both boundaries to the series, read the prices
      there, and compute the change and the duration. */
  function CalculateReturns(series: seq<Price>, start: Date, end: Date): (r: Result<ReturnResult, QueryError>)
    requires StrictlyIncreasing(PriceDates(series)) && IsCalendarDate(start) && IsCalendarDate(end)
    ensures r.Err? ==> r.error == NoDataInRange
    ensures r.Err? <==>
      ((forall p :: p in series ==> Ordinal(p.date) < Ordinal(start))
       || (forall p :: p in series ==> Ordinal(end) < Ordinal(p.date)))
    ensures r.Ok? ==>
      exists a, b ::
        a in series && b in series
        && IsFirstOnOrAfter(PriceDates(series), start, a.date)
        && IsLastOnOrBefore(PriceDates(series), end, b.date)
        && r.value == ReturnResult(PercentChange(a.price, b.price), DurationBetween(a.date, b.date))
  {
    var dates := PriceDates(series);
    assert forall p :: p in series ==> p.date in dates;
    match (FirstOnOrAfter(dates, start), LastOnOrBefore(dates, end))
    case (Some(s), Some(e)) =>
      var sp, ep := PriceOn(series, s).value, PriceOn(series, e).value;
      assert Price(s, sp) in series && Price(e, ep) in series;
      Ok(ReturnResult(PercentChange(sp, ep), DurationBetween(s, e)))
    case _ => Err(NoDataInRange)
  }
}
