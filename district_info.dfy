/** `update_district_info`: the district panel filled in when the search
    is clicked. */
module DistrictInfo {
  import opened Wrappers
  import opened Dates
  import opened DataSet
  import opened Timeframe
  import opened Chart
  import opened Returns

  const PromptText: string := "Please select a district for more information"

  /** What the callback does to the panel's name, info and return fields. */
  datatype Panel =
    | NotUpdated                                     // the callback returns None
    | Prompt(name: string, info: string, ret: string)
    | Report(name: string, result: ReturnResult)     // before label formatting
    | Failed(error: QueryError)                      // the callback raises KeyError

  /** Some sample of `column` on or after `start` has a price. */
  predicate HasPricedFrom(column: seq<Sample>, start: Date) {
    exists s :: s in column && s.value.Some? && Ordinal(start) <= Ordinal(s.date)
  }

  /** Some sample of `column` on or before `end` has a price. */
  predicate HasPricedUntil(column: seq<Sample>, end: Date) {
    exists s :: s in column && s.value.Some? && Ordinal(s.date) <= Ordinal(end)
  }

  /** a is a priced sample of `column`, the earliest priced one on or after `start`. */
  predicate IsEarliestPriced(column: seq<Sample>, start: Date, a: Price) {
    Sample(a.date, Some(a.price)) in column && Ordinal(start) <= Ordinal(a.date)
    && forall s :: s in column && s.value.Some? && Ordinal(start) <= Ordinal(s.date) ==> Ordinal(a.date) <= Ordinal(s.date)
  }

  /** b is a priced sample of `column`, the latest priced one on or before `end`. */
  predicate IsLatestPriced(column: seq<Sample>, end: Date, b: Price) {
    Sample(b.date, Some(b.price)) in column && Ordinal(b.date) <= Ordinal(end)
    && forall s :: s in column && s.value.Some? && Ordinal(s.date) <= Ordinal(end) ==> Ordinal(s.date) <= Ordinal(b.date)
  }

  /** The return of `column` between the earliest priced sample on or after
      `start` and the latest priced one on or before `end`. */
  ghost predicate IsPricedReturn(column: seq<Sample>, start: Date, end: Date, result: ReturnResult) {
    exists a: Price, b: Price ::
      IsEarliestPriced(column, start, a) && IsLatestPriced(column, end, b)
      && IsCalendarDate(a.date) && IsCalendarDate(b.date)
      && result == ReturnResult(PercentChange(a.price, b.price), DurationBetween(a.date, b.date))
  }

  /** `update_district_info(_, district, start, end)`: nothing unless the
      timeframe is valid on the master calendar; the prompt for 'All
      Districts'; otherwise the return over the district's column with its
      missing samples dropped. */
  function UpdateDistrictInfo(t: Table, district: string, start: Date, end: Date): (p: Panel)
    requires WellFormed(t) && IsCalendarDate(start) && IsCalendarDate(end)
    ensures p.NotUpdated? <==> !SampledSpanExceeds(Calendar(t), start, end, DefaultThreshold)
    ensures !p.NotUpdated? && district == AllDistricts ==> p == Prompt("", PromptText, "")
    ensures !p.NotUpdated? && district != AllDistricts ==>
      (p == Failed(UnknownDistrict) <==> district !in t.columns)
    ensures !p.NotUpdated? && district != AllDistricts && district in t.columns ==>
      (p.Report? || p == Failed(NoDataInRange))
      && (p.Report? <==> HasPricedFrom(Column(t, district).value, start) && HasPricedUntil(Column(t, district).value, end))
    ensures p.Report? ==>
      p.name == district && district in t.columns && IsPricedReturn(Column(t, district).value, start, end, p.result)
  {
    if !CheckMinTimeframe(Calendar(t), start, end, DefaultThreshold) then NotUpdated
    else Searched(t, district, start, end)
  }

  /** The panel after a search over a valid range. */
  function Searched(t: Table, district: string, start: Date, end: Date): (p: Panel)
    requires WellFormed(t) && IsCalendarDate(start) && IsCalendarDate(end)
    ensures !p.NotUpdated?
    ensures district == AllDistricts ==> p == Prompt("", PromptText, "")
    ensures district != AllDistricts ==> (p == Failed(UnknownDistrict) <==> district !in t.columns)
    ensures district != AllDistricts && district in t.columns ==>
      (p.Report? || p == Failed(NoDataInRange))
      && (p.Report? <==> HasPricedFrom(Column(t, district).value, start) && HasPricedUntil(Column(t, district).value, end))
    ensures p.Report? ==>
      p.name == district && district in t.columns && IsPricedReturn(Column(t, district).value, start, end, p.result)
  {
    if district == AllDistricts then Prompt("", PromptText, "")
    else
      match Column(t, district)
      case None => Failed(UnknownDistrict)
      case Some(column) => ReportOn(district, column, start, end)
  }

  /** The panel for a district column: its return after dropping missing
      samples, which fails exactly when no priced sample lies on or after
      `start`, or none on or before `end`. */
  function ReportOn(district: string, column: seq<Sample>, start: Date, end: Date): (p: Panel)
    requires StrictlyIncreasing(SampleDates(column)) && IsCalendarDate(start) && IsCalendarDate(end)
    ensures p.Report? || p == Failed(NoDataInRange)
    ensures p.Report? <==> HasPricedFrom(column, start) && HasPricedUntil(column, end)
    ensures p.Report? ==> p.name == district && IsPricedReturn(column, start, end, p.result)
  {
    CleanedReturns(column, start, end);
    match CalculateReturns(DropMissing(column), start, end)
    case Ok(result) => Report(district, result)
    case Err(e) => Failed(e)
  }

  /** `calculate_returns` on a column cleaned by `dropna`, stated on the
      column itself: it fails exactly when no priced sample is on or after
      `start` or none is on or before `end`, and otherwise reads the
      earliest and the latest priced samples in range. */
  lemma {:induction false} CleanedReturns(column: seq<Sample>, start: Date, end: Date)
    requires StrictlyIncreasing(SampleDates(column)) && IsCalendarDate(start) && IsCalendarDate(end)
    ensures StrictlyIncreasing(PriceDates(DropMissing(column)))
    ensures var r := CalculateReturns(DropMissing(column), start, end);
      (r.Err? <==> !HasPricedFrom(column, start) || !HasPricedUntil(column, end))
      && (r.Ok? ==> IsPricedReturn(column, start, end, r.value))
  {
    var cleaned := DropMissing(column);
    DropMissingKeepsOrder(column);
    PricedBounds(column, start, end);
    var r := CalculateReturns(cleaned, start, end);
    if r.Ok? {
      var a, b :| a in cleaned && b in cleaned
        && Snapping.IsFirstOnOrAfter(PriceDates(cleaned), start, a.date)
        && Snapping.IsLastOnOrBefore(PriceDates(cleaned), end, b.date)
        && r.value == ReturnResult(PercentChange(a.price, b.price), DurationBetween(a.date, b.date));
      PresentSamplesKept(column);
      assert IsEarliestPriced(column, start, a);
      assert IsLatestPriced(column, end, b);
    }
  }

  /** The cleaned series has a date on or after `start` exactly when the
      column has a priced sample there, and likewise before `end`. */
  lemma {:induction false} PricedBounds(column: seq<Sample>, start: Date, end: Date)
    ensures (forall p :: p in DropMissing(column) ==> Ordinal(p.date) < Ordinal(start)) <==> !HasPricedFrom(column, start)
    ensures (forall p :: p in DropMissing(column) ==> Ordinal(end) < Ordinal(p.date)) <==> !HasPricedUntil(column, end)
  {
    var cleaned := DropMissing(column);
    if HasPricedFrom(column, start) {
      var s :| s in column && s.value.Some? && Ordinal(start) <= Ordinal(s.date);
      assert Price(s.date, s.value.value) in cleaned;
    }
    if exists p :: p in cleaned && Ordinal(start) <= Ordinal(p.date) {
      var p :| p in cleaned && Ordinal(start) <= Ordinal(p.date);
      assert Sample(p.date, Some(p.price)) in column;
    }
    if HasPricedUntil(column, end) {
      var s :| s in column && s.value.Some? && Ordinal(s.date) <= Ordinal(end);
      assert Price(s.date, s.value.value) in cleaned;
    }
    if exists p :: p in cleaned && Ordinal(p.date) <= Ordinal(end) {
      var p :| p in cleaned && Ordinal(p.date) <= Ordinal(end);
      assert Sample(p.date, Some(p.price)) in column;
    }
  }

  /** A report is made exactly when the district's column has a priced
      sample on or after `start` and one on or before `end`, and its return
      is read at the earliest and the latest of them: missing samples are
      dropped before snapping, so both prices are real values of the
      column. */
  lemma {:induction false} ReportUsesPresentPrices(t: Table, district: string, start: Date, end: Date)
    requires WellFormed(t) && IsCalendarDate(start) && IsCalendarDate(end)
    requires SampledSpanExceeds(Calendar(t), start, end, DefaultThreshold)
    requires district != AllDistricts && district in t.columns
    ensures var p, column := UpdateDistrictInfo(t, district, start, end), Column(t, district).value;
      (p.Report? <==> HasPricedFrom(column, start) && HasPricedUntil(column, end))
      && (p.Report? ==> IsPricedReturn(column, start, end, p.result))
      && (!p.Report? ==> p == Failed(NoDataInRange))
  {
    var column := Column(t, district).value;
    CleanedReturns(column, start, end);
  }

  /** Every sample that has a price keeps its date in the cleaned series. */
  lemma {:induction false} PresentSamplesKept(column: seq<Sample>)
    ensures forall s :: s in column && s.value.Some? ==> s.date in PriceDates(DropMissing(column))
  {
    var cleaned := DropMissing(column);
    forall s | s in column && s.value.Some?
      ensures s.date in PriceDates(cleaned)
    {
      var q := Price(s.date, s.value.value);
      assert q in cleaned;
      var i :| 0 <= i < |cleaned| && cleaned[i] == q;
      assert PriceDates(cleaned)[i] == s.date;
    }
  }
}
