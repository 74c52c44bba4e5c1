/** The minimum-timeframe rule (`check_min_timeframe`) and the two outputs
    it drives (`verify_time_range`). */
module Timeframe {
  import opened Wrappers
  import opened Dates
  import opened Snapping

  /** The default of `threshold`: a range must span more than 89 days,
      "more than 3 months". */
  const DefaultThreshold: int := 89

  /** Some sampled date on or after `start` and some sampled date on or
      before `end` lie more than `threshold` days apart. */
  ghost predicate SampledSpanExceeds(calendar: seq<Date>, start: Date, end: Date, threshold: int) {
    exists a, b :: a in calendar && b in calendar
      && Ordinal(start) <= Ordinal(a) && Ordinal(b) <= Ordinal(end)
      && Ordinal(b) - Ordinal(a) > threshold
  }

  /** `check_min_timeframe(start, end, threshold)`: both boundaries are
      snapped to the calendar, and the range is valid when the snapped end
      is more than `threshold` days after the snapped start. A boundary that
      does not snap gives NaT, whose comparison is false: the range is then
      invalid, not an error. */
  function CheckMinTimeframe(calendar: seq<Date>, start: Date, end: Date, threshold: int): (valid: bool)
    requires AllCalendarDates(calendar) && IsCalendarDate(start) && IsCalendarDate(end)
    ensures valid <==> SampledSpanExceeds(calendar, start, end, threshold)
  {
    match (FirstOnOrAfter(calendar, start), LastOnOrBefore(calendar, end))
    case (Some(s), Some(e)) => Ordinal(e) - Ordinal(s) > threshold
    case _ => false
  }

  /** Validity only gets easier as the threshold drops. */
  lemma {:induction false} ThresholdMonotone(calendar: seq<Date>, start: Date, end: Date, t: int, t': int)
    requires AllCalendarDates(calendar) && IsCalendarDate(start) && IsCalendarDate(end)
    requires t' <= t && CheckMinTimeframe(calendar, start, end, t)
    ensures CheckMinTimeframe(calendar, start, end, t')
  {
  }

  /** A requested range no longer than the threshold is never valid: the
      snapped range lies inside it. With a threshold of zero or more, this
      covers a range whose start and end are one day. */
  lemma {:induction false} ShortRangeInvalid(calendar: seq<Date>, start: Date, end: Date, threshold: int)
    requires AllCalendarDates(calendar) && IsCalendarDate(start) && IsCalendarDate(end)
    requires Ordinal(end) - Ordinal(start) <= threshold
    ensures !CheckMinTimeframe(calendar, start, end, threshold)
  {
  }

  /** When the snapped start and the snapped end are the same date, the
      range is invalid for any threshold of zero or more. */
  lemma {:induction false} SameSnappedDateInvalid(calendar: seq<Date>, start: Date, end: Date, threshold: int)
    requires AllCalendarDates(calendar) && IsCalendarDate(start) && IsCalendarDate(end)
    requires threshold >= 0
    requires FirstOnOrAfter(calendar, start) == LastOnOrBefore(calendar, end)
    ensures !CheckMinTimeframe(calendar, start, end, threshold)
  {
  }

  /** When a boundary does not snap, the range is invalid. */
  lemma {:induction false} UnsnappedRangeInvalid(calendar: seq<Date>, start: Date, end: Date, threshold: int)
    requires AllCalendarDates(calendar) && IsCalendarDate(start) && IsCalendarDate(end)
    requires FirstOnOrAfter(calendar, start).None? || LastOnOrBefore(calendar, end).None?
    ensures !CheckMinTimeframe(calendar, start, end, threshold)
  {
  }

  /** The outputs of `verify_time_range`: the alert's `is_open` and the
      search button's `disabled`. */
  datatype Gate = Gate(alertOpen: bool, searchDisabled: bool)

  /** `verify_time_range(start, end)`: an invalid range opens the alert and
      disables the search; a valid one does neither. */
  function VerifyTimeRange(calendar: seq<Date>, start: Date, end: Date): (g: Gate)
    requires AllCalendarDates(calendar) && IsCalendarDate(start) && IsCalendarDate(end)
    ensures g.alertOpen == g.searchDisabled
    ensures g.alertOpen <==> !SampledSpanExceeds(calendar, start, end, DefaultThreshold)
  {
    if CheckMinTimeframe(calendar, start, end, DefaultThreshold) then Gate(false, false) else Gate(true, true)
  }
}
