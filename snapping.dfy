/** Moving a requested boundary onto a sampled date.

    The application selects the index entries on or after a requested start
    and takes their minimum, and the entries on or before a requested end
    and takes their maximum. An empty selection gives NaT, modelled here as
    None. */
module Snapping {
  import opened Wrappers
  import opened Dates

  /** d is the earliest of `dates` on or after `start`. */
  predicate IsFirstOnOrAfter(dates: seq<Date>, start: Date, d: Date)
    requires AllCalendarDates(dates) && IsCalendarDate(start)
  {
    d in dates && Ordinal(start) <= Ordinal(d)
    && forall e :: e in dates && Ordinal(start) <= Ordinal(e) ==> Ordinal(d) <= Ordinal(e)
  }

  /** d is the latest of `dates` on or before `end`. */
  predicate IsLastOnOrBefore(dates: seq<Date>, end: Date, d: Date)
    requires AllCalendarDates(dates) && IsCalendarDate(end)
  {
    d in dates && Ordinal(d) <= Ordinal(end)
    && forall e :: e in dates && Ordinal(e) <= Ordinal(end) ==> Ordinal(e) <= Ordinal(d)
  }

  /** `index[index >= start].min()` */
  function FirstOnOrAfter(dates: seq<Date>, start: Date): (r: Option<Date>)
    requires AllCalendarDates(dates) && IsCalendarDate(start)
    ensures r.Some? ==> IsFirstOnOrAfter(dates, start, r.value)
    ensures r.None? <==> forall e :: e in dates ==> Ordinal(e) < Ordinal(start)
  {
    if dates == [] then None
    else
      var rest := FirstOnOrAfter(dates[1..], start);
      if Ordinal(dates[0]) < Ordinal(start) then rest
      else if rest.Some? && Ordinal(rest.value) < Ordinal(dates[0]) then rest
      else Some(dates[0])
  }

  /** `index[index <= end].max()` */
  function LastOnOrBefore(dates: seq<Date>, end: Date): (r: Option<Date>)
    requires AllCalendarDates(dates) && IsCalendarDate(end)
    ensures r.Some? ==> IsLastOnOrBefore(dates, end, r.value)
    ensures r.None? <==> forall e :: e in dates ==> Ordinal(end) < Ordinal(e)
  {
    if dates == [] then None
    else
      var rest := LastOnOrBefore(dates[1..], end);
      if Ordinal(end) < Ordinal(dates[0]) then rest
      else if rest.Some? && Ordinal(dates[0]) < Ordinal(rest.value) then rest
      else Some(dates[0])
  }

  /** Both boundaries snap, and in order, exactly when some sampled date
      lies inside the requested range. Otherwise the snapped start may come
      after the snapped end: snapping does not report that case itself. */
  lemma {:induction false} SnapsInOrderIff(dates: seq<Date>, start: Date, end: Date)
    requires AllCalendarDates(dates) && IsCalendarDate(start) && IsCalendarDate(end)
    ensures (var s, e := FirstOnOrAfter(dates, start), LastOnOrBefore(dates, end);
             s.Some? && e.Some? && Ordinal(s.value) <= Ordinal(e.value))
        <==> exists d :: d in dates && Ordinal(start) <= Ordinal(d) <= Ordinal(end)
  {
    var s, e := FirstOnOrAfter(dates, start), LastOnOrBefore(dates, end);
    if s.Some? && e.Some? && Ordinal(s.value) <= Ordinal(e.value) {
      assert s.value in dates && Ordinal(start) <= Ordinal(s.value) <= Ordinal(end);
    }
  }
}
