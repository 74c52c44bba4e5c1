/** The quarterly price table, loaded once and never changed: one row per
    sample date (the `Month` index, ascending and unique) and one column per
    district. A cell is None where the CSV has no value (NaN). */
module DataSet {
  import opened Wrappers
  import opened Dates

  datatype Row = Row(date: Date, cells: seq<Option<real>>)

  /** The KeyErrors pandas raises on a query: a column the table does not
      have, or a lookup at NaT after a boundary found no sampled date. */
  datatype QueryError = UnknownDistrict | NoDataInRange

  datatype Table = Table(columns: seq<string>, rows: seq<Row>)

  /** One entry of a district column `data[district]`. */
  datatype Sample = Sample(date: Date, value: Option<real>)

  /** One entry of a district column after `dropna`. */
  datatype Price = Price(date: Date, price: real)

  function RowDates(rows: seq<Row>): (r: seq<Date>)
    ensures |r| == |rows| && forall i :: 0 <= i < |rows| ==> r[i] == rows[i].date
  {
    if rows == [] then [] else [rows[0].date] + RowDates(rows[1..])
  }

  function SampleDates(s: seq<Sample>): (r: seq<Date>)
    ensures |r| == |s| && forall i :: 0 <= i < |s| ==> r[i] == s[i].date
  {
    if s == [] then [] else [s[0].date] + SampleDates(s[1..])
  }

  function PriceDates(s: seq<Price>): (r: seq<Date>)
    ensures |r| == |s| && forall i :: 0 <= i < |s| ==> r[i] == s[i].date
  {
    if s == [] then [] else [s[0].date] + PriceDates(s[1..])
  }

  /** The table as read from the CSV: a cell for every column in every row,
      distinct column names, and a sorted index of unique dates. */
  predicate WellFormed(t: Table) {
    (forall r :: r in t.rows ==> |r.cells| == |t.columns|)
    && (forall i, j :: 0 <= i < j < |t.columns| ==> t.columns[i] != t.columns[j])
    && StrictlyIncreasing(RowDates(t.rows))
  }

  /** The master calendar `data.index`. */
  function Calendar(t: Table): seq<Date> {
    RowDates(t.rows)
  }

  /** Position of a column name, or None when the table has no such column. */
  function ColumnIndex(columns: seq<string>, name: string): (r: Option<nat>)
    ensures r.None? <==> name !in columns
    ensures r.Some? ==> r.value < |columns| && columns[r.value] == name
  {
    if columns == [] then None
    else if columns[0] == name then Some(0)
    else match ColumnIndex(columns[1..], name)
      case None => None
      case Some(k) => Some(k + 1)
  }

  /** `data[name]`: the column of one district, dated by the index; None
      where pandas raises KeyError. */
  function Column(t: Table, name: string): (r: Option<seq<Sample>>)
    requires WellFormed(t)
    ensures r.None? <==> name !in t.columns
    ensures r.Some? ==> SampleDates(r.value) == Calendar(t)
    ensures r.Some? ==> forall i :: 0 <= i < |t.rows| ==>
      r.value[i].value == t.rows[i].cells[ColumnIndex(t.columns, name).value]
  {
    match ColumnIndex(t.columns, name)
    case None => None
    case Some(k) =>
      assert forall i :: 0 <= i < |t.rows| ==> t.rows[i] in t.rows;
      Some(seq(|t.rows|, i requires 0 <= i < |t.rows| => Sample(t.rows[i].date, t.rows[i].cells[k])))
  }

  /** `series.dropna()`: the samples that have a value, in their order. */
  function DropMissing(s: seq<Sample>): (r: seq<Price>)
    ensures forall p :: p in r <==> Sample(p.date, Some(p.price)) in s
    ensures |r| <= |s|
  {
    if s == [] then []
    else
      var rest := DropMissing(s[1..]);
      match s[0].value
      case None => rest
      case Some(v) => [Price(s[0].date, v)] + rest
  }

  /** Dropping missing samples keeps the index sorted and unique. */
  lemma {:induction false} DropMissingKeepsOrder(s: seq<Sample>)
    requires StrictlyIncreasing(SampleDates(s))
    ensures StrictlyIncreasing(PriceDates(DropMissing(s)))
  {
    if s != [] {
      var tail := SampleDates(s[1..]);
      assert tail == SampleDates(s)[1..];
      DropMissingKeepsOrder(s[1..]);
      var rest := DropMissing(s[1..]);
      if s[0].value.Some? {
        LaterSamples(s);
        forall p | p in rest ensures Ordinal(s[0].date) < Ordinal(p.date) {
          assert Sample(p.date, Some(p.price)) in s[1..];
        }
        IncreasingCons(s[0].date, PriceDates(rest));
        assert PriceDates(DropMissing(s)) == [s[0].date] + PriceDates(rest);
      }
    }
  }

  lemma {:induction false} LaterSamples(s: seq<Sample>)
    requires s != [] && StrictlyIncreasing(SampleDates(s))
    ensures forall x :: x in s[1..] ==> Ordinal(s[0].date) < Ordinal(x.date)
  {
    var dates := SampleDates(s);
    assert forall i :: 0 < i < |s| ==> Ordinal(dates[0]) < Ordinal(dates[i]);
  }
}
