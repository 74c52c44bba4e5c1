/** The rows `update_chart` plots: the table restricted to a date range,
    either with every district column or with one district's column. */
module Chart {
  import opened Wrappers
  import opened Dates
  import opened DataSet

  /** The selector value that stands for the whole table. */
  const AllDistricts: string := "All Districts"

  /** What the figure is drawn from: the column names and the kept rows. */
  datatype ChartData = ChartData(columns: seq<string>, rows: seq<Row>)

  predicate InRange(d: Date, start: Date, end: Date) {
    Ordinal(start) <= Ordinal(d) <= Ordinal(end)
  }

  /** `rows.loc[(index >= start) & (index <= end)]`: the rows dated inside
      [start, end], both ends included, in their original order. Boundaries
      are not snapped. */
  function FilterRows(rows: seq<Row>, start: Date, end: Date): (r: seq<Row>)
    ensures forall x :: x in r <==> x in rows && InRange(x.date, start, end)
    ensures |r| <= |rows|
  {
    if rows == [] then []
    else
      var rest := FilterRows(rows[1..], start, end);
      if InRange(rows[0].date, start, end) then [rows[0]] + rest else rest
  }

  /** Filtering keeps a sorted index sorted, so the kept rows are exactly
      the in-range rows, in date order. */
  lemma {:induction false} FilterRowsKeepsOrder(rows: seq<Row>, start: Date, end: Date)
    requires StrictlyIncreasing(RowDates(rows))
    ensures StrictlyIncreasing(RowDates(FilterRows(rows, start, end)))
  {
    if rows != [] {
      assert RowDates(rows[1..]) == RowDates(rows)[1..];
      FilterRowsKeepsOrder(rows[1..], start, end);
      var rest := FilterRows(rows[1..], start, end);
      if InRange(rows[0].date, start, end) {
        LaterRows(rows);
        forall e | e in RowDates(rest) ensures Ordinal(rows[0].date) < Ordinal(e) {
          var k :| 0 <= k < |rest| && RowDates(rest)[k] == e;
          assert rest[k] in rows[1..];
        }
        IncreasingCons(rows[0].date, RowDates(rest));
        assert RowDates(FilterRows(rows, start, end)) == [rows[0].date] + RowDates(rest);
      }
    }
  }

  lemma {:induction false} LaterRows(rows: seq<Row>)
    requires rows != [] && StrictlyIncreasing(RowDates(rows))
    ensures forall x :: x in rows[1..] ==> Ordinal(rows[0].date) < Ordinal(x.date)
  {
    var dates := RowDates(rows);
    assert forall i :: 0 < i < |rows| ==> Ordinal(dates[0]) < Ordinal(dates[i]);
  }

  /** `data[district]` as plotted: each row reduced to its cell in column k. */
  function SelectColumn(rows: seq<Row>, k: nat): (r: seq<Row>)
    requires forall x :: x in rows ==> k < |x.cells|
    ensures |r| == |rows|
    ensures forall i :: 0 <= i < |rows| ==> r[i] == Row(rows[i].date, [rows[i].cells[k]])
  {
    if rows == [] then [] else [Row(rows[0].date, [rows[0].cells[k]])] + SelectColumn(rows[1..], k)
  }

  /** `update_chart(_, district, start, end)`, up to drawing the figure.
      A district the table does not have is a KeyError in pandas. */
  function UpdateChart(t: Table, district: string, start: Date, end: Date): (r: Result<ChartData, QueryError>)
    requires WellFormed(t)
    ensures r.Err? <==> district != AllDistricts && district !in t.columns
    ensures r.Ok? && district == AllDistricts ==>
      r.value.columns == t.columns
      && forall x :: x in r.value.rows <==> x in t.rows && InRange(x.date, start, end)
    ensures r.Ok? && district != AllDistricts ==>
      r.value.columns == [district]
      && exists k :: (0 <= k < |t.columns| && t.columns[k] == district
         && forall x :: x in r.value.rows <==>
              exists y :: y in t.rows && InRange(y.date, start, end) && x == Row(y.date, [y.cells[k]]))
    ensures r.Ok? ==> StrictlyIncreasing(RowDates(r.value.rows))
  {
    FilterRowsKeepsOrder(t.rows, start, end);
    if district == AllDistricts then
      Ok(ChartData(t.columns, FilterRows(t.rows, start, end)))
    else
      match ColumnIndex(t.columns, district)
      case None => Err(UnknownDistrict)
      case Some(k) =>
        var rows := FilterRows(SelectColumn(t.rows, k), start, end);
        DistrictRows(t.rows, k, start, end);
        Ok(ChartData([district], rows))
  }

  /** The rows plotted for column k: one per in-range row of the table, with
      that row's date and its cell in column k, in date order. */
  lemma {:induction false} DistrictRows(rows: seq<Row>, k: nat, start: Date, end: Date)
    requires forall x :: x in rows ==> k < |x.cells|
    requires StrictlyIncreasing(RowDates(rows))
    ensures var plotted := FilterRows(SelectColumn(rows, k), start, end);
      StrictlyIncreasing(RowDates(plotted))
      && forall x :: x in plotted <==>
           exists y :: y in rows && InRange(y.date, start, end) && x == Row(y.date, [y.cells[k]])
  {
    var kept := FilterRows(rows, start, end);
    FilterSelectCommute(rows, k, start, end);
    FilterRowsKeepsOrder(rows, start, end);
    assert forall x :: x in kept ==> k < |x.cells|;
    SelectColumnKeepsDates(kept, k);
    SelectColumnMembers(rows, k);
  }

  /** A row of the selected column is a row of the table cut down to column k. */
  lemma {:induction false} SelectColumnMembers(rows: seq<Row>, k: nat)
    requires forall x :: x in rows ==> k < |x.cells|
    ensures forall x :: x in SelectColumn(rows, k) <==> exists y :: y in rows && x == Row(y.date, [y.cells[k]])
  {
    var selected := SelectColumn(rows, k);
    forall x | x in selected
      ensures exists y :: y in rows && x == Row(y.date, [y.cells[k]])
    {
      var i :| 0 <= i < |selected| && selected[i] == x;
      assert rows[i] in rows;
    }
    forall y | y in rows
      ensures Row(y.date, [y.cells[k]]) in selected
    {
      var i :| 0 <= i < |rows| && rows[i] == y;
      assert selected[i] == Row(y.date, [y.cells[k]]);
    }
  }

  /** Keeping one column does not change which rows are kept. */
  lemma {:induction false} FilterSelectCommute(rows: seq<Row>, k: nat, start: Date, end: Date)
    requires forall x :: x in rows ==> k < |x.cells|
    ensures FilterRows(SelectColumn(rows, k), start, end) == SelectColumn(FilterRows(rows, start, end), k)
  {
    if rows != [] {
      assert SelectColumn(rows, k)[1..] == SelectColumn(rows[1..], k);
      FilterSelectCommute(rows[1..], k, start, end);
      var rest := FilterRows(rows[1..], start, end);
      if InRange(rows[0].date, start, end) {
        assert FilterRows(rows, start, end) == [rows[0]] + rest;
        assert SelectColumn([rows[0]] + rest, k)[1..] == SelectColumn(rest, k);
      }
    }
  }

  /** The chart for one district is drawn on exactly the dates of the chart
      for all districts. */
  lemma {:induction false} ChartDatesAgree(t: Table, district: string, start: Date, end: Date)
    requires WellFormed(t) && district != AllDistricts && district in t.columns
    ensures UpdateChart(t, district, start, end).Ok? && UpdateChart(t, AllDistricts, start, end).Ok?
    ensures RowDates(UpdateChart(t, district, start, end).value.rows)
         == RowDates(UpdateChart(t, AllDistricts, start, end).value.rows)
  {
    var k := ColumnIndex(t.columns, district).value;
    FilterSelectCommute(t.rows, k, start, end);
    var kept := FilterRows(t.rows, start, end);
    assert forall x :: x in kept ==> k < |x.cells|;
    SelectColumnKeepsDates(kept, k);
  }

  lemma {:induction false} SelectColumnKeepsDates(rows: seq<Row>, k: nat)
    requires forall x :: x in rows ==> k < |x.cells|
    ensures RowDates(SelectColumn(rows, k)) == RowDates(rows)
  {
    assert forall i :: 0 <= i < |rows| ==> RowDates(SelectColumn(rows, k))[i] == RowDates(rows)[i];
  }
}
