# Lima housing: date ranges and returns

A Dafny model of the logic behind the Lima apartment-price dashboard
(`src/app.py`). The dashboard shows quarterly prices per district. A user
picks a district and a date range. The application then:

- checks that the range is long enough (`check_min_timeframe`), and opens an
  alert and disables the search button when it is not (`verify_time_range`);
- draws the rows of the price table that fall inside the range, for every
  district or for one (`update_chart`);
- reports, for one district, the percentage change of its price between the
  sampled dates nearest the range's ends and the time between them in years,
  or in months when under a year (`update_district_info`, `calculate_returns`).

The model is pure: datatypes, functions and lemmas, in one module per concern.

- `Dates`: Gregorian dates and a day number (`Ordinal`, the proleptic
  ordinal Python uses, 0001-01-01 being day 1), defined by recursion over
  months. It is proved to order dates as the calendar does.
- `DateRanges`: `pd.date_range(start, end, freq='Y'|'M', inclusive='left')`
  as the sequence of period ends (December 31, or the last day of a month)
  in `[start, end)`, with its length in closed form. When `start` and `end`
  are the same date, pandas keeps that date if it is a period end.
- `Snapping`: moving a requested start forward to the first sampled date on
  or after it, and a requested end back to the last one on or before it.
  An empty selection (pandas' NaT) is `None`.
- `DataSet`: the loaded price table (a sorted unique date index, one column
  per district, missing cells as `None`), a column as a series, and
  `dropna` on it.
- `Timeframe`: the minimum-span rule and the alert/button pair it drives.
- `Chart`: the rows and columns `update_chart` plots.
- `Returns`: percentage change, duration and `calculate_returns`.
- `DistrictInfo`: the branches of `update_district_info`.

Behaviour the model makes explicit:

- Timestamps in the table are midnights, so comparing and subtracting them
  is comparing and subtracting day numbers.
- A boundary that does not snap makes the range invalid, not an error,
  because a comparison with NaT is false.
- In `calculate_returns` the same NaT reaches `df.loc[NaT]`, which raises
  KeyError. The model returns `Err(NoDataInRange)` there.
- An unknown district is a KeyError at `data[district]`. The model returns
  `UnknownDistrict` there.
- `update_district_info` returns `None` for an invalid range, so Dash leaves
  the panel unchanged. The model returns `NotUpdated`.
- The validity check looks at the whole table's calendar. The return is then
  computed on the district's column after its missing samples are dropped.
  A district can therefore have priced samples before and after the range
  but none inside it. In that case the snapped start comes after the snapped
  end. The code still reads both prices and reports their change, with a
  duration of 0 months. `Snapping.SnapsInOrderIff` characterises when this
  happens.
- For the same reason a district may have exactly one priced sample in the
  range. Both boundaries then snap to it. `pd.date_range` keeps a single
  period end when start and end are equal, so the duration is one year on
  a December 31, one month on another month end, and 0 months otherwise
  (`Returns.SameYearEndExample`, `Returns.SameMonthEndExample`). The
  percentage change is then 0, or non-finite for a zero price.

## Behaviour worth noting

- Durations count December 31 and month-end dates, the anchors pandas
  uses for `'Y'` and `'M'`. They do not count January 1 or the first of a
  month. So 2019-12-31 to 2020-01-14 is one year (`Returns.YearEndExample`).
- An inverted snapped range is not reported as an error. It gives a return
  with a 0-month duration.
- A zero start price gives a non-finite percentage, not an error.
- A zero-length range is invalid for every threshold of zero or more. A
  negative threshold accepts it, as the strict comparison at line 242 does.

## Model

| member | source | states |
|---|---|---|
| `Dates.OrdinalIsCalendarOrder` | src/app.py:237-240 | comparing two parsed dates by day number is comparing them by (year, month, day), and equal day numbers mean the same date |
| `Snapping.FirstOnOrAfter` | src/app.py:239 | the snapped start is a sampled date on or after the requested start and no later than any other such date; it is absent exactly when every sampled date is before the start |
| `Snapping.LastOnOrBefore` | src/app.py:240 | the snapped end is a sampled date on or before the requested end and no earlier than any other such date; it is absent exactly when every sampled date is after the end |
| `Snapping.SnapsInOrderIff` | src/app.py:251-252 | both boundaries snap with start on or before end exactly when some sampled date lies in the requested range |
| `Timeframe.CheckMinTimeframe` | src/app.py:230-244 | the range is valid exactly when some sampled date on or after the start and some on or before the end lie more than `threshold` days apart, which is the snapped end minus the snapped start exceeding it |
| `Timeframe.ThresholdMonotone` | src/app.py:242-244 | a range valid at one threshold is valid at every lower threshold |
| `Timeframe.ShortRangeInvalid` | src/app.py:239-244 | a requested range no longer than the threshold is never valid |
| `Timeframe.SameSnappedDateInvalid` | src/app.py:241-244 | when both boundaries snap to the same date the range is invalid for any non-negative threshold |
| `Timeframe.UnsnappedRangeInvalid` | src/app.py:239-244 | when either boundary finds no sampled date the flag stays false rather than failing |
| `Timeframe.VerifyTimeRange` | src/app.py:172-178 | the alert is open and the search button disabled together, exactly when the range fails the 89-day rule |
| `Chart.FilterRows` | src/app.py:189 | the kept rows are exactly the rows dated from start to end, both ends included, without snapping |
| `Chart.FilterRowsKeepsOrder` | src/app.py:189 | filtering a date-sorted table leaves the kept rows in date order |
| `Chart.SelectColumn` | src/app.py:191 | selecting a district keeps every row, in order, with only that district's cell |
| `Chart.SelectColumnKeepsDates` | src/app.py:191 | selecting one district's column keeps the table's date index unchanged |
| `Chart.UpdateChart` | src/app.py:186-193 | an unknown district is an error; 'All Districts' plots every column and exactly the table's rows dated in the range; a named district plots only its own column, one row per in-range table row with that row's date and its cell in the district's column; the plotted rows are in date order |
| `Chart.DistrictRows` | src/app.py:191-193 | the rows plotted for one column are exactly the in-range table rows cut down to that column, in date order |
| `Chart.SelectColumnMembers` | src/app.py:191 | a row of the selected column is exactly a table row cut down to that column |
| `Chart.FilterSelectCommute` | src/app.py:191-193 | selecting the column then filtering the dates gives the same rows as filtering then selecting |
| `Chart.ChartDatesAgree` | src/app.py:188-193 | the chart for one district is drawn on exactly the dates of the chart for all districts |
| `DataSet.ColumnIndex` | src/app.py:191 | a district name is found exactly when it is a column, and then at its position |
| `DataSet.Column` | src/app.py:222 | a district's series exists exactly when it is a column, is indexed by the table's calendar, and holds that column's cells |
| `DataSet.DropMissing` | src/app.py:223 | the cleaned series holds exactly the priced samples of the column |
| `DataSet.DropMissingKeepsOrder` | src/app.py:223 | dropping missing samples keeps a sorted unique index sorted and unique |
| `DateRanges.DateRange` | src/app.py:256-259 | the generated dates are exactly the calendar period ends in `[start, end)`, or the single date when start equals end and is a period end; in increasing order; one per period from that of start up to that of end, or one in the equal case |
| `Returns.PercentChange` | src/app.py:255 | the change is non-finite exactly when the start price is zero; otherwise growing the start price by it gives the end price |
| `Returns.PercentSign` | src/app.py:255 | with a positive start price the change is positive when the price rose and negative when it fell |
| `Returns.DurationBetween` | src/app.py:256-260 | the duration is the number of year ends crossed when at least one, in years; otherwise the number of month ends crossed, in months, never negative; equal dates on a December 31 give one year and on another month end one month |
| `Returns.SameYearEndExample` | src/app.py:256-257 | a start and end on the same December 31 give one year |
| `Returns.SameMonthEndExample` | src/app.py:258-260 | a start and end on the same end of March give one month, and on the same mid-month day 0 months |
| `Returns.OneYearExample` | src/app.py:256-257 | from 2020-01-01 to 2021-01-01 the duration is one year |
| `Returns.ThreeMonthsExample` | src/app.py:258-260 | from 2020-01-01 to 2020-04-01 no year end is crossed, so the duration falls back to three months |
| `Returns.YearEndExample` | src/app.py:256-257 | from 2019-12-31 to 2020-01-14 the duration is already one year, because December 31 is the year anchor |
| `Returns.PriceOn` | src/app.py:253-254 | the price read at a date is the series' price there, and absent exactly when the date is not in the index |
| `Returns.CalculateReturns` | src/app.py:247-261 | it fails exactly when a boundary finds no date; otherwise it reads the prices at the first date on or after the start and the last on or before the end, and returns their change and the duration between them |
| `DistrictInfo.UpdateDistrictInfo` | src/app.py:212-227 | the panel changes only for a range valid on the table's calendar; 'All Districts' gives the empty name, the prompt and an empty return; an unknown district fails; a known district is reported exactly when its column has a priced sample on or after the start and one on or before the end, and fails with no data otherwise; a report carries the district's name and the return between the earliest and latest priced samples in range |
| `DistrictInfo.Searched` | src/app.py:216-227 | after a valid range the panel always changes: 'All Districts' gives the prompt, an unknown district fails, a known district is reported exactly when priced samples bound the range and fails with no data otherwise |
| `DistrictInfo.ReportOn` | src/app.py:221-224 | a district's panel is a report under its own name, with the return between the earliest and latest priced samples in range, exactly when such samples exist, and the failure to find a date in range otherwise |
| `DistrictInfo.CleanedReturns` | src/app.py:223-224 | `calculate_returns` on the column after `dropna` fails exactly when no priced sample lies on or after the start or none on or before the end, and otherwise reads the earliest and latest priced samples |
| `DistrictInfo.PricedBounds` | src/app.py:223 | the cleaned series has a date on or after the start, or on or before the end, exactly when the column has a priced sample there |
| `DistrictInfo.ReportUsesPresentPrices` | src/app.py:212-227 | after a valid search for a known district, a report is made exactly when priced samples bound the range, its return is read at the earliest and latest of them, and otherwise the panel fails with no data, so missing samples are never used |
| `DistrictInfo.PresentSamplesKept` | src/app.py:223 | every priced sample keeps its date in the cleaned series |

## Left out

- Dash layout, callback registration and the server (src/app.py:21-146, 264-266). They are UI and server plumbing, and the callbacks are modelled as plain functions of their inputs.
- Loading the CSV and converting its index to dates (src/app.py:13-19). This is file I/O. The table is a parameter, already loaded and sorted.
- Building the plotly figure and its axis labels (src/app.py:194-202). This is rendering only. `Chart.UpdateChart` returns the data the figure is drawn from.
- `update_visible_date` (src/app.py:152-165). It reads Dash's callback context to find which picker fired, so it is event plumbing.
- Parsing the `YYYY-MM-DD` strings with `strptime` (src/app.py:237-238, 249-250). Dates enter the model already parsed, as calendar dates.
- Returns.PercentChange: the value is the exact ratio. Float64 division and numpy's half-to-even `round(…, 0)` are not modelled. A zero start price is a single `NonFinite` value, without telling inf from nan.
- The label strings 'Return of investment in {} {} is' and '{}%' (src/app.py:225-226). They are presentation. `DistrictInfo.Panel` carries the values they format.
- pandas' Timestamp range (years 1677 to 2262). Dates are unbounded Gregorian dates.
- The in-place `dropna` (src/app.py:223) can also write through to the cached column of the global table. The model treats it as producing a new series and leaves the table unchanged.
