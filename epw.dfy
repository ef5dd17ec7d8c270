/**
 * The EPW table: the 35 columns of `epw_data`, how `pd.DataFrame` lines
 * them up, and how `to_csv` and the static header turn them into text.
 */
module Epw {
  import opened Wrappers
  import opened Text
  import opened Calendar
  import opened Frames

  /** One cell as written by `to_csv`: a missing value (None or NaN) is written empty. */
  datatype Field = Int(i: int) | Float(r: real) | Str(s: string) | Empty

  // ---------------------------------------------------------------------
  // Series and their labels
  // ---------------------------------------------------------------------

  /** A pandas Series: values under strictly increasing row labels. */
  datatype Series = Series(labels: seq<int>, values: seq<real>)

  predicate WellFormedSeries(s: Series) {
    |s.labels| == |s.values| && Increasing(s.labels)
  }

  lemma IncreasingTail(a: seq<int>)
    requires Increasing(a) && a != []
    ensures Increasing(a[1..])
    ensures forall x :: x in a <==> x == a[0] || x in a[1..]
    ensures forall x :: x in a[1..] ==> x > a[0]
  {
    assert a == [a[0]] + a[1..];
  }

  lemma ConsIncreasing(h: int, rest: seq<int>)
    requires Increasing(rest) && forall x :: x in rest ==> x > h
    ensures Increasing([h] + rest)
  {
    assert forall i :: 0 <= i < |rest| ==> rest[i] in rest;
  }

  /** The sorted union of two label sequences. */
  function Merge(a: seq<int>, b: seq<int>): (m: seq<int>)
    requires Increasing(a) && Increasing(b)
    ensures Increasing(m)
    ensures forall x :: x in m <==> x in a || x in b
    decreases |a| + |b|
  {
    if a == [] then b
    else if b == [] then a
    else
      IncreasingTail(a);
      IncreasingTail(b);
      if a[0] < b[0] then
        var rest := Merge(a[1..], b);
        ConsIncreasing(a[0], rest);
        [a[0]] + rest
      else if b[0] < a[0] then
        var rest := Merge(a, b[1..]);
        ConsIncreasing(b[0], rest);
        [b[0]] + rest
      else
        var rest := Merge(a[1..], b[1..]);
        ConsIncreasing(a[0], rest);
        [a[0]] + rest
  }

  /** Two strictly increasing sequences with the same elements are equal. */
  lemma {:induction false} IncreasingUnique(a: seq<int>, b: seq<int>)
    requires Increasing(a) && Increasing(b)
    requires forall x :: x in a <==> x in b
    ensures a == b
    decreases |a|
  {
    assert a != [] <==> b != [] by {
      if a != [] {
        assert a[0] in b;
      }
      if b != [] {
        assert b[0] in a;
      }
    }
    if a != [] {
      assert a[0] in b && b[0] in a;
      assert a[0] == b[0];
      forall x
        ensures x in a[1..] <==> x in b[1..]
      {
        if x in a[1..] {
          assert x in b && x != b[0];
        }
        if x in b[1..] {
          assert x in a && x != a[0];
        }
      }
      IncreasingUnique(a[1..], b[1..]);
      assert a == [a[0]] + a[1..] && b == [b[0]] + b[1..];
    }
  }

  /** Where label `l` sits, or the length when it is absent. */
  function Position(labels: seq<int>, l: int): (i: nat)
    ensures i <= |labels|
    ensures forall j :: 0 <= j < i ==> labels[j] != l
    ensures i < |labels| ==> labels[i] == l
  {
    if labels == [] then 0
    else if labels[0] == l then 0
    else 1 + Position(labels[1..], l)
  }

  /** `series[l]` after reindexing: the value under label `l`, or a missing value. */
  function At(s: Series, l: int): (f: Field)
    requires WellFormedSeries(s)
    ensures f.Empty? <==> l !in s.labels
    ensures forall i :: 0 <= i < |s.labels| && s.labels[i] == l ==> f == Float(s.values[i])
  {
    var i := Position(s.labels, l);
    if i < |s.labels| then Float(s.values[i]) else Empty
  }

  // ---------------------------------------------------------------------
  // pd.DataFrame(epw_data)
  // ---------------------------------------------------------------------

  /** A dictionary value: a list (by position), a Series (by label), or `None`. */
  datatype Column = Listed(fields: seq<Field>) | Aligned(series: Series) | Blank

  function Labels(c: Column): seq<int> {
    if c.Aligned? then c.series.labels else []
  }

  predicate ColumnsWellFormed(cols: seq<Column>) {
    forall j :: 0 <= j < |cols| && cols[j].Aligned? ==> WellFormedSeries(cols[j].series)
  }

  /** The union of the Series' labels, sorted. */
  function FrameIndex(cols: seq<Column>): (index: seq<int>)
    requires ColumnsWellFormed(cols)
    ensures Increasing(index)
    ensures forall x :: x in index <==> exists j :: 0 <= j < |cols| && x in Labels(cols[j])
    decreases |cols|
  {
    if cols == [] then []
    else
      var n := |cols| - 1;
      assert forall j :: 0 <= j < n ==> cols[..n][j] == cols[j];
      Merge(FrameIndex(cols[..n]), Labels(cols[n]))
  }

  predicate HasSeries(cols: seq<Column>) {
    exists j :: 0 <= j < |cols| && cols[j].Aligned?
  }

  function FirstListLength(cols: seq<Column>): nat {
    if cols == [] then 0 else if cols[0].Listed? then |cols[0].fields| else FirstListLength(cols[1..])
  }

  /** The row labels of the new frame: the Series' labels, or 0 .. n-1 when there is no Series. */
  function RowIndex(cols: seq<Column>): seq<int>
    requires ColumnsWellFormed(cols)
  {
    if HasSeries(cols) then FrameIndex(cols) else seq(FirstListLength(cols), i => i)
  }

  /** Every list is as long as the index (otherwise pandas raises a ValueError). */
  predicate ListsFit(cols: seq<Column>, n: int) {
    forall j :: 0 <= j < |cols| && cols[j].Listed? ==> |cols[j].fields| == n
  }

  /** Cell `k` of a column, the row with label `key`. */
  function Cell(c: Column, k: int, key: int): Field
    requires c.Listed? ==> 0 <= k < |c.fields|
    requires c.Aligned? ==> WellFormedSeries(c.series)
  {
    match c
    case Listed(fs) => fs[k]
    case Aligned(s) => At(s, key)
    case Blank => Empty
  }

  datatype FrameError = LengthMismatch

  /**
   * `pd.DataFrame(d)` for a dictionary of lists, Series and `None`: the rows
   * follow the union of the Series' labels; a Series gives each row its value
   * under that label (missing values where it has none); a list gives its
   * values by position and must have one per row; `None` fills the column
   * with missing values.
   */
  function ToFrame(cols: seq<Column>): (r: Result<seq<seq<Field>>, FrameError>)
    requires ColumnsWellFormed(cols)
    ensures r.Success? <==> ListsFit(cols, |RowIndex(cols)|)
    ensures r.Success? ==>
      && |r.value| == |RowIndex(cols)|
      && forall k :: 0 <= k < |r.value| ==>
           && |r.value[k]| == |cols|
           && forall j :: 0 <= j < |cols| ==> r.value[k][j] == Cell(cols[j], k, RowIndex(cols)[k])
  {
    var index := RowIndex(cols);
    if !ListsFit(cols, |index|) then Failure(LengthMismatch)
    else
      Success(seq(|index|, k requires 0 <= k < |index| =>
        seq(|cols|, j requires 0 <= j < |cols| => Cell(cols[j], k, index[k]))))
  }

  /** When every Series carries the same labels `l`, the frame's rows are exactly `l`. */
  lemma SharedIndex(cols: seq<Column>, l: seq<int>)
    requires ColumnsWellFormed(cols) && Increasing(l) && HasSeries(cols)
    requires forall j :: 0 <= j < |cols| && cols[j].Aligned? ==> cols[j].series.labels == l
    ensures RowIndex(cols) == l
  {
    var index := FrameIndex(cols);
    var j0 :| 0 <= j0 < |cols| && cols[j0].Aligned?;
    forall x
      ensures x in index <==> x in l
    {
      if x in l {
        assert x in Labels(cols[j0]);
      }
    }
    IncreasingUnique(index, l);
  }

  // ---------------------------------------------------------------------
  // The EPW schema
  // ---------------------------------------------------------------------

  const FieldCount := 35

  /** Key `j` of `epw_data`, in order. */
  function ColumnName(j: nat): string
    requires j < FieldCount
  {
    if j == 0 then "Year"
    else if j == 1 then "Month"
    else if j == 2 then "Day"
    else if j == 3 then "Hour"
    else if j == 4 then "Minute"
    else if j == 5 then "Data Source and Uncertainty Flags"
    else if j == 6 then "Dry Bulb Temperature"
    else if j == 7 then "Dew Point Temperature"
    else if j == 8 then "Relative Humidity"
    else if j == 9 then "Atmospheric Station Pressure"
    else if j == 10 then "Extraterrestrial Horizontal Radiation"
    else if j == 11 then "Extraterrestrial Direct Normal Radiation"
    else if j == 12 then "Horizontal Infrared Radiation Intensity"
    else if j == 13 then "Global Horizontal Radiation"
    else if j == 14 then "Direct Normal Radiation"
    else if j == 15 then "Diffuse Horizontal Radiation"
    else if j == 16 then "Global Horizontal Illuminance"
    else if j == 17 then "Direct Normal Illuminance"
    else if j == 18 then "Diffuse Horizontal Illuminance"
    else if j == 19 then "Zenith Luminance"
    else if j == 20 then "Wind Direction"
    else if j == 21 then "Wind Speed"
    else if j == 22 then "Total Sky Cover"
    else if j == 23 then "Opaque Sky Cover"
    else if j == 24 then "Visibility"
    else if j == 25 then "Ceiling Height"
    else if j == 26 then "Present Weather Observation"
    else if j == 27 then "Present Weather Codes"
    else if j == 28 then "Precipitable Water"
    else if j == 29 then "Aerosol Optical Depth"
    else if j == 30 then "Snow Depth"
    else if j == 31 then "Days Since Last Snowfall"
    else if j == 32 then "Albedo"
    else if j == 33 then "Liquid Precipitation Depth"
    else "Liquid Precipitation Quantity"
  }

  const Flags := "?9?9?9?9E0?9?9?9?9*9?9?9?9?9?9?9?9?9*9*9?9*9"

  /** The value of each column that holds the same value on every row, by position. */
  function Sentinel(j: int): Option<Field> {
    if j == 5 then Some(Str(Flags))
    else if 10 <= j <= 12 then Some(Int(9999))
    else if 16 <= j <= 18 then Some(Int(999999))
    else if j == 19 || j == 24 then Some(Int(9999))
    else if j == 25 then Some(Int(99999))
    else if j == 26 then Some(Int(9))
    else if j == 27 then Some(Int(999999999))
    else if j == 28 then Some(Int(999))
    else if j == 29 then Some(Float(0.999))
    else if j == 31 then Some(Int(99))
    else if j == 32 then Some(Float(0.99))
    else if j == 34 then Some(Int(0))
    else None
  }

  /** The thirteen columns computed from the data, each a Series or `None`. */
  datatype Measured = Measured(
    dryBulb: Column, dewPoint: Column, humidity: Column, pressure: Column,
    ghi: Column, dni: Column, dhi: Column,
    windDirection: Column, windSpeed: Column,
    totalSky: Column, opaqueSky: Column,
    snow: Column, precipitation: Column)

  /** Where each measured column sits in the row. */
  function MeasuredAt(m: Measured, j: int): Option<Column> {
    if j == 6 then Some(m.dryBulb)
    else if j == 7 then Some(m.dewPoint)
    else if j == 8 then Some(m.humidity)
    else if j == 9 then Some(m.pressure)
    else if j == 13 then Some(m.ghi)
    else if j == 14 then Some(m.dni)
    else if j == 15 then Some(m.dhi)
    else if j == 20 then Some(m.windDirection)
    else if j == 21 then Some(m.windSpeed)
    else if j == 22 then Some(m.totalSky)
    else if j == 23 then Some(m.opaqueSky)
    else if j == 30 then Some(m.snow)
    else if j == 33 then Some(m.precipitation)
    else None
  }

  /** A measured column is a Series or `None`, never a list. */
  predicate SeriesOrNone(c: Column) {
    c.Blank? || (c.Aligned? && WellFormedSeries(c.series))
  }

  predicate MeasuredWellFormed(m: Measured) {
    forall j :: 0 <= j < FieldCount && MeasuredAt(m, j).Some? ==> SeriesOrNone(MeasuredAt(m, j).value)
  }

  lemma MeasuredWellFormedIntro(m: Measured)
    requires
    && SeriesOrNone(m.dryBulb) && SeriesOrNone(m.dewPoint) && SeriesOrNone(m.humidity) && SeriesOrNone(m.pressure)
    && SeriesOrNone(m.ghi) && SeriesOrNone(m.dni) && SeriesOrNone(m.dhi)
    && SeriesOrNone(m.windDirection) && SeriesOrNone(m.windSpeed)
    && SeriesOrNone(m.totalSky) && SeriesOrNone(m.opaqueSky)
    && SeriesOrNone(m.snow) && SeriesOrNone(m.precipitation)
    ensures MeasuredWellFormed(m)
  {
  }

  function Repeat(n: nat, f: Field): (fs: seq<Field>)
    ensures |fs| == n && forall k :: 0 <= k < n ==> fs[k] == f
  {
    seq(n, k => f)
  }

  /** Field `j` of the date columns for one grid mark: Year, Month, Day, Hour + 1, and the constant Minute 30. */
  function DateField(c: Civil, j: int): Field {
    if j == 0 then Int(c.year)
    else if j == 1 then Int(c.month)
    else if j == 2 then Int(c.day)
    else if j == 3 then Int(c.hour + 1)
    else Int(30)
  }

  /** Date column `j` over the grid marks. */
  function DateColumn(dates: seq<Civil>, j: int): (c: Column)
    requires 0 <= j < 5
    ensures c.Listed? && |c.fields| == |dates|
    ensures forall k :: 0 <= k < |dates| ==> c.fields[k] == DateField(dates[k], j)
  {
    Listed(seq(|dates|, k requires 0 <= k < |dates| => DateField(dates[k], j)))
  }

  /** `epw_data` as columns, for the dates of the analysis grid. */
  function EpwColumns(dates: seq<Civil>, m: Measured): (cols: seq<Column>)
    ensures |cols| == FieldCount
  {
    seq(FieldCount, j requires 0 <= j < FieldCount =>
      if j < 5 then DateColumn(dates, j)
      else if Sentinel(j).Some? then Listed(Repeat(|dates|, Sentinel(j).value))
      else if MeasuredAt(m, j).Some? then MeasuredAt(m, j).value
      else Blank)
  }

  /** Every position after the five date columns is either a sentinel or a measured column, never both. */
  lemma SchemaComplete(m: Measured, j: int)
    ensures 5 <= j < FieldCount ==> (Sentinel(j).Some? <==> MeasuredAt(m, j).None?)
    ensures Sentinel(j).Some? || MeasuredAt(m, j).Some? ==> 5 <= j < FieldCount
  {
  }

  lemma EpwColumnsWellFormed(dates: seq<Civil>, m: Measured)
    requires MeasuredWellFormed(m)
    ensures ColumnsWellFormed(EpwColumns(dates, m))
  {
    var cols := EpwColumns(dates, m);
    forall j | 0 <= j < |cols| && cols[j].Aligned?
      ensures WellFormedSeries(cols[j].series)
    {
      assert j >= 5 && Sentinel(j).None?;
      assert cols[j] == MeasuredAt(m, j).value;
    }
  }

  /**
   * A frame built from `epw_data` has 35 fields per row; row `k` carries
   * the date of grid mark `k`, its hour plus one, minute 30, the constant
   * sentinels, and the measured columns' values under the row's label.
   */
  lemma EpwRows(dates: seq<Civil>, m: Measured, k: int)
    requires MeasuredWellFormed(m)
    requires ColumnsWellFormed(EpwColumns(dates, m))
    requires ToFrame(EpwColumns(dates, m)).Success?
    requires 0 <= k < |ToFrame(EpwColumns(dates, m)).value|
    ensures var cols := EpwColumns(dates, m);
            var row := ToFrame(cols).value[k];
            var key := RowIndex(cols)[k];
      && |row| == FieldCount && k < |dates|
      && row[0] == Int(dates[k].year) && row[1] == Int(dates[k].month) && row[2] == Int(dates[k].day)
      && row[3] == Int(dates[k].hour + 1) && row[4] == Int(30)
      && (forall j :: 0 <= j < |row| && Sentinel(j).Some? ==> row[j] == Sentinel(j).value)
      && (forall j :: 0 <= j < |row| && Sentinel(j).None? && MeasuredAt(m, j).Some? ==>
            row[j] == Cell(MeasuredAt(m, j).value, k, key))
  {
    EpwDateCells(dates, m, k);
    EpwSentinelCells(dates, m, k);
    EpwMeasuredCells(dates, m, k);
  }

  lemma EpwDateCells(dates: seq<Civil>, m: Measured, k: int)
    requires MeasuredWellFormed(m)
    requires ColumnsWellFormed(EpwColumns(dates, m))
    requires ToFrame(EpwColumns(dates, m)).Success?
    requires 0 <= k < |ToFrame(EpwColumns(dates, m)).value|
    ensures var row := ToFrame(EpwColumns(dates, m)).value[k];
      && |row| == FieldCount && k < |dates|
      && row[0] == Int(dates[k].year) && row[1] == Int(dates[k].month) && row[2] == Int(dates[k].day)
      && row[3] == Int(dates[k].hour + 1) && row[4] == Int(30)
  {
    forall j | 0 <= j < 5
      ensures EpwColumns(dates, m)[j] == DateColumn(dates, j)
    {
      ColumnOfDate(dates, m, j);
    }
    DateCells(EpwColumns(dates, m), dates, k);
  }

  /** The date cells of a frame whose first five columns are the date columns. */
  lemma DateCells(cols: seq<Column>, dates: seq<Civil>, k: int)
    requires ColumnsWellFormed(cols) && ToFrame(cols).Success? && 0 <= k < |ToFrame(cols).value|
    requires 5 <= |cols| && forall j :: 0 <= j < 5 ==> cols[j] == DateColumn(dates, j)
    ensures var row := ToFrame(cols).value[k];
      && |row| == |cols| && k < |dates|
      && row[0] == Int(dates[k].year) && row[1] == Int(dates[k].month) && row[2] == Int(dates[k].day)
      && row[3] == Int(dates[k].hour + 1) && row[4] == Int(30)
  {
    var row := ToFrame(cols).value[k];
    ListedCell(cols, k, 0);
    forall j | 0 <= j < 5
      ensures row[j] == DateField(dates[k], j)
    {
      ListedCell(cols, k, j);
    }
  }

  /** A cell drawn from a list column is the list's entry at the row's position. */
  lemma ListedCell(cols: seq<Column>, k: int, j: int)
    requires ColumnsWellFormed(cols) && ToFrame(cols).Success?
    requires 0 <= k < |ToFrame(cols).value| && 0 <= j < |cols| && cols[j].Listed?
    ensures |cols[j].fields| == |ToFrame(cols).value| && ToFrame(cols).value[k][j] == cols[j].fields[k]
  {
  }

  lemma ColumnOfDate(dates: seq<Civil>, m: Measured, j: int)
    requires 0 <= j < 5
    ensures EpwColumns(dates, m)[j] == DateColumn(dates, j)
  {
  }

  lemma EpwSentinelCells(dates: seq<Civil>, m: Measured, k: int)
    requires MeasuredWellFormed(m)
    requires ColumnsWellFormed(EpwColumns(dates, m))
    requires ToFrame(EpwColumns(dates, m)).Success?
    requires 0 <= k < |ToFrame(EpwColumns(dates, m)).value|
    ensures var row := ToFrame(EpwColumns(dates, m)).value[k];
      forall j :: 0 <= j < |row| && Sentinel(j).Some? ==> row[j] == Sentinel(j).value
  {
    var cols := EpwColumns(dates, m);
    var row := ToFrame(cols).value[k];
    forall j | 0 <= j < |row| && Sentinel(j).Some?
      ensures row[j] == Sentinel(j).value
    {
      ColumnOfSentinel(dates, m, j);
    }
  }

  lemma EpwMeasuredCells(dates: seq<Civil>, m: Measured, k: int)
    requires MeasuredWellFormed(m)
    requires ColumnsWellFormed(EpwColumns(dates, m))
    requires ToFrame(EpwColumns(dates, m)).Success?
    requires 0 <= k < |ToFrame(EpwColumns(dates, m)).value|
    ensures var cols := EpwColumns(dates, m);
            var row := ToFrame(cols).value[k];
      forall j :: 0 <= j < |row| && Sentinel(j).None? && MeasuredAt(m, j).Some? ==>
        row[j] == Cell(MeasuredAt(m, j).value, k, RowIndex(cols)[k])
  {
    var cols := EpwColumns(dates, m);
    var row := ToFrame(cols).value[k];
    forall j | 0 <= j < |row| && Sentinel(j).None? && MeasuredAt(m, j).Some?
      ensures row[j] == Cell(MeasuredAt(m, j).value, k, RowIndex(cols)[k])
    {
      ColumnOfMeasured(dates, m, j);
    }
  }

  lemma ColumnOfSentinel(dates: seq<Civil>, m: Measured, j: int)
    requires 0 <= j < FieldCount && Sentinel(j).Some?
    ensures EpwColumns(dates, m)[j] == Listed(Repeat(|dates|, Sentinel(j).value))
  {
  }

  lemma ColumnOfMeasured(dates: seq<Civil>, m: Measured, j: int)
    requires 0 <= j < FieldCount && Sentinel(j).None? && MeasuredAt(m, j).Some?
    ensures EpwColumns(dates, m)[j] == MeasuredAt(m, j).value
  {
  }

  // ---------------------------------------------------------------------
  // Writing the frame
  // ---------------------------------------------------------------------

  /** `to_csv`'s text for one cell, given how the floats are printed. */
  function Render(f: Field, showReal: real -> string): string {
    match f
    case Int(i) => IntToString(i)
    case Float(r) => showReal(r)
    case Str(s) => s
    case Empty => ""
  }

  function RenderRow(row: seq<Field>, showReal: real -> string): (cells: seq<string>)
    ensures |cells| == |row| && forall j :: 0 <= j < |row| ==> cells[j] == Render(row[j], showReal)
  {
    seq(|row|, j requires 0 <= j < |row| => Render(row[j], showReal))
  }

  function CsvLines(rows: seq<seq<Field>>, showReal: real -> string): (lines: seq<string>)
    ensures |lines| == |rows| && forall k :: 0 <= k < |rows| ==> lines[k] == Join(RenderRow(rows[k], showReal), ',')
  {
    seq(|rows|, k requires 0 <= k < |rows| => Join(RenderRow(rows[k], showReal), ','))
  }

  /** `df_epw.to_csv(path, index=False)`: the column names, then one line per row. */
  function HourlyCsv(rows: seq<seq<Field>>, showReal: real -> string): string {
    var names := seq(FieldCount, j requires 0 <= j < FieldCount => ColumnName(j));
    JoinLines([Join(names, ',')] + CsvLines(rows, showReal))
  }

  /** `df_epw.to_csv('epw.txt', index=False, header=False)`. */
  function CsvBody(rows: seq<seq<Field>>, showReal: real -> string): string {
    JoinLines(CsvLines(rows, showReal))
  }

  const HeaderLineCount := 8

  /** Line `i` of the static EPW header (a Qingdao station's), eight lines in all. */
  function HeaderLine(i: nat): string
    requires i < HeaderLineCount
  {
    if i == 0 then
      "LOCATION,Qingdao.Intl.AP,SD,CHN,SRC-TMYx,548570,35.5,119.375,8.0,10.1"
    else if i == 1 then
      "DESIGN CONDITIONS,1,2021 ASHRAE Handbook -- Fundamentals - Chapter 14 Climatic Design Information,,Heating,1,-8.8,-6.9,-18.9,0.7,-1.4,-16.9,0.9,-0.9,11.4,-2.6,10.4,-2.2,2.7,340,0.487,Cooling,8,7.3,33.1,24.3,31.8,23.8,30.2,23.5,27.1,30.0,26.5,29.1,25.9,28.2,4.4,180,26.3,21.9,28.7,25.9,21.4,28.4,25.1,20.4,27.6,87.0,30.0,83.9,29.2,80.9,28.7,30.1,Extremes,10.2,9.0,7.9,-11.8,35.9,1.9,1.8,-13.1,37.2,-14.2,38.3,-15.2,39.3,-16.6,40.6"
    else if i == 2 then
      "TYPICAL/EXTREME PERIODS,6,Summer - Week Nearest Max Temperature For Period,Extreme,7/27,8/ 2,Summer - Week Nearest Average Temperature For Period,Typical,6/29,7/ 5,Winter - Week Nearest Min Temperature For Period,Extreme,1/ 6,1/12,Winter - Week Nearest Average Temperature For Period,Typical,1/13,1/19,Autumn - Week Nearest Average Temperature For Period,Typical,10/20,10/26,Spring - Week Nearest Average Temperature For Period,Typical,4/12,4/18"
    else if i == 3 then
      "GROUND TEMPERATURES,3,.5,,,,2.96,1.88,3.79,6.78,14.60,20.64,24.71,25.95,23.83,19.15,12.89,7.08,2,,,,6.92,5.00,5.39,6.98,12.21,16.94,20.73,22.76,22.33,19.67,15.36,10.78,4,,,,10.20,8.23,7.80,8.40,11.36,14.55,17.47,19.50,19.98,18.83,16.29,13.20"
    else if i == 4 then
      "HOLIDAYS/DAYLIGHT SAVINGS,No,0,0,0"
    else if i == 5 then
      "COMMENTS 1,\"\""
    else if i == 6 then
      "COMMENTS 2,\"\""
    else
      "DATA PERIODS,1,1,Data,Sunday,1/ 1,12/31"
  }

  /**
   * `epwheader_content + '\n' + df_epw_content`: the header lines joined by
   * newlines (none after the last), a newline, then the header-less CSV.
   */
  function EpwText(rows: seq<seq<Field>>, showReal: real -> string): string {
    var header := seq(HeaderLineCount, i requires 0 <= i < HeaderLineCount => HeaderLine(i));
    Join(header, '\n') + "\n" + CsvBody(rows, showReal)
  }

  lemma {:induction false} JoinLinesAppend(a: seq<string>, b: seq<string>)
    ensures JoinLines(a + b) == JoinLines(a) + JoinLines(b)
  {
    if a != [] {
      assert (a + b)[1..] == a[1..] + b;
      JoinLinesAppend(a[1..], b);
    } else {
      assert a + b == b;
    }
  }

  /** Joining with newlines and adding one more gives every line its own terminator. */
  lemma {:induction false} JoinWithNewline(lines: seq<string>)
    requires lines != []
    ensures Join(lines, '\n') + "\n" == JoinLines(lines)
  {
    if |lines| > 1 {
      JoinWithNewline(lines[1..]);
    }
  }

  /** The EPW file is the eight header lines, then one line per row, each ending in a newline. */
  lemma EpwLayout(rows: seq<seq<Field>>, showReal: real -> string)
    ensures var header := seq(HeaderLineCount, i requires 0 <= i < HeaderLineCount => HeaderLine(i));
      EpwText(rows, showReal) == JoinLines(header + CsvLines(rows, showReal))
  {
    var header := seq(HeaderLineCount, i requires 0 <= i < HeaderLineCount => HeaderLine(i));
    JoinWithNewline(header);
    JoinLinesAppend(header, CsvLines(rows, showReal));
  }

  /** A printed cell that is neither a separator nor a line break in disguise. */
  predicate CleanCell(s: string) {
    ',' !in s && NoLineBreak(s)
  }

  lemma {:induction false} JoinNoLineBreak(parts: seq<string>, sep: char)
    requires !IsLineBreak(sep) && forall i :: 0 <= i < |parts| ==> NoLineBreak(parts[i])
    ensures NoLineBreak(Join(parts, sep))
  {
    if |parts| > 1 {
      JoinNoLineBreak(parts[1..], sep);
    }
  }

  /**
   * When every printed cell is clean, reading the rows back line by line
   * and cell by cell gives each row's printed cells, 35 of them for an EPW row.
   */
  lemma RowsReadBack(rows: seq<seq<Field>>, showReal: real -> string)
    requires forall k :: 0 <= k < |rows| ==> |rows[k]| >= 1
    requires forall k, j :: 0 <= k < |rows| && 0 <= j < |rows[k]| ==> CleanCell(Render(rows[k][j], showReal))
    ensures var lines := SplitLines(CsvBody(rows, showReal));
      && |lines| == |rows|
      && forall k :: 0 <= k < |rows| ==> Split(lines[k], ',') == RenderRow(rows[k], showReal)
  {
    var lines := CsvLines(rows, showReal);
    forall k | 0 <= k < |rows|
      ensures NoLineBreak(lines[k]) && Split(lines[k], ',') == RenderRow(rows[k], showReal)
    {
      var cells := RenderRow(rows[k], showReal);
      JoinNoLineBreak(cells, ',');
      SplitJoin(cells, ',');
    }
    SplitJoinLines(lines);
  }
}
