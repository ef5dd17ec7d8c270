/**
 * What the EPW frame holds. `make_epw_4` aligns the tables by label: when
 * the four filtered tables carry the same labels, the frame exists exactly
 * when they have one row per hour of 2023, and then row `k` holds row `k`
 * of each table. `make_epw` slices by position: the frame exists exactly
 * when some table reaches row 8784, and row `k` holds row `25 + k` of each
 * table, or a missing value where that table is shorter.
 */
module Alignment {
  import opened Wrappers
  import opened Physics
  import opened Calendar
  import opened Frames
  import opened Epw
  import opened Pipeline

  // ---------------------------------------------------------------------
  // Columns of the frame
  // ---------------------------------------------------------------------

  /** Only a measured position can hold a Series; its labels are the measured column's. */
  lemma LabelsOfColumn(dates: seq<Civil>, m: Measured, j: int)
    requires 0 <= j < FieldCount
    ensures Labels(EpwColumns(dates, m)[j]) ==
      if j >= 5 && Sentinel(j).None? && MeasuredAt(m, j).Some? then Labels(MeasuredAt(m, j).value) else []
  {
  }

  /** The date and sentinel columns are lists with one entry per grid mark. */
  lemma ListedColumns(dates: seq<Civil>, m: Measured)
    requires MeasuredWellFormed(m)
    ensures ListsFit(EpwColumns(dates, m), |dates|)
    ensures EpwColumns(dates, m)[0].Listed? && |EpwColumns(dates, m)[0].fields| == |dates|
  {
    var cols := EpwColumns(dates, m);
    forall j | 0 <= j < |cols| && cols[j].Listed?
      ensures |cols[j].fields| == |dates|
    {
      if j >= 5 && Sentinel(j).None? && MeasuredAt(m, j).Some? {
        ColumnOfMeasured(dates, m, j);
        assert false;
      }
    }
  }

  /** The value a Series gives the row whose label sits at its own position `k`. */
  lemma CellAtOwnLabel(c: Column, k: int, key: int, v: real)
    requires c.Aligned? && WellFormedSeries(c.series)
    requires 0 <= k < |c.series.labels| && c.series.labels[k] == key && c.series.values[k] == v
    ensures Cell(c, k, key) == Float(v)
  {
  }

  // ---------------------------------------------------------------------
  // make_epw_4
  // ---------------------------------------------------------------------

  predicate SameLabels(wind: Table, solar: Table, snow: Table, precip: Table) {
    solar.labels == wind.labels && snow.labels == wind.labels && precip.labels == wind.labels
  }

  /** One date per hour of 2023, hour `k % 24` at position `k`. */
  predicate YearDates(dates: seq<Civil>) {
    && |dates| == HoursIn2023
    && forall k :: 0 <= k < |dates| ==>
         dates[k].year == 2023 && dates[k].hour == k % 24 && DayOfYearIs(2023, k / 24, dates[k].month, dates[k].day)
  }

  /** Under shared labels every Series of the frame carries the wind table's labels. */
  lemma SharedLabels4(dates: seq<Civil>, wind: Table, solar: Table, snow: Table, precip: Table)
    requires Prepared(wind, WindKeys4) && Prepared(solar, SolarKeys4)
    requires Prepared(snow, {"SNODP"}) && Prepared(precip, {"PRECTOT"})
    requires SameLabels(wind, solar, snow, precip)
    ensures ColumnsWellFormed(EpwColumns(dates, Measured4(wind, solar, snow, precip)))
    ensures RowIndex(EpwColumns(dates, Measured4(wind, solar, snow, precip))) == wind.labels
  {
    var m := Measured4(wind, solar, snow, precip);
    var cols := EpwColumns(dates, m);
    EpwColumnsWellFormed(dates, m);
    ColumnOfMeasured(dates, m, 6);
    forall j | 0 <= j < |cols| && cols[j].Aligned?
      ensures cols[j].series.labels == wind.labels
    {
      LabelsOfColumn(dates, m, j);
      if j >= 5 && Sentinel(j).None? && MeasuredAt(m, j).Some? {
        assert Labels(MeasuredAt(m, j).value) == wind.labels;
      }
    }
    SharedIndex(cols, wind.labels);
  }

  /** The 8760 rows of `make_epw_4`'s frame, row `k` being `Row4` of the tables. */
  predicate Rows4(rows: seq<seq<Field>>, wind: Table, solar: Table, snow: Table, precip: Table)
    requires Prepared(wind, WindKeys4) && Prepared(solar, SolarKeys4)
    requires Prepared(snow, {"SNODP"}) && Prepared(precip, {"PRECTOT"})
  {
    |rows| == HoursIn2023 && forall k :: 0 <= k < HoursIn2023 ==> Row4(rows[k], k, wind, solar, snow, precip)
  }

  /** Row `k` of `make_epw_4`'s frame, field by field, at the 0-based positions of the EPW schema. */
  predicate Row4(row: seq<Field>, k: int, wind: Table, solar: Table, snow: Table, precip: Table)
    requires Prepared(wind, WindKeys4) && Prepared(solar, SolarKeys4)
    requires Prepared(snow, {"SNODP"}) && Prepared(precip, {"PRECTOT"})
  {
    && 0 <= k < |wind.time| && k < |solar.time| && k < |snow.time| && k < |precip.time|
    && |row| == FieldCount
    && row[0] == Int(2023) && row[1].Int? && row[2].Int? && DayOfYearIs(2023, k / 24, row[1].i, row[2].i)
    && row[3] == Int(k % 24 + 1) && row[4] == Int(30)
    && (forall j :: 5 <= j < FieldCount && Sentinel(j).Some? ==> row[j] == Sentinel(j).value)
    && row[6] == Float(KelvinToCelsius(wind.cols["T2M"][k]))
    && row[7] == Float(KelvinToCelsius(wind.cols["T2MDEW"][k]))
    && row[8] == Float(wind.cols["Relative Humidity"][k])
    && row[9] == Float(wind.cols["PS"][k])
    && row[13] == Float(Scaled(solar.cols["SWGDN"][k]))
    && row[14] == Float(Scaled(solar.cols["DNI"][k]))
    && row[15] == Float(Scaled(solar.cols["DHI"][k]))
    && row[20] == Float(wind.cols["wind_direction"][k])
    && row[21] == Float(wind.cols["wind_speed"][k])
    && row[22] == Float(SkyCoverValue(solar.cols["CLDTOT"][k]))
    && row[23] == row[22]
    && row[30] == Float(SnowDepthCm(snow.cols["SNODP"][k]))
    && row[33] == Float(PrecipitationMm(precip.cols["PRECTOT"][k]))
  }

  /**
   * With shared labels, `make_epw_4`'s frame exists exactly when the tables
   * have one row per hour of 2023, and row `k` then gathers row `k` of each
   * table under the date of grid mark `k`.
   */
  lemma AlignedFrame4(wind: Table, solar: Table, snow: Table, precip: Table)
    requires Prepared(wind, WindKeys4) && Prepared(solar, SolarKeys4)
    requires Prepared(snow, {"SNODP"}) && Prepared(precip, {"PRECTOT"})
    requires SameLabels(wind, solar, snow, precip)
    ensures var r := EpwFrame(GridDates(ShanghaiGrid(), 30), Measured4(wind, solar, snow, precip));
      && (r.Success? <==> |wind.labels| == HoursIn2023)
      && (r.Success? ==>
            Rows4(r.value, wind, solar, snow, precip))
  {
    AlignedFrame(GridDates(ShanghaiGrid(), 30), wind, solar, snow, precip);
  }

  lemma AlignedFrame(dates: seq<Civil>, wind: Table, solar: Table, snow: Table, precip: Table)
    requires YearDates(dates)
    requires Prepared(wind, WindKeys4) && Prepared(solar, SolarKeys4)
    requires Prepared(snow, {"SNODP"}) && Prepared(precip, {"PRECTOT"})
    requires SameLabels(wind, solar, snow, precip)
    ensures var r := EpwFrame(dates, Measured4(wind, solar, snow, precip));
      && (r.Success? <==> |wind.labels| == HoursIn2023)
      && (r.Success? ==>
            Rows4(r.value, wind, solar, snow, precip))
  {
    var m := Measured4(wind, solar, snow, precip);
    SharedLabels4(dates, wind, solar, snow, precip);
    ListedColumns(dates, m);
    var r := EpwFrame(dates, m);
    if r.Success? {
      forall k | 0 <= k < HoursIn2023
        ensures Row4(r.value[k], k, wind, solar, snow, precip)
      {
        RowOfAlignedFrame(dates, wind, solar, snow, precip, k);
      }
    }
  }

  lemma RowOfAlignedFrame(dates: seq<Civil>, wind: Table, solar: Table, snow: Table, precip: Table, k: int)
    requires YearDates(dates)
    requires Prepared(wind, WindKeys4) && Prepared(solar, SolarKeys4)
    requires Prepared(snow, {"SNODP"}) && Prepared(precip, {"PRECTOT"})
    requires SameLabels(wind, solar, snow, precip)
    requires EpwFrame(dates, Measured4(wind, solar, snow, precip)).Success?
    requires 0 <= k < |EpwFrame(dates, Measured4(wind, solar, snow, precip)).value|
    ensures Row4(EpwFrame(dates, Measured4(wind, solar, snow, precip)).value[k], k, wind, solar, snow, precip)
  {
    var m := Measured4(wind, solar, snow, precip);
    assert AllAligned(m, wind.labels);
    SharedLabels4(dates, wind, solar, snow, precip);
    EpwRows(dates, m, k);
    var l := wind.labels;
    MeasuredField(dates, m, l, k, 6);
    MeasuredField(dates, m, l, k, 7);
    MeasuredField(dates, m, l, k, 8);
    MeasuredField(dates, m, l, k, 9);
    MeasuredField(dates, m, l, k, 13);
    MeasuredField(dates, m, l, k, 14);
    MeasuredField(dates, m, l, k, 15);
    MeasuredField(dates, m, l, k, 20);
    MeasuredField(dates, m, l, k, 21);
    MeasuredField(dates, m, l, k, 22);
    MeasuredField(dates, m, l, k, 23);
    MeasuredField(dates, m, l, k, 30);
    MeasuredField(dates, m, l, k, 33);
  }

  /** Every measured column is a Series under the labels `l`. */
  predicate AllAligned(m: Measured, l: seq<int>) {
    forall j :: 0 <= j < FieldCount && MeasuredAt(m, j).Some? ==>
      MeasuredAt(m, j).value.Aligned? && MeasuredAt(m, j).value.series.labels == l
  }

  /** Field `j` of row `k` when every measured Series carries the frame's own labels. */
  lemma MeasuredField(dates: seq<Civil>, m: Measured, l: seq<int>, k: int, j: int)
    requires YearDates(dates) && MeasuredWellFormed(m) && AllAligned(m, l)
    requires EpwFrame(dates, m).Success? && 0 <= k < |EpwFrame(dates, m).value|
    requires RowIndex(EpwColumns(dates, m)) == l
    requires 0 <= j < FieldCount && MeasuredAt(m, j).Some?
    ensures k < |MeasuredAt(m, j).value.series.values|
    ensures EpwFrame(dates, m).value[k][j] == Float(MeasuredAt(m, j).value.series.values[k])
  {
    EpwRows(dates, m, k);
    SchemaComplete(m, j);
    SeriesField(MeasuredAt(m, j).value, k, l[k], EpwFrame(dates, m).value[k][j]);
  }

  /** A field equal to a Series' cell under its own `k`-th label is that Series' `k`-th value. */
  lemma SeriesField(c: Column, k: int, key: int, f: Field)
    requires c.Aligned? && WellFormedSeries(c.series) && 0 <= k < |c.series.labels| && c.series.labels[k] == key
    requires f == Cell(c, k, key)
    ensures f == Float(c.series.values[k])
  {
  }


  // ---------------------------------------------------------------------
  // make_epw
  // ---------------------------------------------------------------------

  /** The labels `make_epw` slices out of a table numbered 0 .. n-1: the positions from 25 up to 8784 that exist. */
  lemma SlicedLabels(t: Table, key: string, f: real -> real)
    requires Numbered(t) && Prepared(t, {key})
    ensures forall x :: x in Sliced(t, key, f, FirstRow, EndRow).series.labels <==> FirstRow <= x < EndRow && x < |t.time|
  {
    var n := |t.time|;
    var lo := Min(FirstRow, n);
    var hi := Max(lo, Min(EndRow, n));
    var l := t.labels[lo..hi];
    forall x
      ensures x in l <==> FirstRow <= x < EndRow && x < n
    {
      if x in l {
        var i :| 0 <= i < |l| && l[i] == x;
        assert l[i] == t.labels[lo + i];
      }
      if FirstRow <= x < EndRow && x < n {
        assert l[x - lo] == x;
      }
    }
  }

  /** Row position `p` of column `key`, or a missing value past the table's end. */
  function PositionalCell(t: Table, key: string, f: real -> real, p: nat): Field
    requires Prepared(t, {key})
  {
    if p < |t.time| then Float(f(t.cols[key][p])) else Empty
  }

  /** Under label `25 + k` a sliced column holds row `25 + k` of the table, when there is one. */
  lemma SlicedCell(t: Table, key: string, f: real -> real, k: int)
    requires Numbered(t) && Prepared(t, {key}) && 0 <= k < EndRow - FirstRow
    ensures Cell(Sliced(t, key, f, FirstRow, EndRow), k, FirstRow + k) == PositionalCell(t, key, f, FirstRow + k)
  {
    SlicedLabels(t, key, f);
    var c := Sliced(t, key, f, FirstRow, EndRow);
    if FirstRow + k < |t.time| {
      assert Min(FirstRow, |t.time|) == FirstRow;
      assert c.series.labels[k] == t.labels[FirstRow + k];
    }
  }

  /** Every measured Series of `m` has its labels among 25 .. min(8785, n) - 1. */
  predicate WithinSlice(m: Measured, n: int) {
    forall j, x ::
      (0 <= j < FieldCount && MeasuredAt(m, j).Some? && MeasuredAt(m, j).value.Aligned? &&
       x in MeasuredAt(m, j).value.series.labels) ==> FirstRow <= x < EndRow && x < n
  }

  /** Column `j` of `m` is a Series covering all of 25 .. min(8785, n) - 1. */
  predicate CoversSlice(m: Measured, n: int, j: int) {
    && 0 <= j < FieldCount && MeasuredAt(m, j).Some? && MeasuredAt(m, j).value.Aligned?
    && forall x :: FirstRow <= x < EndRow && x < n ==> x in MeasuredAt(m, j).value.series.labels
  }

  /** Slice bounds: labels 25 .. hi - 1 with hi = max(25, min(8785, n)). */
  function SliceEnd(n: int): int {
    Max(FirstRow, Min(EndRow, n))
  }

  /** A strictly increasing sequence holding exactly lo .. hi - 1 is lo, lo + 1, ..., hi - 1. */
  lemma IncreasingRange(s: seq<int>, lo: int, hi: int)
    requires Increasing(s) && lo <= hi && forall x :: x in s <==> lo <= x < hi
    ensures |s| == hi - lo && forall i :: 0 <= i < |s| ==> s[i] == lo + i
  {
    var r := seq(hi - lo, i => lo + i);
    forall x
      ensures x in s <==> x in r
    {
      if lo <= x < hi {
        assert r[x - lo] == x;
      }
    }
    IncreasingUnique(s, r);
  }

  /** The rows of a frame whose Series are slices of tables of which the longest has `n` rows. */
  lemma SliceIndex(dates: seq<Civil>, m: Measured, n: int, j0: int)
    requires MeasuredWellFormed(m) && WithinSlice(m, n) && CoversSlice(m, n, j0)
    ensures var index := RowIndex(EpwColumns(dates, m));
      && |index| == SliceEnd(n) - FirstRow
      && forall k :: 0 <= k < |index| ==> index[k] == FirstRow + k
  {
    var cols := EpwColumns(dates, m);
    EpwColumnsWellFormed(dates, m);
    SchemaComplete(m, j0);
    ColumnOfMeasured(dates, m, j0);
    assert HasSeries(cols);
    var index := FrameIndex(cols);
    forall x
      ensures x in index <==> FirstRow <= x < SliceEnd(n)
    {
      if x in index {
        var j :| 0 <= j < |cols| && x in Labels(cols[j]);
        LabelsOfColumn(dates, m, j);
      }
      if FirstRow <= x < SliceEnd(n) {
        assert x in Labels(cols[j0]);
      }
    }
    IncreasingRange(index, FirstRow, SliceEnd(n));
  }

  /** The number of rows of the longest of `make_epw`'s four tables. */
  function Longest(wind: Table, solar: Table, snow: Table, precip: Table): int {
    Max(Max(|wind.time|, |solar.time|), Max(|snow.time|, |precip.time|))
  }

  /** A column of `make_epw`'s frame drawn from the longest table. */
  function LongestColumn(wind: Table, solar: Table, snow: Table, precip: Table): int {
    var n := Longest(wind, solar, snow, precip);
    if |wind.time| == n then 6 else if |solar.time| == n then 22 else if |snow.time| == n then 30 else 33
  }

  lemma SlicedMeasured1(wind: Table, solar: Table, snow: Table, precip: Table)
    requires Numbered(wind) && Numbered(solar) && Numbered(snow) && Numbered(precip)
    requires Prepared(wind, WindKeys1) && Prepared(solar, {"CLDTOT"})
    requires Prepared(snow, {"SNODP"}) && Prepared(precip, {"PRECTOT"})
    ensures WithinSlice(Measured1(wind, solar, snow, precip), Longest(wind, solar, snow, precip))
    ensures CoversSlice(Measured1(wind, solar, snow, precip), Longest(wind, solar, snow, precip), LongestColumn(wind, solar, snow, precip))
  {
    SlicedWithin1(wind, solar, snow, precip);
    SlicedCovers1(wind, solar, snow, precip);
  }

  lemma SlicedWithin1(wind: Table, solar: Table, snow: Table, precip: Table)
    requires Numbered(wind) && Numbered(solar) && Numbered(snow) && Numbered(precip)
    requires Prepared(wind, WindKeys1) && Prepared(solar, {"CLDTOT"})
    requires Prepared(snow, {"SNODP"}) && Prepared(precip, {"PRECTOT"})
    ensures WithinSlice(Measured1(wind, solar, snow, precip), Longest(wind, solar, snow, precip))
  {
    SlicedLabels(wind, "T2M", KelvinToCelsius);
    SlicedLabels(wind, "T2MDEW", KelvinToCelsius);
    SlicedLabels(wind, "Relative Humidity", Unchanged);
    SlicedLabels(wind, "PS", Unchanged);
    SlicedLabels(solar, "CLDTOT", SkyCoverValue);
    SlicedLabels(snow, "SNODP", SnowDepthCm);
    SlicedLabels(precip, "PRECTOT", PrecipitationMm);
  }

  lemma SlicedCovers1(wind: Table, solar: Table, snow: Table, precip: Table)
    requires Numbered(wind) && Numbered(solar) && Numbered(snow) && Numbered(precip)
    requires Prepared(wind, WindKeys1) && Prepared(solar, {"CLDTOT"})
    requires Prepared(snow, {"SNODP"}) && Prepared(precip, {"PRECTOT"})
    ensures CoversSlice(Measured1(wind, solar, snow, precip), Longest(wind, solar, snow, precip), LongestColumn(wind, solar, snow, precip))
  {
    var n := Longest(wind, solar, snow, precip);
    if |wind.time| == n {
      SlicedLabels(wind, "T2M", KelvinToCelsius);
    } else if |solar.time| == n {
      SlicedLabels(solar, "CLDTOT", SkyCoverValue);
    } else if |snow.time| == n {
      SlicedLabels(snow, "SNODP", SnowDepthCm);
    } else {
      SlicedLabels(precip, "PRECTOT", PrecipitationMm);
    }
  }

  /** The 8760 rows of `make_epw`'s frame, row `k` being `Row1` of the tables. */
  predicate Rows1(rows: seq<seq<Field>>, wind: Table, solar: Table, snow: Table, precip: Table)
    requires Prepared(wind, WindKeys1) && Prepared(solar, {"CLDTOT"})
    requires Prepared(snow, {"SNODP"}) && Prepared(precip, {"PRECTOT"})
  {
    |rows| == HoursIn2023 && forall k :: 0 <= k < HoursIn2023 ==> Row1(rows[k], k, wind, solar, snow, precip)
  }

  /**
   * Row `k` of `make_epw`'s frame at the 0-based positions of the EPW schema:
   * row `25 + k` of each table, a missing value where a table is shorter, and
   * missing values in the radiation and wind columns.
   */
  predicate Row1(row: seq<Field>, k: int, wind: Table, solar: Table, snow: Table, precip: Table)
    requires Prepared(wind, WindKeys1) && Prepared(solar, {"CLDTOT"})
    requires Prepared(snow, {"SNODP"}) && Prepared(precip, {"PRECTOT"})
  {
    && 0 <= k < EndRow - FirstRow
    && |row| == FieldCount
    && row[0] == Int(2023) && row[1].Int? && row[2].Int? && DayOfYearIs(2023, k / 24, row[1].i, row[2].i)
    && row[3] == Int(k % 24 + 1) && row[4] == Int(30)
    && (forall j :: 5 <= j < FieldCount && Sentinel(j).Some? ==> row[j] == Sentinel(j).value)
    && row[6] == PositionalCell(wind, "T2M", KelvinToCelsius, FirstRow + k)
    && row[7] == PositionalCell(wind, "T2MDEW", KelvinToCelsius, FirstRow + k)
    && row[8] == PositionalCell(wind, "Relative Humidity", Unchanged, FirstRow + k)
    && row[9] == PositionalCell(wind, "PS", Unchanged, FirstRow + k)
    && row[13] == Empty && row[14] == Empty && row[15] == Empty
    && row[20] == Empty && row[21] == Empty
    && row[22] == PositionalCell(solar, "CLDTOT", SkyCoverValue, FirstRow + k)
    && row[23] == row[22]
    && row[30] == PositionalCell(snow, "SNODP", SnowDepthCm, FirstRow + k)
    && row[33] == PositionalCell(precip, "PRECTOT", PrecipitationMm, FirstRow + k)
  }

  /**
   * `make_epw`'s frame exists exactly when the longest table reaches row
   * 8784, and row `k` then gathers row `25 + k` of each table, under the
   * date of grid mark `k`.
   */
  lemma PositionalFrame(dates: seq<Civil>, wind: Table, solar: Table, snow: Table, precip: Table)
    requires YearDates(dates)
    requires Numbered(wind) && Numbered(solar) && Numbered(snow) && Numbered(precip)
    requires Prepared(wind, WindKeys1) && Prepared(solar, {"CLDTOT"})
    requires Prepared(snow, {"SNODP"}) && Prepared(precip, {"PRECTOT"})
    ensures var r := EpwFrame(dates, Measured1(wind, solar, snow, precip));
      && (r.Success? <==> Longest(wind, solar, snow, precip) >= EndRow)
      && (r.Success? ==>
            Rows1(r.value, wind, solar, snow, precip))
  {
    var m := Measured1(wind, solar, snow, precip);
    var n := Longest(wind, solar, snow, precip);
    SlicedMeasured1(wind, solar, snow, precip);
    SliceIndex(dates, m, n, LongestColumn(wind, solar, snow, precip));
    ListedColumns(dates, m);
    var r := EpwFrame(dates, m);
    if r.Success? {
      forall k | 0 <= k < HoursIn2023
        ensures Row1(r.value[k], k, wind, solar, snow, precip)
      {
        RowOfPositionalFrame(dates, wind, solar, snow, precip, k);
      }
    }
  }

  lemma RowOfPositionalFrame(dates: seq<Civil>, wind: Table, solar: Table, snow: Table, precip: Table, k: int)
    requires YearDates(dates)
    requires Numbered(wind) && Numbered(solar) && Numbered(snow) && Numbered(precip)
    requires Prepared(wind, WindKeys1) && Prepared(solar, {"CLDTOT"})
    requires Prepared(snow, {"SNODP"}) && Prepared(precip, {"PRECTOT"})
    requires EpwFrame(dates, Measured1(wind, solar, snow, precip)).Success?
    requires 0 <= k < |EpwFrame(dates, Measured1(wind, solar, snow, precip)).value|
    ensures Row1(EpwFrame(dates, Measured1(wind, solar, snow, precip)).value[k], k, wind, solar, snow, precip)
  {
    var m := Measured1(wind, solar, snow, precip);
    SlicedMeasured1(wind, solar, snow, precip);
    SliceIndex(dates, m, Longest(wind, solar, snow, precip), LongestColumn(wind, solar, snow, precip));
    EpwRows(dates, m, k);
    PositionalWindCells(dates, wind, solar, snow, precip, k);
    FieldCell(dates, m, k, 13);
    FieldCell(dates, m, k, 14);
    FieldCell(dates, m, k, 15);
    FieldCell(dates, m, k, 20);
    FieldCell(dates, m, k, 21);
    FieldCell(dates, m, k, 22);
    FieldCell(dates, m, k, 23);
    FieldCell(dates, m, k, 30);
    FieldCell(dates, m, k, 33);
    SlicedCell(solar, "CLDTOT", SkyCoverValue, k);
    SlicedCell(snow, "SNODP", SnowDepthCm, k);
    SlicedCell(precip, "PRECTOT", PrecipitationMm, k);
  }

  /** The wind table's four fields of row `k` come from its row `25 + k`. */
  lemma PositionalWindCells(dates: seq<Civil>, wind: Table, solar: Table, snow: Table, precip: Table, k: int)
    requires YearDates(dates)
    requires Numbered(wind) && Numbered(solar) && Numbered(snow) && Numbered(precip)
    requires Prepared(wind, WindKeys1) && Prepared(solar, {"CLDTOT"})
    requires Prepared(snow, {"SNODP"}) && Prepared(precip, {"PRECTOT"})
    requires EpwFrame(dates, Measured1(wind, solar, snow, precip)).Success?
    requires 0 <= k < |EpwFrame(dates, Measured1(wind, solar, snow, precip)).value|
    ensures var row := EpwFrame(dates, Measured1(wind, solar, snow, precip)).value[k];
      && |row| == FieldCount && k < EndRow - FirstRow
      && row[6] == PositionalCell(wind, "T2M", KelvinToCelsius, FirstRow + k)
      && row[7] == PositionalCell(wind, "T2MDEW", KelvinToCelsius, FirstRow + k)
      && row[8] == PositionalCell(wind, "Relative Humidity", Unchanged, FirstRow + k)
      && row[9] == PositionalCell(wind, "PS", Unchanged, FirstRow + k)
  {
    var m := Measured1(wind, solar, snow, precip);
    SlicedMeasured1(wind, solar, snow, precip);
    SliceIndex(dates, m, Longest(wind, solar, snow, precip), LongestColumn(wind, solar, snow, precip));
    FieldCell(dates, m, k, 6);
    FieldCell(dates, m, k, 7);
    FieldCell(dates, m, k, 8);
    FieldCell(dates, m, k, 9);
    SlicedCell(wind, "T2M", KelvinToCelsius, k);
    SlicedCell(wind, "T2MDEW", KelvinToCelsius, k);
    SlicedCell(wind, "Relative Humidity", Unchanged, k);
    SlicedCell(wind, "PS", Unchanged, k);
  }

  /** Field `j` of row `k` is column `j`'s cell under the row's label. */
  lemma FieldCell(dates: seq<Civil>, m: Measured, k: int, j: int)
    requires MeasuredWellFormed(m)
    requires EpwFrame(dates, m).Success? && 0 <= k < |EpwFrame(dates, m).value|
    requires 0 <= j < FieldCount && MeasuredAt(m, j).Some?
    ensures k < |RowIndex(EpwColumns(dates, m))|
    ensures EpwFrame(dates, m).value[k][j] == Cell(MeasuredAt(m, j).value, k, RowIndex(EpwColumns(dates, m))[k])
  {
    EpwRows(dates, m, k);
    SchemaComplete(m, j);
  }

  // ---------------------------------------------------------------------
  // What the scripts write
  // ---------------------------------------------------------------------

  /**
   * The outcome of `make_epw_4` on prepared tables with shared labels: a
   * success exactly when there are 8760 labels, and then both outputs print
   * a frame of 8760 rows, row `k` being `Row4` of the tables.
   */
  ghost predicate Emits4(r: Result<Outputs, EpwError>, wind: Table, solar: Table, snow: Table, precip: Table, showReal: real -> string)
    requires Prepared(wind, WindKeys4) && Prepared(solar, SolarKeys4)
    requires Prepared(snow, {"SNODP"}) && Prepared(precip, {"PRECTOT"})
  {
    && (r.Success? <==> |wind.labels| == HoursIn2023)
    && (r.Success? ==> exists rows ::
          && r.value == WrittenFiles4(rows, showReal)
          && Rows4(rows, wind, solar, snow, precip))
  }

  /**
   * The outcome of `make_epw` on prepared tables: a success exactly when the
   * longest table reaches row 8784, and then the hourly CSV prints a frame of
   * 8760 rows, row `k` being `Row1` of the tables.
   */
  ghost predicate Emits1(r: Result<string, EpwError>, wind: Table, solar: Table, snow: Table, precip: Table, showReal: real -> string)
    requires Prepared(wind, WindKeys1) && Prepared(solar, {"CLDTOT"})
    requires Prepared(snow, {"SNODP"}) && Prepared(precip, {"PRECTOT"})
  {
    && (r.Success? <==> Longest(wind, solar, snow, precip) >= EndRow)
    && (r.Success? ==> exists rows ::
          && r.value == HourlyCsv(rows, showReal)
          && Rows1(rows, wind, solar, snow, precip))
  }

  /**
   * `make_epw_4` writes its outputs exactly when the four filtered tables have
   * one row per hour of 2023 (given shared labels), and both outputs then
   * carry the frame whose row `k` gathers row `k` of each table.
   */
  lemma Emit4Rows(wind: Table, solar: Table, snow: Table, precip: Table, showReal: real -> string)
    requires Prepared(wind, WindKeys4) && Prepared(solar, SolarKeys4)
    requires Prepared(snow, {"SNODP"}) && Prepared(precip, {"PRECTOT"})
    requires SameLabels(wind, solar, snow, precip)
    ensures Emits4(Emit4(wind, solar, snow, precip, showReal), wind, solar, snow, precip, showReal)
  {
    AlignedFrame4(wind, solar, snow, precip);
    var f := EpwFrame(GridDates(ShanghaiGrid(), 30), Measured4(wind, solar, snow, precip));
    EmitsOfFrame4(Emit4(wind, solar, snow, precip, showReal), f, wind, solar, snow, precip, showReal);
  }

  /** An outcome that writes the files of a frame of `Rows4` rows, failing when the frame fails. */
  lemma EmitsOfFrame4(r: Result<Outputs, EpwError>, f: Result<seq<seq<Field>>, EpwError>,
                      wind: Table, solar: Table, snow: Table, precip: Table, showReal: real -> string)
    requires Prepared(wind, WindKeys4) && Prepared(solar, SolarKeys4)
    requires Prepared(snow, {"SNODP"}) && Prepared(precip, {"PRECTOT"})
    requires f.Success? <==> |wind.labels| == HoursIn2023
    requires f.Success? ==> Rows4(f.value, wind, solar, snow, precip)
    requires r == (match f case Failure(e) => Failure(e) case Success(rows) => Success(WrittenFiles4(rows, showReal)))
    ensures Emits4(r, wind, solar, snow, precip, showReal)
  {
    if f.Success? {
      assert r.value == WrittenFiles4(f.value, showReal);
    }
  }

  /** Every measured Series of `make_epw_4`'s frame carries the labels of one of the four tables. */
  lemma MeasuredLabels4(wind: Table, solar: Table, snow: Table, precip: Table, j: int)
    requires Prepared(wind, WindKeys4) && Prepared(solar, SolarKeys4)
    requires Prepared(snow, {"SNODP"}) && Prepared(precip, {"PRECTOT"})
    requires MeasuredAt(Measured4(wind, solar, snow, precip), j).Some?
    ensures var l := Labels(MeasuredAt(Measured4(wind, solar, snow, precip), j).value);
      l == wind.labels || l == solar.labels || l == snow.labels || l == precip.labels
  {
  }

  /** Whatever the labels, the rows of `make_epw_4`'s frame are the sorted union of the four tables' labels. */
  lemma UnionLabels4(dates: seq<Civil>, wind: Table, solar: Table, snow: Table, precip: Table)
    requires Prepared(wind, WindKeys4) && Prepared(solar, SolarKeys4)
    requires Prepared(snow, {"SNODP"}) && Prepared(precip, {"PRECTOT"})
    ensures ColumnsWellFormed(EpwColumns(dates, Measured4(wind, solar, snow, precip)))
    ensures var index := RowIndex(EpwColumns(dates, Measured4(wind, solar, snow, precip)));
      && Increasing(index)
      && forall x :: x in index <==> x in wind.labels || x in solar.labels || x in snow.labels || x in precip.labels
  {
    var m := Measured4(wind, solar, snow, precip);
    var cols := EpwColumns(dates, m);
    EpwColumnsWellFormed(dates, m);
    ColumnOfMeasured(dates, m, 6);
    ColumnOfMeasured(dates, m, 13);
    ColumnOfMeasured(dates, m, 30);
    ColumnOfMeasured(dates, m, 33);
    assert HasSeries(cols);
    forall x
      ensures x in FrameIndex(cols) <==> x in wind.labels || x in solar.labels || x in snow.labels || x in precip.labels
    {
      if x in FrameIndex(cols) {
        var j :| 0 <= j < |cols| && x in Labels(cols[j]);
        LabelsOfColumn(dates, m, j);
        MeasuredLabels4(wind, solar, snow, precip, j);
      }
      assert Labels(cols[6]) == wind.labels && Labels(cols[13]) == solar.labels;
      assert Labels(cols[30]) == snow.labels && Labels(cols[33]) == precip.labels;
    }
  }

  /** Whatever the labels, pandas rejects the frame exactly when its rows are not one per grid mark. */
  lemma MisalignedFrame4(dates: seq<Civil>, wind: Table, solar: Table, snow: Table, precip: Table)
    requires Prepared(wind, WindKeys4) && Prepared(solar, SolarKeys4)
    requires Prepared(snow, {"SNODP"}) && Prepared(precip, {"PRECTOT"})
    ensures ColumnsWellFormed(EpwColumns(dates, Measured4(wind, solar, snow, precip)))
    ensures EpwFrame(dates, Measured4(wind, solar, snow, precip)) == Failure(Misaligned)
        <==> |RowIndex(EpwColumns(dates, Measured4(wind, solar, snow, precip)))| != |dates|
  {
    var m := Measured4(wind, solar, snow, precip);
    ListedColumns(dates, m);
  }

  /** The sorted union of the four tables' labels. */
  function LabelUnion4(wind: Table, solar: Table, snow: Table, precip: Table): (index: seq<int>)
    requires Increasing(wind.labels) && Increasing(solar.labels) && Increasing(snow.labels) && Increasing(precip.labels)
    ensures Increasing(index)
    ensures forall x :: x in index <==> x in wind.labels || x in solar.labels || x in snow.labels || x in precip.labels
  {
    Merge(Merge(Merge(wind.labels, solar.labels), snow.labels), precip.labels)
  }

  /**
   * Whatever the labels, `make_epw_4` fails with `Misaligned` exactly when
   * the sorted union of the four tables' labels does not hold one label per
   * hour of 2023.
   */
  lemma Emit4Misaligned(wind: Table, solar: Table, snow: Table, precip: Table, showReal: real -> string)
    requires Prepared(wind, WindKeys4) && Prepared(solar, SolarKeys4)
    requires Prepared(snow, {"SNODP"}) && Prepared(precip, {"PRECTOT"})
    ensures Emit4(wind, solar, snow, precip, showReal) == Failure(Misaligned)
        <==> |LabelUnion4(wind, solar, snow, precip)| != HoursIn2023
  {
    var dates := GridDates(ShanghaiGrid(), 30);
    UnionLabels4(dates, wind, solar, snow, precip);
    MisalignedFrame4(dates, wind, solar, snow, precip);
    IncreasingUnique(RowIndex(EpwColumns(dates, Measured4(wind, solar, snow, precip))), LabelUnion4(wind, solar, snow, precip));
  }

  /** A table read back with the default labels has labels fixed by its length. */
  lemma NumberedLabels(t1: Table, t2: Table)
    requires Numbered(t1) && Numbered(t2) && |t1.time| == |t2.time|
    ensures t1.labels == t2.labels
  {
  }

  /**
   * Tables read back with one time column keep one set of labels through
   * the stages of `make_epw_4`, so its frame is built from shared labels.
   */
  lemma StagesShareLabels(wind: Table, solar: Table, snow: Table, precip: Table, lib: Lib, model: SolarModel)
    requires Lawful(lib) && PerSolarRow(model)
    requires Ready(wind, Wind, Needs4) && Ready(solar, Solar, Needs4)
    requires Ready(snow, Snow, Needs4) && Ready(precip, Precipitation, Needs4)
    requires solar.time == wind.time && snow.time == wind.time && precip.time == wind.time
    ensures SameLabels(WindStage(wind, lib), SolarStage(solar, wind, lib, model), PlainStage(snow, Snow), PlainStage(precip, Precipitation))
  {
    NumberedLabels(wind, solar);
    NumberedLabels(wind, snow);
    NumberedLabels(wind, precip);
    var zenith := model.zenith(solar, wind);
    var w := Localised(WithWind(WithHumidity(wind, lib), lib));
    var s := Localised(WithSolar(solar, lib, zenith, model.dni(solar, wind, zenith)));
    FilterOfSameRows(w, s, ShanghaiGrid());
    FilterOfSameRows(w, Localised(snow), ShanghaiGrid());
    FilterOfSameRows(w, Localised(precip), ShanghaiGrid());
  }

  /**
   * Once wind and solar are staged, with snow and precipitation found and
   * every staged table sharing labels, `make_epw_4` satisfies `Emits4`.
   */
  lemma StoredRows4(loaded: Loaded, w: Table, s: Table, sn: Table, p: Table, showReal: real -> string)
    requires AllReady(loaded, Needs4) && Prepared(w, WindKeys4) && Prepared(s, SolarKeys4)
    requires loaded.snow.Some? && loaded.precipitation.Some?
    requires sn == PlainStage(loaded.snow.value, Snow) && p == PlainStage(loaded.precipitation.value, Precipitation)
    requires Prepared(sn, {"SNODP"}) && Prepared(p, {"PRECTOT"})
    requires SameLabels(w, s, sn, p)
    ensures Emits4(Stored4Outcome(loaded, w, s, showReal), w, s, sn, p, showReal)
  {
    Emit4Rows(w, s, sn, p, showReal);
  }

  /**
   * `make_epw` writes the hourly CSV exactly when it found all four tables
   * and the longest reaches row 8784; the CSV then carries the frame whose
   * row `k` gathers row `25 + k` of each table, the wind table with its
   * humidity column added.
   */
  lemma MakeEpwRows(folders: seq<string>, files: map<string, Table>, lib: Lib, showReal: real -> string,
                    wind: Table, solar: Table, snow: Table, precip: Table)
    requires Lawful(lib) && Readable(folders, TargetCell, files, Needs1)
    requires LoadedFrom(folders, TargetCell, files) == Loaded(Some(precip), Some(snow), Some(solar), Some(wind))
    ensures Ready(wind, Wind, Needs1) && Ready(solar, Solar, Needs1) && Ready(snow, Snow, Needs1) && Ready(precip, Precipitation, Needs1)
    ensures Emits1(MakeEpwOutcome(folders, files, lib, showReal), WithHumidity(wind, lib), solar, snow, precip, showReal)
  {
    MakeEpwLoaded(folders, files, lib, showReal);
    LoadedRows1(LoadedFrom(folders, TargetCell, files), lib, showReal, wind, solar, snow, precip);
  }

  lemma MakeEpwLoaded(folders: seq<string>, files: map<string, Table>, lib: Lib, showReal: real -> string)
    requires Lawful(lib) && Readable(folders, TargetCell, files, Needs1)
    ensures AllReady(LoadedFrom(folders, TargetCell, files), Needs1)
    ensures MakeEpwOutcome(folders, files, lib, showReal) == Loaded1Outcome(LoadedFrom(folders, TargetCell, files), lib, showReal)
  {
    LoadedReady(folders, TargetCell, files, Needs1);
  }

  lemma LoadedRows1(loaded: Loaded, lib: Lib, showReal: real -> string, wind: Table, solar: Table, snow: Table, precip: Table)
    requires Lawful(lib) && AllReady(loaded, Needs1) && loaded == Loaded(Some(precip), Some(snow), Some(solar), Some(wind))
    ensures Ready(wind, Wind, Needs1) && Ready(solar, Solar, Needs1) && Ready(snow, Snow, Needs1) && Ready(precip, Precipitation, Needs1)
    ensures Emits1(Loaded1Outcome(loaded, lib, showReal), WithHumidity(wind, lib), solar, snow, precip, showReal)
  {
    assert SlotReady(loaded, Wind, Needs1) && SlotReady(loaded, Solar, Needs1);
    assert SlotReady(loaded, Snow, Needs1) && SlotReady(loaded, Precipitation, Needs1);
    Emit1Rows(WithHumidity(wind, lib), solar, snow, precip, showReal);
    assert Loaded1Outcome(loaded, lib, showReal) == Emit1(WithHumidity(wind, lib), solar, snow, precip, showReal);
  }

  /**
   * `make_epw` writes the hourly CSV exactly when the longest table reaches
   * row 8784, and the CSV then carries the frame whose row `k` gathers row
   * `25 + k` of each table.
   */
  lemma Emit1Rows(wind: Table, solar: Table, snow: Table, precip: Table, showReal: real -> string)
    requires Numbered(wind) && Numbered(solar) && Numbered(snow) && Numbered(precip)
    requires Prepared(wind, WindKeys1) && Prepared(solar, {"CLDTOT"})
    requires Prepared(snow, {"SNODP"}) && Prepared(precip, {"PRECTOT"})
    ensures Emits1(Emit1(wind, solar, snow, precip, showReal), wind, solar, snow, precip, showReal)
  {
    GridLengths();
    var f := EpwFrame(GridDates(NaiveGrid(), 0), Measured1(wind, solar, snow, precip));
    PositionalFrame(GridDates(NaiveGrid(), 0), wind, solar, snow, precip);
    if f.Success? {
      assert Emit1(wind, solar, snow, precip, showReal).value == HourlyCsv(f.value, showReal);
    }
  }

}
