/**
 * The per-location tables once read back from CSV, the columns `make_epw_4`
 * and `make_epw` add to them in place, and `process_data`, which moves the
 * time column to Asia/Shanghai in place and keeps the rows on the grid.
 */
module Frames {
  import opened Physics
  import opened Calendar

  /**
   * A table as a value: its row labels (`read_csv` numbers rows 0, 1, ...),
   * its time column in minutes and its numeric columns by name.
   */
  datatype Table = Table(labels: seq<int>, time: seq<int>, cols: map<string, seq<real>>)

  predicate WellShaped(t: Table) {
    && |t.labels| == |t.time|
    && forall c :: c in t.cols ==> |t.cols[c]| == |t.time|
  }

  /** `pd.read_csv`: the default labels 0 .. n-1. */
  function ReadBack(time: seq<int>, cols: map<string, seq<real>>): (t: Table)
    requires forall c :: c in cols ==> |cols[c]| == |time|
    ensures WellShaped(t) && |t.labels| == |time|
    ensures forall i :: 0 <= i < |time| ==> t.labels[i] == i
  {
    Table(seq(|time|, i => i), time, cols)
  }

  // ---------------------------------------------------------------------
  // Column formulas (pandas applies them row by row)
  // ---------------------------------------------------------------------

  /** `SWGDN - DNI * cos(radians(solar_zenith))`: each row closes the energy balance. */
  function DhiColumn(lib: Lib, ghi: seq<real>, dni: seq<real>, zenith: seq<real>): (dhi: seq<real>)
    requires |dni| == |ghi| && |zenith| == |ghi|
    ensures |dhi| == |ghi|
    ensures forall i :: 0 <= i < |ghi| ==> dhi[i] + dni[i] * lib.cosDegrees(zenith[i]) == ghi[i]
  {
    seq(|ghi|, i requires 0 <= i < |ghi| => Dhi(lib, ghi[i], dni[i], zenith[i]))
  }

  predicate HumidityRowsDefined(q: seq<real>, t2m: seq<real>) {
    |q| == |t2m| && forall i :: 0 <= i < |q| ==> HumidityDefined(q[i], t2m[i])
  }

  /** The `e` column: each value solves `e (0.622 + q) = q ps`. */
  function VapourColumn(q: seq<real>, ps: seq<real>): (e: seq<real>)
    requires |ps| == |q| && forall i :: 0 <= i < |q| ==> MolarMassRatio + q[i] != 0.0
    ensures |e| == |q|
    ensures forall i :: 0 <= i < |q| ==> e[i] * (MolarMassRatio + q[i]) == q[i] * ps[i] && e[i] == VapourPressure(q[i], ps[i])
  {
    seq(|q|, i requires 0 <= i < |q| => VapourPressure(q[i], ps[i]))
  }

  /** The `e_s` column: positive everywhere. */
  function SaturationColumn(lib: Lib, t2m: seq<real>): (es: seq<real>)
    requires Lawful(lib) && forall i :: 0 <= i < |t2m| ==> KelvinToCelsius(t2m[i]) + 243.5 != 0.0
    ensures |es| == |t2m|
    ensures forall i :: 0 <= i < |t2m| ==> es[i] > 0.0 && es[i] == SaturationPressure(lib, t2m[i])
  {
    seq(|t2m|, i requires 0 <= i < |t2m| => SaturationPressure(lib, t2m[i]))
  }

  /** `(e / e_s) * 100`: each value times `e_s` is `100 e`. */
  function RatioColumn(e: seq<real>, es: seq<real>): (rh: seq<real>)
    requires |es| == |e| && forall i :: 0 <= i < |e| ==> es[i] > 0.0
    ensures |rh| == |e|
    ensures forall i :: 0 <= i < |e| ==> rh[i] * es[i] == e[i] * 100.0
  {
    seq(|e|, i requires 0 <= i < |e| => e[i] / es[i] * 100.0)
  }

  /** `clip(upper=hi)`: nothing above `hi`, every value at or below `hi` kept as it is. */
  function ClipColumn(x: seq<real>, hi: real): (r: seq<real>)
    ensures |r| == |x|
    ensures forall i :: 0 <= i < |x| ==> r[i] <= hi && (x[i] <= hi ==> r[i] == x[i]) && (x[i] > hi ==> r[i] == hi)
  {
    seq(|x|, i requires 0 <= i < |x| => ClipUpper(x[i], hi))
  }

  /** `sqrt(U2M**2 + V2M**2)`: non-negative, with the square of the speed equal to u² + v². */
  function SpeedColumn(lib: Lib, u: seq<real>, v: seq<real>): (ws: seq<real>)
    requires Lawful(lib) && |v| == |u|
    ensures |ws| == |u|
    ensures forall i :: 0 <= i < |u| ==> ws[i] >= 0.0 && ws[i] * ws[i] == u[i] * u[i] + v[i] * v[i]
  {
    seq(|u|, i requires 0 <= i < |u| => WindSpeed(lib, u[i], v[i]))
  }

  /** `degrees(arctan2(U2M, V2M))`. */
  function AngleColumn(lib: Lib, u: seq<real>, v: seq<real>): (d: seq<real>)
    requires Lawful(lib) && |v| == |u|
    ensures |d| == |u|
    ensures forall i :: 0 <= i < |u| ==> -180.0 <= d[i] <= 180.0 && d[i] == lib.atan2Degrees(u[i], v[i])
  {
    var d := seq(|u|, i requires 0 <= i < |u| => lib.atan2Degrees(u[i], v[i]));
    assert forall i :: 0 <= i < |u| ==> -180.0 <= d[i] <= 180.0 by {
      forall i | 0 <= i < |u| {
        AngleInRange(lib, u[i], v[i]);
      }
    }
    d
  }

  /** `(d + 360) % 360` on angles in [-180, 180]: the same direction, in [0, 360). */
  function TurnColumn(d: seq<real>): (r: seq<real>)
    requires forall i :: 0 <= i < |d| ==> -180.0 <= d[i] <= 180.0
    ensures |r| == |d|
    ensures forall i :: 0 <= i < |d| ==>
      && 0.0 <= r[i] < FullTurn
      && (d[i] >= 0.0 ==> r[i] == d[i])
      && (d[i] < 0.0 ==> r[i] == d[i] + FullTurn)
  {
    seq(|d|, i requires 0 <= i < |d| => Turn(d[i]))
  }

  // ---------------------------------------------------------------------
  // process_data: the grid filter
  // ---------------------------------------------------------------------

  predicate Increasing(s: seq<int>) {
    forall i, j :: 0 <= i < j < |s| ==> s[i] < s[j]
  }

  /** `df['time'].isin(date_range)`: the positions whose time is a grid mark, in table order. */
  function Kept(times: seq<int>, grid: seq<int>): (idx: seq<int>)
    ensures Increasing(idx)
    ensures forall j :: 0 <= j < |idx| ==> 0 <= idx[j] < |times|
    ensures forall i :: 0 <= i < |times| ==> (i in idx <==> times[i] in grid)
    decreases |times|
  {
    if times == [] then []
    else
      var n := |times| - 1;
      var prev := Kept(times[..n], grid);
      assert forall i :: 0 <= i < n ==> times[..n][i] == times[i];
      if times[n] in grid then prev + [n] else prev
  }

  /** The rows at `idx`, in that order. */
  function Select<T>(s: seq<T>, idx: seq<int>): (r: seq<T>)
    requires forall j :: 0 <= j < |idx| ==> 0 <= idx[j] < |s|
    ensures |r| == |idx|
    ensures forall j :: 0 <= j < |idx| ==> r[j] == s[idx[j]]
  {
    seq(|idx|, j requires 0 <= j < |idx| => s[idx[j]])
  }

  function SelectColumns(cols: map<string, seq<real>>, n: nat, idx: seq<int>): (r: map<string, seq<real>>)
    requires forall c :: c in cols ==> |cols[c]| == n
    requires forall j :: 0 <= j < |idx| ==> 0 <= idx[j] < n
    ensures r.Keys == cols.Keys
    ensures forall c :: c in r ==> |r[c]| == |idx| && forall j :: 0 <= j < |idx| ==> r[c][j] == cols[c][idx[j]]
  {
    map c | c in cols :: Select(cols[c], idx)
  }

  /** `df[df['time'].isin(date_range)]` on a table whose times are already local. */
  function Filter(t: Table, grid: seq<int>): (f: Table)
    requires WellShaped(t)
    ensures WellShaped(f)
    ensures f.cols.Keys == t.cols.Keys
    ensures Increasing(t.labels) ==> Increasing(f.labels)
  {
    var idx := Kept(t.time, grid);
    var labels := Select(t.labels, idx);
    assert Increasing(t.labels) ==> Increasing(labels) by {
      if Increasing(t.labels) {
        forall a, b | 0 <= a < b < |labels|
          ensures labels[a] < labels[b]
        {
          assert idx[a] < idx[b];
        }
      }
    }
    Table(labels, Select(t.time, idx), SelectColumns(t.cols, |t.time|, idx))
  }

  /** The rows `Filter` keeps, with their labels and times, depend only on the labels and the time column. */
  lemma FilterOfSameRows(t1: Table, t2: Table, grid: seq<int>)
    requires WellShaped(t1) && WellShaped(t2) && t1.labels == t2.labels && t1.time == t2.time
    ensures Filter(t1, grid).labels == Filter(t2, grid).labels && Filter(t1, grid).time == Filter(t2, grid).time
  {
  }

  /** `tz_localize('UTC').tz_convert('Asia/Shanghai')` on every row. */
  function Localise(times: seq<int>): (local: seq<int>)
    ensures |local| == |times|
    ensures forall i :: 0 <= i < |times| ==> local[i] - times[i] == 8 * MinutesPerHour
  {
    seq(|times|, i requires 0 <= i < |times| => ToShanghai(times[i]))
  }

  /** The table after `process_data` has moved its time column to local time. */
  function Localised(t: Table): (r: Table)
    requires WellShaped(t)
    ensures WellShaped(r) && r.labels == t.labels && r.cols == t.cols
  {
    Table(t.labels, Localise(t.time), t.cols)
  }

  /**
   * The filtered table holds exactly the rows whose shifted time is a grid
   * mark, in table order, with their labels and values unchanged.
   */
  lemma {:induction false} FilterKeepsGridRows(t: Table, grid: seq<int>)
    requires WellShaped(t)
    ensures var f := Filter(t, grid); var idx := Kept(t.time, grid);
      && (forall j :: 0 <= j < |idx| ==>
            && f.labels[j] == t.labels[idx[j]]
            && f.time[j] == t.time[idx[j]] && f.time[j] in grid
            && forall c :: c in t.cols ==> f.cols[c][j] == t.cols[c][idx[j]])
      && (forall i :: 0 <= i < |t.time| && t.time[i] in grid ==> exists j :: 0 <= j < |idx| && idx[j] == i)
      && (forall j1, j2 :: 0 <= j1 < j2 < |idx| ==> idx[j1] < idx[j2])
  {
    var f := Filter(t, grid);
    var idx := Kept(t.time, grid);
    forall j | 0 <= j < |idx|
      ensures f.time[j] in grid
    {
      assert idx[j] in idx;
    }
    forall i | 0 <= i < |t.time| && t.time[i] in grid
      ensures exists j :: 0 <= j < |idx| && idx[j] == i
    {
      assert i in idx;
    }
  }

  // ---------------------------------------------------------------------
  // The columns added to a table, as values
  // ---------------------------------------------------------------------

  /** Columns other than `names` are left as they were. */
  predicate KeepsOthers(before: map<string, seq<real>>, after: map<string, seq<real>>, names: set<string>) {
    && after.Keys == before.Keys + names
    && forall c :: c in before && c !in names ==> after[c] == before[c]
  }

  /** The solar table with `solar_zenith`, `DNI` and `DHI` added. */
  function WithSolar(t: Table, lib: Lib, zenith: seq<real>, dni: seq<real>): (r: Table)
    requires WellShaped(t) && "SWGDN" in t.cols && |zenith| == |t.time| && |dni| == |t.time|
    ensures WellShaped(r) && r.labels == t.labels && r.time == t.time
    ensures KeepsOthers(t.cols, r.cols, {"solar_zenith", "DNI", "DHI"})
    ensures r.cols["solar_zenith"] == zenith && r.cols["DNI"] == dni
    ensures forall i :: 0 <= i < |t.time| ==> r.cols["DHI"][i] + dni[i] * lib.cosDegrees(zenith[i]) == t.cols["SWGDN"][i]
  {
    Table(t.labels, t.time, t.cols["solar_zenith" := zenith]["DNI" := dni]["DHI" := DhiColumn(lib, t.cols["SWGDN"], dni, zenith)])
  }

  predicate HumidityReady(t: Table) {
    && "QV2M" in t.cols && "PS" in t.cols && "T2M" in t.cols
    && HumidityRowsDefined(t.cols["QV2M"], t.cols["T2M"])
  }

  /**
   * The wind table with `e`, `e_s` and `Relative Humidity` added: the humidity
   * never exceeds 110 and is the raw `100 e / e_s` wherever that is at most 110.
   */
  function WithHumidity(t: Table, lib: Lib): (r: Table)
    requires WellShaped(t) && Lawful(lib) && HumidityReady(t)
    ensures WellShaped(r) && r.labels == t.labels && r.time == t.time
    ensures KeepsOthers(t.cols, r.cols, {"e", "e_s", "Relative Humidity"})
    ensures forall i :: 0 <= i < |t.time| ==>
      var raw := RawHumidity(lib, t.cols["QV2M"][i], t.cols["PS"][i], t.cols["T2M"][i]);
      var rh := r.cols["Relative Humidity"][i];
      && rh <= HumidityCap
      && (raw <= HumidityCap ==> rh == raw)
      && (raw > HumidityCap ==> rh == HumidityCap)
  {
    var q, ps, t2m := t.cols["QV2M"], t.cols["PS"], t.cols["T2M"];
    var e := VapourColumn(q, ps);
    var es := SaturationColumn(lib, t2m);
    var rh := ClipColumn(RatioColumn(e, es), HumidityCap);
    Table(t.labels, t.time, t.cols["e" := e]["e_s" := es]["Relative Humidity" := rh])
  }

  /**
   * The wind table with `wind_speed` and `wind_direction` added: a
   * non-negative speed whose square is u² + v², and the atan2 angle moved
   * into [0, 360).
   */
  function WithWind(t: Table, lib: Lib): (r: Table)
    requires WellShaped(t) && Lawful(lib) && "U2M" in t.cols && "V2M" in t.cols
    ensures WellShaped(r) && r.labels == t.labels && r.time == t.time
    ensures KeepsOthers(t.cols, r.cols, {"wind_speed", "wind_direction"})
    ensures forall i :: 0 <= i < |t.time| ==>
      var u, v := t.cols["U2M"][i], t.cols["V2M"][i];
      var ws, wd, d := r.cols["wind_speed"][i], r.cols["wind_direction"][i], lib.atan2Degrees(u, v);
      && ws >= 0.0 && ws * ws == u * u + v * v
      && 0.0 <= wd < FullTurn
      && (d >= 0.0 ==> wd == d)
      && (d < 0.0 ==> wd == d + FullTurn)
  {
    var u, v := t.cols["U2M"], t.cols["V2M"];
    Table(t.labels, t.time, t.cols["wind_speed" := SpeedColumn(lib, u, v)]["wind_direction" := TurnColumn(AngleColumn(lib, u, v))])
  }

  // ---------------------------------------------------------------------
  // The tables the script changes in place
  // ---------------------------------------------------------------------

  class Frame {
    var labels: seq<int>
    var time: seq<int>
    var cols: map<string, seq<real>>

    ghost predicate Valid()
      reads this
    {
      WellShaped(Table(labels, time, cols))
    }

    function Snapshot(): (t: Table)
      reads this
      ensures t.labels == labels && t.time == time && t.cols == cols
    {
      Table(labels, time, cols)
    }

    /** `pd.read_csv(file_path)`. */
    constructor (t: Table)
      requires WellShaped(t)
      ensures Valid() && Snapshot() == t
    {
      labels := t.labels;
      time := t.time;
      cols := t.cols;
    }

    /**
     * `df_solar['solar_zenith']`, `['DNI']` and `['DHI']`, from the zenith
     * and DNI the solar-position and DISC models return for each row.
     */
    method AddSolarColumns(lib: Lib, zenith: seq<real>, dni: seq<real>)
      requires Valid() && "SWGDN" in cols && |zenith| == |time| && |dni| == |time|
      modifies this
      ensures Valid() && Snapshot() == WithSolar(old(Snapshot()), lib, zenith, dni)
    {
      cols := cols["solar_zenith" := zenith];
      cols := cols["DNI" := dni];
      cols := cols["DHI" := DhiColumn(lib, cols["SWGDN"], cols["DNI"], cols["solar_zenith"])];
    }

    /** `df_wind['e']`, `['e_s']` and `['Relative Humidity']`, the last clipped from above at 110. */
    method AddHumidity(lib: Lib)
      requires Valid() && Lawful(lib) && HumidityReady(Snapshot())
      modifies this
      ensures Valid() && Snapshot() == WithHumidity(old(Snapshot()), lib)
    {
      cols := cols["e" := VapourColumn(cols["QV2M"], cols["PS"])];
      cols := cols["e_s" := SaturationColumn(lib, cols["T2M"])];
      cols := cols["Relative Humidity" := RatioColumn(cols["e"], cols["e_s"])];
      cols := cols["Relative Humidity" := ClipColumn(cols["Relative Humidity"], HumidityCap)];
    }

    /** `df_wind['wind_speed']` and `['wind_direction']`, the latter first as the raw angle, then turned into [0, 360). */
    method AddWind(lib: Lib)
      requires Valid() && Lawful(lib) && "U2M" in cols && "V2M" in cols
      modifies this
      ensures Valid() && Snapshot() == WithWind(old(Snapshot()), lib)
    {
      cols := cols["wind_speed" := SpeedColumn(lib, cols["U2M"], cols["V2M"])];
      cols := cols["wind_direction" := AngleColumn(lib, cols["U2M"], cols["V2M"])];
      cols := cols["wind_direction" := TurnColumn(cols["wind_direction"])];
    }

    /**
     * `process_data(df)`: the time column becomes Shanghai time in place,
     * and the result is the rows whose new time is a grid mark.
     */
    method ProcessData(grid: seq<int>) returns (filtered: Table)
      requires Valid()
      modifies this
      ensures Valid() && Snapshot() == Localised(old(Snapshot()))
      ensures filtered == Filter(Snapshot(), grid)
    {
      time := Localise(time);
      filtered := Filter(Table(labels, time, cols), grid);
    }
  }
}
