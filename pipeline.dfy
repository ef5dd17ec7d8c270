/**
 * The two EPW builders: `make_epw_4`, which derives solar, humidity and
 * wind columns, moves every table to Asia/Shanghai time and aligns the
 * tables on the 2023 grid by label, and `make_epw`, which slices rows
 * 25 .. 8784 of each table by position. Both first load one cell file per
 * data folder.
 */
module Pipeline {
  import opened Wrappers
  import opened Text
  import opened Physics
  import opened Calendar
  import opened Closest
  import opened Partition
  import opened Frames
  import opened Epw

  // ---------------------------------------------------------------------
  // Loading one cell file per data folder
  // ---------------------------------------------------------------------

  datatype Category = Precipitation | Snow | Solar | Wind | Other

  /** The `elif` chain on the folder path: the first of the four words it contains. */
  function Classify(folder: string): Category {
    if Contains(folder, "Precipitation") then Precipitation
    else if Contains(folder, "Snow") then Snow
    else if Contains(folder, "Solar") then Solar
    else if Contains(folder, "Wind") then Wind
    else Other
  }

  /** `processed_folder_list`: each sub-directory of the processed-data folder, as a path. */
  function ProcessedFolders(names: seq<string>): (folders: seq<string>)
    ensures |folders| == |names|
    ensures forall i :: 0 <= i < |names| ==> folders[i] == PathJoin(BaseOutputFolder, names[i])
  {
    seq(|names|, i requires 0 <= i < |names| => PathJoin(BaseOutputFolder, names[i]))
  }

  /** `df_precipitation`, `df_snow`, `df_solar`, `df_wind`; `None` until a file is read. */
  datatype Loaded = Loaded(precipitation: Option<Table>, snow: Option<Table>, solar: Option<Table>, wind: Option<Table>)

  const NothingLoaded := Loaded(None, None, None, None)

  function Slot(l: Loaded, c: Category): Option<Table> {
    match c
    case Precipitation => l.precipitation
    case Snow => l.snow
    case Solar => l.solar
    case Wind => l.wind
    case Other => None
  }

  /** Folder `folder` holds the target file and is read into slot `c`. */
  predicate Supplies(folder: string, c: Category, target: string, files: map<string, Table>) {
    Classify(folder) == c && PathJoin(folder, target) in files
  }

  /**
   * The tables after the loop over `folders`; `files` is the file system,
   * each present path with the table `read_csv` returns for it.
   */
  function LoadedFrom(folders: seq<string>, target: string, files: map<string, Table>): Loaded
    decreases |folders|
  {
    if folders == [] then NothingLoaded
    else
      var prev := LoadedFrom(folders[..|folders| - 1], target, files);
      var folder := folders[|folders| - 1];
      var path := PathJoin(folder, target);
      if path !in files then prev
      else
        match Classify(folder)
        case Precipitation => prev.(precipitation := Some(files[path]))
        case Snow => prev.(snow := Some(files[path]))
        case Solar => prev.(solar := Some(files[path]))
        case Wind => prev.(wind := Some(files[path]))
        case Other => prev
  }

  /** The loop of `make_epw_4` and `make_epw`, reading the target file of each folder that has it. */
  method LoadTables(folders: seq<string>, target: string, files: map<string, Table>) returns (loaded: Loaded)
    ensures loaded == LoadedFrom(folders, target, files)
  {
    loaded := NothingLoaded;
    var k := 0;
    while k < |folders|
      invariant 0 <= k <= |folders|
      invariant loaded == LoadedFrom(folders[..k], target, files)
    {
      var folder := folders[k];
      var path := PathJoin(folder, target);
      assert folders[..k + 1][..k] == folders[..k];
      if path in files {
        if Contains(folder, "Precipitation") {
          loaded := loaded.(precipitation := Some(files[path]));
        } else if Contains(folder, "Snow") {
          loaded := loaded.(snow := Some(files[path]));
        } else if Contains(folder, "Solar") {
          loaded := loaded.(solar := Some(files[path]));
        } else if Contains(folder, "Wind") {
          loaded := loaded.(wind := Some(files[path]));
        }
      }
      k := k + 1;
    }
    assert folders[..|folders|] == folders;
  }

  /** One more folder replaces slot `c` exactly when that folder supplies it. */
  lemma SlotStep(folders: seq<string>, target: string, files: map<string, Table>, c: Category)
    requires folders != [] && c != Other
    ensures var n := |folders| - 1;
      Slot(LoadedFrom(folders, target, files), c) ==
        if Supplies(folders[n], c, target, files) then Some(files[PathJoin(folders[n], target)])
        else Slot(LoadedFrom(folders[..n], target, files), c)
  {
  }

  /** A slot stays `None` exactly when no folder of its kind holds the file. */
  lemma {:induction false} NoSupplierLeavesNone(folders: seq<string>, target: string, files: map<string, Table>, c: Category)
    requires c != Other
    ensures Slot(LoadedFrom(folders, target, files), c).None? <==>
      forall i :: 0 <= i < |folders| ==> !Supplies(folders[i], c, target, files)
    decreases |folders|
  {
    if folders != [] {
      var n := |folders| - 1;
      var init := folders[..n];
      SlotStep(folders, target, files, c);
      NoSupplierLeavesNone(init, target, files, c);
      assert forall i :: 0 <= i < n ==> init[i] == folders[i];
    }
  }

  /** Otherwise the slot holds the table of the last folder of its kind that holds the file. */
  lemma {:induction false} LastSupplierWins(folders: seq<string>, target: string, files: map<string, Table>, c: Category)
    requires c != Other
    ensures forall i ::
      (&& 0 <= i < |folders| && Supplies(folders[i], c, target, files)
       && forall j :: i < j < |folders| ==> !Supplies(folders[j], c, target, files)) ==>
        Slot(LoadedFrom(folders, target, files), c) == Some(files[PathJoin(folders[i], target)])
    decreases |folders|
  {
    if folders != [] {
      var n := |folders| - 1;
      var init := folders[..n];
      SlotStep(folders, target, files, c);
      LastSupplierWins(init, target, files, c);
      assert forall i :: 0 <= i < n ==> init[i] == folders[i];
    }
  }

  // ---------------------------------------------------------------------
  // What the input tables carry
  // ---------------------------------------------------------------------

  /** A table `read_csv` returns: well shaped, rows numbered 0, 1, ... */
  predicate Numbered(t: Table) {
    WellShaped(t) && forall i :: 0 <= i < |t.labels| ==> t.labels[i] == i
  }

  /** A table of kind `c` holds the columns read from it, and wind rows give a defined humidity. */
  predicate Ready(t: Table, c: Category, needs: Category -> set<string>) {
    && Numbered(t)
    && needs(c) <= t.cols.Keys
    && (c == Wind ==> HumidityReady(t))
  }

  /** The target file, wherever a folder holds it, has what the folder's kind needs. */
  ghost predicate Readable(folders: seq<string>, target: string, files: map<string, Table>, needs: Category -> set<string>) {
    forall i :: 0 <= i < |folders| && PathJoin(folders[i], target) in files ==>
      Ready(files[PathJoin(folders[i], target)], Classify(folders[i]), needs)
  }

  predicate SlotReady(l: Loaded, c: Category, needs: Category -> set<string>) {
    Slot(l, c).Some? ==> Ready(Slot(l, c).value, c, needs)
  }

  /** Every table the loop loads comes from a folder of its kind, so it is ready. */
  lemma {:induction false} LoadedReady(folders: seq<string>, target: string, files: map<string, Table>, needs: Category -> set<string>)
    requires Readable(folders, target, files, needs)
    ensures forall c :: SlotReady(LoadedFrom(folders, target, files), c, needs)
    decreases |folders|
  {
    if folders != [] {
      var n := |folders| - 1;
      var init := folders[..n];
      assert forall i :: 0 <= i < n ==> init[i] == folders[i];
      LoadedReady(init, target, files, needs);
      var path := PathJoin(folders[n], target);
      var prev := LoadedFrom(init, target, files);
      forall c
        ensures SlotReady(LoadedFrom(folders, target, files), c, needs)
      {
        assert SlotReady(prev, c, needs);
        if path in files && Classify(folders[n]) == c {
          assert Ready(files[path], c, needs);
          assert c != Other ==> Slot(LoadedFrom(folders, target, files), c) == Some(files[path]);
        } else {
          assert Slot(LoadedFrom(folders, target, files), c) == Slot(prev, c);
        }
      }
    }
  }

  lemma NumberedIncreasing(t: Table)
    requires Numbered(t)
    ensures Increasing(t.labels)
  {
  }

  // ---------------------------------------------------------------------
  // Columns of the EPW frame
  // ---------------------------------------------------------------------

  /** A filtered table that still holds `keys`, with increasing labels. */
  predicate Prepared(t: Table, keys: set<string>) {
    WellShaped(t) && Increasing(t.labels) && keys <= t.cols.Keys
  }

  /** `f(df[key])`: a Series under the table's own labels. */
  function Derived(t: Table, key: string, f: real -> real): (c: Column)
    requires Prepared(t, {key})
    ensures SeriesOrNone(c) && c.Aligned? && c.series.labels == t.labels
    ensures |c.series.values| == |t.time| && forall i :: 0 <= i < |t.time| ==> c.series.values[i] == f(t.cols[key][i])
  {
    Aligned(Series(t.labels, seq(|t.time|, i requires 0 <= i < |t.time| => f(t.cols[key][i]))))
  }

  function Unchanged(x: real): real {
    x
  }

  /** `(CLDTOT * 10).round()`, kept as a float. */
  function SkyCoverValue(cloudFraction: real): real {
    SkyCover(cloudFraction) as real
  }

  const WindKeys4 := {"T2M", "T2MDEW", "Relative Humidity", "PS", "wind_direction", "wind_speed"}
  const SolarKeys4 := {"SWGDN", "DNI", "DHI", "CLDTOT"}

  /** The thirteen data columns of `make_epw_4`'s `epw_data`, from the filtered tables. */
  function Measured4(wind: Table, solar: Table, snow: Table, precip: Table): (m: Measured)
    requires Prepared(wind, WindKeys4) && Prepared(solar, SolarKeys4)
    requires Prepared(snow, {"SNODP"}) && Prepared(precip, {"PRECTOT"})
    ensures MeasuredWellFormed(m)
  {
    var m := Measured(
      Derived(wind, "T2M", KelvinToCelsius), Derived(wind, "T2MDEW", KelvinToCelsius),
      Derived(wind, "Relative Humidity", Unchanged), Derived(wind, "PS", Unchanged),
      Derived(solar, "SWGDN", Scaled), Derived(solar, "DNI", Scaled), Derived(solar, "DHI", Scaled),
      Derived(wind, "wind_direction", Unchanged), Derived(wind, "wind_speed", Unchanged),
      Derived(solar, "CLDTOT", SkyCoverValue), Derived(solar, "CLDTOT", SkyCoverValue),
      Derived(snow, "SNODP", SnowDepthCm), Derived(precip, "PRECTOT", PrecipitationMm));
    MeasuredWellFormedIntro(m);
    m
  }

  function Min(a: int, b: int): int {
    if a <= b then a else b
  }

  function Max(a: int, b: int): int {
    if a <= b then b else a
  }

  lemma IncreasingSlice(s: seq<int>, lo: int, hi: int)
    requires Increasing(s) && 0 <= lo <= hi <= |s|
    ensures Increasing(s[lo..hi])
  {
    forall a, b | 0 <= a < b < hi - lo
      ensures s[lo..hi][a] < s[lo..hi][b]
    {
      assert s[lo..hi][a] == s[lo + a] && s[lo..hi][b] == s[lo + b];
    }
  }

  /** Rows 25 .. 8784 by position, the same range `iloc[25:8785]` takes. */
  const FirstRow := 25
  const EndRow := 8785

  /** `f(df[key].iloc[start:stop])`: the rows at positions start .. stop-1 that exist, with their labels. */
  function Sliced(t: Table, key: string, f: real -> real, start: nat, stop: nat): (c: Column)
    requires Prepared(t, {key}) && start <= stop
    ensures SeriesOrNone(c) && c.Aligned?
    ensures var lo := Min(start, |t.time|); var hi := Max(lo, Min(stop, |t.time|));
      && c.series.labels == t.labels[lo..hi]
      && |c.series.values| == hi - lo
      && forall i :: 0 <= i < hi - lo ==> c.series.values[i] == f(t.cols[key][lo + i])
  {
    var lo := Min(start, |t.time|);
    var hi := Max(lo, Min(stop, |t.time|));
    IncreasingSlice(t.labels, lo, hi);
    Aligned(Series(t.labels[lo..hi], seq(hi - lo, i requires 0 <= i < hi - lo => f(t.cols[key][lo + i]))))
  }

  const WindKeys1 := {"T2M", "T2MDEW", "Relative Humidity", "PS"}

  /** The data columns of `make_epw`'s `epw_data`; the radiation and wind columns are `None`. */
  function Measured1(wind: Table, solar: Table, snow: Table, precip: Table): (m: Measured)
    requires Prepared(wind, WindKeys1) && Prepared(solar, {"CLDTOT"})
    requires Prepared(snow, {"SNODP"}) && Prepared(precip, {"PRECTOT"})
    ensures MeasuredWellFormed(m)
  {
    var m := Measured(
      Sliced(wind, "T2M", KelvinToCelsius, FirstRow, EndRow), Sliced(wind, "T2MDEW", KelvinToCelsius, FirstRow, EndRow),
      Sliced(wind, "Relative Humidity", Unchanged, FirstRow, EndRow), Sliced(wind, "PS", Unchanged, FirstRow, EndRow),
      Blank, Blank, Blank,
      Blank, Blank,
      Sliced(solar, "CLDTOT", SkyCoverValue, FirstRow, EndRow), Sliced(solar, "CLDTOT", SkyCoverValue, FirstRow, EndRow),
      Sliced(snow, "SNODP", SnowDepthCm, FirstRow, EndRow), Sliced(precip, "PRECTOT", PrecipitationMm, FirstRow, EndRow));
    MeasuredWellFormedIntro(m);
    m
  }

  /** The date of every mark of a 2023 grid: mark `k` is hour `k % 24` of day `k / 24` of the year. */
  function GridDates(grid: seq<int>, minute: int): (dates: seq<Civil>)
    requires (grid == ShanghaiGrid() && minute == 30) || (grid == NaiveGrid() && minute == 0)
    ensures |dates| == |grid| == HoursIn2023
    ensures forall k :: 0 <= k < |dates| ==>
      && dates[k].year == 2023 && dates[k].hour == k % 24 && dates[k].minute == minute
      && DayOfYearIs(2023, k / 24, dates[k].month, dates[k].day)
  {
    GridLengths();
    var dates := seq(|grid|, k requires 0 <= k < |grid| => GridCivil(grid, minute, k); ToCivil(grid[k]));
    assert forall k :: 0 <= k < |dates| ==>
      && dates[k].year == 2023 && dates[k].hour == k % 24 && dates[k].minute == minute
      && DayOfYearIs(2023, k / 24, dates[k].month, dates[k].day) by {
      forall k | 0 <= k < |dates|
        ensures dates[k].year == 2023 && dates[k].hour == k % 24 && dates[k].minute == minute
        ensures DayOfYearIs(2023, k / 24, dates[k].month, dates[k].day)
      {
        GridCivil(grid, minute, k);
      }
    }
    dates
  }

  // ---------------------------------------------------------------------
  // make_epw_4
  // ---------------------------------------------------------------------

  datatype EpwError =
    | NoLocationFile          // no Solar file name carries coordinates: `os.path.join` fails on `None`
    | MissingTable(category: Category)  // a table that was never loaded is used
    | Misaligned              // `pd.DataFrame` rejects a list of the wrong length

  /** The two files `make_epw_4` writes. */
  datatype Outputs = Outputs(hourlyCsv: string, epw: string)

  /** The two files `make_epw_4` writes for a frame: the hourly CSV and the EPW file. */
  function WrittenFiles4(rows: seq<seq<Field>>, showReal: real -> string): (o: Outputs)
    ensures o.hourlyCsv == HourlyCsv(rows, showReal) && o.epw == EpwText(rows, showReal)
  {
    Outputs(HourlyCsv(rows, showReal), EpwText(rows, showReal))
  }

  const Latitude := 35.4
  const Longitude := 119.3

  /** The folder whose listing is searched for the nearest cell file. */
  function SolarPath(): string {
    PathJoin(BaseOutputFolder, "Solar")
  }

  /**
   * pvlib's solar position and DISC model as functions of the loaded solar
   * and wind tables: the zenith angles, then the DNI given the zenith.
   */
  datatype SolarModel = SolarModel(zenith: (Table, Table) -> seq<real>, dni: (Table, Table, seq<real>) -> seq<real>)

  /** Both give one value per row of the solar table. */
  ghost predicate PerSolarRow(model: SolarModel) {
    forall s, w :: |model.zenith(s, w)| == |s.time| && forall z :: |model.dni(s, w, z)| == |s.time|
  }

  function Needs4(c: Category): set<string> {
    match c
    case Precipitation => {"PRECTOT"}
    case Snow => {"SNODP"}
    case Solar => {"SWGDN", "CLDTOT"}
    case Wind => {"PS", "T2M", "T2MDEW", "QV2M", "U2M", "V2M"}
    case Other => {}
  }

  /** Only a folder list that is empty lets a missing target through. */
  function TargetName(target: Option<string>): string {
    if target.Some? then target.value else ""
  }

  /** The rows of `pd.DataFrame(epw_data)`, or `Misaligned`. */
  function EpwFrame(dates: seq<Civil>, m: Measured): (r: Result<seq<seq<Field>>, EpwError>)
    requires MeasuredWellFormed(m)
    ensures ColumnsWellFormed(EpwColumns(dates, m))
    ensures r.Success? <==> ToFrame(EpwColumns(dates, m)).Success?
    ensures r.Success? ==> r.value == ToFrame(EpwColumns(dates, m)).value
  {
    EpwColumnsWellFormed(dates, m);
    match ToFrame(EpwColumns(dates, m))
    case Failure(_) => Failure(Misaligned)
    case Success(rows) => Success(rows)
  }

  /**
   * What `make_epw_4` ends with, given the file it chose: the hourly CSV and
   * the EPW text, or the first error it runs into.
   */
  function MakeEpw4Outcome(target: Option<string>, folders: seq<string>, files: map<string, Table>,
                           lib: Lib, model: SolarModel, showReal: real -> string): Result<Outputs, EpwError>
    requires Lawful(lib) && PerSolarRow(model) && (target.Some? ==> Readable(folders, target.value, files, Needs4))
  {
    if target.None? && folders != [] then Failure(NoLocationFile)
    else
      LoadedReady(folders, TargetName(target), files, Needs4);
      Loaded4Outcome(LoadedFrom(folders, TargetName(target), files), lib, model, showReal)
  }

  /** The loaded tables, each ready for its kind. */
  predicate AllReady(loaded: Loaded, needs: Category -> set<string>) {
    && SlotReady(loaded, Precipitation, needs) && SlotReady(loaded, Snow, needs)
    && SlotReady(loaded, Solar, needs) && SlotReady(loaded, Wind, needs)
  }

  /** The solar table with its derived columns, on local time and cut to the grid. */
  function SolarStage(solar: Table, wind: Table, lib: Lib, model: SolarModel): (r: Table)
    requires PerSolarRow(model) && Ready(solar, Solar, Needs4)
    ensures Prepared(r, SolarKeys4)
  {
    var zenith := model.zenith(solar, wind);
    NumberedIncreasing(solar);
    Filter(Localised(WithSolar(solar, lib, zenith, model.dni(solar, wind, zenith))), ShanghaiGrid())
  }

  /** The wind table with humidity and wind columns, on local time and cut to the grid. */
  function WindStage(wind: Table, lib: Lib): (r: Table)
    requires Lawful(lib) && Ready(wind, Wind, Needs4)
    ensures Prepared(r, WindKeys4)
  {
    NumberedIncreasing(wind);
    Filter(Localised(WithWind(WithHumidity(wind, lib), lib)), ShanghaiGrid())
  }

  /** A snow or precipitation table on local time, cut to the grid. */
  function PlainStage(t: Table, c: Category): (r: Table)
    requires Ready(t, c, Needs4)
    ensures Prepared(r, Needs4(c))
  {
    NumberedIncreasing(t);
    Filter(Localised(t), ShanghaiGrid())
  }

  /** `make_epw_4` after the loading loop. */
  function Loaded4Outcome(loaded: Loaded, lib: Lib, model: SolarModel, showReal: real -> string): Result<Outputs, EpwError>
    requires Lawful(lib) && PerSolarRow(model) && AllReady(loaded, Needs4)
  {
    if loaded.solar.None? then Failure(MissingTable(Solar))
    else if loaded.wind.None? then Failure(MissingTable(Wind))
    else
      var solar, wind := loaded.solar.value, loaded.wind.value;
      Stored4Outcome(loaded, WindStage(wind, lib), SolarStage(solar, wind, lib, model), showReal)
  }

  /** `make_epw_4` once wind and solar are filtered: snow and precipitation go through `process_data` too. */
  function Stored4Outcome(loaded: Loaded, wind: Table, solar: Table, showReal: real -> string): Result<Outputs, EpwError>
    requires AllReady(loaded, Needs4) && Prepared(wind, WindKeys4) && Prepared(solar, SolarKeys4)
  {
    if loaded.snow.None? then Failure(MissingTable(Snow))
    else if loaded.precipitation.None? then Failure(MissingTable(Precipitation))
    else Emit4(wind, solar, PlainStage(loaded.snow.value, Snow), PlainStage(loaded.precipitation.value, Precipitation), showReal)
  }

  /** The EPW frame of the four filtered tables, written as the hourly CSV and the EPW text. */
  function Emit4(wind: Table, solar: Table, snow: Table, precip: Table, showReal: real -> string): Result<Outputs, EpwError>
    requires Prepared(wind, WindKeys4) && Prepared(solar, SolarKeys4)
    requires Prepared(snow, {"SNODP"}) && Prepared(precip, {"PRECTOT"})
  {
    match EpwFrame(GridDates(ShanghaiGrid(), 30), Measured4(wind, solar, snow, precip))
    case Failure(e) => Failure(e)
    case Success(rows) => Success(WrittenFiles4(rows, showReal))
  }

  /**
   * `make_epw_4`: the nearest Solar cell file, then the outcome above. The
   * tables are changed in place as the script does, and only fresh frames
   * are touched.
   */
  method MakeEpw4(solarListing: seq<string>, names: seq<string>, files: map<string, Table>,
                  lib: Lib, model: SolarModel, showReal: real -> string)
    returns (target: Option<string>, outcome: Result<Outputs, EpwError>)
    requires Lawful(lib) && PerSolarRow(model)
    requires var csv := CsvFiles(solarListing);
      forall i :: 0 <= i < |csv| && FirstNearest(lib, Points(csv), |csv|, i, Latitude, Longitude) ==>
        Readable(ProcessedFolders(names), csv[i], files, Needs4)
    ensures var points := Points(CsvFiles(solarListing));
      target.None? <==> NoCandidate(points, |points|)
    ensures var csv := CsvFiles(solarListing);
      target.Some? ==> exists i :: 0 <= i < |csv| && csv[i] == target.value && FirstNearest(lib, Points(csv), |csv|, i, Latitude, Longitude)
    ensures outcome == MakeEpw4Outcome(target, ProcessedFolders(names), files, lib, model, showReal)
  {
    var folders := ProcessedFolders(names);
    target := FindClosestFile(solarListing, Latitude, Longitude, lib);
    if target.None? && |folders| > 0 {
      outcome := Failure(NoLocationFile);
      return;
    }
    var loaded := LoadTables(folders, TargetName(target), files);
    LoadedReady(folders, TargetName(target), files, Needs4);
    outcome := BuildEpw4(loaded, lib, model, showReal);
  }

  /** The body of `make_epw_4` after the loading loop. */
  method BuildEpw4(loaded: Loaded, lib: Lib, model: SolarModel, showReal: real -> string)
    returns (outcome: Result<Outputs, EpwError>)
    requires Lawful(lib) && PerSolarRow(model) && AllReady(loaded, Needs4)
    ensures outcome == Loaded4Outcome(loaded, lib, model, showReal)
  {
    if loaded.solar.None? {
      outcome := Failure(MissingTable(Solar));
      return;
    }
    if loaded.wind.None? {
      outcome := Failure(MissingTable(Wind));
      return;
    }
    var windFiltered, solarFiltered := PrepareWindSolar(loaded.wind.value, loaded.solar.value, lib, model);
    outcome := FinishEpw4(loaded, windFiltered, solarFiltered, showReal);
  }

  /** Lines 330-403 of `Merra2_to_EPW.py`: snow and precipitation, then the outputs. */
  method FinishEpw4(loaded: Loaded, windFiltered: Table, solarFiltered: Table, showReal: real -> string)
    returns (outcome: Result<Outputs, EpwError>)
    requires AllReady(loaded, Needs4) && Prepared(windFiltered, WindKeys4) && Prepared(solarFiltered, SolarKeys4)
    ensures outcome == Stored4Outcome(loaded, windFiltered, solarFiltered, showReal)
  {
    if loaded.snow.None? {
      outcome := Failure(MissingTable(Snow));
      return;
    }
    var snowFiltered := ProcessStored(loaded.snow.value, Snow);
    if loaded.precipitation.None? {
      outcome := Failure(MissingTable(Precipitation));
      return;
    }
    var precipFiltered := ProcessStored(loaded.precipitation.value, Precipitation);
    outcome := WriteOutputs4(windFiltered, solarFiltered, snowFiltered, precipFiltered, showReal);
  }

  /**
   * Lines 297-329 of `Merra2_to_EPW.py` on fresh frames: the solar columns, the
   * humidity and wind columns, then `process_data` on wind and solar.
   */
  method PrepareWindSolar(wind0: Table, solar0: Table, lib: Lib, model: SolarModel)
    returns (windFiltered: Table, solarFiltered: Table)
    requires Lawful(lib) && PerSolarRow(model) && Ready(wind0, Wind, Needs4) && Ready(solar0, Solar, Needs4)
    ensures windFiltered == WindStage(wind0, lib) && solarFiltered == SolarStage(solar0, wind0, lib, model)
  {
    var solar := new Frame(solar0);
    var wind := new Frame(wind0);
    var zenith := model.zenith(solar.Snapshot(), wind.Snapshot());
    var dni := model.dni(solar.Snapshot(), wind.Snapshot(), zenith);
    solar.AddSolarColumns(lib, zenith, dni);
    wind.AddHumidity(lib);
    wind.AddWind(lib);
    var grid := ShanghaiGrid();
    windFiltered := wind.ProcessData(grid);
    solarFiltered := solar.ProcessData(grid);
  }

  /**
   * Lines 333-403 of `Merra2_to_EPW.py`: `epw_data`, the frame, the hourly CSV, and
   * the EPW text made of the header, a newline and the header-less CSV.
   */
  method WriteOutputs4(wind: Table, solar: Table, snow: Table, precip: Table, showReal: real -> string)
    returns (outcome: Result<Outputs, EpwError>)
    requires Prepared(wind, WindKeys4) && Prepared(solar, SolarKeys4)
    requires Prepared(snow, {"SNODP"}) && Prepared(precip, {"PRECTOT"})
    ensures outcome == Emit4(wind, solar, snow, precip, showReal)
  {
    var m := Measured4(wind, solar, snow, precip);
    var frame := EpwFrame(GridDates(ShanghaiGrid(), 30), m);
    match frame
    case Failure(e) =>
      outcome := Failure(e);
    case Success(rows) =>
      outcome := Success(WrittenFiles4(rows, showReal));
  }

  /** `process_data` on a table read as it is (snow, precipitation). */
  method ProcessStored(t: Table, c: Category) returns (filtered: Table)
    requires Ready(t, c, Needs4)
    ensures filtered == PlainStage(t, c)
  {
    var frame := new Frame(t);
    filtered := frame.ProcessData(ShanghaiGrid());
  }

  // ---------------------------------------------------------------------
  // make_epw
  // ---------------------------------------------------------------------

  const TargetCell := "lat_35.5_lon_119.375.csv"

  function Needs1(c: Category): set<string> {
    match c
    case Precipitation => {"PRECTOT"}
    case Snow => {"SNODP"}
    case Solar => {"CLDTOT"}
    case Wind => {"PS", "T2M", "T2MDEW", "QV2M"}
    case Other => {}
  }

  /** What `make_epw` ends with: the hourly CSV, or the first error it runs into. */
  function MakeEpwOutcome(folders: seq<string>, files: map<string, Table>, lib: Lib, showReal: real -> string): Result<string, EpwError>
    requires Lawful(lib) && Readable(folders, TargetCell, files, Needs1)
  {
    LoadedReady(folders, TargetCell, files, Needs1);
    Loaded1Outcome(LoadedFrom(folders, TargetCell, files), lib, showReal)
  }

  /** `make_epw` after the loading loop. */
  function Loaded1Outcome(loaded: Loaded, lib: Lib, showReal: real -> string): Result<string, EpwError>
    requires Lawful(lib) && AllReady(loaded, Needs1)
  {
    if loaded.wind.None? then Failure(MissingTable(Wind))
    else if loaded.solar.None? then Failure(MissingTable(Solar))
    else if loaded.snow.None? then Failure(MissingTable(Snow))
    else if loaded.precipitation.None? then Failure(MissingTable(Precipitation))
    else
      Emit1(WithHumidity(loaded.wind.value, lib), loaded.solar.value, loaded.snow.value, loaded.precipitation.value, showReal)
  }

  /** The frame of `make_epw`'s `epw_data` over the naive grid, written as the hourly CSV. */
  function Emit1(wind: Table, solar: Table, snow: Table, precip: Table, showReal: real -> string): Result<string, EpwError>
    requires Prepared(wind, WindKeys1) && Prepared(solar, {"CLDTOT"})
    requires Prepared(snow, {"SNODP"}) && Prepared(precip, {"PRECTOT"})
  {
    match EpwFrame(GridDates(NaiveGrid(), 0), Measured1(wind, solar, snow, precip))
    case Failure(e) => Failure(e)
    case Success(rows) => Success(HourlyCsv(rows, showReal))
  }

  /** `make_epw`: the tables of the target cell, then the outcome above. */
  method MakeEpw(names: seq<string>, files: map<string, Table>, lib: Lib, showReal: real -> string)
    returns (outcome: Result<string, EpwError>)
    requires Lawful(lib) && Readable(ProcessedFolders(names), TargetCell, files, Needs1)
    ensures outcome == MakeEpwOutcome(ProcessedFolders(names), files, lib, showReal)
  {
    var folders := ProcessedFolders(names);
    var loaded := LoadTables(folders, TargetCell, files);
    LoadedReady(folders, TargetCell, files, Needs1);
    outcome := BuildEpw(loaded, lib, showReal);
  }

  /** The body of `make_epw` after the loading loop: the humidity columns are added to the wind table in place. */
  method BuildEpw(loaded: Loaded, lib: Lib, showReal: real -> string)
    returns (outcome: Result<string, EpwError>)
    requires Lawful(lib) && AllReady(loaded, Needs1)
    ensures outcome == Loaded1Outcome(loaded, lib, showReal)
  {
    if loaded.wind.None? {
      outcome := Failure(MissingTable(Wind));
      return;
    }
    var wind := new Frame(loaded.wind.value);
    wind.AddHumidity(lib);
    if loaded.solar.None? {
      outcome := Failure(MissingTable(Solar));
    } else if loaded.snow.None? {
      outcome := Failure(MissingTable(Snow));
    } else if loaded.precipitation.None? {
      outcome := Failure(MissingTable(Precipitation));
    } else {
      outcome := Emit1(wind.Snapshot(), loaded.solar.value, loaded.snow.value, loaded.precipitation.value, showReal);
    }
  }
}
