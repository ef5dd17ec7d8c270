# MERRA-2 to EPW, modelled in Dafny

This project models the two Python scripts that turn MERRA-2 reanalysis data into an EnergyPlus weather file (EPW):

- `Merra2_to_EPW.py`: the functions `get_data_2`, `read_NC4_3` and `make_epw_4`.
- `Merra2_to_EPW_1.py`: the functions `get_data`, `read_NC4` and `make_epw`.

What the model does not cover is listed under "Left out". The model follows the stages of the scripts:

- **Download naming** (`download.dfy`). Each URL list file drops its first line, and every other line is submitted.
  - `Merra2_to_EPW.py` saves a response under the first `tavg1_2d` + 20-character match. Without a match it uses the URL's base name.
  - `Merra2_to_EPW_1.py` has no fallback. A URL without a match raises an uncaught error, which ends its sequential loop.
- **Per-location split** (`partition.dfy`, `coords.dfy`). The merged table of a data folder is split into one group per distinct (lat, lon):
  - groups come in first-appearance order;
  - each group keeps its rows in table order, and the groups together partition the table;
  - each group is written as `lat_{lat}_lon_{lon}.csv` in the category's output folder.
  - The coordinates are printed in Python's positional float form, and the file-name pattern reads them back exactly.
- **Nearest cell** (`closest.dfy`). `find_closest_file` is a running-minimum loop over the `.csv` names of the Solar folder.
  - It returns the first name at the least Euclidean distance, or `None` when no name matches.
  - Ranking by squared distance gives the same choice.
- **Tables and their new columns** (`frames.dfy`, `physics.dfy`). `make_epw_4` and `make_epw` add columns to the wind and solar tables in place, and `process_data` rewrites the time column in place. These are modelled as methods of a `Frame` class, each tied to a function on table values. The formulas and what is proved about them:
  - relative humidity, clipped from above at 110;
  - wind speed, and the wind direction turned into [0, 360);
  - the DHI balance `GHI = DHI + DNI cos(zenith)` and the 0.8985 scaling;
  - the unit conversions;
  - numpy's half-to-even rounding of the sky cover.
- **Grid filter** (`calendar.dfy`, `frames.dfy`). Times are integer minutes.
  - The Asia/Shanghai zone is the fixed +480-minute offset.
  - The two `pd.date_range` grids each hold the 8760 hours of 2023.
  - `process_data` keeps exactly the rows whose shifted time is a grid mark, in order and unchanged.
- **The EPW frame** (`epw.dfy`, `alignment.dfy`). `epw_data` has 35 columns: lists, pandas Series and `None`. `pd.DataFrame(epw_data)` aligns them by row label.
  - **`make_epw_4`.** Take filtered tables that share their labels. The frame exists exactly when they have 8760 rows, and row `k` then holds row `k` of each table.
  - **`make_epw`.** The frame exists exactly when the longest table reaches row 8784. Row `k` then holds row `25 + k` of each table, or an empty field where a table is shorter.
  - **Output.** The hourly CSV is the column names and then one line per row. The EPW text is the eight header lines, a newline, and the header-less CSV.
- **The scripts end to end** (`pipeline.dfy`). It models:
  - the folder loop that loads the four tables, where the last folder supplying a category wins;
  - the order in which a missing table or a misaligned frame ends the run;
  - the two outputs.

## Model

| member | source | states |
|---|---|---|
| Download.Search | Merra2_to_EPW.py:136 | `re.search(r'tavg1_2d.{20}', url)`. Reports the leftmost position where the prefix and 20 non-newline characters follow, and `None` exactly when there is no such position. |
| Download.SearchFrom | Merra2_to_EPW.py:136 | The search from index `i`. A reported match is the first match at or after `i`; `None` means no match from `i` on. |
| Download.DownloadName | Merra2_to_EPW.py:136-137 | The saved name. With a match it is the 28 characters of the first match, which start with `tavg1_2d`. Without a match it is the URL's base name. |
| Download.FirstMatchIsUnique | Merra2_to_EPW.py:136 | The leftmost match is unique, so the name is well defined. |
| Download.StrictDownloadName | Merra2_to_EPW_1.py:136-138 | `match.group(0)` with no fallback. It fails with an AttributeError exactly when the URL has no match, and otherwise gives the same name as the other script. |
| Download.UrlsSkipFirstLine | Merra2_to_EPW.py:152 | `splitlines()[1:]` on a list file made of a first line and then URLs gives exactly those URLs. |
| Download.ListJobs | Merra2_to_EPW.py:154-161 | One submission per URL of a list file. |
| Download.ListJobAt | Merra2_to_EPW.py:152-161 | Line `j` (from 1 on) of a list file becomes submission `j - 1` of that list, into its folder, on the limited pool exactly when the folder name contains `Snow`. |
| Download.JobsFromIndex | Merra2_to_EPW.py:150-161 | The submissions from list file `p` on are those of list `p` followed by those of the later lists. |
| Download.ListedJobSubmitted | Merra2_to_EPW.py:150-161 | Every submission of every list file is among all the submissions. |
| Download.FirstListSubmitted | Merra2_to_EPW.py:150-161 | The submissions of the first list file are among all the submissions. |
| Download.LaterListsSubmitted | Merra2_to_EPW.py:150-161 | A submission of a later list file is among all the submissions. |
| Download.EveryUrlSubmitted | Merra2_to_EPW.py:150-161 | Every line but the first of every list file is submitted into its list's folder; snow folders go to the five-worker pool. |
| Download.OnlyListedUrlsSubmitted | Merra2_to_EPW.py:150-161 | Every submission is a URL line of some list file, with that list's folder. It goes to the limited pool exactly when the folder name contains `Snow`. |
| Download.SubmitDownloads | Merra2_to_EPW.py:149-161 | The submission loop over `files_to_folders` yields exactly the specified submissions, in order. |
| Download.SubmitList | Merra2_to_EPW.py:156-161 | The inner loop yields exactly one list file's submissions. |
| Download.SavedUnderDownloadName | Merra2_to_EPW.py:139 | `os.path.join(target_dir, filename)` ends in the download name's own base name. |
| Download.GetData | Merra2_to_EPW_1.py:126-148 | The sequential download loop. It saves, and stops, exactly as `FetchAll` over all submissions: a failed request is skipped, and an unnamed URL ends the loop. |
| Download.FetchList | Merra2_to_EPW_1.py:130-148 | The inner loop over one list file. It either stops at an unnamed URL, agreeing with `FetchAll`, or hands over to the later list files. |
| Download.FirstUnnamed | Merra2_to_EPW_1.py:138 | The index of the first URL that was fetched but has no match, or the number of URLs when there is none. |
| Download.FetchAllOutcome | Merra2_to_EPW_1.py:131-148 | The loop saves the files of the successful requests before the first unnamed URL, named as `Merra2_to_EPW.py` would name them, and stops with that URL. With no such URL it saves them all and completes. |
| Coords.CellFileNameRoundTrip | Merra2_to_EPW.py:213 | A `lat_{lat}_lon_{lon}.csv` name printed from decimal coordinates is matched by the pattern and `float()` gives back both coordinates. |
| Coords.FileNameLayout | Merra2_to_EPW.py:213 | Where the parts of `lat_{a}_lon_{b}.csv` lie: the literal `lat_`, then `a`, then `_lon_`, then `b`, then the `.` of `.csv`. |
| Coords.ParseOfShownCoords | Merra2_to_EPW.py:237-246 | A name laid out as `lat_{lat}_lon_{lon}.` with both parts printed coordinates is matched, and the match gives back both values. |
| Coords.ShownGroupsEnd | Merra2_to_EPW.py:237 | On such a name each decimal group ends exactly where its printed coordinate ends. |
| Coords.ShownGroupsValue | Merra2_to_EPW.py:245-246 | `float()` of the two printed groups gives the two coordinates' values. |
| Coords.ShowLayout | Merra2_to_EPW.py:213 | Where each character of a printed coordinate lies: an optional `-`, at least one digit, a `.`, and the fraction digits. |
| Coords.ShowParts | Merra2_to_EPW.py:213 | A printed coordinate is the sign, when negative, followed by text that starts with a digit. |
| Coords.UnsignedOfPositional | Merra2_to_EPW.py:246 | `float()` of `digits.digits` is the whole part plus the fraction's value. |
| Coords.FloatOfNegated | Merra2_to_EPW.py:246 | `float()` of a `-` and an unsigned number is minus that number. |
| Coords.FloatOfUnsigned | Merra2_to_EPW.py:246 | `float()` of a number that starts with a digit is its unsigned value. |
| Coords.WholeValueOfDigits | Merra2_to_EPW.py:246 | The integer part of `float()` on a run of digits is that run's decimal value. |
| Coords.FracStringValueOfDigits | Merra2_to_EPW.py:246 | The fractional part of `float()` on printed fraction digits is the fraction's value. |
| Coords.ShowValue | Merra2_to_EPW.py:245-246 | `float(f'{c}')` is the coordinate's value. |
| Coords.SignedIntegerRejected | Merra2_to_EPW.py:237 | A sign is allowed only on the decimal alternative: `lat_-12_...` gives no match at that position. |
| Coords.DecimalEndOfShow | Merra2_to_EPW.py:237 | On a printed coordinate followed by a non-digit, the alternative `[-+]?\d*\.\d+` consumes exactly the printed text. |
| Coords.DecimalEnd | Merra2_to_EPW.py:237 | The end of a match of the decimal alternative lies after its start. |
| Coords.IntegerEnd | Merra2_to_EPW.py:237 | The end of a match of the `\d+` alternative lies after its start. |
| Coords.FirstGroupEnd | Merra2_to_EPW.py:237 | The first group ends where `_lon_` follows. |
| Coords.SecondGroupEnd | Merra2_to_EPW.py:237 | The second group ends within the name. |
| Coords.DigitRun | Merra2_to_EPW.py:237 | What a greedy `\d*` consumes: only digits, followed by a non-digit or the end. |
| Coords.DigitRunIs | Merra2_to_EPW.py:237 | A digit run is fixed by where the digits stop: `n` digits followed by a non-digit or the end give a run of length `n`. |
| Coords.DecimalEndAt | Merra2_to_EPW.py:237 | On the layout `[-]digits.digits` followed by a non-digit, the decimal alternative ends right after the last fraction digit. |
| Coords.FirstGroupOfDecimal | Merra2_to_EPW.py:237 | A decimal group followed by `_lon_` is where the first group ends. |
| Coords.SecondGroupOfDecimal | Merra2_to_EPW.py:237 | A decimal group is where the second group ends. |
| Coords.MatchOfDecimalGroups | Merra2_to_EPW.py:237-246 | With both groups located at index 0, the pattern matches there with the two groups' `float()` values. |
| Coords.SearchStopsAtFirst | Merra2_to_EPW.py:242 | `re.search` reports the match at index 0 when there is one. |
| Coords.ParseOfDecimalGroups | Merra2_to_EPW.py:243-246 | Once both decimal groups are located, the search result is the pair of their `float()` values. |
| Partition.Locations | Merra2_to_EPW.py:204 | `drop_duplicates()`. Every location occurs once, and exactly the locations of the table's rows occur. |
| Partition.LocationsInFirstAppearanceOrder | Merra2_to_EPW.py:204 | Locations are listed in the order in which each location's first row appears. |
| Partition.FirstRowOfListed | Merra2_to_EPW.py:204 | A listed location has its first row within the table. |
| Partition.OrderOfPrefix | Merra2_to_EPW.py:204 | The locations of a prefix of the table keep their first-appearance order in the whole table. |
| Partition.OrderSnoc | Merra2_to_EPW.py:204 | A location first seen at the last row comes after every location seen before it. |
| Partition.FirstRowAtOfPrefix | Merra2_to_EPW.py:204 | A location seen in a prefix has the same first row in the whole table. |
| Partition.FirstRowAt | Merra2_to_EPW.py:204 | The first row at a location. No earlier row has it. |
| Partition.RowsAt | Merra2_to_EPW.py:211 | The mask `df['lat'] == lat & df['lon'] == lon` keeps only rows at that location. |
| Partition.RowsAtOfConcat | Merra2_to_EPW.py:211 | The mask distributes over concatenation, so the group keeps the table's order. |
| Partition.RowsAtExact | Merra2_to_EPW.py:211 | A group holds every row at its location as often as the table does, and nothing else. |
| Partition.RowsAtOfNewLocation | Merra2_to_EPW.py:211 | A location that is not listed has no rows. |
| Partition.RowsAtSnoc | Merra2_to_EPW.py:211 | One more row joins the mask of its own location and no other. |
| Partition.Groups | Merra2_to_EPW.py:207-211 | One group per listed location. |
| Partition.GroupsSnocSeen | Merra2_to_EPW.py:207-211 | A row at a location already seen joins that location's group. |
| Partition.GroupsSnocNew | Merra2_to_EPW.py:207-211 | A row at a new location opens a group of its own at the end. |
| Partition.GroupsPartitionRows | Merra2_to_EPW.py:207-215 | The groups together hold exactly the table's rows, each as many times as it occurs. |
| Partition.Written | Merra2_to_EPW.py:207-215 | One file per location. |
| Partition.SplitByLocation | Merra2_to_EPW_1.py:196-205 | The loop over `unique_locs.iterrows()` writes exactly `Written`: one file per location, in order. |
| Partition.WrittenFilesNamedByLocation | Merra2_to_EPW.py:213-215 | File `k` is `{output_folder}/lat_{lat}_lon_{lon}.csv` for location `k`, holds the rows of that location, and its base name is the cell name. |
| Partition.CellFileNameHasNoSlash | Merra2_to_EPW.py:213 | A cell file name contains no `/`. |
| Partition.StripTrailingSlashes | Merra2_to_EPW.py:181 | `normpath` on trailing separators: the result is a prefix that ends without `/`, unless it is empty or the root. |
| Partition.ContainsNc4Exactly | Merra2_to_EPW.py:188-192 | The `nc4_files` test holds exactly when some folder entry ends in `.nc4`. |
| Partition.ReadFolders | Merra2_to_EPW_1.py:168-205 | The folder loop writes exactly `AllWritten`; a folder without `.nc4` files is skipped. |
| Partition.AllWrittenSnoc | Merra2_to_EPW.py:179-215 | One more folder adds its own split, or nothing when it has no `.nc4` files. |
| Partition.WrittenPathUnder | Merra2_to_EPW.py:213 | Every file of one split lies in the folder it was given. |
| Partition.WrittenBy | Merra2_to_EPW.py:179-215 | The index of the data folder whose split wrote file `k` of the loop. |
| Partition.WrittenByHasNc4 | Merra2_to_EPW.py:188-192 | The folder that wrote a file has `.nc4` files. |
| Partition.WrittenByPath | Merra2_to_EPW.py:181-215 | A file lies in the output folder of the folder that wrote it. |
| Partition.WrittenInPrefix | Merra2_to_EPW.py:179-215 | A file written before the last folder keeps its place and its writer. |
| Partition.WrittenInLast | Merra2_to_EPW.py:181-215 | A file written by the last folder lies in that folder's output folder. |
| Partition.WrittenUnderOutputFolder | Merra2_to_EPW.py:179-215 | Every written file comes from a folder with `.nc4` files, the one `WrittenBy` names. It lies in that folder's output folder, under the base output folder (a parameter here; `ReadFolders` uses the hard-coded `2_Weather_File/MERRA-2_Data_Processed/`). |
| Closest.CsvFiles | Merra2_to_EPW.py:235 | Exactly the names that end in `.csv`. |
| Closest.CsvFilesAppend | Merra2_to_EPW.py:235 | The list comprehension keeps the listing order: filtering a concatenation is the concatenation of the filtered parts. |
| Closest.CsvFilesOne | Merra2_to_EPW.py:235 | One name is kept exactly when it ends in `.csv`. |
| Closest.Points | Merra2_to_EPW.py:242-246 | The pattern's coordinates from each file name, or `None` where the pattern does not match. |
| Closest.FirstNearestKeep | Merra2_to_EPW.py:250 | One more file keeps the current choice unless it is a strictly nearer candidate. |
| Closest.FirstNearestTake | Merra2_to_EPW.py:250-252 | A candidate becomes the choice when it is the first candidate or strictly nearer than the current one. |
| Closest.NoCandidateStep | Merra2_to_EPW.py:242-246 | No candidate among the first `n + 1` files exactly when none among the first `n` and file `n` does not match. |
| Closest.FindClosestFile | Merra2_to_EPW.py:234-254 | Returns `None` exactly when no `.csv` name matches the pattern. Otherwise it returns the first `.csv` name nearest to the target, all earlier candidates being strictly farther. |
| Closest.FirstNearestUnique | Merra2_to_EPW.py:250 | At most one file is the first nearest. |
| Closest.SquaredDistanceNonNegative | Merra2_to_EPW.py:248 | The squared distance is never negative. |
| Closest.NearestBySquaredDistance | Merra2_to_EPW.py:248-250 | Ranking by squared distance picks the same file, since the square root is monotone. |
| Calendar.ToShanghai | Merra2_to_EPW.py:322-323 | Local time is UTC plus eight hours. |
| Calendar.ToCivil | Merra2_to_EPW.py:334-337 | The `.year`, `.month`, `.day` and `.hour` of a minute count: a valid date-time at exactly that minute. |
| Calendar.CivilUnique | Merra2_to_EPW.py:334-337 | Distinct valid date-times are distinct minutes. |
| Calendar.ToCivilOfWallMinutes | Merra2_to_EPW.py:334-337 | The decomposition inverts the minute count. |
| Calendar.HourlyRange | Merra2_to_EPW.py:318 | `pd.date_range(..., freq='H')`. It starts at the start, has hourly steps, stays within the end, and the next step would pass the end. |
| Calendar.GridLengths | Merra2_to_EPW.py:318 | Both analysis grids hold 8760 marks. |
| Calendar.GridMark | Merra2_to_EPW_1.py:218 | Mark `k` is hour `k % 24` of day `k / 24` of 2023, at the grid's minute: 30 for the Shanghai grid and 0 for the naive one. |
| Calendar.GridCivil | Merra2_to_EPW.py:334-337 | Every mark is a date-time of 2023 with hour `k % 24`, on the month and day of day `k / 24` of the year, so the written Hour lies in 1..24. |
| Calendar.DayOfYearUnique | Merra2_to_EPW.py:335-336 | A day of the year falls on one month and one day only. |
| Calendar.DayOfMinute | Merra2_to_EPW.py:335-336 | A date-time on day `d` of its year has the month and day on which day `d` falls. |
| Calendar.DaysBeforeYearStep | Merra2_to_EPW.py:334-336 | The days before year `y + 1` are those before `y` plus the days of `y`. |
| Calendar.LeapCountStep | Merra2_to_EPW.py:334-336 | Going from `y - 1` to `y` passes a multiple of 4, 100 or 400 exactly when that number divides `y`. |
| Calendar.DaysBeforeYearMonotone | Merra2_to_EPW.py:334-336 | Later years start later. |
| Calendar.DaysBeforeMonthStep | Merra2_to_EPW.py:334-336 | The days before month `m + 1` are those before `m` plus the days of `m`. |
| Calendar.DaysBeforeMonthMonotone | Merra2_to_EPW.py:334-336 | Later months start later in the year. |
| Calendar.DaysBeforeMonthWhole | Merra2_to_EPW.py:334-336 | The months together make the whole year. |
| Calendar.YearFrom | Merra2_to_EPW.py:334 | The year holding a day count, and the day of that year. |
| Calendar.MonthFrom | Merra2_to_EPW.py:335-336 | The month holding a day of the year. |
| Calendar.WallMinutesInYear | Merra2_to_EPW.py:334-337 | A valid date-time's minute count lies within its year. |
| Calendar.YearOfMinute | Merra2_to_EPW.py:334 | The year of a minute count is the year that contains it. |
| Calendar.ClockOfMinute | Merra2_to_EPW.py:337 | The hour and minute of a minute count are its time of day. |
| Physics.AngleInRange | Merra2_to_EPW.py:314 | `degrees(arctan2)` lies in [-180, 180]. |
| Physics.SqrtUnique | Merra2_to_EPW.py:313 | A non-negative square root is determined by its square. |
| Physics.SqrtMonotone | Merra2_to_EPW.py:248 | The square root preserves `<` in both directions. |
| Physics.KelvinToCelsius | Merra2_to_EPW.py:340-341 | `T - 273.15`: adding 273.15 gives back the Kelvin value. |
| Physics.SnowDepthCm | Merra2_to_EPW.py:364 | `SNODP * 100`: dividing by 100 gives back metres. |
| Physics.PrecipitationMm | Merra2_to_EPW.py:367 | `PRECTOT * 3600`: dividing by 3600 gives back the rate. |
| Physics.VapourPressure | Merra2_to_EPW.py:307 | `e` solves `e (0.622 + q) = q ps`. |
| Physics.SaturationPressure | Merra2_to_EPW.py:308 | `e_s` is positive. |
| Physics.RawHumidity | Merra2_to_EPW.py:309 | The raw humidity times `e_s` is `100 e`. |
| Physics.ClipUpper | Merra2_to_EPW.py:310 | `clip(upper=hi)`. The result is at most `hi` and at most the input, and is one of them. |
| Physics.RelativeHumidityClip | Merra2_to_EPW.py:307-310 | The humidity is at most 110. It equals the raw value when that is at most 110, and 110 otherwise. |
| Physics.RelativeHumidityNonNegative | Merra2_to_EPW.py:307-310 | Non-negative specific humidity and pressure give a non-negative humidity. |
| Physics.NoLowerClip | Merra2_to_EPW_1.py:264 | There is no lower clip: a negative specific humidity gives a negative humidity. |
| Physics.WindSpeed | Merra2_to_EPW.py:313 | The speed is non-negative and its square is `u² + v²`. |
| Physics.WindSpeedBounds | Merra2_to_EPW.py:313 | The speed is at least each component's magnitude and at most their sum. It is zero exactly when both components are zero. |
| Physics.FloorMod | Merra2_to_EPW.py:315 | Python's float `%` by a positive modulus. The result lies in [0, m) and differs from `x` by a whole multiple of `m`. |
| Physics.DhiBalance | Merra2_to_EPW.py:303 | DHI + DNI cos(zenith) = GHI. With no direct beam DHI = GHI, and for DNI ≥ 0 DHI lies within DNI of GHI. |
| Physics.ScaledBalance | Merra2_to_EPW.py:347-349 | Scaling GHI, DNI and DHI by 0.8985 keeps the balance, and DHI is linear in (GHI, DNI) at a fixed zenith. |
| Physics.RoundHalfEven | Merra2_to_EPW.py:356 | numpy rounding gives the nearest integer, with halves going to the even neighbour. |
| Physics.RoundHalfEvenUnique | Merra2_to_EPW.py:356 | The rounding is the only integer with those two properties. |
| Physics.SkyCoverRange | Merra2_to_EPW_1.py:289-290 | A cloud fraction in [0, 1] gives a sky cover in 0..10. |
| Frames.ReadBack | Merra2_to_EPW.py:275 | `pd.read_csv` numbers the rows 0 .. n-1. |
| Frames.DhiColumn | Merra2_to_EPW.py:303 | Every row of the DHI column closes the energy balance. |
| Frames.VapourColumn | Merra2_to_EPW.py:307 | Every row of `e` is the vapour pressure of that row. |
| Frames.SaturationColumn | Merra2_to_EPW.py:308 | Every row of `e_s` is the positive saturation pressure of that row. |
| Frames.RatioColumn | Merra2_to_EPW.py:309 | Every row of the ratio times `e_s` is `100 e`. |
| Frames.ClipColumn | Merra2_to_EPW.py:310 | Nothing is above the cap, values at or below it are kept, and values above it become the cap. |
| Frames.SpeedColumn | Merra2_to_EPW.py:313 | Every speed is non-negative, with its square equal to `u² + v²`. |
| Frames.AngleColumn | Merra2_to_EPW.py:314 | Every angle is the row's atan2 angle, in [-180, 180]. |
| Frames.TurnColumn | Merra2_to_EPW.py:315 | `(d + 360) % 360` on every row: in [0, 360), equal to `d` when `d` is non-negative and to `d + 360` otherwise. |
| Physics.Turn | Merra2_to_EPW.py:314-315 | `(d + 360) % 360` for one atan2 angle: in [0, 360), the angle itself when it is non-negative and the angle plus 360 otherwise. |
| Frames.Kept | Merra2_to_EPW.py:325 | `isin(date_range)`. It lists exactly the positions whose time is a grid mark, in increasing order. |
| Frames.Select | Merra2_to_EPW.py:325 | The rows at the kept positions, in that order. |
| Frames.SelectColumns | Merra2_to_EPW.py:325 | Every column restricted to the kept positions. |
| Frames.Filter | Merra2_to_EPW.py:325 | The filtered table has the same columns, and its labels stay increasing. |
| Frames.Localise | Merra2_to_EPW.py:322-323 | Every time moves eight hours ahead. |
| Frames.Localised | Merra2_to_EPW.py:322-323 | Only the time column of the table changes. |
| Frames.FilterKeepsGridRows | Merra2_to_EPW.py:320-326 | The filtered table holds exactly the rows whose shifted time is a grid mark, in table order, with labels and values unchanged. |
| Frames.FilterOfSameRows | Merra2_to_EPW.py:320-326 | The rows `process_data` keeps, with their labels and times, depend only on the labels and the time column. |
| Frames.WithSolar | Merra2_to_EPW.py:297-303 | Adds `solar_zenith`, `DNI` and `DHI`: the given zenith and DNI, and a DHI that closes the balance on every row. Every other column is kept. |
| Frames.WithHumidity | Merra2_to_EPW.py:307-310 | Adds `e`, `e_s` and `Relative Humidity`. The humidity is at most 110 on every row and equals the raw value wherever that is at most 110. Every other column is kept. |
| Frames.WithWind | Merra2_to_EPW.py:313-315 | Adds `wind_speed` and `wind_direction`. The speed is non-negative with square `u² + v²`. The direction is the atan2 angle moved into [0, 360). Every other column is kept. |
| Frames.Frame.Snapshot | Merra2_to_EPW.py:275 | The frame's current contents as a table value. |
| Frames.Frame.constructor | Merra2_to_EPW.py:275 | A frame holding the table that was read. |
| Frames.Frame.AddSolarColumns | Merra2_to_EPW.py:297-303 | Updates the solar frame in place to `WithSolar` of its old contents. |
| Frames.Frame.AddHumidity | Merra2_to_EPW_1.py:261-264 | Updates the wind frame in place to `WithHumidity` of its old contents. |
| Frames.Frame.AddWind | Merra2_to_EPW.py:313-315 | Updates the wind frame in place to `WithWind` of its old contents. |
| Frames.Frame.ProcessData | Merra2_to_EPW.py:320-326 | Moves the frame's time column to Shanghai time in place and returns the filter of the new contents by the grid. |
| Epw.Merge | Merra2_to_EPW.py:371 | The sorted union of two label sequences: strictly increasing, holding exactly the labels of either. |
| Epw.IncreasingUnique | Merra2_to_EPW.py:371 | Two strictly increasing label sequences with the same elements are equal. |
| Epw.At | Merra2_to_EPW.py:371 | A Series reindexed to a label: its value there, or empty exactly when the label is absent. |
| Epw.FrameIndex | Merra2_to_EPW.py:371 | The frame's row labels: strictly increasing, holding exactly the labels of the Series. |
| Epw.ToFrame | Merra2_to_EPW.py:371 | `pd.DataFrame(dict)`. It fails exactly when a list is not as long as the index. Otherwise field `j` of row `k` is column `j`'s value under row `k`'s label: a list by position, a Series by label, `None` empty. |
| Epw.SharedIndex | Merra2_to_EPW.py:371 | When every Series carries the labels `l`, the rows are exactly `l`. |
| Epw.EpwColumns | Merra2_to_EPW.py:333-369 | The 35 columns of `epw_data`, one per EPW field name. |
| Epw.SchemaComplete | Merra2_to_EPW.py:339-368 | Every field after the five date fields is either a constant sentinel or a measured column, never both. |
| Epw.EpwColumnsWellFormed | Merra2_to_EPW.py:333-369 | Every Series among the columns is well formed. |
| Epw.EpwRows | Merra2_to_EPW.py:333-371 | Row `k` has 35 fields: the year, month and day of grid mark `k`, its hour plus one, minute 30, the constant sentinels, and each measured column's value under the row's label. |
| Epw.EpwDateCells | Merra2_to_EPW.py:334-338 | The first five fields of row `k` are the year, month, day and hour plus one of mark `k`, and minute 30. |
| Epw.DateCells | Merra2_to_EPW.py:334-338 | The same for any frame whose first five columns are the date columns. |
| Epw.DateColumn | Merra2_to_EPW.py:334-338 | Date column `j` is a list with one cell per mark, the mark's `DateField`. |
| Epw.ListedCell | Merra2_to_EPW.py:371 | A cell drawn from a list column is the list's entry at the row's position. |
| Epw.EpwSentinelCells | Merra2_to_EPW.py:339-366 | The sentinel fields of each row hold their constant. |
| Epw.EpwMeasuredCells | Merra2_to_EPW.py:340-371 | A measured field of row `k` is that column's value under the row's label. |
| Epw.ColumnOfDate | Merra2_to_EPW.py:334-338 | The first five columns of `epw_data` are the date columns. |
| Epw.ColumnOfSentinel | Merra2_to_EPW.py:339-366 | A sentinel column repeats its constant once per grid mark. |
| Epw.ColumnOfMeasured | Merra2_to_EPW.py:340-367 | A measured position holds its measured column. |
| Epw.MeasuredWellFormedIntro | Merra2_to_EPW.py:340-367 | Measured columns that are Series or `None` make a well-formed set of measured columns. |
| Epw.Repeat | Merra2_to_EPW.py:338 | `[x] * n`: `n` copies of `x`. |
| Epw.RenderRow | Merra2_to_EPW.py:376 | One printed cell per field. |
| Epw.CsvLines | Merra2_to_EPW.py:395 | One comma-joined line per row. |
| Epw.EpwLayout | Merra2_to_EPW.py:380-400 | The EPW text is the eight header lines and then one line per row, each ending in a newline. |
| Epw.JoinLinesAppend | Merra2_to_EPW.py:395 | The written form of two lists of lines is the two written forms one after the other. |
| Epw.JoinWithNewline | Merra2_to_EPW.py:380-400 | Lines joined with `\n` and followed by one more `\n` are the lines each ending in a newline. |
| Epw.RowsReadBack | Merra2_to_EPW.py:395 | When every printed cell is clean, splitting the CSV body into lines and then at commas gives back each row's printed cells. |
| Text.SplitLines | Merra2_to_EPW.py:152 | `str.splitlines`: lines without any line break, and no line exactly for the empty text. |
| Text.SplitJoinLines | Merra2_to_EPW.py:152 | Splitting the written form of clean lines gives the lines back. |
| Text.SplitLinesAtFirst | Merra2_to_EPW.py:152 | The first line of `l + "\n" + rest` is `l` when `l` holds no line break. |
| Text.Split | Merra2_to_EPW.py:395 | `split(sep)` gives at least one part, and no part contains the separator. |
| Text.SplitJoin | Merra2_to_EPW.py:395 | Splitting joined cells at the separator gives the cells back. |
| Text.SplitAtFirst | Merra2_to_EPW.py:395 | The first cut of `split` falls at the first separator. |
| Text.IndexOf | Merra2_to_EPW.py:395 | The first position of a character, or the length when it is absent. |
| Text.Basename | Merra2_to_EPW.py:137 | `os.path.basename`: the suffix after the last `/`. |
| Text.BasenameOfJoin | Merra2_to_EPW.py:139 | A joined path ends in the second component's base name. |
| Text.BasenameOfConcat | Merra2_to_EPW.py:181 | Prefixing a path that ends in a separator does not change the base name. |
| Text.NatToString | Merra2_to_EPW.py:213 | Decimal printing of a natural number: digits without a leading zero, reading back as the number. |
| Text.IntToString | Merra2_to_EPW.py:376 | `str(i)`: a leading `-` exactly for a negative number, then the digits of `abs(i)`, without leading zeros, whose decimal value is `abs(i)`. |
| Pipeline.ProcessedFolders | Merra2_to_EPW.py:257 | The processed folder paths are `base_output_folder` joined with each entry. |
| Pipeline.LoadTables | Merra2_to_EPW.py:268-287 | The folder loop loads exactly the tables of `LoadedFrom`. |
| Pipeline.NoSupplierLeavesNone | Merra2_to_EPW_1.py:232-251 | A category stays `None` exactly when no folder of that category holds the target file. |
| Pipeline.LastSupplierWins | Merra2_to_EPW_1.py:232-251 | Otherwise it holds the file of the last folder of that category that holds it. |
| Pipeline.SlotStep | Merra2_to_EPW.py:268-285 | One more folder replaces a category's table exactly when it is of that category and holds the target file. |
| Pipeline.LoadedReady | Merra2_to_EPW.py:268-287 | Every loaded table is numbered from 0 and has the columns its category is read for. |
| Pipeline.Derived | Merra2_to_EPW.py:340-367 | `f(df[key])`: a Series under the table's labels with `f` applied to every value. |
| Pipeline.Measured4 | Merra2_to_EPW.py:340-367 | `make_epw_4`'s thirteen data columns, all Series. |
| Pipeline.Sliced | Merra2_to_EPW_1.py:273-300 | `f(df[key].iloc[25:8785])`: the labels and `f` of the values at the positions from 25 up to 8784 that exist. |
| Pipeline.Measured1 | Merra2_to_EPW_1.py:273-300 | `make_epw`'s data columns; the radiation and wind columns are `None`. |
| Pipeline.GridDates | Merra2_to_EPW_1.py:218 | The date of each of the 8760 marks: year 2023, hour `k % 24`, the grid's minute, and the month and day on which day `k / 24` of the year falls. |
| Pipeline.EpwFrame | Merra2_to_EPW.py:371 | The frame of `epw_data`. It exists exactly when pandas accepts the columns, and is then pandas' frame. |
| Pipeline.SolarStage | Merra2_to_EPW.py:297-329 | The solar table with its derived columns, on local time and cut to the grid, with increasing labels and the columns `epw_data` reads. |
| Pipeline.WindStage | Merra2_to_EPW.py:307-328 | The wind table with humidity and wind columns, on local time and cut to the grid, with the columns `epw_data` reads. |
| Pipeline.PlainStage | Merra2_to_EPW.py:330-331 | The snow or precipitation table on local time, cut to the grid. |
| Pipeline.MakeEpw4 | Merra2_to_EPW.py:227-403 | `make_epw_4`. The chosen file is `None` exactly when no Solar `.csv` name matches, and is otherwise the first nearest one. The outcome is `MakeEpw4Outcome`. |
| Pipeline.BuildEpw4 | Merra2_to_EPW.py:296-331 | After loading, the run fails on a missing solar table and then on a missing wind table, the order in which the script first uses them. Otherwise it continues as `Loaded4Outcome`. |
| Pipeline.PrepareWindSolar | Merra2_to_EPW.py:296-329 | The in-place column additions and `process_data` on wind and solar yield `WindStage` and `SolarStage`. |
| Pipeline.FinishEpw4 | Merra2_to_EPW.py:330-403 | A missing snow table fails first, then a missing precipitation table. Otherwise the outcome is `Stored4Outcome`. |
| Pipeline.ProcessStored | Merra2_to_EPW.py:330-331 | `process_data` on the snow or precipitation table yields `PlainStage`. |
| Pipeline.WriteOutputs4 | Merra2_to_EPW.py:371-400 | The hourly CSV and the header + `'\n'` + header-less CSV of the frame, or `Misaligned` when pandas rejects the columns. |
| Pipeline.WrittenFiles4 | Merra2_to_EPW.py:376-403 | The two files of a frame: the hourly CSV and the EPW text. |
| Pipeline.BuildEpw | Merra2_to_EPW_1.py:260-309 | After loading, `make_epw` fails on the first missing table, and otherwise goes on with the humidity columns added to the wind table in place. |
| Pipeline.MakeEpw | Merra2_to_EPW_1.py:216-309 | `make_epw`, with the humidity columns added in place. The outcome is `MakeEpwOutcome`. |
| Pipeline.NumberedIncreasing | Merra2_to_EPW.py:275 | A table numbered from 0 has increasing labels. |
| Pipeline.IncreasingSlice | Merra2_to_EPW_1.py:273 | A slice of increasing labels is increasing. |
| Alignment.SharedLabels4 | Merra2_to_EPW.py:340-371 | With shared labels, the rows of `make_epw_4`'s frame are exactly the wind table's labels. |
| Alignment.AlignedFrame | Merra2_to_EPW.py:333-371 | For any dates of 2023 and tables with shared labels, the frame exists exactly when the tables have 8760 rows. Row `k` then has year 2023, the month and day of day `k / 24`, hour `k % 24 + 1`, minute 30, the sentinels, and the converted values of row `k` of each table. |
| Alignment.AlignedFrame4 | Merra2_to_EPW.py:318-371 | The same on the Shanghai grid. |
| Alignment.Emit4Rows | Merra2_to_EPW.py:371-400 | Given shared labels, `make_epw_4`'s outcome satisfies `Emits4`: it writes its outputs exactly when the filtered tables have 8760 rows, and both outputs then print a frame whose row `k` is `Row4` of the tables. |
| Alignment.EmitsOfFrame4 | Merra2_to_EPW.py:371-400 | An outcome that writes the files of a frame of `Row4` rows, and fails when the frame fails, satisfies `Emits4`. |
| Alignment.MeasuredLabels4 | Merra2_to_EPW.py:340-369 | Every measured Series of `make_epw_4`'s frame carries the labels of one of the four tables. |
| Alignment.UnionLabels4 | Merra2_to_EPW.py:333-371 | Whatever the labels, the frame's rows are the sorted union of the four tables' labels. |
| Alignment.MisalignedFrame4 | Merra2_to_EPW.py:333-371 | Whatever the labels, pandas rejects the frame (`Misaligned`) exactly when its rows are not one per date. |
| Alignment.LabelUnion4 | Merra2_to_EPW.py:371 | The sorted union of the four tables' labels. |
| Alignment.Emit4Misaligned | Merra2_to_EPW.py:333-400 | Whatever the labels, `make_epw_4` fails with `Misaligned` exactly when the sorted union of the four tables' labels does not hold 8760 labels. |
| Alignment.NumberedLabels | Merra2_to_EPW.py:275-287 | Tables read back with the default labels and of equal length have equal labels. |
| Alignment.StagesShareLabels | Merra2_to_EPW.py:297-331 | Tables read back with one time column keep one set of labels through the solar, wind and `process_data` stages, so `make_epw_4`'s frame is built from shared labels. |
| Alignment.StoredRows4 | Merra2_to_EPW.py:328-400 | Once wind and solar are staged, with snow and precipitation found and all staged tables sharing labels, the outcome satisfies `Emits4`. |
| Alignment.RowOfAlignedFrame | Merra2_to_EPW.py:333-371 | Row `k` of `make_epw_4`'s frame is `Row4`: the date fields of mark `k` (year, the month and day of day `k / 24`, hour, minute), the sentinels, and row `k` of each table converted. |
| Alignment.MeasuredField | Merra2_to_EPW.py:340-371 | When every measured Series carries the frame's labels, field `j` of row `k` is that Series' value at row `k`. |
| Alignment.SlicedLabels | Merra2_to_EPW_1.py:273 | `iloc[25:8785]` on a table numbered from 0 keeps exactly the labels from 25 up to 8784 that exist. |
| Alignment.SlicedCell | Merra2_to_EPW_1.py:273-300 | Under label `25 + k` a sliced column holds row `25 + k` of the table, or is empty when the table is shorter. |
| Alignment.SliceIndex | Merra2_to_EPW_1.py:304 | When the longest table has `n` rows, the frame's rows are labelled 25 up to min(8785, n) - 1, in order. |
| Alignment.SlicedMeasured1 | Merra2_to_EPW_1.py:273-300 | Every measured Series of `make_epw` is labelled within 25 .. min(8785, n) - 1, and the longest table's column covers that range. |
| Alignment.SlicedWithin1 | Merra2_to_EPW_1.py:273-300 | Every measured Series of `make_epw` is labelled within 25 .. min(8785, n) - 1. |
| Alignment.SlicedCovers1 | Merra2_to_EPW_1.py:273-300 | The column of the longest table covers all of 25 .. min(8785, n) - 1. |
| Alignment.FieldCell | Merra2_to_EPW_1.py:273-304 | Field `j` of row `k` is column `j`'s cell under the row's label. |
| Alignment.PositionalFrame | Merra2_to_EPW_1.py:266-304 | `make_epw`'s frame exists exactly when the longest table reaches row 8784. Row `k` then has the date fields of mark `k` (year 2023, the month and day of day `k / 24`, hour `k % 24 + 1`, minute 30), the sentinels, empty radiation and wind fields, equal sky covers, and the converted values of row `25 + k` of each table, or empty fields where a table is shorter. |
| Alignment.RowOfPositionalFrame | Merra2_to_EPW_1.py:266-304 | Row `k` of `make_epw`'s frame is `Row1`: the date fields of mark `k`, the sentinels, empty radiation and wind fields, equal sky covers, and row `25 + k` of each table converted. |
| Alignment.PositionalWindCells | Merra2_to_EPW_1.py:273-276 | The wind table's four fields of row `k` come from its row `25 + k`. |
| Alignment.MakeEpwRows | Merra2_to_EPW_1.py:216-309 | With all four tables found, `make_epw`'s outcome satisfies `Emits1` for the wind table with its humidity added: it writes the hourly CSV exactly when the longest table reaches row 8784, and the CSV then prints a frame whose row `k` is `Row1` of the tables. |
| Alignment.MakeEpwLoaded | Merra2_to_EPW_1.py:232-251 | After the folder loop every loaded table is ready, and the outcome is that of the loaded tables. |
| Alignment.LoadedRows1 | Merra2_to_EPW_1.py:260-309 | With the four tables loaded, the outcome satisfies `Emits1` for the wind table with its humidity added. |
| Alignment.Emit1Rows | Merra2_to_EPW_1.py:266-309 | On prepared tables, the frame written as the hourly CSV satisfies `Emits1`. |

## Left out

- The interactive credential set-up (`get_authorize_1`, `get_authorize`), directory creation and every `print` diagnostic: this is I/O only.
- Network requests: whether a request succeeds is the parameter `ok`. The two thread pools are modelled only as the order and pool of the submissions; the completion order of concurrent downloads is not modelled.
- xarray reading and merging of `.nc4` files, and pandas CSV reading and writing. The merged table is a sequence of rows. A file read back is a `Table` given as input (`files`). Which folders and files exist is also an input.
- pvlib's solar position and DISC models: they are the function parameters of `SolarModel`, applied to the tables. What pvlib does with inputs of different lengths is not modelled; the model requires one value per solar row.
- The transcendental functions `sqrt`, `exp`, `arctan2` and `cos` as numbers. They are function values of `Lib`, and the model uses only the facts `Lawful` lists for them.
- IEEE floating point, including rounding, infinities, NaN produced by arithmetic, and -0.0. Arithmetic is on exact reals.
- Frames.WithHumidity: requires every row's denominators `0.622 + QV2M` and `T2M - 273.15 + 243.5` to be non-zero, where floating point would give inf or NaN.
- The time-zone database: the Asia/Shanghai offset is the fixed +8 hours it has been since 1991.
- A missing `.csv` column raises a KeyError in the scripts. The model instead requires the target file, in every processed folder that holds it, to hold the columns its category is read for (`Readable`). For `make_epw_4` that target is the first nearest Solar file.
- Partition.Locations: compares coordinates as printed digits, while `drop_duplicates` compares float values. The two agree only for coordinates printed in one form (for example `35.5` and `35.50` are one value but two texts). `xarray` prints every coordinate of a grid in one form, so this case is not modelled. The coordinate pattern's `\d` and `float()` in Python also accept non-ASCII decimal digits; the model reads ASCII digits only.
- The `pd_time` and `day_of_year` helper columns: they are inputs of pvlib only.
- `os.path.normpath` beyond the removal of trailing separators.
- Python's float printing. The grid-cell coordinates are modelled only in positional form, not exponent form. Cell values are printed by the parameter `showReal`, and the CSV line terminator is `\n`.
- Epw.RowsReadBack: holds only for cells whose printed form contains no comma or line break. That the header text has no stray line break is stated as the content of its eight lines, not proved character by character.
- The temporary header and `epw.txt` files and their deletion: the combined text is modelled directly.
- The `locals()` clean-up at the end of `get_data`: it changes nothing.
- `find_closest_file` returning `None` makes `os.path.join` raise a TypeError. The model reports this as `NoLocationFile`, when there is a folder to join it with.

## Notes on the code

- Relative humidity is clipped only from above (`clip(upper=110)`), so the written value is not confined to 0..110. `Physics.NoLowerClip` exhibits a negative value.
- `make_epw` writes Minute 30 on a grid whose marks are on the hour, and it aligns by position, not by time. Output row `k` takes source row `25 + k` whatever that row's time.
- `Merra2_to_EPW.py` aligns the four filtered tables by their row labels when it builds the frame. The frame's rows are the union of the tables' labels. Unless that union has exactly 8760 labels, pandas rejects the 8760-entry date lists (`Misaligned`); `Alignment.Emit4Misaligned` states this for any labels. Tables read back with one time column keep one set of labels through every stage (`Alignment.StagesShareLabels`), and the row contents are then those of `Alignment.Emit4Rows`.
