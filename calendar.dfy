/**
 * Timestamps as integer minutes of a wall clock counted from 1970-01-01
 * 00:00, the proleptic Gregorian calendar, and the two hourly analysis
 * grids the scripts build with `pd.date_range`.
 *
 * Asia/Shanghai has kept UTC+08:00 without daylight saving since 1991, so
 * the conversion of `process_data` from UTC to local time is the fixed
 * shift `ShanghaiOffset`.
 */
module Calendar {

  const MinutesPerHour := 60
  const MinutesPerDay := 1440

  /** Asia/Shanghai's offset from UTC, in minutes. */
  const ShanghaiOffset := 480

  /** `tz_localize('UTC').tz_convert('Asia/Shanghai')` on a naive UTC reading. */
  function ToShanghai(utc: int): (local: int)
    ensures local - utc == 8 * MinutesPerHour
  {
    utc + ShanghaiOffset
  }

  // ---------------------------------------------------------------------
  // Years and months
  // ---------------------------------------------------------------------

  predicate IsLeap(y: int) {
    y % 4 == 0 && (y % 100 != 0 || y % 400 == 0)
  }

  function DaysInYear(y: int): int {
    if IsLeap(y) then 366 else 365
  }

  /** Number of leap years among 1..n. */
  function Leaps(n: int): int {
    n / 4 - n / 100 + n / 400
  }

  /** Days from 1970-01-01 to January 1 of year `y`. */
  function DaysBeforeYear(y: int): int
    requires y >= 1970
  {
    365 * (y - 1970) + Leaps(y - 1) - Leaps(1969)
  }

  lemma DaysBeforeYearStep(y: int)
    requires y >= 1970
    ensures DaysBeforeYear(y + 1) == DaysBeforeYear(y) + DaysInYear(y)
  {
    LeapCountStep(y);
  }

  /** Going from `y - 1` to `y` passes a multiple of 4, 100 or 400 exactly when that number divides `y`. */
  lemma LeapCountStep(y: int)
    ensures y / 4 - (y - 1) / 4 == if y % 4 == 0 then 1 else 0
    ensures y / 100 - (y - 1) / 100 == if y % 100 == 0 then 1 else 0
    ensures y / 400 - (y - 1) / 400 == if y % 400 == 0 then 1 else 0
    ensures y % 400 == 0 ==> y % 100 == 0
    ensures y % 100 == 0 ==> y % 4 == 0
  {
  }

  lemma {:induction false} DaysBeforeYearMonotone(y1: int, y2: int)
    requires 1970 <= y1 < y2
    ensures DaysBeforeYear(y1 + 1) <= DaysBeforeYear(y2)
    decreases y2 - y1
  {
    DaysBeforeYearStep(y1);
    if y1 + 1 < y2 {
      DaysBeforeYearMonotone(y1 + 1, y2);
      DaysBeforeYearStep(y1 + 1);
    }
  }

  function DaysInMonth(y: int, m: int): int
    requires 1 <= m <= 12
  {
    if m == 2 then (if IsLeap(y) then 29 else 28)
    else if m == 4 || m == 6 || m == 9 || m == 11 then 30
    else 31
  }

  /** Days of year `y` before the first of month `m`; `m == 13` gives the whole year. */
  function DaysBeforeMonth(y: int, m: int): int
    requires 1 <= m <= 13
  {
    [0, 31, 59, 90, 120, 151, 181, 212, 243, 273, 304, 334, 365][m - 1]
    + (if m > 2 && IsLeap(y) then 1 else 0)
  }

  lemma DaysBeforeMonthStep(y: int, m: int)
    requires 1 <= m <= 12
    ensures DaysBeforeMonth(y, m + 1) == DaysBeforeMonth(y, m) + DaysInMonth(y, m)
  {
  }

  lemma DaysBeforeMonthMonotone(y: int, m1: int, m2: int)
    requires 1 <= m1 < m2 <= 13
    ensures DaysBeforeMonth(y, m1 + 1) <= DaysBeforeMonth(y, m2)
  {
  }

  /** Day `d` of year `y`, counted from 0, falls on day `day` of month `month`. */
  predicate DayOfYearIs(y: int, d: int, month: int, day: int) {
    1 <= month <= 12 && 1 <= day <= DaysInMonth(y, month) && DaysBeforeMonth(y, month) + day - 1 == d
  }

  /** A day of the year falls on one month and one day only. */
  lemma DayOfYearUnique(y: int, d: int, m1: int, d1: int, m2: int, d2: int)
    requires DayOfYearIs(y, d, m1, d1) && DayOfYearIs(y, d, m2, d2)
    ensures m1 == m2 && d1 == d2
  {
    DaysBeforeMonthStep(y, m1);
    DaysBeforeMonthStep(y, m2);
    if m1 < m2 {
      DaysBeforeMonthMonotone(y, m1, m2);
    } else if m2 < m1 {
      DaysBeforeMonthMonotone(y, m2, m1);
    }
  }

  lemma DaysBeforeMonthWhole(y: int)
    ensures DaysBeforeMonth(y, 1) == 0 && DaysBeforeMonth(y, 13) == DaysInYear(y)
  {
  }

  // ---------------------------------------------------------------------
  // Civil date-times
  // ---------------------------------------------------------------------

  datatype Civil = Civil(year: int, month: int, day: int, hour: int, minute: int)

  predicate ValidCivil(c: Civil) {
    && c.year >= 1970
    && 1 <= c.month <= 12
    && 1 <= c.day <= DaysInMonth(c.year, c.month)
    && 0 <= c.hour < 24
    && 0 <= c.minute < 60
  }

  /** Minutes since 1970-01-01 00:00 on the same wall clock. */
  function WallMinutes(c: Civil): int
    requires ValidCivil(c)
  {
    (DaysBeforeYear(c.year) + DaysBeforeMonth(c.year, c.month) + c.day - 1) * MinutesPerDay
    + c.hour * MinutesPerHour + c.minute
  }

  /** The year containing day `d` counted from January 1 of `y`, and the day within it. */
  function YearFrom(d: nat, y: int): (r: (int, nat))
    requires y >= 1970
    ensures r.0 >= y && r.1 < DaysInYear(r.0)
    ensures DaysBeforeYear(r.0) + r.1 == DaysBeforeYear(y) + d
    decreases d
  {
    if d < DaysInYear(y) then (y, d)
    else
      DaysBeforeYearStep(y);
      YearFrom(d - DaysInYear(y), y + 1)
  }

  /** The month, from `m` on, that contains day-of-year `doy`. */
  function MonthFrom(y: int, doy: nat, m: int): (r: int)
    requires 1 <= m <= 12
    requires DaysBeforeMonth(y, m) <= doy < DaysInYear(y)
    ensures m <= r <= 12
    ensures DaysBeforeMonth(y, r) <= doy < DaysBeforeMonth(y, r + 1)
    decreases 12 - m
  {
    if m == 12 || doy < DaysBeforeMonth(y, m + 1) then m else MonthFrom(y, doy, m + 1)
  }

  /** The wall-clock fields of a minute count (`.year`, `.month`, `.day`, `.hour`, `.minute`). */
  function ToCivil(t: nat): (c: Civil)
    ensures ValidCivil(c) && WallMinutes(c) == t
  {
    var days := t / MinutesPerDay;
    var rem := t % MinutesPerDay;
    var (y, doy) := YearFrom(days, 1970);
    var m := MonthFrom(y, doy, 1);
    DaysBeforeMonthStep(y, m);
    Civil(y, m, doy - DaysBeforeMonth(y, m) + 1, rem / MinutesPerHour, rem % MinutesPerHour)
  }

  /** A valid date-time lies inside its own year. */
  lemma WallMinutesInYear(c: Civil)
    requires ValidCivil(c)
    ensures DaysBeforeYear(c.year) * MinutesPerDay <= WallMinutes(c) < DaysBeforeYear(c.year + 1) * MinutesPerDay
  {
    DaysBeforeMonthStep(c.year, c.month);
    DaysBeforeMonthMonotone(c.year, c.month, 13);
    DaysBeforeMonthWhole(c.year);
    DaysBeforeYearStep(c.year);
  }

  /** Distinct valid date-times are distinct minutes. */
  lemma CivilUnique(c1: Civil, c2: Civil)
    requires ValidCivil(c1) && ValidCivil(c2) && WallMinutes(c1) == WallMinutes(c2)
    ensures c1 == c2
  {
    WallMinutesInYear(c1);
    WallMinutesInYear(c2);
    if c1.year < c2.year {
      DaysBeforeYearMonotone(c1.year, c2.year);
    } else if c2.year < c1.year {
      DaysBeforeYearMonotone(c2.year, c1.year);
    }
    var y := c1.year;
    var d1 := DaysBeforeMonth(y, c1.month) + c1.day - 1;
    var d2 := DaysBeforeMonth(y, c2.month) + c2.day - 1;
    var r1 := c1.hour * MinutesPerHour + c1.minute;
    var r2 := c2.hour * MinutesPerHour + c2.minute;
    assert d1 * MinutesPerDay + r1 == d2 * MinutesPerDay + r2;
    assert d1 == d2 && r1 == r2;
    DaysBeforeMonthStep(y, c1.month);
    DaysBeforeMonthStep(y, c2.month);
    if c1.month < c2.month {
      DaysBeforeMonthMonotone(y, c1.month, c2.month);
    } else if c2.month < c1.month {
      DaysBeforeMonthMonotone(y, c2.month, c1.month);
    }
  }

  /** The decomposition inverts `WallMinutes`. */
  lemma ToCivilOfWallMinutes(c: Civil)
    requires ValidCivil(c)
    ensures ToCivil(WallMinutes(c)) == c
  {
    assert DaysBeforeYear(c.year) >= 0;
    CivilUnique(ToCivil(WallMinutes(c)), c);
  }

  // ---------------------------------------------------------------------
  // Hourly grids
  // ---------------------------------------------------------------------

  /** `pd.date_range(start, end, freq='H')`: every hour from `start` while not past `end`. */
  function HourlyRange(start: int, end: int): (r: seq<int>)
    ensures |r| == if end < start then 0 else (end - start) / MinutesPerHour + 1
    ensures |r| > 0 ==> r[0] == start
    ensures forall k :: 0 <= k < |r| ==> start <= r[k] <= end
    ensures forall k :: 0 < k < |r| ==> r[k] - r[k - 1] == MinutesPerHour
    ensures end >= start ==> start + MinutesPerHour * |r| > end
  {
    var n := if end < start then 0 else (end - start) / MinutesPerHour + 1;
    seq(n, k requires 0 <= k < n => start + MinutesPerHour * k)
  }

  /** `pd.date_range('2023-01-01 00:30:00', '2023-12-31 23:30:00', freq='H', tz='Asia/Shanghai')`, as local wall minutes. */
  function ShanghaiGrid(): seq<int> {
    HourlyRange(WallMinutes(Civil(2023, 1, 1, 0, 30)), WallMinutes(Civil(2023, 12, 31, 23, 30)))
  }

  /** `pd.date_range('2023-01-01', '2023-12-31 23:00:00', freq='H')`, naive. */
  function NaiveGrid(): seq<int> {
    HourlyRange(WallMinutes(Civil(2023, 1, 1, 0, 0)), WallMinutes(Civil(2023, 12, 31, 23, 0)))
  }

  const HoursIn2023 := 8760

  /** Both grids hold one mark per hour of 2023. */
  lemma GridLengths()
    ensures |ShanghaiGrid()| == HoursIn2023 && |NaiveGrid()| == HoursIn2023
  {
    assert DaysBeforeYear(2023) == 19358;
  }

  /** The `k`-th mark is hour `k % 24` of day `k / 24` of 2023, at minute `minute`. */
  lemma GridMark(grid: seq<int>, minute: int, k: int)
    requires (grid == ShanghaiGrid() && minute == 30) || (grid == NaiveGrid() && minute == 0)
    requires 0 <= k < |grid|
    ensures grid[k] == WallMinutes(Civil(2023, 1, 1, 0, 0)) + k / 24 * MinutesPerDay + k % 24 * MinutesPerHour + minute
  {
    GridLengths();
    assert DaysBeforeYear(2023) == 19358;
  }

  /** A minute inside year `y` decomposes to a date-time of year `y`. */
  lemma YearOfMinute(t: nat, y: int)
    requires y >= 1970
    requires DaysBeforeYear(y) * MinutesPerDay <= t < DaysBeforeYear(y + 1) * MinutesPerDay
    ensures ToCivil(t).year == y
  {
    var c := ToCivil(t);
    WallMinutesInYear(c);
    if c.year < y {
      DaysBeforeYearMonotone(c.year, y);
    } else if c.year > y {
      DaysBeforeYearMonotone(y, c.year);
    }
  }

  /** A date-time of the year `y` that lies on day `d` of that year falls on that day's month and day. */
  lemma DayOfMinute(c: Civil, d: int)
    requires ValidCivil(c) && 0 <= d
    requires WallMinutes(c) == (DaysBeforeYear(c.year) + d) * MinutesPerDay + c.hour * MinutesPerHour + c.minute
    ensures DayOfYearIs(c.year, d, c.month, c.day)
  {
    assert (DaysBeforeMonth(c.year, c.month) + c.day - 1) * MinutesPerDay == d * MinutesPerDay;
  }

  /** The hour and minute of a minute count are its position within the day. */
  lemma ClockOfMinute(t: nat, d: int, h: int, minute: int)
    requires 0 <= h < 24 && 0 <= minute < 60 && t == d * MinutesPerDay + h * MinutesPerHour + minute
    ensures ToCivil(t).hour == h && ToCivil(t).minute == minute
  {
    assert t % MinutesPerDay == h * MinutesPerHour + minute;
  }

  /**
   * Every mark of either grid is a date-time of 2023 with the grid's minute
   * and hour `k % 24`, on day `k / 24` of the year, so the `Hour` field
   * written as `hour + 1` always lies in 1..24.
   */
  lemma GridCivil(grid: seq<int>, minute: int, k: int)
    requires (grid == ShanghaiGrid() && minute == 30) || (grid == NaiveGrid() && minute == 0)
    requires 0 <= k < |grid|
    ensures grid[k] >= 0
    ensures var c := ToCivil(grid[k]);
      && c.year == 2023 && c.minute == minute && c.hour == k % 24 && 1 <= c.hour + 1 <= 24
      && DayOfYearIs(2023, k / 24, c.month, c.day)
  {
    GridMark(grid, minute, k);
    GridLengths();
    assert DaysBeforeYear(2023) == 19358 && DaysBeforeYear(2024) == 19723;
    var t := grid[k];
    assert t == (19358 + k / 24) * MinutesPerDay + k % 24 * MinutesPerHour + minute;
    ClockOfMinute(t, 19358 + k / 24, k % 24, minute);
    YearOfMinute(t, 2023);
    DayOfMinute(ToCivil(t), k / 24);
  }
}
