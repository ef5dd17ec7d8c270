/**
 * The per-row formulas of `make_epw_4` and `make_epw`, over real numbers:
 * relative humidity with its upper clip, wind speed and direction, the
 * diffuse-radiation balance with the uniform scaling, unit conversions and
 * the sky-cover rounding.
 *
 * The transcendental functions come from numpy; the model receives them as
 * a `Lib` of function values and relies only on the facts `Lawful` lists.
 */
module Physics {

  /** numpy's `sqrt`, `exp`, `degrees(arctan2(y, x))` and `cos(radians(z))`. */
  datatype Lib = Lib(
    sqrt: real -> real,
    exp: real -> real,
    atan2Degrees: (real, real) -> real,
    cosDegrees: real -> real)

  /** The only facts the model uses about the library functions. */
  ghost predicate Lawful(lib: Lib) {
    && (forall x :: x >= 0.0 ==> lib.sqrt(x) >= 0.0 && lib.sqrt(x) * lib.sqrt(x) == x)
    && (forall x :: lib.exp(x) > 0.0)
    && (forall y, x :: -180.0 <= lib.atan2Degrees(y, x) <= 180.0)
    && CosineLaw(lib)
  }

  lemma AngleInRange(lib: Lib, y: real, x: real)
    requires Lawful(lib)
    ensures -180.0 <= lib.atan2Degrees(y, x) <= 180.0
  {
  }

  /** The cosine of an angle lies in [-1, 1]. */
  ghost predicate CosineLaw(lib: Lib) {
    forall z :: -1.0 <= lib.cosDegrees(z) <= 1.0
  }

  lemma MulLe(a: real, b: real, c: real)
    requires a <= b && c >= 0.0
    ensures c * a <= c * b
  {
    assert c * b - c * a == c * (b - a);
  }

  lemma MulLt(a: real, b: real, c: real)
    requires a < b && c > 0.0
    ensures c * a < c * b
  {
    assert c * b - c * a == c * (b - a);
  }

  lemma SquareLt(a: real, b: real)
    requires 0.0 <= a < b
    ensures a * a < b * b
  {
    calc {
      a * a;
    <= a * b;
    <  b * b;
    }
  }

  /** A non-negative square root is determined by its square. */
  lemma SqrtUnique(lib: Lib, x: real, r: real)
    requires Lawful(lib) && x >= 0.0 && r >= 0.0 && r * r == x
    ensures lib.sqrt(x) == r
  {
    var s := lib.sqrt(x);
    assert s >= 0.0 && s * s == x;
    if s < r {
      SquareLt(s, r);
    } else if r < s {
      SquareLt(r, s);
    }
  }

  /** The square root is strictly increasing, so it preserves `<` both ways. */
  lemma SqrtMonotone(lib: Lib, a: real, b: real)
    requires Lawful(lib) && a >= 0.0 && b >= 0.0
    ensures lib.sqrt(a) < lib.sqrt(b) <==> a < b
  {
    var sa, sb := lib.sqrt(a), lib.sqrt(b);
    assert sa >= 0.0 && sa * sa == a && sb >= 0.0 && sb * sb == b;
    if sa < sb {
      SquareLt(sa, sb);
    } else if sb < sa {
      SquareLt(sb, sa);
    }
  }

  // ---------------------------------------------------------------------
  // Unit conversions
  // ---------------------------------------------------------------------

  function KelvinToCelsius(k: real): (c: real)
    ensures c + 273.15 == k
  {
    k - 273.15
  }

  /** Snow depth `SNODP * 100`: metres to centimetres. */
  function SnowDepthCm(m: real): (cm: real)
    ensures cm / 100.0 == m
  {
    m * 100.0
  }

  /** Liquid precipitation `PRECTOT * 3600`: kg m-2 s-1 to mm per hour. */
  function PrecipitationMm(rate: real): (mm: real)
    ensures mm / 3600.0 == rate
  {
    rate * 3600.0
  }

  // ---------------------------------------------------------------------
  // Relative humidity
  // ---------------------------------------------------------------------

  const MolarMassRatio := 0.622
  const HumidityCap := 110.0

  /** Vapour pressure `e = QV2M * PS / (0.622 + QV2M)`. */
  function VapourPressure(q: real, ps: real): (e: real)
    requires MolarMassRatio + q != 0.0
    ensures e * (MolarMassRatio + q) == q * ps
  {
    q * ps / (MolarMassRatio + q)
  }

  /** Saturation vapour pressure `e_s = 6.112 exp(17.67 Tc / (Tc + 243.5)) * 100` (Magnus). */
  function SaturationPressure(lib: Lib, t2m: real): (es: real)
    requires Lawful(lib) && KelvinToCelsius(t2m) + 243.5 != 0.0
    ensures es > 0.0
  {
    var tc := KelvinToCelsius(t2m);
    6.112 * lib.exp(17.67 * tc / (tc + 243.5)) * 100.0
  }

  /** The humidity formulas need their two denominators non-zero. */
  predicate HumidityDefined(q: real, t2m: real) {
    MolarMassRatio + q != 0.0 && KelvinToCelsius(t2m) + 243.5 != 0.0
  }

  /** `(e / e_s) * 100` before the clip. */
  function RawHumidity(lib: Lib, q: real, ps: real, t2m: real): (rh: real)
    requires Lawful(lib) && HumidityDefined(q, t2m)
    ensures rh * SaturationPressure(lib, t2m) == VapourPressure(q, ps) * 100.0
  {
    VapourPressure(q, ps) / SaturationPressure(lib, t2m) * 100.0
  }

  /** pandas `clip(upper=hi)`. */
  function ClipUpper(x: real, hi: real): (r: real)
    ensures r <= hi && r <= x
    ensures r == x || r == hi
  {
    if x > hi then hi else x
  }

  /** The `Relative Humidity` column: the raw value clipped from above at 110. */
  function RelativeHumidity(lib: Lib, q: real, ps: real, t2m: real): real
    requires Lawful(lib) && HumidityDefined(q, t2m)
  {
    ClipUpper(RawHumidity(lib, q, ps, t2m), HumidityCap)
  }

  /** The clip only lowers values above 110, and leaves every other value as computed. */
  lemma RelativeHumidityClip(lib: Lib, q: real, ps: real, t2m: real)
    requires Lawful(lib) && HumidityDefined(q, t2m)
    ensures RelativeHumidity(lib, q, ps, t2m) <= HumidityCap
    ensures RawHumidity(lib, q, ps, t2m) <= HumidityCap ==> RelativeHumidity(lib, q, ps, t2m) == RawHumidity(lib, q, ps, t2m)
    ensures RawHumidity(lib, q, ps, t2m) > HumidityCap ==> RelativeHumidity(lib, q, ps, t2m) == HumidityCap
  {
  }

  /** Non-negative humidity and pressure give a non-negative relative humidity. */
  lemma RelativeHumidityNonNegative(lib: Lib, q: real, ps: real, t2m: real)
    requires Lawful(lib) && HumidityDefined(q, t2m) && q >= 0.0 && ps >= 0.0
    ensures RelativeHumidity(lib, q, ps, t2m) >= 0.0
  {
    var e := VapourPressure(q, ps);
    var es := SaturationPressure(lib, t2m);
    assert e >= 0.0 by {
      assert e * (MolarMassRatio + q) == q * ps;
    }
    var rh := RawHumidity(lib, q, ps, t2m);
    assert rh >= 0.0 by {
      assert rh * es == e * 100.0;
    }
  }

  lemma NegativeTimesPositive(a: real, b: real)
    requires a < 0.0 && b > 0.0
    ensures a * b < 0.0
  {
    MulLt(a, 0.0, b);
    assert a * b == b * a;
  }

  lemma NonNegativeTimesPositive(a: real, b: real)
    requires a >= 0.0 && b > 0.0
    ensures a * b >= 0.0
  {
    MulLe(0.0, a, b);
    assert a * b == b * a;
  }

  /** There is no lower clip: a negative specific humidity gives a negative value. */
  lemma NoLowerClip(lib: Lib, q: real, ps: real, t2m: real)
    requires Lawful(lib) && HumidityDefined(q, t2m) && -MolarMassRatio < q < 0.0 && ps > 0.0
    ensures RelativeHumidity(lib, q, ps, t2m) < 0.0
  {
    var e := VapourPressure(q, ps);
    var es := SaturationPressure(lib, t2m);
    assert e < 0.0 by {
      assert e * (MolarMassRatio + q) == q * ps;
      NegativeTimesPositive(q, ps);
      if e >= 0.0 {
        NonNegativeTimesPositive(e, MolarMassRatio + q);
      }
    }
    var rh := RawHumidity(lib, q, ps, t2m);
    assert rh < 0.0 by {
      assert rh * es == e * 100.0;
    }
  }

  // ---------------------------------------------------------------------
  // Wind
  // ---------------------------------------------------------------------

  /** `sqrt(U2M**2 + V2M**2)`. */
  function WindSpeed(lib: Lib, u: real, v: real): (r: real)
    requires Lawful(lib)
    ensures r >= 0.0 && r * r == u * u + v * v
  {
    assert u * u >= 0.0 && v * v >= 0.0;
    lib.sqrt(u * u + v * v)
  }

  function Abs(x: real): real {
    if x < 0.0 then -x else x
  }

  /**
   * The speed is at least each component's magnitude and at most their sum,
   * and it is zero exactly when both components are.
   */
  lemma WindSpeedBounds(lib: Lib, u: real, v: real)
    requires Lawful(lib)
    ensures Abs(u) <= WindSpeed(lib, u, v) && Abs(v) <= WindSpeed(lib, u, v)
    ensures WindSpeed(lib, u, v) <= Abs(u) + Abs(v)
    ensures WindSpeed(lib, u, v) == 0.0 <==> u == 0.0 && v == 0.0
  {
    var r := WindSpeed(lib, u, v);
    var a, b := Abs(u), Abs(v);
    assert a * a == u * u && b * b == v * v;
    assert a * a >= 0.0 && b * b >= 0.0 && a * b >= 0.0;
    if r < a {
      SquareLt(r, a);
    }
    if r < b {
      SquareLt(r, b);
    }
    assert (a + b) * (a + b) == a * a + b * b + 2.0 * (a * b);
    if a + b < r {
      SquareLt(a + b, r);
    }
  }

  lemma FloorModBounds(x: real, m: real, k: real)
    requires m > 0.0 && k <= x / m < k + 1.0
    ensures 0.0 <= x - m * k < m
    ensures (x - (x - m * k)) / m == k
  {
    var q := x / m;
    MulLe(k, q, m);
    MulLt(q, k + 1.0, m);
    calc {
      m * k;
    <= m * q;
    == x;
    }
    calc {
      x;
    == m * q;
    <  m * (k + 1.0);
    == m * k + m;
    }
    assert x - (x - m * k) == m * k;
  }

  /** Python's float `x % m` for `m > 0`: the representative of `x` modulo `m` in [0, m). */
  function FloorMod(x: real, m: real): (r: real)
    requires m > 0.0
    ensures 0.0 <= r < m
    ensures var k := (x - r) / m; k == k.Floor as real
  {
    var k := (x / m).Floor;
    FloorModBounds(x, m, k as real);
    var r := x - m * (k as real);
    assert (x - r) / m == k as real && (k as real).Floor == k;
    r
  }

  const FullTurn := 360.0

  /**
   * `(d + 360) % 360` on an atan2 angle in [-180, 180]: the direction lies
   * in [0, 360), and is the angle itself when that is non-negative and the
   * angle plus a full turn when it is negative.
   */
  function Turn(x: real): (r: real)
    requires -180.0 <= x <= 180.0
    ensures 0.0 <= r < FullTurn
    ensures x >= 0.0 ==> r == x
    ensures x < 0.0 ==> r == x + FullTurn
  {
    var r := FloorMod(x + FullTurn, FullTurn);
    var k := (x + FullTurn - r) / FullTurn;
    assert k == k.Floor as real;
    assert 0.5 - 1.0 < k < 1.5 + 1.0;
    if x >= 0.0 then
      assert k == 1.0 by {
        assert 0.5 < k < 1.5 + 1.0 / 360.0;
      }
      r
    else
      assert k == 0.0 by {
        assert 0.5 - 1.0 < k < 0.5 + 1.0 / 360.0;
      }
      r
  }

  // ---------------------------------------------------------------------
  // Solar radiation
  // ---------------------------------------------------------------------

  /** `DHI = SWGDN - DNI * cos(radians(solar_zenith))`. */
  function Dhi(lib: Lib, ghi: real, dni: real, zenith: real): real {
    ghi - dni * lib.cosDegrees(zenith)
  }

  const ScalingFactor := 0.8985

  /** The uniform scaling applied to the three radiation columns. */
  function Scaled(x: real): real {
    x * ScalingFactor
  }

  lemma ScaledCosine(d: real, c: real)
    requires d >= 0.0 && -1.0 <= c <= 1.0
    ensures -d <= d * c <= d
  {
    MulLe(c, 1.0, d);
    MulLe(-1.0, c, d);
  }

  /**
   * The diffuse value closes the balance GHI = DHI + DNI cos(zenith); with
   * no direct beam it is the whole global value; and it never exceeds GHI
   * plus the direct normal magnitude.
   */
  lemma DhiBalance(lib: Lib, ghi: real, dni: real, zenith: real)
    requires CosineLaw(lib)
    ensures Dhi(lib, ghi, dni, zenith) + dni * lib.cosDegrees(zenith) == ghi
    ensures dni == 0.0 ==> Dhi(lib, ghi, dni, zenith) == ghi
    ensures dni >= 0.0 ==> ghi - dni <= Dhi(lib, ghi, dni, zenith) <= ghi + dni
  {
    var c := lib.cosDegrees(zenith);
    assert Dhi(lib, ghi, dni, zenith) == ghi - dni * c;
    if dni >= 0.0 {
      ScaledCosine(dni, c);
    }
  }

  /**
   * Scaling the three columns by the same factor keeps the balance: the
   * scaled DHI is the DHI of the scaled GHI and DNI, and DHI is linear in
   * (GHI, DNI) at a fixed zenith.
   */
  lemma ScaledBalance(lib: Lib, ghi: real, dni: real, zenith: real, a: real)
    ensures Scaled(Dhi(lib, ghi, dni, zenith)) == Dhi(lib, Scaled(ghi), Scaled(dni), zenith)
    ensures Dhi(lib, a * ghi, a * dni, zenith) == a * Dhi(lib, ghi, dni, zenith)
  {
    var c := lib.cosDegrees(zenith);
    assert (ghi - dni * c) * ScalingFactor == ghi * ScalingFactor - (dni * ScalingFactor) * c;
    assert a * ghi - (a * dni) * c == a * (ghi - dni * c);
  }

  // ---------------------------------------------------------------------
  // Sky cover
  // ---------------------------------------------------------------------

  predicate IsEven(n: int) {
    n % 2 == 0
  }

  /** numpy `round`: to the nearest integer, halves to the even neighbour. */
  function RoundHalfEven(x: real): (n: int)
    ensures n as real - 0.5 <= x <= n as real + 0.5
    ensures (x == n as real - 0.5 || x == n as real + 0.5) ==> IsEven(n)
  {
    var f := x.Floor;
    var d := x - f as real;
    if d < 0.5 then f
    else if d > 0.5 then f + 1
    else if IsEven(f) then f
    else f + 1
  }

  /** The rounding is the only integer with those two properties. */
  lemma RoundHalfEvenUnique(x: real, n: int)
    requires n as real - 0.5 <= x <= n as real + 0.5
    requires (x == n as real - 0.5 || x == n as real + 0.5) ==> IsEven(n)
    ensures RoundHalfEven(x) == n
  {
    var m := RoundHalfEven(x);
    if m < n {
      assert false;
    } else if m > n {
      assert false;
    }
  }

  /** `round(CLDTOT * 10)`, written to both Total and Opaque Sky Cover. */
  function SkyCover(cloudFraction: real): int {
    RoundHalfEven(cloudFraction * 10.0)
  }

  /** A cloud fraction in [0, 1] gives a sky cover in tenths, 0..10. */
  lemma SkyCoverRange(cloudFraction: real)
    requires 0.0 <= cloudFraction <= 1.0
    ensures 0 <= SkyCover(cloudFraction) <= 10
  {
    var n := SkyCover(cloudFraction);
    if n < 0 {
      assert false;
    } else if n > 10 {
      assert false;
    }
  }
}
