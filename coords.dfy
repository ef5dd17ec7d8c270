/**
 * Grid-cell coordinates as the scripts print them into per-location file
 * names (`f'lat_{lat}_lon_{lon}.csv'`), and the pattern
 * `lat_([-+]?\d*\.\d+|\d+)_lon_([-+]?\d*\.\d+|\d+)` with `float()` that
 * `find_closest_file` uses to read them back.
 */
module Coords {
  import opened Wrappers
  import opened Text

  type Digit = d: nat | d < 10

  /**
   * A coordinate in the positional form Python prints a float in: an
   * optional minus sign, the integer part, '.', and at least one fraction
   * digit (`35.5`, `119.375`, `-10.0`).
   */
  datatype Coord = Coord(negative: bool, whole: nat, frac: seq<Digit>)

  predicate WellFormed(c: Coord) {
    |c.frac| >= 1
  }

  /** 0.d1 d2 d3 ... as a real number. */
  function FracValue(ds: seq<Digit>): real {
    if ds == [] then 0.0 else (ds[0] as real + FracValue(ds[1..])) / 10.0
  }

  function Value(c: Coord): real {
    var magnitude := c.whole as real + FracValue(c.frac);
    if c.negative then -magnitude else magnitude
  }

  function DigitsString(ds: seq<Digit>): (s: string)
    ensures |s| == |ds| && AllDigits(s)
  {
    seq(|ds|, i requires 0 <= i < |ds| => DigitChar(ds[i]))
  }

  /** `f'{c}'`. */
  function Show(c: Coord): string {
    (if c.negative then "-" else "") + NatToString(c.whole) + "." + DigitsString(c.frac)
  }

  /** The per-location file name `lat_{lat}_lon_{lon}.csv`. */
  function CellFileName(lat: Coord, lon: Coord): string {
    "lat_" + Show(lat) + "_lon_" + Show(lon) + ".csv"
  }

  // ---------------------------------------------------------------------
  // The pattern and float()
  // ---------------------------------------------------------------------

  /** Length of the run of digits starting at `p` (what a greedy `\d*` consumes). */
  function DigitRun(s: string, p: nat): (n: nat)
    requires p <= |s|
    ensures p + n <= |s|
    ensures forall i :: p <= i < p + n ==> IsDigitChar(s[i])
    ensures p + n < |s| ==> !IsDigitChar(s[p + n])
  {
    var n := FindFirst(s[p..], c => !IsDigitChar(c));
    assert forall i :: p <= i < p + n ==> s[i] == s[p..][i - p];
    n
  }

  /** A digit run is determined by where the digits stop. */
  lemma DigitRunIs(s: string, p: nat, n: nat)
    requires p + n <= |s|
    requires forall i :: p <= i < p + n ==> IsDigitChar(s[i])
    requires p + n < |s| ==> !IsDigitChar(s[p + n])
    ensures DigitRun(s, p) == n
  {
    var m := DigitRun(s, p);
    if m < n {
      assert false;
    } else if m > n {
      assert false;
    }
  }

  predicate LiteralAt(s: string, p: nat, lit: string) {
    p + |lit| <= |s| && s[p..p + |lit|] == lit
  }

  /**
   * End of a match of the alternative `[-+]?\d*\.\d+` at `p`. Each part is
   * greedy and a digit is neither a sign nor '.', so backtracking can never
   * produce another end that the continuation accepts.
   */
  function DecimalEnd(s: string, p: nat): (e: Option<nat>)
    requires p <= |s|
    ensures e.Some? ==> p < e.value <= |s|
  {
    var q := if p < |s| && (s[p] == '-' || s[p] == '+') then p + 1 else p;
    var r := q + DigitRun(s, q);
    if r < |s| && s[r] == '.' && DigitRun(s, r + 1) >= 1 then Some(r + 1 + DigitRun(s, r + 1)) else None
  }

  /** End of a match of the alternative `\d+` at `p`. */
  function IntegerEnd(s: string, p: nat): (e: Option<nat>)
    requires p <= |s|
    ensures e.Some? ==> p < e.value <= |s|
  {
    var n := DigitRun(s, p);
    if n >= 1 then Some(p + n) else None
  }

  /**
   * The first group, which must be followed by `_lon_`: the decimal
   * alternative is tried first, then the integer one.
   */
  function FirstGroupEnd(s: string, p: nat): (e: Option<nat>)
    requires p <= |s|
    ensures e.Some? ==> p < e.value && LiteralAt(s, e.value, "_lon_")
  {
    var d := DecimalEnd(s, p);
    if d.Some? && LiteralAt(s, d.value, "_lon_") then d
    else
      var n := IntegerEnd(s, p);
      if n.Some? && LiteralAt(s, n.value, "_lon_") then n else None
  }

  /** The second group ends the pattern, so the first alternative that matches wins. */
  function SecondGroupEnd(s: string, p: nat): (e: Option<nat>)
    requires p <= |s|
    ensures e.Some? ==> p < e.value <= |s|
  {
    if DecimalEnd(s, p).Some? then DecimalEnd(s, p) else IntegerEnd(s, p)
  }

  function DigitValueOr0(c: char): nat {
    if IsDigitChar(c) then CharValue(c) else 0
  }

  function WholeValue(t: string): nat {
    if t == [] then 0 else WholeValue(t[..|t| - 1]) * 10 + DigitValueOr0(t[|t| - 1])
  }

  function FracStringValue(t: string): real {
    if t == [] then 0.0 else (DigitValueOr0(t[0]) as real + FracStringValue(t[1..])) / 10.0
  }

  function UnsignedValue(t: string): real {
    var k := IndexOf(t, '.');
    WholeValue(t[..k]) as real + (if k < |t| then FracStringValue(t[k + 1..]) else 0.0)
  }

  /** `float()` of a group the pattern matched (an optional sign, digits, '.', digits). */
  function FloatValue(t: string): real {
    if |t| > 0 && t[0] == '-' then -UnsignedValue(t[1..])
    else if |t| > 0 && t[0] == '+' then UnsignedValue(t[1..])
    else UnsignedValue(t)
  }

  /** The pattern at index `i`, with both groups converted by `float()`. */
  function MatchCellAt(s: string, i: nat): Option<(real, real)>
    requires i <= |s|
  {
    if !LiteralAt(s, i, "lat_") then None
    else
      match FirstGroupEnd(s, i + 4)
      case None => None
      case Some(e1) =>
        match SecondGroupEnd(s, e1 + 5)
        case None => None
        case Some(e2) => Some((FloatValue(s[i + 4..e1]), FloatValue(s[e1 + 5..e2])))
  }

  function ParseCellFrom(s: string, i: nat): Option<(real, real)>
    requires i <= |s|
    decreases |s| - i
  {
    if MatchCellAt(s, i).Some? then MatchCellAt(s, i)
    else if i == |s| then None
    else ParseCellFrom(s, i + 1)
  }

  /** `re.search(pattern, name)` and `float(match.group(1))`, `float(match.group(2))`. */
  function ParseCellName(s: string): Option<(real, real)> {
    ParseCellFrom(s, 0)
  }

  // ---------------------------------------------------------------------
  // The printed name parses back to the coordinates
  // ---------------------------------------------------------------------

  lemma {:induction false} WholeValueOfDigits(t: string)
    requires AllDigits(t)
    ensures WholeValue(t) == DigitsValue(t)
  {
    if t != [] {
      WholeValueOfDigits(t[..|t| - 1]);
    }
  }

  lemma {:induction false} FracStringValueOfDigits(ds: seq<Digit>)
    ensures FracStringValue(DigitsString(ds)) == FracValue(ds)
  {
    if ds != [] {
      assert DigitsString(ds)[1..] == DigitsString(ds[1..]);
      FracStringValueOfDigits(ds[1..]);
    }
  }

  /** `float()` of `digits.digits` is the whole part plus the fraction. */
  lemma UnsignedOfPositional(whole: nat, ds: seq<Digit>)
    ensures UnsignedValue(NatToString(whole) + "." + DigitsString(ds)) == whole as real + FracValue(ds)
  {
    var w := NatToString(whole);
    var f := DigitsString(ds);
    var u := w + "." + f;
    assert forall i :: 0 <= i < |w| ==> u[i] == w[i] && u[i] != '.';
    assert u[|w|] == '.';
    assert IndexOf(u, '.') == |w|;
    assert u[..|w|] == w && u[|w| + 1..] == f;
    WholeValueOfDigits(w);
    FracStringValueOfDigits(ds);
  }

  /** `float()` of a minus sign and an unsigned number. */
  lemma FloatOfNegated(u: string)
    ensures FloatValue("-" + u) == -UnsignedValue(u)
  {
    assert ("-" + u)[1..] == u;
  }

  /** `float()` of a number that starts with a digit. */
  lemma FloatOfUnsigned(u: string)
    requires |u| > 0 && IsDigitChar(u[0])
    ensures FloatValue(u) == UnsignedValue(u)
  {
  }

  /** `f'{c}'` is the sign followed by `digits.digits`. */
  lemma ShowParts(c: Coord)
    ensures var u := NatToString(c.whole) + "." + DigitsString(c.frac);
      && IsDigitChar(u[0])
      && Show(c) == if c.negative then "-" + u else u
  {
    var w := NatToString(c.whole);
    var u := w + "." + DigitsString(c.frac);
    assert u[0] == w[0];
  }

  /** `float(f'{c}')` is the coordinate's value. */
  lemma ShowValue(c: Coord)
    requires WellFormed(c)
    ensures FloatValue(Show(c)) == Value(c)
  {
    var u := NatToString(c.whole) + "." + DigitsString(c.frac);
    UnsignedOfPositional(c.whole, c.frac);
    ShowParts(c);
    if c.negative {
      FloatOfNegated(u);
    } else {
      FloatOfUnsigned(u);
    }
  }

  /** The decimal alternative on a layout `[-]digits.digits` followed by a non-digit. */
  lemma DecimalEndAt(s: string, p: nat, signed: bool, nw: nat, nf: nat)
    requires p + (if signed then 1 else 0) + nw + 1 + nf <= |s|
    requires signed ==> s[p] == '-'
    requires !signed ==> nw >= 1
    requires forall i :: p + (if signed then 1 else 0) <= i < p + (if signed then 1 else 0) + nw ==> IsDigitChar(s[i])
    requires s[p + (if signed then 1 else 0) + nw] == '.'
    requires forall i :: p + (if signed then 1 else 0) + nw + 1 <= i < p + (if signed then 1 else 0) + nw + 1 + nf ==> IsDigitChar(s[i])
    requires nf >= 1
    requires p + (if signed then 1 else 0) + nw + 1 + nf < |s| ==> !IsDigitChar(s[p + (if signed then 1 else 0) + nw + 1 + nf])
    ensures DecimalEnd(s, p) == Some(p + (if signed then 1 else 0) + nw + 1 + nf)
  {
    var q := p + (if signed then 1 else 0);
    if !signed {
      assert IsDigitChar(s[p]);
    }
    assert q == if p < |s| && (s[p] == '-' || s[p] == '+') then p + 1 else p;
    DigitRunIs(s, q, nw);
    DigitRunIs(s, q + nw + 1, nf);
  }

  /** Where each character of `Show(c)` is. */
  lemma ShowLayout(c: Coord)
    requires WellFormed(c)
    ensures var t := Show(c); var g := if c.negative then 1 else 0; var nw := |NatToString(c.whole)|;
      && |t| == g + nw + 1 + |c.frac|
      && nw >= 1
      && (c.negative ==> t[0] == '-')
      && (forall i :: g <= i < g + nw ==> IsDigitChar(t[i]))
      && t[g + nw] == '.'
      && (forall i :: g + nw + 1 <= i < |t| ==> IsDigitChar(t[i]))
  {
    var w := NatToString(c.whole);
    var f := DigitsString(c.frac);
    var sign := if c.negative then "-" else "";
    var t := Show(c);
    assert t == sign + w + "." + f;
    assert forall i :: |sign| <= i < |sign| + |w| ==> t[i] == w[i - |sign|];
    assert forall i :: |sign| + |w| + 1 <= i < |t| ==> t[i] == f[i - |sign| - |w| - 1];
  }

  /** Where `Show(c)` sits in `s` followed by a non-digit, the decimal alternative matches exactly it. */
  lemma DecimalEndOfShow(s: string, p: nat, c: Coord, e: nat)
    requires WellFormed(c)
    requires e == p + |Show(c)| <= |s| && s[p..e] == Show(c)
    requires e < |s| ==> !IsDigitChar(s[e])
    ensures DecimalEnd(s, p) == Some(e)
  {
    var t := Show(c);
    ShowLayout(c);
    assert forall i :: p <= i < p + |t| ==> s[i] == t[i - p];
    DecimalEndAt(s, p, c.negative, |NatToString(c.whole)|, |c.frac|);
  }

  /** Where the parts of `lat_{a}_lon_{b}.csv` are. */
  lemma FileNameLayout(a: string, b: string)
    ensures var s := "lat_" + a + "_lon_" + b + ".csv"; var e1 := 4 + |a|; var e2 := e1 + 5 + |b|;
      && |s| == e2 + 4
      && LiteralAt(s, 0, "lat_") && s[4..e1] == a && LiteralAt(s, e1, "_lon_") && s[e1] == '_'
      && s[e1 + 5..e2] == b && s[e2] == '.'
  {
    var s := "lat_" + a + "_lon_" + b + ".csv";
    assert s == ((("lat_" + a) + "_lon_") + b) + ".csv";
    assert s[0..4] == "lat_";
  }

  lemma FirstGroupOfDecimal(s: string, p: nat, e: nat)
    requires p <= |s| && DecimalEnd(s, p) == Some(e) && LiteralAt(s, e, "_lon_")
    ensures FirstGroupEnd(s, p) == Some(e)
  {
  }

  lemma SecondGroupOfDecimal(s: string, p: nat, e: nat)
    requires p <= |s| && DecimalEnd(s, p) == Some(e)
    ensures SecondGroupEnd(s, p) == Some(e)
  {
  }

  /** The whole pattern at index 0 once both decimal groups are located. */
  lemma MatchOfDecimalGroups(s: string, e1: nat, e2: nat)
    requires 4 <= e1 && e1 + 5 <= e2 <= |s|
    requires LiteralAt(s, 0, "lat_") && FirstGroupEnd(s, 4) == Some(e1) && SecondGroupEnd(s, e1 + 5) == Some(e2)
    ensures MatchCellAt(s, 0) == Some((FloatValue(s[4..e1]), FloatValue(s[e1 + 5..e2])))
  {
  }

  lemma SearchStopsAtFirst(s: string)
    requires MatchCellAt(s, 0).Some?
    ensures ParseCellName(s) == MatchCellAt(s, 0)
  {
  }

  /** The search result once both decimal groups are located at index 0. */
  lemma ParseOfDecimalGroups(s: string, e1: nat, p2: nat, e2: nat)
    requires 4 <= e1 && p2 == e1 + 5 && p2 <= e2 <= |s|
    requires LiteralAt(s, 0, "lat_") && LiteralAt(s, e1, "_lon_")
    requires DecimalEnd(s, 4) == Some(e1) && DecimalEnd(s, p2) == Some(e2)
    ensures ParseCellName(s) == Some((FloatValue(s[4..e1]), FloatValue(s[p2..e2])))
  {
    FirstGroupOfDecimal(s, 4, e1);
    SecondGroupOfDecimal(s, p2, e2);
    MatchOfDecimalGroups(s, e1, e2);
    SearchStopsAtFirst(s);
  }

  /** The two groups of a string holding printed coordinates convert to their values. */
  lemma ShownGroupsValue(s: string, e1: nat, e2: nat, lat: Coord, lon: Coord)
    requires WellFormed(lat) && WellFormed(lon)
    requires 4 <= e1 && e1 + 5 <= e2 <= |s| && s[4..e1] == Show(lat) && s[e1 + 5..e2] == Show(lon)
    ensures (FloatValue(s[4..e1]), FloatValue(s[e1 + 5..e2])) == (Value(lat), Value(lon))
  {
    ShowValue(lat);
    ShowValue(lon);
  }

  /** Where both groups of a string holding printed coordinates end. */
  lemma ShownGroupsEnd(s: string, lat: Coord, lon: Coord, e1: nat, p2: nat, e2: nat)
    requires WellFormed(lat) && WellFormed(lon)
    requires e1 == 4 + |Show(lat)| && p2 == e1 + 5 && e2 == p2 + |Show(lon)| && e2 < |s|
    requires s[4..e1] == Show(lat) && s[e1] == '_' && s[p2..e2] == Show(lon) && s[e2] == '.'
    ensures DecimalEnd(s, 4) == Some(e1) && DecimalEnd(s, p2) == Some(e2)
  {
    DecimalEndOfShow(s, 4, lat, e1);
    DecimalEndOfShow(s, p2, lon, e2);
  }

  /** A string laid out as `lat_{a}_lon_{b}.` with both parts printed coordinates reads back as them. */
  lemma ParseOfShownCoords(s: string, lat: Coord, lon: Coord)
    requires WellFormed(lat) && WellFormed(lon)
    requires var e1 := 4 + |Show(lat)|; var e2 := e1 + 5 + |Show(lon)|;
      && |s| == e2 + 4
      && LiteralAt(s, 0, "lat_") && s[4..e1] == Show(lat) && LiteralAt(s, e1, "_lon_") && s[e1] == '_'
      && s[e1 + 5..e2] == Show(lon) && s[e2] == '.'
    ensures ParseCellName(s) == Some((Value(lat), Value(lon)))
  {
    var e1 := 4 + |Show(lat)|;
    var p2 := e1 + 5;
    var e2 := p2 + |Show(lon)|;
    ShownGroupsEnd(s, lat, lon, e1, p2, e2);
    ParseOfDecimalGroups(s, e1, p2, e2);
    ShownGroupsValue(s, e1, e2, lat, lon);
  }

  /** A name printed by `lat_{lat}_lon_{lon}.csv` reads back as the two coordinates. */
  lemma CellFileNameRoundTrip(lat: Coord, lon: Coord)
    requires WellFormed(lat) && WellFormed(lon)
    ensures ParseCellName(CellFileName(lat, lon)) == Some((Value(lat), Value(lon)))
  {
    FileNameLayout(Show(lat), Show(lon));
    ParseOfShownCoords(CellFileName(lat, lon), lat, lon);
  }

  /**
   * The sign is allowed only on the decimal alternative: a signed integer
   * first coordinate does not match at that position.
   */
  lemma SignedIntegerRejected(s: string, i: nat, n: nat)
    requires LiteralAt(s, i, "lat_") && i + 4 < |s| && (s[i + 4] == '-' || s[i + 4] == '+')
    requires i + 5 + n < |s| && s[i + 5 + n] == '_'
    requires forall k :: i + 5 <= k < i + 5 + n ==> IsDigitChar(s[k])
    ensures MatchCellAt(s, i).None?
  {
    DigitRunIs(s, i + 5, n);
    assert DecimalEnd(s, i + 4).None?;
    assert DigitRun(s, i + 4) == 0;
  }
}
