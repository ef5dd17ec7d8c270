/**
 * `find_closest_file`: among the `.csv` names of the Solar folder, the one
 * whose coordinates, read back with the file-name pattern, are nearest to
 * the target point.
 */
module Closest {
  import opened Wrappers
  import opened Text
  import opened Coords
  import opened Physics

  /** `[f for f in names if f.endswith('.csv')]`. */
  function CsvFiles(names: seq<string>): (files: seq<string>)
    ensures forall f :: f in files <==> f in names && EndsWith(f, ".csv")
    ensures |files| <= |names|
  {
    if names == [] then []
    else (if EndsWith(names[0], ".csv") then [names[0]] else []) + CsvFiles(names[1..])
  }

  /** Keeping the `.csv` names keeps the listing order: the filter distributes over concatenation. */
  lemma {:induction false} CsvFilesAppend(a: seq<string>, b: seq<string>)
    ensures CsvFiles(a + b) == CsvFiles(a) + CsvFiles(b)
  {
    if a == [] {
      assert a + b == b;
    } else {
      assert (a + b)[1..] == a[1..] + b;
      CsvFilesAppend(a[1..], b);
    }
  }

  /** One name is kept exactly when it ends in `.csv`. */
  lemma CsvFilesOne(name: string)
    ensures CsvFiles([name]) == if EndsWith(name, ".csv") then [name] else []
  {
  }

  function SquaredDistance(p: (real, real), lat: real, lon: real): real {
    (p.0 - lat) * (p.0 - lat) + (p.1 - lon) * (p.1 - lon)
  }

  /** `math.sqrt((file_lat - latitude) ** 2 + (file_lon - longitude) ** 2)`. */
  function Distance(lib: Lib, p: (real, real), lat: real, lon: real): real {
    lib.sqrt(SquaredDistance(p, lat, lon))
  }

  /** The coordinates read from each file name, `None` where the pattern does not match. */
  function Points(files: seq<string>): (points: seq<Option<(real, real)>>)
    ensures |points| == |files|
    ensures forall i :: 0 <= i < |files| ==> points[i] == ParseCellName(files[i])
  {
    seq(|files|, i requires 0 <= i < |files| => ParseCellName(files[i]))
  }

  /** A file whose name matches the pattern. */
  predicate Candidate(points: seq<Option<(real, real)>>, i: int) {
    0 <= i < |points| && points[i].Some?
  }

  /** The distance used to rank candidate `i`. */
  function Key(lib: Lib, points: seq<Option<(real, real)>>, i: int, lat: real, lon: real): real
    requires Candidate(points, i)
  {
    Distance(lib, points[i].value, lat, lon)
  }

  /**
   * Candidate `i` is nearest among the first `n` files, and every earlier
   * candidate is strictly farther (the strict `<` keeps the first of a tie).
   */
  predicate FirstNearest(lib: Lib, points: seq<Option<(real, real)>>, n: int, i: int, lat: real, lon: real) {
    && Candidate(points, i) && i < n <= |points|
    && (forall j :: 0 <= j < n && Candidate(points, j) ==> Key(lib, points, i, lat, lon) <= Key(lib, points, j, lat, lon))
    && (forall j :: 0 <= j < i && Candidate(points, j) ==> Key(lib, points, i, lat, lon) < Key(lib, points, j, lat, lon))
  }

  /** None of the first `n` files is a candidate. */
  predicate NoCandidate(points: seq<Option<(real, real)>>, n: int) {
    forall j :: 0 <= j < n ==> !Candidate(points, j)
  }

  lemma NoCandidateStep(points: seq<Option<(real, real)>>, n: int)
    requires 0 <= n
    ensures NoCandidate(points, n + 1) <==> NoCandidate(points, n) && !Candidate(points, n)
  {
  }

  /** One more file keeps the current choice unless it is a strictly nearer candidate. */
  lemma FirstNearestKeep(lib: Lib, points: seq<Option<(real, real)>>, n: int, i: int, lat: real, lon: real)
    requires FirstNearest(lib, points, n, i, lat, lon) && n < |points|
    requires Candidate(points, n) ==> Key(lib, points, i, lat, lon) <= Key(lib, points, n, lat, lon)
    ensures FirstNearest(lib, points, n + 1, i, lat, lon)
  {
  }

  /** A candidate is the new choice when it is the first one or strictly nearer than the old choice. */
  lemma FirstNearestTake(lib: Lib, points: seq<Option<(real, real)>>, n: int, i: int, lat: real, lon: real)
    requires Candidate(points, n)
    requires NoCandidate(points, n)
          || (FirstNearest(lib, points, n, i, lat, lon) && Key(lib, points, n, lat, lon) < Key(lib, points, i, lat, lon))
    ensures FirstNearest(lib, points, n + 1, n, lat, lon)
  {
  }

  /**
   * The running minimum of `find_closest_file`: `None` when no `.csv` name matches,
   * otherwise the first name at the least distance from `(lat, lon)`.
   */
  method FindClosestFile(names: seq<string>, lat: real, lon: real, lib: Lib) returns (closest: Option<string>)
    ensures var points := Points(CsvFiles(names));
      closest.None? <==> NoCandidate(points, |points|)
    ensures var files := CsvFiles(names);
      closest.Some? ==> exists i :: 0 <= i < |files| && files[i] == closest.value && FirstNearest(lib, Points(files), |files|, i, lat, lon)
  {
    var files := CsvFiles(names);
    ghost var points := Points(files);
    closest := None;
    var minDistance: Option<real> := None;
    ghost var best := 0;
    var k := 0;
    while k < |files|
      invariant 0 <= k <= |files|
      invariant closest.None? <==> minDistance.None?
      invariant closest.None? <==> NoCandidate(points, k)
      invariant closest.Some? ==> && best < k && files[best] == closest.value
                                  && FirstNearest(lib, points, k, best, lat, lon)
                                  && minDistance.value == Key(lib, points, best, lat, lon)
    {
      var file := files[k];
      var parsed := ParseCellName(file);
      assert parsed == points[k];
      if parsed.Some? {
        var distance := Distance(lib, parsed.value, lat, lon);
        if minDistance.None? || distance < minDistance.value {
          FirstNearestTake(lib, points, k, best, lat, lon);
          minDistance := Some(distance);
          closest := Some(file);
          best := k;
        } else {
          FirstNearestKeep(lib, points, k, best, lat, lon);
        }
      } else if closest.Some? {
        FirstNearestKeep(lib, points, k, best, lat, lon);
      }
      NoCandidateStep(points, k);
      assert closest.Some? ==> Candidate(points, best) && best < k + 1;
      k := k + 1;
    }
  }

  /** At most one candidate is the first nearest. */
  lemma FirstNearestUnique(lib: Lib, points: seq<Option<(real, real)>>, i1: int, i2: int, lat: real, lon: real)
    requires FirstNearest(lib, points, |points|, i1, lat, lon) && FirstNearest(lib, points, |points|, i2, lat, lon)
    ensures i1 == i2
  {
    if i1 < i2 {
      assert false;
    } else if i2 < i1 {
      assert false;
    }
  }

  function SquaredKey(points: seq<Option<(real, real)>>, i: int, lat: real, lon: real): real
    requires Candidate(points, i)
  {
    SquaredDistance(points[i].value, lat, lon)
  }

  /** `FirstNearest` ranked by squared distance, with no square root. */
  predicate FirstNearestSquared(points: seq<Option<(real, real)>>, i: int, lat: real, lon: real) {
    && Candidate(points, i)
    && (forall j :: 0 <= j < |points| && Candidate(points, j) ==> SquaredKey(points, i, lat, lon) <= SquaredKey(points, j, lat, lon))
    && (forall j :: 0 <= j < i && Candidate(points, j) ==> SquaredKey(points, i, lat, lon) < SquaredKey(points, j, lat, lon))
  }

  lemma SquaredDistanceNonNegative(p: (real, real), lat: real, lon: real)
    ensures SquaredDistance(p, lat, lon) >= 0.0
  {
    var a, b := p.0 - lat, p.1 - lon;
    assert a * a >= 0.0 && b * b >= 0.0;
  }

  /** The square root is monotone, so ranking by squared distance picks the same file. */
  lemma NearestBySquaredDistance(lib: Lib, points: seq<Option<(real, real)>>, i: int, lat: real, lon: real)
    requires Lawful(lib)
    ensures FirstNearest(lib, points, |points|, i, lat, lon) <==> FirstNearestSquared(points, i, lat, lon)
  {
    if Candidate(points, i) {
      var p := points[i].value;
      SquaredDistanceNonNegative(p, lat, lon);
      forall j | 0 <= j < |points| && Candidate(points, j)
        ensures Key(lib, points, i, lat, lon) <= Key(lib, points, j, lat, lon)
                <==> SquaredKey(points, i, lat, lon) <= SquaredKey(points, j, lat, lon)
        ensures Key(lib, points, i, lat, lon) < Key(lib, points, j, lat, lon)
                <==> SquaredKey(points, i, lat, lon) < SquaredKey(points, j, lat, lon)
      {
        var q := points[j].value;
        SquaredDistanceNonNegative(q, lat, lon);
        SqrtMonotone(lib, SquaredDistance(p, lat, lon), SquaredDistance(q, lat, lon));
        SqrtMonotone(lib, SquaredDistance(q, lat, lon), SquaredDistance(p, lat, lon));
      }
    }
  }
}
