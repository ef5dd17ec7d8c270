/**
 * `read_NC4_3` / `read_NC4`: the merged table of one data folder is split
 * into one CSV file per distinct (lat, lon) grid cell.
 */
module Partition {
  import opened Text
  import opened Coords

  datatype Location = Location(lat: Coord, lon: Coord)

  /** One row of the merged table: its grid cell, its time and its other columns. */
  datatype Sample = Sample(loc: Location, time: int, values: seq<real>)

  // ---------------------------------------------------------------------
  // Distinct locations and the rows of each
  // ---------------------------------------------------------------------

  /** `df[['lat', 'lon']].drop_duplicates()`: each location once, where it first appears. */
  function Locations(rows: seq<Sample>): (locs: seq<Location>)
    ensures forall i, j :: 0 <= i < j < |locs| ==> locs[i] != locs[j]
    ensures forall l :: l in locs <==> exists i :: 0 <= i < |rows| && rows[i].loc == l
    decreases |rows|
  {
    if rows == [] then []
    else
      var init := rows[..|rows| - 1];
      var l := rows[|rows| - 1].loc;
      var prev := Locations(init);
      assert forall i :: 0 <= i < |init| ==> init[i] == rows[i];
      if l in prev then prev else prev + [l]
  }

  /** Index of the first row at location `l`. */
  function FirstRowAt(rows: seq<Sample>, l: Location): (i: nat)
    ensures i <= |rows|
    ensures forall j :: 0 <= j < i ==> rows[j].loc != l
    ensures i < |rows| ==> rows[i].loc == l
  {
    if rows == [] then 0
    else if rows[0].loc == l then 0
    else 1 + FirstRowAt(rows[1..], l)
  }

  lemma FirstRowAtOfPrefix(rows: seq<Sample>, n: nat, l: Location)
    requires n <= |rows| && FirstRowAt(rows[..n], l) < n
    ensures FirstRowAt(rows, l) == FirstRowAt(rows[..n], l)
  {
    var i := FirstRowAt(rows[..n], l);
    var k := FirstRowAt(rows, l);
    assert rows[..n][i] == rows[i];
    if k < i {
      assert false;
    }
  }

  /** `locs` are listed in the order of their first rows in `rows`, all of which exist. */
  predicate InFirstAppearanceOrder(rows: seq<Sample>, locs: seq<Location>) {
    forall a, b :: 0 <= a < b < |locs| ==> FirstRowAt(rows, locs[a]) < FirstRowAt(rows, locs[b]) < |rows|
  }

  /** A location listed for a prefix of the table first appears inside that prefix. */
  lemma FirstRowOfListed(rows: seq<Sample>, n: nat, l: Location)
    requires n <= |rows| && l in Locations(rows[..n])
    ensures FirstRowAt(rows, l) == FirstRowAt(rows[..n], l) < n
  {
    var i :| 0 <= i < n && rows[..n][i].loc == l;
    assert FirstRowAt(rows[..n], l) <= i;
    FirstRowAtOfPrefix(rows, n, l);
  }

  /** Appending a row keeps the order of the locations already listed. */
  lemma OrderOfPrefix(rows: seq<Sample>, n: nat, prev: seq<Location>)
    requires n <= |rows| && prev == Locations(rows[..n]) && InFirstAppearanceOrder(rows[..n], prev)
    ensures InFirstAppearanceOrder(rows, prev)
    ensures forall k :: 0 <= k < |prev| ==> FirstRowAt(rows, prev[k]) < n
  {
    forall k | 0 <= k < |prev|
      ensures FirstRowAt(rows, prev[k]) == FirstRowAt(rows[..n], prev[k]) < n
    {
      assert prev[k] in prev;
      FirstRowOfListed(rows, n, prev[k]);
    }
  }

  /** A location whose first row is the last row goes after all the others. */
  lemma OrderSnoc(rows: seq<Sample>, prev: seq<Location>, l: Location)
    requires |rows| > 0 && InFirstAppearanceOrder(rows, prev)
    requires forall k :: 0 <= k < |prev| ==> FirstRowAt(rows, prev[k]) < |rows| - 1
    requires FirstRowAt(rows, l) == |rows| - 1
    ensures InFirstAppearanceOrder(rows, prev + [l])
  {
    var locs := prev + [l];
    forall a, b | 0 <= a < b < |locs|
      ensures FirstRowAt(rows, locs[a]) < FirstRowAt(rows, locs[b]) < |rows|
    {
      assert locs[a] == prev[a];
      if b < |prev| {
        assert locs[b] == prev[b];
      } else {
        assert locs[b] == l;
      }
    }
  }

  /** Locations are listed in the order of their first rows. */
  lemma {:induction false} LocationsInFirstAppearanceOrder(rows: seq<Sample>)
    ensures InFirstAppearanceOrder(rows, Locations(rows))
    decreases |rows|
  {
    if rows != [] {
      var n := |rows| - 1;
      var init := rows[..n];
      var l := rows[n].loc;
      var prev := Locations(init);
      assert forall i :: 0 <= i < |init| ==> init[i] == rows[i];
      LocationsInFirstAppearanceOrder(init);
      OrderOfPrefix(rows, n, prev);
      if l !in prev {
        assert forall j :: 0 <= j < n ==> rows[j].loc != l;
        assert FirstRowAt(rows, l) == n;
        OrderSnoc(rows, prev, l);
      }
    }
  }

  /** `df[(df['lat'] == lat) & (df['lon'] == lon)]`: the rows at `l`, in table order. */
  function RowsAt(rows: seq<Sample>, l: Location): (r: seq<Sample>)
    ensures forall k :: 0 <= k < |r| ==> r[k].loc == l
    ensures |r| <= |rows|
    decreases |rows|
  {
    if rows == [] then []
    else RowsAt(rows[..|rows| - 1], l) + (if rows[|rows| - 1].loc == l then [rows[|rows| - 1]] else [])
  }

  lemma RowsAtSnoc(init: seq<Sample>, r: Sample, l: Location)
    ensures RowsAt(init + [r], l) == RowsAt(init, l) + (if r.loc == l then [r] else [])
  {
    assert (init + [r])[..|init|] == init;
  }

  /** The filter distributes over concatenation, so it keeps the table's order. */
  lemma {:induction false} RowsAtOfConcat(a: seq<Sample>, b: seq<Sample>, l: Location)
    ensures RowsAt(a + b, l) == RowsAt(a, l) + RowsAt(b, l)
    decreases |b|
  {
    if b == [] {
      assert a + b == a;
    } else {
      var b' := b[..|b| - 1];
      assert (a + b)[..|a + b| - 1] == a + b';
      RowsAtOfConcat(a, b', l);
    }
  }

  /** A group holds every row at its location as often as the table does, and nothing else. */
  lemma {:induction false} RowsAtExact(rows: seq<Sample>, l: Location)
    ensures forall s :: multiset(RowsAt(rows, l))[s] == if s.loc == l then multiset(rows)[s] else 0
    decreases |rows|
  {
    if rows != [] {
      var init := rows[..|rows| - 1];
      RowsAtExact(init, l);
      assert rows == init + [rows[|rows| - 1]];
    }
  }

  // ---------------------------------------------------------------------
  // The groups
  // ---------------------------------------------------------------------

  function Groups(rows: seq<Sample>): (gs: seq<seq<Sample>>)
    ensures |gs| == |Locations(rows)|
  {
    var locs := Locations(rows);
    seq(|locs|, k requires 0 <= k < |locs| => RowsAt(rows, locs[k]))
  }

  function Flatten(gs: seq<seq<Sample>>): seq<Sample> {
    if gs == [] then [] else gs[0] + Flatten(gs[1..])
  }

  lemma {:induction false} FlattenAppend(gs: seq<seq<Sample>>, g: seq<Sample>)
    ensures Flatten(gs + [g]) == Flatten(gs) + g
  {
    if gs != [] {
      assert (gs + [g])[1..] == gs[1..] + [g];
      FlattenAppend(gs[1..], g);
    } else {
      assert Flatten([g]) == g + Flatten([]);
    }
  }

  lemma {:induction false} FlattenExtendOne(gs: seq<seq<Sample>>, m: nat, s: Sample)
    requires m < |gs|
    ensures multiset(Flatten(gs[m := gs[m] + [s]])) == multiset(Flatten(gs)) + multiset{s}
  {
    if m == 0 {
      assert gs[m := gs[m] + [s]][1..] == gs[1..];
    } else {
      assert gs[m := gs[m] + [s]][1..] == gs[1..][m - 1 := gs[m] + [s]];
      FlattenExtendOne(gs[1..], m - 1, s);
    }
  }

  /** No row lies at a location the table does not list. */
  lemma {:induction false} RowsAtOfNewLocation(rows: seq<Sample>, l: Location)
    requires l !in Locations(rows)
    ensures RowsAt(rows, l) == []
    decreases |rows|
  {
    if rows != [] {
      var n := |rows| - 1;
      var init := rows[..n];
      assert rows[n].loc != l;
      if l in Locations(init) {
        assert false;
      }
      RowsAtOfNewLocation(init, l);
    }
  }

  /** A row at a location already seen joins that location's group. */
  lemma GroupsSnocSeen(init: seq<Sample>, r: Sample, m: nat)
    requires m < |Locations(init)| && Locations(init)[m] == r.loc
    ensures Groups(init + [r]) == Groups(init)[m := Groups(init)[m] + [r]]
  {
    var rows := init + [r];
    var prev := Locations(init);
    assert rows[..|rows| - 1] == init;
    assert Locations(rows) == prev;
    var gs, hs := Groups(init), Groups(rows);
    forall k | 0 <= k < |prev|
      ensures hs[k] == gs[m := gs[m] + [r]][k]
    {
      RowsAtSnoc(init, r, prev[k]);
    }
  }

  /** A row at a new location opens a group of its own at the end. */
  lemma GroupsSnocNew(init: seq<Sample>, r: Sample)
    requires r.loc !in Locations(init)
    ensures Groups(init + [r]) == Groups(init) + [[r]]
  {
    var rows := init + [r];
    var prev := Locations(init);
    assert rows[..|rows| - 1] == init;
    assert Locations(rows) == prev + [r.loc];
    var gs, hs := Groups(init), Groups(rows);
    forall k | 0 <= k < |prev|
      ensures hs[k] == gs[k]
    {
      RowsAtSnoc(init, r, prev[k]);
    }
    RowsAtSnoc(init, r, r.loc);
    RowsAtOfNewLocation(init, r.loc);
  }

  /**
   * The groups partition the table: together they hold exactly its rows,
   * each as many times as it occurs, so every row lands in exactly one
   * group (the locations being distinct).
   */
  lemma {:induction false} GroupsPartitionRows(rows: seq<Sample>)
    ensures multiset(Flatten(Groups(rows))) == multiset(rows)
    decreases |rows|
  {
    if rows != [] {
      var n := |rows| - 1;
      var init := rows[..n];
      var r := rows[n];
      assert rows == init + [r];
      var prev := Locations(init);
      GroupsPartitionRows(init);
      if r.loc in prev {
        var m :| 0 <= m < |prev| && prev[m] == r.loc;
        GroupsSnocSeen(init, r, m);
        FlattenExtendOne(Groups(init), m, r);
      } else {
        GroupsSnocNew(init, r);
        FlattenAppend(Groups(init), [r]);
      }
    }
  }

  // ---------------------------------------------------------------------
  // Writing the groups
  // ---------------------------------------------------------------------

  /** `f'{output_folder}/lat_{lat}_lon_{lon}.csv'`. */
  function CellPath(folder: string, l: Location): string {
    folder + "/" + CellFileName(l.lat, l.lon)
  }

  /** What the split writes: one (path, rows) pair per location, in order. */
  function Written(folder: string, rows: seq<Sample>): (files: seq<(string, seq<Sample>)>)
    ensures |files| == |Locations(rows)|
  {
    var locs := Locations(rows);
    seq(|locs|, k requires 0 <= k < |locs| => (CellPath(folder, locs[k]), RowsAt(rows, locs[k])))
  }

  /** The loop over `unique_locs.iterrows()` with `df_loc.to_csv(filename)`. */
  method SplitByLocation(folder: string, rows: seq<Sample>) returns (files: seq<(string, seq<Sample>)>)
    ensures files == Written(folder, rows)
  {
    var locs := Locations(rows);
    files := [];
    var k := 0;
    while k < |locs|
      invariant 0 <= k <= |locs|
      invariant files == Written(folder, rows)[..k]
    {
      var loc := locs[k];
      var group := RowsAt(rows, loc);
      files := files + [(CellPath(folder, loc), group)];
      k := k + 1;
    }
  }

  /** Each written file is named after its own location and holds the rows of that location only. */
  lemma WrittenFilesNamedByLocation(folder: string, rows: seq<Sample>, k: int)
    requires 0 <= k < |Written(folder, rows)|
    ensures var (path, group) := Written(folder, rows)[k];
      && StartsWith(path, folder + "/")
      && Basename(path) == CellFileName(Locations(rows)[k].lat, Locations(rows)[k].lon)
      && forall s :: s in group ==> s.loc == Locations(rows)[k]
  {
    var l := Locations(rows)[k];
    var path := CellPath(folder, l);
    assert path == folder + "/" + CellFileName(l.lat, l.lon);
    assert path[..|folder + "/"|] == folder + "/";
    CellFileNameHasNoSlash(l.lat, l.lon);
    BasenameOfConcat(folder + "/", CellFileName(l.lat, l.lon));
    BasenameOfSlashless(CellFileName(l.lat, l.lon));
  }

  lemma CellFileNameHasNoSlash(lat: Coord, lon: Coord)
    ensures '/' !in CellFileName(lat, lon)
  {
    var a, b := Show(lat), Show(lon);
    assert forall i :: 0 <= i < |NatToString(lat.whole)| ==> IsDigitChar(NatToString(lat.whole)[i]);
    assert '/' !in a;
    assert '/' !in b;
  }

  lemma {:induction false} BasenameOfSlashless(s: string)
    requires '/' !in s
    ensures Basename(s) == s
  {
    if s != [] {
      assert '/' !in s[..|s| - 1];
      BasenameOfSlashless(s[..|s| - 1]);
    }
  }

  // ---------------------------------------------------------------------
  // The loop over data folders
  // ---------------------------------------------------------------------

  /** `base_output_folder`, which both scripts hard-code. */
  const BaseOutputFolder := "2_Weather_File/MERRA-2_Data_Processed/"

  /** A data folder: its path, its directory listing and the table its `.nc4` files merge into. */
  datatype SourceFolder = SourceFolder(path: string, entries: seq<string>, merged: seq<Sample>)

  /** `os.path.normpath` on the trailing separators: removes them, except for the root. */
  function StripTrailingSlashes(p: string): (r: string)
    ensures |r| <= |p| && r == p[..|r|]
    ensures r == [] || r == "/" || r[|r| - 1] != '/'
  {
    if |p| > 1 && p[|p| - 1] == '/' then StripTrailingSlashes(p[..|p| - 1]) else p
  }

  /**
   * `os.path.join(base_output_folder, os.path.basename(os.path.normpath(folder_path)))`,
   * with the base folder as the parameter `base`.
   */
  function OutputFolder(base: string, path: string): string {
    PathJoin(base, Basename(StripTrailingSlashes(path)))
  }

  /** Everything the folder loop writes under `base`; a folder without `.nc4` files is skipped. */
  function AllWritten(base: string, folders: seq<SourceFolder>): seq<(string, seq<Sample>)> {
    if folders == [] then []
    else
      var init := folders[..|folders| - 1];
      var f := folders[|folders| - 1];
      AllWritten(base, init) + (if HasNc4(f) then Written(OutputFolder(base, f.path), f.merged) else [])
  }

  /** `nc4_files` is not empty: some entry of the listing ends in `.nc4`. */
  predicate ContainsNc4(entries: seq<string>) {
    entries != [] && (EndsWith(entries[0], ".nc4") || ContainsNc4(entries[1..]))
  }

  /** The recursive test agrees with "some entry ends in `.nc4`". */
  lemma {:induction false} ContainsNc4Exactly(entries: seq<string>)
    ensures ContainsNc4(entries) <==> exists i :: 0 <= i < |entries| && EndsWith(entries[i], ".nc4")
  {
    if entries != [] {
      ContainsNc4Exactly(entries[1..]);
      assert forall i :: 0 < i < |entries| ==> entries[i] == entries[1..][i - 1];
      if !EndsWith(entries[0], ".nc4") && !ContainsNc4(entries[1..]) {
        forall i | 0 <= i < |entries| ensures !EndsWith(entries[i], ".nc4") {
          if i > 0 {
            assert !EndsWith(entries[1..][i - 1], ".nc4");
          }
        }
      }
    }
  }

  /** The folder loop processes `f`: its listing holds a `.nc4` file. */
  predicate HasNc4(f: SourceFolder) {
    ContainsNc4(f.entries)
  }

  /** `read_NC4_3(folders)` / `read_NC4(folders)`. */
  method ReadFolders(folders: seq<SourceFolder>) returns (files: seq<(string, seq<Sample>)>)
    ensures files == AllWritten(BaseOutputFolder, folders)
  {
    var base := BaseOutputFolder;
    files := [];
    var p := 0;
    while p < |folders|
      invariant 0 <= p <= |folders|
      invariant files == AllWritten(base, folders[..p])
    {
      var folder := folders[p];
      assert folders[..p + 1][..p] == folders[..p];
      if ContainsNc4(folder.entries) {
        var written := SplitByLocation(OutputFolder(base, folder.path), folder.merged);
        files := files + written;
      }
      p := p + 1;
    }
    assert folders[..p] == folders;
  }

  lemma AllWrittenSnoc(base: string, folders: seq<SourceFolder>)
    requires folders != []
    ensures var n := |folders| - 1; var f := folders[n];
      AllWritten(base, folders) == AllWritten(base, folders[..n]) + (if HasNc4(f) then Written(OutputFolder(base, f.path), f.merged) else [])
  {
  }

  /** Every file of one split lies in the folder it was given. */
  lemma WrittenPathUnder(folder: string, rows: seq<Sample>, j: int)
    requires 0 <= j < |Written(folder, rows)|
    ensures StartsWith(Written(folder, rows)[j].0, folder + "/")
  {
    var path := CellPath(folder, Locations(rows)[j]);
    assert path[..|folder + "/"|] == folder + "/";
  }

  /** Index of the data folder whose split wrote file `k` of the folder loop. */
  function WrittenBy(base: string, folders: seq<SourceFolder>, k: nat): (p: nat)
    requires k < |AllWritten(base, folders)|
    ensures p < |folders|
    decreases |folders|
  {
    var n := |folders| - 1;
    if k < |AllWritten(base, folders[..n])| then WrittenBy(base, folders[..n], k) else n
  }

  /** The folder that wrote a file holds `.nc4` files. */
  lemma {:induction false} WrittenByHasNc4(base: string, folders: seq<SourceFolder>, k: nat)
    requires k < |AllWritten(base, folders)|
    ensures HasNc4(folders[WrittenBy(base, folders, k)])
    decreases |folders|
  {
    var n := |folders| - 1;
    var init := folders[..n];
    AllWrittenSnoc(base, folders);
    if k < |AllWritten(base, init)| {
      WrittenByHasNc4(base, init, k);
      var p := WrittenBy(base, init, k);
      assert init[p] == folders[p];
    }
  }

  /** A file lies in the output folder of the folder that wrote it. */
  lemma {:induction false} WrittenByPath(base: string, folders: seq<SourceFolder>, k: nat)
    requires k < |AllWritten(base, folders)|
    ensures StartsWith(AllWritten(base, folders)[k].0, OutputFolder(base, folders[WrittenBy(base, folders, k)].path) + "/")
    decreases |folders|
  {
    var n := |folders| - 1;
    var init := folders[..n];
    if k < |AllWritten(base, init)| {
      WrittenInPrefix(base, folders, k);
      WrittenByPath(base, init, k);
      var p := WrittenBy(base, init, k);
      assert init[p].path == folders[p].path;
    } else {
      WrittenInLast(base, folders, k);
    }
  }

  /** A file written before the last folder keeps its place and its writer. */
  lemma WrittenInPrefix(base: string, folders: seq<SourceFolder>, k: nat)
    requires folders != [] && k < |AllWritten(base, folders[..|folders| - 1])|
    ensures k < |AllWritten(base, folders)|
    ensures AllWritten(base, folders)[k].0 == AllWritten(base, folders[..|folders| - 1])[k].0
    ensures WrittenBy(base, folders, k) == WrittenBy(base, folders[..|folders| - 1], k)
  {
    AllWrittenSnoc(base, folders);
  }

  /** A file written by the last folder lies in that folder's output folder. */
  lemma WrittenInLast(base: string, folders: seq<SourceFolder>, k: nat)
    requires folders != [] && |AllWritten(base, folders[..|folders| - 1])| <= k < |AllWritten(base, folders)|
    ensures WrittenBy(base, folders, k) == |folders| - 1
    ensures StartsWith(AllWritten(base, folders)[k].0, OutputFolder(base, folders[|folders| - 1].path) + "/")
  {
    var n := |folders| - 1;
    var f := folders[n];
    AllWrittenSnoc(base, folders);
    var before := AllWritten(base, folders[..n]);
    assert HasNc4(f);
    var out := OutputFolder(base, f.path);
    var here := Written(out, f.merged);
    assert AllWritten(base, folders) == before + here;
    var j := k - |before|;
    assert AllWritten(base, folders)[k].0 == here[j].0;
    WrittenPathUnder(out, f.merged, j);
  }


  /** Every file the folder loop writes lies in the output folder of a data folder that holds `.nc4` files. */
  lemma WrittenUnderOutputFolder(base: string, folders: seq<SourceFolder>, k: nat)
    requires k < |AllWritten(base, folders)|
    ensures var p := WrittenBy(base, folders, k);
      && p < |folders| && HasNc4(folders[p])
      && StartsWith(AllWritten(base, folders)[k].0, OutputFolder(base, folders[p].path) + "/")
  {
    WrittenByHasNc4(base, folders, k);
    WrittenByPath(base, folders, k);
  }
}
