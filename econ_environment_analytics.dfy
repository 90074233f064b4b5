/** The analytical outputs over the curated country-year table: locating
    the latest snapshot of each year, loading and de-duplicating it, the
    "top 5 countries" strings, the one-row-per-year correlation summary and
    the rows a scatter plot is drawn from. Plotting, Pearson correlation and
    number formatting are parameters. */
module EconEnvironmentAnalytics {
  import opened Common
  import opened CuratedEconEnvironment

  const SnapshotPrefix := "snapshot_date="
  const CuratedBasePrefix := "curated/env_econ_country_year"
  const AnalyticsBasePrefix := "analytics"
  const ScatterPngName := "gdp_vs_co2_scatter.png"
  const CorrelationCsvName := "correlation_summary.csv"

  // ---------------------------------------------------------------------
  // _extract_snapshot_date_from_path

  /** The segments of a path or key, with `\` read as `/`. */
  function PathParts(path: string): seq<string>
  {
    Split(ReplaceChar(path, '\\', '/'), '/')
  }

  /** `p.split("=", 1)[1]` on a segment that starts with `snapshot_date=`:
      the text after the prefix. */
  function SnapshotValue(part: string): (v: string)
    requires StartsWith(part, SnapshotPrefix)
    ensures v == part[|SnapshotPrefix|..]
  {
    assert part[..13] == SnapshotPrefix[..13];
    IndexOfIs(part, '=', 13);
    part[IndexOf(part, '=').value + 1..]
  }

  /** The first segment that starts with `snapshot_date=`. */
  function FirstSnapshotIndex(parts: seq<string>): (r: Option<nat>)
    ensures r.None? <==> forall i :: 0 <= i < |parts| ==> !StartsWith(parts[i], SnapshotPrefix)
    ensures r.Some? ==> r.value < |parts| && StartsWith(parts[r.value], SnapshotPrefix)
    ensures r.Some? ==> forall j :: 0 <= j < r.value ==> !StartsWith(parts[j], SnapshotPrefix)
  {
    FirstIndex(parts, IsSnapshotPart)
  }

  predicate IsSnapshotPart(part: string)
  {
    StartsWith(part, SnapshotPrefix)
  }

  /** The snapshot date a path carries, if any. */
  function SnapshotDate(path: string): Option<string>
  {
    var parts := PathParts(path);
    match FirstSnapshotIndex(parts)
    case None => None
    case Some(k) => Some(SnapshotValue(parts[k]))
  }

  /** The search loop over the path's segments. */
  method ExtractSnapshotDateFromPath(path: string) returns (r: Option<string>)
    ensures r == SnapshotDate(path)
  {
    var parts := PathParts(path);
    var i := 0;
    while i < |parts|
      invariant 0 <= i <= |parts|
      invariant forall j :: 0 <= j < i ==> !StartsWith(parts[j], SnapshotPrefix)
    {
      if StartsWith(parts[i], SnapshotPrefix) {
        var first := FirstSnapshotIndex(parts);
        assert first.Some? && !(first.value < i) && !(i < first.value);
        return Some(SnapshotValue(parts[i]));
      }
      i := i + 1;
    }
    return None;
  }

  /** `str(n)` is made of digits and at most a minus sign. */
  lemma IntToStringChars(n: int)
    ensures forall i :: 0 <= i < |IntToString(n)| ==> IsDigit(IntToString(n)[i]) || IntToString(n)[i] == '-'
  {
    if n < 0 {
      var s := NatToString(-n);
      assert forall i :: 0 <= i < |s| ==> IsDigit(s[i]);
      assert forall i :: 1 <= i < |"-" + s| ==> ("-" + s)[i] == s[i - 1];
    }
  }

  /** A text without `\` is left alone by the replacement. */
  lemma ReplaceBackslashIdentity(s: string)
    requires '\\' !in s
    ensures ReplaceChar(s, '\\', '/') == s
  {
    var r := ReplaceChar(s, '\\', '/');
    assert forall i :: 0 <= i < |s| ==> r[i] == s[i];
  }

  /** The year segment has neither separator. */
  lemma YearPartChars(y: int)
    ensures '/' !in "year=" + IntToString(y) && '\\' !in "year=" + IntToString(y)
  {
    var ys := IntToString(y);
    IntToStringChars(y);
    var yearPart := "year=" + ys;
    assert forall i :: 5 <= i < |yearPart| ==> yearPart[i] == ys[i - 5];
  }

  /** The curated file name has neither separator. */
  lemma FileNameChars()
    ensures NoSeparator(CuratedFileName)
  {
    Piece1();
    Piece2();
    Piece3();
    Piece4();
    FileNamePieces();
  }

  lemma FileNamePieces()
    ensures CuratedFileName == "curated_econ_" + "environment_" + "country_year" + ".parquet"
  {
    FileNameHalves();
    FileNameFirstHalf();
    FileNameSecondHalf();
  }

  lemma FileNameHalves() ensures CuratedFileName == "curated_econ_environment_" + "country_year.parquet" {}
  lemma FileNameFirstHalf() ensures "curated_econ_environment_" == "curated_econ_" + "environment_" {}
  lemma FileNameSecondHalf() ensures "country_year.parquet" == "country_year" + ".parquet" {}

  /** The snapshot prefix has neither separator. */
  lemma PrefixChars()
    ensures NoSeparator(SnapshotPrefix)
  {
    Piece5();
    Piece6();
    assert SnapshotPrefix == "snapshot" + "_date=";
  }

  /** Neither `/` nor `\`. */
  predicate NoSeparator(s: string)
  {
    '/' !in s && '\\' !in s
  }

  // The literal pieces the fixed names are made of, one fact each.
  lemma Piece1() ensures NoSeparator("curated_econ_") {}
  lemma Piece2() ensures NoSeparator("environment_") {}
  lemma Piece3() ensures NoSeparator("country_year") {}
  lemma Piece4() ensures NoSeparator(".parquet") {}
  lemma Piece5() ensures NoSeparator("snapshot") {}
  lemma Piece6() ensures NoSeparator("_date=") {}
  lemma Piece7() ensures NoSeparator("curated") {}
  lemma Piece8() ensures NoSeparator("env_econ_") {}
  lemma Piece9() ensures NoSeparator("analytics") {}

  /** A partition path as the output directory and three segments. */
  lemma PartitionPathShape(outputDir: string, d: string, y: int)
    ensures CuratedPartitionPath(outputDir, d, y) ==
      outputDir + ['/'] + (("year=" + IntToString(y)) + ['/'] + ((SnapshotPrefix + d) + ['/'] + CuratedFileName))
  {
    assert "/year=" == ['/'] + "year=";
    assert "/snapshot_date=" == ['/'] + SnapshotPrefix;
    Reassociate(outputDir, "year=", IntToString(y), SnapshotPrefix, d, CuratedFileName, '/');
  }

  /** Regrouping `o/p1 ys/p2 d/f` around its separators. */
  lemma Reassociate(o: string, p1: string, ys: string, p2: string, d: string, f: string, sep: char)
    ensures o + ([sep] + p1) + ys + ([sep] + p2) + d + [sep] + f ==
      o + [sep] + ((p1 + ys) + [sep] + ((p2 + d) + [sep] + f))
  {
  }

  /** The segments of a curated partition path: those of the output
      directory, then `year=<y>`, `snapshot_date=<d>` and the file name. */
  lemma PartitionPathParts(outputDir: string, d: string, y: int)
    requires '\\' !in outputDir && '\\' !in d && '/' !in d
    ensures PathParts(CuratedPartitionPath(outputDir, d, y)) ==
      Split(outputDir, '/') + ["year=" + IntToString(y), SnapshotPrefix + d, CuratedFileName]
  {
    var yearPart := "year=" + IntToString(y);
    var snapPart := SnapshotPrefix + d;
    var path := outputDir + ['/'] + (yearPart + ['/'] + (snapPart + ['/'] + CuratedFileName));
    PartitionPathShape(outputDir, d, y);
    YearPartChars(y);
    PrefixChars();
    FileNameChars();
    NoCharInPath(outputDir, yearPart, snapPart, CuratedFileName, '\\', '/');
    ReplaceBackslashIdentity(path);
    SplitThree(outputDir, yearPart, snapPart, CuratedFileName, '/');
  }

  /** A character absent from every piece and from the separator is absent
      from the path. */
  lemma NoCharInPath(dir: string, a: string, b: string, c: string, x: char, sep: char)
    requires x != sep && x !in dir && x !in a && x !in b && x !in c
    ensures x !in dir + [sep] + (a + [sep] + (b + [sep] + c))
  {
  }

  /** Round trip with the curated writer: the date a partition path was
      written under is the date read back from it, provided the output
      directory has no segment of its own that looks like a snapshot. */
  lemma SnapshotOfPartitionPath(outputDir: string, d: string, y: int)
    requires '\\' !in outputDir && '\\' !in d && '/' !in d
    requires forall i :: 0 <= i < |Split(outputDir, '/')| ==> !StartsWith(Split(outputDir, '/')[i], SnapshotPrefix)
    ensures SnapshotDate(CuratedPartitionPath(outputDir, d, y)) == Some(d)
  {
    PartitionPathParts(outputDir, d, y);
    var dirParts := Split(outputDir, '/');
    var yearPart := "year=" + IntToString(y);
    var parts := dirParts + [yearPart, SnapshotPrefix + d, CuratedFileName];
    var k := |dirParts| + 1;
    YearPartNotSnapshot(yearPart);
    NoSnapshotBefore(dirParts, yearPart, SnapshotPrefix + d, CuratedFileName);
    assert parts[k] == SnapshotPrefix + d;
    assert StartsWith(parts[k], SnapshotPrefix);
    var first := FirstSnapshotIndex(parts);
    assert first.Some? && !(first.value < k) && !(k < first.value);
  }

  lemma YearPartNotSnapshot(yearPart: string)
    requires |yearPart| > 0 && yearPart[0] == 'y'
    ensures !StartsWith(yearPart, SnapshotPrefix)
  {
    if |SnapshotPrefix| <= |yearPart| { assert yearPart[..|SnapshotPrefix|][0] != SnapshotPrefix[0]; }
  }

  /** No segment before the snapshot one looks like a snapshot. */
  lemma NoSnapshotBefore(dirParts: seq<string>, yearPart: string, b: string, c: string)
    requires forall i :: 0 <= i < |dirParts| ==> !StartsWith(dirParts[i], SnapshotPrefix)
    requires !StartsWith(yearPart, SnapshotPrefix)
    ensures forall j :: 0 <= j < |dirParts| + 1 ==> !StartsWith((dirParts + [yearPart, b, c])[j], SnapshotPrefix)
  {
    var parts := dirParts + [yearPart, b, c];
    forall j | 0 <= j < |dirParts| + 1 ensures !StartsWith(parts[j], SnapshotPrefix) {
      ConcatAt(dirParts, [yearPart, b, c], j);
    }
  }

  /** The same for the pipeline's own curated directory. */
  lemma SnapshotOfCuratedOutput(d: string, y: int)
    requires '\\' !in d && '/' !in d
    ensures SnapshotDate(CuratedPartitionPath(CuratedOutputDir, d, y)) == Some(d)
  {
    CuratedOutputDirParts();
    SnapshotOfPartitionPath(CuratedOutputDir, d, y);
  }

  /** The curated directory's own segments, none of them a snapshot. */
  lemma CuratedOutputDirParts()
    ensures '\\' !in CuratedOutputDir
    ensures forall i :: 0 <= i < |Split(CuratedOutputDir, '/')| ==>
      !StartsWith(Split(CuratedOutputDir, '/')[i], SnapshotPrefix)
  {
    var a, b, c := "curated", "env_econ_", "country_year";
    Piece7();
    Piece8();
    Piece3();
    assert CuratedOutputDir == a + ['/'] + (b + c);
    TwoSegments(a, b + c, SnapshotPrefix);
  }

  /** Two separator-free segments that do not start with `p`. */
  lemma TwoSegments(a: string, b: string, p: string)
    requires '/' !in a && '/' !in b && '\\' !in a && '\\' !in b
    requires |a| < |p| && b != [] && p != [] && b[0] != p[0]
    ensures '\\' !in a + ['/'] + b
    ensures forall i :: 0 <= i < |Split(a + ['/'] + b, '/')| ==> !StartsWith(Split(a + ['/'] + b, '/')[i], p)
  {
    SplitAppend(a, b, '/');
    SplitNoSep(a, '/');
    SplitNoSep(b, '/');
    assert Split(a + ['/'] + b, '/') == [a, b];
    assert !StartsWith(b, p) by {
      if |p| <= |b| { assert b[..|p|][0] == b[0]; }
    }
  }

  // ---------------------------------------------------------------------
  // Latest snapshot of a year

  /** The sort key: the snapshot date, or `""` when the path has none. */
  function SnapKey(path: string): string
  {
    SnapshotDate(path).GetOr("")
  }

  function SnapKeys(paths: seq<string>): (keys: seq<string>)
    ensures |keys| == |paths|
    ensures forall i :: 0 <= i < |paths| ==> keys[i] == SnapKey(paths[i])
  {
    seq(|paths|, i requires 0 <= i < |paths| => SnapKey(paths[i]))
  }

  /** The element a stable sort puts last: a maximal key, and the last
      position holding one. */
  function LatestIndex(keys: seq<string>): (r: nat)
    requires |keys| > 0
    ensures r < |keys|
    ensures forall j :: 0 <= j < |keys| ==> StrLe(keys[j], keys[r])
    ensures forall j :: r < j < |keys| ==> StrLt(keys[j], keys[r])
    decreases |keys|
  {
    if |keys| == 1 then 0
    else
      var init := keys[..|keys| - 1];
      var r := LatestIndex(init);
      LatestIndexStep(keys, r);
      if StrLe(keys[r], keys[|keys| - 1]) then |keys| - 1 else r
  }

  /** Extending a last-maximum of all but the last key to all keys. */
  lemma LatestIndexStep(keys: seq<string>, r: nat)
    requires 1 < |keys| && r < |keys| - 1
    requires forall j :: 0 <= j < |keys| - 1 ==> StrLe(keys[j], keys[r])
    requires forall j :: r < j < |keys| - 1 ==> StrLt(keys[j], keys[r])
    ensures StrLe(keys[r], keys[|keys| - 1]) ==>
      forall j :: 0 <= j < |keys| ==> StrLe(keys[j], keys[|keys| - 1])
    ensures !StrLe(keys[r], keys[|keys| - 1]) ==>
      (forall j :: 0 <= j < |keys| ==> StrLe(keys[j], keys[r])) &&
      (forall j :: r < j < |keys| ==> StrLt(keys[j], keys[r]))
  {
    var last := |keys| - 1;
    if StrLe(keys[r], keys[last]) {
      forall j | 0 <= j < |keys| ensures StrLe(keys[j], keys[last]) {
        if j < last { StrLeTransitive(keys[j], keys[r], keys[last]); }
      }
    } else {
      StrNotLe(keys[r], keys[last]);
    }
  }

  /** `candidates.sort(key=snap); candidates[-1]`, as a scan that keeps
      the best candidate so far. */
  method LatestCandidate(paths: seq<string>) returns (best: nat)
    requires |paths| > 0
    ensures best == LatestIndex(SnapKeys(paths))
  {
    ghost var keys := SnapKeys(paths);
    var bestDate := ExtractSnapshotDateFromPath(paths[0]);
    var bestKey := bestDate.GetOr("");
    best := 0;
    assert keys[..1] == [keys[0]];
    var i := 1;
    while i < |paths|
      invariant 1 <= i <= |paths|
      invariant best == LatestIndex(keys[..i])
      invariant best < i && bestKey == keys[best]
    {
      var date := ExtractSnapshotDateFromPath(paths[i]);
      var key := date.GetOr("");
      LatestIndexSnoc(keys, i);
      if StrLe(bestKey, key) {
        best, bestKey := i, key;
      }
      i := i + 1;
    }
    assert keys[..|paths|] == keys;
  }

  /** One more key: it becomes the latest when it is at least as great. */
  lemma LatestIndexSnoc(keys: seq<string>, i: nat)
    requires 1 <= i < |keys|
    ensures LatestIndex(keys[..i]) < i
    ensures LatestIndex(keys[..i + 1]) ==
      (if StrLe(keys[LatestIndex(keys[..i])], keys[i]) then i else LatestIndex(keys[..i]))
  {
    assert keys[..i + 1][..i] == keys[..i];
  }

  // ---------------------------------------------------------------------
  // _load_curated_for_years

  /** A curated row as the analytics read it. */
  datatype AnalyticsRow = AnalyticsRow(countryCode: Option<string>, countryName: Option<string>,
                                       year: Option<int>, gdpPerCapitaUsd: Option<real>,
                                       co2TonsPerCapita: Option<real>, co2Per1000UsdGdp: Option<real>)

  /** Where curated files are found: a local tree (for each year, the
      curated files under `year=<y>` in `rglob` order, or None when that
      directory is missing) or a storage adapter's key listing. */
  datatype CuratedSource =
    | LocalTree(yearFiles: int -> Option<seq<string>>)
    | Storage(listKeys: string -> seq<string>)

  function StoragePrefix(year: int): string
  {
    CuratedBasePrefix + "/year=" + IntToString(year)
  }

  predicate IsCuratedFile(key: string)
  {
    EndsWith(key, CuratedFileName)
  }

  /** The candidate files of one year. */
  function Candidates(src: CuratedSource, year: int): (r: seq<string>)
    ensures src.LocalTree? ==> r == src.yearFiles(year).GetOr([])
    ensures src.Storage? ==> forall k :: k in r <==> k in src.listKeys(StoragePrefix(year)) && IsCuratedFile(k)
  {
    match src
    case LocalTree(files) => files(year).GetOr([])
    case Storage(list) => Filter(list(StoragePrefix(year)), IsCuratedFile)
  }

  /** The files of one year that are read. */
  function Chosen(cands: seq<string>, latestOnly: bool): seq<string>
  {
    if cands == [] then []
    else if latestOnly then [cands[LatestIndex(SnapKeys(cands))]]
    else cands
  }

  /** No candidates, nothing read; with `latestOnly`, exactly one file per
      year that has candidates, with the greatest snapshot key, and no later
      candidate has that key. */
  lemma ChosenShape(cands: seq<string>, latestOnly: bool)
    ensures Chosen(cands, latestOnly) == [] <==> cands == []
    ensures !latestOnly ==> Chosen(cands, latestOnly) == cands
    ensures latestOnly && cands != [] ==>
      var c := Chosen(cands, latestOnly);
      |c| == 1 && c[0] in cands
      && (forall i :: 0 <= i < |cands| ==> StrLe(SnapKey(cands[i]), SnapKey(c[0])))
      && (exists k :: (0 <= k < |cands| && cands[k] == c[0]
          && forall i :: k < i < |cands| ==> StrLt(SnapKey(cands[i]), SnapKey(c[0]))))
  {
    if latestOnly && cands != [] {
      var keys := SnapKeys(cands);
      var k := LatestIndex(keys);
      assert Chosen(cands, latestOnly) == [cands[k]];
      assert forall i :: 0 <= i < |cands| ==> StrLe(keys[i], keys[k]);
    }
  }

  /** The chosen files of every year, year by year. */
  function ChosenForYears(src: CuratedSource, years: seq<int>, latestOnly: bool): seq<string>
  {
    if years == [] then []
    else ChosenForYears(src, years[..|years| - 1], latestOnly)
         + Chosen(Candidates(src, years[|years| - 1]), latestOnly)
  }

  /** `pd.concat` of the files read, in order. */
  function ReadAll(paths: seq<string>, read: string -> seq<AnalyticsRow>): seq<AnalyticsRow>
  {
    if paths == [] then []
    else ReadAll(paths[..|paths| - 1], read) + read(paths[|paths| - 1])
  }

  lemma ReadAllSnoc(paths: seq<string>, p: string, read: string -> seq<AnalyticsRow>)
    ensures ReadAll(paths + [p], read) == ReadAll(paths, read) + read(p)
  {
    assert (paths + [p])[..|paths|] == paths;
  }

  function RowKey(r: AnalyticsRow): (Option<string>, Option<int>)
  {
    (r.countryCode, r.year)
  }

  /** The loaded table: the rows of the chosen files, one per
      (country_code, year), the last one kept. */
  function LoadedRows(src: CuratedSource, years: seq<int>, latestOnly: bool,
                      read: string -> seq<AnalyticsRow>): seq<AnalyticsRow>
  {
    DedupLast(ReadAll(ChosenForYears(src, years, latestOnly), read), RowKey)
  }

  /** The loader: one pass over the years, each contributing its chosen
      files in order. */
  method LoadCuratedForYears(src: CuratedSource, years: seq<int>, latestOnly: bool,
                             read: string -> seq<AnalyticsRow>)
    returns (rows: seq<AnalyticsRow>)
    ensures rows == LoadedRows(src, years, latestOnly, read)
  {
    var all: seq<AnalyticsRow> := [];
    ghost var paths: seq<string> := [];
    for i := 0 to |years|
      invariant paths == ChosenForYears(src, years[..i], latestOnly)
      invariant all == ReadAll(paths, read)
    {
      ChosenForYearsSnoc(src, years, i, latestOnly);
      var cands := Candidates(src, years[i]);
      if cands != [] && latestOnly {
        var best := LatestCandidate(cands);
        cands := [cands[best]];
      }
      assert cands == Chosen(Candidates(src, years[i]), latestOnly);
      var frames := ReadFiles(cands, read);
      ReadAllAppend(paths, cands, read);
      all := all + frames;
      paths := paths + cands;
    }
    assert years[..|years|] == years;
    rows := DedupLast(all, RowKey);
  }

  lemma ChosenForYearsSnoc(src: CuratedSource, years: seq<int>, i: nat, latestOnly: bool)
    requires i < |years|
    ensures ChosenForYears(src, years[..i + 1], latestOnly) ==
      ChosenForYears(src, years[..i], latestOnly) + Chosen(Candidates(src, years[i]), latestOnly)
  {
    assert years[..i + 1][..i] == years[..i];
  }

  /** The files of one year, read and appended in order. */
  method ReadFiles(paths: seq<string>, read: string -> seq<AnalyticsRow>) returns (rows: seq<AnalyticsRow>)
    ensures rows == ReadAll(paths, read)
  {
    rows := [];
    for j := 0 to |paths|
      invariant rows == ReadAll(paths[..j], read)
    {
      assert paths[..j + 1] == paths[..j] + [paths[j]];
      ReadAllSnoc(paths[..j], paths[j], read);
      rows := rows + read(paths[j]);
    }
    assert paths[..|paths|] == paths;
  }

  lemma {:induction false} ReadAllAppend(p: seq<string>, q: seq<string>, read: string -> seq<AnalyticsRow>)
    ensures ReadAll(p + q, read) == ReadAll(p, read) + ReadAll(q, read)
    decreases |q|
  {
    if q == [] {
      assert p + q == p;
    } else {
      var q0 := q[..|q| - 1];
      assert (p + q)[..|p + q| - 1] == p + q0;
      ReadAllAppend(p, q0, read);
    }
  }

  /** The loaded table has one row per (country_code, year), every row was
      read from a chosen file, and the row of a key is the last one read. */
  lemma LoadedRowsShape(src: CuratedSource, years: seq<int>, latestOnly: bool,
                        read: string -> seq<AnalyticsRow>, k: (Option<string>, Option<int>))
    ensures var rows := LoadedRows(src, years, latestOnly, read);
      forall i, j :: 0 <= i < j < |rows| ==> RowKey(rows[i]) != RowKey(rows[j])
    ensures var rows := LoadedRows(src, years, latestOnly, read);
      forall r :: r in rows ==> r in ReadAll(ChosenForYears(src, years, latestOnly), read)
    ensures FindLastKey(LoadedRows(src, years, latestOnly, read), RowKey, k)
         == FindLastKey(ReadAll(ChosenForYears(src, years, latestOnly), read), RowKey, k)
  {
    var all := ReadAll(ChosenForYears(src, years, latestOnly), read);
    DedupLastUnique(all, RowKey);
    DedupLastFind(all, RowKey, k);
  }

  // ---------------------------------------------------------------------
  // _format_top5_countries

  /** A row that takes part in a ranking: name and metric. */
  datatype Ranked = Ranked(name: string, metric: real)

  predicate IsRankable(r: AnalyticsRow)
  {
    r.co2Per1000UsdGdp.Some? && r.countryName.Some?
  }

  /** `dropna(subset=[metric, name])`, keeping name and metric. */
  function RankableRows(rows: seq<AnalyticsRow>): (r: seq<Ranked>)
    ensures |r| <= |rows|
    ensures r == [] <==> forall i :: 0 <= i < |rows| ==> !IsRankable(rows[i])
    ensures forall x :: x in r ==> exists i :: (0 <= i < |rows| && IsRankable(rows[i])
      && rows[i].countryName.value == x.name && rows[i].co2Per1000UsdGdp.value == x.metric)
  {
    if rows == [] then []
    else
      var init := RankableRows(rows[..|rows| - 1]);
      var last := rows[|rows| - 1];
      assert forall i :: 0 <= i < |rows| - 1 ==> rows[..|rows| - 1][i] == rows[i];
      init + (if IsRankable(last) then [Ranked(last.countryName.value, last.co2Per1000UsdGdp.value)] else [])
  }

  /** Position in the ranking: smaller comes first. */
  function Score(x: Ranked, ascending: bool): real
  {
    if ascending then x.metric else -x.metric
  }

  predicate RankedSorted(xs: seq<Ranked>, ascending: bool)
  {
    forall i, j :: 0 <= i < j < |xs| ==> Score(xs[i], ascending) <= Score(xs[j], ascending)
  }

  function InsertRanked(x: Ranked, xs: seq<Ranked>, ascending: bool): (r: seq<Ranked>)
    requires RankedSorted(xs, ascending)
    ensures |r| == |xs| + 1
    ensures RankedSorted(r, ascending)
    ensures multiset(r) == multiset(xs) + multiset{x}
  {
    if xs == [] then [x]
    else if Score(x, ascending) <= Score(xs[0], ascending) then [x] + xs
    else
      RankedTail(xs, ascending);
      var rest := InsertRanked(x, xs[1..], ascending);
      RankedLowerBound(xs[0], x, xs[1..], rest, ascending);
      RankedConsSorted(xs[0], rest, ascending);
      HeadTail(xs);
      [xs[0]] + rest
  }

  /** The tail of a sorted run is sorted and bounded below by its head. */
  lemma RankedTail(xs: seq<Ranked>, ascending: bool)
    requires xs != [] && RankedSorted(xs, ascending)
    ensures RankedSorted(xs[1..], ascending)
    ensures forall k :: 0 <= k < |xs[1..]| ==> Score(xs[0], ascending) <= Score(xs[1..][k], ascending)
  {
    assert forall k :: 0 <= k < |xs[1..]| ==> xs[1..][k] == xs[k + 1];
  }

  /** A bound below every element and below the inserted one bounds the
      result of the insertion. */
  lemma RankedLowerBound(y: Ranked, x: Ranked, tail: seq<Ranked>, rest: seq<Ranked>, ascending: bool)
    requires forall k :: 0 <= k < |tail| ==> Score(y, ascending) <= Score(tail[k], ascending)
    requires Score(y, ascending) <= Score(x, ascending)
    requires multiset(rest) == multiset(tail) + multiset{x}
    ensures forall j :: 0 <= j < |rest| ==> Score(y, ascending) <= Score(rest[j], ascending)
  {
    forall j | 0 <= j < |rest| ensures Score(y, ascending) <= Score(rest[j], ascending) {
      assert rest[j] in multiset(rest);
      if rest[j] != x {
        assert rest[j] in multiset(tail);
        var k :| 0 <= k < |tail| && tail[k] == rest[j];
      }
    }
  }

  lemma RankedConsSorted(y: Ranked, rest: seq<Ranked>, ascending: bool)
    requires RankedSorted(rest, ascending)
    requires forall j :: 0 <= j < |rest| ==> Score(y, ascending) <= Score(rest[j], ascending)
    ensures RankedSorted([y] + rest, ascending)
  {
    var r := [y] + rest;
    forall i, j | 0 <= i < j < |r| ensures Score(r[i], ascending) <= Score(r[j], ascending) {
      assert r[j] == rest[j - 1];
      if i > 0 {
        assert r[i] == rest[i - 1];
      }
    }
  }

  /** `sort_values(by=metric, ascending=...)`. */
  function SortRanked(xs: seq<Ranked>, ascending: bool): (r: seq<Ranked>)
    ensures |r| == |xs|
    ensures RankedSorted(r, ascending)
    ensures multiset(r) == multiset(xs)
  {
    if xs == [] then []
    else
      HeadTail(xs);
      InsertRanked(xs[0], SortRanked(xs[1..], ascending), ascending)
  }

  function TopCount(n: nat): nat
  {
    if n < 5 then n else 5
  }

  /** `.head(5)` of the sorted rows. */
  function Top5(xs: seq<Ranked>, ascending: bool): seq<Ranked>
  {
    SortRanked(xs, ascending)[..TopCount(|xs|)]
  }

  /** The five (or fewer) are drawn from the candidates, and none of the
      candidates left out ranks before any of them. */
  lemma Top5Selection(xs: seq<Ranked>, ascending: bool)
    ensures var top := Top5(xs, ascending);
      |top| == TopCount(|xs|) && multiset(top) <= multiset(xs)
    ensures var s := SortRanked(xs, ascending);
      var n := TopCount(|xs|);
      multiset(s[..n]) + multiset(s[n..]) == multiset(xs)
      && forall i, j :: 0 <= i < n <= j < |s| ==> Score(s[i], ascending) <= Score(s[j], ascending)
  {
    var s := SortRanked(xs, ascending);
    var n := TopCount(|xs|);
    assert s == s[..n] + s[n..];
    assert multiset(s) == multiset(s[..n]) + multiset(s[n..]);
  }

  /** `f"{name}: {val:.3f}"` with the number formatting left abstract. */
  function Entries(top: seq<Ranked>, fmt: real -> string): (r: seq<string>)
    ensures |r| == |top|
    ensures forall i :: 0 <= i < |top| ==> r[i] == top[i].name + ": " + fmt(top[i].metric)
  {
    seq(|top|, i requires 0 <= i < |top| => top[i].name + ": " + fmt(top[i].metric))
  }

  /** The top-5 string of one slice of rows. */
  function FormatTop5Countries(rows: seq<AnalyticsRow>, ascending: bool, fmt: real -> string): string
  {
    var valid := RankableRows(rows);
    if valid == [] then "" else Join(Entries(Top5(valid, ascending), fmt), ";")
  }

  /** A join whose first piece is not empty is not empty. */
  lemma JoinNonEmpty(parts: seq<string>, sep: string)
    requires parts != [] && parts[0] != ""
    ensures Join(parts, sep) != ""
  {
    if |parts| > 1 {
      assert |Join(parts, sep)| >= |parts[0]|;
    }
  }

  /** The string is empty exactly when no row has both a name and a
      metric. */
  lemma FormatTop5Empty(rows: seq<AnalyticsRow>, ascending: bool, fmt: real -> string)
    ensures FormatTop5Countries(rows, ascending, fmt) == "" <==>
      forall i :: 0 <= i < |rows| ==> !IsRankable(rows[i])
  {
    var valid := RankableRows(rows);
    if valid != [] {
      var top := Top5(valid, ascending);
      var entries := Entries(top, fmt);
      Top5Selection(valid, ascending);
      assert entries[0] == top[0].name + ": " + fmt(top[0].metric);
      JoinNonEmpty(entries, ";");
    }
  }

  /** When names and formatted numbers hold no `;`, the string splits back
      into one entry per ranked row, at most five. */
  lemma FormatTop5Entries(rows: seq<AnalyticsRow>, ascending: bool, fmt: real -> string)
    requires RankableRows(rows) != []
    requires forall r :: r in RankableRows(rows) ==> ';' !in r.name && ';' !in fmt(r.metric)
    ensures Split(FormatTop5Countries(rows, ascending, fmt), ';') == Entries(Top5(RankableRows(rows), ascending), fmt)
    ensures |Entries(Top5(RankableRows(rows), ascending), fmt)| == TopCount(|RankableRows(rows)|)
  {
    var valid := RankableRows(rows);
    var top := Top5(valid, ascending);
    Top5Selection(valid, ascending);
    forall r | r in top ensures ';' !in r.name && ';' !in fmt(r.metric) {
      assert r in multiset(top);
    }
    EntriesNoSemicolon(top, fmt);
    JoinSplit(Entries(top, fmt), ';');
  }

  lemma EntriesNoSemicolon(top: seq<Ranked>, fmt: real -> string)
    requires forall r :: r in top ==> ';' !in r.name && ';' !in fmt(r.metric)
    ensures forall i :: 0 <= i < |top| ==> ';' !in Entries(top, fmt)[i]
  {
    var entries := Entries(top, fmt);
    forall i | 0 <= i < |entries| ensures ';' !in entries[i] {
      assert top[i] in top;
      var tail := ": " + fmt(top[i].metric);
      assert entries[i] == top[i].name + tail;
    }
  }

  // ---------------------------------------------------------------------
  // build_correlation_summary

  /** One row of correlation_summary.csv. */
  datatype SummaryRow = SummaryRow(year: int, pearson: Option<real>,
                                   top5Highest: string, top5Lowest: string)

  predicate InYearWithValues(r: AnalyticsRow, year: int)
  {
    r.year == Some(year) && r.gdpPerCapitaUsd.Some? && r.co2TonsPerCapita.Some?
  }

  /** `df_all[year == y].dropna(subset=[gdp, co2])`. */
  function YearSlice(rows: seq<AnalyticsRow>, year: int): seq<AnalyticsRow>
  {
    Filter(rows, (r: AnalyticsRow) => InYearWithValues(r, year))
  }

  /** The (gdp, co2) pairs a correlation is computed over. */
  function Pairs(slice: seq<AnalyticsRow>): seq<(real, real)>
    requires forall i :: 0 <= i < |slice| ==> slice[i].gdpPerCapitaUsd.Some? && slice[i].co2TonsPerCapita.Some?
  {
    seq(|slice|, i requires 0 <= i < |slice| =>
      (slice[i].gdpPerCapitaUsd.value, slice[i].co2TonsPerCapita.value))
  }

  /** The summary row of one year. */
  function SummaryFor(rows: seq<AnalyticsRow>, year: int, pearson: seq<(real, real)> -> real,
                      fmt: real -> string): SummaryRow
  {
    var slice := YearSlice(rows, year);
    assert forall i :: 0 <= i < |slice| ==> slice[i] in slice;
    SummaryRow(year,
               if slice == [] then None else Some(pearson(Pairs(slice))),
               FormatTop5Countries(slice, false, fmt),
               FormatTop5Countries(slice, true, fmt))
  }

  /** An empty table gives the empty summary; otherwise one row per
      requested year, in order. */
  method BuildCorrelationSummary(rows: seq<AnalyticsRow>, years: seq<int>,
                                 pearson: seq<(real, real)> -> real, fmt: real -> string)
    returns (summary: seq<SummaryRow>)
    ensures rows == [] ==> summary == []
    ensures rows != [] ==> |summary| == |years|
    ensures rows != [] ==> forall i :: 0 <= i < |years| ==> summary[i] == SummaryFor(rows, years[i], pearson, fmt)
  {
    if rows == [] {
      return [];
    }
    summary := [];
    for i := 0 to |years|
      invariant |summary| == i
      invariant forall j :: 0 <= j < i ==> summary[j] == SummaryFor(rows, years[j], pearson, fmt)
    {
      summary := summary + [SummaryFor(rows, years[i], pearson, fmt)];
    }
  }

  /** A summary row carries its year, and a correlation exactly when some
      row of that year has both values. */
  lemma SummaryCorrelation(rows: seq<AnalyticsRow>, year: int, pearson: seq<(real, real)> -> real,
                           fmt: real -> string)
    ensures SummaryFor(rows, year, pearson, fmt).year == year
    ensures SummaryFor(rows, year, pearson, fmt).pearson.Some? <==>
      exists i :: 0 <= i < |rows| && InYearWithValues(rows[i], year)
  {
    var slice := YearSlice(rows, year);
    if slice != [] {
      assert slice[0] in slice;
    }
    if exists i :: 0 <= i < |rows| && InYearWithValues(rows[i], year) {
      var i :| 0 <= i < |rows| && InYearWithValues(rows[i], year);
      assert rows[i] in slice;
    }
  }

  /** Both top-5 strings are empty exactly when no row of that year has
      both values and also a name and a metric. */
  lemma SummaryTop5(rows: seq<AnalyticsRow>, year: int, pearson: seq<(real, real)> -> real,
                    fmt: real -> string)
    ensures SummaryFor(rows, year, pearson, fmt).top5Highest == "" <==>
      forall i :: 0 <= i < |rows| ==> !(InYearWithValues(rows[i], year) && IsRankable(rows[i]))
    ensures SummaryFor(rows, year, pearson, fmt).top5Lowest == "" <==>
      forall i :: 0 <= i < |rows| ==> !(InYearWithValues(rows[i], year) && IsRankable(rows[i]))
  {
    var slice := YearSlice(rows, year);
    FormatTop5Empty(slice, false, fmt);
    FormatTop5Empty(slice, true, fmt);
    SliceRankable(rows, year);
  }

  lemma SliceRankable(rows: seq<AnalyticsRow>, year: int)
    ensures (forall i :: 0 <= i < |YearSlice(rows, year)| ==> !IsRankable(YearSlice(rows, year)[i])) <==>
      forall i :: 0 <= i < |rows| ==> !(InYearWithValues(rows[i], year) && IsRankable(rows[i]))
  {
    var slice := YearSlice(rows, year);
    if exists i :: 0 <= i < |rows| && InYearWithValues(rows[i], year) && IsRankable(rows[i]) {
      var i :| 0 <= i < |rows| && InYearWithValues(rows[i], year) && IsRankable(rows[i]);
      assert rows[i] in slice;
    }
    if exists i :: 0 <= i < |slice| && IsRankable(slice[i]) {
      var i :| 0 <= i < |slice| && IsRankable(slice[i]);
      assert slice[i] in slice;
    }
  }

  // ---------------------------------------------------------------------
  // build_gdp_vs_co2_scatter

  predicate IsPlottable(r: AnalyticsRow)
  {
    r.gdpPerCapitaUsd.Some? && r.co2TonsPerCapita.Some? && r.co2Per1000UsdGdp.Some?
  }

  function NoDataMessage(year: int): string
  {
    "No curated data available for year=" + IntToString(year)
  }

  function NoValidRowsMessage(year: int): string
  {
    "No valid rows for scatter plot for year=" + IntToString(year)
  }

  /** The rows of the scatter plot, or the RuntimeError raised before any
      plotting. */
  function ScatterRows(rows: seq<AnalyticsRow>, year: int): (r: Result<seq<AnalyticsRow>>)
    ensures rows == [] ==> r == Err(Failure(RuntimeError, NoDataMessage(year)))
    ensures rows != [] && (forall x :: x in rows ==> !IsPlottable(x)) ==>
      r == Err(Failure(RuntimeError, NoValidRowsMessage(year)))
    ensures r.Ok? <==> exists x :: x in rows && IsPlottable(x)
    ensures r.Ok? ==> r.value != [] && forall x :: x in r.value <==> x in rows && IsPlottable(x)
  {
    if rows == [] then Err(Failure(RuntimeError, NoDataMessage(year)))
    else
      var valid := Filter(rows, IsPlottable);
      if valid == [] then Err(Failure(RuntimeError, NoValidRowsMessage(year)))
      else
        assert valid[0] in valid;
        Ok(valid)
  }

  /** `analytics/<YYYYMMDD>/<name>`, where storage-backed outputs go. */
  function AnalyticsKey(snapshotDate: string, name: string): string
  {
    AnalyticsBasePrefix + "/" + snapshotDate + "/" + name
  }

  /** The key names the analytics prefix, the date and the file, as its
      three segments. */
  lemma AnalyticsKeyParts(snapshotDate: string, name: string)
    requires '/' !in snapshotDate && '/' !in name
    ensures Split(AnalyticsKey(snapshotDate, name), '/') == [AnalyticsBasePrefix, snapshotDate, name]
  {
    Piece9();
    SplitThreePieces(AnalyticsBasePrefix, snapshotDate, name, '/');
  }
}
