/** The CURATED layer: World Bank GDP per capita joined with Wikipedia CO2
    per capita on (country_code, year), with the derived CO2 per 1000 USD of
    GDP, partitioned by year and snapshot date. */
module CuratedEconEnvironment {
  import opened Common
  import opened Ledger
  import opened WikipediaCo2Processed

  const CuratedOutputDir := "curated/env_econ_country_year"
  const CuratedFileName := "curated_econ_environment_country_year.parquet"
  const GdpSourceSystem := "world_bank_api"
  const Co2SourceSystem := "wikipedia_co2"

  /** A row of the economic (GDP) side, its four columns. */
  datatype EconRow = EconRow(countryCode: Option<string>, countryName: Option<string>,
                             year: Option<int>, gdpPerCapitaUsd: Option<real>)

  /** A row of the environmental (CO2) side, its three columns. */
  datatype EnvRow = EnvRow(countryCode: Option<string>, year: Option<int>, co2TonsPerCapita: Option<real>)

  datatype EconFrame = EconFrame(columns: set<string>, rows: seq<EconRow>)
  datatype EnvFrame = EnvFrame(columns: set<string>, rows: seq<EnvRow>)

  const EconColumns: set<string> := {"country_code", "country_name", "year", "gdp_per_capita_usd"}
  const EnvColumns: set<string> := {"country_code", "year", "co2_tons_per_capita"}

  /** The join key. */
  datatype Key = Key(code: Option<string>, year: Option<int>)

  function EconKey(r: EconRow): Key { Key(r.countryCode, r.year) }
  function EnvKey(r: EnvRow): Key { Key(r.countryCode, r.year) }

  predicate UniqueBy<T, K(==)>(xs: seq<T>, key: T -> K)
  {
    forall i, j :: 0 <= i < j < |xs| ==> key(xs[i]) != key(xs[j])
  }

  // ---------------------------------------------------------------------
  // _load_world_bank_processed / _load_wikipedia_co2_processed

  /** `pd.concat` then the column subset: the union of the columns, and in
      each row null wherever that row's frame lacks the column. */
  function EconConcat(frames: seq<EconFrame>): (f: EconFrame)
    ensures f.columns <= EconColumns
  {
    if frames == [] then EconFrame({}, [])
    else
      var init := EconConcat(frames[..|frames| - 1]);
      var last := frames[|frames| - 1];
      var c := last.columns;
      var rows := seq(|last.rows|, i requires 0 <= i < |last.rows| =>
        EconRow(if "country_code" in c then last.rows[i].countryCode else None,
                if "country_name" in c then last.rows[i].countryName else None,
                if "year" in c then last.rows[i].year else None,
                if "gdp_per_capita_usd" in c then last.rows[i].gdpPerCapitaUsd else None));
      EconFrame(init.columns + (c * EconColumns), init.rows + rows)
  }

  function EnvConcat(frames: seq<EnvFrame>): (f: EnvFrame)
    ensures f.columns <= EnvColumns
  {
    if frames == [] then EnvFrame({}, [])
    else
      var init := EnvConcat(frames[..|frames| - 1]);
      var last := frames[|frames| - 1];
      var c := last.columns;
      var rows := seq(|last.rows|, i requires 0 <= i < |last.rows| =>
        EnvRow(if "country_code" in c then last.rows[i].countryCode else None,
               if "year" in c then last.rows[i].year else None,
               if "co2_tons_per_capita" in c then last.rows[i].co2TonsPerCapita else None));
      EnvFrame(init.columns + (c * EnvColumns), init.rows + rows)
  }

  /** `dropna(subset=[...])` on columns the frame lacks raises KeyError
      naming them. */
  function MissingSubset(columns: set<string>): (r: seq<string>)
    ensures r == [] <==> "country_code" in columns && "year" in columns
  {
    var r := Filter(["country_code", "year"], (c: string) => c !in columns);
    assert r != [] ==> r[0] in r;
    r
  }

  predicate HasKey(k: Key)
  {
    k.code.Some? && k.year.Some?
  }

  /** The economic loader: no directory or no files gives the empty frame;
      otherwise rows with code and year, the first row of each key kept. */
  function LoadEcon(rootExists: bool, frames: seq<EconFrame>): (r: Result<EconFrame>)
    ensures !rootExists || frames == [] ==> r == Ok(EconFrame(EconColumns, []))
    ensures r.Err? <==> rootExists && frames != []
                        && !("country_code" in EconConcat(frames).columns && "year" in EconConcat(frames).columns)
  {
    if !rootExists || frames == [] then Ok(EconFrame(EconColumns, []))
    else
      var all := EconConcat(frames);
      var missing := MissingSubset(all.columns);
      if missing != [] then Err(Failure(KeyError, StrListRepr(missing)))
      else
        var complete := Filter(all.rows, (x: EconRow) => HasKey(EconKey(x)));
        Ok(EconFrame(all.columns, DedupFirst(complete, EconKey)))
  }

  function LoadEnv(rootExists: bool, frames: seq<EnvFrame>): (r: Result<EnvFrame>)
    ensures !rootExists || frames == [] ==> r == Ok(EnvFrame(EnvColumns, []))
    ensures r.Err? <==> rootExists && frames != []
                        && !("country_code" in EnvConcat(frames).columns && "year" in EnvConcat(frames).columns)
  {
    if !rootExists || frames == [] then Ok(EnvFrame(EnvColumns, []))
    else
      var all := EnvConcat(frames);
      var missing := MissingSubset(all.columns);
      if missing != [] then Err(Failure(KeyError, StrListRepr(missing)))
      else
        var complete := Filter(all.rows, (x: EnvRow) => HasKey(EnvKey(x)));
        Ok(EnvFrame(all.columns, DedupFirst(complete, EnvKey)))
  }

  /** A loaded economic frame has a code and a year in every row, one row
      per key, and for each key the first concatenated row carrying it. */
  lemma LoadEconShape(rootExists: bool, frames: seq<EconFrame>)
    requires LoadEcon(rootExists, frames).Ok?
    ensures var f := LoadEcon(rootExists, frames).value;
      && UniqueBy(f.rows, EconKey)
      && (forall x :: x in f.rows ==> HasKey(EconKey(x)))
    ensures rootExists && frames != [] ==>
      var f := LoadEcon(rootExists, frames).value;
      var all := EconConcat(frames).rows;
      forall k :: HasKey(k) ==> FindFirst(f.rows, EconKey, k) == FindFirst(all, EconKey, k)
  {
    if rootExists && frames != [] {
      var all := EconConcat(frames).rows;
      var p := (x: EconRow) => HasKey(EconKey(x));
      var complete := Filter(all, p);
      DedupFirstUnique(complete, EconKey);
      forall k | HasKey(k)
        ensures FindFirst(DedupFirst(complete, EconKey), EconKey, k) == FindFirst(all, EconKey, k)
      {
        DedupFirstFind(complete, EconKey, k);
        FindFirstSkipsFiltered(all, p, EconKey, k);
      }
    }
  }

  lemma LoadEnvShape(rootExists: bool, frames: seq<EnvFrame>)
    requires LoadEnv(rootExists, frames).Ok?
    ensures var f := LoadEnv(rootExists, frames).value;
      && UniqueBy(f.rows, EnvKey)
      && (forall x :: x in f.rows ==> HasKey(EnvKey(x)))
    ensures rootExists && frames != [] ==>
      var f := LoadEnv(rootExists, frames).value;
      var all := EnvConcat(frames).rows;
      forall k :: HasKey(k) ==> FindFirst(f.rows, EnvKey, k) == FindFirst(all, EnvKey, k)
  {
    if rootExists && frames != [] {
      var all := EnvConcat(frames).rows;
      var p := (x: EnvRow) => HasKey(EnvKey(x));
      var complete := Filter(all, p);
      DedupFirstUnique(complete, EnvKey);
      forall k | HasKey(k)
        ensures FindFirst(DedupFirst(complete, EnvKey), EnvKey, k) == FindFirst(all, EnvKey, k)
      {
        DedupFirstFind(complete, EnvKey, k);
        FindFirstSkipsFiltered(all, p, EnvKey, k);
      }
    }
  }

  /** Dropping elements whose key fails a test does not change the first
      element of a key that passes it. */
  lemma {:induction false} FindFirstSkipsFiltered<T(!new), K>(xs: seq<T>, p: T -> bool, key: T -> K, k: K)
    requires forall x :: key(x) == k ==> p(x)
    ensures FindFirst(Filter(xs, p), key, k) == FindFirst(xs, key, k)
    decreases |xs|
  {
    if xs != [] {
      var init := xs[..|xs| - 1];
      var x := xs[|xs| - 1];
      assert xs == init + [x];
      FindFirstSkipsFiltered(init, p, key, k);
      FindFirstAppend(init, [x], key, k);
      FindFirstAppend(Filter(init, p), if p(x) then [x] else [], key, k);
      assert FindFirst([x], key, k) == (if key(x) == k then Some(x) else None);
      assert FindFirst([], key, k) == None;
    }
  }

  // ---------------------------------------------------------------------
  // build_curated_econ_environment_country_year_dataframe

  /** One row of the left merge: the economic row and the CO2 value of a
      partner, null when there is no partner. */
  datatype JoinedRow = JoinedRow(econ: EconRow, co2: Option<real>)

  function Partners(w: EconRow, env: seq<EnvRow>): (ps: seq<EnvRow>)
    ensures forall e :: e in ps <==> e in env && EnvKey(e) == EconKey(w)
  {
    Filter(env, (e: EnvRow) => EnvKey(e) == EconKey(w))
  }

  /** A left row with no partner appears once with a null value; otherwise
      once per partner, in their order. Null keys match null keys. */
  function MergeRow(w: EconRow, env: seq<EnvRow>): seq<JoinedRow>
  {
    var ps := Partners(w, env);
    if ps == [] then [JoinedRow(w, None)]
    else seq(|ps|, i requires 0 <= i < |ps| => JoinedRow(w, ps[i].co2TonsPerCapita))
  }

  /** `merge(how="left")`: left rows in order. */
  function LeftMerge(wb: seq<EconRow>, env: seq<EnvRow>): seq<JoinedRow>
  {
    if wb == [] then [] else LeftMerge(wb[..|wb| - 1], env) + MergeRow(wb[|wb| - 1], env)
  }

  function HasCo2(j: JoinedRow): bool { j.co2.Some? }
  function LacksCo2(j: JoinedRow): bool { j.co2.None? }

  /** The count reported for pairs without CO2 (the rows dropped next). */
  function MissingCo2(joined: seq<JoinedRow>): nat
  {
    |Filter(joined, LacksCo2)|
  }

  /** The metric, computed only where GDP and CO2 are known and GDP is positive. */
  function Co2Per1000UsdGdp(gdp: Option<real>, co2: Option<real>): (m: Option<real>)
    ensures m.Some? <==> gdp.Some? && co2.Some? && gdp.value > 0.0
    ensures m.Some? ==> m.value * gdp.value == co2.value * 1000.0
  {
    if gdp.Some? && co2.Some? && gdp.value > 0.0 then Some(co2.value * 1000.0 / gdp.value) else None
  }

  /** One output row, columns in `cols_order`. */
  datatype CuratedRow = CuratedRow(
    countryCode: Option<string>,
    countryName: Option<string>,
    year: Option<int>,
    gdpPerCapitaUsd: Option<real>,
    co2TonsPerCapita: Option<real>,
    co2Per1000UsdGdp: Option<real>,
    gdpSourceSystem: string,
    co2SourceSystem: string,
    firstIngestionRunId: string,
    lastUpdateRunId: string,
    lastUpdateTs: string)

  datatype CuratedTable = CuratedTable(columns: set<string>, rows: seq<CuratedRow>)

  const CuratedColumns: set<string> := {
    "country_code", "country_name", "year", "gdp_per_capita_usd", "co2_tons_per_capita",
    "co2_per_1000usd_gdp", "gdp_source_system", "co2_source_system",
    "first_ingestion_run_id", "last_update_run_id", "last_update_ts"}

  function CurateRow(j: JoinedRow, runId: string, ts: string): CuratedRow
  {
    CuratedRow(j.econ.countryCode, j.econ.countryName, j.econ.year, j.econ.gdpPerCapitaUsd, j.co2,
               Co2Per1000UsdGdp(j.econ.gdpPerCapitaUsd, j.co2),
               GdpSourceSystem, Co2SourceSystem, runId, runId, ts)
  }

  /** The curated row of each kept merged row, in order. */
  function CuratedRows(kept: seq<JoinedRow>, runId: string, ts: string): (r: seq<CuratedRow>)
    ensures |r| == |kept| && forall i :: 0 <= i < |kept| ==> r[i] == CurateRow(kept[i], runId, ts)
  {
    seq(|kept|, i requires 0 <= i < |kept| => CurateRow(kept[i], runId, ts))
  }

  /** `str(KeyError(col))`. */
  function MissingColumn(col: string): Failure
  {
    Failure(KeyError, "'" + col + "'")
  }

  /** The curated table. An empty side, or one without `country_code`,
      gives the empty 11-column table; a missing `year`, CO2, GDP or name
      column raises KeyError where the code first reads it; otherwise the
      left merge, rows with CO2 kept, the metric and the stamps added. */
  function BuildCurated(wb: EconFrame, env: EnvFrame, runId: string, ts: string): (r: Result<CuratedTable>)
    ensures r.Ok? ==> r.value.columns == CuratedColumns
    ensures wb.rows == [] || "country_code" !in wb.columns || env.rows == [] || "country_code" !in env.columns
            ==> r == Ok(CuratedTable(CuratedColumns, []))
  {
    if wb.rows == [] || "country_code" !in wb.columns then Ok(CuratedTable(CuratedColumns, []))
    else if env.rows == [] || "country_code" !in env.columns then Ok(CuratedTable(CuratedColumns, []))
    else if "year" !in wb.columns then Err(MissingColumn("year"))
    else if "year" !in env.columns then Err(MissingColumn("year"))
    else if "co2_tons_per_capita" !in env.columns then Err(MissingColumn("co2_tons_per_capita"))
    else if "gdp_per_capita_usd" !in wb.columns then Err(MissingColumn("gdp_per_capita_usd"))
    else if "country_name" !in wb.columns then Err(MissingColumn("country_name"))
    else
      Ok(CuratedTable(CuratedColumns, CuratedRows(Filter(LeftMerge(wb.rows, env.rows), HasCo2), runId, ts)))
  }

  predicate JoinApplies(wb: EconFrame, env: EnvFrame)
  {
    && wb.rows != [] && env.rows != []
    && EconColumns <= wb.columns && EnvColumns <= env.columns
  }

  /** A merged row with CO2 is exactly an economic row together with the
      value of one of its partners, when that value is not null. */
  lemma {:induction false} LeftMergeMembership(wb: seq<EconRow>, env: seq<EnvRow>, j: JoinedRow)
    ensures j in LeftMerge(wb, env) && j.co2.Some? <==>
      j.econ in wb && j.co2.Some? && exists e :: e in env && EnvKey(e) == EconKey(j.econ) && e.co2TonsPerCapita == j.co2
    decreases |wb|
  {
    if wb != [] {
      var init := wb[..|wb| - 1];
      var w := wb[|wb| - 1];
      LeftMergeMembership(init, env, j);
      var ps := Partners(w, env);
      var m := MergeRow(w, env);
      assert j in m && j.co2.Some? <==>
        j.econ == w && j.co2.Some? && exists e :: e in ps && e.co2TonsPerCapita == j.co2 by {
        if j in m && j.co2.Some? {
          assert ps != [];
          var i :| 0 <= i < |m| && m[i] == j;
          assert ps[i] in ps;
        }
        if j.econ == w && j.co2.Some? && exists e :: e in ps && e.co2TonsPerCapita == j.co2 {
          var e :| e in ps && e.co2TonsPerCapita == j.co2;
          var i :| 0 <= i < |ps| && ps[i] == e;
          assert m[i] == j;
        }
      }
      assert j.econ in wb <==> j.econ in init || j.econ == w by {
        assert wb == init + [w];
      }
    }
  }

  /** The curated rows are exactly the economic rows with a partner whose
      CO2 is known, that CO2 and the derived metric attached and every row
      stamped with the two source systems and the run id. */
  lemma CuratedJoin(wb: EconFrame, env: EnvFrame, runId: string, ts: string)
    requires JoinApplies(wb, env)
    ensures BuildCurated(wb, env, runId, ts).Ok?
    ensures var out := BuildCurated(wb, env, runId, ts).value.rows;
      forall w, e :: w in wb.rows && e in env.rows && EnvKey(e) == EconKey(w) && e.co2TonsPerCapita.Some? ==>
        CurateRow(JoinedRow(w, e.co2TonsPerCapita), runId, ts) in out
    ensures var out := BuildCurated(wb, env, runId, ts).value.rows;
      forall o :: o in out ==>
        && o.co2TonsPerCapita.Some?
        && (exists w, e :: w in wb.rows && e in env.rows && EnvKey(e) == EconKey(w)
              && e.co2TonsPerCapita == o.co2TonsPerCapita
              && o == CurateRow(JoinedRow(w, o.co2TonsPerCapita), runId, ts))
        && o.gdpSourceSystem == GdpSourceSystem && o.co2SourceSystem == Co2SourceSystem
        && o.firstIngestionRunId == runId && o.lastUpdateRunId == runId && o.lastUpdateTs == ts
  {
    var kept := Filter(LeftMerge(wb.rows, env.rows), HasCo2);
    assert BuildCurated(wb, env, runId, ts).value.rows == CuratedRows(kept, runId, ts);
    CuratedHasEveryPair(wb.rows, env.rows, kept, runId, ts);
    CuratedOnlyPairs(wb.rows, env.rows, kept, runId, ts);
  }

  lemma CuratedHasEveryPair(wb: seq<EconRow>, env: seq<EnvRow>, kept: seq<JoinedRow>, runId: string, ts: string)
    requires kept == Filter(LeftMerge(wb, env), HasCo2)
    ensures var out := CuratedRows(kept, runId, ts);
      forall w, e :: w in wb && e in env && EnvKey(e) == EconKey(w) && e.co2TonsPerCapita.Some? ==>
        CurateRow(JoinedRow(w, e.co2TonsPerCapita), runId, ts) in out
  {
    var out := CuratedRows(kept, runId, ts);
    forall w, e | w in wb && e in env && EnvKey(e) == EconKey(w) && e.co2TonsPerCapita.Some?
      ensures CurateRow(JoinedRow(w, e.co2TonsPerCapita), runId, ts) in out
    {
      var j := JoinedRow(w, e.co2TonsPerCapita);
      LeftMergeMembership(wb, env, j);
      var i :| 0 <= i < |kept| && kept[i] == j;
      assert out[i] == CurateRow(j, runId, ts);
    }
  }

  lemma CuratedOnlyPairs(wb: seq<EconRow>, env: seq<EnvRow>, kept: seq<JoinedRow>, runId: string, ts: string)
    requires kept == Filter(LeftMerge(wb, env), HasCo2)
    ensures var out := CuratedRows(kept, runId, ts);
      forall o :: o in out ==>
        && o.co2TonsPerCapita.Some?
        && (exists w, e :: w in wb && e in env && EnvKey(e) == EconKey(w)
              && e.co2TonsPerCapita == o.co2TonsPerCapita
              && o == CurateRow(JoinedRow(w, o.co2TonsPerCapita), runId, ts))
        && o.gdpSourceSystem == GdpSourceSystem && o.co2SourceSystem == Co2SourceSystem
        && o.firstIngestionRunId == runId && o.lastUpdateRunId == runId && o.lastUpdateTs == ts
  {
    var out := CuratedRows(kept, runId, ts);
    forall o | o in out
      ensures exists w, e :: (w in wb && e in env && EnvKey(e) == EconKey(w)
              && e.co2TonsPerCapita == o.co2TonsPerCapita
              && o == CurateRow(JoinedRow(w, o.co2TonsPerCapita), runId, ts))
      ensures o.co2TonsPerCapita.Some?
    {
      var i :| 0 <= i < |out| && out[i] == o;
      var j := kept[i];
      assert j in kept;
      LeftMergeMembership(wb, env, j);
      var e :| e in env && EnvKey(e) == EconKey(j.econ) && e.co2TonsPerCapita == j.co2;
      assert o == CurateRow(JoinedRow(j.econ, o.co2TonsPerCapita), runId, ts);
    }
  }

  /** Each merged row either keeps CO2 or is counted as missing. */
  lemma {:induction false} MissingCo2Count(joined: seq<JoinedRow>)
    ensures |Filter(joined, HasCo2)| + MissingCo2(joined) == |joined|
    decreases |joined|
  {
    if joined != [] {
      MissingCo2Count(joined[..|joined| - 1]);
    }
  }

  /** With one CO2 row per key, the merge is one row per economic row. */
  lemma {:induction false} PartnersAtMostOne(w: EconRow, env: seq<EnvRow>)
    requires UniqueBy(env, EnvKey)
    ensures |Partners(w, env)| <= 1
    decreases |env|
  {
    if env != [] {
      var init := env[..|env| - 1];
      var e := env[|env| - 1];
      assert UniqueBy(init, EnvKey) by {
        forall i, j | 0 <= i < j < |init| ensures EnvKey(init[i]) != EnvKey(init[j]) {
          assert init[i] == env[i] && init[j] == env[j];
        }
      }
      PartnersAtMostOne(w, init);
      var p := (x: EnvRow) => EnvKey(x) == EconKey(w);
      if p(e) {
        forall x | x in init ensures !p(x) {
          var i :| 0 <= i < |init| && init[i] == x;
          assert env[i] == x;
        }
        FilterNone(init, p);
      }
    }
  }

  lemma MergeRowSingle(w: EconRow, env: seq<EnvRow>)
    requires UniqueBy(env, EnvKey)
    ensures |MergeRow(w, env)| == 1 && MergeRow(w, env)[0].econ == w
  {
    PartnersAtMostOne(w, env);
  }

  lemma {:induction false} LeftMergeOneToOne(wb: seq<EconRow>, env: seq<EnvRow>)
    requires UniqueBy(env, EnvKey)
    ensures |LeftMerge(wb, env)| == |wb|
    ensures forall i :: 0 <= i < |wb| ==> LeftMerge(wb, env)[i].econ == wb[i]
    decreases |wb|
  {
    if wb != [] {
      var init := wb[..|wb| - 1];
      var w := wb[|wb| - 1];
      LeftMergeOneToOne(init, env);
      MergeRowSingle(w, env);
      assert wb == init + [w];
      EconSideAppend(LeftMerge(init, env), MergeRow(w, env), init, w);
    }
  }

  /** Appending one merged row for `w` extends the economic side by `w`. */
  lemma EconSideAppend(a: seq<JoinedRow>, m: seq<JoinedRow>, init: seq<EconRow>, w: EconRow)
    requires |a| == |init| && forall i :: 0 <= i < |init| ==> a[i].econ == init[i]
    requires |m| == 1 && m[0].econ == w
    ensures |a + m| == |init + [w]|
    ensures forall i :: 0 <= i < |init + [w]| ==> (a + m)[i].econ == (init + [w])[i]
  {
    forall i | 0 <= i < |init + [w]| ensures (a + m)[i].econ == (init + [w])[i] {
      if i < |init| {
        assert (a + m)[i] == a[i] && (init + [w])[i] == init[i];
      } else {
        assert (a + m)[i] == m[0];
      }
    }
  }

  function CuratedKey(o: CuratedRow): Key { Key(o.countryCode, o.year) }

  /** With key-unique inputs (what the loaders deliver) the curated table
      has at most one row per (code, year) and no more rows than the
      economic side; the rows dropped are exactly the ones counted. */
  lemma CuratedUnique(wb: EconFrame, env: EnvFrame, runId: string, ts: string)
    requires JoinApplies(wb, env)
    requires UniqueBy(wb.rows, EconKey) && UniqueBy(env.rows, EnvKey)
    ensures var out := BuildCurated(wb, env, runId, ts).value.rows;
      && UniqueBy(out, CuratedKey)
      && |out| + MissingCo2(LeftMerge(wb.rows, env.rows)) == |wb.rows|
  {
    var joined := LeftMerge(wb.rows, env.rows);
    var kept := Filter(joined, HasCo2);
    assert BuildCurated(wb, env, runId, ts).value.rows == CuratedRows(kept, runId, ts);
    assert |joined| == |wb.rows| by { LeftMergeOneToOne(wb.rows, env.rows); }
    MissingCo2Count(joined);
    KeptEconKeysDistinct(wb.rows, env.rows, kept);
    CuratedRowsUnique(kept, runId, ts);
  }

  /** Merged rows with CO2 keep the economic side's distinct keys. */
  lemma KeptEconKeysDistinct(wb: seq<EconRow>, env: seq<EnvRow>, kept: seq<JoinedRow>)
    requires UniqueBy(wb, EconKey) && UniqueBy(env, EnvKey)
    requires kept == Filter(LeftMerge(wb, env), HasCo2)
    ensures forall i, j :: 0 <= i < j < |kept| ==> EconKey(kept[i].econ) != EconKey(kept[j].econ)
  {
    var joined := LeftMerge(wb, env);
    LeftMergeOneToOne(wb, env);
    var rel := (a: JoinedRow, b: JoinedRow) => EconKey(a.econ) != EconKey(b.econ);
    forall i, j | 0 <= i < j < |joined| ensures rel(joined[i], joined[j]) {
      assert joined[i].econ == wb[i] && joined[j].econ == wb[j];
    }
    FilterPairwise(joined, HasCo2, rel);
    forall i, j | 0 <= i < j < |kept| ensures EconKey(kept[i].econ) != EconKey(kept[j].econ) {
      assert rel(kept[i], kept[j]);
    }
  }

  /** Curated rows carry the keys of their merged rows. */
  lemma CuratedRowsUnique(kept: seq<JoinedRow>, runId: string, ts: string)
    requires forall i, j :: 0 <= i < j < |kept| ==> EconKey(kept[i].econ) != EconKey(kept[j].econ)
    ensures UniqueBy(CuratedRows(kept, runId, ts), CuratedKey)
  {
    var out := CuratedRows(kept, runId, ts);
    forall i, j | 0 <= i < j < |out| ensures CuratedKey(out[i]) != CuratedKey(out[j]) {
      assert CuratedKey(out[i]) == EconKey(kept[i].econ) && CuratedKey(out[j]) == EconKey(kept[j].econ);
    }
  }

  /** The curated frame from the two PROCESSED trees. */
  function BuildCuratedFromProcessed(wbExists: bool, wbFrames: seq<EconFrame>,
                                     envExists: bool, envFrames: seq<EnvFrame>,
                                     runId: string, ts: string): (r: Result<CuratedTable>)
    ensures r.Ok? ==> r.value.columns == CuratedColumns
  {
    match LoadEcon(wbExists, wbFrames)
    case Err(f) => Err(f)
    case Ok(wb) =>
      match LoadEnv(envExists, envFrames)
      case Err(f) => Err(f)
      case Ok(env) => BuildCurated(wb, env, runId, ts)
  }

  // ---------------------------------------------------------------------
  // save_curated_econ_environment_country_year_parquet_partitions

  function CuratedYear(o: CuratedRow): Option<int> { o.year }

  function CuratedPartitionPath(outputDir: string, snapshotDate: string, year: int): string
  {
    outputDir + "/year=" + IntToString(year) + "/snapshot_date=" + snapshotDate + "/" + CuratedFileName
  }

  /** One file per distinct non-null year, under `year=<y>/snapshot_date=<d>`;
      `today` is the UTC date used when no snapshot date is given. */
  method SaveCuratedPartitions(table: CuratedTable, outputDir: string, snapshotDate: Option<string>, today: string)
    returns (parts: seq<Partition<CuratedRow>>)
    ensures table.rows == [] || "year" !in table.columns ==> parts == []
    ensures "year" in table.columns ==> |parts| == |YearsIn(table.rows, CuratedYear)|
    ensures "year" in table.columns ==> forall i :: 0 <= i < |parts| ==>
      var y := YearsIn(table.rows, CuratedYear)[i];
      var d := if snapshotDate.Some? then snapshotDate.value else today;
      parts[i] == Partition(y, CuratedPartitionPath(outputDir, d, y), RowsOfYear(table.rows, CuratedYear, y))
  {
    if table.rows == [] || "year" !in table.columns {
      return [];
    }
    var d := if snapshotDate.Some? then snapshotDate.value else today;
    parts := PartitionByYear(table.rows, CuratedYear, (y: int) => CuratedPartitionPath(outputDir, d, y));
  }

  // ---------------------------------------------------------------------
  // build_and_save_curated_econ_environment_country_year

  /** The PROCESSED inputs as read from disk. */
  datatype ProcessedInputs = ProcessedInputs(wbExists: bool, wbFrames: seq<EconFrame>,
                                             envExists: bool, envFrames: seq<EnvFrame>)

  /** Clock readings: run start, the snapshot timestamp with its
      `%Y%m%d` date, and run end. */
  datatype CuratedClock = CuratedClock(runStart: string, snapshotTs: string, snapshotDate: string, runEnd: string)

  function SnapshotCheckpoint(snapshotDate: string): string
  {
    "snapshot_date=" + snapshotDate
  }

  /** Opens a run, builds and writes the partitions, and closes the run
      SUCCESS with the row count and the snapshot checkpoint, or FAILED with
      the error, which is raised again. `writeError` is the failure of the
      parquet write, if it fails. */
  method BuildAndSaveCurated(store: LocalStore, inputs: ProcessedInputs, outputDir: string, runScope: string,
                             runId: string, clock: CuratedClock, writeError: Option<Failure>)
    returns (r: Result<seq<Partition<CuratedRow>>>)
    modifies store
    ensures store.checkpoints == old(store.checkpoints)
    ensures var built := BuildCuratedFromProcessed(inputs.wbExists, inputs.wbFrames, inputs.envExists,
                                                   inputs.envFrames, runId, clock.snapshotTs);
      var openRun := OpenRun(runId, runScope, clock.runStart);
      if built.Err? || writeError.Some? then
        var failure := if built.Err? then built.failure else writeError.value;
        && r == Err(failure)
        && store.runs == old(store.runs) + [CloseRun(openRun, Failed, clock.runEnd, None, None, Some(failure.message))]
      else
        && r.Ok? && |r.value| == |YearsIn(built.value.rows, CuratedYear)|
        && (forall i :: 0 <= i < |r.value| ==>
              var y := YearsIn(built.value.rows, CuratedYear)[i];
              r.value[i] == Partition(y, CuratedPartitionPath(outputDir, clock.snapshotDate, y),
                                      RowsOfYear(built.value.rows, CuratedYear, y)))
        && store.runs == old(store.runs) + [CloseRun(openRun, Success, clock.runEnd, Some(|built.value.rows|),
                                                     Some(JStr(SnapshotCheckpoint(clock.snapshotDate))), None)]
  {
    ghost var before := store.runs;
    ghost var openRun := OpenRun(runId, runScope, clock.runStart);
    var id := store.StartRun(runScope, runId, clock.runStart);
    ghost var started := store.runs;
    assert started == before + [openRun];
    assert FindLast(started, id) == Some(|started| - 1);
    var built := BuildCuratedFromProcessed(inputs.wbExists, inputs.wbFrames, inputs.envExists,
                                           inputs.envFrames, id, clock.snapshotTs);
    if built.Err? || writeError.Some? {
      var failure := if built.Err? then built.failure else writeError.value;
      var closed := store.EndRun(id, Failed, clock.runEnd, None, None, Some(failure.message));
      ReplaceLast(before, openRun, closed.value);
      return Err(failure);
    }
    assert "year" in built.value.columns;
    var parts := SaveCuratedPartitions(built.value, outputDir, Some(clock.snapshotDate), clock.snapshotDate);
    var closed := store.EndRun(id, Success, clock.runEnd, Some(|built.value.rows|),
                               Some(JStr(SnapshotCheckpoint(clock.snapshotDate))), None);
    ReplaceLast(before, openRun, closed.value);
    return Ok(parts);
  }

  /** Closing the run just appended replaces the last element. */
  lemma ReplaceLast<T>(xs: seq<T>, x: T, y: T)
    ensures (xs + [x])[|xs| := y] == xs + [y]
  {
  }
}
