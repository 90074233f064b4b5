/** The PROCESSED layer for World Bank GDP per capita: each RAW JSONL
    record becomes one typed row (or is dropped), and the rows are written
    as one partition per year. */
module WorldBankGdpProcessed {
  import opened Common
  import opened WorldBankIngestion

  const ProcessedOutputDir := "processed/world_bank_gdp"
  const PartitionFileName := "processed_worldbank_gdp_per_capita.parquet"

  /** One PROCESSED row. The indicator fields are copied as they are. */
  datatype GdpRow = GdpRow(
    countryCode: string,
    countryName: string,
    year: int,
    gdpPerCapitaUsd: Option<real>,
    indicatorId: Json,
    indicatorName: Json,
    ingestionRunId: Option<string>,
    ingestionTs: Option<string>,
    dataSource: string)

  const GdpColumns: seq<string> := [
    "country_code", "country_name", "year", "gdp_per_capita_usd", "indicator_id",
    "indicator_name", "ingestion_run_id", "ingestion_ts", "data_source"]

  /** A PROCESSED table: its column names and its rows. */
  datatype GdpTable = GdpTable(columns: seq<string>, rows: seq<GdpRow>)

  /** The minimum keys a record needs to be kept; `country` must be usable
      as a dict. */
  predicate HasKeys(record: Record, country: map<string, Json>)
  {
    Truthy(Get(record, "countryiso3code")) && Truthy(Get(country, "value"))
    && YearOf(record).Some?
  }

  /** `float(value)` unless the value is None; a failing conversion gives None. */
  function GdpValue(v: Json): (r: Option<real>)
    ensures v.JNull? ==> r.None?
    ensures v.JInt? ==> r == Some(v.i as real)
    ensures v.JFloat? ==> r == Some(v.r)
    ensures v.JArr? || v.JObj? ==> r.None?
  {
    if v.JNull? then None else PyFloat(v)
  }

  /** `_transform_raw_record`: `Ok(None)` drops the record; `Err` is the
      AttributeError raised when `country` (or, for a kept record,
      `indicator`) is a truthy non-dict. */
  function TransformRawRecord(record: Record): (r: Result<Option<GdpRow>>)
    ensures AsDictOrEmpty(Get(record, "country")).None? ==> r.Err?
    ensures AsDictOrEmpty(Get(record, "country")).Some? ==>
      var country := AsDictOrEmpty(Get(record, "country")).value;
      && (!HasKeys(record, country) ==> r == Ok(None))
      && (HasKeys(record, country) ==>
            (r.Ok? <==> AsDictOrEmpty(Get(record, "indicator")).Some?))
  {
    match AsDictOrEmpty(Get(record, "country"))
    case None => Err(Failure(AttributeError, "object has no attribute 'get'"))
    case Some(country) =>
      if !HasKeys(record, country) then Ok(None)
      else match AsDictOrEmpty(Get(record, "indicator"))
        case None => Err(Failure(AttributeError, "object has no attribute 'get'"))
        case Some(indicator) =>
          var ds := Get(record, "data_source");
          Ok(Some(GdpRow(
            countryCode := PyStr(Get(record, "countryiso3code")),
            countryName := PyStr(Get(country, "value")),
            year := YearOf(record).value,
            gdpPerCapitaUsd := GdpValue(Get(record, "value")),
            indicatorId := Get(indicator, "id"),
            indicatorName := Get(indicator, "value"),
            ingestionRunId := OptionalText(Get(record, "ingestion_run_id")),
            ingestionTs := OptionalText(Get(record, "ingestion_ts")),
            dataSource := if Truthy(ds) then PyStr(ds) else WorldBankDataSource)))
  }

  /** A truthy value never prints as the empty string. */
  lemma TruthyTextNonEmpty(v: Json)
    requires Truthy(v)
    ensures PyStr(v) != ""
  {
    if v.JInt? {
      assert IntToString(v.i) != "" by {
        if v.i >= 0 { assert |NatToString(v.i)| > 0; }
      }
    }
  }

  /** What a kept row carries: non-empty keys, the digit year, the
      converted value (never an exception for a bad value), and the
      `world_bank_api` fallback for a missing or empty data source. */
  lemma TransformedRowFields(record: Record)
    requires TransformRawRecord(record).Ok? && TransformRawRecord(record).value.Some?
    ensures var row := TransformRawRecord(record).value.value;
      && row.countryCode != "" && row.countryName != ""
      && Some(row.year) == DigitYear(Get(record, "date")) && row.year >= 0
      && row.countryCode == PyStr(Get(record, "countryiso3code"))
      && row.gdpPerCapitaUsd == GdpValue(Get(record, "value"))
      && (!Truthy(Get(record, "data_source")) ==> row.dataSource == "world_bank_api")
      && row.dataSource != ""
  {
    var country := AsDictOrEmpty(Get(record, "country")).value;
    TruthyTextNonEmpty(Get(record, "countryiso3code"));
    TruthyTextNonEmpty(Get(country, "value"));
    if Truthy(Get(record, "data_source")) { TruthyTextNonEmpty(Get(record, "data_source")); }
  }

  /** A record without country code, country name or digit year is dropped,
      whatever its indicator holds. */
  lemma MissingKeyDropped(record: Record)
    requires AsDictOrEmpty(Get(record, "country")).Some?
    requires !Truthy(Get(record, "countryiso3code"))
          || !Truthy(Get(AsDictOrEmpty(Get(record, "country")).value, "value"))
          || !(Get(record, "date").JStr? && AllDigits(Get(record, "date").s))
    ensures TransformRawRecord(record) == Ok(None)
  {
  }

  /** One JSONL line: blank lines are skipped, others are decoded
      (`decode` returns None where `json.loads` raises) and transformed. */
  function LineRows(line: string, decode: string -> Option<Json>): Result<seq<GdpRow>>
  {
    var t := Strip(line);
    if t == "" then Ok([])
    else match decode(t)
      case None => Err(Failure(ValueError, "Expecting value"))
      case Some(j) =>
        if !j.JObj? then Err(Failure(AttributeError, "object has no attribute 'get'"))
        else match TransformRawRecord(j.fields)
          case Err(f) => Err(f)
          case Ok(None) => Ok([])
          case Ok(Some(row)) => Ok([row])
  }

  function LineStep(decode: string -> Option<Json>): string -> Result<seq<GdpRow>>
  {
    (line: string) => LineRows(line, decode)
  }

  /** Every built row comes from a kept record, so has non-empty keys. */
  lemma {:induction false} BuiltRowsHaveKeys(lines: seq<string>, decode: string -> Option<Json>)
    requires Collect(lines, LineStep(decode)).Ok?
    ensures forall row :: row in Collect(lines, LineStep(decode)).value ==>
      row.countryCode != "" && row.countryName != "" && row.year >= 0
  {
    if lines != [] {
      BuiltRowsHaveKeys(lines[..|lines| - 1], decode);
      var t := Strip(lines[|lines| - 1]);
      if t != "" && decode(t).Some? && decode(t).value.JObj? {
        var rec := decode(t).value.fields;
        if TransformRawRecord(rec).Ok? && TransformRawRecord(rec).value.Some? {
          TransformedRowFields(rec);
        }
      }
    }
  }

  /** `build_world_bank_gdp_dataframe` over the file's lines: the kept rows
      in file order under the nine fixed columns (also when none is kept),
      or the first exception. */
  method BuildWorldBankGdpDataframe(lines: seq<string>, decode: string -> Option<Json>)
    returns (r: Result<GdpTable>)
    ensures Collect(lines, LineStep(decode)).Err? ==> r == Err(Collect(lines, LineStep(decode)).failure)
    ensures Collect(lines, LineStep(decode)).Ok? ==> r == Ok(GdpTable(GdpColumns, Collect(lines, LineStep(decode)).value))
  {
    var rows: seq<GdpRow> := [];
    for i := 0 to |lines|
      invariant Collect(lines[..i], LineStep(decode)) == Ok(rows)
    {
      assert lines[..i + 1][..i] == lines[..i];
      var more := LineRows(lines[i], decode);
      if more.Err? {
        assert Collect(lines[..i + 1], LineStep(decode)) == Err(more.failure);
        CollectPrefixError(lines, i + 1, LineStep(decode));
        return Err(more.failure);
      }
      rows := rows + more.value;
    }
    assert lines[..|lines|] == lines;
    return Ok(GdpTable(GdpColumns, rows));
  }

  function RowYear(row: GdpRow): Option<int>
  {
    Some(row.year)
  }

  function PartitionPath(outputDir: string, year: int): string
  {
    outputDir + "/year=" + IntToString(year) + "/" + PartitionFileName
  }

  /** `save_world_bank_gdp_parquet_partitions`: one file per distinct year
      holding that year's rows; an empty table writes nothing. */
  method SaveWorldBankGdpParquetPartitions(table: GdpTable, outputDir: string)
    returns (parts: seq<Partition<GdpRow>>)
    ensures table.rows == [] || "year" !in table.columns ==> parts == []
    ensures "year" in table.columns ==> |parts| == |YearsIn(table.rows, RowYear)|
    ensures "year" in table.columns ==> forall i :: 0 <= i < |parts| ==>
      var y := YearsIn(table.rows, RowYear)[i];
      parts[i] == Partition(y, PartitionPath(outputDir, y), RowsOfYear(table.rows, RowYear, y))
  {
    if table.rows == [] || "year" !in table.columns {
      return [];
    }
    parts := PartitionByYear(table.rows, RowYear, (y: int) => PartitionPath(outputDir, y));
  }

  /** `process_world_bank_gdp_raw_file`: the table built from the RAW file's
      lines, saved as one partition per distinct year; a failure while
      building is passed on and writes nothing. */
  method ProcessWorldBankGdpRawFile(lines: seq<string>, decode: string -> Option<Json>, outputDir: string)
    returns (r: Result<seq<Partition<GdpRow>>>)
    ensures Collect(lines, LineStep(decode)).Err? ==> r == Err(Collect(lines, LineStep(decode)).failure)
    ensures Collect(lines, LineStep(decode)).Ok? ==>
      var rows := Collect(lines, LineStep(decode)).value;
      && r.Ok? && |r.value| == |YearsIn(rows, RowYear)|
      && forall i :: 0 <= i < |r.value| ==>
           var y := YearsIn(rows, RowYear)[i];
           r.value[i] == Partition(y, PartitionPath(outputDir, y), RowsOfYear(rows, RowYear, y))
  {
    var table := BuildWorldBankGdpDataframe(lines, decode);
    if table.Err? {
      return Err(table.failure);
    }
    assert "year" in table.value.columns;
    var parts := SaveWorldBankGdpParquetPartitions(table.value, outputDir);
    return Ok(parts);
  }
}
