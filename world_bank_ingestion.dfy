/** RAW ingestion of the World Bank GDP-per-capita indicator: paginated
    fetch, year-window filter driven by a checkpoint watermark, enrichment
    with audit fields and a content hash, and the run bookkeeping. */
module WorldBankIngestion {
  import opened Common
  import opened Ledger

  const WorldBankIndicatorId := "NY.GDP.PCAP.CD"
  const WorldBankCheckpointKey := "last_year_loaded_world_bank"
  const WorldBankDataSource := "world_bank_api"
  const RawOutputDir := "raw/world_bank_gdp"

  /** One World Bank API record, a decoded JSON object. */
  type Record = map<string, Json>

  /** What one page request yields: an HTTP error status, or the decoded body. */
  datatype PageResponse = HttpFailure(message: string) | Body(json: Json)

  datatype Page = Page(metadata: map<string, Json>, records: seq<Record>)

  const UnexpectedResponse := Failure(RuntimeError, "Resposta inesperada da World Bank API")
  const UnexpectedStructure := Failure(RuntimeError, "Estrutura inesperada de resposta da World Bank API")
  const RecordNotAnObject := Failure(AttributeError, "object has no attribute 'get'")
  const BadPageCount := Failure(ValueError, "invalid page count")

  predicate AllObjects(xs: seq<Json>)
  {
    forall i :: 0 <= i < |xs| ==> xs[i].JObj?
  }

  function Objects(xs: seq<Json>): (rs: seq<Record>)
    requires AllObjects(xs)
    ensures |rs| == |xs| && forall i :: 0 <= i < |xs| ==> rs[i] == xs[i].fields
  {
    if xs == [] then [] else [xs[0].fields] + Objects(xs[1..])
  }

  /** `_fetch_indicator_page` after the request: the body must be a
      two-element list `[metadata dict, records list]`. */
  function DecodePage(resp: PageResponse): (r: Result<Page>)
    ensures resp.HttpFailure? ==> r == Err(Failure(HttpError, resp.message))
    ensures resp.Body? && (!resp.json.JArr? || |resp.json.items| != 2) ==> r == Err(UnexpectedResponse)
    ensures (resp.Body? && resp.json.JArr? && |resp.json.items| == 2
             && (!resp.json.items[0].JObj? || !resp.json.items[1].JArr?)) ==> r == Err(UnexpectedStructure)
    ensures r.Ok? <==>
      (resp.Body? && resp.json.JArr? && |resp.json.items| == 2 && resp.json.items[0].JObj?
       && resp.json.items[1].JArr? && AllObjects(resp.json.items[1].items))
    ensures r.Ok? ==>
      && resp.json.items[0] == JObj(r.value.metadata)
      && |r.value.records| == |resp.json.items[1].items|
      && forall i :: 0 <= i < |r.value.records| ==> resp.json.items[1].items[i] == JObj(r.value.records[i])
  {
    match resp
    case HttpFailure(m) => Err(Failure(HttpError, m))
    case Body(j) =>
      if !j.JArr? || |j.items| != 2 then Err(UnexpectedResponse)
      else if !j.items[0].JObj? || !j.items[1].JArr? then Err(UnexpectedStructure)
      else if !AllObjects(j.items[1].items) then Err(RecordNotAnObject)
      else Ok(Page(j.items[0].fields, Objects(j.items[1].items)))
  }

  /** `int(metadata.get("pages", 1))`. */
  function TotalPages(metadata: map<string, Json>): Option<int>
  {
    PyInt(if "pages" in metadata then metadata["pages"] else JInt(1))
  }

  function Prepend(xs: seq<Record>, r: Result<seq<Record>>): Result<seq<Record>>
  {
    match r
    case Ok(ys) => Ok(xs + ys)
    case Err(f) => Err(f)
  }

  /** Records of pages `page + 1` up to `total`, or the first page error. */
  function PagesAfter(fetch: int -> PageResponse, page: int, total: int): Result<seq<Record>>
    decreases total - page
  {
    if page >= total then Ok([])
    else match DecodePage(fetch(page + 1))
      case Err(f) => Err(f)
      case Ok(p) => Prepend(p.records, PagesAfter(fetch, page + 1, total))
  }

  /** The page count announced by page 1, when page 1 decodes. */
  function PageCount(fetch: int -> PageResponse): Option<int>
  {
    match DecodePage(fetch(1))
    case Err(_) => None
    case Ok(first) => TotalPages(first.metadata)
  }

  /** Everything `fetch_all_indicator_records` yields, page by page. */
  function AllIndicatorRecords(fetch: int -> PageResponse): Result<seq<Record>>
  {
    match DecodePage(fetch(1))
    case Err(f) => Err(f)
    case Ok(first) =>
      match TotalPages(first.metadata)
      case None => Err(BadPageCount)
      case Some(total) => Prepend(first.records, PagesAfter(fetch, 1, total))
  }

  /** `fetch_all_indicator_records`: page 1, then pages 2..pages once each in
      order, stopping at the first page that fails. `requested` lists the
      page numbers asked for. */
  method FetchAllIndicatorRecords(fetch: int -> PageResponse)
    returns (r: Result<seq<Record>>, requested: seq<int>)
    ensures r == AllIndicatorRecords(fetch)
    ensures |requested| >= 1 && forall i :: 0 <= i < |requested| ==> requested[i] == i + 1
    ensures r.Ok? ==>
      (PageCount(fetch).Some?
       && |requested| == (if PageCount(fetch).value < 1 then 1 else PageCount(fetch).value))
    ensures forall i :: 0 <= i < |requested| - 1 ==> DecodePage(fetch(requested[i])).Ok?
    ensures r.Err? && |requested| > 1 ==> DecodePage(fetch(|requested|)).Err?
  {
    requested := [1];
    var first := DecodePage(fetch(1));
    if first.Err? {
      return Err(first.failure), requested;
    }
    var total := TotalPages(first.value.metadata);
    if total.None? {
      return Err(BadPageCount), requested;
    }
    var more;
    r, more := FetchPagesAfter(fetch, total.value, first.value.records);
    requested := [1] + more;
  }

  /** The loop of `fetch_all_indicator_records` over pages 2..total, `acc0`
      holding page 1's records; `requested` lists the pages asked for. */
  method FetchPagesAfter(fetch: int -> PageResponse, total: int, acc0: seq<Record>)
    returns (r: Result<seq<Record>>, requested: seq<int>)
    ensures r == Prepend(acc0, PagesAfter(fetch, 1, total))
    ensures forall i :: 0 <= i < |requested| ==> requested[i] == i + 2
    ensures r.Ok? ==> |requested| == (if total < 1 then 0 else total - 1)
    ensures forall i :: 0 <= i < |requested| - 1 ==> DecodePage(fetch(requested[i])).Ok?
    ensures r.Err? ==> |requested| > 0 && DecodePage(fetch(|requested| + 1)).Err?
  {
    requested := [];
    var acc := acc0;
    var page := 1;
    while page < total
      invariant 1 <= page && (page <= total || page == 1)
      invariant |requested| == page - 1 && forall i :: 0 <= i < |requested| ==> requested[i] == i + 2
      invariant forall i :: 0 <= i < |requested| ==> DecodePage(fetch(requested[i])).Ok?
      invariant Prepend(acc, PagesAfter(fetch, page, total)) == Prepend(acc0, PagesAfter(fetch, 1, total))
      decreases total - page
    {
      page := page + 1;
      requested := requested + [page];
      var decoded := DecodePage(fetch(page));
      if decoded.Err? {
        return Err(decoded.failure), requested;
      }
      PrependTwice(acc, decoded.value.records, PagesAfter(fetch, page, total));
      acc := acc + decoded.value.records;
    }
    assert acc + [] == acc;
    r := Ok(acc);
  }

  lemma PrependTwice(xs: seq<Record>, ys: seq<Record>, r: Result<seq<Record>>)
    ensures Prepend(xs, Prepend(ys, r)) == Prepend(xs + ys, r)
  {
    if r.Ok? { assert xs + (ys + r.value) == (xs + ys) + r.value; }
  }

  /** The record's year: its `date` when that is an all-digit string. */
  function YearOf(record: Record): Option<int>
  {
    DigitYear(Get(record, "date"))
  }

  /** `list_indicator_years`: the distinct years present, ascending. */
  method ListIndicatorYears(fetch: int -> PageResponse) returns (r: Result<seq<int>>)
    ensures AllIndicatorRecords(fetch).Err? ==> r == Err(AllIndicatorRecords(fetch).failure)
    ensures r.Ok? ==> AllIndicatorRecords(fetch).Ok? && StrictlyIncreasing(r.value)
    ensures r.Ok? ==> forall y :: y in r.value <==>
      exists i :: 0 <= i < |AllIndicatorRecords(fetch).value|
        && YearOf(AllIndicatorRecords(fetch).value[i]) == Some(y)
    ensures AllIndicatorRecords(fetch).Ok? ==> r.Ok?
  {
    var all, _ := FetchAllIndicatorRecords(fetch);
    if all.Err? {
      return Err(all.failure);
    }
    var seen := CollectYears(all.value);
    r := Ok(DistinctSorted(seen));
  }

  /** The loop of `list_indicator_years`: every record's year, repeats kept. */
  method CollectYears(records: seq<Record>) returns (seen: seq<int>)
    ensures forall y :: y in seen <==> exists j :: 0 <= j < |records| && YearOf(records[j]) == Some(y)
  {
    seen := [];
    for i := 0 to |records|
      invariant forall y :: y in seen <==> exists j :: 0 <= j < i && YearOf(records[j]) == Some(y)
    {
      YearsSeenSnoc(records, seen, i);
      match YearOf(records[i]) {
        case Some(y) => seen := seen + [y];
        case None =>
      }
    }
  }

  lemma YearsSeenSnoc(records: seq<Record>, seen: seq<int>, i: nat)
    requires i < |records|
    requires forall y :: y in seen <==> exists j :: 0 <= j < i && YearOf(records[j]) == Some(y)
    ensures YearOf(records[i]).Some? ==> forall y :: y in seen + [YearOf(records[i]).value] <==>
      exists j :: 0 <= j < i + 1 && YearOf(records[j]) == Some(y)
    ensures YearOf(records[i]).None? ==> forall y :: y in seen <==>
      exists j :: 0 <= j < i + 1 && YearOf(records[j]) == Some(y)
  {
  }

  /** `compute_record_hash`: SHA-1 of the sorted-key JSON of the record. */
  function ComputeRecordHash(codec: Codec, record: Record): string
  {
    codec.sha1Hex(codec.dumpsSorted(JObj(record)))
  }

  /** The year window of `_filter_records_by_years`. */
  predicate InYearRange(minExclusive: Option<int>, maxInclusive: Option<int>, record: Record)
  {
    match YearOf(record)
    case None => false
    case Some(y) =>
      (minExclusive.None? || y > minExclusive.value)
      && (maxInclusive.None? || y <= maxInclusive.value)
  }

  function YearWindow(minExclusive: Option<int>, maxInclusive: Option<int>): Record -> bool
  {
    (r: Record) => InYearRange(minExclusive, maxInclusive, r)
  }

  /** `_filter_records_by_years`: the records with a digit year inside the
      window, in their original order. */
  method FilterRecordsByYears(records: seq<Record>, minExclusive: Option<int>, maxInclusive: Option<int>)
    returns (filtered: seq<Record>)
    ensures filtered == Filter(records, YearWindow(minExclusive, maxInclusive))
  {
    filtered := [];
    for i := 0 to |records|
      invariant filtered == Filter(records[..i], YearWindow(minExclusive, maxInclusive))
    {
      assert records[..i + 1][..i] == records[..i];
      if InYearRange(minExclusive, maxInclusive, records[i]) {
        filtered := filtered + [records[i]];
      }
    }
    assert records[..|records|] == records;
  }

  /** Exactly the records inside the window are kept. */
  lemma FilterKeepsExactlyWindow(records: seq<Record>, minExclusive: Option<int>,
                                 maxInclusive: Option<int>, rec: Record)
    ensures rec in Filter(records, YearWindow(minExclusive, maxInclusive)) <==>
      rec in records && YearOf(rec).Some?
      && (minExclusive.None? || YearOf(rec).value > minExclusive.value)
      && (maxInclusive.None? || YearOf(rec).value <= maxInclusive.value)
  {
  }

  /** The watermark is exclusive: with checkpoint 2020 a 2020 record is
      dropped and a 2021 record kept. */
  lemma CheckpointIsExclusive()
    ensures !InYearRange(Some(2020), None, map["date" := JStr("2020")])
    ensures InYearRange(Some(2020), None, map["date" := JStr("2021")])
  {
    assert DigitsValue("2020") == 2020 by {
      assert "2020"[..3] == "202" && "202"[..2] == "20" && "20"[..1] == "2";
    }
    assert DigitsValue("2021") == 2021 by {
      assert "2021"[..3] == "202" && "202"[..2] == "20" && "20"[..1] == "2";
    }
  }

  /** The checkpoint as `int(str(value))`, absent when missing or unparseable. */
  function ParseCheckpoint(stored: Json): (r: Option<int>)
    ensures stored.JNull? ==> r.None?
    ensures stored.JInt? ==> r == Some(stored.i)
  {
    if stored.JNull? then None
    else if stored.JInt? then
      ParseIntOfIntToString(stored.i);
      ParseInt(PyStr(stored))
    else ParseInt(PyStr(stored))
  }

  /** A stored boolean, float, list or dict never parses as a year. */
  lemma NonIntegerCheckpointIgnored(stored: Json)
    requires stored.JBool? || stored.JFloat? || stored.JArr? || stored.JObj?
    ensures ParseCheckpoint(stored).None?
  {
    var t := PyStr(stored);
    assert |t| > 0 && !IsDigit(t[0]) && t[0] != '-' && t[0] != '+';
    assert !IsSpace(t[0]) && !IsSpace(t[|t| - 1]);
    ParseIntRejectsWord(t);
  }

  /** A checkpoint written as `str(year)` is read back as that year. */
  lemma CheckpointRoundTrip(year: int)
    ensures ParseCheckpoint(JStr(IntToString(year))) == Some(year)
  {
    ParseIntOfIntToString(year);
  }

  /** The effective exclusive lower bound from the checkpoint and `min_year`. */
  function LowerBound(checkpoint: Option<int>, minYear: Option<int>): (b: Option<int>)
    ensures checkpoint.Some? && minYear.Some? ==>
      b == Some(if checkpoint.value >= minYear.value - 1 then checkpoint.value else minYear.value - 1)
    ensures checkpoint.None? && minYear.Some? ==> b == Some(minYear.value - 1)
    ensures checkpoint.Some? && minYear.None? ==> b == checkpoint
    ensures checkpoint.None? && minYear.None? ==> b.None?
  {
    if minYear.Some? && (checkpoint.None? || minYear.value > checkpoint.value) then Some(minYear.value - 1)
    else checkpoint
  }

  /** `max_ingested_year` after the enrichment loop over `records`. */
  function MaxYear(records: seq<Record>): Option<int>
  {
    if records == [] then None
    else
      var prev := MaxYear(records[..|records| - 1]);
      var y := YearOf(records[|records| - 1]);
      if y.Some? && (prev.None? || y.value > prev.value) then y else prev
  }

  /** `max_ingested_year` is absent iff no record has a year, and otherwise
      is a year of the batch that no other year exceeds. */
  lemma {:induction false} MaxYearIsMaximum(records: seq<Record>)
    ensures var m := MaxYear(records);
      && (m.None? <==> forall i :: 0 <= i < |records| ==> YearOf(records[i]).None?)
      && (m.Some? ==> exists i :: 0 <= i < |records| && YearOf(records[i]) == m)
      && (m.Some? ==> forall i :: 0 <= i < |records| && YearOf(records[i]).Some? ==>
            YearOf(records[i]).value <= m.value)
  {
    if records != [] {
      var init := records[..|records| - 1];
      MaxYearIsMaximum(init);
      assert forall i :: 0 <= i < |init| ==> init[i] == records[i];
      var m := MaxYear(records);
      var prev := MaxYear(init);
      if m.Some? && m == prev {
        var i :| 0 <= i < |init| && YearOf(init[i]) == m;
        assert YearOf(records[i]) == m;
      }
    }
  }

  /** The new watermark does not depend on the order of the batch. */
  lemma MaxYearOrderIndependent(a: seq<Record>, b: seq<Record>)
    requires multiset(a) == multiset(b)
    ensures MaxYear(a) == MaxYear(b)
  {
    MaxYearBelow(a, b);
    MaxYearBelow(b, a);
  }

  /** The watermark of a batch is reached in any reordering of it. */
  lemma MaxYearBelow(a: seq<Record>, b: seq<Record>)
    requires multiset(a) == multiset(b)
    ensures MaxYear(a).Some? ==> MaxYear(b).Some? && MaxYear(a).value <= MaxYear(b).value
  {
    if MaxYear(a).Some? {
      MaxYearIsMaximum(a);
      var i :| 0 <= i < |a| && YearOf(a[i]) == MaxYear(a);
      assert a[i] in multiset(b);
      var j :| 0 <= j < |b| && b[j] == a[i];
      MaxYearIsMaximum(b);
      assert YearOf(b[j]).Some?;
    }
  }

  /** Every filtered record has a year, so a watermark exists exactly when
      the batch is non-empty. */
  lemma WatermarkIffNonEmpty(records: seq<Record>, minExclusive: Option<int>, maxInclusive: Option<int>)
    ensures var batch := Filter(records, YearWindow(minExclusive, maxInclusive));
      MaxYear(batch).Some? <==> batch != []
  {
    var batch := Filter(records, YearWindow(minExclusive, maxInclusive));
    MaxYearIsMaximum(batch);
    if batch != [] {
      assert batch[0] in batch;
      assert YearOf(batch[0]).Some?;
    }
  }

  /** The watermark only moves forward: the new checkpoint exceeds the old
      one (and `min_year - 1`). */
  lemma WatermarkAdvances(records: seq<Record>, checkpoint: Option<int>, minYear: Option<int>,
                          maxYear: Option<int>)
    ensures var bound := LowerBound(checkpoint, minYear);
      var m := MaxYear(Filter(records, YearWindow(bound, maxYear)));
      m.Some? && checkpoint.Some? ==> m.value > checkpoint.value
  {
    var bound := LowerBound(checkpoint, minYear);
    var batch := Filter(records, YearWindow(bound, maxYear));
    var m := MaxYear(batch);
    MaxYearIsMaximum(batch);
    if m.Some? && checkpoint.Some? {
      var i :| 0 <= i < |batch| && YearOf(batch[i]) == m;
      assert batch[i] in batch;
    }
  }

  /** Re-running over the same records with the saved watermark ingests
      nothing. */
  lemma RerunIngestsNothing(records: seq<Record>, checkpoint: Option<int>, minYear: Option<int>,
                            maxYear: Option<int>)
    ensures var batch := Filter(records, YearWindow(LowerBound(checkpoint, minYear), maxYear));
      var m := MaxYear(batch);
      m.Some? ==> Filter(records, YearWindow(LowerBound(m, minYear), maxYear)) == []
  {
    var bound := LowerBound(checkpoint, minYear);
    var batch := Filter(records, YearWindow(bound, maxYear));
    var m := MaxYear(batch);
    MaxYearIsMaximum(batch);
    if m.Some? {
      var i :| 0 <= i < |batch| && YearOf(batch[i]) == m;
      assert batch[i] in batch;
      // the batch maximum lies above the batch's own lower bound
      assert bound.None? || m.value > bound.value;
      var next := LowerBound(m, minYear);
      forall rec | rec in records ensures !InYearRange(next, maxYear, rec) {
        if InYearRange(bound, maxYear, rec) {
          assert rec in batch;
        }
      }
      FilterNone(records, YearWindow(next, maxYear));
    }
  }

  /** The six audit fields every RAW record receives. */
  const AuditKeys: set<string> :=
    {"ingestion_run_id", "ingestion_ts", "data_source", "raw_payload", "record_hash", "raw_file_path"}

  /** One enriched record: a copy of the original plus the audit fields. */
  function Enrich(codec: Codec, record: Record, runId: string, ingestionTs: string, rawFilePath: string)
    : Record
  {
    record["ingestion_run_id" := JStr(runId)]["ingestion_ts" := JStr(ingestionTs)]
          ["data_source" := JStr(WorldBankDataSource)]
          ["raw_payload" := JStr(codec.dumpsSorted(JObj(record)))]
          ["record_hash" := JStr(ComputeRecordHash(codec, record))]
          ["raw_file_path" := JStr(rawFilePath)]
  }

  /** Every original field survives unless it is an audit field, the audit
      fields are all set, and payload and hash encode the original record. */
  lemma EnrichFields(codec: Codec, record: Record, runId: string, ingestionTs: string, rawFilePath: string)
    ensures var e := Enrich(codec, record, runId, ingestionTs, rawFilePath);
      && e.Keys == record.Keys + AuditKeys
      && (forall k :: k in record && k !in AuditKeys ==> e[k] == record[k])
      && e["ingestion_run_id"] == JStr(runId) && e["ingestion_ts"] == JStr(ingestionTs)
      && e["data_source"] == JStr(WorldBankDataSource) && e["raw_file_path"] == JStr(rawFilePath)
      && e["raw_payload"] == JStr(codec.dumpsSorted(JObj(record)))
      && e["record_hash"] == JStr(ComputeRecordHash(codec, record))
  {
  }

  /** Equal originals get equal payloads and hashes, whatever run enriched them. */
  lemma HashIgnoresAudit(codec: Codec, record: Record, run1: string, ts1: string, path1: string,
                         run2: string, ts2: string, path2: string)
    ensures Enrich(codec, record, run1, ts1, path1)["record_hash"]
         == Enrich(codec, record, run2, ts2, path2)["record_hash"]
    ensures Enrich(codec, record, run1, ts1, path1)["raw_payload"]
         == Enrich(codec, record, run2, ts2, path2)["raw_payload"]
  {
    EnrichFields(codec, record, run1, ts1, path1);
    EnrichFields(codec, record, run2, ts2, path2);
  }

  /** The enrichment loop: one enriched record per input, and the largest year. */
  method EnrichRecords(codec: Codec, records: seq<Record>, runId: string, ingestionTs: string,
                       rawFilePath: string)
    returns (enriched: seq<Record>, maxYear: Option<int>)
    ensures |enriched| == |records|
    ensures forall i :: 0 <= i < |records| ==>
      enriched[i] == Enrich(codec, records[i], runId, ingestionTs, rawFilePath)
    ensures maxYear == MaxYear(records)
  {
    enriched := [];
    maxYear := None;
    for i := 0 to |records|
      invariant |enriched| == i
      invariant forall j :: 0 <= j < i ==> enriched[j] == Enrich(codec, records[j], runId, ingestionTs, rawFilePath)
      invariant maxYear == MaxYear(records[..i])
    {
      assert records[..i + 1][..i] == records[..i];
      var year := YearOf(records[i]);
      if year.Some? {
        if maxYear.None? || year.value > maxYear.value {
          maxYear := year;
        }
      }
      enriched := enriched + [Enrich(codec, records[i], runId, ingestionTs, rawFilePath)];
    }
    assert records[..|records|] == records;
  }

  /** Clock readings the stage takes: run start, ingestion time, the file
      name stamp (`%Y%m%dT%H%M%SZ`) and run end. */
  datatype Clock = Clock(runStart: string, ingestion: string, fileStamp: string, runEnd: string)

  /** The JSONL file written: its path and its lines, in order. */
  datatype RawOutput = RawOutput(path: string, lines: seq<Record>)

  function RawFilePath(fileStamp: string): string
  {
    RawOutputDir + "/world_bank_gdp_raw_" + fileStamp + ".jsonl"
  }

  function CheckpointText(year: Option<int>): Option<Json>
  {
    if year.Some? then Some(JStr(IntToString(year.value))) else None
  }

  /** `ingest_world_bank_gdp_raw` over the in-memory ledger. `writeError`
      is the failure of the JSONL write, if it fails. */
  method IngestWorldBankGdpRaw(store: LocalStore, codec: Codec, fetch: int -> PageResponse,
                               runScope: string, checkpointKey: string,
                               minYear: Option<int>, maxYear: Option<int>,
                               runId: string, clock: Clock, writeError: Option<Failure>)
    returns (r: Result<RawOutput>)
    modifies store
    ensures var prior := ParseCheckpoint(Lookup(old(store.checkpoints), checkpointKey, JNull));
      var all := AllIndicatorRecords(fetch);
      var openRun := OpenRun(runId, runScope, clock.runStart);
      if all.Err? || writeError.Some? then
        var failure := if all.Err? then all.failure else writeError.value;
        && r == Err(failure)
        && store.checkpoints == old(store.checkpoints)
        && store.runs == old(store.runs)
             + [CloseRun(openRun, Failed, clock.runEnd, None, None, Some(failure.message))]
      else
        var batch := Filter(all.value, YearWindow(LowerBound(prior, minYear), maxYear));
        var newMark := MaxYear(batch);
        var finalMark := if newMark.Some? then newMark else prior;
        var path := RawFilePath(clock.fileStamp);
        && r.Ok? && r.value.path == path && |r.value.lines| == |batch|
        && (forall i :: 0 <= i < |batch| ==>
              r.value.lines[i] == Enrich(codec, batch[i], runId, clock.ingestion, path))
        && store.checkpoints == (if newMark.Some? then
             old(store.checkpoints)[checkpointKey := JStr(IntToString(newMark.value))]
           else old(store.checkpoints))
        && store.runs == old(store.runs)
             + [CloseRun(openRun, Success, clock.runEnd, Some(|batch|), CheckpointText(finalMark), None)]
  {
    var id := store.StartRun(runScope, runId, clock.runStart);
    ghost var before := old(store.runs);
    ghost var openRun := OpenRun(runId, runScope, clock.runStart);
    var stored := store.LoadCheckpoint(checkpointKey, JNull);
    var prior := ParseCheckpoint(stored);
    var bound := LowerBound(prior, minYear);
    var all, _ := FetchAllIndicatorRecords(fetch);
    if all.Err? || writeError.Some? {
      var failure := if all.Err? then all.failure else writeError.value;
      CloseIngestRun(store, before, id, openRun, Failed, clock.runEnd, None, None, Some(failure.message));
      return Err(failure);
    }
    var batch := FilterRecordsByYears(all.value, bound, maxYear);
    var path := RawFilePath(clock.fileStamp);
    var enriched, newMark := EnrichRecords(codec, batch, id, clock.ingestion, path);
    var finalMark := prior;
    if newMark.Some? {
      finalMark := newMark;
      store.SaveCheckpoint(checkpointKey, JStr(IntToString(newMark.value)));
    }
    CloseIngestRun(store, before, id, openRun, Success, clock.runEnd, Some(|enriched|), CheckpointText(finalMark), None);
    return Ok(RawOutput(path, enriched));
  }

  /** `end_run` on the run this ingestion opened, the last in the ledger. */
  method CloseIngestRun(store: LocalStore, ghost before: seq<RunRecord>, id: string, ghost openRun: RunRecord,
                        status: string, now: string, rows: Option<int>, checkpoint: Option<Json>, error: Option<string>)
    requires store.runs == before + [openRun] && openRun.ingestionRunId == id
    modifies store
    ensures store.checkpoints == old(store.checkpoints)
    ensures store.runs == before + [CloseRun(openRun, status, now, rows, checkpoint, error)]
  {
    assert FindLast(store.runs, id) == Some(|before|);
    var closed := store.EndRun(id, status, now, rows, checkpoint, error);
  }
}
