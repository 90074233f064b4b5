/** The older CSV ingestion path: a dataset described in the registry is
    fetched from the World Bank API (paginated JSON) or from the Our World
    in Data CSV, turned into rows of country code, country name, year and
    one value column, and written as CSV under the output directory. HTTP
    and JSON decoding are a function from URL to the decoded body (or the
    exception raised); the CSV download is a function from URL to the
    records `csv.DictReader` yields, each a map from column to text with
    missing trailing columns absent. */
module LegacyIngestion {
  import opened Common
  import opened Models

  type Row = map<string, Json>

  /** A CSV record as `csv.DictReader` yields it. */
  type CsvRecord = map<string, string>

  const DefaultOutputDir := "data/raw"

  // ---------------------------------------------------------------------
  // `_iter_world_bank_pages`

  /** The request URL: `urlencode` of `format`, `per_page` and `page`,
      in that order. */
  function PageUrl(baseUrl: string, page: nat): string
  {
    baseUrl + "?format=json&per_page=1000&page=" + NatToString(page)
  }

  /** Pages are told apart by their URLs. */
  lemma PageUrlInjective(baseUrl: string, p: nat, q: nat)
    requires PageUrl(baseUrl, p) == PageUrl(baseUrl, q)
    ensures p == q
  {
    var prefix := baseUrl + "?format=json&per_page=1000&page=";
    assert PageUrl(baseUrl, p)[|prefix|..] == NatToString(p);
    assert PageUrl(baseUrl, q)[|prefix|..] == NatToString(q);
    DigitsValueOfNatToString(p);
    DigitsValueOfNatToString(q);
  }

  const NoGetAttribute := Failure(AttributeError, "object has no attribute 'get'")
  const NotComparable := Failure(TypeError, "'<=' not supported between instances of 'int' and the page count")
  const NotIterable := Failure(TypeError, "object is not iterable")

  /** The largest page number `page <= total_pages` admits, or None when
      the comparison raises TypeError. */
  function PageBound(total: Json): Option<int>
  {
    match total
    case JInt(n) => Some(n)
    case JFloat(r) => Some(r.Floor)
    case JBool(b) => Some(if b then 1 else 0)
    case _ => None
  }

  /** A body the loop accepts: a two-element list. */
  predicate WellFormed(payload: Json)
  {
    payload.JArr? && |payload.items| == 2
  }

  /** `data or []`. */
  function DataOrEmpty(data: Json): Json
  {
    if Truthy(data) then data else JArr([])
  }

  /** What the generator yields, how many requests it made and the
      exception that ended it, if any. */
  datatype PageRun = PageRun(pages: seq<Json>, requested: nat, failure: Option<Failure>)

  function Yield(data: Json, rest: PageRun): PageRun
  {
    PageRun([DataOrEmpty(data)] + rest.pages, rest.requested + 1, rest.failure)
  }

  /** The pages from `page` on once the count `total` is known. */
  function LaterPages(baseUrl: string, fetch: string -> Result<Json>, page: nat, total: Json): PageRun
    decreases match PageBound(total) case Some(b) => b - page case None => 0
  {
    match PageBound(total)
    case None => PageRun([], 0, Some(NotComparable))
    case Some(bound) =>
      if page > bound then PageRun([], 0, None)
      else match fetch(PageUrl(baseUrl, page))
        case Err(f) => PageRun([], 1, Some(f))
        case Ok(payload) =>
          if !WellFormed(payload) then PageRun([], 1, None)
          else Yield(payload.items[1], LaterPages(baseUrl, fetch, page + 1, total))
  }

  /** `_iter_world_bank_pages`, spec form: page 1 fixes the page count
      (`pages` of its metadata, 1 when absent or null). */
  function WorldBankPages(baseUrl: string, fetch: string -> Result<Json>): PageRun
  {
    match fetch(PageUrl(baseUrl, 1))
    case Err(f) => PageRun([], 1, Some(f))
    case Ok(payload) =>
      if !WellFormed(payload) then PageRun([], 1, None)
      else if !payload.items[0].JObj? then PageRun([], 1, Some(NoGetAttribute))
      else
        Yield(payload.items[1], LaterPages(baseUrl, fetch, 2, PageCount(payload.items[0].fields)))
  }

  /** `metadata.get("pages", 1)`, with a null count read like a missing
      one. As written, a null count leaves `total_pages` at None, so the
      loop goes on and re-reads the count from every later page; see
      PagesAsWritten. */
  function PageCount(meta: map<string, Json>): (r: Json)
    ensures !r.JNull?
    ensures "pages" in meta && !meta["pages"].JNull? ==> r == meta["pages"]
  {
    if "pages" in meta && !meta["pages"].JNull? then meta["pages"] else JInt(1)
  }

  /** The loop as written, from `page` on, where `total` is `total_pages`
      and JNull stands for None: while it is None, each page's metadata is
      read again. Such a run need not end, so it is followed for at most
      `limit` pages; None means it was still going, with no page count,
      after page `limit`. */
  function PagesAsWritten(baseUrl: string, fetch: string -> Result<Json>, page: nat, total: Json, limit: nat): Option<PageRun>
    decreases if total.JNull? then 1 else 0,
      if total.JNull? then limit - page else match PageBound(total) case Some(b) => b - page case None => 0
  {
    if total.JNull? && page > limit then None
    else if !total.JNull? && PageBound(total).None? then Some(PageRun([], 0, Some(NotComparable)))
    else if !total.JNull? && page > PageBound(total).value then Some(PageRun([], 0, None))
    else match fetch(PageUrl(baseUrl, page))
      case Err(f) => Some(PageRun([], 1, Some(f)))
      case Ok(payload) =>
        if !WellFormed(payload) then Some(PageRun([], 1, None))
        else if total.JNull? && !payload.items[0].JObj? then Some(PageRun([], 1, Some(NoGetAttribute)))
        else
          var next := if !total.JNull? then total
                      else if "pages" in payload.items[0].fields then payload.items[0].fields["pages"]
                      else JInt(1);
          match PagesAsWritten(baseUrl, fetch, page + 1, next, limit)
          case None => None
          case Some(rest) => Some(Yield(payload.items[1], rest))
  }

  /** A page whose metadata gives a null page count, and no data. */
  const NullCountPage := JArr([JObj(map["pages" := JNull]), JArr([])])

  /** As written, a server that answers every page with a null count is
      paged without end: however many pages are followed, the run has not
      finished. */
  lemma {:induction false} NullCountNeverEnds(baseUrl: string, page: nat, limit: nat)
    ensures PagesAsWritten(baseUrl, _ => Ok(NullCountPage), page, JNull, limit).None?
    decreases limit - page
  {
    var fetch: string -> Result<Json> := _ => Ok(NullCountPage);
    if page <= limit {
      assert fetch(PageUrl(baseUrl, page)) == Ok(NullCountPage);
      assert NullCountPage.items[0].fields["pages"] == JNull;
      NullCountNeverEnds(baseUrl, page + 1, limit);
    }
  }

  /** Once the page count is known, the loop as written is the reference
      definition, whatever the limit. */
  lemma {:induction false} KnownCountAsWritten(baseUrl: string, fetch: string -> Result<Json>, page: nat, total: Json, limit: nat)
    requires !total.JNull?
    ensures PagesAsWritten(baseUrl, fetch, page, total, limit) == Some(LaterPages(baseUrl, fetch, page, total))
    decreases match PageBound(total) case Some(b) => b - page case None => 0
  {
    match PageBound(total)
    case None =>
    case Some(bound) =>
      if page <= bound {
        KnownCountAsWritten(baseUrl, fetch, page + 1, total, limit);
      }
  }

  /** Read as intended, a null page count on page 1 means that page alone:
      the run ends after one request, yielding its data, with no error. */
  lemma NullCountOnePage(baseUrl: string, fetch: string -> Result<Json>)
    requires var first := fetch(PageUrl(baseUrl, 1));
      first.Ok? && WellFormed(first.value) && first.value.items[0].JObj?
      && "pages" in first.value.items[0].fields && first.value.items[0].fields["pages"].JNull?
    ensures WorldBankPages(baseUrl, fetch)
      == PageRun([DataOrEmpty(fetch(PageUrl(baseUrl, 1)).value.items[1])], 1, None)
  {
    var first := fetch(PageUrl(baseUrl, 1));
    assert PageCount(first.value.items[0].fields) == JInt(1);
  }

  /** The corrected reading changes nothing unless page 1 is well formed
      and its metadata holds a null count. */
  lemma AsWrittenAgrees(baseUrl: string, fetch: string -> Result<Json>, limit: nat)
    requires limit >= 1
    requires var first := fetch(PageUrl(baseUrl, 1));
      !(first.Ok? && WellFormed(first.value) && first.value.items[0].JObj?
        && "pages" in first.value.items[0].fields && first.value.items[0].fields["pages"].JNull?)
    ensures PagesAsWritten(baseUrl, fetch, 1, JNull, limit) == Some(WorldBankPages(baseUrl, fetch))
  {
    var first := fetch(PageUrl(baseUrl, 1));
    if first.Ok? && WellFormed(first.value) && first.value.items[0].JObj? {
      KnownCountAsWritten(baseUrl, fetch, 2, PageCount(first.value.items[0].fields), limit);
    }
  }

  /** `_iter_world_bank_pages`: requests pages 1, 2, ... in order until the
      page count from page 1 is passed or a body is not a two-element list.
      `urls` lists the requests made. */
  method IterWorldBankPages(baseUrl: string, fetch: string -> Result<Json>)
    returns (pages: seq<Json>, urls: seq<string>, failure: Option<Failure>)
    ensures PageRun(pages, |urls|, failure) == WorldBankPages(baseUrl, fetch)
    ensures forall i :: 0 <= i < |urls| ==> urls[i] == PageUrl(baseUrl, i + 1)
  {
    var page: nat := 1;
    var total: Option<Json> := None;
    pages, urls, failure := [], [], None;
    while true
      invariant page == |urls| + 1
      invariant forall i :: 0 <= i < |urls| ==> urls[i] == PageUrl(baseUrl, i + 1)
      invariant total.None? ==> page == 1 && pages == []
      invariant total.Some? ==> (page >= 2 &&
        WorldBankPages(baseUrl, fetch) == After(pages, |urls|, LaterPages(baseUrl, fetch, page, total.value)))
      decreases total.None?, match total case Some(t) => (match PageBound(t) case Some(b) => b - page + 1 case None => 0) case None => 0
    {
      var made := |urls|;
      var requested, stop, data, next;
      requested, stop, failure, data, next := PageStep(baseUrl, fetch, page, total);
      if requested {
        PageUrlsSnoc(baseUrl, urls);
        urls := urls + [PageUrl(baseUrl, page)];
      }
      if stop {
        AfterEnd(pages, made, if requested then 1 else 0, failure);
        return;
      }
      AfterYield(pages, made, data, LaterPages(baseUrl, fetch, page + 1, next));
      pages := pages + [DataOrEmpty(data)];
      page := page + 1;
      total := Some(next);
    }
  }

  lemma PageUrlsSnoc(baseUrl: string, urls: seq<string>)
    requires forall i :: 0 <= i < |urls| ==> urls[i] == PageUrl(baseUrl, i + 1)
    ensures var more := urls + [PageUrl(baseUrl, |urls| + 1)];
      forall i :: 0 <= i < |more| ==> more[i] == PageUrl(baseUrl, i + 1)
  {
    var more := urls + [PageUrl(baseUrl, |urls| + 1)];
    forall i | 0 <= i < |more|
      ensures more[i] == PageUrl(baseUrl, i + 1)
    {
      ConcatAt(urls, [PageUrl(baseUrl, |urls| + 1)], i);
    }
  }

  /** One pass of the paging loop: the page-count test, then the request
      for `page`. Either the run ends here, after `requested` requests, or
      `data` is yielded and the loop goes on with the page count `next`. */
  method PageStep(baseUrl: string, fetch: string -> Result<Json>, page: nat, total: Option<Json>)
    returns (requested: bool, stop: bool, failure: Option<Failure>, data: Json, next: Json)
    requires total.None? ==> page == 1
    requires total.Some? ==> page >= 2
    ensures total.Some? && stop ==>
      LaterPages(baseUrl, fetch, page, total.value) == PageRun([], if requested then 1 else 0, failure)
    ensures total.Some? && !stop ==> (requested && next == total.value && PageBound(next).Some? && page <= PageBound(next).value
      && LaterPages(baseUrl, fetch, page, total.value) == Yield(data, LaterPages(baseUrl, fetch, page + 1, next)))
    ensures total.None? ==> requested
    ensures total.None? && stop ==> WorldBankPages(baseUrl, fetch) == PageRun([], 1, failure)
    ensures total.None? && !stop ==>
      WorldBankPages(baseUrl, fetch) == Yield(data, LaterPages(baseUrl, fetch, 2, next))
  {
    requested, stop, failure, data, next := false, true, None, JNull, JNull;
    if total.Some? {
      var bound := PageBound(total.value);
      if bound.None? {
        failure := Some(NotComparable);
        return;
      }
      if page > bound.value {
        return;
      }
    }
    requested := true;
    var payload := fetch(PageUrl(baseUrl, page));
    if payload.Err? {
      failure := Some(payload.failure);
      return;
    }
    if !WellFormed(payload.value) {
      return;
    }
    var metadata := payload.value.items[0];
    data := payload.value.items[1];
    if total.None? {
      if !metadata.JObj? {
        failure := Some(NoGetAttribute);
        return;
      }
      next := PageCount(metadata.fields);
    } else {
      next := total.value;
    }
    stop := false;
  }

  /** A run that follows `pages` already yielded after `requested`
      requests. */
  function After(pages: seq<Json>, requested: nat, rest: PageRun): PageRun
  {
    PageRun(pages + rest.pages, requested + rest.requested, rest.failure)
  }

  lemma AfterYield(pages: seq<Json>, requested: nat, data: Json, rest: PageRun)
    ensures After(pages, requested, Yield(data, rest)) == After(pages + [DataOrEmpty(data)], requested + 1, rest)
  {
    assert pages + ([DataOrEmpty(data)] + rest.pages) == (pages + [DataOrEmpty(data)]) + rest.pages;
  }

  lemma AfterEnd(pages: seq<Json>, requested: nat, extra: nat, failure: Option<Failure>)
    ensures After(pages, requested, PageRun([], extra, failure)) == PageRun(pages, requested + extra, failure)
  {
    assert pages + [] == pages;
  }

  /** With every body well formed, a page count `n` on page 1 means pages 1
      to `n` are requested and yielded (just page 1 when `n < 1`). */
  lemma {:induction false} LaterPagesCount(baseUrl: string, fetch: string -> Result<Json>, page: nat, n: int)
    requires page >= 2
    requires forall k: nat :: page <= k <= n ==> fetch(PageUrl(baseUrl, k)).Ok? && WellFormed(fetch(PageUrl(baseUrl, k)).value)
    ensures var r := LaterPages(baseUrl, fetch, page, JInt(n));
      r.failure.None? && r.requested == |r.pages| == (if n < page then 0 else n - page + 1)
    decreases n - page
  {
    if page <= n {
      LaterPagesCount(baseUrl, fetch, page + 1, n);
    }
  }

  lemma PageCountHonoured(baseUrl: string, fetch: string -> Result<Json>, n: int)
    requires fetch(PageUrl(baseUrl, 1)).Ok? && WellFormed(fetch(PageUrl(baseUrl, 1)).value)
    requires fetch(PageUrl(baseUrl, 1)).value.items[0] == JObj(map["pages" := JInt(n)])
    requires forall k: nat :: 2 <= k <= n ==> fetch(PageUrl(baseUrl, k)).Ok? && WellFormed(fetch(PageUrl(baseUrl, k)).value)
    ensures var r := WorldBankPages(baseUrl, fetch);
      r.failure.None? && r.requested == |r.pages| == (if n < 1 then 1 else n)
  {
    assert PageCount(map["pages" := JInt(n)]) == JInt(n);
    LaterPagesCount(baseUrl, fetch, 2, n);
  }

  /** Page `page + i` answered with a two-element list whose data was
      yielded as the `i`-th page. */
  predicate YieldedFrom(baseUrl: string, fetch: string -> Result<Json>, page: nat, pages: seq<Json>, i: nat)
    requires i < |pages|
  {
    var response := fetch(PageUrl(baseUrl, page + i));
    response.Ok? && WellFormed(response.value) && pages[i] == DataOrEmpty(response.value.items[1])
  }

  /** What a run from `page` on is made of: each yielded page is the data
      of the next response in order; at most one further request ends the
      run, and when it raises nothing, its body was malformed. */
  predicate RunShape(baseUrl: string, fetch: string -> Result<Json>, page: nat, r: PageRun)
  {
    |r.pages| <= r.requested <= |r.pages| + 1
    && (forall i :: 0 <= i < |r.pages| ==> YieldedFrom(baseUrl, fetch, page, r.pages, i))
    && (r.requested == |r.pages| + 1 ==>
          (var last := fetch(PageUrl(baseUrl, page + |r.pages|));
           if r.failure.None? then last.Ok? && !WellFormed(last.value)
           else (last.Err? && r.failure == Some(last.failure)) || r.failure == Some(NoGetAttribute)))
  }

  lemma YieldShape(baseUrl: string, fetch: string -> Result<Json>, page: nat, data: Json, rest: PageRun)
    requires fetch(PageUrl(baseUrl, page)).Ok? && WellFormed(fetch(PageUrl(baseUrl, page)).value)
    requires data == fetch(PageUrl(baseUrl, page)).value.items[1]
    requires RunShape(baseUrl, fetch, page + 1, rest)
    ensures RunShape(baseUrl, fetch, page, Yield(data, rest))
  {
    var r := Yield(data, rest);
    forall i | 0 <= i < |r.pages|
      ensures YieldedFrom(baseUrl, fetch, page, r.pages, i)
    {
      if i > 0 {
        assert YieldedFrom(baseUrl, fetch, page + 1, rest.pages, i - 1);
        assert r.pages[i] == rest.pages[i - 1];
      }
    }
    assert page + |r.pages| == page + 1 + |rest.pages|;
  }

  lemma {:induction false} LaterPagesShape(baseUrl: string, fetch: string -> Result<Json>, page: nat, total: Json)
    ensures RunShape(baseUrl, fetch, page, LaterPages(baseUrl, fetch, page, total))
    decreases match PageBound(total) case Some(b) => b - page case None => 0
  {
    match PageBound(total)
    case None =>
    case Some(bound) =>
      if page <= bound {
        var response := fetch(PageUrl(baseUrl, page));
        if response.Ok? && WellFormed(response.value) {
          LaterPagesShape(baseUrl, fetch, page + 1, total);
          YieldShape(baseUrl, fetch, page, response.value.items[1], LaterPages(baseUrl, fetch, page + 1, total));
        }
      }
  }

  /** The whole generator: pages 1, 2, ... yielded in order as answered;
      it ends at the page count, at a malformed body (returning quietly)
      or at an exception. */
  lemma PagesShape(baseUrl: string, fetch: string -> Result<Json>)
    ensures RunShape(baseUrl, fetch, 1, WorldBankPages(baseUrl, fetch))
  {
    var response := fetch(PageUrl(baseUrl, 1));
    if response.Ok? && WellFormed(response.value) && response.value.items[0].JObj? {
      var total := PageCount(response.value.items[0].fields);
      LaterPagesShape(baseUrl, fetch, 2, total);
      YieldShape(baseUrl, fetch, 1, response.value.items[1], LaterPages(baseUrl, fetch, 2, total));
    }
  }

  // ---------------------------------------------------------------------
  // Rows from the World Bank

  /** `extra_metadata.get("value_field_name")`: a falsy value raises
      ValueError naming the dataset. */
  function ValueFieldName(d: Dataset): (r: Result<string>)
    ensures r.Ok? ==> (r.value != "" && "value_field_name" in d.extraMetadata
      && d.extraMetadata["value_field_name"] == JStr(r.value))
    ensures !Truthy(Get(d.extraMetadata, "value_field_name")) ==> r == Err(MissingValueField(d.id))
  {
    match Get(d.extraMetadata, "value_field_name")
    case JStr(s) => if s == "" then Err(MissingValueField(d.id)) else Ok(s)
    case v => if Truthy(v) then Err(Failure(TypeError, "value_field_name is not text")) else Err(MissingValueField(d.id))
  }

  function MissingValueField(id: string): Failure
  {
    Failure(ValueError, "Dataset " + id + " is missing 'value_field_name' in extra_metadata.")
  }

  /** Iterating one page's data: a list gives its entries; a non-empty
      dict or text gives keys or characters, whose `.get` fails; other
      truthy values are not iterable. */
  function PageEntries(data: Json): Result<seq<Json>>
  {
    match data
    case JArr(items) => Ok(items)
    case JObj(_) => Err(NoGetAttribute)
    case JStr(_) => Err(NoGetAttribute)
    case _ => Err(NotIterable)
  }

  /** The four columns of a row; the value column comes last, so it wins
      over a clash with the other three names. */
  function MakeRow(code: Json, name: Json, year: int, valueField: string, value: Json): (r: Row)
    ensures r.Keys == {"country_code", "country_name", "year", valueField}
    ensures r[valueField] == value
    ensures valueField !in {"country_code", "country_name", "year"} ==>
      r["country_code"] == code && r["country_name"] == name && r["year"] == JInt(year)
  {
    map["country_code" := code, "country_name" := name, "year" := JInt(year)][valueField := value]
  }

  /** The `country` of an entry as a dict: `entry.get("country") or {}`. */
  function CountryFields(fields: map<string, Json>): map<string, Json>
  {
    var c := Get(fields, "country");
    if c.JObj? then c.fields else map[]
  }

  /** `int(entry["date"])` when the date is present and integral. */
  function EntryYear(fields: map<string, Json>): Option<int>
  {
    if Get(fields, "date") == JNull then None else PyInt(Get(fields, "date"))
  }

  /** One World Bank entry: skipped (None) when its `date` is null or not
      an integer; otherwise the row with `country.id`, `country.value`, the
      year and the entry's `value`. A non-dict entry, or a dated entry
      whose country is a truthy non-dict, raises AttributeError. */
  function WorldBankEntryRow(entry: Json, valueField: string): (r: Result<Option<Row>>)
    ensures r.Err? <==> (!entry.JObj? ||
      (EntryYear(entry.fields).Some? && Truthy(Get(entry.fields, "country")) && !Get(entry.fields, "country").JObj?))
    ensures r.Ok? ==> (r.value.None? <==> EntryYear(entry.fields).None?)
    ensures r.Ok? && r.value.Some? ==> r.value.value.Keys == {"country_code", "country_name", "year", valueField}
    ensures r.Ok? && r.value.Some? ==> r.value.value[valueField] == Get(entry.fields, "value")
    ensures r.Ok? && r.value.Some? && valueField !in {"country_code", "country_name", "year"} ==>
      (r.value.value["year"] == JInt(EntryYear(entry.fields).value)
       && r.value.value["country_code"] == Get(CountryFields(entry.fields), "id")
       && r.value.value["country_name"] == Get(CountryFields(entry.fields), "value"))
  {
    if !entry.JObj? then Err(NoGetAttribute)
    else
      var fields := entry.fields;
      var country := Get(fields, "country");
      var date := Get(fields, "date");
      if date == JNull then Ok(None)
      else match PyInt(date)
        case None => Ok(None)
        case Some(year) =>
          if Truthy(country) && !country.JObj? then Err(NoGetAttribute)
          else
            var c := if country.JObj? then country.fields else map[];
            Ok(Some(MakeRow(Get(c, "id"), Get(c, "value"), year, valueField, Get(fields, "value"))))
  }

  /** The rows of a run of entries, in order, or the first entry's error. */
  function EntryRows(entries: seq<Json>, rowOf: Json -> Result<Option<Row>>): (r: Result<seq<Row>>)
    ensures r.Ok? ==> |r.value| <= |entries|
    decreases |entries|
  {
    if entries == [] then Ok([])
    else
      match EntryRows(entries[..|entries| - 1], rowOf)
      case Err(f) => Err(f)
      case Ok(rows) =>
        match rowOf(entries[|entries| - 1])
        case Err(f) => Err(f)
        case Ok(None) => Ok(rows)
        case Ok(Some(row)) => Ok(rows + [row])
  }

  function WorldBankRowOf(valueField: string): Json -> Result<Option<Row>>
  {
    entry => WorldBankEntryRow(entry, valueField)
  }

  /** The rows of the yielded pages, page by page. */
  function PagesRows(pages: seq<Json>, rowOf: Json -> Result<Option<Row>>): Result<seq<Row>>
    decreases |pages|
  {
    if pages == [] then Ok([])
    else
      match PagesRows(pages[..|pages| - 1], rowOf)
      case Err(f) => Err(f)
      case Ok(rows) =>
        match PageEntries(pages[|pages| - 1])
        case Err(f) => Err(f)
        case Ok(entries) =>
          match EntryRows(entries, rowOf)
          case Err(f) => Err(f)
          case Ok(more) => Ok(rows + more)
  }

  /** `fetch_dataset_from_world_bank`, spec form. The generator is lazy, so
      an entry that raises on one page wins over a failure fetching a later
      page. */
  function WorldBankRows(d: Dataset, fetch: string -> Result<Json>): Result<seq<Row>>
  {
    match ValueFieldName(d)
    case Err(f) => Err(f)
    case Ok(valueField) =>
      var run := WorldBankPages(d.source.uri, fetch);
      match PagesRows(run.pages, WorldBankRowOf(valueField))
      case Err(f) => Err(f)
      case Ok(rows) => if run.failure.Some? then Err(run.failure.value) else Ok(rows)
  }

  /** The inner loop: the rows of one page's entries appended to `rows`. */
  method AppendEntryRows(rows: seq<Row>, entries: seq<Json>, rowOf: Json -> Result<Option<Row>>)
    returns (r: Result<seq<Row>>)
    ensures r == (match EntryRows(entries, rowOf)
                  case Err(f) => Err(f)
                  case Ok(more) => Ok(rows + more))
  {
    var acc := rows;
    var i := 0;
    while i < |entries|
      invariant 0 <= i <= |entries|
      invariant EntryRows(entries[..i], rowOf).Ok? && acc == rows + EntryRows(entries[..i], rowOf).value
    {
      assert entries[..i + 1][..i] == entries[..i];
      var row := rowOf(entries[i]);
      if row.Err? {
        EntryRowsPrefixErr(entries, rowOf, i + 1);
        return Err(row.failure);
      }
      if row.value.Some? {
        acc := acc + [row.value.value];
      }
      i := i + 1;
    }
    assert entries[..i] == entries;
    return Ok(acc);
  }

  lemma {:induction false} EntryRowsPrefixErr(entries: seq<Json>, rowOf: Json -> Result<Option<Row>>, n: nat)
    requires n <= |entries| && EntryRows(entries[..n], rowOf).Err?
    ensures EntryRows(entries, rowOf) == EntryRows(entries[..n], rowOf)
    decreases |entries| - n
  {
    if n < |entries| {
      assert entries[..n + 1][..n] == entries[..n];
      EntryRowsPrefixErr(entries, rowOf, n + 1);
    } else {
      assert entries[..n] == entries;
    }
  }

  lemma {:induction false} PagesRowsPrefixErr(pages: seq<Json>, rowOf: Json -> Result<Option<Row>>, n: nat)
    requires n <= |pages| && PagesRows(pages[..n], rowOf).Err?
    ensures PagesRows(pages, rowOf) == PagesRows(pages[..n], rowOf)
    decreases |pages| - n
  {
    if n < |pages| {
      assert pages[..n + 1][..n] == pages[..n];
      PagesRowsPrefixErr(pages, rowOf, n + 1);
    } else {
      assert pages[..n] == pages;
    }
  }

  /** The outer loop: every yielded page's entries become rows. */
  method PagesToRows(pages: seq<Json>, rowOf: Json -> Result<Option<Row>>) returns (r: Result<seq<Row>>)
    ensures r == PagesRows(pages, rowOf)
  {
    var rows: seq<Row> := [];
    var i := 0;
    while i < |pages|
      invariant 0 <= i <= |pages|
      invariant PagesRows(pages[..i], rowOf) == Ok(rows)
    {
      assert pages[..i + 1][..i] == pages[..i];
      var entries := PageEntries(pages[i]);
      if entries.Err? {
        PagesRowsPrefixErr(pages, rowOf, i + 1);
        return Err(entries.failure);
      }
      var next := AppendEntryRows(rows, entries.value, rowOf);
      if next.Err? {
        PagesRowsPrefixErr(pages, rowOf, i + 1);
        return Err(next.failure);
      }
      rows := next.value;
      i := i + 1;
    }
    assert pages[..i] == pages;
    return Ok(rows);
  }

  /** `fetch_dataset_from_world_bank`: the value column is checked before
      any request; then the pages are consumed. */
  method FetchDatasetFromWorldBank(d: Dataset, fetch: string -> Result<Json>) returns (r: Result<seq<Row>>)
    ensures r == WorldBankRows(d, fetch)
  {
    var valueField := ValueFieldName(d);
    if valueField.Err? {
      return Err(valueField.failure);
    }
    var pages, urls, failure := IterWorldBankPages(d.source.uri, fetch);
    var rows := PagesToRows(pages, WorldBankRowOf(valueField.value));
    if rows.Err? {
      return Err(rows.failure);
    }
    if failure.Some? {
      return Err(failure.value);
    }
    return Ok(rows.value);
  }

  /** An entry the loop keeps: a dict with an integral date. */
  predicate IsDated(e: Json)
  {
    e.JObj? && EntryYear(e.fields).Some?
  }

  /** A dict entry whose country is a dict, or falsy, never raises. */
  predicate WellFormedEntry(e: Json)
  {
    e.JObj? && (!Truthy(Get(e.fields, "country")) || Get(e.fields, "country").JObj?)
  }

  /** On well-formed entries the loop keeps exactly the dated ones, in
      order, each giving its own row. */
  lemma {:induction false} EntryRowsExact(entries: seq<Json>, valueField: string)
    requires forall i :: 0 <= i < |entries| ==> WellFormedEntry(entries[i])
    ensures var r := EntryRows(entries, WorldBankRowOf(valueField));
      var kept := Filter(entries, IsDated);
      r.Ok? && |r.value| == |kept|
      && forall i :: 0 <= i < |kept| ==> WorldBankEntryRow(kept[i], valueField) == Ok(Some(r.value[i]))
    decreases |entries|
  {
    if entries != [] {
      var init := entries[..|entries| - 1];
      var e := entries[|entries| - 1];
      assert forall i :: 0 <= i < |init| ==> init[i] == entries[i];
      EntryRowsExact(init, valueField);
      assert WellFormedEntry(e);
      var rows := EntryRows(init, WorldBankRowOf(valueField)).value;
      var kept := Filter(init, IsDated);
      assert Filter(entries, IsDated) == kept + (if IsDated(e) then [e] else []);
      if IsDated(e) {
        var row := WorldBankEntryRow(e, valueField);
        assert row.Ok? && row.value.Some?;
        assert EntryRows(entries, WorldBankRowOf(valueField)) == Ok(rows + [row.value.value]);
      } else {
        assert WorldBankEntryRow(e, valueField) == Ok(None);
      }
    }
  }

  // ---------------------------------------------------------------------
  // Rows from Our World in Data

  /** `extra.get(key, default)` read as a column name. */
  function FieldName(extra: map<string, Json>, key: string, default: string): (r: Result<string>)
    ensures key !in extra ==> r == Ok(default)
    ensures r.Err? <==> key in extra && !extra[key].JStr?
    ensures r.Ok? && key in extra ==> extra[key] == JStr(r.value)
  {
    if key !in extra then Ok(default)
    else match extra[key]
      case JStr(s) => Ok(s)
      case _ => Err(Failure(TypeError, "column name is not text"))
  }

  datatype OwidFields = OwidFields(code: string, name: string, year: string, value: string)

  /** The value cell: None for a missing, empty or `NA` cell and for text
      `float()` rejects. */
  function OwidValue(cell: Option<string>): (v: Json)
    ensures cell.None? || cell == Some("") || cell == Some("NA") ==> v == JNull
    ensures v.JFloat? ==> cell.Some? && ParseNumber(cell.value) == Some(v.r)
    ensures v.JNull? || v.JFloat?
  {
    match cell
    case None => JNull
    case Some(s) =>
      if s == "" || s == "NA" then JNull
      else match ParseNumber(s)
        case Some(x) => JFloat(x)
        case None => JNull
  }

  /** `record.get(field) or None`. */
  function TextOrNone(record: CsvRecord, field: string): (v: Json)
    ensures v == JNull <==> field !in record || record[field] == ""
  {
    if field in record && record[field] != "" then JStr(record[field]) else JNull
  }

  /** One OWID record: skipped when its year cell is missing, empty or
      not a number; the year is `int(float(cell))`, truncating. */
  function OwidRecordRow(record: CsvRecord, f: OwidFields): (r: Option<Row>)
    ensures r.None? <==> f.year !in record || record[f.year] == "" || ParseNumber(record[f.year]).None?
    ensures r.Some? ==> r.value.Keys == {"country_code", "country_name", "year", f.value}
    ensures r.Some? ==> r.value[f.value] == OwidValue(if f.value in record then Some(record[f.value]) else None)
    ensures r.Some? && f.value !in {"country_code", "country_name", "year"} ==>
      (r.value["year"] == JInt(Truncate(ParseNumber(record[f.year]).value))
       && r.value["country_code"] == TextOrNone(record, f.code)
       && r.value["country_name"] == TextOrNone(record, f.name))
  {
    if f.year !in record || record[f.year] == "" then None
    else match ParseNumber(record[f.year])
      case None => None
      case Some(x) =>
        Some(MakeRow(TextOrNone(record, f.code), TextOrNone(record, f.name), Truncate(x), f.value,
                     OwidValue(if f.value in record then Some(record[f.value]) else None)))
  }

  function OwidRows(records: seq<CsvRecord>, f: OwidFields): (r: seq<Row>)
    ensures |r| <= |records|
    decreases |records|
  {
    if records == [] then []
    else
      var init := OwidRows(records[..|records| - 1], f);
      match OwidRecordRow(records[|records| - 1], f)
      case None => init
      case Some(row) => init + [row]
  }

  /** The column names read from the dataset's extra metadata (defaults
      `iso_code`, `country` and `year`), after the value column check. */
  function OwidFieldsOf(d: Dataset): Result<OwidFields>
  {
    match ValueFieldName(d)
    case Err(f) => Err(f)
    case Ok(valueField) =>
      match FieldName(d.extraMetadata, "country_code_field", "iso_code")
      case Err(f) => Err(f)
      case Ok(code) =>
        match FieldName(d.extraMetadata, "country_name_field", "country")
        case Err(f) => Err(f)
        case Ok(name) =>
          match FieldName(d.extraMetadata, "year_field", "year")
          case Err(f) => Err(f)
          case Ok(year) => Ok(OwidFields(code, name, year, valueField))
  }

  /** `fetch_dataset_from_owid_co2`, spec form: the column names, then the
      download of the source URI, then one row per record with a numeric
      year. */
  function OwidDatasetRows(d: Dataset, download: string -> Result<seq<CsvRecord>>): Result<seq<Row>>
  {
    match OwidFieldsOf(d)
    case Err(f) => Err(f)
    case Ok(fields) =>
      match download(d.source.uri)
      case Err(f) => Err(f)
      case Ok(records) => Ok(OwidRows(records, fields))
  }

  /** `fetch_dataset_from_owid_co2`. */
  method FetchDatasetFromOwidCo2(d: Dataset, download: string -> Result<seq<CsvRecord>>) returns (r: Result<seq<Row>>)
    ensures r == OwidDatasetRows(d, download)
  {
    var fields := OwidFieldsOf(d);
    if fields.Err? {
      return Err(fields.failure);
    }
    var records := download(d.source.uri);
    if records.Err? {
      return Err(records.failure);
    }
    var rows: seq<Row> := [];
    var i := 0;
    while i < |records.value|
      invariant 0 <= i <= |records.value|
      invariant rows == OwidRows(records.value[..i], fields.value)
    {
      assert records.value[..i + 1][..i] == records.value[..i];
      var row := OwidRecordRow(records.value[i], fields.value);
      if row.Some? {
        rows := rows + [row.value];
      }
      i := i + 1;
    }
    assert records.value[..i] == records.value;
    return Ok(rows);
  }

  /** A missing value column is reported before anything is downloaded,
      by both fetchers. */
  lemma MissingValueFieldFirst(d: Dataset, fetch: string -> Result<Json>, download: string -> Result<seq<CsvRecord>>)
    requires !Truthy(Get(d.extraMetadata, "value_field_name"))
    ensures WorldBankRows(d, fetch) == Err(MissingValueField(d.id))
    ensures OwidDatasetRows(d, download) == Err(MissingValueField(d.id))
  {
  }

  /** A record with a fractional year keeps the year truncated toward
      zero. */
  lemma OwidYearTruncated(record: CsvRecord, f: OwidFields, whole: string, frac: string)
    requires AllDigits(whole) && AllDigits(frac)
    requires f.value !in {"country_code", "country_name", "year"}
    requires f.year in record && record[f.year] == whole + "." + frac
    ensures OwidRecordRow(record, f).Some?
    ensures OwidRecordRow(record, f).value["year"] == JInt(DigitsValue(whole))
  {
    ParseNumberOfDecimal(whole, frac);
    DecimalTruncates(whole, frac);
  }

  /** `float("<digits>.<digits>")`. */
  lemma ParseNumberOfDecimal(whole: string, frac: string)
    requires AllDigits(whole) && AllDigits(frac)
    ensures ParseNumber(whole + "." + frac) == Some(DecimalValue(whole, frac))
  {
    var t := whole + "." + frac;
    assert ParseNumber(t) == SignedDecimal(t) by {
      DecimalStripped(whole, frac);
    }
    assert SignedDecimal(t) == UnsignedDecimal(t) by {
      assert t[0] == whole[0] && IsDigit(t[0]);
      SignedOfDigitFirst(t);
    }
    assert UnsignedDecimal(t) == Some(DecimalValue(whole, frac)) by {
      UnsignedOfDecimal(whole, frac);
    }
  }

  lemma SignedOfDigitFirst(t: string)
    requires t != [] && IsDigit(t[0])
    ensures SignedDecimal(t) == UnsignedDecimal(t)
  {
  }

  lemma UnsignedOfDecimal(whole: string, frac: string)
    requires AllDigits(whole) && AllDigits(frac)
    ensures UnsignedDecimal(whole + "." + frac) == Some(DecimalValue(whole, frac))
  {
    DecimalPoint(whole, frac);
    DecimalParts(whole, frac);
  }

  lemma DecimalParts(whole: string, frac: string)
    ensures (whole + "." + frac)[..|whole|] == whole && (whole + "." + frac)[|whole| + 1..] == frac
  {
  }

  lemma DecimalPoint(whole: string, frac: string)
    requires AllDigits(whole)
    ensures IndexOf(whole + "." + frac, '.') == Some(|whole|)
  {
    var t := whole + "." + frac;
    forall i | 0 <= i < |whole| ensures t[i] != '.' {
      assert t[i] == whole[i] && IsDigit(whole[i]);
    }
    assert t[|whole|] == '.';
    IndexOfIs(t, '.', |whole|);
  }

  lemma DecimalStripped(whole: string, frac: string)
    requires AllDigits(whole) && AllDigits(frac)
    ensures Strip(whole + "." + frac) == whole + "." + frac
  {
    var t := whole + "." + frac;
    assert t[0] == whole[0] && IsDigit(whole[0]);
    assert t[|t| - 1] == frac[|frac| - 1] && IsDigit(frac[|frac| - 1]);
    DigitNotSpace(t[0]);
    DigitNotSpace(t[|t| - 1]);
    StripNoEdgeSpace(t);
  }

  /** The fraction is below one, so truncation gives the whole part. */
  lemma DecimalTruncates(whole: string, frac: string)
    requires AllDigits(whole) && AllDigits(frac)
    ensures Truncate(DecimalValue(whole, frac)) == DigitsValue(whole)
  {
    var w := DigitsValue(whole) as real;
    var f := DigitsValue(frac) as real;
    var p := Pow10(|frac|) as real;
    FracBelowPow10(frac);
    assert 0.0 <= f < p;
    FractionBelowOne(f, p);
    assert DecimalValue(whole, frac) == w + f / p;
    assert w <= w + f / p < w + 1.0;
  }

  lemma FractionBelowOne(f: real, p: real)
    requires 0.0 <= f < p
    ensures 0.0 <= f / p < 1.0
  {
    assert (f / p) * p == f;
  }

  lemma {:induction false} FracBelowPow10(s: string)
    requires forall i :: 0 <= i < |s| ==> IsDigit(s[i])
    ensures DigitsValue(s) < Pow10(|s|)
    decreases |s|
  {
    if s != [] {
      assert forall i :: 0 <= i < |s| - 1 ==> s[..|s| - 1][i] == s[i];
      FracBelowPow10(s[..|s| - 1]);
      assert IsDigit(s[|s| - 1]);
    }
  }

  // ---------------------------------------------------------------------
  // Writing and dispatch

  /** The CSV written: its path, header and rows. */
  datatype CsvFile = CsvFile(path: string, header: seq<string>, rows: seq<Row>)

  const ExtraFields := Failure(ValueError, "dict contains fields not in fieldnames")

  function ColumnNames(cs: seq<Column>): (r: seq<string>)
    ensures |r| == |cs| && forall i :: 0 <= i < |cs| ==> r[i] == cs[i].name
  {
    seq(|cs|, i requires 0 <= i < |cs| => cs[i].name)
  }

  /** `save_rows_to_csv`: `<id>.csv` under the output directory, headed by
      the dataset's column names; a row with a key outside them makes
      `DictWriter` raise ValueError. */
  function SaveRowsToCsv(rows: seq<Row>, d: Dataset, outputDir: string): (r: Result<CsvFile>)
    ensures r.Ok? <==> forall i :: 0 <= i < |rows| ==> (forall k :: k in rows[i] ==> k in ColumnNames(d.columns))
    ensures r.Ok? ==> r.value == CsvFile(outputDir + "/" + d.id + ".csv", ColumnNames(d.columns), rows)
    ensures r.Err? ==> r.failure == ExtraFields
  {
    var header := ColumnNames(d.columns);
    if exists i :: 0 <= i < |rows| && exists k :: k in rows[i] && k !in header then Err(ExtraFields)
    else Ok(CsvFile(outputDir + "/" + d.id + ".csv", header, rows))
  }

  /** `str(KeyError(...))` for an unknown dataset id: the message's repr. */
  function UnknownDataset(id: string): Failure
  {
    Failure(KeyError, "\"Dataset '" + id + "' not found in metadata store.\"")
  }

  function UnsupportedOrganization(org: string, id: string): Failure
  {
    Failure(ValueError, "Unsupported source organization '" + org + "' for dataset '" + id + "'.")
  }

  /** `(extra.get("source_organization") or "").lower()`. */
  function SourceOrganization(d: Dataset): (r: Result<string>)
    ensures !Truthy(Get(d.extraMetadata, "source_organization")) ==> r == Ok("")
    ensures Get(d.extraMetadata, "source_organization").JStr? ==> r == Ok(Lower(Get(d.extraMetadata, "source_organization").s))
  {
    var v := Get(d.extraMetadata, "source_organization");
    if !Truthy(v) then Ok("")
    else match v
      case JStr(s) => Ok(Lower(s))
      case _ => Err(Failure(AttributeError, "object has no attribute 'lower'"))
  }

  /** The fetcher a dataset goes to. */
  datatype Route = WorldBankRoute | OwidRoute

  /** World Bank or Our World in Data by the lower-cased organization, any
      other organization a ValueError naming it. */
  function RouteOf(d: Dataset): (r: Result<Route>)
    ensures r == Ok(WorldBankRoute) <==> SourceOrganization(d) == Ok("world bank")
    ensures r == Ok(OwidRoute) <==> SourceOrganization(d) == Ok("our world in data")
    ensures SourceOrganization(d).Ok? && r.Err? ==>
      r == Err(UnsupportedOrganization(SourceOrganization(d).value, d.id))
  {
    match SourceOrganization(d)
    case Err(f) => Err(f)
    case Ok(org) =>
      if org == "world bank" then Ok(WorldBankRoute)
      else if org == "our world in data" then Ok(OwidRoute)
      else Err(UnsupportedOrganization(org, d.id))
  }

  /** The organization is matched without regard to ASCII case: writing
      it in lower case routes the dataset the same way. */
  lemma RouteIgnoresCase(d: Dataset, org: string)
    requires Get(d.extraMetadata, "source_organization") == JStr(org)
    ensures RouteOf(d) == RouteOf(d.(extraMetadata := d.extraMetadata["source_organization" := JStr(Lower(org))]))
  {
    var e := d.(extraMetadata := d.extraMetadata["source_organization" := JStr(Lower(org))]);
    assert Get(e.extraMetadata, "source_organization") == JStr(Lower(org));
    LowerIdempotent(org);
  }

  lemma LowerIdempotent(s: string)
    ensures Lower(Lower(s)) == Lower(s)
  {
    forall i | 0 <= i < |s| ensures Lower(Lower(s))[i] == Lower(s)[i] {
      assert Lower(Lower(s))[i] == ToLowerChar(Lower(s)[i]);
    }
  }

  /** An organization left out, or empty, is unsupported. */
  lemma NoOrganizationUnsupported(d: Dataset)
    requires "source_organization" !in d.extraMetadata
    ensures RouteOf(d) == Err(UnsupportedOrganization("", d.id))
  {
  }

  /** The datasets `MetadataStore.load_from_file` reads: none for a missing
      file, an AttributeError for a non-object document. */
  function Registry(file: Option<Json>, keys: seq<string>): Result<map<string, Dataset>>
    requires file.Some? && file.value.JObj? ==> forall k :: k in keys ==> k in file.value.fields
  {
    match file
    case None => Ok(map[])
    case Some(doc) =>
      if !doc.JObj? then Err(NoItems) else Deserialized(doc.fields, keys)
  }

  /** `ingest_dataset`, spec form, on the loaded registry. */
  function Ingested(id: string, registry: Result<map<string, Dataset>>, outputDir: string,
                    fetch: string -> Result<Json>, download: string -> Result<seq<CsvRecord>>): (r: Result<CsvFile>)
    ensures registry.Ok? && id !in registry.value ==> r == Err(UnknownDataset(id))
    ensures r.Ok? ==> (registry.Ok? && id in registry.value
      && r.value.path == outputDir + "/" + registry.value[id].id + ".csv"
      && r.value.header == ColumnNames(registry.value[id].columns)
      && RouteOf(registry.value[id]).Ok?)
  {
    match registry
    case Err(f) => Err(f)
    case Ok(datasets) =>
      if id !in datasets then Err(UnknownDataset(id))
      else
        var d := datasets[id];
        match RouteOf(d)
        case Err(f) => Err(f)
        case Ok(route) =>
          var rows := if route == WorldBankRoute then WorldBankRows(d, fetch) else OwidDatasetRows(d, download);
          match rows
          case Err(f) => Err(f)
          case Ok(rs) => SaveRowsToCsv(rs, d, outputDir)
  }

  /** `ingest_dataset`: load the registry file, look the dataset up, fetch
      its rows by organization and write them as `<id>.csv` under the
      output directory. */
  method IngestDataset(id: string, file: Option<Json>, keys: seq<string>, outputDir: string,
                       fetch: string -> Result<Json>, download: string -> Result<seq<CsvRecord>>)
    returns (r: Result<CsvFile>)
    requires file.Some? && file.value.JObj? ==> Distinct(keys) && (set k | k in keys) == file.value.fields.Keys
    ensures r == Ingested(id, Registry(file, keys), outputDir, fetch, download)
  {
    var loaded := MetadataStore.LoadFromFile(file, keys);
    if loaded.Err? {
      return Err(loaded.failure);
    }
    var dataset := loaded.value.GetDataset(id);
    if dataset.None? {
      return Err(UnknownDataset(id));
    }
    var d := dataset.value;
    var route := RouteOf(d);
    if route.Err? {
      return Err(route.failure);
    }
    var rows: Result<seq<Row>>;
    if route.value == WorldBankRoute {
      rows := FetchDatasetFromWorldBank(d, fetch);
    } else {
      rows := FetchDatasetFromOwidCo2(d, download);
    }
    if rows.Err? {
      return Err(rows.failure);
    }
    r := SaveRowsToCsv(rows.value, d, outputDir);
  }

  const DefaultDatasetIds: seq<string> := ["gdp_per_capita", "co2_emissions_per_capita"]

  /** `ingest_default_datasets`, spec form, given what ingesting one id
      gives: the path of each id's CSV, or the first failure. */
  function IngestedAll(ingest: string -> Result<CsvFile>, ids: seq<string>): Result<map<string, string>>
    decreases |ids|
  {
    if ids == [] then Ok(map[])
    else
      match IngestedAll(ingest, ids[..|ids| - 1])
      case Err(f) => Err(f)
      case Ok(paths) =>
        match ingest(ids[|ids| - 1])
        case Err(f) => Err(f)
        case Ok(csv) => Ok(paths[ids[|ids| - 1] := csv.path])
  }

  /** Every id is ingested, each mapped to its own CSV path; otherwise the
      failure of the first id that fails. */
  lemma {:induction false} IngestedAllPaths(ingest: string -> Result<CsvFile>, ids: seq<string>)
    ensures IngestedAll(ingest, ids).Ok? <==> forall j :: 0 <= j < |ids| ==> ingest(ids[j]).Ok?
    ensures IngestedAll(ingest, ids).Ok? ==>
      (IngestedAll(ingest, ids).value.Keys == (set id | id in ids)
       && forall id :: id in ids ==> IngestedAll(ingest, ids).value[id] == ingest(id).value.path)
    decreases |ids|
  {
    if ids != [] {
      var init := ids[..|ids| - 1];
      assert forall j :: 0 <= j < |init| ==> init[j] == ids[j];
      IngestedAllPaths(ingest, init);
      assert ids == init + [ids[|ids| - 1]];
    }
  }

  lemma {:induction false} IngestedAllFirstFailure(ingest: string -> Result<CsvFile>, ids: seq<string>, i: nat)
    requires i < |ids| && ingest(ids[i]).Err?
    requires forall j :: 0 <= j < i ==> ingest(ids[j]).Ok?
    ensures IngestedAll(ingest, ids) == Err(ingest(ids[i]).failure)
    decreases |ids|
  {
    var init := ids[..|ids| - 1];
    if i < |ids| - 1 {
      assert forall j :: 0 <= j < |init| ==> init[j] == ids[j];
      IngestedAllFirstFailure(ingest, init, i);
    } else {
      IngestedAllPaths(ingest, init);
      assert forall j :: 0 <= j < |init| ==> init[j] == ids[j];
    }
  }

  /** `ingest_default_datasets`: each default dataset in turn, each
      reloading the registry file. */
  method IngestDefaultDatasets(file: Option<Json>, keys: seq<string>, outputDir: string,
                               fetch: string -> Result<Json>, download: string -> Result<seq<CsvRecord>>)
    returns (r: Result<map<string, string>>)
    requires file.Some? && file.value.JObj? ==> Distinct(keys) && (set k | k in keys) == file.value.fields.Keys
    ensures r == IngestedAll(id => Ingested(id, Registry(file, keys), outputDir, fetch, download), DefaultDatasetIds)
  {
    ghost var ingest := id => Ingested(id, Registry(file, keys), outputDir, fetch, download);
    var results: map<string, string> := map[];
    for i := 0 to |DefaultDatasetIds|
      invariant IngestedAll(ingest, DefaultDatasetIds[..i]) == Ok(results)
    {
      var id := DefaultDatasetIds[i];
      var res := IngestDataset(id, file, keys, outputDir, fetch, download);
      IngestedAllStep(ingest, DefaultDatasetIds, i, results, res);
      if res.Err? {
        IngestedAllPrefixErr(ingest, DefaultDatasetIds, i + 1);
        return Err(res.failure);
      }
      results := results[id := res.value.path];
    }
    assert DefaultDatasetIds[..|DefaultDatasetIds|] == DefaultDatasetIds;
    return Ok(results);
  }

  lemma IngestedAllStep(ingest: string -> Result<CsvFile>, ids: seq<string>, i: nat, paths: map<string, string>, res: Result<CsvFile>)
    requires i < |ids| && IngestedAll(ingest, ids[..i]) == Ok(paths) && ingest(ids[i]) == res
    ensures IngestedAll(ingest, ids[..i + 1])
      == match res case Err(f) => Err(f) case Ok(csv) => Ok(paths[ids[i] := csv.path])
  {
    assert ids[..i + 1][..i] == ids[..i];
  }

  lemma {:induction false} IngestedAllPrefixErr(ingest: string -> Result<CsvFile>, ids: seq<string>, n: nat)
    requires n <= |ids| && IngestedAll(ingest, ids[..n]).Err?
    ensures IngestedAll(ingest, ids) == IngestedAll(ingest, ids[..n])
    decreases |ids| - n
  {
    if n < |ids| {
      assert ids[..n + 1][..n] == ids[..n];
      IngestedAllPrefixErr(ingest, ids, n + 1);
    } else {
      assert ids[..n] == ids;
    }
  }
}
