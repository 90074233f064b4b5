/** The Wikipedia CO2 crawler (RAW layer): picks the CO2-per-capita table
    among the page's `wikitable`s, reads its headers and data rows with
    footnotes and extra whitespace removed, and writes one RAW record per
    run. The HTML parser is abstracted into the table structure it yields. */
module WikipediaCo2Crawler {
  import opened Common
  import opened Ledger
  import WikipediaCo2Processed

  const WikipediaCo2Url := "https://en.wikipedia.org/wiki/List_of_countries_by_carbon_dioxide_emissions_per_capita"
  const WikipediaDataSource := "wikipedia_co2"
  const RawOutputDir := "raw/wikipedia_co2"

  // ---------------------------------------------------------------------
  // _clean_cell_text

  /** `re.sub(r"\[[^\]]*\]", "", text)`: scanning left to right, a `[`
      with a `]` somewhere after it starts a match that ends at the first
      such `]`; a `[` without one is kept. */
  function RemoveFootnotes(s: string): (r: string)
    ensures |r| <= |s|
    decreases |s|
  {
    if s == [] then []
    else if s[0] == '[' && ']' in s[1..] then
      var close := IndexOf(s, ']').value;
      RemoveFootnotes(s[close + 1..])
    else [s[0]] + RemoveFootnotes(s[1..])
  }

  /** No `[` is followed, anywhere later, by a `]`. */
  predicate NoBracketPair(s: string)
  {
    forall i, j :: 0 <= i < j < |s| && s[i] == '[' ==> s[j] != ']'
  }

  lemma NoBracketPairCons(c: char, t: string)
    requires c == '[' ==> ']' !in t
    requires NoBracketPair(t)
    ensures NoBracketPair([c] + t)
  {
    var s := [c] + t;
    forall i, j | 0 <= i < j < |s| && s[i] == '[' ensures s[j] != ']' {
      assert s[j] == t[j - 1];
      if i > 0 {
        assert s[i] == t[i - 1];
      } else {
        assert t[j - 1] in t;
      }
    }
  }

  lemma NoBracketPairSlice(s: string, a: nat, b: nat)
    requires a <= b <= |s|
    requires NoBracketPair(s)
    ensures NoBracketPair(s[a..b])
  {
    var t := s[a..b];
    forall i, j | 0 <= i < j < |t| && t[i] == '[' ensures t[j] != ']' {
      assert t[i] == s[a + i] && t[j] == s[a + j];
    }
  }

  lemma {:induction false} RemoveFootnotesChars(s: string)
    ensures forall c :: c in RemoveFootnotes(s) ==> c in s
    decreases |s|
  {
    if s != [] {
      if s[0] == '[' && ']' in s[1..] {
        var close := IndexOf(s, ']').value;
        RemoveFootnotesChars(s[close + 1..]);
        forall c | c in RemoveFootnotes(s[close + 1..]) ensures c in s {
          var k :| 0 <= k < |s[close + 1..]| && s[close + 1..][k] == c;
          assert s[close + 1 + k] == c;
        }
      } else {
        RemoveFootnotesChars(s[1..]);
        forall c | c in RemoveFootnotes(s[1..]) ensures c in s {
          var k :| 0 <= k < |s[1..]| && s[1..][k] == c;
          assert s[1 + k] == c;
        }
      }
    }
  }

  /** Every bracketed segment is gone. */
  lemma {:induction false} RemoveFootnotesNoPair(s: string)
    ensures NoBracketPair(RemoveFootnotes(s))
    decreases |s|
  {
    if s != [] {
      if s[0] == '[' && ']' in s[1..] {
        var close := IndexOf(s, ']').value;
        RemoveFootnotesNoPair(s[close + 1..]);
      } else {
        var rest := RemoveFootnotes(s[1..]);
        RemoveFootnotesNoPair(s[1..]);
        RemoveFootnotesChars(s[1..]);
        NoBracketPairCons(s[0], rest);
      }
    }
  }

  /** Text without a bracket pair has no footnote to remove. */
  lemma {:induction false} RemoveFootnotesIdentity(s: string)
    requires NoBracketPair(s)
    ensures RemoveFootnotes(s) == s
    decreases |s|
  {
    if s != [] {
      NoBracketPairSlice(s, 1, |s|);
      RemoveFootnotesIdentity(s[1..]);
      assert s[0] == '[' ==> ']' !in s[1..] by {
        if s[0] == '[' {
          forall k | 0 <= k < |s[1..]| ensures s[1..][k] != ']' {
            assert s[1..][k] == s[k + 1];
          }
        }
      }
      HeadTail(s);
    }
  }

  /** Collapsing whitespace keeps the order of the other characters, so it
      cannot create a bracket pair. */
  lemma {:induction false} CollapseKeepsNoPair(s: string)
    requires NoBracketPair(s)
    ensures NoBracketPair(CollapseWhitespace(s))
    decreases |s|
  {
    if s != [] {
      if IsSpace(s[0]) {
        var l := LStrip(s);
        NoBracketPairSlice(s, |s| - |l|, |s|);
        CollapseKeepsNoPair(l);
        NoBracketPairCons(' ', CollapseWhitespace(l));
      } else {
        var rest := s[1..];
        NoBracketPairSlice(s, 1, |s|);
        CollapseKeepsNoPair(rest);
        var t := CollapseWhitespace(rest);
        if s[0] == '[' {
          assert ']' !in rest by {
            forall k | 0 <= k < |rest| ensures rest[k] != ']' {
              assert rest[k] == s[k + 1];
            }
          }
          CollapseWhitespaceChars(rest);
          assert ']' !in t by {
            forall k | 0 <= k < |t| ensures t[k] != ']' {
              assert t[k] == ' ' || t[k] in rest;
            }
          }
        }
        NoBracketPairCons(s[0], t);
      }
    }
  }

  /** The cleaned text of a cell: footnotes removed, every whitespace run
      one space, surrounding whitespace stripped. */
  function CleanCellText(text: string): string
  {
    Strip(CollapseWhitespace(RemoveFootnotes(text)))
  }

  /** A cleaned text: no bracketed segment, no leading, trailing or doubled
      whitespace, and no whitespace other than the plain space. */
  predicate IsCleanText(t: string)
  {
    && NoBracketPair(t)
    && NoDoubleSpace(t)
    && (t != [] ==> !IsSpace(t[0]) && !IsSpace(t[|t| - 1]))
    && (forall i :: 0 <= i < |t| && IsSpace(t[i]) ==> t[i] == ' ')
  }

  lemma CleanCellTextShape(text: string)
    ensures IsCleanText(CleanCellText(text))
  {
    var f := RemoveFootnotes(text);
    var c := CollapseWhitespace(f);
    assert NoBracketPair(c) by {
      RemoveFootnotesNoPair(text);
      CollapseKeepsNoPair(f);
    }
    assert NoDoubleSpace(c) by { CollapseNoDoubleSpace(f); }
    assert forall i :: 0 <= i < |c| && IsSpace(c[i]) ==> c[i] == ' ' by {
      CollapseWhitespaceChars(f);
    }
    StripKeepsClean(c);
  }

  /** Stripping a text with no bracketed segment, no doubled whitespace and
      only plain spaces gives a cleaned text. */
  lemma StripKeepsClean(c: string)
    requires NoBracketPair(c) && NoDoubleSpace(c)
    requires forall i :: 0 <= i < |c| && IsSpace(c[i]) ==> c[i] == ' '
    ensures IsCleanText(Strip(c))
  {
    StripKeepsShape(c);
    StripKeepsNoPair(c);
    StripKeepsPlainSpaces(c);
  }

  lemma StripKeepsNoPair(c: string)
    requires NoBracketPair(c)
    ensures NoBracketPair(Strip(c))
  {
    var off := |c| - |LStrip(c)|;
    StripSlice(c);
    NoBracketPairSlice(c, off, off + |Strip(c)|);
  }

  lemma StripKeepsPlainSpaces(c: string)
    requires forall i :: 0 <= i < |c| && IsSpace(c[i]) ==> c[i] == ' '
    ensures forall i :: 0 <= i < |Strip(c)| && IsSpace(Strip(c)[i]) ==> Strip(c)[i] == ' '
  {
    var off := |c| - |LStrip(c)|;
    StripSlice(c);
    PlainSpacesSlice(c, off, off + |Strip(c)|);
  }

  /** Cleaning a cleaned text changes nothing. */
  lemma CleanCellTextIdempotent(text: string)
    ensures CleanCellText(CleanCellText(text)) == CleanCellText(text)
  {
    var t := CleanCellText(text);
    CleanCellTextShape(text);
    RemoveFootnotesIdentity(t);
    CollapseWhitespaceIdentity(t);
    StripNoEdgeSpace(t);
  }

  // ---------------------------------------------------------------------
  // find_co2_table_html

  /** A `<td>` or `<th>` cell and its text (`get_text(" ", strip=True)`). */
  datatype Cell = Cell(isHeader: bool, text: string)

  datatype TableRow = TableRow(cells: seq<Cell>)

  /** A `wikitable` as the parser yields it: caption text if there is a
      caption, the whole table's text, its `<tr>` rows and its markup. */
  datatype HtmlTable = HtmlTable(caption: Option<string>, text: string, rows: seq<TableRow>, html: string)

  datatype TableChoice = TableChoice(tableHtml: string, headers: seq<string>)

  const NoWikitable := Failure(RuntimeError, "Nenhuma tabela 'wikitable' encontrada na página da Wikipedia.")
  const NoHeaderRow := Failure(RuntimeError, "Tabela da Wikipedia não possui linha de cabeçalho (<tr>).")
  const NoHeaders := Failure(RuntimeError, "Não foi possível extrair cabeçalhos da tabela de CO2 da Wikipedia.")
  const NoTableTag := Failure(RuntimeError, "HTML fornecido não contém uma tag <table>.")

  /** The three selection rules, on the lower-cased caption and table text. */
  predicate IsCo2Table(t: HtmlTable)
  {
    var caption := if t.caption.Some? then Lower(t.caption.value) else "";
    var text := Lower(t.text);
    || (HasSubstring(caption, "emissions") && HasSubstring(caption, "per capita"))
    || HasSubstring(caption, "co2") || HasSubstring(caption, "carbon dioxide")
    || (HasSubstring(text, "co2") && HasSubstring(text, "per capita"))
  }

  /** The first table in document order that passes a rule. */
  function FirstCo2Table(tables: seq<HtmlTable>): (r: Option<nat>)
    ensures r.None? <==> forall j :: 0 <= j < |tables| ==> !IsCo2Table(tables[j])
    ensures r.Some? ==> r.value < |tables| && IsCo2Table(tables[r.value])
    ensures r.Some? ==> forall j :: 0 <= j < r.value ==> !IsCo2Table(tables[j])
  {
    FirstIndex(tables, IsCo2Table)
  }

  function CellTexts(cells: seq<Cell>, f: string -> string): (ts: seq<string>)
    ensures |ts| == |cells| && forall i :: 0 <= i < |cells| ==> ts[i] == f(cells[i].text)
  {
    if cells == [] then []
    else CellTexts(cells[..|cells| - 1], f) + [f(cells[|cells| - 1].text)]
  }

  /** The cleaned texts of the cells of a row, in order. */
  function CleanTexts(cells: seq<Cell>): (ts: seq<string>)
    ensures |ts| == |cells| && forall i :: 0 <= i < |cells| ==> ts[i] == CleanCellText(cells[i].text)
  {
    CellTexts(cells, CleanCellText)
  }

  predicate NonEmptyText(t: string) { t != "" }

  lemma CleanTextsSnoc(cells: seq<Cell>, k: nat)
    requires k < |cells|
    ensures CleanTexts(cells[..k + 1]) == CleanTexts(cells[..k]) + [CleanCellText(cells[k].text)]
  {
    assert cells[..k + 1][..k] == cells[..k];
    assert CellTexts(cells[..k + 1], CleanCellText)
        == CellTexts(cells[..k], CleanCellText) + [CleanCellText(cells[k].text)];
  }

  /** The headers: the non-empty cleaned texts of the first row's cells. */
  function HeaderTexts(cells: seq<Cell>): (hs: seq<string>)
    ensures forall h :: h in hs <==> h in CleanTexts(cells) && h != ""
  {
    Filter(CleanTexts(cells), NonEmptyText)
  }

  /** What `find_co2_table_html` returns or raises. */
  function Co2TableChoice(tables: seq<HtmlTable>): (r: Result<TableChoice>)
    ensures tables == [] ==> r == Err(NoWikitable)
    ensures r.Ok? ==> r.value.headers != [] && forall h :: h in r.value.headers ==> h != "" && IsCleanText(h)
  {
    if tables == [] then Err(NoWikitable)
    else
      var target := TargetTable(tables);
      if target.rows == [] then Err(NoHeaderRow)
      else
        var headers := HeaderTexts(target.rows[0].cells);
        if headers == [] then Err(NoHeaders)
        else
          assert forall h :: h in headers ==> IsCleanText(h) by {
            forall h | h in headers ensures IsCleanText(h) {
              var ts := CleanTexts(target.rows[0].cells);
              var i :| 0 <= i < |ts| && ts[i] == h;
              CleanCellTextShape(target.rows[0].cells[i].text);
            }
          }
          Ok(TableChoice(target.html, headers))
  }

  /** The chosen table is the first matching one, or the first table when
      none matches. */
  lemma Co2TableChoiceIsFirstMatch(tables: seq<HtmlTable>, k: nat)
    requires k < |tables| && IsCo2Table(tables[k])
    requires forall j :: 0 <= j < k ==> !IsCo2Table(tables[j])
    requires tables[k].rows != []
    ensures Co2TableChoice(tables) ==
      (if HeaderTexts(tables[k].rows[0].cells) == [] then Err(NoHeaders)
       else Ok(TableChoice(tables[k].html, HeaderTexts(tables[k].rows[0].cells))))
  {
    var r := FirstCo2Table(tables);
    assert r.Some?;
    assert !(r.value < k) && !(k < r.value);
  }

  lemma Co2TableChoiceFallback(tables: seq<HtmlTable>)
    requires tables != [] && tables[0].rows != []
    requires forall j :: 0 <= j < |tables| ==> !IsCo2Table(tables[j])
    ensures Co2TableChoice(tables) ==
      (if HeaderTexts(tables[0].rows[0].cells) == [] then Err(NoHeaders)
       else Ok(TableChoice(tables[0].html, HeaderTexts(tables[0].rows[0].cells))))
  {
  }

  function TargetTable(tables: seq<HtmlTable>): HtmlTable
    requires tables != []
  {
    match FirstCo2Table(tables) case Some(k) => tables[k] case None => tables[0]
  }

  /** The selection loop with its `break`: the first matching table, else
      the first table. */
  method SelectCo2Table(tables: seq<HtmlTable>) returns (table: HtmlTable)
    requires tables != []
    ensures table == TargetTable(tables)
  {
    var i := 0;
    while i < |tables|
      invariant 0 <= i <= |tables|
      invariant forall j :: 0 <= j < i ==> !IsCo2Table(tables[j])
    {
      if IsCo2Table(tables[i]) {
        var first := FirstCo2Table(tables);
        assert first.Some? && !(first.value < i) && !(i < first.value);
        return tables[i];
      }
      i := i + 1;
    }
    return tables[0];
  }

  /** The header loop over the cells of the first row. */
  method ExtractHeaders(cells: seq<Cell>) returns (headers: seq<string>)
    ensures headers == HeaderTexts(cells)
  {
    headers := [];
    for k := 0 to |cells|
      invariant headers == Filter(CleanTexts(cells[..k]), NonEmptyText)
    {
      var text := CleanCellText(cells[k].text);
      CleanTextsSnoc(cells, k);
      FilterAppend(CleanTexts(cells[..k]), [text], NonEmptyText);
      FilterSingleton(text, NonEmptyText);
      if text != "" {
        headers := headers + [text];
      }
    }
    assert cells[..|cells|] == cells;
  }

  /** `find_co2_table_html`. */
  method FindCo2TableHtml(tables: seq<HtmlTable>) returns (r: Result<TableChoice>)
    ensures r == Co2TableChoice(tables)
  {
    if tables == [] {
      return Err(NoWikitable);
    }
    var table := SelectCo2Table(tables);
    if table.rows == [] {
      return Err(NoHeaderRow);
    }
    var headers := ExtractHeaders(table.rows[0].cells);
    if headers == [] {
      return Err(NoHeaders);
    }
    return Ok(TableChoice(table.html, headers));
  }

  // ---------------------------------------------------------------------
  // parse_co2_table_rows

  /** The value of header `i`: the cleaned text of cell `i`, or null when
      the cell is missing or its text is empty. */
  function CellValue(cells: seq<Cell>, i: nat): (v: Option<string>)
    ensures v.Some? ==> i < |cells| && v.value == CleanCellText(cells[i].text) && v.value != ""
    ensures v.None? <==> i >= |cells| || CleanCellText(cells[i].text) == ""
  {
    if i < |cells| then
      var t := CleanCellText(cells[i].text);
      if t == "" then None else Some(t)
    else None
  }

  /** The dictionary of one data row, filled header by header (a repeated
      header keeps the value of its last position). */
  function RowValues(headers: seq<string>, cells: seq<Cell>): map<string, Option<string>>
    decreases |headers|
  {
    if headers == [] then map[]
    else
      var n := |headers| - 1;
      RowValues(headers[..n], cells)[headers[n] := CellValue(cells, n)]
  }

  /** The dictionary's keys are exactly the headers. */
  lemma {:induction false} RowValuesKeys(headers: seq<string>, cells: seq<Cell>)
    ensures forall h :: h in RowValues(headers, cells) <==> h in headers
    decreases |headers|
  {
    if headers != [] {
      var n := |headers| - 1;
      var init := headers[..n];
      RowValuesKeys(init, cells);
      assert headers == init + [headers[n]];
    }
  }

  /** Header `i`, when no later header repeats it, holds the value of cell `i`. */
  lemma {:induction false} RowValuesAt(headers: seq<string>, cells: seq<Cell>, i: nat)
    requires i < |headers|
    requires forall j :: i < j < |headers| ==> headers[j] != headers[i]
    ensures headers[i] in RowValues(headers, cells) && RowValues(headers, cells)[headers[i]] == CellValue(cells, i)
    decreases |headers|
  {
    var n := |headers| - 1;
    var init := headers[..n];
    var m := RowValues(init, cells);
    assert RowValues(headers, cells) == m[headers[n] := CellValue(cells, n)];
    if i < n {
      assert headers[n] != headers[i] && init[i] == headers[i];
      assert init[i] in m && m[init[i]] == CellValue(cells, i) by {
        assert forall j :: i < j < |init| ==> init[j] == headers[j];
        RowValuesAt(init, cells, i);
      }
    }
  }

  /** Cells beyond the last header are ignored. */
  lemma {:induction false} RowValuesIgnoresExtraCells(headers: seq<string>, cells: seq<Cell>, extra: seq<Cell>)
    requires |headers| <= |cells|
    ensures RowValues(headers, cells + extra) == RowValues(headers, cells)
    decreases |headers|
  {
    if headers != [] {
      var n := |headers| - 1;
      RowValuesIgnoresExtraCells(headers[..n], cells, extra);
      assert (cells + extra)[n] == cells[n];
    }
  }

  /** A data row has cells and none of them is a header cell. */
  predicate IsDataRow(tr: TableRow)
  {
    tr.cells != [] && forall c :: c in tr.cells ==> !c.isHeader
  }

  /** The rows of `parse_co2_table_rows`, in order. */
  function DataRows(rows: seq<TableRow>, headers: seq<string>): (out: seq<map<string, Option<string>>>)
    ensures |out| <= |rows|
    ensures forall m :: m in out ==> forall h :: h in m <==> h in headers
  {
    if rows == [] then []
    else
      var n := |rows| - 1;
      RowValuesKeys(headers, rows[n].cells);
      DataRows(rows[..n], headers) + (if IsDataRow(rows[n]) then [RowValues(headers, rows[n].cells)] else [])
  }

  /** Every data row contributes its dictionary, and only data rows do. */
  lemma {:induction false} DataRowsCount(rows: seq<TableRow>, headers: seq<string>)
    ensures |DataRows(rows, headers)| == |Filter(rows, IsDataRow)|
    decreases |rows|
  {
    if rows != [] {
      DataRowsCount(rows[..|rows| - 1], headers);
    }
  }

  /** `parse_co2_table_rows` on the re-parsed table (None when the markup
      has no `<table>`): the loop over rows with the inner loop over headers. */
  method ParseCo2TableRows(table: Option<HtmlTable>, headers: seq<string>)
    returns (r: Result<seq<map<string, Option<string>>>>)
    ensures table.None? ==> r == Err(NoTableTag)
    ensures table.Some? ==> r == Ok(DataRows(table.value.rows, headers))
  {
    if table.None? {
      return Err(NoTableTag);
    }
    var trs := table.value.rows;
    var rows: seq<map<string, Option<string>>> := [];
    for t := 0 to |trs|
      invariant rows == DataRows(trs[..t], headers)
    {
      assert trs[..t + 1][..t] == trs[..t];
      var tr := trs[t];
      if !IsDataRow(tr) {
        continue;
      }
      var values := ParseRowValues(headers, tr.cells);
      rows := rows + [values];
    }
    assert trs[..|trs|] == trs;
    return Ok(rows);
  }

  /** The inner loop of `parse_co2_table_rows`: one dictionary entry per
      header, in header order. */
  method ParseRowValues(headers: seq<string>, cells: seq<Cell>) returns (values: map<string, Option<string>>)
    ensures values == RowValues(headers, cells)
  {
    values := map[];
    for idx := 0 to |headers|
      invariant values == RowValues(headers[..idx], cells)
    {
      assert headers[..idx + 1][..idx] == headers[..idx];
      values := values[headers[idx] := CellValue(cells, idx)];
    }
    assert headers[..|headers|] == headers;
  }

  // ---------------------------------------------------------------------
  // The RAW record and crawl_wikipedia_co2_raw

  function CellJson(v: Option<string>): Json
  {
    if v.Some? then JStr(v.value) else JNull
  }

  function RowJson(row: map<string, Option<string>>): Json
  {
    JObj(map h | h in row :: CellJson(row[h]))
  }

  function RowsJson(rows: seq<map<string, Option<string>>>): (items: seq<Json>)
    ensures |items| == |rows| && forall i :: 0 <= i < |rows| ==> items[i] == RowJson(rows[i])
  {
    seq(|rows|, i requires 0 <= i < |rows| => RowJson(rows[i]))
  }

  /** `{page_url, headers, rows}`: the payload that is hashed. */
  function RawPayload(url: string, headers: seq<string>, rows: seq<map<string, Option<string>>>): Json
  {
    JObj(map["page_url" := JStr(url),
             "headers" := JArr(seq(|headers|, i requires 0 <= i < |headers| => JStr(headers[i]))),
             "rows" := JArr(RowsJson(rows))])
  }

  function RecordHash(codec: Codec, url: string, headers: seq<string>, rows: seq<map<string, Option<string>>>): string
  {
    codec.sha1Hex(codec.dumpsSorted(RawPayload(url, headers, rows)))
  }

  function RawCo2FilePath(fileStamp: string): string
  {
    RawOutputDir + "/wikipedia_co2_raw_" + fileStamp + ".jsonl"
  }

  /** The one RAW record of a run. */
  function RawRecord(codec: Codec, url: string, choice: TableChoice, rows: seq<map<string, Option<string>>>,
                     runId: string, ingestionTs: string, path: string): map<string, Json>
  {
    map["ingestion_run_id" := JStr(runId),
        "ingestion_ts" := JStr(ingestionTs),
        "data_source" := JStr(WikipediaDataSource),
        "page_url" := JStr(url),
        "table_html" := JStr(choice.tableHtml),
        "raw_table_json" := RawPayload(url, choice.headers, rows),
        "record_hash" := JStr(RecordHash(codec, url, choice.headers, rows)),
        "raw_file_path" := JStr(path)]
  }

  /** The record hash depends on the page URL, headers and rows alone: two
      runs that scrape the same table record the same hash. */
  lemma RecordHashIgnoresAudit(codec: Codec, url: string, choice: TableChoice,
                               rows: seq<map<string, Option<string>>>,
                               run1: string, ts1: string, path1: string, run2: string, ts2: string, path2: string)
    ensures RawRecord(codec, url, choice, rows, run1, ts1, path1)["record_hash"]
         == RawRecord(codec, url, choice, rows, run2, ts2, path2)["record_hash"]
    ensures RawRecord(codec, url, choice, rows, run1, ts1, path1)["record_hash"]
         == JStr(codec.sha1Hex(codec.dumpsSorted(RawPayload(url, choice.headers, rows))))
  {
  }

  /** The PROCESSED stage reads back exactly the scraped rows and the run's
      audit fields from a RAW record. */
  lemma RawRecordFeedsProcessed(codec: Codec, url: string, choice: TableChoice,
                                rows: seq<map<string, Option<string>>>,
                                runId: string, ingestionTs: string, path: string)
    ensures var rec := RawRecord(codec, url, choice, rows, runId, ingestionTs, path);
      && WikipediaCo2Processed.TableRows(JObj(rec)) == Ok(RowsJson(rows))
      && WikipediaCo2Processed.RecordAudit(rec)
         == WikipediaCo2Processed.Audit(Some(runId), Some(ingestionTs), WikipediaDataSource)
  {
    var rec := RawRecord(codec, url, choice, rows, runId, ingestionTs, path);
    var payload := RawPayload(url, choice.headers, rows);
    assert rec["raw_table_json"] == payload;
    assert "page_url" in payload.fields;
    assert Truthy(payload);
    assert Get(payload.fields, "rows") == JArr(RowsJson(rows));
    assert Truthy(JStr(WikipediaDataSource));
  }

  /** Clock readings: run start, ingestion time, the file name stamp
      (`%Y%m%dT%H%M%SZ`) and run end. */
  datatype CrawlClock = CrawlClock(runStart: string, ingestion: string, fileStamp: string, runEnd: string)

  /** The JSONL file written: its path and its single record. */
  datatype RawCo2Output = RawCo2Output(path: string, record: map<string, Json>, rowsProcessed: nat)

  /** What a crawl produces from the fetched page (its `wikitable`s, or
      the fetch failure), before the write. */
  function CrawlResult(codec: Codec, url: string, page: Result<seq<HtmlTable>>, runId: string,
                       clock: CrawlClock): Result<RawCo2Output>
  {
    match page
    case Err(f) => Err(f)
    case Ok(tables) =>
      match Co2TableChoice(tables)
      case Err(f) => Err(f)
      case Ok(choice) =>
        var rows := DataRows(TargetTable(tables).rows, choice.headers);
        var path := RawCo2FilePath(clock.fileStamp);
        Ok(RawCo2Output(path, RawRecord(codec, url, choice, rows, runId, clock.ingestion, path), |rows|))
  }

  /** `crawl_wikipedia_co2_raw` over the in-memory ledger. The run always
      closes: SUCCESS with the row count and no checkpoint, or FAILED with
      the error, which is raised again. `writeError` is the failure of the
      JSONL write, if it fails. Re-parsing the chosen table's markup is
      taken to give back the same table. */
  method CrawlWikipediaCo2Raw(store: LocalStore, codec: Codec, url: string, page: Result<seq<HtmlTable>>,
                              runScope: string, runId: string, clock: CrawlClock, writeError: Option<Failure>)
    returns (r: Result<RawCo2Output>)
    modifies store
    ensures store.checkpoints == old(store.checkpoints)
    ensures var expected := CrawlResult(codec, url, page, runId, clock);
      var openRun := OpenRun(runId, runScope, clock.runStart);
      if expected.Err? || writeError.Some? then
        var failure := if expected.Err? then expected.failure else writeError.value;
        && r == Err(failure)
        && store.runs == old(store.runs) + [CloseRun(openRun, Failed, clock.runEnd, None, None, Some(failure.message))]
      else
        && r == expected
        && store.runs == old(store.runs) + [CloseRun(openRun, Success, clock.runEnd, Some(expected.value.rowsProcessed), None, None)]
  {
    var id := store.StartRun(runScope, runId, clock.runStart);
    ghost var started := store.runs;
    assert FindLast(started, id) == Some(|started| - 1);
    var outcome := ScrapeCo2Page(codec, url, page, id, clock);
    r := CloseCrawlRun(store, old(store.runs), id, OpenRun(runId, runScope, clock.runStart), clock.runEnd,
                       outcome, writeError);
  }

  /** The end of the crawl: the open run, last in the ledger, closes as
      FAILED when scraping or the write failed, as SUCCESS otherwise. */
  method CloseCrawlRun(store: LocalStore, ghost before: seq<RunRecord>, id: string, openRun: RunRecord, now: string,
                       outcome: Result<RawCo2Output>, writeError: Option<Failure>)
    returns (r: Result<RawCo2Output>)
    requires store.runs == before + [openRun]
    requires FindLast(store.runs, id) == Some(|before|)
    modifies store
    ensures store.checkpoints == old(store.checkpoints)
    ensures if outcome.Err? || writeError.Some? then
        var failure := if outcome.Err? then outcome.failure else writeError.value;
        && r == Err(failure)
        && store.runs == before + [CloseRun(openRun, Failed, now, None, None, Some(failure.message))]
      else
        && r == outcome
        && store.runs == before + [CloseRun(openRun, Success, now, Some(outcome.value.rowsProcessed), None, None)]
  {
    if outcome.Err? || writeError.Some? {
      var failure := if outcome.Err? then outcome.failure else writeError.value;
      var closed := store.EndRun(id, Failed, now, None, None, Some(failure.message));
      return Err(failure);
    }
    var closed := store.EndRun(id, Success, now, Some(outcome.value.rowsProcessed), None, None);
    return outcome;
  }

  /** The body of the crawl before the write: choose the table, parse its
      rows and build the RAW record. */
  method ScrapeCo2Page(codec: Codec, url: string, page: Result<seq<HtmlTable>>, runId: string, clock: CrawlClock)
    returns (r: Result<RawCo2Output>)
    ensures r == CrawlResult(codec, url, page, runId, clock)
  {
    if page.Err? {
      return Err(page.failure);
    }
    var choice := FindCo2TableHtml(page.value);
    if choice.Err? {
      return Err(choice.failure);
    }
    var target := SelectCo2Table(page.value);
    var rows := ParseCo2TableRows(Some(target), choice.value.headers);
    var path := RawCo2FilePath(clock.fileStamp);
    return Ok(RawCo2Output(path, RawRecord(codec, url, choice.value, rows.value, runId, clock.ingestion, path),
                           |rows.value|));
  }
}
