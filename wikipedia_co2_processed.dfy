/** The PROCESSED layer for Wikipedia CO2 per capita: every RAW table row
    with a location is unpivoted into one row per available year (2000,
    then 2023), country names can be mapped to ISO3 codes through a
    mapping table, and the rows are written as one partition per year. */
module WikipediaCo2Processed {
  import opened Common

  const WikipediaDataSource := "wikipedia_co2"
  const ProcessedOutputDir := "processed/wikipedia_co2"
  const ProcessedBasePrefix := "processed/wikipedia_co2"
  const PartitionFileName := "processed_wikipedia_co2_per_capita.parquet"

  const LocationColumn := "Location"
  const Emissions2023Column := "Emissions per capita (tons per year)"
  const Emissions2000Column := "% change from 2000"

  // ---------------------------------------------------------------------
  // Country-name normalisation (the join key shared with the mapping)

  predicate IsKeyChar(c: char)
  {
    IsAsciiLower(c) || IsDigit(c) || c == ' '
  }

  /** `str.lower()`, NFKD decomposition and removal of combining marks, on
      one character. Exact for ASCII and for the Latin-1 block: accented
      letters lose their accent, the ordinal indicators, superscript
      digits and vulgar fractions decompose to their ASCII parts, and
      every other character is kept (the next step turns it into a
      space). */
  function FoldChar(c: char): (r: string)
    ensures IsKeyChar(c) ==> r == [c]
  {
    var n := c as int;
    if IsAsciiUpper(c) then [ToLowerChar(c)]
    else if (0xC0 <= n <= 0xC5) || (0xE0 <= n <= 0xE5) || n == 0xAA then "a"
    else if n == 0xC7 || n == 0xE7 then "c"
    else if (0xC8 <= n <= 0xCB) || (0xE8 <= n <= 0xEB) then "e"
    else if (0xCC <= n <= 0xCF) || (0xEC <= n <= 0xEF) then "i"
    else if n == 0xD1 || n == 0xF1 then "n"
    else if (0xD2 <= n <= 0xD6) || (0xF2 <= n <= 0xF6) || n == 0xBA then "o"
    else if (0xD9 <= n <= 0xDC) || (0xF9 <= n <= 0xFC) then "u"
    else if n == 0xDD || n == 0xFD || n == 0xFF then "y"
    else if n == 0xB9 then "1"
    else if n == 0xB2 then "2"
    else if n == 0xB3 then "3"
    else if n == 0xBC then ['1', 0x2044 as char, '4']
    else if n == 0xBD then ['1', 0x2044 as char, '2']
    else if n == 0xBE then ['3', 0x2044 as char, '4']
    else [c]
  }

  function Fold(s: string): string
  {
    if s == [] then [] else FoldChar(s[0]) + Fold(s[1..])
  }

  /** `re.sub(r"[^a-z0-9 ]", " ", s)`. */
  function Sanitize(s: string): (r: string)
    ensures |r| == |s|
    ensures forall i :: 0 <= i < |s| ==> r[i] == (if IsKeyChar(s[i]) then s[i] else ' ')
  {
    seq(|s|, i requires 0 <= i < |s| => if IsKeyChar(s[i]) then s[i] else ' ')
  }

  /** `normalize_country_name`: None becomes the empty key. */
  function NormalizeCountryName(name: Option<string>): string
  {
    match name
    case None => ""
    case Some(s) => Strip(CollapseWhitespace(Sanitize(Fold(s))))
  }

  /** A join key: lower-case letters, digits and single inner spaces. */
  predicate IsNormalizedName(t: string)
  {
    && (forall i :: 0 <= i < |t| ==> IsKeyChar(t[i]))
    && (t != [] ==> t[0] != ' ' && t[|t| - 1] != ' ')
    && NoDoubleSpace(t)
  }

  lemma KeyCharSpace(c: char)
    requires IsKeyChar(c) && IsSpace(c)
    ensures c == ' '
  {
  }

  lemma CollapsedKeyChars(x: string)
    requires forall i :: 0 <= i < |x| ==> IsKeyChar(x[i])
    ensures forall ch :: ch in CollapseWhitespace(x) ==> IsKeyChar(ch)
  {
    var c := CollapseWhitespace(x);
    CollapseWhitespaceChars(x);
    forall ch | ch in c ensures IsKeyChar(ch) {
      var k :| 0 <= k < |c| && c[k] == ch;
      if ch != ' ' {
        var j :| 0 <= j < |x| && x[j] == ch;
      }
    }
  }

  /** Every key has the normalised shape. */
  lemma NormalizedNameShape(name: Option<string>)
    ensures IsNormalizedName(NormalizeCountryName(name))
  {
    if name.Some? {
      var x := Sanitize(Fold(name.value));
      var c := CollapseWhitespace(x);
      var t := Strip(c);
      assert t == NormalizeCountryName(name);
      CollapseNoDoubleSpace(x);
      CollapsedKeyChars(x);
      StripKeepsShape(c);
      forall i | 0 <= i < |t| ensures IsKeyChar(t[i]) {
        assert t[i] in t;
      }
      assert t != [] ==> !IsSpace(t[0]) && !IsSpace(t[|t| - 1]);
    }
  }

  lemma {:induction false} FoldKeyText(t: string)
    requires forall i :: 0 <= i < |t| ==> IsKeyChar(t[i])
    ensures Fold(t) == t
    decreases |t|
  {
    if t != [] {
      FoldKeyText(t[1..]);
      HeadTail(t);
    }
  }

  /** Normalising a key again changes nothing. */
  lemma NormalizeIdempotent(name: Option<string>)
    ensures NormalizeCountryName(Some(NormalizeCountryName(name))) == NormalizeCountryName(name)
  {
    NormalizedNameShape(name);
    NormalizedNameFixed(NormalizeCountryName(name));
  }

  /** A text of the normalised shape is its own key. */
  lemma NormalizedNameFixed(t: string)
    requires IsNormalizedName(t)
    ensures NormalizeCountryName(Some(t)) == t
  {
    assert Fold(t) == t by { FoldKeyText(t); }
    assert Sanitize(t) == t;
    assert CollapseWhitespace(t) == t by { NormalizedCollapsed(t); }
    assert Strip(t) == t by { NormalizedStripped(t); }
  }

  lemma NormalizedCollapsed(t: string)
    requires IsNormalizedName(t)
    ensures CollapseWhitespace(t) == t
  {
    forall i | 0 <= i < |t| && IsSpace(t[i]) ensures t[i] == ' ' {
      KeyCharSpace(t[i]);
    }
    CollapseWhitespaceIdentity(t);
  }

  lemma NormalizedStripped(t: string)
    requires IsNormalizedName(t)
    ensures Strip(t) == t
  {
    if t != [] {
      KeyCharNotSpace(t[0]);
      KeyCharNotSpace(t[|t| - 1]);
    }
    StripNoEdgeSpace(t);
  }

  lemma KeyCharNotSpace(c: char)
    requires IsKeyChar(c) && c != ' '
    ensures !IsSpace(c)
  {
  }

  lemma {:induction false} FoldUpper(s: string)
    ensures Fold(Upper(s)) == Fold(s)
    decreases |s|
  {
    if s != [] {
      FoldUpper(s[1..]);
      assert Upper(s) == [ToUpperChar(s[0])] + Upper(s[1..]);
      assert FoldChar(ToUpperChar(s[0])) == FoldChar(s[0]);
    }
  }

  /** Letter case does not matter to the key. */
  lemma NormalizeIgnoresCase(s: string)
    ensures NormalizeCountryName(Some(Upper(s))) == NormalizeCountryName(Some(s))
  {
    FoldUpper(s);
  }

  // ---------------------------------------------------------------------
  // Cell values

  /** The placeholders the table uses for a missing value (after strip);
      `text.upper()` can only equal "NA" or "N/A" through the ASCII letters
      of those words. */
  predicate IsMissingText(t: string)
  {
    || t == "" || t == "-" || t == [0x2013 as char]
    || (|t| == 2 && ToUpperChar(t[0]) == 'N' && ToUpperChar(t[1]) == 'A')
    || (|t| == 3 && ToUpperChar(t[0]) == 'N' && t[1] == '/' && ToUpperChar(t[2]) == 'A')
  }

  /** `_parse_float`: numbers (and booleans, which Python counts as ints)
      convert directly; text is stripped, the missing markers give None,
      thousands separators are dropped and unparseable text gives None. */
  function ParseFloat(v: Json): (r: Option<real>)
    ensures v.JNull? ==> r.None?
    ensures v.JStr? && IsMissingText(Strip(v.s)) ==> r.None?
  {
    match v
    case JNull => None
    case JBool(b) => Some(if b then 1.0 else 0.0)
    case JInt(i) => Some(i as real)
    case JFloat(x) => Some(x)
    case _ => ParseFloatText(PyStr(v))
  }

  /** The text branch of `_parse_float`. */
  function ParseFloatText(s: string): Option<real>
  {
    var text := Strip(s);
    if IsMissingText(text) then None
    else ParseNumber(RemoveChar(text, ','))
  }

  lemma {:induction false} RemoveCharAbsent(s: string, c: char)
    requires c !in s
    ensures RemoveChar(s, c) == s
    decreases |s|
  {
    if s != [] {
      RemoveCharAbsent(s[1..], c);
      HeadTail(s);
    }
  }

  /** Integer text reads back as its value. */
  lemma ParseFloatOfIntText(n: int)
    ensures ParseFloat(JStr(IntToString(n))) == Some(n as real)
  {
    var t := IntToString(n);
    assert ParseFloat(JStr(t)) == ParseFloatText(t);
    assert ParseFloatText(t) == ParseNumber(t) by {
      IntTextPlain(n);
      ParseFloatTextPlain(t);
    }
    assert ParseNumber(t) == Some(n as real) by { ParseNumberOfIntToString(n); }
  }

  /** Text that is stripped, not a missing marker and free of commas is
      read by `float()` as it is. */
  lemma ParseFloatTextPlain(t: string)
    requires Strip(t) == t && !IsMissingText(t) && ',' !in t
    ensures ParseFloatText(t) == ParseNumber(t)
  {
    RemoveCharAbsent(t, ',');
  }

  /** Integer text has no edge whitespace, no comma and is no marker. */
  lemma IntTextPlain(n: int)
    ensures var t := IntToString(n); Strip(t) == t && !IsMissingText(t) && ',' !in t
  {
    if n < 0 {
      var d := NatToString(-n);
      assert IntToString(n) == "-" + d;
      NegativeDigitTextPlain(d);
    } else {
      DigitTextPlain(NatToString(n));
    }
  }

  lemma DigitTextPlain(d: string)
    requires AllDigits(d)
    ensures Strip(d) == d && !IsMissingText(d) && ',' !in d
  {
    DigitsNotMissing(d);
    assert ',' !in d by {
      forall i | 0 <= i < |d| ensures d[i] != ',' { assert IsDigit(d[i]); }
    }
    StripOfDigits(d);
  }

  lemma DigitsNotMissing(d: string)
    requires AllDigits(d)
    ensures !IsMissingText(d)
  {
    assert IsDigit(d[0]);
  }

  lemma NegativeDigitTextPlain(d: string)
    requires AllDigits(d)
    ensures var t := "-" + d; Strip(t) == t && !IsMissingText(t) && ',' !in t
  {
    NegativeDigitsNotMissing(d);
    var t := "-" + d;
    assert ',' !in t by {
      forall i | 0 <= i < |t| ensures t[i] != ',' {
        if i > 0 { assert t[i] == d[i - 1] && IsDigit(d[i - 1]); }
      }
    }
    StripOfNegativeDigits(d);
  }

  lemma NegativeDigitsNotMissing(d: string)
    requires AllDigits(d)
    ensures !IsMissingText("-" + d)
  {
    var t := "-" + d;
    assert t[1] == d[0] && IsDigit(d[0]);
  }

  lemma {:induction false} RemoveCharAppend(x: string, y: string, c: char)
    ensures RemoveChar(x + y, c) == RemoveChar(x, c) + RemoveChar(y, c)
    decreases |x|
  {
    if x == [] {
      assert x + y == y;
    } else {
      assert (x + y)[0] == x[0] && (x + y)[1..] == x[1..] + y;
      RemoveCharAppend(x[1..], y, c);
    }
  }

  lemma ThousandsTextKept(a: string, b: string)
    requires AllDigits(a) && AllDigits(b)
    ensures Strip(a + "," + b) == a + "," + b && !IsMissingText(a + "," + b)
  {
    var t := a + "," + b;
    assert t[0] == a[0] && t[|t| - 1] == b[|b| - 1];
    DigitNotSpace(a[0]);
    DigitNotSpace(b[|b| - 1]);
    StripNoEdgeSpace(t);
    assert |t| >= 3 && IsDigit(t[0]) && t[|a|] == ',';
  }

  lemma ThousandsSeparatorRemoved(a: string, b: string)
    requires AllDigits(a) && AllDigits(b)
    ensures RemoveChar(a + "," + b, ',') == a + b
  {
    assert RemoveChar(a, ',') == a by {
      assert forall i :: 0 <= i < |a| ==> IsDigit(a[i]);
      RemoveCharAbsent(a, ',');
    }
    assert RemoveChar(b, ',') == b by {
      assert forall i :: 0 <= i < |b| ==> IsDigit(b[i]);
      RemoveCharAbsent(b, ',');
    }
    assert RemoveChar(",", ',') == [] by { assert ","[1..] == []; }
    assert RemoveChar(a + ",", ',') == a by { RemoveCharAppend(a, ",", ','); }
    RemoveCharAppend(a + ",", b, ',');
  }

  /** A thousands separator between two digit groups is ignored. */
  lemma ParseFloatThousands(a: string, b: string)
    requires AllDigits(a) && AllDigits(b)
    ensures ParseFloat(JStr(a + "," + b)) == Some(DigitsValue(a + b) as real)
  {
    var t := a + "," + b;
    assert ParseFloat(JStr(t)) == ParseFloatText(t);
    assert ParseFloatText(t) == ParseNumber(a + b) by {
      ThousandsTextKept(a, b);
      ThousandsSeparatorRemoved(a, b);
    }
    assert ParseNumber(a + b) == Some(DigitsValue(a + b) as real) by {
      AllDigitsAppend(a, b);
      ParseNumberOfDigits(a + b);
    }
  }

  lemma AllDigitsAppend(a: string, b: string)
    requires AllDigits(a) && AllDigits(b)
    ensures AllDigits(a + b)
  {
    assert forall i :: 0 <= i < |a + b| ==> (a + b)[i] == (if i < |a| then a[i] else b[i - |a|]);
  }

  /** The two values a table row provides. The 2000 value is read from the
      "% change from 2000" column, as the source does. */
  datatype Emissions = Emissions(e2023: Option<real>, e2000: Option<real>)

  function ExtractEmissions(row: map<string, Json>): (e: Emissions)
    ensures e.e2023 == ParseFloat(Get(row, Emissions2023Column))
    ensures e.e2000 == ParseFloat(Get(row, Emissions2000Column))
  {
    Emissions(ParseFloat(Get(row, Emissions2023Column)), ParseFloat(Get(row, Emissions2000Column)))
  }

  // ---------------------------------------------------------------------
  // Unpivoting the RAW table

  /** One PROCESSED row (every field nullable, as the all-NA placeholder
      row shows). */
  datatype Co2Row = Co2Row(
    countryName: Option<string>,
    countryNameNormalized: Option<string>,
    countryCode: Option<string>,
    year: Option<int>,
    co2TonsPerCapita: Option<real>,
    notes: Option<string>,
    ingestionRunId: Option<string>,
    ingestionTs: Option<string>,
    dataSource: Option<string>)

  const Co2Columns: seq<string> := [
    "country_name", "country_name_normalized", "country_code", "year",
    "co2_tons_per_capita", "notes", "ingestion_run_id", "ingestion_ts", "data_source"]

  /** The single all-null row of a table built from nothing. */
  const PlaceholderRow := Co2Row(None, None, None, None, None, None, None, None, None)

  datatype Co2Table = Co2Table(columns: seq<string>, rows: seq<Co2Row>)

  /** The audit fields a RAW record hands to each of its rows. */
  datatype Audit = Audit(runId: Option<string>, ts: Option<string>, source: string)

  function RecordAudit(record: map<string, Json>): (a: Audit)
    ensures !Truthy(Get(record, "data_source")) ==> a.source == WikipediaDataSource
  {
    var ds := Get(record, "data_source");
    Audit(OptionalText(Get(record, "ingestion_run_id")), OptionalText(Get(record, "ingestion_ts")),
          if Truthy(ds) then PyStr(ds) else WikipediaDataSource)
  }

  function YearRow(name: string, year: int, value: real, audit: Audit): Co2Row
  {
    Co2Row(Some(name), Some(NormalizeCountryName(Some(name))), None, Some(year), Some(value),
           None, audit.runId, audit.ts, Some(audit.source))
  }

  /** The rows one table row turns into: nothing without a truthy
      location, else the 2000 row (if that value parses) followed by the
      2023 row (if that value parses). A non-dict row raises. */
  function UnpivotRow(row: Json, audit: Audit): Result<seq<Co2Row>>
  {
    if !row.JObj? then Err(Failure(AttributeError, "object has no attribute 'get'"))
    else
      var loc := Get(row.fields, LocationColumn);
      if !Truthy(loc) then Ok([])
      else
        var name := PyStr(loc);
        var e := ExtractEmissions(row.fields);
        Ok(YearRows(name, e.e2000, e.e2023, audit))
  }

  function RowStep(audit: Audit): Json -> Result<seq<Co2Row>>
  {
    (row: Json) => UnpivotRow(row, audit)
  }

  /** What an unpivoted row holds: the location text and its key, no code,
      the year and the value of that year's column, the record's audit
      fields. */
  predicate WellFormedRow(r: Co2Row)
  {
    && r.countryName.Some? && r.countryName.value != ""
    && r.countryNameNormalized == Some(NormalizeCountryName(r.countryName))
    && r.countryCode.None? && r.notes.None?
    && (r.year == Some(2000) || r.year == Some(2023))
    && r.co2TonsPerCapita.Some? && r.dataSource.Some?
  }

  /** A row unpivoted from the location `name`: well formed, carrying the
      record's audit fields and the value of its own year's column. */
  predicate UnpivotedFrom(x: Co2Row, name: string, audit: Audit, v2000: Option<real>, v2023: Option<real>)
  {
    && WellFormedRow(x) && x.countryName == Some(name)
    && x.ingestionRunId == audit.runId && x.ingestionTs == audit.ts
    && x.dataSource == Some(audit.source)
    && (x.year == Some(2000) ==> x.co2TonsPerCapita == v2000)
    && (x.year == Some(2023) ==> x.co2TonsPerCapita == v2023)
  }

  /** A table row gives at most one row per year, 2000 first, each carrying
      the value of its own column; none without a location. */
  lemma UnpivotRowShape(row: map<string, Json>, audit: Audit)
    ensures var r := UnpivotRow(JObj(row), audit).value;
      var loc := Get(row, LocationColumn);
      var v2000 := ParseFloat(Get(row, Emissions2000Column));
      var v2023 := ParseFloat(Get(row, Emissions2023Column));
      && UnpivotRow(JObj(row), audit).Ok?
      && (!Truthy(loc) ==> r == [])
      && (Truthy(loc) ==>
            && |r| == (if v2000.Some? then 1 else 0) + (if v2023.Some? then 1 else 0)
            && (forall k :: 0 <= k < |r| ==> UnpivotedFrom(r[k], PyStr(loc), audit, v2000, v2023))
            && (|r| == 2 ==> r[0].year == Some(2000) && r[1].year == Some(2023)))
  {
    var loc := Get(row, LocationColumn);
    if Truthy(loc) {
      var name := PyStr(loc);
      assert name != "" by {
        if loc.JInt? && loc.i >= 0 { assert |NatToString(loc.i)| > 0; }
      }
      var e := ExtractEmissions(row);
      YearRowsShape(name, e.e2000, e.e2023, audit);
    }
  }

  /** The rows of one location: the 2000 row when its value parsed, then
      the 2023 row when its value parsed. */
  function YearRows(name: string, v2000: Option<real>, v2023: Option<real>, audit: Audit): seq<Co2Row>
  {
    OptionalYearRow(name, 2000, v2000, audit) + OptionalYearRow(name, 2023, v2023, audit)
  }

  /** The row of one year, when its value parsed. */
  function OptionalYearRow(name: string, year: int, v: Option<real>, audit: Audit): seq<Co2Row>
  {
    if v.Some? then [YearRow(name, year, v.value, audit)] else []
  }

  lemma YearRowsShape(name: string, v2000: Option<real>, v2023: Option<real>, audit: Audit)
    requires name != ""
    ensures var r := YearRows(name, v2000, v2023, audit);
      && |r| == (if v2000.Some? then 1 else 0) + (if v2023.Some? then 1 else 0)
      && (forall k :: 0 <= k < |r| ==> UnpivotedFrom(r[k], name, audit, v2000, v2023))
      && (|r| == 2 ==> r[0].year == Some(2000) && r[1].year == Some(2023))
  {
    var r := YearRows(name, v2000, v2023, audit);
    forall k | 0 <= k < |r| ensures UnpivotedFrom(r[k], name, audit, v2000, v2023) {
      YearRowsAt(name, v2000, v2023, audit, k);
      if v2000.Some? && k == 0 {
        YearRowUnpivoted(name, 2000, v2000.value, audit, v2000, v2023);
      } else {
        YearRowUnpivoted(name, 2023, v2023.value, audit, v2000, v2023);
      }
    }
  }

  lemma YearRowsAt(name: string, v2000: Option<real>, v2023: Option<real>, audit: Audit, k: nat)
    requires k < |YearRows(name, v2000, v2023, audit)|
    ensures v2000.Some? && k == 0 ==> YearRows(name, v2000, v2023, audit)[k] == YearRow(name, 2000, v2000.value, audit)
    ensures !(v2000.Some? && k == 0) ==>
      v2023.Some? && YearRows(name, v2000, v2023, audit)[k] == YearRow(name, 2023, v2023.value, audit)
  {
    var x := YearRow(name, 2000, v2000.GetOr(0.0), audit);
    var y := YearRow(name, 2023, v2023.GetOr(0.0), audit);
    assert OptionalYearRow(name, 2000, v2000, audit) == if v2000.Some? then [x] else [];
    assert OptionalYearRow(name, 2023, v2023, audit) == if v2023.Some? then [y] else [];
    OptionalPairAt(v2000.Some?, x, v2023.Some?, y, k);
  }

  /** Indexing into an optional first element followed by an optional
      second one. */
  lemma OptionalPairAt<T>(p: bool, x: T, q: bool, y: T, k: nat)
    requires k < |(if p then [x] else []) + (if q then [y] else [])|
    ensures p && k == 0 ==> ((if p then [x] else []) + (if q then [y] else []))[k] == x
    ensures !(p && k == 0) ==> q && ((if p then [x] else []) + (if q then [y] else []))[k] == y
  {
  }

  /** A year row made from the value of its own year's column. */
  lemma YearRowUnpivoted(name: string, year: int, value: real, audit: Audit, v2000: Option<real>, v2023: Option<real>)
    requires name != ""
    requires (year == 2000 && v2000 == Some(value)) || (year == 2023 && v2023 == Some(value))
    ensures UnpivotedFrom(YearRow(name, year, value, audit), name, audit, v2000, v2023)
  {}

  /** The table rows of a RAW record: `(raw_table_json or {}).get("rows")
      or []`. A truthy non-dict table, or truthy rows that are a string or
      dict (iterated as text), raise AttributeError; a number is not
      iterable. */
  function TableRows(record: Json): Result<seq<Json>>
  {
    if !record.JObj? then Err(Failure(AttributeError, "object has no attribute 'get'"))
    else match AsDictOrEmpty(Get(record.fields, "raw_table_json"))
      case None => Err(Failure(AttributeError, "object has no attribute 'get'"))
      case Some(table) =>
        var rows := Get(table, "rows");
        if !Truthy(rows) then Ok([])
        else match rows
          case JArr(items) => Ok(items)
          case JStr(_) => Err(Failure(AttributeError, "'str' object has no attribute 'get'"))
          case JObj(_) => Err(Failure(AttributeError, "'str' object has no attribute 'get'"))
          case _ => Err(Failure(TypeError, "object is not iterable"))
  }

  /** All processed rows of one RAW record. */
  function RecordRows(record: Json): Result<seq<Co2Row>>
  {
    match TableRows(record)
    case Err(f) => Err(f)
    case Ok(items) => Collect(items, RowStep(RecordAudit(record.fields)))
  }

  /** One JSONL line: blank lines are skipped, others decoded (`decode`
      returns None where `json.loads` raises). */
  function LineRows(line: string, decode: string -> Option<Json>): Result<seq<Co2Row>>
  {
    var t := Strip(line);
    if t == "" then Ok([])
    else match decode(t)
      case None => Err(Failure(ValueError, "Expecting value"))
      case Some(j) => RecordRows(j)
  }

  function LineStep(decode: string -> Option<Json>): string -> Result<seq<Co2Row>>
  {
    (line: string) => LineRows(line, decode)
  }

  /** Every row built from a file is a well-formed unpivoted row. */
  lemma BuiltRowsWellFormed(lines: seq<string>, decode: string -> Option<Json>)
    requires Collect(lines, LineStep(decode)).Ok?
    ensures forall r :: r in Collect(lines, LineStep(decode)).value ==> WellFormedRow(r)
  {
    forall line | line in lines && LineStep(decode)(line).Ok?
      ensures forall r :: r in LineStep(decode)(line).value ==> WellFormedRow(r)
    {
      var t := Strip(line);
      if t != "" {
        var j := decode(t).value;
        var items := TableRows(j).value;
        var audit := RecordAudit(j.fields);
        forall x | x in items && RowStep(audit)(x).Ok?
          ensures forall r :: r in RowStep(audit)(x).value ==> WellFormedRow(r)
        {
          UnpivotRowShape(x.fields, audit);
        }
        CollectAll(items, RowStep(audit), WellFormedRow);
      }
    }
    CollectAll(lines, LineStep(decode), WellFormedRow);
  }

  /** The inner loop over the rows of one RAW table. */
  method UnpivotTableRows(items: seq<Json>, audit: Audit) returns (r: Result<seq<Co2Row>>)
    ensures r == Collect(items, RowStep(audit))
  {
    var rows: seq<Co2Row> := [];
    for i := 0 to |items|
      invariant Collect(items[..i], RowStep(audit)) == Ok(rows)
    {
      assert items[..i + 1][..i] == items[..i];
      var more := UnpivotRow(items[i], audit);
      if more.Err? {
        assert Collect(items[..i + 1], RowStep(audit)) == Err(more.failure);
        CollectPrefixError(items, i + 1, RowStep(audit));
        return Err(more.failure);
      }
      rows := rows + more.value;
    }
    assert items[..|items|] == items;
    return Ok(rows);
  }

  // ---------------------------------------------------------------------
  // The country mapping join

  datatype MappingRow = MappingRow(
    countryNameNormalized: Option<string>,
    countryCode: Option<string>,
    countryName: Option<string>)

  /** A mapping frame: its column names and the three columns used. */
  datatype MappingFrame = MappingFrame(columns: set<string>, rows: seq<MappingRow>)

  /** The required columns in sorted order. */
  const RequiredMappingColumns: seq<string> := ["country_code", "country_name", "country_name_normalized"]

  function MissingMappingColumns(columns: set<string>): (r: seq<string>)
    ensures r == [] <==> forall c :: c in RequiredMappingColumns ==> c in columns
  {
    var r := Filter(RequiredMappingColumns, (c: string) => c !in columns);
    assert r != [] ==> r[0] in r;
    r
  }

  /** `repr` of a list of plain strings. */
  function StrListRepr(xs: seq<string>): string
  {
    "[" + Join(seq(|xs|, i requires 0 <= i < |xs| => "'" + xs[i] + "'"), ", ") + "]"
  }

  function MappingKey(m: MappingRow): Option<string>
  {
    m.countryNameNormalized
  }

  /** `a.combine_first(b)`: `a` where it is not null. */
  function CombineFirst<T>(preferred: Option<T>, fallback: Option<T>): (r: Option<T>)
    ensures preferred.Some? ==> r == preferred
    ensures preferred.None? ==> r == fallback
  {
    if preferred.Some? then preferred else fallback
  }

  /** One row of the left merge on the normalised name (null keys match
      null keys), with the mapped code and name taking precedence. */
  function MapRow(row: Co2Row, unique: seq<MappingRow>): Co2Row
  {
    match FindFirst(unique, MappingKey, row.countryNameNormalized)
    case None => row
    case Some(m) =>
      row.(countryCode := CombineFirst(m.countryCode, row.countryCode),
           countryName := CombineFirst(m.countryName, row.countryName))
  }

  /** The mapping step: a ValueError naming the sorted missing columns, or
      every row merged against the mapping deduplicated by key. */
  function ApplyMapping(rows: seq<Co2Row>, mapping: MappingFrame): (r: Result<seq<Co2Row>>)
    ensures r.Err? <==> exists c :: c in RequiredMappingColumns && c !in mapping.columns
  {
    var missing := MissingMappingColumns(mapping.columns);
    if missing != [] then
      Err(Failure(ValueError, "country_mapping está faltando colunas obrigatórias: " + StrListRepr(missing)))
    else
      var unique := DedupFirst(mapping.rows, MappingKey);
      Ok(seq(|rows|, i requires 0 <= i < |rows| => MapRow(rows[i], unique)))
  }

  /** The merge is one-to-one (the deduplicated mapping has one row per
      key), and each row takes code and name from the FIRST mapping row of
      its key where that row has them; everything else is kept. */
  lemma MappingJoin(rows: seq<Co2Row>, mapping: MappingFrame, i: nat)
    requires ApplyMapping(rows, mapping).Ok? && i < |rows|
    ensures |ApplyMapping(rows, mapping).value| == |rows|
    ensures var out := ApplyMapping(rows, mapping).value[i];
      var hit := FindFirst(mapping.rows, MappingKey, rows[i].countryNameNormalized);
      && out == rows[i].(countryCode := out.countryCode, countryName := out.countryName)
      && (hit.None? ==> out == rows[i])
      && (hit.Some? ==>
            (out.countryCode == CombineFirst(hit.value.countryCode, rows[i].countryCode)
             && out.countryName == CombineFirst(hit.value.countryName, rows[i].countryName)))
    ensures forall a, b :: 0 <= a < b < |DedupFirst(mapping.rows, MappingKey)| ==>
      MappingKey(DedupFirst(mapping.rows, MappingKey)[a]) != MappingKey(DedupFirst(mapping.rows, MappingKey)[b])
  {
    DedupFirstFind(mapping.rows, MappingKey, rows[i].countryNameNormalized);
    DedupFirstUnique(mapping.rows, MappingKey);
  }

  // ---------------------------------------------------------------------
  // build_wikipedia_co2_dataframe

  /** The whole build over the file's lines: the first exception, or the
      unpivoted rows in file order (the placeholder row when there are
      none), joined with the mapping when one is given. The placeholder is
      joined too, so a mapping row with a null key lends it its code. */
  method BuildWikipediaCo2Dataframe(lines: seq<string>, decode: string -> Option<Json>,
                                    mapping: Option<MappingFrame>)
    returns (r: Result<Co2Table>)
    ensures Collect(lines, LineStep(decode)).Err? ==> r == Err(Collect(lines, LineStep(decode)).failure)
    ensures Collect(lines, LineStep(decode)).Ok? ==>
      var built := Collect(lines, LineStep(decode)).value;
      var base := if built == [] then [PlaceholderRow] else built;
      && (mapping.None? ==> r == Ok(Co2Table(Co2Columns, base)))
      && (mapping.Some? && ApplyMapping(base, mapping.value).Err? ==>
            r == Err(ApplyMapping(base, mapping.value).failure))
      && (mapping.Some? && ApplyMapping(base, mapping.value).Ok? ==>
            r == Ok(Co2Table(Co2Columns, ApplyMapping(base, mapping.value).value)))
  {
    var rows: seq<Co2Row> := [];
    for i := 0 to |lines|
      invariant Collect(lines[..i], LineStep(decode)) == Ok(rows)
    {
      assert lines[..i + 1][..i] == lines[..i];
      var more: Result<seq<Co2Row>>;
      var t := Strip(lines[i]);
      if t == "" {
        more := Ok([]);
      } else {
        match decode(t)
        case None =>
          more := Err(Failure(ValueError, "Expecting value"));
        case Some(j) =>
          var items := TableRows(j);
          if items.Err? {
            more := Err(items.failure);
          } else {
            more := UnpivotTableRows(items.value, RecordAudit(j.fields));
          }
      }
      assert more == LineRows(lines[i], decode);
      if more.Err? {
        assert Collect(lines[..i + 1], LineStep(decode)) == Err(more.failure);
        CollectPrefixError(lines, i + 1, LineStep(decode));
        return Err(more.failure);
      }
      rows := rows + more.value;
    }
    assert lines[..|lines|] == lines;
    if rows == [] {
      rows := [PlaceholderRow];
    }
    if mapping.None? {
      return Ok(Co2Table(Co2Columns, rows));
    }
    var mapped := ApplyMapping(rows, mapping.value);
    if mapped.Err? {
      return Err(mapped.failure);
    }
    return Ok(Co2Table(Co2Columns, mapped.value));
  }

  // ---------------------------------------------------------------------
  // save_wikipedia_co2_parquet_partitions

  /** Where partitions go: a local directory, or the storage adapter under
      the processed base prefix. */
  datatype Target = LocalDir(outputDir: string) | Storage

  function PartitionLocation(target: Target, year: int): string
  {
    var base := match target
      case LocalDir(dir) => dir
      case Storage => ProcessedBasePrefix;
    base + "/year=" + IntToString(year) + "/" + PartitionFileName
  }

  function Co2Year(row: Co2Row): Option<int>
  {
    row.year
  }

  /** One file (or storage key) per distinct non-null year holding that
      year's rows; an empty table or one without a year column writes
      nothing. */
  method SaveWikipediaCo2ParquetPartitions(table: Co2Table, target: Target)
    returns (parts: seq<Partition<Co2Row>>)
    ensures table.rows == [] || "year" !in table.columns ==> parts == []
    ensures "year" in table.columns ==> |parts| == |YearsIn(table.rows, Co2Year)|
    ensures "year" in table.columns ==> forall i :: 0 <= i < |parts| ==>
      var y := YearsIn(table.rows, Co2Year)[i];
      parts[i] == Partition(y, PartitionLocation(target, y), RowsOfYear(table.rows, Co2Year, y))
  {
    if table.rows == [] || "year" !in table.columns {
      return [];
    }
    parts := PartitionByYear(table.rows, Co2Year, (y: int) => PartitionLocation(target, y));
  }

  /** A table holding only the placeholder row has no year to write. */
  lemma PlaceholderWritesNothing(rows: seq<Co2Row>)
    requires forall k :: 0 <= k < |rows| ==> rows[k].year.None?
    ensures YearsIn(rows, Co2Year) == []
  {
    PresentIntsAllNull(YearColumn(rows, Co2Year));
  }

  /** Built tables only ever hold the years 2000 and 2023. */
  lemma BuiltYearsAreKnown(lines: seq<string>, decode: string -> Option<Json>, y: int)
    requires Collect(lines, LineStep(decode)).Ok?
    requires y in YearsIn(Collect(lines, LineStep(decode)).value, Co2Year)
    ensures y == 2000 || y == 2023
  {
    var rows := Collect(lines, LineStep(decode)).value;
    BuiltRowsWellFormed(lines, decode);
    var k :| 0 <= k < |rows| && Co2Year(rows[k]) == Some(y);
    assert rows[k] in rows;
  }

  /** The partitions written for `rows`: one per distinct non-null year, in
      increasing order, each holding exactly that year's rows. */
  predicate PartitionedAs(parts: seq<Partition<Co2Row>>, rows: seq<Co2Row>, target: Target)
  {
    && |parts| == |YearsIn(rows, Co2Year)|
    && forall i :: 0 <= i < |parts| ==>
         var y := YearsIn(rows, Co2Year)[i];
         parts[i] == Partition(y, PartitionLocation(target, y), RowsOfYear(rows, Co2Year, y))
  }

  /** `process_wikipedia_co2_raw_file`: build the table, with the mapping
      when one is given, then save it by year; a failure while building is
      passed on and writes nothing. */
  method ProcessWikipediaCo2RawFile(lines: seq<string>, decode: string -> Option<Json>,
                                    mapping: Option<MappingFrame>, target: Target)
    returns (r: Result<seq<Partition<Co2Row>>>)
    ensures Collect(lines, LineStep(decode)).Err? ==> r == Err(Collect(lines, LineStep(decode)).failure)
    ensures Collect(lines, LineStep(decode)).Ok? ==>
      var built := Collect(lines, LineStep(decode)).value;
      var base := if built == [] then [PlaceholderRow] else built;
      && (mapping.None? ==> r.Ok? && PartitionedAs(r.value, base, target))
      && (mapping.Some? && ApplyMapping(base, mapping.value).Err? ==>
            r == Err(ApplyMapping(base, mapping.value).failure))
      && (mapping.Some? && ApplyMapping(base, mapping.value).Ok? ==>
            r.Ok? && PartitionedAs(r.value, ApplyMapping(base, mapping.value).value, target))
  {
    var table := BuildWikipediaCo2Dataframe(lines, decode, mapping);
    if table.Err? {
      return Err(table.failure);
    }
    assert "year" in table.value.columns;
    var parts := SaveWikipediaCo2ParquetPartitions(table.value, target);
    return Ok(parts);
  }
}
