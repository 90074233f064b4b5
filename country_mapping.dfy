/** The country mapping: ISO3 code and name per normalised country name,
    taken from the World Bank PROCESSED rows, with manual overrides merged
    on top. */
module CountryMapping {
  import opened Common
  import opened WikipediaCo2Processed

  const CountryMappingBasePrefix := "processed/country_mapping"
  const CountryMappingOutputDir := "processed/country_mapping"
  const WorldBankPrecedence := "world_bank"
  const OverridePrecedence := "override"

  /** The two columns of a World Bank PROCESSED frame the mapping reads. */
  datatype WbRow = WbRow(countryCode: Option<string>, countryName: Option<string>)

  /** A PROCESSED frame: its column names and rows. */
  datatype WbFrame = WbFrame(columns: set<string>, rows: seq<WbRow>)

  /** One mapping entry (the four mapping columns). */
  datatype Entry = Entry(
    countryNameNormalized: Option<string>,
    countryCode: Option<string>,
    countryName: Option<string>,
    sourcePrecedence: Option<string>)

  function EntryKey(e: Entry): Option<string>
  {
    e.countryNameNormalized
  }

  /** The storage branch reads only the `.parquet` keys under the World
      Bank PROCESSED prefix. */
  function ParquetKeys(keys: seq<string>): (r: seq<string>)
    ensures forall k :: k in r <==> k in keys && EndsWith(k, ".parquet")
  {
    Filter(keys, (k: string) => EndsWith(k, ".parquet"))
  }

  // ---------------------------------------------------------------------
  // build_country_mapping_from_world_bank_parquet

  /** `pd.concat`: the union of the column names ... */
  function ConcatColumns(frames: seq<WbFrame>): set<string>
  {
    if frames == [] then {} else ConcatColumns(frames[..|frames| - 1]) + frames[|frames| - 1].columns
  }

  /** ... and the rows in frame order, a frame without a column giving
      nulls in it. */
  function FrameRows(f: WbFrame): seq<WbRow>
  {
    seq(|f.rows|, i requires 0 <= i < |f.rows| =>
      WbRow(if "country_code" in f.columns then f.rows[i].countryCode else None,
            if "country_name" in f.columns then f.rows[i].countryName else None))
  }

  function ConcatRows(frames: seq<WbFrame>): seq<WbRow>
  {
    if frames == [] then [] else ConcatRows(frames[..|frames| - 1]) + FrameRows(frames[|frames| - 1])
  }

  predicate Complete(r: WbRow)
  {
    r.countryCode.Some? && r.countryName.Some?
  }

  /** `dropna` on code and name, the normalised key and the `world_bank`
      tag, in row order. */
  function BaseEntries(rows: seq<WbRow>): (es: seq<Entry>)
    ensures |es| <= |rows|
  {
    if rows == [] then []
    else
      var last := rows[|rows| - 1];
      BaseEntries(rows[..|rows| - 1])
      + (if Complete(last)
         then [Entry(Some(NormalizeCountryName(last.countryName)), last.countryCode, last.countryName,
                     Some(WorldBankPrecedence))]
         else [])
  }

  const BaseColumnsMessage :=
    "Parquets do World Bank processed não contêm as colunas 'country_code' e 'country_name' necessárias para o mapping."

  /** The base mapping: empty without frames, a ValueError without both
      columns, else the entries deduplicated by key, first kept. */
  function BuildBaseMapping(frames: seq<WbFrame>): (r: Result<seq<Entry>>)
    ensures r.Err? <==> frames != [] && !("country_code" in ConcatColumns(frames) && "country_name" in ConcatColumns(frames))
    ensures frames == [] ==> r == Ok([])
  {
    if frames == [] then Ok([])
    else
      var cols := ConcatColumns(frames);
      if !("country_code" in cols && "country_name" in cols) then Err(Failure(ValueError, BaseColumnsMessage))
      else Ok(DedupFirst(BaseEntries(ConcatRows(frames)), EntryKey))
  }

  /** What a base entry is: a complete row's code and name, the key
      normalised from that name, tagged `world_bank`. */
  predicate IsBaseEntry(e: Entry)
  {
    && e.countryCode.Some? && e.countryName.Some?
    && e.countryNameNormalized == Some(NormalizeCountryName(e.countryName))
    && e.sourcePrecedence == Some(WorldBankPrecedence)
  }

  lemma {:induction false} BaseEntriesShape(rows: seq<WbRow>)
    ensures forall e :: e in BaseEntries(rows) ==> IsBaseEntry(e)
    ensures forall k :: 0 <= k < |rows| && Complete(rows[k]) ==>
      KeyIn(BaseEntries(rows), EntryKey, Some(NormalizeCountryName(rows[k].countryName)))
    decreases |rows|
  {
    if rows != [] {
      var init := rows[..|rows| - 1];
      BaseEntriesShape(init);
      var es := BaseEntries(init);
      var all := BaseEntries(rows);
      assert forall j :: 0 <= j < |es| ==> all[j] == es[j];
      forall k | 0 <= k < |rows| && Complete(rows[k])
        ensures KeyIn(all, EntryKey, Some(NormalizeCountryName(rows[k].countryName)))
      {
        if k < |init| {
          assert init[k] == rows[k];
          var j :| 0 <= j < |es| && EntryKey(es[j]) == Some(NormalizeCountryName(rows[k].countryName));
          assert all[j] == es[j];
        } else {
          assert all[|es|].countryNameNormalized == Some(NormalizeCountryName(rows[k].countryName));
        }
      }
    }
  }

  /** The base mapping holds one entry per key, each a base entry with a
      normalised key; it has an entry for the key of every complete row,
      and that entry is the one of the first such row. */
  lemma BaseMappingShape(frames: seq<WbFrame>)
    requires BuildBaseMapping(frames).Ok?
    ensures var m := BuildBaseMapping(frames).value;
      && (forall i, j :: 0 <= i < j < |m| ==> EntryKey(m[i]) != EntryKey(m[j]))
      && (forall e :: e in m ==> IsBaseEntry(e) && IsNormalizedName(e.countryNameNormalized.value))
    ensures frames != [] ==>
      var rows := ConcatRows(frames);
      var m := BuildBaseMapping(frames).value;
      forall k :: 0 <= k < |rows| && Complete(rows[k]) ==>
        var key := Some(NormalizeCountryName(rows[k].countryName));
        FindFirst(m, EntryKey, key).Some? && FindFirst(m, EntryKey, key) == FindFirst(BaseEntries(rows), EntryKey, key)
  {
    if frames != [] {
      var rows := ConcatRows(frames);
      var es := BaseEntries(rows);
      BaseEntriesShape(rows);
      DedupFirstUnique(es, EntryKey);
      forall e | e in DedupFirst(es, EntryKey)
        ensures IsBaseEntry(e) && IsNormalizedName(e.countryNameNormalized.value)
      {
        NormalizedNameShape(e.countryName);
      }
      forall k | 0 <= k < |rows| && Complete(rows[k])
        ensures FindFirst(DedupFirst(es, EntryKey), EntryKey, Some(NormalizeCountryName(rows[k].countryName)))
             == FindFirst(es, EntryKey, Some(NormalizeCountryName(rows[k].countryName)))
      {
        DedupFirstFind(es, EntryKey, Some(NormalizeCountryName(rows[k].countryName)));
      }
    }
  }

  // ---------------------------------------------------------------------
  // _apply_overrides

  datatype OverrideRow = OverrideRow(
    countryNameNormalized: Option<string>,
    countryCode: Option<string>,
    countryName: Option<string>)

  /** The overrides CSV: its header and rows. */
  datatype OverrideFile = OverrideFile(columns: set<string>, rows: seq<OverrideRow>)

  function OverrideKey(o: OverrideRow): Option<string>
  {
    o.countryNameNormalized
  }

  /** `str(exc)` of `normalize_country_name(pd.NA)`: a null key has no `lower()`. */
  const NullKeyMessage := "'NAType' object has no attribute 'lower'"

  /** Override keys are normalised again; a null key raises, since
      `normalize_country_name` calls `lower()` on `pd.NA`. */
  function RenormalizeOverride(o: OverrideRow): (r: Result<OverrideRow>)
    ensures r.Err? <==> o.countryNameNormalized.None?
    ensures r.Err? ==> r.failure == Failure(AttributeError, NullKeyMessage)
    ensures r.Ok? ==> r.value.countryCode == o.countryCode && r.value.countryName == o.countryName
    ensures r.Ok? ==> r.value.countryNameNormalized.Some?
  {
    if o.countryNameNormalized.Some? then Ok(o.(countryNameNormalized := Some(NormalizeCountryName(o.countryNameNormalized))))
    else Err(Failure(AttributeError, NullKeyMessage))
  }

  /** `_resolve_source`: `override` when the override gives a code or a
      name, else the existing non-empty tag, else `world_bank`. */
  function ResolveSource(base: Option<Entry>, ovr: Option<OverrideRow>): (s: string)
    ensures s == OverridePrecedence <==>
      (ovr.Some? && (ovr.value.countryCode.Some? || ovr.value.countryName.Some?))
      || (base.Some? && base.value.sourcePrecedence == Some(OverridePrecedence))
  {
    if ovr.Some? && (ovr.value.countryCode.Some? || ovr.value.countryName.Some?) then OverridePrecedence
    else if base.Some? && base.value.sourcePrecedence.Some? && base.value.sourcePrecedence.value != "" then
      base.value.sourcePrecedence.value
    else WorldBankPrecedence
  }

  /** One row of the outer merge: override code and name where non-null. */
  function MergeEntry(key: string, base: Option<Entry>, ovr: Option<OverrideRow>): Entry
  {
    var baseCode := if base.Some? then base.value.countryCode else None;
    var baseName := if base.Some? then base.value.countryName else None;
    var ovrCode := if ovr.Some? then ovr.value.countryCode else None;
    var ovrName := if ovr.Some? then ovr.value.countryName else None;
    Entry(Some(key), CombineFirst(ovrCode, baseCode), CombineFirst(ovrName, baseName),
          Some(ResolveSource(base, ovr)))
  }

  /** The first row of each non-null key, as a dictionary. */
  function Index<T>(rows: seq<T>, key: T -> Option<string>): (m: map<string, T>)
    ensures forall k :: k in m <==> KeyIn(rows, key, Some(k))
    ensures forall k :: k in m ==> FindFirst(rows, key, Some(k)) == Some(m[k])
  {
    if rows == [] then map[]
    else
      var init := rows[..|rows| - 1];
      var last := rows[|rows| - 1];
      var m := Index(init, key);
      assert rows == init + [last];
      assert forall k :: KeyIn(init, key, k) ==> KeyIn(rows, key, k) by {
        forall k | KeyIn(init, key, k) ensures KeyIn(rows, key, k) {
          var i :| 0 <= i < |init| && key(init[i]) == k;
          assert rows[i] == init[i];
        }
      }
      assert forall k :: (FindFirst(rows, key, k) ==
        (if FindFirst(init, key, k).Some? then FindFirst(init, key, k) else FindFirst([last], key, k))) by {
        forall k ensures FindFirst(rows, key, k) ==
          (if FindFirst(init, key, k).Some? then FindFirst(init, key, k) else FindFirst([last], key, k)) {
          FindFirstAppend(init, [last], key, k);
        }
      }
      assert forall k :: FindFirst([last], key, k) == (if key(last) == k then Some(last) else None) by {
        assert [last][1..] == [];
      }
      if key(last).Some? && key(last).value !in m then m[key(last).value := last] else m
  }

  function Lookup<T>(m: map<string, T>, k: string): (r: Option<T>)
    ensures r.Some? <==> k in m
    ensures r.Some? ==> r.value == m[k]
  {
    if k in m then Some(m[k]) else None
  }

  /** The non-null keys of the rows, in order. */
  function PresentKeys<T>(rows: seq<T>, key: T -> Option<string>): (ks: seq<string>)
    ensures forall k :: k in ks <==> KeyIn(rows, key, Some(k))
  {
    if rows == [] then []
    else
      var init := rows[..|rows| - 1];
      var last := rows[|rows| - 1];
      assert rows == init + [last];
      assert forall k :: KeyIn(rows, key, k) <==> KeyIn(init, key, k) || key(last) == k by {
        forall k | KeyIn(rows, key, k) ensures KeyIn(init, key, k) || key(last) == k {
          var i :| 0 <= i < |rows| && key(rows[i]) == k;
          if i < |init| { assert init[i] == rows[i]; }
        }
        forall k | KeyIn(init, key, k) ensures KeyIn(rows, key, k) {
          var i :| 0 <= i < |init| && key(init[i]) == k;
          assert rows[i] == init[i];
        }
      }
      PresentKeys(init, key) + (if key(last).Some? then [key(last).value] else [])
  }

  const OverrideColumnsMessage := "Arquivo de overrides está faltando colunas obrigatórias: "

  predicate EmptyOverrides(f: OverrideFile)
  {
    f.rows == [] || f.columns == {}
  }

  /** `_apply_overrides`. No file or an empty one keeps the base; a file
      without a required column raises, and so does one with a null key;
      over an empty base the overrides
      are returned as they are, tagged `override`; otherwise the outer
      merge by key, in key order, with one row per non-null key. */
  function ApplyOverrides(base: seq<Entry>, overrides: Option<OverrideFile>): (r: Result<seq<Entry>>)
    ensures overrides.None? || EmptyOverrides(overrides.value) ==> r == Ok(base)
    ensures r.Err? <==> overrides.Some? && !EmptyOverrides(overrides.value)
                        && ((exists c :: c in RequiredMappingColumns && c !in overrides.value.columns)
                            || NullOverrideKey(overrides.value))
    ensures r.Err? && (forall c :: c in RequiredMappingColumns ==> c in overrides.value.columns) ==>
              r.failure == Failure(AttributeError, NullKeyMessage)
  {
    match overrides
    case None => Ok(base)
    case Some(f) =>
      if EmptyOverrides(f) then Ok(base)
      else
        var missing := MissingMappingColumns(f.columns);
        if missing != [] then Err(Failure(ValueError, OverrideColumnsMessage + StrListRepr(missing)))
        else
          match RenormalizedRows(f)
          case Err(e) => Err(e)
          case Ok(ovr) =>
            if base == [] then
              Ok(seq(|ovr|, i requires 0 <= i < |ovr| =>
                Entry(ovr[i].countryNameNormalized, ovr[i].countryCode, ovr[i].countryName, Some(OverridePrecedence))))
            else Ok(MergedEntries(base, ovr))
  }

  /** Some override row has a null key. */
  predicate NullOverrideKey(f: OverrideFile)
  {
    exists i :: 0 <= i < |f.rows| && f.rows[i].countryNameNormalized.None?
  }

  /** The `map(normalize_country_name)` over the key column: it raises at
      the first null key, else every row comes back renormalised, in order. */
  function RenormalizedRows(f: OverrideFile): (r: Result<seq<OverrideRow>>)
    ensures r.Err? <==> NullOverrideKey(f)
    ensures r.Err? ==> r.failure == Failure(AttributeError, NullKeyMessage)
    ensures r.Ok? ==> |r.value| == |f.rows| && forall i :: 0 <= i < |f.rows| ==> Ok(r.value[i]) == RenormalizeOverride(f.rows[i])
  {
    if NullOverrideKey(f) then Err(Failure(AttributeError, NullKeyMessage))
    else Ok(seq(|f.rows|, i requires 0 <= i < |f.rows| => RenormalizeOverride(f.rows[i]).value))
  }

  /** The keys of the outer merge: every non-null key of either side, once,
      in ascending order. */
  function MergeKeys(base: seq<Entry>, ovr: seq<OverrideRow>): (keys: seq<string>)
    ensures forall i, j :: 0 <= i < j < |keys| ==> StrLt(keys[i], keys[j])
    ensures forall k :: k in keys <==> KeyIn(base, EntryKey, Some(k)) || KeyIn(ovr, OverrideKey, Some(k))
  {
    DistinctSortedStrings(PresentKeys(base, EntryKey) + PresentKeys(ovr, OverrideKey))
  }

  /** The outer merge itself, one entry per key of `MergeKeys`. */
  function MergedEntries(base: seq<Entry>, ovr: seq<OverrideRow>): (m: seq<Entry>)
    ensures |m| == |MergeKeys(base, ovr)|
    ensures forall i :: 0 <= i < |m| ==> EntryKey(m[i]) == Some(MergeKeys(base, ovr)[i])
  {
    var bIdx := Index(base, EntryKey);
    var oIdx := Index(ovr, OverrideKey);
    var keys := MergeKeys(base, ovr);
    seq(|keys|, i requires 0 <= i < |keys| => MergeEntry(keys[i], Lookup(bIdx, keys[i]), Lookup(oIdx, keys[i])))
  }

  predicate MergeApplies(base: seq<Entry>, overrides: Option<OverrideFile>)
  {
    && base != [] && overrides.Some? && !EmptyOverrides(overrides.value)
    && (forall c :: c in RequiredMappingColumns ==> c in overrides.value.columns)
    && !NullOverrideKey(overrides.value)
  }

  /** The path `_apply_overrides` takes when a complete override file
      without null keys meets a base mapping. */
  lemma OverridesApply(base: seq<Entry>, f: OverrideFile)
    requires !EmptyOverrides(f) && !NullOverrideKey(f)
    requires forall c :: c in RequiredMappingColumns ==> c in f.columns
    ensures RenormalizedRows(f).Ok?
    ensures var ovr := RenormalizedRows(f).value;
      ApplyOverrides(base, Some(f)) ==
        if base == [] then
          Ok(seq(|ovr|, i requires 0 <= i < |ovr| =>
            Entry(ovr[i].countryNameNormalized, ovr[i].countryCode, ovr[i].countryName, Some(OverridePrecedence))))
        else Ok(MergedEntries(base, ovr))
  {
    assert MissingMappingColumns(f.columns) == [];
  }

  /** Over a non-empty base the result is keyed by the union of the base
      keys and the re-normalised override keys, nulls dropped, each once and
      in ascending order. */
  lemma OverrideMergeKeys(base: seq<Entry>, overrides: Option<OverrideFile>)
    requires MergeApplies(base, overrides)
    ensures var m := ApplyOverrides(base, overrides).value;
      && (forall i, j :: 0 <= i < j < |m| ==> StrLt(EntryKey(m[i]).value, EntryKey(m[j]).value))
      && (forall e :: e in m ==> EntryKey(e).Some?)
      && (forall k :: KeyIn(m, EntryKey, Some(k)) <==>
            KeyIn(base, EntryKey, Some(k)) || KeyIn(RenormalizedRows(overrides.value).value, OverrideKey, Some(k)))
  {
    var ovr := RenormalizedRows(overrides.value).value;
    var m := MergedEntries(base, ovr);
    OverridesApply(base, overrides.value);
    var keys := MergeKeys(base, ovr);
    forall k ensures KeyIn(m, EntryKey, Some(k)) <==> k in keys {
      if k in keys {
        var i :| 0 <= i < |keys| && keys[i] == k;
        assert EntryKey(m[i]) == Some(k);
      }
    }
  }

  /** For each merged key: a non-null override code or name replaces the
      base one, and the tag follows `_resolve_source`, with the first
      override row and the first base entry of that key. */
  lemma OverrideWins(base: seq<Entry>, overrides: Option<OverrideFile>, i: nat)
    requires MergeApplies(base, overrides)
    requires i < |ApplyOverrides(base, overrides).value|
    ensures var e := ApplyOverrides(base, overrides).value[i];
      var k := EntryKey(e);
      var b := FindFirst(base, EntryKey, k);
      var o := FindFirst(RenormalizedRows(overrides.value).value, OverrideKey, k);
      && k.Some? && (b.Some? || o.Some?)
      && (o.Some? && o.value.countryCode.Some? ==> e.countryCode == o.value.countryCode)
      && (o.Some? && o.value.countryName.Some? ==> e.countryName == o.value.countryName)
      && ((o.None? || o.value.countryCode.None?) ==> e.countryCode == (if b.Some? then b.value.countryCode else None))
      && ((o.None? || o.value.countryName.None?) ==> e.countryName == (if b.Some? then b.value.countryName else None))
      && e.sourcePrecedence == Some(ResolveSource(b, o))
  {
    var ovr := RenormalizedRows(overrides.value).value;
    OverridesApply(base, overrides.value);
    var keys := MergeKeys(base, ovr);
    assert keys[i] in keys;
  }

  /** Over an empty base the overrides come back one for one, tagged
      `override`, duplicates included. */
  lemma EmptyBaseTakesOverrides(overrides: OverrideFile)
    requires !EmptyOverrides(overrides)
    requires forall c :: c in RequiredMappingColumns ==> c in overrides.columns
    requires !NullOverrideKey(overrides)
    ensures var m := ApplyOverrides([], Some(overrides)).value;
      && |m| == |overrides.rows|
      && forall i :: 0 <= i < |m| ==>
           && m[i].countryNameNormalized == RenormalizeOverride(overrides.rows[i]).value.countryNameNormalized
           && m[i].countryCode == overrides.rows[i].countryCode
           && m[i].countryName == overrides.rows[i].countryName
           && m[i].sourcePrecedence == Some(OverridePrecedence)
  {
    OverridesApply([], overrides);
  }

  /** `build_country_mapping`: the base mapping with the overrides on top. */
  function BuildCountryMapping(frames: seq<WbFrame>, overrides: Option<OverrideFile>): Result<seq<Entry>>
  {
    match BuildBaseMapping(frames)
    case Err(f) => Err(f)
    case Ok(base) => ApplyOverrides(base, overrides)
  }

  /** When an override file is applied to a non-empty base mapping, every
      key of the result is a normalised name, each key occurs once, and every
      entry is tagged either `world_bank` or `override`. */
  lemma CountryMappingKeys(frames: seq<WbFrame>, overrides: Option<OverrideFile>)
    requires BuildBaseMapping(frames).Ok?
    requires MergeApplies(BuildBaseMapping(frames).value, overrides)
    requires BuildCountryMapping(frames, overrides).Ok?
    ensures var m := BuildCountryMapping(frames, overrides).value;
      && (forall i, j :: 0 <= i < j < |m| ==> EntryKey(m[i]) != EntryKey(m[j]))
      && (forall e :: e in m ==> EntryKey(e).Some? && IsNormalizedName(EntryKey(e).value))
      && (forall e :: e in m ==> e.sourcePrecedence == Some(WorldBankPrecedence) || e.sourcePrecedence == Some(OverridePrecedence))
  {
    var base := BuildBaseMapping(frames).value;
    BaseMappingShape(frames);
    assert BuildCountryMapping(frames, overrides) == ApplyOverrides(base, overrides);
    var m := ApplyOverrides(base, overrides).value;
    MergedKeysDistinct(base, overrides);
    forall e | e in m
      ensures EntryKey(e).Some? && IsNormalizedName(EntryKey(e).value)
      ensures e.sourcePrecedence == Some(WorldBankPrecedence) || e.sourcePrecedence == Some(OverridePrecedence)
    {
      var i :| 0 <= i < |m| && m[i] == e;
      MergedEntryShape(base, overrides, i);
    }
  }

  lemma MergedKeysDistinct(base: seq<Entry>, overrides: Option<OverrideFile>)
    requires MergeApplies(base, overrides)
    ensures var m := ApplyOverrides(base, overrides).value;
      forall i, j :: 0 <= i < j < |m| ==> EntryKey(m[i]) != EntryKey(m[j])
  {
    var m := ApplyOverrides(base, overrides).value;
    OverrideMergeKeys(base, overrides);
    forall i, j | 0 <= i < j < |m| ensures EntryKey(m[i]) != EntryKey(m[j]) {
      StrLtIrreflexive(EntryKey(m[i]).value);
    }
  }

  lemma MergedEntryShape(base: seq<Entry>, overrides: Option<OverrideFile>, i: nat)
    requires MergeApplies(base, overrides)
    requires forall e :: e in base ==> IsBaseEntry(e) && IsNormalizedName(e.countryNameNormalized.value)
    requires i < |ApplyOverrides(base, overrides).value|
    ensures var e := ApplyOverrides(base, overrides).value[i];
      && EntryKey(e).Some? && IsNormalizedName(EntryKey(e).value)
      && (e.sourcePrecedence == Some(WorldBankPrecedence) || e.sourcePrecedence == Some(OverridePrecedence))
  {
    MergedKeyNormalized(base, overrides, i);
    MergedPrecedence(base, overrides, i);
  }

  lemma MergedKeyNormalized(base: seq<Entry>, overrides: Option<OverrideFile>, i: nat)
    requires MergeApplies(base, overrides)
    requires forall e :: e in base ==> e.countryNameNormalized.Some? && IsNormalizedName(e.countryNameNormalized.value)
    requires i < |ApplyOverrides(base, overrides).value|
    ensures var e := ApplyOverrides(base, overrides).value[i];
      EntryKey(e).Some? && IsNormalizedName(EntryKey(e).value)
  {
    var m := ApplyOverrides(base, overrides).value;
    var ovr := RenormalizedRows(overrides.value).value;
    assert EntryKey(m[i]).Some? by {
      OverrideMergeKeys(base, overrides);
      assert m[i] in m;
    }
    var k := EntryKey(m[i]).value;
    assert KeyIn(base, EntryKey, Some(k)) || KeyIn(ovr, OverrideKey, Some(k)) by {
      OverrideMergeKeys(base, overrides);
      assert KeyIn(m, EntryKey, Some(k));
    }
    KeyOfEitherNormalized(base, overrides.value, k);
  }

  /** A key of the base mapping or of the re-normalised overrides is a
      normalised name. */
  lemma KeyOfEitherNormalized(base: seq<Entry>, f: OverrideFile, k: string)
    requires forall e :: e in base ==> e.countryNameNormalized.Some? && IsNormalizedName(e.countryNameNormalized.value)
    requires RenormalizedRows(f).Ok?
    requires KeyIn(base, EntryKey, Some(k)) || KeyIn(RenormalizedRows(f).value, OverrideKey, Some(k))
    ensures IsNormalizedName(k)
  {
    if KeyIn(base, EntryKey, Some(k)) {
      var j :| 0 <= j < |base| && EntryKey(base[j]) == Some(k);
      assert base[j] in base;
    } else {
      OverrideKeyNormalized(f, k);
    }
  }

  lemma OverrideKeyNormalized(f: OverrideFile, k: string)
    requires RenormalizedRows(f).Ok?
    requires KeyIn(RenormalizedRows(f).value, OverrideKey, Some(k))
    ensures IsNormalizedName(k)
  {
    var ovr := RenormalizedRows(f).value;
    var j :| 0 <= j < |ovr| && OverrideKey(ovr[j]) == Some(k);
    assert Ok(ovr[j]) == RenormalizeOverride(f.rows[j]);
    RenormalizedKeyShape(f.rows[j]);
  }

  lemma RenormalizedKeyShape(o: OverrideRow)
    requires o.countryNameNormalized.Some?
    ensures IsNormalizedName(OverrideKey(RenormalizeOverride(o).value).value)
  {
    NormalizedNameShape(o.countryNameNormalized);
  }

  lemma MergedPrecedence(base: seq<Entry>, overrides: Option<OverrideFile>, i: nat)
    requires MergeApplies(base, overrides)
    requires forall e :: e in base ==> IsBaseEntry(e)
    requires i < |ApplyOverrides(base, overrides).value|
    ensures var e := ApplyOverrides(base, overrides).value[i];
      e.sourcePrecedence == Some(WorldBankPrecedence) || e.sourcePrecedence == Some(OverridePrecedence)
  {
    var e := ApplyOverrides(base, overrides).value[i];
    OverrideWins(base, overrides, i);
    var b := FindFirst(base, EntryKey, EntryKey(e));
    if b.Some? { assert IsBaseEntry(b.value); }
  }
}
