/** The dataset registry: dataset descriptions (source, columns, tags,
    free-form metadata, timestamps) kept by id, and their JSON form for
    saving to and loading from a file. Timestamps are carried as their ISO
    text, so `datetime.fromisoformat(d.isoformat()) == d` is built in;
    the file's own reading and writing is outside the model (the file is
    its decoded JSON, or nothing when it does not exist). */
module Models {
  import opened Common

  datatype DataSourceType = Api | File | Database

  /** The enum's string value. */
  function SourceTypeValue(t: DataSourceType): string
  {
    match t
    case Api => "api"
    case File => "file"
    case Database => "database"
  }

  /** `DataSourceType(value)`: the member with that value, or ValueError. */
  function ParseSourceType(v: Json): (r: Result<DataSourceType>)
    ensures r.Ok? ==> v == JStr(SourceTypeValue(r.value))
  {
    if v == JStr("api") then Ok(Api)
    else if v == JStr("file") then Ok(File)
    else if v == JStr("database") then Ok(Database)
    else Err(Failure(ValueError, "is not a valid DataSourceType"))
  }

  lemma ParseSourceTypeValue(t: DataSourceType)
    ensures ParseSourceType(JStr(SourceTypeValue(t))) == Ok(t)
  {
  }

  datatype DataSource = DataSource(name: string, kind: DataSourceType, uri: string, description: Option<string>)

  datatype Column = Column(name: string, dtype: string, description: Option<string>, nullable: bool)

  datatype Dataset = Dataset(
    id: string,
    name: string,
    description: Option<string>,
    source: DataSource,
    columns: seq<Column>,
    tags: seq<string>,
    extraMetadata: map<string, Json>,
    createdAt: string,
    updatedAt: string)

  // ---------------------------------------------------------------------
  // Serialization (`asdict` with the enum and timestamps as text)

  function TextOrNull(t: Option<string>): Json
  {
    match t
    case None => JNull
    case Some(s) => JStr(s)
  }

  function SourceToSerializable(s: DataSource): Json
  {
    JObj(map["name" := JStr(s.name), "type" := JStr(SourceTypeValue(s.kind)), "uri" := JStr(s.uri),
             "description" := TextOrNull(s.description)])
  }

  function ColumnToSerializable(c: Column): Json
  {
    JObj(map["name" := JStr(c.name), "dtype" := JStr(c.dtype), "description" := TextOrNull(c.description),
             "nullable" := JBool(c.nullable)])
  }

  function Texts(ts: seq<string>): (r: seq<Json>)
    ensures |r| == |ts| && forall i :: 0 <= i < |ts| ==> r[i] == JStr(ts[i])
  {
    seq(|ts|, i requires 0 <= i < |ts| => JStr(ts[i]))
  }

  function ColumnsToSerializable(cs: seq<Column>): (r: seq<Json>)
    ensures |r| == |cs| && forall i :: 0 <= i < |cs| ==> r[i] == ColumnToSerializable(cs[i])
  {
    seq(|cs|, i requires 0 <= i < |cs| => ColumnToSerializable(cs[i]))
  }

  /** `_dataset_to_serializable`. */
  function DatasetToSerializable(d: Dataset): Json
  {
    JObj(map[
      "id" := JStr(d.id),
      "name" := JStr(d.name),
      "description" := TextOrNull(d.description),
      "source" := SourceToSerializable(d.source),
      "columns" := JArr(ColumnsToSerializable(d.columns)),
      "tags" := JArr(Texts(d.tags)),
      "extra_metadata" := JObj(d.extraMetadata),
      "created_at" := JStr(d.createdAt),
      "updated_at" := JStr(d.updatedAt)])
  }

  // ---------------------------------------------------------------------
  // Deserialization (`_dataset_from_serializable`)

  /** `str(KeyError(key))`. */
  function MissingKey(key: string): Failure
  {
    Failure(KeyError, "'" + key + "'")
  }

  const NotSubscriptable := Failure(TypeError, "object is not subscriptable")
  const NotIterable := Failure(TypeError, "object is not iterable")
  const WrongType := Failure(TypeError, "value of the wrong type")

  /** `obj[key]` read as text. */
  function TextAt(obj: map<string, Json>, key: string): Result<string>
  {
    if key !in obj then Err(MissingKey(key))
    else match obj[key]
      case JStr(s) => Ok(s)
      case _ => Err(WrongType)
  }

  /** `obj.get(key)` read as optional text: absent and null are `None`. */
  function OptionalTextAt(obj: map<string, Json>, key: string): Result<Option<string>>
  {
    match Get(obj, key)
    case JNull => Ok(None)
    case JStr(s) => Ok(Some(s))
    case _ => Err(WrongType)
  }

  function SourceFromSerializable(v: Json): Result<DataSource>
  {
    if !v.JObj? then Err(NotSubscriptable)
    else
      var obj := v.fields;
      match TextAt(obj, "name")
      case Err(f) => Err(f)
      case Ok(name) =>
        if "type" !in obj then Err(MissingKey("type"))
        else match ParseSourceType(obj["type"])
          case Err(f) => Err(f)
          case Ok(kind) =>
            match TextAt(obj, "uri")
            case Err(f) => Err(f)
            case Ok(uri) =>
              match OptionalTextAt(obj, "description")
              case Err(f) => Err(f)
              case Ok(description) => Ok(DataSource(name, kind, uri, description))
  }

  function ColumnFromSerializable(v: Json): Result<Column>
  {
    if !v.JObj? then Err(NotSubscriptable)
    else
      var obj := v.fields;
      match TextAt(obj, "name")
      case Err(f) => Err(f)
      case Ok(name) =>
        match TextAt(obj, "dtype")
        case Err(f) => Err(f)
        case Ok(dtype) =>
          match OptionalTextAt(obj, "description")
          case Err(f) => Err(f)
          case Ok(description) =>
            if "nullable" !in obj then Ok(Column(name, dtype, description, true))
            else match obj["nullable"]
              case JBool(b) => Ok(Column(name, dtype, description, b))
              case _ => Err(WrongType)
  }

  /** The list comprehension over the columns: the first failing column's
      error, or all of them. */
  function ColumnsFromSerializable(vs: seq<Json>): (r: Result<seq<Column>>)
    ensures r.Ok? ==> (|r.value| == |vs|
      && forall i :: 0 <= i < |vs| ==> ColumnFromSerializable(vs[i]) == Ok(r.value[i]))
  {
    if vs == [] then Ok([])
    else
      match ColumnFromSerializable(vs[0])
      case Err(f) => Err(f)
      case Ok(c) =>
        match ColumnsFromSerializable(vs[1..])
        case Err(f) => Err(f)
        case Ok(cs) => Ok([c] + cs)
  }

  /** `payload.get(key, [])` read as a list. */
  function ListAt(obj: map<string, Json>, key: string): Result<seq<Json>>
  {
    if key !in obj then Ok([])
    else match obj[key]
      case JArr(items) => Ok(items)
      case JNull => Err(NotIterable)
      case _ => Err(WrongType)
  }

  function TextsFrom(vs: seq<Json>): (r: Result<seq<string>>)
    ensures r.Ok? ==> |r.value| == |vs| && forall i :: 0 <= i < |vs| ==> vs[i] == JStr(r.value[i])
  {
    if vs == [] then Ok([])
    else if !vs[0].JStr? then Err(WrongType)
    else
      match TextsFrom(vs[1..])
      case Err(f) => Err(f)
      case Ok(ts) => Ok([vs[0].s] + ts)
  }

  /** `payload.get("extra_metadata", {})`. */
  function ExtraAt(obj: map<string, Json>): Result<map<string, Json>>
  {
    if "extra_metadata" !in obj then Ok(map[])
    else match obj["extra_metadata"]
      case JObj(m) => Ok(m)
      case _ => Err(WrongType)
  }

  /** `_dataset_from_serializable`: the source first, then the columns,
      then the remaining fields in the order the constructor call lists
      them; a missing required key raises KeyError, an unknown source type
      ValueError. */
  function DatasetFromSerializable(v: Json): (r: Result<Dataset>)
    ensures r.Ok? ==> (v.JObj? && "source" in v.fields && "id" in v.fields && "name" in v.fields
      && "created_at" in v.fields && "updated_at" in v.fields)
    ensures r.Ok? ==> v.fields["id"] == JStr(r.value.id)
    ensures v.JObj? && "source" !in v.fields ==> r == Err(MissingKey("source"))
  {
    if !v.JObj? then Err(NotSubscriptable)
    else
      var obj := v.fields;
      if "source" !in obj then Err(MissingKey("source"))
      else match SourceFromSerializable(obj["source"])
        case Err(f) => Err(f)
        case Ok(source) =>
          match ListAt(obj, "columns")
          case Err(f) => Err(f)
          case Ok(cols) =>
            match ColumnsFromSerializable(cols)
            case Err(f) => Err(f)
            case Ok(columns) => DatasetFields(obj, source, columns)
  }

  /** The constructor call's own arguments, after source and columns. */
  function DatasetFields(obj: map<string, Json>, source: DataSource, columns: seq<Column>): (r: Result<Dataset>)
    ensures r.Ok? ==> ("id" in obj && obj["id"] == JStr(r.value.id) && "name" in obj
      && "created_at" in obj && "updated_at" in obj)
  {
    match TextAt(obj, "id")
    case Err(f) => Err(f)
    case Ok(id) =>
      match TextAt(obj, "name")
      case Err(f) => Err(f)
      case Ok(name) =>
        match OptionalTextAt(obj, "description")
        case Err(f) => Err(f)
        case Ok(description) =>
          match ListAt(obj, "tags")
          case Err(f) => Err(f)
          case Ok(tagValues) =>
            match TextsFrom(tagValues)
            case Err(f) => Err(f)
            case Ok(tags) =>
              match ExtraAt(obj)
              case Err(f) => Err(f)
              case Ok(extra) =>
                match TextAt(obj, "created_at")
                case Err(f) => Err(f)
                case Ok(createdAt) =>
                  match TextAt(obj, "updated_at")
                  case Err(f) => Err(f)
                  case Ok(updatedAt) =>
                    Ok(Dataset(id, name, description, source, columns, tags, extra, createdAt, updatedAt))
  }

  // ---------------------------------------------------------------------
  // Round trip

  lemma OptionalTextRoundTrip(obj: map<string, Json>, key: string, t: Option<string>)
    requires key in obj && obj[key] == TextOrNull(t)
    ensures OptionalTextAt(obj, key) == Ok(t)
  {
  }

  lemma SourceRoundTrip(s: DataSource)
    ensures SourceFromSerializable(SourceToSerializable(s)) == Ok(s)
  {
    var obj := SourceToSerializable(s).fields;
    assert TextAt(obj, "name") == Ok(s.name);
    assert obj["type"] == JStr(SourceTypeValue(s.kind));
    ParseSourceTypeValue(s.kind);
    assert TextAt(obj, "uri") == Ok(s.uri);
    OptionalTextRoundTrip(obj, "description", s.description);
  }

  lemma ColumnRoundTrip(c: Column)
    ensures ColumnFromSerializable(ColumnToSerializable(c)) == Ok(c)
  {
    var obj := ColumnToSerializable(c).fields;
    assert TextAt(obj, "name") == Ok(c.name);
    assert TextAt(obj, "dtype") == Ok(c.dtype);
    OptionalTextRoundTrip(obj, "description", c.description);
    assert obj["nullable"] == JBool(c.nullable);
  }

  lemma {:induction false} ColumnsRoundTrip(cs: seq<Column>)
    ensures ColumnsFromSerializable(ColumnsToSerializable(cs)) == Ok(cs)
  {
    if cs != [] {
      ColumnRoundTrip(cs[0]);
      assert ColumnsToSerializable(cs)[1..] == ColumnsToSerializable(cs[1..]);
      ColumnsRoundTrip(cs[1..]);
      assert [cs[0]] + cs[1..] == cs;
    }
  }

  lemma {:induction false} TextsRoundTrip(ts: seq<string>)
    ensures TextsFrom(Texts(ts)) == Ok(ts)
  {
    if ts != [] {
      assert Texts(ts)[1..] == Texts(ts[1..]);
      TextsRoundTrip(ts[1..]);
      assert [ts[0]] + ts[1..] == ts;
    }
  }

  lemma FieldsRoundTrip(d: Dataset)
    ensures DatasetFields(DatasetToSerializable(d).fields, d.source, d.columns) == Ok(d)
  {
    NamingFieldsRead(d);
    TrailingFieldsRead(d);
    TextsRoundTrip(d.tags);
  }

  /** The serialized id, name, description and tags read back. */
  lemma NamingFieldsRead(d: Dataset)
    ensures var obj := DatasetToSerializable(d).fields;
      && TextAt(obj, "id") == Ok(d.id) && TextAt(obj, "name") == Ok(d.name)
      && OptionalTextAt(obj, "description") == Ok(d.description)
      && ListAt(obj, "tags") == Ok(Texts(d.tags))
  {
    var obj := DatasetToSerializable(d).fields;
    OptionalTextRoundTrip(obj, "description", d.description);
  }

  /** The serialized extra metadata and timestamps read back. */
  lemma TrailingFieldsRead(d: Dataset)
    ensures var obj := DatasetToSerializable(d).fields;
      && ExtraAt(obj) == Ok(d.extraMetadata)
      && TextAt(obj, "created_at") == Ok(d.createdAt) && TextAt(obj, "updated_at") == Ok(d.updatedAt)
  {
  }

  /** Deserializing a serialized dataset gives it back: same id, name,
      description, source, columns, tags, extra metadata and timestamps. */
  lemma DatasetRoundTrip(d: Dataset)
    ensures DatasetFromSerializable(DatasetToSerializable(d)) == Ok(d)
  {
    var obj := DatasetToSerializable(d).fields;
    assert "source" in obj && obj["source"] == SourceToSerializable(d.source);
    SourceRoundTrip(d.source);
    assert ListAt(obj, "columns") == Ok(ColumnsToSerializable(d.columns));
    ColumnsRoundTrip(d.columns);
    FieldsRoundTrip(d);
  }

  /** A payload without any of the optional keys takes the defaults: no
      description, no tags, no extra metadata, no columns; a column without
      `nullable` is nullable. */
  lemma DefaultsFilled(id: string, name: string, source: DataSource, createdAt: string, updatedAt: string)
    ensures DatasetFromSerializable(JObj(map[
      "id" := JStr(id), "name" := JStr(name), "source" := SourceToSerializable(source),
      "created_at" := JStr(createdAt), "updated_at" := JStr(updatedAt)]))
      == Ok(Dataset(id, name, None, source, [], [], map[], createdAt, updatedAt))
  {
    var obj := map[
      "id" := JStr(id), "name" := JStr(name), "source" := SourceToSerializable(source),
      "created_at" := JStr(createdAt), "updated_at" := JStr(updatedAt)];
    SourceRoundTrip(source);
    assert "columns" !in obj && "tags" !in obj && "extra_metadata" !in obj && "description" !in obj;
  }

  lemma ColumnDefaultNullable(name: string, dtype: string)
    ensures ColumnFromSerializable(JObj(map["name" := JStr(name), "dtype" := JStr(dtype)]))
      == Ok(Column(name, dtype, None, true))
  {
    var obj := map["name" := JStr(name), "dtype" := JStr(dtype)];
    assert "nullable" !in obj && "description" !in obj;
  }

  // ---------------------------------------------------------------------
  // The store

  /** `to_dict`: each dataset serialized under its key. */
  function Serialized(datasets: map<string, Dataset>): (r: map<string, Json>)
    ensures r.Keys == datasets.Keys
  {
    map id | id in datasets :: DatasetToSerializable(datasets[id])
  }

  predicate Distinct(ks: seq<string>)
  {
    forall i, j :: 0 <= i < j < |ks| ==> ks[i] != ks[j]
  }

  /** Decoding each entry of a dictionary in the iteration order `keys`,
      stopping at the first entry that fails. */
  function DecodeEach<T>(decode: Json -> Result<T>, data: map<string, Json>, keys: seq<string>): (r: Result<map<string, T>>)
    requires forall k :: k in keys ==> k in data
    ensures r.Ok? ==> r.value.Keys == set k | k in keys
    decreases |keys|
  {
    if keys == [] then Ok(map[])
    else
      var k := keys[|keys| - 1];
      match DecodeEach(decode, data, keys[..|keys| - 1])
      case Err(f) => Err(f)
      case Ok(m) =>
        match decode(data[k])
        case Err(f) => Err(f)
        case Ok(d) => Ok(m[k := d])
  }

  /** `from_dict`, spec form. */
  function Deserialized(data: map<string, Json>, keys: seq<string>): Result<map<string, Dataset>>
    requires forall k :: k in keys ==> k in data
  {
    DecodeEach(DatasetFromSerializable, data, keys)
  }

  lemma {:induction false} DecodeEachOk<T>(decode: Json -> Result<T>, data: map<string, Json>, keys: seq<string>)
    requires forall k :: k in keys ==> k in data
    ensures DecodeEach(decode, data, keys).Ok? <==> forall k :: k in keys ==> decode(data[k]).Ok?
    ensures DecodeEach(decode, data, keys).Ok? ==>
      forall k :: k in keys ==> DecodeEach(decode, data, keys).value[k] == decode(data[k]).value
    decreases |keys|
  {
    if keys != [] {
      var init := keys[..|keys| - 1];
      assert forall k :: k in keys <==> k in init || k == keys[|keys| - 1];
      DecodeEachOk(decode, data, init);
    }
  }

  /** `from_dict` succeeds exactly when every payload deserializes, and
      then each key holds its payload's dataset. */
  lemma DeserializedOk(data: map<string, Json>, keys: seq<string>)
    requires forall k :: k in keys ==> k in data
    ensures Deserialized(data, keys).Ok? <==> forall k :: k in keys ==> DatasetFromSerializable(data[k]).Ok?
    ensures Deserialized(data, keys).Ok? ==>
      forall k :: k in keys ==> Deserialized(data, keys).value[k] == DatasetFromSerializable(data[k]).value
  {
    DecodeEachOk(DatasetFromSerializable, data, keys);
  }

  lemma {:induction false} DecodeEachIs<T>(decode: Json -> Result<T>, data: map<string, Json>, keys: seq<string>, target: map<string, T>)
    requires forall k :: k in keys ==> k in data && k in target && decode(data[k]) == Ok(target[k])
    ensures DecodeEach(decode, data, keys) == Ok(map k | k in keys :: target[k])
    decreases |keys|
  {
    if keys != [] {
      var init := keys[..|keys| - 1];
      var last := keys[|keys| - 1];
      assert forall k :: k in keys <==> k in init || k == last;
      DecodeEachIs(decode, data, init, target);
      var m0 := map k | k in init :: target[k];
      assert m0[last := target[last]] == map k | k in keys :: target[k];
    }
  }

  lemma DecodeEachStep<T>(decode: Json -> Result<T>, data: map<string, Json>, keys: seq<string>, i: nat)
    requires forall k :: k in keys ==> k in data
    requires i < |keys|
    ensures DecodeEach(decode, data, keys[..i + 1])
      == match DecodeEach(decode, data, keys[..i])
         case Err(f) => Err(f)
         case Ok(m) =>
           match decode(data[keys[i]])
           case Err(f) => Err(f)
           case Ok(d) => Ok(m[keys[i] := d])
  {
    assert keys[..i + 1][..i] == keys[..i];
  }

  /** A failure among the first `n` entries is the failure of the whole. */
  lemma {:induction false} DecodeEachPrefixErr<T>(decode: Json -> Result<T>, data: map<string, Json>, keys: seq<string>, n: nat)
    requires forall k :: k in keys ==> k in data
    requires n <= |keys| && DecodeEach(decode, data, keys[..n]).Err?
    ensures DecodeEach(decode, data, keys) == DecodeEach(decode, data, keys[..n])
    decreases |keys| - n
  {
    if n < |keys| {
      assert keys[..n + 1][..n] == keys[..n];
      DecodeEachPrefixErr(decode, data, keys, n + 1);
    } else {
      assert keys[..n] == keys;
    }
  }

  /** `from_dict(to_dict(s))` rebuilds the same datasets under the same ids. */
  lemma RoundTrip(datasets: map<string, Dataset>, keys: seq<string>)
    requires (set k | k in keys) == datasets.Keys
    ensures Deserialized(Serialized(datasets), keys) == Ok(datasets)
  {
    var data := Serialized(datasets);
    SerializedDecodes(datasets, keys);
    DecodeEachIs(DatasetFromSerializable, data, keys, datasets);
    RestrictToAll(datasets, keys);
  }

  lemma SerializedDecodes(datasets: map<string, Dataset>, keys: seq<string>)
    requires (set k | k in keys) == datasets.Keys
    ensures forall k :: k in keys ==>
      k in Serialized(datasets) && k in datasets && DatasetFromSerializable(Serialized(datasets)[k]) == Ok(datasets[k])
  {
    forall k | k in keys
      ensures k in Serialized(datasets) && k in datasets && DatasetFromSerializable(Serialized(datasets)[k]) == Ok(datasets[k])
    {
      SerializedEntry(datasets, k);
    }
  }

  lemma RestrictToAll<T>(m: map<string, T>, keys: seq<string>)
    requires (set k | k in keys) == m.Keys
    ensures (map k | k in keys :: m[k]) == m
  {
  }

  lemma SerializedEntry(datasets: map<string, Dataset>, k: string)
    requires k in datasets
    ensures DatasetFromSerializable(Serialized(datasets)[k]) == Ok(datasets[k])
  {
    DatasetRoundTrip(datasets[k]);
  }

  const NoItems := Failure(AttributeError, "object has no attribute 'items'")

  /** The registry. `order` is the dictionary's insertion order, which
      `list_datasets` follows. */
  class MetadataStore {
    var datasets: map<string, Dataset>
    var order: seq<string>

    ghost predicate Valid()
      reads this
    {
      Distinct(order) && (set k | k in order) == datasets.Keys
    }

    constructor ()
      ensures datasets == map[] && order == [] && Valid()
    {
      datasets := map[];
      order := [];
    }

    /** `register_dataset`: stores the dataset under its id, replacing an
        earlier one with that id; a new id goes last in the order. */
    method RegisterDataset(d: Dataset)
      requires Valid()
      modifies this
      ensures Valid()
      ensures datasets == old(datasets)[d.id := d]
      ensures order == if d.id in old(datasets) then old(order) else old(order) + [d.id]
      ensures GetDataset(d.id) == Some(d)
      ensures forall id :: id != d.id ==> GetDataset(id) == old(GetDataset(id))
    {
      if d.id !in datasets {
        assert forall i :: 0 <= i < |order| ==> order[i] in datasets;
        order := order + [d.id];
      }
      datasets := datasets[d.id := d];
    }

    /** `get_dataset`: the dataset registered under the id, if any. */
    function GetDataset(id: string): (r: Option<Dataset>)
      reads this
      ensures r.None? <==> id !in datasets
      ensures r.Some? ==> r.value == datasets[id]
    {
      if id in datasets then Some(datasets[id]) else None
    }

    /** `list_datasets`: one dataset per registered id, in insertion order. */
    function ListDatasets(): (r: seq<Dataset>)
      reads this
      requires Valid()
      ensures |r| == |order| && forall i :: 0 <= i < |r| ==> r[i] == datasets[order[i]]
      ensures forall id :: id in datasets ==> datasets[id] in r
    {
      var ids, m := order, datasets;
      var r := seq(|ids|, i requires 0 <= i < |ids| && ids[i] in m => m[ids[i]]);
      assert forall id :: id in m ==> exists i :: 0 <= i < |ids| && ids[i] == id;
      r
    }

    /** `to_dict`. */
    function ToDict(): (r: map<string, Json>)
      reads this
      ensures r == Serialized(datasets)
    {
      map id | id in datasets :: DatasetToSerializable(datasets[id])
    }

    /** One decoded payload stored under its key, appended to the order. */
    method Put(key: string, d: Dataset)
      modifies this
      ensures datasets == old(datasets)[key := d] && order == old(order) + [key]
    {
      datasets := datasets[key := d];
      order := order + [key];
    }

    /** `from_dict`: a new store filled from the dictionary, visited in
        its iteration order `keys`; the first payload that fails to
        deserialize raises. */
    static method FromDict(data: map<string, Json>, keys: seq<string>) returns (r: Result<MetadataStore>)
      requires Distinct(keys) && (set k | k in keys) == data.Keys
      ensures Deserialized(data, keys).Err? ==> r == Err(Deserialized(data, keys).failure)
      ensures Deserialized(data, keys).Ok? ==>
        r.Ok? && fresh(r.value) && r.value.Valid()
        && r.value.datasets == Deserialized(data, keys).value && r.value.order == keys
    {
      var store := new MetadataStore();
      var i := 0;
      while i < |keys|
        invariant 0 <= i <= |keys|
        invariant fresh(store)
        invariant Deserialized(data, keys[..i]) == Ok(store.datasets)
        invariant store.order == keys[..i]
      {
        DecodeEachStep(DatasetFromSerializable, data, keys, i);
        var d := DatasetFromSerializable(data[keys[i]]);
        if d.Err? {
          DecodeEachPrefixErr(DatasetFromSerializable, data, keys, i + 1);
          return Err(d.failure);
        }
        PrefixSnoc(keys, i);
        store.Put(keys[i], d.value);
        i := i + 1;
      }
      assert keys[..i] == keys;
      return Ok(store);
    }

    /** `load_from_file`: an empty store when the file does not exist, else
        `from_dict` of its decoded JSON, which must be an object. */
    static method LoadFromFile(file: Option<Json>, keys: seq<string>) returns (r: Result<MetadataStore>)
      requires file.Some? && file.value.JObj? ==> Distinct(keys) && (set k | k in keys) == file.value.fields.Keys
      ensures file.None? ==> r.Ok? && fresh(r.value) && r.value.datasets == map[] && r.value.Valid()
      ensures file.Some? && !file.value.JObj? ==> r == Err(NoItems)
      ensures file.Some? && file.value.JObj? && Deserialized(file.value.fields, keys).Ok? ==>
        r.Ok? && fresh(r.value) && r.value.datasets == Deserialized(file.value.fields, keys).value
      ensures file.Some? && file.value.JObj? && Deserialized(file.value.fields, keys).Err? ==>
        r == Err(Deserialized(file.value.fields, keys).failure)
    {
      if file.None? {
        var store := new MetadataStore();
        return Ok(store);
      }
      if !file.value.JObj? {
        return Err(NoItems);
      }
      r := FromDict(file.value.fields, keys);
    }
  }
}
