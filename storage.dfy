/** The storage adapters. Logical keys such as `raw/world_bank_gdp/...`
    name files under a root directory, or objects of one S3 bucket beneath
    an optional base prefix. Contents are byte strings; how a table is
    encoded as Parquet is a parameter. */
module Storage {
  import opened Common

  newtype byte = x: int | 0 <= x < 256

  type Bytes = seq<byte>

  // ---------------------------------------------------------------------
  // S3 keys

  /** The base prefix as the adapter keeps it: absent reads as empty, and
      trailing slashes are dropped. */
  function NormalizeBasePrefix(basePrefix: Option<string>): (r: string)
    ensures r == "" || r[|r| - 1] != '/'
    ensures basePrefix.None? ==> r == ""
    ensures basePrefix.Some? ==>
      (|r| <= |basePrefix.value| && r == basePrefix.value[..|r|]
       && forall i :: |r| <= i < |basePrefix.value| ==> basePrefix.value[i] == '/')
  {
    TrimRightChar(basePrefix.GetOr(""), '/')
  }

  /** `_full_key`: the key without leading slashes, beneath the base prefix
      when there is one. */
  function FullKey(basePrefix: string, key: string): string
  {
    var k := TrimLeftChar(key, '/');
    if basePrefix != "" then basePrefix + "/" + k else k
  }

  /** An object key with the base prefix and its slash removed, as
      `list_keys` reports it. */
  function LogicalKey(basePrefix: string, objectKey: string): string
  {
    if basePrefix != "" && StartsWith(objectKey, basePrefix + "/") then objectKey[|basePrefix| + 1..]
    else objectKey
  }

  /** Listing reports a written key as it was given, less leading slashes. */
  lemma LogicalOfFullKey(basePrefix: string, key: string)
    ensures LogicalKey(basePrefix, FullKey(basePrefix, key)) == TrimLeftChar(key, '/')
  {
    if basePrefix != "" {
      var full := FullKey(basePrefix, key);
      assert full[..|basePrefix + "/"|] == basePrefix + "/";
      assert full[|basePrefix| + 1..] == TrimLeftChar(key, '/');
    }
  }

  /** Beneath a normalized base prefix an object key has exactly one slash
      between the prefix and the logical key. */
  lemma FullKeySingleSlash(basePrefix: string, key: string)
    requires basePrefix != "" && basePrefix[|basePrefix| - 1] != '/'
    ensures StartsWith(FullKey(basePrefix, key), basePrefix + "/")
    ensures var rest := FullKey(basePrefix, key)[|basePrefix| + 1..]; rest == "" || rest[0] != '/'
  {
    var full := FullKey(basePrefix, key);
    assert full == basePrefix + "/" + TrimLeftChar(key, '/');
    assert full[|basePrefix| + 1..] == TrimLeftChar(key, '/');
  }

  /** The prefix `list_keys` asks S3 for: the full key of the logical
      prefix with its trailing slashes replaced by exactly one. */
  function ListPrefix(basePrefix: string, prefix: string): (r: string)
    ensures r != [] && r[|r| - 1] == '/'
    ensures |r| >= 2 ==> r[|r| - 2] != '/'
    ensures r[..|r| - 1] == TrimRightChar(FullKey(basePrefix, prefix), '/')
  {
    TrimRightChar(FullKey(basePrefix, prefix), '/') + "/"
  }

  /** The location string a write reports. */
  function S3Location(bucket: string, fullKey: string): (r: string)
  {
    "s3://" + bucket + "/" + fullKey
  }

  /** The location names the bucket and the full object key. */
  lemma S3LocationParts(bucket: string, fullKey: string)
    ensures StartsWith(S3Location(bucket, fullKey), "s3://" + bucket + "/")
    ensures S3Location(bucket, fullKey)[|bucket| + 6..] == fullKey
  {
    var loc := S3Location(bucket, fullKey);
    assert loc == ("s3://" + bucket + "/") + fullKey;
  }

  /** The pages of a listing, in order, as one sequence. */
  function Concat(pages: seq<seq<string>>): (r: seq<string>)
  {
    if pages == [] then [] else Concat(pages[..|pages| - 1]) + pages[|pages| - 1]
  }

  lemma ConcatSnoc(pages: seq<seq<string>>, i: nat)
    requires i < |pages|
    ensures Concat(pages[..i + 1]) == Concat(pages[..i]) + pages[i]
  {
    assert pages[..i + 1][..i] == pages[..i];
  }

  function LogicalKeys(basePrefix: string, objectKeys: seq<string>): (r: seq<string>)
    ensures |r| == |objectKeys|
    ensures forall i :: 0 <= i < |r| ==> r[i] == LogicalKey(basePrefix, objectKeys[i])
  {
    seq(|objectKeys|, i requires 0 <= i < |objectKeys| => LogicalKey(basePrefix, objectKeys[i]))
  }

  lemma LogicalKeysSnoc(basePrefix: string, objectKeys: seq<string>, key: string)
    ensures LogicalKeys(basePrefix, objectKeys + [key]) == LogicalKeys(basePrefix, objectKeys) + [LogicalKey(basePrefix, key)]
  {}

  lemma LogicalKeysAppend(basePrefix: string, xs: seq<string>, ys: seq<string>)
    ensures LogicalKeys(basePrefix, xs + ys) == LogicalKeys(basePrefix, xs) + LogicalKeys(basePrefix, ys)
  {}

  /** Keys written through an adapter list as the logical keys given. */
  lemma ListingOfWrittenKeys(basePrefix: string, written: seq<string>, objectKeys: seq<string>)
    requires |objectKeys| == |written|
    requires forall i :: 0 <= i < |written| ==> objectKeys[i] == FullKey(basePrefix, written[i])
    ensures forall i :: 0 <= i < |written| ==>
      LogicalKeys(basePrefix, objectKeys)[i] == TrimLeftChar(written[i], '/')
  {
    forall i | 0 <= i < |written|
      ensures LogicalKeys(basePrefix, objectKeys)[i] == TrimLeftChar(written[i], '/')
    {
      LogicalOfFullKey(basePrefix, written[i]);
    }
  }

  function NoSuchKey(key: string): Failure
  {
    Failure(ClientError, "NoSuchKey: " + key)
  }

  /** An S3 bucket seen through the adapter's base prefix. */
  class S3StorageAdapter {
    const bucket: string
    const basePrefix: string
    var objects: map<string, Bytes>

    constructor (bucket: string, basePrefix: Option<string>, objects: map<string, Bytes>)
      ensures this.bucket == bucket
      ensures this.basePrefix == NormalizeBasePrefix(basePrefix)
      ensures this.objects == objects
    {
      this.bucket := bucket;
      this.basePrefix := NormalizeBasePrefix(basePrefix);
      this.objects := objects;
    }

    method WriteRaw(key: string, content: Bytes) returns (location: string)
      modifies this
      ensures objects == old(objects)[FullKey(basePrefix, key) := content]
      ensures location == S3Location(bucket, FullKey(basePrefix, key))
    {
      var fullKey := FullKey(basePrefix, key);
      objects := objects[fullKey := content];
      location := S3Location(bucket, fullKey);
    }

    method ReadRaw(key: string) returns (r: Result<Bytes>)
      ensures FullKey(basePrefix, key) in objects ==> r == Ok(objects[FullKey(basePrefix, key)])
      ensures FullKey(basePrefix, key) !in objects ==> r == Err(NoSuchKey(FullKey(basePrefix, key)))
    {
      var fullKey := FullKey(basePrefix, key);
      if fullKey in objects {
        r := Ok(objects[fullKey]);
      } else {
        r := Err(NoSuchKey(fullKey));
      }
    }

    method WriteParquet<T>(table: T, encode: T -> Bytes, key: string) returns (location: string)
      modifies this
      ensures objects == old(objects)[FullKey(basePrefix, key) := encode(table)]
      ensures location == S3Location(bucket, FullKey(basePrefix, key))
    {
      location := WriteRaw(key, encode(table));
    }

    method ReadParquet<T>(key: string, decode: Bytes -> T) returns (r: Result<T>)
      ensures FullKey(basePrefix, key) in objects ==> r == Ok(decode(objects[FullKey(basePrefix, key)]))
      ensures FullKey(basePrefix, key) !in objects ==> r == Err(NoSuchKey(FullKey(basePrefix, key)))
    {
      var raw := ReadRaw(key);
      match raw
      case Ok(data) => r := Ok(decode(data));
      case Err(f) => r := Err(f);
    }

    /** `list_keys`: every page S3 returns for the listing prefix, in order,
        with the base prefix removed from each key. */
    method ListKeys(prefix: string, listing: string -> seq<seq<string>>) returns (keys: seq<string>)
      ensures keys == LogicalKeys(basePrefix, Concat(listing(ListPrefix(basePrefix, prefix))))
    {
      var pages := listing(ListPrefix(basePrefix, prefix));
      keys := [];
      var i := 0;
      while i < |pages|
        invariant 0 <= i <= |pages|
        invariant keys == LogicalKeys(basePrefix, Concat(pages[..i]))
      {
        var stripped := StripPage(pages[i]);
        LogicalKeysAppend(basePrefix, Concat(pages[..i]), pages[i]);
        ConcatSnoc(pages, i);
        keys := keys + stripped;
        i := i + 1;
      }
      assert pages[..i] == pages;
    }

    /** The keys of one page, base prefix removed. */
    method StripPage(contents: seq<string>) returns (keys: seq<string>)
      ensures keys == LogicalKeys(basePrefix, contents)
    {
      keys := [];
      var j := 0;
      while j < |contents|
        invariant 0 <= j <= |contents|
        invariant keys == LogicalKeys(basePrefix, contents[..j])
      {
        var key := contents[j];
        if basePrefix != "" && StartsWith(key, basePrefix + "/") {
          key := key[|basePrefix| + 1..];
        }
        LogicalKeysSnoc(basePrefix, contents[..j], contents[j]);
        assert contents[..j + 1] == contents[..j] + [contents[j]];
        keys := keys + [key];
        j := j + 1;
      }
      assert contents[..j] == contents;
    }
  }

  // ---------------------------------------------------------------------
  // Local files

  /** `root_dir / key` as text: a `.` root is dropped, as pathlib does. */
  function LocalPath(root: string, key: string): string
  {
    if root == "." || root == "" then key else root + "/" + key
  }

  /** A file lies in the tree rooted at `dir` (the whole tree for an empty
      directory name). */
  predicate UnderDirectory(dir: string, path: string)
  {
    dir == "" || StartsWith(path, dir + "/")
  }

  function FileNotFound(path: string): Failure
  {
    Failure(FileNotFoundError, "No such file or directory: " + path)
  }

  /** A directory tree as the files in it, by path relative to the root
      with `/` separators; directories are the prefixes of those paths. */
  class LocalStorageAdapter {
    const root: string
    var files: map<string, Bytes>

    constructor (root: string, files: map<string, Bytes>)
      ensures this.root == root && this.files == files
    {
      this.root := root;
      this.files := files;
    }

    method WriteRaw(key: string, content: Bytes) returns (location: string)
      modifies this
      ensures files == old(files)[key := content]
      ensures location == LocalPath(root, key)
    {
      files := files[key := content];
      location := LocalPath(root, key);
    }

    method ReadRaw(key: string) returns (r: Result<Bytes>)
      ensures key in files ==> r == Ok(files[key])
      ensures key !in files ==> r == Err(FileNotFound(LocalPath(root, key)))
    {
      if key in files {
        r := Ok(files[key]);
      } else {
        r := Err(FileNotFound(LocalPath(root, key)));
      }
    }

    method WriteParquet<T>(table: T, encode: T -> Bytes, key: string) returns (location: string)
      modifies this
      ensures files == old(files)[key := encode(table)]
      ensures location == LocalPath(root, key)
    {
      location := WriteRaw(key, encode(table));
    }

    method ReadParquet<T>(key: string, decode: Bytes -> T) returns (r: Result<T>)
      ensures key in files ==> r == Ok(decode(files[key]))
      ensures key !in files ==> r == Err(FileNotFound(LocalPath(root, key)))
    {
      var raw := ReadRaw(key);
      match raw
      case Ok(data) => r := Ok(decode(data));
      case Err(f) => r := Err(f);
    }

    /** `list_keys`: the entries the recursive walk of the prefix directory
        yields, kept when they are files; nothing when that directory does
        not exist. */
    method ListKeys(prefix: string, walk: string -> seq<string>) returns (keys: seq<string>)
      ensures !PathExists(files, TrimRightChar(prefix, '/')) ==> keys == []
      ensures PathExists(files, TrimRightChar(prefix, '/')) ==>
        keys == FilesAmong(files, walk(TrimRightChar(prefix, '/')))
    {
      var base := TrimRightChar(prefix, '/');
      if !PathExists(files, base) {
        return [];
      }
      var entries := walk(base);
      keys := [];
      var i := 0;
      while i < |entries|
        invariant 0 <= i <= |entries|
        invariant keys == FilesAmong(files, entries[..i])
      {
        assert entries[..i + 1][..i] == entries[..i];
        if entries[i] in files {
          keys := keys + [entries[i]];
        }
        i := i + 1;
      }
      assert entries[..i] == entries;
    }
  }

  /** A path exists when it is the root, a file, or a directory holding a
      file (empty directories are not modelled). */
  predicate PathExists(files: map<string, Bytes>, path: string)
  {
    path == "" || path in files || exists k :: k in files && StartsWith(k, path + "/")
  }

  /** The files among walked entries, in walk order. */
  function FilesAmong(files: map<string, Bytes>, entries: seq<string>): (r: seq<string>)
    ensures forall k :: k in r ==> k in files && k in entries
  {
    if entries == [] then []
    else
      FilesAmong(files, entries[..|entries| - 1])
        + (if entries[|entries| - 1] in files then [entries[|entries| - 1]] else [])
  }

  /** The files in the tree under a prefix. */
  function ListedFiles(files: map<string, Bytes>, prefix: string): set<string>
  {
    set k | k in files && UnderDirectory(TrimRightChar(prefix, '/'), k)
  }

  lemma {:induction false} FilesAmongMembers(files: map<string, Bytes>, entries: seq<string>, k: string)
    requires k in files && k in entries
    ensures k in FilesAmong(files, entries)
    decreases |entries|
  {
    if entries[|entries| - 1] != k {
      var init := entries[..|entries| - 1];
      assert k in init by {
        var j :| 0 <= j < |entries| && entries[j] == k;
        assert j < |entries| - 1;
        assert init[j] == k;
      }
      FilesAmongMembers(files, init, k);
    }
  }

  /** When the walk yields the entries of the tree under the prefix, the
      listing holds exactly the files of that tree. */
  lemma WalkListsTree(files: map<string, Bytes>, prefix: string, entries: seq<string>)
    requires forall k :: k in entries ==> UnderDirectory(TrimRightChar(prefix, '/'), k)
    requires forall k :: k in files && UnderDirectory(TrimRightChar(prefix, '/'), k) ==> k in entries
    ensures forall k :: k in FilesAmong(files, entries) <==> k in ListedFiles(files, prefix)
  {
    forall k | k in ListedFiles(files, prefix)
      ensures k in FilesAmong(files, entries)
    {
      FilesAmongMembers(files, entries, k);
    }
  }

  /** A written file is listed under the directory it was written to. */
  lemma WrittenFileListed(files: map<string, Bytes>, dir: string, name: string, content: Bytes)
    requires dir != "" && dir[|dir| - 1] != '/'
    ensures dir + "/" + name in ListedFiles(files[dir + "/" + name := content], dir)
  {
    assert TrimRightChar(dir, '/') == dir;
    assert (dir + "/" + name)[..|dir + "/"|] == dir + "/";
  }

  lemma {:induction false} TrimRightSlashAgain(p: string)
    ensures TrimRightChar(p + "/", '/') == TrimRightChar(p, '/')
  {
    assert (p + "/")[..|p + "/"| - 1] == p;
  }

  /** Trailing slashes on the prefix do not change the listing. */
  lemma ListingIgnoresTrailingSlash(files: map<string, Bytes>, prefix: string)
    ensures ListedFiles(files, prefix + "/") == ListedFiles(files, prefix)
  {
    TrimRightSlashAgain(prefix);
  }
}
