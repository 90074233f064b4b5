/** Shared vocabulary for the pipeline model: optional values, Python-style
    failures, JSON values as Python's `json` module decodes them, and the
    handful of `str`/`int`/`float` builtins the pipeline relies on. */
module Common {

  datatype Option<T> = None | Some(value: T)
  {
    function GetOr(default: T): T
    {
      match this
      case Some(v) => v
      case None => default
    }
  }

  /** The Python exception classes the pipeline raises or catches
      (`ClientError` is botocore's error for a rejected AWS request). */
  datatype ExcKind =
    | KeyError | ValueError | RuntimeError | AttributeError | TypeError
    | AssertionError | HttpError | NetworkError | ClientError | FileNotFoundError
    | UnicodeDecodeError

  /** A raised exception: its class and `str(exc)`. */
  datatype Failure = Failure(kind: ExcKind, message: string)

  datatype Result<T> = Ok(value: T) | Err(failure: Failure)

  /** A JSON value as `json.loads` hands it to Python (ints and floats are
      distinct, as they are in Python). Object key order is not modelled. */
  datatype Json =
    | JNull
    | JBool(b: bool)
    | JInt(i: int)
    | JFloat(r: real)
    | JStr(s: string)
    | JArr(items: seq<Json>)
    | JObj(fields: map<string, Json>)

  /** Sorted-key JSON encoding and SHA-1 hex digest, both left abstract. */
  datatype Codec = Codec(dumpsSorted: Json -> string, sha1Hex: string -> string)

  /** Python truthiness (`bool(v)`). */
  predicate Truthy(v: Json)
  {
    match v
    case JNull => false
    case JBool(b) => b
    case JInt(i) => i != 0
    case JFloat(r) => r != 0.0
    case JStr(s) => s != ""
    case JArr(xs) => xs != []
    case JObj(m) => m != map[]
  }

  /** `d.get(key)` on a dict. */
  function Get(m: map<string, Json>, key: string): (v: Json)
    ensures key !in m ==> v == JNull
  {
    if key in m then m[key] else JNull
  }

  /** `v or {}` followed by `.get`: a falsy value acts as an empty dict, a
      truthy non-dict raises AttributeError (None here). */
  function AsDictOrEmpty(v: Json): (r: Option<map<string, Json>>)
    ensures !Truthy(v) ==> r == Some(map[])
    ensures r.Some? <==> (!Truthy(v) || v.JObj?)
  {
    if !Truthy(v) then Some(map[])
    else if v.JObj? then Some(v.fields)
    else None
  }

  // ---------------------------------------------------------------------
  // Characters and strings

  predicate IsDigit(c: char) { '0' <= c <= '9' }

  predicate IsAsciiLower(c: char) { 'a' <= c <= 'z' }

  predicate IsAsciiUpper(c: char) { 'A' <= c <= 'Z' }

  /** `str.isdigit()` for ASCII text: non-empty and all digits. */
  predicate AllDigits(s: string)
  {
    |s| > 0 && forall i :: 0 <= i < |s| ==> IsDigit(s[i])
  }

  /** The characters Python's `str.isspace()` (and the regex class `\s`)
      accepts. */
  predicate IsSpace(c: char)
  {
    var n := c as int;
    n == 0x20 || (0x09 <= n <= 0x0D) || (0x1C <= n <= 0x1F)
    || n == 0x85 || n == 0xA0 || n == 0x1680
    || (0x2000 <= n <= 0x200A) || n == 0x2028 || n == 0x2029
    || n == 0x202F || n == 0x205F || n == 0x3000
  }

  function ToLowerChar(c: char): char
  {
    if IsAsciiUpper(c) then ((c as int) + 32) as char else c
  }

  function ToUpperChar(c: char): char
  {
    if IsAsciiLower(c) then ((c as int) - 32) as char else c
  }

  /** `str.lower()` on ASCII letters (other characters kept). */
  function Lower(s: string): (r: string)
    ensures |r| == |s|
    ensures forall i :: 0 <= i < |s| ==> r[i] == ToLowerChar(s[i])
  {
    if s == [] then [] else [ToLowerChar(s[0])] + Lower(s[1..])
  }

  /** `str.upper()` on ASCII letters (other characters kept). */
  function Upper(s: string): (r: string)
    ensures |r| == |s|
    ensures forall i :: 0 <= i < |s| ==> r[i] == ToUpperChar(s[i])
  {
    if s == [] then [] else [ToUpperChar(s[0])] + Upper(s[1..])
  }

  predicate StartsWith(s: string, p: string)
  {
    |p| <= |s| && s[..|p|] == p
  }

  predicate EndsWith(s: string, p: string)
  {
    |p| <= |s| && s[|s| - |p|..] == p
  }

  /** `sub` occurs in `s` starting at index `i`. */
  predicate OccursAt(s: string, sub: string, i: nat)
  {
    i + |sub| <= |s| && s[i..i + |sub|] == sub
  }

  /** `sub in s`. */
  predicate Contains(s: string, sub: string)
  {
    exists i: nat :: i <= |s| && OccursAt(s, sub, i)
  }

  /** `Contains` as a search, so that it can be evaluated. */
  function ContainsAt(s: string, sub: string, from: nat): (b: bool)
    requires from <= |s|
    ensures b <==> exists i: nat :: from <= i && OccursAt(s, sub, i)
    decreases |s| - from
  {
    if from + |sub| > |s| then false
    else if OccursAt(s, sub, from) then true
    else
      var b := ContainsAt(s, sub, from + 1);
      assert b <==> exists i: nat :: from <= i && OccursAt(s, sub, i) by {
        forall i: nat | from <= i && OccursAt(s, sub, i) ensures i == from || from + 1 <= i { }
      }
      b
  }

  function HasSubstring(s: string, sub: string): (b: bool)
    ensures b <==> Contains(s, sub)
  {
    ContainsAt(s, sub, 0)
  }

  /** `str.lstrip()`: drop leading whitespace. */
  function LStrip(s: string): (r: string)
    ensures |r| <= |s| && r == s[|s| - |r|..]
    ensures r != [] ==> !IsSpace(r[0])
  {
    if s != [] && IsSpace(s[0]) then LStrip(s[1..]) else s
  }

  /** `str.rstrip()`: drop trailing whitespace. */
  function RStrip(s: string): (r: string)
    ensures |r| <= |s| && r == s[..|r|]
    ensures r != [] ==> !IsSpace(r[|r| - 1])
  {
    if s != [] && IsSpace(s[|s| - 1]) then RStrip(s[..|s| - 1]) else s
  }

  /** `str.strip()`. */
  function Strip(s: string): (r: string)
    ensures r != [] ==> !IsSpace(r[0]) && !IsSpace(r[|r| - 1])
  {
    RStrip(LStrip(s))
  }

  /** What `lstrip()` cuts off is whitespace. */
  lemma {:induction false} LStripCutsSpace(s: string)
    ensures forall i :: 0 <= i < |s| - |LStrip(s)| ==> IsSpace(s[i])
  {
    if s != [] && IsSpace(s[0]) {
      LStripCutsSpace(s[1..]);
      forall i | 1 <= i < |s| - |LStrip(s)|
        ensures IsSpace(s[i])
      {
        assert s[i] == s[1..][i - 1];
      }
    }
  }

  /** What `rstrip()` cuts off is whitespace. */
  lemma {:induction false} RStripCutsSpace(s: string)
    ensures forall i :: |RStrip(s)| <= i < |s| ==> IsSpace(s[i])
  {
    if s != [] && IsSpace(s[|s| - 1]) {
      RStripCutsSpace(s[..|s| - 1]);
      forall i | |RStrip(s)| <= i < |s| - 1
        ensures IsSpace(s[i])
      {
        assert s[i] == s[..|s| - 1][i];
      }
    }
  }

  /** The stripped text is the slice of the input that starts where
      `lstrip` stops, and everything cut off on either side is
      whitespace. */
  lemma StripSlice(s: string)
    ensures var off := |s| - |LStrip(s)|;
      off + |Strip(s)| <= |s| && Strip(s) == s[off..off + |Strip(s)|]
      && (forall i :: 0 <= i < off ==> IsSpace(s[i]))
      && (forall i :: off + |Strip(s)| <= i < |s| ==> IsSpace(s[i]))
  {
    LStripCutsSpace(s);
    RStripCutsSpace(LStrip(s));
    StripParts(s, LStrip(s), Strip(s));
  }

  /** The two halves of `strip()`: the left cut, then the right cut of what
      is left. */
  lemma StripParts(s: string, l: string, r: string)
    requires |l| <= |s| && l == s[|s| - |l|..]
    requires |r| <= |l| && r == l[..|r|]
    requires forall i :: 0 <= i < |s| - |l| ==> IsSpace(s[i])
    requires forall i :: |r| <= i < |l| ==> IsSpace(l[i])
    ensures var off := |s| - |l|;
      off + |r| <= |s| && r == s[off..off + |r|]
      && (forall i :: 0 <= i < off ==> IsSpace(s[i]))
      && (forall i :: off + |r| <= i < |s| ==> IsSpace(s[i]))
  {
    var off := |s| - |l|;
    forall i | off + |r| <= i < |s|
      ensures IsSpace(s[i])
    {
      assert s[i] == l[i - off];
    }
    SliceOfSlice(s, off, |r|);
  }

  lemma SliceOfSlice<T>(s: seq<T>, lo: nat, n: nat)
    requires lo + n <= |s|
    ensures s[lo..][..n] == s[lo..lo + n]
  {}

  /** A slice of a text whose only whitespace is the plain space has no
      other whitespace either. */
  lemma PlainSpacesSlice(s: string, lo: nat, hi: nat)
    requires lo <= hi <= |s|
    requires forall i :: 0 <= i < |s| && IsSpace(s[i]) ==> s[i] == ' '
    ensures forall i :: 0 <= i < hi - lo && IsSpace(s[lo..hi][i]) ==> s[lo..hi][i] == ' '
  {
    forall i | 0 <= i < hi - lo && IsSpace(s[lo..hi][i])
      ensures s[lo..hi][i] == ' '
    {
      assert s[lo..hi][i] == s[lo + i];
    }
  }

  lemma StripNoEdgeSpace(s: string)
    requires s != [] ==> !IsSpace(s[0]) && !IsSpace(s[|s| - 1])
    ensures Strip(s) == s
  {
    assert LStrip(s) == s;
    assert RStrip(s) == s;
  }

  /** `s.lstrip(c)` for one character. */
  function TrimLeftChar(s: string, c: char): (r: string)
    ensures |r| <= |s| && r == s[|s| - |r|..]
    ensures r != [] ==> r[0] != c
    ensures forall i :: 0 <= i < |s| - |r| ==> s[i] == c
  {
    if s != [] && s[0] == c then TrimLeftChar(s[1..], c) else s
  }

  /** `s.rstrip(c)` for one character. */
  function TrimRightChar(s: string, c: char): (r: string)
    ensures |r| <= |s| && r == s[..|r|]
    ensures r != [] ==> r[|r| - 1] != c
    ensures forall i :: |r| <= i < |s| ==> s[i] == c
  {
    if s != [] && s[|s| - 1] == c then TrimRightChar(s[..|s| - 1], c) else s
  }

  /** `sep.join(parts)`. */
  function Join(parts: seq<string>, sep: string): string
  {
    if parts == [] then ""
    else if |parts| == 1 then parts[0]
    else parts[0] + sep + Join(parts[1..], sep)
  }

  /** Index of the first occurrence of `c` in `s`, if any. */
  function IndexOf(s: string, c: char): (r: Option<nat>)
    ensures r.None? <==> c !in s
    ensures r.Some? ==> r.value < |s| && s[r.value] == c && c !in s[..r.value]
  {
    if s == [] then None
    else if s[0] == c then Some(0)
    else match IndexOf(s[1..], c)
      case None => None
      case Some(k) => Some(k + 1)
  }

  /** `s.split(c)` for a one-character separator: never empty. */
  function Split(s: string, c: char): (parts: seq<string>)
    ensures |parts| >= 1
    ensures forall i :: 0 <= i < |parts| ==> c !in parts[i]
    decreases |s|
  {
    match IndexOf(s, c)
    case None => [s]
    case Some(k) => [s[..k]] + Split(s[k + 1..], c)
  }

  /** A first occurrence is the one `IndexOf` finds. */
  lemma IndexOfIs(s: string, c: char, k: nat)
    requires k < |s| && s[k] == c && c !in s[..k]
    ensures IndexOf(s, c) == Some(k)
  {
    var r := IndexOf(s, c).value;
    forall j | 0 <= j < k ensures s[j] != c { assert s[j] == s[..k][j]; }
    forall j | 0 <= j < r ensures s[j] != c { assert s[j] == s[..r][j]; }
  }

  /** Splitting at a separator between two texts splits each of them. */
  lemma {:induction false} SplitAppend(a: string, b: string, c: char)
    ensures Split(a + [c] + b, c) == Split(a, c) + Split(b, c)
    decreases |a|
  {
    match IndexOf(a, c)
    case None =>
      SplitAppendNoSep(a, b, c);
    case Some(k) =>
      SplitAppendStep(a, b, c, k);
      SplitAppend(a[k + 1..], b, c);
      SeqAssoc([a[..k]], Split(a[k + 1..], c), Split(b, c));
  }

  /** A prefix one longer is the prefix and the next element. */
  lemma PrefixSnoc<T>(s: seq<T>, i: nat)
    requires i < |s|
    ensures s[..i + 1] == s[..i] + [s[i]]
  {
  }

  /** Concatenation is associative. */
  lemma SeqAssoc(x: seq<string>, y: seq<string>, z: seq<string>)
    ensures x + (y + z) == (x + y) + z
  {}

  /** The separator after a text without one splits off that text. */
  lemma SplitAppendNoSep(a: string, b: string, c: char)
    requires c !in a
    ensures Split(a + [c] + b, c) == [a] + Split(b, c)
  {
    var s := a + [c] + b;
    assert s[..|a|] == a;
    IndexOfIs(s, c, |a|);
    assert s[|a| + 1..] == b;
  }

  /** One split step on a text that has a separator. */
  lemma SplitAppendStep(a: string, b: string, c: char, k: nat)
    requires IndexOf(a, c) == Some(k)
    ensures Split(a + [c] + b, c) == [a[..k]] + Split(a[k + 1..] + [c] + b, c)
    ensures Split(a, c) == [a[..k]] + Split(a[k + 1..], c)
  {
    var s := a + [c] + b;
    assert s[..k] == a[..k];
    IndexOfIs(s, c, k);
    SplitAt(s, c, k);
    assert s[k + 1..] == a[k + 1..] + [c] + b;
  }

  /** `Split` cuts at the first separator. */
  lemma SplitAt(s: string, c: char, k: nat)
    requires IndexOf(s, c) == Some(k)
    ensures Split(s, c) == [s[..k]] + Split(s[k + 1..], c)
  {}

  /** Joining the pieces back with the separator restores the text. */
  lemma {:induction false} SplitJoin(s: string, c: char)
    ensures Join(Split(s, c), [c]) == s
    decreases |s|
  {
    match IndexOf(s, c)
    case None =>
    case Some(k) =>
      var rest := Split(s[k + 1..], c);
      assert Split(s, c) == [s[..k]] + rest by { SplitAt(s, c, k); }
      assert Join([s[..k]] + rest, [c]) == s[..k] + [c] + Join(rest, [c]) by {
        assert |rest| >= 1;
        assert ([s[..k]] + rest)[1..] == rest;
      }
      assert Join(rest, [c]) == s[k + 1..] by { SplitJoin(s[k + 1..], c); }
      assert s == s[..k] + [c] + s[k + 1..];
  }

  /** A text without the separator is a single piece. */
  lemma SplitNoSep(s: string, c: char)
    requires c !in s
    ensures Split(s, c) == [s]
  {
    assert IndexOf(s, c) == None;
  }

  /** A text followed by three separator-free pieces splits into its own
      pieces and those three. */
  lemma SplitThree(pre: string, a: string, b: string, c: string, sep: char)
    requires sep !in a && sep !in b && sep !in c
    ensures Split(pre + [sep] + (a + [sep] + (b + [sep] + c)), sep) == Split(pre, sep) + [a, b, c]
  {
    var mid := a + [sep] + (b + [sep] + c);
    assert Split(mid, sep) == [a, b, c] by {
      JoinThree(a, b, c, [sep]);
      JoinSplit([a, b, c], sep);
    }
    assert Split(pre + [sep] + mid, sep) == Split(pre, sep) + Split(mid, sep) by { SplitAppend(pre, mid, sep); }
  }

  /** Three separator-free pieces joined by the separator split back. */
  lemma SplitThreePieces(a: string, b: string, c: string, sep: char)
    requires sep !in a && sep !in b && sep !in c
    ensures Split(a + [sep] + b + [sep] + c, sep) == [a, b, c]
  {
    assert Join([a, b, c], [sep]) == a + [sep] + b + [sep] + c by {
      JoinThree(a, b, c, [sep]);
    }
    JoinSplit([a, b, c], sep);
  }

  lemma HeadTail<T>(s: seq<T>)
    requires s != []
    ensures s == [s[0]] + s[1..]
  {}

  lemma ConcatAt<T>(xs: seq<T>, ys: seq<T>, k: nat)
    requires k < |xs + ys|
    ensures k < |xs| ==> (xs + ys)[k] == xs[k]
    ensures k >= |xs| ==> (xs + ys)[k] == ys[k - |xs|]
  {}

  /** Gluing a prefix to the first part glues it to the whole join. */
  lemma JoinPrefixHead(parts: seq<string>, x: string, sep: string)
    requires parts != []
    ensures Join([x + parts[0]] + parts[1..], sep) == x + Join(parts, sep)
  {
    var q := [x + parts[0]] + parts[1..];
    assert q[1..] == parts[1..];
  }

  lemma JoinThree(a: string, b: string, c: string, sep: string)
    ensures Join([a, b, c], sep) == a + sep + (b + sep + c)
  {
    assert Join([c], sep) == c;
    assert [b, c][1..] == [c];
    assert Join([b, c], sep) == b + sep + c;
    assert [a, b, c][1..] == [b, c];
  }

  /** Splitting a join of separator-free pieces gives the pieces back. */
  lemma {:induction false} JoinSplit(parts: seq<string>, c: char)
    requires parts != []
    requires forall i :: 0 <= i < |parts| ==> c !in parts[i]
    ensures Split(Join(parts, [c]), c) == parts
    decreases |parts|
  {
    var head := parts[0];
    assert IndexOf(head, c) == None;
    if |parts| > 1 {
      var rest := parts[1..];
      var tail := Join(rest, [c]);
      assert Join(parts, [c]) == head + [c] + tail;
      JoinSplit(rest, c);
      SplitAppend(head, tail, c);
      assert parts == [head] + rest;
    }
  }

  /** `s.replace(a, b)` for single characters. */
  function ReplaceChar(s: string, a: char, b: char): (r: string)
    ensures |r| == |s|
    ensures forall i :: 0 <= i < |s| ==> r[i] == (if s[i] == a then b else s[i])
  {
    if s == [] then [] else [if s[0] == a then b else s[0]] + ReplaceChar(s[1..], a, b)
  }

  /** `s.replace(c, "")`. */
  function RemoveChar(s: string, c: char): (r: string)
    ensures c !in r
    ensures |r| <= |s|
  {
    if s == [] then [] else (if s[0] == c then [] else [s[0]]) + RemoveChar(s[1..], c)
  }

  // ---------------------------------------------------------------------
  // Integers as decimal text

  function DigitValue(c: char): nat
    requires IsDigit(c)
  {
    (c as int) - ('0' as int)
  }

  function DigitChar(d: nat): (c: char)
    requires d < 10
    ensures IsDigit(c) && DigitValue(c) == d
  {
    ((d + ('0' as int)) as char)
  }

  /** Value of a string of decimal digits. */
  function DigitsValue(s: string): nat
    requires forall i :: 0 <= i < |s| ==> IsDigit(s[i])
  {
    if s == [] then 0 else DigitsValue(s[..|s| - 1]) * 10 + DigitValue(s[|s| - 1])
  }

  /** `str(n)` for a natural number. */
  function NatToString(n: nat): (s: string)
    ensures AllDigits(s)
  {
    if n < 10 then [DigitChar(n)] else NatToString(n / 10) + [DigitChar(n % 10)]
  }

  /** `str(n)` for an int. */
  function IntToString(n: int): string
  {
    if n < 0 then "-" + NatToString(-n) else NatToString(n)
  }

  /** Python's `int(text)`: surrounding whitespace, an optional sign, then
      decimal digits (digit-group underscores are not modelled). */
  function ParseInt(text: string): (r: Option<int>)
  {
    ParseStripped(Strip(text))
  }

  /** `int()` once the surrounding whitespace is gone. */
  function ParseStripped(t: string): Option<int>
  {
    if t == [] then None
    else if t[0] == '-' || t[0] == '+' then
      (if AllDigits(t[1..]) then
         var m: int := DigitsValue(t[1..]);
         Some(if t[0] == '-' then -m else m)
       else None)
    else if AllDigits(t) then Some(DigitsValue(t))
    else None
  }

  lemma {:induction false} DigitsValueOfNatToString(n: nat)
    ensures DigitsValue(NatToString(n)) == n
  {
    if n >= 10 {
      DigitsValueOfNatToString(n / 10);
      var s := NatToString(n);
      assert s[..|s| - 1] == NatToString(n / 10);
    }
  }

  /** Digits carry no whitespace, so they survive `strip()`. */
  lemma StripOfDigits(s: string)
    requires AllDigits(s)
    ensures Strip(s) == s
  {
    DigitNotSpace(s[0]);
    DigitNotSpace(s[|s| - 1]);
    StripNoEdgeSpace(s);
  }

  /** ... and so does a negative number's text. */
  lemma StripOfNegativeDigits(s: string)
    requires AllDigits(s)
    ensures Strip("-" + s) == "-" + s
  {
    var t := "-" + s;
    assert t[|t| - 1] == s[|s| - 1];
    DigitNotSpace(s[|s| - 1]);
    StripNoEdgeSpace(t);
  }

  lemma DigitNotSpace(c: char)
    requires IsDigit(c)
    ensures !IsSpace(c)
  {
  }

  /** A checkpoint saved as `str(year)` is read back as `year`. */
  lemma {:induction false} ParseIntOfIntToString(n: int)
    ensures ParseInt(IntToString(n)) == Some(n)
  {
    var t := IntToString(n);
    if n < 0 {
      var d := NatToString(-n);
      assert t == "-" + d;
      StripOfNegativeDigits(d);
      DigitsValueOfNatToString(-n);
      ParseStrippedOfNegativeDigits(d);
      assert ParseInt(t) == ParseStripped(t);
    } else {
      assert t == NatToString(n);
      StripOfDigits(t);
      DigitsValueOfNatToString(n);
      ParseStrippedOfDigits(t);
      assert ParseInt(t) == ParseStripped(t);
    }
  }

  /** Text that starts with neither a sign nor a digit is not an int. */
  lemma ParseIntRejectsWord(s: string)
    requires |s| > 0 && !IsSpace(s[0]) && !IsSpace(s[|s| - 1])
    requires !IsDigit(s[0]) && s[0] != '-' && s[0] != '+'
    ensures ParseInt(s).None?
  {
    StripNoEdgeSpace(s);
  }

  /** `str.isdigit()` text parses with `int()` to its digit value. */
  lemma ParseIntOfDigits(s: string)
    requires AllDigits(s)
    ensures ParseInt(s) == Some(DigitsValue(s))
  {
    StripOfDigits(s);
    ParseStrippedOfDigits(s);
  }

  lemma ParseStrippedOfNegativeDigits(s: string)
    requires AllDigits(s)
    ensures ParseStripped("-" + s) == Some(-(DigitsValue(s) as int))
  {
    assert ("-" + s)[1..] == s;
  }

  lemma ParseStrippedOfDigits(s: string)
    requires AllDigits(s)
    ensures ParseStripped(s) == Some(DigitsValue(s))
  {
    assert IsDigit(s[0]);
  }

  // ---------------------------------------------------------------------
  // Decimal numbers as text

  function Pow10(k: nat): (p: nat)
    ensures p >= 1
  {
    if k == 0 then 1 else 10 * Pow10(k - 1)
  }

  /** The value of `ip.fp` given as its two digit strings. */
  function DecimalValue(ip: string, fp: string): real
    requires ip == [] || AllDigits(ip)
    requires fp == [] || AllDigits(fp)
  {
    (if ip == [] then 0 else DigitsValue(ip)) as real
    + (if fp == [] then 0 else DigitsValue(fp)) as real / (Pow10(|fp|) as real)
  }

  /** Value of an unsigned decimal `digits[.digits]` with at least one digit. */
  function UnsignedDecimal(t: string): Option<real>
  {
    match IndexOf(t, '.')
    case None => if AllDigits(t) then Some(DigitsValue(t) as real) else None
    case Some(k) =>
      var ip := t[..k];
      var fp := t[k + 1..];
      if (ip == [] || AllDigits(ip)) && (fp == [] || AllDigits(fp)) && |ip| + |fp| > 0 then
        Some(DecimalValue(ip, fp))
      else None
  }

  /** A sign followed by an unsigned decimal. */
  function SignedDecimal(t: string): Option<real>
    requires t != []
  {
    if t[0] == '-' then
      match UnsignedDecimal(t[1..])
      case Some(x) => Some(-x)
      case None => None
    else if t[0] == '+' then UnsignedDecimal(t[1..])
    else UnsignedDecimal(t)
  }

  /** Python's `float(text)` on decimal text: surrounding whitespace, an
      optional sign, digits with an optional fraction. Exponents, `inf`,
      `nan` and underscores are not modelled and read as unparseable. */
  function ParseNumber(text: string): Option<real>
  {
    var t := Strip(text);
    if t == [] then None else SignedDecimal(t)
  }

  lemma UnsignedDecimalOfDigits(s: string)
    requires AllDigits(s)
    ensures UnsignedDecimal(s) == Some(DigitsValue(s) as real)
  {
    assert '.' !in s by {
      forall i | 0 <= i < |s| ensures s[i] != '.' { assert IsDigit(s[i]); }
    }
  }

  lemma ParseNumberOfDigits(s: string)
    requires AllDigits(s)
    ensures ParseNumber(s) == Some(DigitsValue(s) as real)
  {
    assert ParseNumber(s) == SignedDecimal(s) by { StripOfDigits(s); }
    assert SignedDecimal(s) == UnsignedDecimal(s) by { assert IsDigit(s[0]); }
    UnsignedDecimalOfDigits(s);
  }

  lemma ParseNumberOfNegativeDigits(s: string)
    requires AllDigits(s)
    ensures ParseNumber("-" + s) == Some(-(DigitsValue(s) as real))
  {
    var t := "-" + s;
    assert UnsignedDecimal(s) == Some(DigitsValue(s) as real) by { UnsignedDecimalOfDigits(s); }
    assert SignedDecimal(t) == Some(-(DigitsValue(s) as real)) by { SignedDecimalOfNegative(s); }
    assert ParseNumber(t) == SignedDecimal(t) by {
      StripOfNegativeDigits(s);
      ParseNumberOfStripped(t);
    }
  }

  /** Text without edge whitespace is read by its sign and digits alone. */
  lemma ParseNumberOfStripped(t: string)
    requires t != [] && Strip(t) == t
    ensures ParseNumber(t) == SignedDecimal(t)
  {
  }

  /** A leading `-` negates the unsigned reading. */
  lemma SignedDecimalOfNegative(s: string)
    ensures SignedDecimal("-" + s) == match UnsignedDecimal(s) case Some(x) => Some(-x) case None => None
  {
    assert ("-" + s)[1..] == s;
  }

  /** Integer text reads as the same number with `float()`. */
  lemma ParseNumberOfIntToString(n: int)
    ensures ParseNumber(IntToString(n)) == Some(n as real)
  {
    if n < 0 {
      var d := NatToString(-n);
      assert IntToString(n) == "-" + d;
      DigitsValueOfNatToString(-n);
      ParseNumberOfNegativeDigits(d);
      assert -(DigitsValue(d) as real) == n as real;
    } else {
      var d := NatToString(n);
      assert IntToString(n) == d;
      DigitsValueOfNatToString(n);
      ParseNumberOfDigits(d);
    }
  }

  /** Python `float(v)` on a decoded JSON value; `None` where Python raises
      TypeError or ValueError. */
  function PyFloat(v: Json): (r: Option<real>)
    ensures v.JNull? || v.JArr? || v.JObj? ==> r.None?
    ensures v.JFloat? ==> r == Some(v.r)
    ensures v.JInt? ==> r == Some(v.i as real)
  {
    match v
    case JNull => None
    case JBool(b) => Some(if b then 1.0 else 0.0)
    case JInt(i) => Some(i as real)
    case JFloat(r) => Some(r)
    case JStr(s) => ParseNumber(s)
    case JArr(_) => None
    case JObj(_) => None
  }

  /** `int(x)` on a float: truncation toward zero. */
  function Truncate(r: real): int
  {
    if r >= 0.0 then r.Floor else -((-r).Floor)
  }

  /** Python `int(v)` on a decoded JSON value; `None` where Python raises
      TypeError or ValueError. */
  function PyInt(v: Json): Option<int>
  {
    match v
    case JNull => None
    case JBool(b) => Some(if b then 1 else 0)
    case JInt(i) => Some(i)
    case JFloat(r) => Some(Truncate(r))
    case JStr(s) => ParseInt(s)
    case JArr(_) => None
    case JObj(_) => None
  }

  /** `int(str(n))` gives `n` back. */
  lemma PyIntOfPyStr(n: int)
    ensures PyInt(JStr(PyStr(JInt(n)))) == Some(n)
  {
    ParseIntOfIntToString(n);
  }

  /** `int()` of a float truncates toward zero: down for a non-negative
      value, up for a negative one, by less than one. */
  lemma PyIntTruncates(r: real)
    ensures PyInt(JFloat(r)).Some?
    ensures var n := PyInt(JFloat(r)).value as real;
      && (r >= 0.0 ==> 0.0 <= n <= r < n + 1.0)
      && (r < 0.0 ==> n - 1.0 < r <= n <= 0.0)
  {
  }

  /** Python `str(v)`. Exact for strings, ints, booleans and None; floats,
      lists and dicts get a placeholder rendering that no `int()` or
      `float()` of this model accepts (their exact repr is not modelled). */
  function PyStr(v: Json): (s: string)
    ensures v.JStr? ==> s == v.s
    ensures v.JInt? ==> s == IntToString(v.i)
  {
    match v
    case JNull => "None"
    case JBool(b) => if b then "True" else "False"
    case JInt(i) => IntToString(i)
    case JFloat(r) => "<float>"
    case JStr(s) => s
    case JArr(_) => "<list>"
    case JObj(_) => "<dict>"
  }

  /** `str(v)` unless `v` is None. */
  function OptionalText(v: Json): (r: Option<string>)
    ensures v.JNull? <==> r.None?
  {
    if v.JNull? then None else Some(PyStr(v))
  }

  /** An isdigit() year text: `isinstance(v, str) and v.isdigit()` then int(). */
  function DigitYear(v: Json): (r: Option<int>)
    ensures r.Some? <==> v.JStr? && AllDigits(v.s)
    ensures r.Some? ==> r.value >= 0
  {
    if v.JStr? && AllDigits(v.s) then Some(DigitsValue(v.s)) else None
  }

  // ---------------------------------------------------------------------
  // String order (Python compares str by code point)

  predicate StrLt(a: string, b: string)
    decreases |a|
  {
    if a == [] then b != []
    else if b == [] then false
    else if a[0] != b[0] then a[0] < b[0]
    else StrLt(a[1..], b[1..])
  }

  predicate StrLe(a: string, b: string)
  {
    a == b || StrLt(a, b)
  }

  lemma {:induction false} StrLtIrreflexive(a: string)
    ensures !StrLt(a, a)
    decreases |a|
  {
    if a != [] { StrLtIrreflexive(a[1..]); }
  }

  lemma {:induction false} StrLtTotal(a: string, b: string)
    requires a != b
    ensures StrLt(a, b) || StrLt(b, a)
    decreases |a|
  {
    if a != [] && b != [] && a[0] == b[0] {
      HeadTail(a);
      HeadTail(b);
      StrLtTotal(a[1..], b[1..]);
    }
  }

  lemma {:induction false} StrLtAsymmetric(a: string, b: string)
    requires StrLt(a, b)
    ensures !StrLt(b, a)
    decreases |a|
  {
    if a != [] && b != [] && a[0] == b[0] { StrLtAsymmetric(a[1..], b[1..]); }
  }

  lemma {:induction false} StrLtTransitive(a: string, b: string, c: string)
    requires StrLt(a, b) && StrLt(b, c)
    ensures StrLt(a, c)
    decreases |a|
  {
    if a != [] && b != [] && c != [] && a[0] == b[0] && b[0] == c[0] {
      StrLtTransitive(a[1..], b[1..], c[1..]);
    }
  }

  lemma StrLeTransitive(a: string, b: string, c: string)
    requires StrLe(a, b) && StrLe(b, c)
    ensures StrLe(a, c)
  {
    if a != b && b != c { StrLtTransitive(a, b, c); }
  }

  lemma StrLeTotal(a: string, b: string)
    ensures StrLe(a, b) || StrLe(b, a)
  {
    if a != b { StrLtTotal(a, b); }
  }

  /** Not `a <= b` means `b < a`. */
  lemma StrNotLe(a: string, b: string)
    requires !StrLe(a, b)
    ensures StrLt(b, a)
  {
    StrLtTotal(a, b);
  }

  // ---------------------------------------------------------------------
  // Sorting strings (insertion sort, used where the source sorts keys)

  predicate SortedStrings(xs: seq<string>)
  {
    forall i, j :: 0 <= i < j < |xs| ==> StrLe(xs[i], xs[j])
  }

  function InsertString(x: string, xs: seq<string>): (r: seq<string>)
    requires SortedStrings(xs)
    ensures SortedStrings(r)
    ensures multiset(r) == multiset(xs) + multiset{x}
  {
    if xs == [] then [x]
    else if StrLe(x, xs[0]) then
      assert forall j :: 0 < j < |xs| ==> StrLe(x, xs[j]) by {
        forall j | 0 < j < |xs| ensures StrLe(x, xs[j]) { StrLeTransitive(x, xs[0], xs[j]); }
      }
      [x] + xs
    else
      StrNotLe(x, xs[0]);
      var rest := InsertString(x, xs[1..]);
      HeadTail(xs);
      assert forall j :: 0 <= j < |rest| ==> StrLe(xs[0], rest[j]) by {
        forall j | 0 <= j < |rest| ensures StrLe(xs[0], rest[j]) {
          assert rest[j] in multiset(rest);
          assert rest[j] == x || rest[j] in multiset(xs[1..]);
          if rest[j] != x {
            var k :| 0 <= k < |xs[1..]| && xs[1..][k] == rest[j];
            assert xs[k + 1] == rest[j];
          }
        }
      }
      [xs[0]] + rest
  }

  function SortStrings(xs: seq<string>): (r: seq<string>)
    ensures SortedStrings(r)
    ensures multiset(r) == multiset(xs)
  {
    if xs == [] then []
    else
      HeadTail(xs);
      InsertString(xs[0], SortStrings(xs[1..]))
  }

  predicate StrictlySortedStrings(xs: seq<string>)
  {
    forall i, j :: 0 <= i < j < |xs| ==> StrLt(xs[i], xs[j])
  }

  function InsertDistinct(x: string, xs: seq<string>): (r: seq<string>)
    requires StrictlySortedStrings(xs)
    ensures StrictlySortedStrings(r)
    ensures forall k :: k in r <==> k in xs || k == x
  {
    if xs == [] then [x]
    else if x == xs[0] then xs
    else if StrLt(x, xs[0]) then
      assert forall j :: 0 < j < |xs| ==> StrLt(x, xs[j]) by {
        forall j | 0 < j < |xs| ensures StrLt(x, xs[j]) { StrLtTransitive(x, xs[0], xs[j]); }
      }
      [x] + xs
    else
      StrLtTotal(x, xs[0]);
      var rest := InsertDistinct(x, xs[1..]);
      HeadTail(xs);
      assert forall k :: k in rest ==> StrLt(xs[0], k) by {
        forall k | k in rest ensures StrLt(xs[0], k) {
          if k != x {
            var j :| 0 <= j < |xs[1..]| && xs[1..][j] == k;
            assert xs[j + 1] == k;
          }
        }
      }
      var r := [xs[0]] + rest;
      assert forall j :: 0 < j < |r| ==> r[j] == rest[j - 1] && r[j] in rest;
      r
  }

  /** The distinct strings of `xs` in ascending code-point order. */
  function DistinctSortedStrings(xs: seq<string>): (r: seq<string>)
    ensures StrictlySortedStrings(r)
    ensures forall k :: k in r <==> k in xs
  {
    if xs == [] then []
    else
      assert xs == xs[..|xs| - 1] + [xs[|xs| - 1]];
      InsertDistinct(xs[|xs| - 1], DistinctSortedStrings(xs[..|xs| - 1]))
  }

  // ---------------------------------------------------------------------
  // Distinct sorted ints (the keys of a pandas `groupby`)

  predicate StrictlyIncreasing(xs: seq<int>)
  {
    forall i, j :: 0 <= i < j < |xs| ==> xs[i] < xs[j]
  }

  function InsertInt(x: int, xs: seq<int>): (r: seq<int>)
    requires StrictlyIncreasing(xs)
    ensures StrictlyIncreasing(r)
    ensures forall k :: k in r <==> k in xs || k == x
  {
    if xs == [] then [x]
    else if x < xs[0] then
      assert forall k :: k in xs ==> x < k by {
        forall k | k in xs ensures x < k { var i :| 0 <= i < |xs| && xs[i] == k; assert i == 0 || xs[0] < xs[i]; }
      }
      ConsIncreasing(x, xs);
      [x] + xs
    else if x == xs[0] then xs
    else
      var tail := xs[1..];
      assert StrictlyIncreasing(tail) by {
        forall i, j | 0 <= i < j < |tail| ensures tail[i] < tail[j] { assert tail[i] == xs[i + 1] && tail[j] == xs[j + 1]; }
      }
      var rest := InsertInt(x, tail);
      assert xs == [xs[0]] + tail;
      assert forall k :: k in rest ==> xs[0] < k by {
        forall k | k in rest ensures xs[0] < k {
          if k != x { var i :| 0 <= i < |tail| && tail[i] == k; assert tail[i] == xs[i + 1]; }
        }
      }
      ConsIncreasing(xs[0], rest);
      [xs[0]] + rest
  }

  lemma ConsIncreasing(x: int, xs: seq<int>)
    requires StrictlyIncreasing(xs) && forall k :: k in xs ==> x < k
    ensures StrictlyIncreasing([x] + xs)
  {
    var r := [x] + xs;
    forall i, j | 0 <= i < j < |r| ensures r[i] < r[j] {
      assert r[j] == xs[j - 1];
      if i == 0 {
        assert xs[j - 1] in xs;
      } else {
        assert r[i] == xs[i - 1];
      }
    }
  }

  function DistinctSorted(xs: seq<int>): (r: seq<int>)
    ensures StrictlyIncreasing(r)
    ensures forall k :: k in r <==> k in xs
  {
    if xs == [] then []
    else
      assert xs == xs[..|xs| - 1] + [xs[|xs| - 1]];
      InsertInt(xs[|xs| - 1], DistinctSorted(xs[..|xs| - 1]))
  }

  /** The keys of a sequence of optional ints, nulls skipped (pandas
      `groupby` drops NA keys). */
  function PresentInts(xs: seq<Option<int>>): (r: seq<int>)
    ensures forall k :: k in r <==> Some(k) in xs
  {
    if xs == [] then []
    else
      var rest := PresentInts(xs[..|xs| - 1]);
      assert xs == xs[..|xs| - 1] + [xs[|xs| - 1]];
      match xs[|xs| - 1]
      case Some(k) => rest + [k]
      case None => rest
  }

  // ---------------------------------------------------------------------
  // Order-preserving filters (list comprehensions with an `if`)

  function Filter<T(!new)>(xs: seq<T>, p: T -> bool): (r: seq<T>)
    ensures |r| <= |xs|
    ensures forall x :: x in r <==> x in xs && p(x)
  {
    if xs == [] then []
    else
      assert xs == xs[..|xs| - 1] + [xs[|xs| - 1]];
      Filter(xs[..|xs| - 1], p) + (if p(xs[|xs| - 1]) then [xs[|xs| - 1]] else [])
  }

  /** Filtering distributes over concatenation; with the one-element case
      this determines the filter completely, order included. */
  lemma {:induction false} FilterAppend<T(!new)>(xs: seq<T>, ys: seq<T>, p: T -> bool)
    ensures Filter(xs + ys, p) == Filter(xs, p) + Filter(ys, p)
    decreases |ys|
  {
    if ys == [] {
      assert xs + ys == xs;
    } else {
      var ys' := ys[..|ys| - 1];
      assert (xs + ys)[..|xs + ys| - 1] == xs + ys';
      assert (xs + ys)[|xs + ys| - 1] == ys[|ys| - 1];
      FilterAppend(xs, ys', p);
    }
  }

  lemma FilterSingleton<T(!new)>(x: T, p: T -> bool)
    ensures Filter([x], p) == (if p(x) then [x] else [])
  {
    assert [x][..0] == [];
  }

  /** A filter whose test always passes keeps everything. */
  lemma {:induction false} FilterAll<T(!new)>(xs: seq<T>, p: T -> bool)
    requires forall x :: x in xs ==> p(x)
    ensures Filter(xs, p) == xs
    decreases |xs|
  {
    if xs != [] {
      var init, last := xs[..|xs| - 1], xs[|xs| - 1];
      assert Filter(init, p) == init by {
        forall x | x in init ensures p(x) {
          var k :| 0 <= k < |init| && init[k] == x;
          assert xs[k] == x;
        }
        FilterAll(init, p);
      }
      assert p(last) by { assert last in xs; }
      assert Filter(xs, p) == Filter(init, p) + [last];
      assert xs == init + [last];
    }
  }

  /** A filter whose test never passes keeps nothing. */
  lemma {:induction false} FilterNone<T(!new)>(xs: seq<T>, p: T -> bool)
    requires forall x :: x in xs ==> !p(x)
    ensures Filter(xs, p) == []
    decreases |xs|
  {
    if xs != [] {
      FilterNone(xs[..|xs| - 1], p);
      assert xs[|xs| - 1] in xs;
    }
  }

  /** A filter keeps a subsequence, so a relation that holds between every
      earlier and later element still holds after it. */
  lemma {:induction false} FilterPairwise<T(!new)>(xs: seq<T>, p: T -> bool, rel: (T, T) -> bool)
    requires forall i, j :: 0 <= i < j < |xs| ==> rel(xs[i], xs[j])
    ensures forall i, j :: 0 <= i < j < |Filter(xs, p)| ==> rel(Filter(xs, p)[i], Filter(xs, p)[j])
    decreases |xs|
  {
    if xs != [] {
      var init := xs[..|xs| - 1];
      var x := xs[|xs| - 1];
      FilterPairwise(init, p, rel);
      var f := Filter(init, p);
      forall i | 0 <= i < |f| ensures rel(f[i], x) {
        assert f[i] in init;
        var k :| 0 <= k < |init| && init[k] == f[i];
        assert xs[k] == init[k];
      }
    }
  }

  // ---------------------------------------------------------------------
  // Year partitions (`for year, rows in df.groupby("year")`, NA keys skipped)

  datatype Partition<R> = Partition(year: int, path: string, rows: seq<R>)

  function YearColumn<R>(rows: seq<R>, year: R -> Option<int>): (col: seq<Option<int>>)
    ensures |col| == |rows| && forall i :: 0 <= i < |rows| ==> col[i] == year(rows[i])
  {
    seq(|rows|, i requires 0 <= i < |rows| => year(rows[i]))
  }

  lemma {:induction false} PresentIntsAllNull(xs: seq<Option<int>>)
    requires forall i :: 0 <= i < |xs| ==> xs[i].None?
    ensures PresentInts(xs) == [] && DistinctSorted(PresentInts(xs)) == []
    decreases |xs|
  {
    if xs != [] {
      PresentIntsAllNull(xs[..|xs| - 1]);
    }
  }

  /** The distinct non-null years of the rows, ascending (the group keys). */
  function YearsIn<R>(rows: seq<R>, year: R -> Option<int>): (ys: seq<int>)
    ensures StrictlyIncreasing(ys)
    ensures forall y :: y in ys <==> exists i :: 0 <= i < |rows| && year(rows[i]) == Some(y)
  {
    var col := YearColumn(rows, year);
    assert forall y :: Some(y) in col <==> exists i :: 0 <= i < |rows| && year(rows[i]) == Some(y) by {
      forall y | Some(y) in col ensures exists i :: 0 <= i < |rows| && year(rows[i]) == Some(y) {
        var i :| 0 <= i < |col| && col[i] == Some(y);
      }
    }
    DistinctSorted(PresentInts(col))
  }

  /** One group: the rows of year `y`, in their original order. */
  function RowsOfYear<R(!new)>(rows: seq<R>, year: R -> Option<int>, y: int): seq<R>
  {
    Filter(rows, (r: R) => year(r) == Some(y))
  }

  /** The loop over `groupby("year")`: one partition per distinct year in
      ascending order, each holding exactly that year's rows. */
  method PartitionByYear<R(!new)>(rows: seq<R>, year: R -> Option<int>, pathOf: int -> string)
    returns (parts: seq<Partition<R>>)
    ensures |parts| == |YearsIn(rows, year)|
    ensures forall i :: 0 <= i < |parts| ==>
      var y := YearsIn(rows, year)[i];
      parts[i] == Partition(y, pathOf(y), RowsOfYear(rows, year, y))
  {
    var ys := YearsIn(rows, year);
    parts := [];
    for i := 0 to |ys|
      invariant |parts| == i
      invariant forall j :: 0 <= j < i ==> parts[j] == Partition(ys[j], pathOf(ys[j]), RowsOfYear(rows, year, ys[j]))
    {
      parts := parts + [Partition(ys[i], pathOf(ys[i]), RowsOfYear(rows, year, ys[i]))];
    }
  }

  /** Every row with a year lands in the group of that year, and in no other. */
  lemma PartitionCoversRow<R(!new)>(rows: seq<R>, year: R -> Option<int>, k: nat, y: int)
    requires k < |rows|
    requires y in YearsIn(rows, year)
    ensures rows[k] in RowsOfYear(rows, year, y) <==> year(rows[k]) == Some(y)
  {
    assert rows[k] in rows;
  }

  /** A group key always has at least one row. */
  lemma PartitionNonEmpty<R(!new)>(rows: seq<R>, year: R -> Option<int>, y: int)
    requires y in YearsIn(rows, year)
    ensures RowsOfYear(rows, year, y) != []
  {
    var i :| 0 <= i < |rows| && year(rows[i]) == Some(y);
    assert rows[i] in rows;
    assert rows[i] in RowsOfYear(rows, year, y);
  }

  /** Rows without a year are written nowhere. */
  lemma PartitionSkipsNullYear<R(!new)>(rows: seq<R>, year: R -> Option<int>, k: nat, y: int)
    requires k < |rows| && year(rows[k]).None?
    ensures rows[k] !in RowsOfYear(rows, year, y)
  {
  }

  // ---------------------------------------------------------------------
  // Loops that append each item's output and stop at the first exception

  function ThenAppend<B>(acc: Result<seq<B>>, more: Result<seq<B>>): Result<seq<B>>
  {
    match acc
    case Err(f) => Err(f)
    case Ok(xs) =>
      match more
      case Err(f) => Err(f)
      case Ok(ys) => Ok(xs + ys)
  }

  /** The concatenated outputs of `step` over `xs`, or the first failure. */
  function Collect<A, B>(xs: seq<A>, step: A -> Result<seq<B>>): Result<seq<B>>
  {
    if xs == [] then Ok([])
    else ThenAppend(Collect(xs[..|xs| - 1], step), step(xs[|xs| - 1]))
  }

  /** Collecting concatenated inputs concatenates the outputs. */
  lemma {:induction false} CollectAppend<A, B>(xs: seq<A>, ys: seq<A>, step: A -> Result<seq<B>>)
    ensures Collect(xs + ys, step) == ThenAppend(Collect(xs, step), Collect(ys, step))
    decreases |ys|
  {
    if ys == [] {
      assert xs + ys == xs;
      match Collect(xs, step) {
        case Ok(v) => assert v + [] == v;
        case Err(_) =>
      }
    } else {
      var all := xs + ys;
      var init := ys[..|ys| - 1];
      assert all[..|all| - 1] == xs + init;
      assert all[|all| - 1] == ys[|ys| - 1];
      CollectAppend(xs, init, step);
      match Collect(xs, step) {
        case Err(_) =>
        case Ok(a) =>
          match Collect(init, step) {
            case Err(_) =>
            case Ok(b) =>
              match step(ys[|ys| - 1]) {
                case Err(_) =>
                case Ok(c) => assert a + (b + c) == (a + b) + c;
              }
          }
      }
    }
  }

  /** A property every step output has holds of everything collected. */
  lemma {:induction false} CollectAll<A, B>(xs: seq<A>, step: A -> Result<seq<B>>, p: B -> bool)
    requires forall x :: x in xs && step(x).Ok? ==> forall y :: y in step(x).value ==> p(y)
    requires Collect(xs, step).Ok?
    ensures forall y :: y in Collect(xs, step).value ==> p(y)
    decreases |xs|
  {
    if xs != [] {
      var init := xs[..|xs| - 1];
      assert forall x :: x in init ==> x in xs;
      CollectAll(init, step, p);
      assert xs[|xs| - 1] in xs;
    }
  }

  /** A failure on some item is the failure of the whole loop. */
  lemma {:induction false} CollectPrefixError<A, B>(xs: seq<A>, k: nat, step: A -> Result<seq<B>>)
    requires k <= |xs| && Collect(xs[..k], step).Err?
    ensures Collect(xs, step) == Err(Collect(xs[..k], step).failure)
    decreases |xs| - k
  {
    if k < |xs| {
      assert xs[..k + 1][..k] == xs[..k];
      CollectPrefixError(xs, k + 1, step);
    } else {
      assert xs[..k] == xs;
    }
  }

  // ---------------------------------------------------------------------
  // Whitespace runs (`re.sub(r"\s+", " ", s)`)

  predicate NoDoubleSpace(s: string)
  {
    forall i :: 0 <= i < |s| - 1 ==> !(IsSpace(s[i]) && IsSpace(s[i + 1]))
  }

  /** Every maximal run of whitespace replaced by one space. */
  function CollapseWhitespace(s: string): (r: string)
    ensures s == [] <==> r == []
    ensures s != [] ==> r[0] == (if IsSpace(s[0]) then ' ' else s[0])
    decreases |s|
  {
    if s == [] then []
    else if IsSpace(s[0]) then " " + CollapseWhitespace(LStrip(s))
    else [s[0]] + CollapseWhitespace(s[1..])
  }

  /** The collapsed text has no two whitespace characters in a row. */
  lemma {:induction false} CollapseNoDoubleSpace(s: string)
    ensures NoDoubleSpace(CollapseWhitespace(s))
    decreases |s|
  {
    if s != [] {
      var r := CollapseWhitespace(s);
      var tail := if IsSpace(s[0]) then LStrip(s) else s[1..];
      var t := CollapseWhitespace(tail);
      CollapseNoDoubleSpace(tail);
      assert r == [r[0]] + t;
      assert IsSpace(s[0]) && t != [] ==> !IsSpace(t[0]);
      forall i | 0 <= i < |r| - 1 ensures !(IsSpace(r[i]) && IsSpace(r[i + 1])) {
        if i > 0 {
          assert r[i] == t[i - 1] && r[i + 1] == t[i];
        }
      }
    }
  }

  /** The only whitespace left is the plain space, and every other
      character comes from the input. */
  lemma CollapseWhitespaceChars(s: string)
    ensures forall i :: 0 <= i < |CollapseWhitespace(s)| ==>
      CollapseWhitespace(s)[i] == ' ' || (!IsSpace(CollapseWhitespace(s)[i]) && CollapseWhitespace(s)[i] in s)
  {
    forall i | 0 <= i < |CollapseWhitespace(s)|
      ensures CollapseWhitespace(s)[i] == ' ' || (!IsSpace(CollapseWhitespace(s)[i]) && CollapseWhitespace(s)[i] in s)
    {
      CollapseWhitespaceCharAt(s, i);
    }
  }

  /** One character of the collapsed text. */
  lemma {:induction false} CollapseWhitespaceCharAt(s: string, i: nat)
    requires i < |CollapseWhitespace(s)|
    ensures CollapseWhitespace(s)[i] == ' ' || (!IsSpace(CollapseWhitespace(s)[i]) && CollapseWhitespace(s)[i] in s)
    decreases |s|
  {
    if i > 0 {
      var tail := CollapseStep(s);
      CollapseWhitespaceCharAt(tail, i - 1);
      CollapsedCharOfSuffix(s, tail, CollapseWhitespace(tail)[i - 1]);
    }
  }

  /** After its first character, the collapsed text is the collapsed form
      of a proper suffix of the input. */
  lemma CollapseStep(s: string) returns (tail: string)
    requires s != []
    ensures |tail| < |s| && tail == s[|s| - |tail|..]
    ensures CollapseWhitespace(s)[1..] == CollapseWhitespace(tail)
  {
    if IsSpace(s[0]) {
      tail := LStrip(s);
      assert CollapseWhitespace(s) == " " + CollapseWhitespace(tail);
    } else {
      tail := s[1..];
      assert CollapseWhitespace(s) == [s[0]] + CollapseWhitespace(tail);
    }
  }

  /** A character allowed in the collapsed form of a suffix is allowed in
      that of the whole text. */
  lemma CollapsedCharOfSuffix(s: string, tail: string, c: char)
    requires |tail| <= |s| && tail == s[|s| - |tail|..]
    requires c == ' ' || (!IsSpace(c) && c in tail)
    ensures c == ' ' || (!IsSpace(c) && c in s)
  {
    if c != ' ' {
      var k :| 0 <= k < |tail| && tail[k] == c;
      assert s[|s| - |tail| + k] == c;
    }
  }

  /** Text already in collapsed form is left alone. */
  lemma {:induction false} CollapseWhitespaceIdentity(s: string)
    requires NoDoubleSpace(s)
    requires forall i :: 0 <= i < |s| && IsSpace(s[i]) ==> s[i] == ' '
    ensures CollapseWhitespace(s) == s
    decreases |s|
  {
    if s != [] {
      var rest := s[1..];
      assert CollapseWhitespace(rest) == rest by {
        CollapsedFormTail(s);
        CollapseWhitespaceIdentity(rest);
      }
      if IsSpace(s[0]) {
        assert LStrip(s) == rest by {
          assert rest != [] ==> !IsSpace(rest[0]);
          assert LStrip(s) == LStrip(rest);
        }
        assert CollapseWhitespace(s) == " " + CollapseWhitespace(LStrip(s));
        assert s[0] == ' ';
      } else {
        assert CollapseWhitespace(s) == [s[0]] + CollapseWhitespace(rest);
      }
      HeadTail(s);
    }
  }

  /** The collapsed form survives dropping the first character. */
  lemma CollapsedFormTail(s: string)
    requires s != [] && NoDoubleSpace(s)
    requires forall i :: 0 <= i < |s| && IsSpace(s[i]) ==> s[i] == ' '
    ensures NoDoubleSpace(s[1..])
    ensures forall i :: 0 <= i < |s[1..]| && IsSpace(s[1..][i]) ==> s[1..][i] == ' '
  {
    assert forall i :: 0 <= i < |s[1..]| ==> s[1..][i] == s[i + 1];
  }

  /** Stripping keeps the absence of doubled whitespace and takes its
      characters from the input. */
  lemma StripKeepsShape(s: string)
    ensures forall c :: c in Strip(s) ==> c in s
    ensures NoDoubleSpace(s) ==> NoDoubleSpace(Strip(s))
  {
    var l := LStrip(s);
    var r := RStrip(l);
    var off := |s| - |l|;
    assert forall i :: 0 <= i < |r| ==> r[i] == s[off + i];
    forall c | c in r ensures c in s {
      var k :| 0 <= k < |r| && r[k] == c;
      assert s[off + k] == c;
    }
    if NoDoubleSpace(s) {
      forall i | 0 <= i < |r| - 1 ensures !(IsSpace(r[i]) && IsSpace(r[i + 1])) {
        assert r[i] == s[off + i] && r[i + 1] == s[off + i + 1];
      }
    }
  }

  // ---------------------------------------------------------------------
  // First match

  /** The index of the first element that passes `p`. */
  function FirstIndex<T>(xs: seq<T>, p: T -> bool): (r: Option<nat>)
    ensures r.None? <==> forall j :: 0 <= j < |xs| ==> !p(xs[j])
    ensures r.Some? ==> r.value < |xs| && p(xs[r.value])
    ensures r.Some? ==> forall j :: 0 <= j < r.value ==> !p(xs[j])
  {
    if xs == [] then None
    else if p(xs[0]) then Some(0)
    else match FirstIndex(xs[1..], p)
      case None => None
      case Some(k) => Some(k + 1)
  }

  // ---------------------------------------------------------------------
  // Deduplication by key (`drop_duplicates(subset=..., keep="first")`)

  predicate KeyIn<T, K(==)>(xs: seq<T>, key: T -> K, k: K)
  {
    exists i :: 0 <= i < |xs| && key(xs[i]) == k
  }

  /** The first element carrying key `k`, if any. */
  function FindFirst<T, K(==)>(xs: seq<T>, key: T -> K, k: K): (r: Option<T>)
    ensures r.None? <==> !KeyIn(xs, key, k)
    ensures r.Some? ==> r.value in xs && key(r.value) == k
  {
    if xs == [] then None
    else if key(xs[0]) == k then Some(xs[0])
    else
      assert forall i :: 0 < i < |xs| ==> xs[i] == xs[1..][i - 1];
      FindFirst(xs[1..], key, k)
  }

  lemma {:induction false} FindFirstAppend<T, K>(xs: seq<T>, ys: seq<T>, key: T -> K, k: K)
    ensures FindFirst(xs + ys, key, k) ==
      (if FindFirst(xs, key, k).Some? then FindFirst(xs, key, k) else FindFirst(ys, key, k))
    decreases |xs|
  {
    if xs == [] {
      assert xs + ys == ys;
    } else {
      assert (xs + ys)[1..] == xs[1..] + ys;
      FindFirstAppend(xs[1..], ys, key, k);
    }
  }

  /** Keep the first element of each key, in their original order. */
  function DedupFirst<T, K(==)>(xs: seq<T>, key: T -> K): (r: seq<T>)
    ensures forall x :: x in r ==> x in xs
  {
    if xs == [] then []
    else
      var init := xs[..|xs| - 1];
      var x := xs[|xs| - 1];
      assert xs == init + [x];
      DedupFirst(init, key) + (if KeyIn(init, key, key(x)) then [] else [x])
  }

  /** After dropping duplicates each key occurs once ... */
  lemma {:induction false} DedupFirstUnique<T, K>(xs: seq<T>, key: T -> K)
    ensures forall i, j :: 0 <= i < j < |DedupFirst(xs, key)| ==>
      key(DedupFirst(xs, key)[i]) != key(DedupFirst(xs, key)[j])
    decreases |xs|
  {
    if xs != [] {
      var init := xs[..|xs| - 1];
      var x := xs[|xs| - 1];
      DedupFirstUnique(init, key);
      var d := DedupFirst(init, key);
      if !KeyIn(init, key, key(x)) {
        forall i | 0 <= i < |d| ensures key(d[i]) != key(x) {
          assert d[i] in init;
          var k :| 0 <= k < |init| && init[k] == d[i];
        }
      }
    }
  }

  /** ... and a lookup by key finds the same element as before: the first. */
  lemma {:induction false} DedupFirstFind<T, K>(xs: seq<T>, key: T -> K, k: K)
    ensures FindFirst(DedupFirst(xs, key), key, k) == FindFirst(xs, key, k)
    decreases |xs|
  {
    if xs != [] {
      var init := xs[..|xs| - 1];
      var x := xs[|xs| - 1];
      var tail := if KeyIn(init, key, key(x)) then [] else [x];
      DedupFirstFind(init, key, k);
      FindFirstAppend(DedupFirst(init, key), tail, key, k);
      assert xs == init + [x];
      FindFirstAppend(init, [x], key, k);
      assert FindFirst([x], key, k) == (if key(x) == k then Some(x) else None);
      if FindFirst(init, key, k).None? && key(x) == k {
        assert tail == [x];
      }
      assert FindFirst([], key, k) == None;
    }
  }

  /** Keep the last element of each key, in their original order. */
  function DedupLast<T, K(==)>(xs: seq<T>, key: T -> K): (r: seq<T>)
    ensures forall x :: x in r ==> x in xs
  {
    if xs == [] then []
    else
      HeadTail(xs);
      (if KeyIn(xs[1..], key, key(xs[0])) then [] else [xs[0]]) + DedupLast(xs[1..], key)
  }

  /** The last element carrying key `k`, if any. */
  function FindLastKey<T, K(==)>(xs: seq<T>, key: T -> K, k: K): (r: Option<T>)
    ensures r.None? <==> !KeyIn(xs, key, k)
    ensures r.Some? ==> r.value in xs && key(r.value) == k
  {
    if xs == [] then None
    else if key(xs[|xs| - 1]) == k then Some(xs[|xs| - 1])
    else
      assert forall i :: 0 <= i < |xs| - 1 ==> xs[i] == xs[..|xs| - 1][i];
      FindLastKey(xs[..|xs| - 1], key, k)
  }

  lemma {:induction false} FindLastKeyAppend<T, K>(xs: seq<T>, ys: seq<T>, key: T -> K, k: K)
    ensures FindLastKey(xs + ys, key, k) ==
      (if FindLastKey(ys, key, k).Some? then FindLastKey(ys, key, k) else FindLastKey(xs, key, k))
    decreases |ys|
  {
    if ys == [] {
      assert xs + ys == xs;
    } else {
      assert (xs + ys)[..|xs + ys| - 1] == xs + ys[..|ys| - 1];
      FindLastKeyAppend(xs, ys[..|ys| - 1], key, k);
    }
  }

  /** Keeping the last of each key leaves each key once ... */
  lemma {:induction false} DedupLastUnique<T, K>(xs: seq<T>, key: T -> K)
    ensures forall i, j :: 0 <= i < j < |DedupLast(xs, key)| ==>
      key(DedupLast(xs, key)[i]) != key(DedupLast(xs, key)[j])
    decreases |xs|
  {
    if xs != [] {
      var rest := xs[1..];
      DedupLastUnique(rest, key);
      var d := DedupLast(rest, key);
      if !KeyIn(rest, key, key(xs[0])) {
        forall i | 0 <= i < |d| ensures key(d[i]) != key(xs[0]) {
          assert d[i] in rest;
          var k :| 0 <= k < |rest| && rest[k] == d[i];
        }
      }
    }
  }

  /** ... and a lookup by key finds the last element of that key. */
  lemma {:induction false} DedupLastFind<T, K>(xs: seq<T>, key: T -> K, k: K)
    ensures FindLastKey(DedupLast(xs, key), key, k) == FindLastKey(xs, key, k)
    decreases |xs|
  {
    if xs != [] {
      var rest := xs[1..];
      var head := if KeyIn(rest, key, key(xs[0])) then [] else [xs[0]];
      DedupLastFind(rest, key, k);
      FindLastKeyAppend(head, DedupLast(rest, key), key, k);
      assert xs == [xs[0]] + rest;
      FindLastKeyAppend([xs[0]], rest, key, k);
      assert [xs[0]][..0] == [];
      assert FindLastKey([xs[0]], key, k) == (if key(xs[0]) == k then Some(xs[0]) else None);
      if FindLastKey(rest, key, k).None? && key(xs[0]) == k {
        assert head == [xs[0]];
      }
      assert FindLastKey([], key, k) == None;
    }
  }
}
