/** The `.env` loader: `KEY=VALUE` lines added to the process environment,
    never replacing a variable that is already set. The environment is a
    map from name to value; the file is what reading it as UTF-8 gives. */
module EnvLoader {
  import opened Common

  /** The characters `str.splitlines` breaks at. */
  predicate IsLineBoundary(c: char)
  {
    c == '\n' || c == '\r' || c == '\U{000B}' || c == '\U{000C}' || c == '\U{001C}' || c == '\U{001D}'
    || c == '\U{001E}' || c == '\U{0085}' || c == '\U{2028}' || c == '\U{2029}'
  }

  /** The text cut at every line boundary. A `\r\n` pair, or a final
      boundary, gives an extra empty piece that `splitlines` would not; the
      loader skips blank lines, so the outcome is the same. */
  function Lines(text: string): (r: seq<string>)
    ensures forall i, j :: 0 <= i < |r| && 0 <= j < |r[i]| ==> !IsLineBoundary(r[i][j])
  {
    var marked := seq(|text|, k requires 0 <= k < |text| => if IsLineBoundary(text[k]) then '\n' else text[k]);
    SplitJoin(marked, '\n');
    LinesFree(Split(marked, '\n'), marked);
    Split(marked, '\n')
  }

  lemma LinesFree(pieces: seq<string>, marked: string)
    requires forall k :: 0 <= k < |marked| ==> !IsLineBoundary(marked[k]) || marked[k] == '\n'
    requires forall i :: 0 <= i < |pieces| ==> '\n' !in pieces[i]
    requires Join(pieces, "\n") == marked
    ensures forall i, j :: 0 <= i < |pieces| && 0 <= j < |pieces[i]| ==> !IsLineBoundary(pieces[i][j])
  {
    forall i, j | 0 <= i < |pieces| && 0 <= j < |pieces[i]|
      ensures !IsLineBoundary(pieces[i][j])
    {
      JoinContains(pieces, "\n", i, j);
      assert pieces[i][j] in marked;
    }
  }

  lemma {:induction false} JoinContains(parts: seq<string>, sep: string, i: nat, j: nat)
    requires i < |parts| && j < |parts[i]|
    ensures parts[i][j] in Join(parts, sep)
    decreases |parts|
  {
    if |parts| > 1 {
      assert Join(parts, sep) == parts[0] + sep + Join(parts[1..], sep);
      if i == 0 {
        assert parts[0][j] == Join(parts, sep)[j];
      } else {
        JoinContains(parts[1..], sep, i - 1, j);
        assert parts[1..][i - 1] == parts[i];
      }
    }
  }

  /** The variable a line sets, if it sets one: the trimmed line must be
      non-blank, not a `#` comment and contain `=`; it splits at the first
      `=`, and both sides are trimmed; an empty name sets nothing. */
  function Assignment(line: string): (r: Option<(string, string)>)
    ensures r.Some? ==> r.value.0 != ""
  {
    StrippedAssignment(Strip(line))
  }

  /** `Assignment` of a line already trimmed. */
  function StrippedAssignment(l: string): (r: Option<(string, string)>)
    ensures r.Some? ==> r.value.0 != ""
  {
    if l == "" || l[0] == '#' then None
    else
      match IndexOf(l, '=')
      case None => None
      case Some(k) =>
        var key := Strip(l[..k]);
        if key == "" then None else Some((key, Strip(l[k + 1..])))
  }

  /** The assignment each line makes, if any. */
  function Assignments(lines: seq<string>): (r: seq<Option<(string, string)>>)
    ensures |r| == |lines|
  {
    seq(|lines|, i requires 0 <= i < |lines| => Assignment(lines[i]))
  }

  /** The environment after a file: `Applied` over its lines' assignments. */
  function Loaded(env: map<string, string>, lines: seq<string>): map<string, string>
  {
    Applied(env, Assignments(lines))
  }

  /** The environment after a run of assignments, each applying only when
      its name is not yet set. */
  function Applied(env: map<string, string>, steps: seq<Option<(string, string)>>): map<string, string>
    decreases |steps|
  {
    if steps == [] then env else Apply(Applied(env, steps[..|steps| - 1]), steps[|steps| - 1])
  }

  /** One assignment's effect, unless the name is already set. */
  function Apply(env: map<string, string>, a: Option<(string, string)>): map<string, string>
  {
    match a
    case None => env
    case Some((key, value)) => if key in env then env else env[key := value]
  }

  lemma LoadedSnoc(env: map<string, string>, lines: seq<string>, i: nat)
    requires i < |lines|
    ensures Loaded(env, lines[..i + 1]) == Apply(Loaded(env, lines[..i]), Assignment(lines[i]))
  {
    var steps := Assignments(lines[..i + 1]);
    assert steps[..i] == Assignments(lines[..i]);
  }

  /** What `read_text(encoding="utf-8")` makes of the file: it is absent,
      the read fails with an `OSError`, the bytes are not UTF-8 (the
      decoder's message), or the decoded text. */
  datatype DotenvFile = Missing | Unreadable | NotUtf8(message: string) | Text(content: string)

  class Environment {
    var vars: map<string, string>

    constructor (vars: map<string, string>)
      ensures this.vars == vars
    {
      this.vars := vars;
    }

    /** `load_dotenv_if_present`. A missing or unreadable file changes
        nothing; bytes that are not UTF-8 raise, since only `OSError` is
        caught; otherwise every line's assignment is applied in order. */
    method LoadDotenvIfPresent(file: DotenvFile) returns (err: Option<Failure>)
      modifies this
      ensures err.Some? <==> file.NotUtf8?
      ensures file.NotUtf8? ==> err == Some(Failure(UnicodeDecodeError, file.message))
      ensures !file.Text? ==> vars == old(vars)
      ensures file.Text? ==> vars == Loaded(old(vars), Lines(file.content))
    {
      if file.NotUtf8? {
        return Some(Failure(UnicodeDecodeError, file.message));
      }
      err := None;
      if !file.Text? {
        return;
      }
      var lines := Lines(file.content);
      var i := 0;
      while i < |lines|
        invariant 0 <= i <= |lines|
        invariant vars == Loaded(old(vars), lines[..i])
      {
        LoadedSnoc(old(vars), lines, i);
        Assign(Assignment(lines[i]));
        i := i + 1;
      }
      assert lines[..i] == lines;
    }

    /** A line's assignment, applied only when the name is not yet set. */
    method Assign(entry: Option<(string, string)>)
      modifies this
      ensures vars == Apply(old(vars), entry)
    {
      match entry
      case None =>
      case Some((key, value)) =>
        if key !in vars {
          vars := vars[key := value];
        }
    }
  }

  /** Whether an assignment sets the given name. */
  predicate Sets(a: Option<(string, string)>, key: string)
  {
    a.Some? && a.value.0 == key
  }

  /** Variables already set keep their values. */
  lemma {:induction false} AppliedKeepsExisting(env: map<string, string>, steps: seq<Option<(string, string)>>, key: string)
    requires key in env
    ensures key in Applied(env, steps) && Applied(env, steps)[key] == env[key]
    decreases |steps|
  {
    if steps != [] {
      AppliedKeepsExisting(env, steps[..|steps| - 1], key);
    }
  }

  /** Only names some assignment sets are added. */
  lemma {:induction false} AppliedAddsOnlySet(env: map<string, string>, steps: seq<Option<(string, string)>>, key: string)
    requires key in Applied(env, steps) && key !in env
    ensures exists i :: 0 <= i < |steps| && Sets(steps[i], key)
    decreases |steps|
  {
    var init := steps[..|steps| - 1];
    if key in Applied(env, init) {
      AppliedAddsOnlySet(env, init, key);
      var i :| 0 <= i < |init| && Sets(init[i], key);
      assert steps[i] == init[i];
    } else {
      assert Sets(steps[|steps| - 1], key);
    }
  }

  /** A name no assignment sets stays unset. */
  lemma {:induction false} AppliedWithoutKey(env: map<string, string>, steps: seq<Option<(string, string)>>, key: string)
    requires key !in env
    requires forall j :: 0 <= j < |steps| ==> !Sets(steps[j], key)
    ensures key !in Applied(env, steps)
    decreases |steps|
  {
    if steps != [] {
      var init := steps[..|steps| - 1];
      assert forall j :: 0 <= j < |init| ==> init[j] == steps[j];
      AppliedWithoutKey(env, init, key);
      assert !Sets(steps[|steps| - 1], key);
    }
  }

  /** A name not set before takes the value of the first assignment to it. */
  lemma {:induction false} AppliedFirstWins(env: map<string, string>, steps: seq<Option<(string, string)>>, i: nat, key: string, value: string)
    requires key !in env
    requires i < |steps| && steps[i] == Some((key, value))
    requires forall j :: 0 <= j < i ==> !Sets(steps[j], key)
    ensures key in Applied(env, steps) && Applied(env, steps)[key] == value
    decreases |steps|
  {
    var init := steps[..|steps| - 1];
    assert forall j :: 0 <= j < |init| ==> init[j] == steps[j];
    if i < |steps| - 1 {
      AppliedFirstWins(env, init, i, key, value);
    } else {
      assert init == steps[..i];
      AppliedWithoutKey(env, init, key);
    }
  }

  /** The loader never replaces a variable that is already set. */
  lemma LoadedKeepsExisting(env: map<string, string>, lines: seq<string>, key: string)
    requires key in env
    ensures key in Loaded(env, lines) && Loaded(env, lines)[key] == env[key]
  {
    AppliedKeepsExisting(env, Assignments(lines), key);
  }

  /** Every name the loader adds is assigned by some line of the file. */
  lemma LoadedAddsOnlyAssigned(env: map<string, string>, lines: seq<string>, key: string)
    requires key in Loaded(env, lines) && key !in env
    ensures exists i :: 0 <= i < |lines| && Assignment(lines[i]).Some? && Assignment(lines[i]).value.0 == key
  {
    AppliedAddsOnlySet(env, Assignments(lines), key);
    var i :| 0 <= i < |lines| && Sets(Assignments(lines)[i], key);
    assert Assignments(lines)[i] == Assignment(lines[i]);
  }

  /** A name not yet set takes the value from the first line assigning it;
      later lines assigning it again are ignored. */
  lemma LoadedFirstWins(env: map<string, string>, lines: seq<string>, i: nat, key: string, value: string)
    requires key !in env
    requires i < |lines| && Assignment(lines[i]) == Some((key, value))
    requires forall j :: 0 <= j < i ==> !Sets(Assignment(lines[j]), key)
    ensures key in Loaded(env, lines) && Loaded(env, lines)[key] == value
  {
    var steps := Assignments(lines);
    assert steps[i] == Some((key, value));
    assert forall j :: 0 <= j < i ==> !Sets(steps[j], key) by {
      forall j | 0 <= j < i
        ensures !Sets(steps[j], key)
      {
        assert steps[j] == Assignment(lines[j]);
      }
    }
    AppliedFirstWins(env, steps, i, key, value);
  }

  /** A line holding `name=value` sets `name` to `value`, even when the
      value itself contains `=`: only the first `=` separates. */
  lemma AssignmentOfPair(name: string, value: string)
    requires name != "" && '=' !in name
    requires !IsSpace(name[0]) && name[0] != '#' && !IsSpace(name[|name| - 1])
    requires value == "" || (!IsSpace(value[0]) && !IsSpace(value[|value| - 1]))
    ensures Assignment(name + "=" + value) == Some((name, value))
  {
    var line := name + "=" + value;
    assert line[0] == name[0];
    assert line[|line| - 1] == if value == "" then '=' else value[|value| - 1];
    StripNoEdgeSpace(line);
    assert line[..|name|] == name;
    IndexOfIs(line, '=', |name|);
    assert line[|name| + 1..] == value;
    StripNoEdgeSpace(name);
    StripNoEdgeSpace(value);
  }
}
