/** The metadata adapters. The local adapter forwards every call to the
    JSON ledger. The DynamoDB adapter keeps runs and checkpoints as items of
    one table, addressed by a partition key `pk` and a sort key `sk`. The
    table is held in memory as a map from key to item, and so is the part of
    DynamoDB's UpdateItem the adapter relies on: SET clauses whose paths and
    operands go through `#name` and `:value` placeholders. */
module MetadataAdapters {
  import opened Common
  import opened Ledger

  // ---------------------------------------------------------------------
  // Local adapter

  /** Forwards to the local store, which it does not own. */
  class LocalMetadataAdapter {
    const store: LocalStore

    constructor (store: LocalStore)
      ensures this.store == store
    {
      this.store := store;
    }

    method StartRun(scope: string, id: string, now: string) returns (runId: string)
      modifies store
      ensures runId == id
      ensures store.runs == old(store.runs) + [OpenRun(id, scope, now)]
      ensures store.checkpoints == old(store.checkpoints)
    {
      runId := store.StartRun(scope, id, now);
    }

    method EndRun(id: string, status: string, now: string, rows: Option<int>,
                  checkpoint: Option<Json>, error: Option<string>)
      returns (r: Result<RunRecord>)
      modifies store
      ensures store.checkpoints == old(store.checkpoints)
      ensures FindLast(old(store.runs), id).None? ==>
        r == Err(NoSuchRun(id)) && store.runs == old(store.runs)
      ensures FindLast(old(store.runs), id).Some? ==>
        var i := FindLast(old(store.runs), id).value;
        r == Ok(CloseRun(old(store.runs)[i], status, now, rows, checkpoint, error))
        && store.runs == old(store.runs)[i := r.value]
    {
      r := store.EndRun(id, status, now, rows, checkpoint, error);
    }

    method SaveCheckpoint(source: string, value: Json)
      modifies store
      ensures store.checkpoints == old(store.checkpoints)[source := value]
      ensures store.runs == old(store.runs)
    {
      store.SaveCheckpoint(source, value);
    }

    function LoadCheckpoint(source: string, default: Json): (v: Json)
      reads this, store
      ensures source in store.checkpoints ==> v == store.checkpoints[source]
      ensures source !in store.checkpoints ==> v == default
    {
      store.LoadCheckpoint(source, default)
    }

    function ListRuns(scope: Option<string>): (r: seq<RunRecord>)
      reads this, store
      ensures forall x :: x in r <==> x in store.runs && InScope(scope, x)
      ensures scope.None? ==> r == store.runs
    {
      ListAllRuns(store.runs);
      store.ListRuns(scope)
    }
  }

  // ---------------------------------------------------------------------
  // DynamoDB items and keys

  type Item = map<string, Json>

  datatype ItemKey = ItemKey(pk: string, sk: string)

  const RunPrefix := "RUN#"
  const CheckpointPrefix := "CHECKPOINT#"
  const MetaSortKey := "META"

  function RunKey(id: string): ItemKey
  {
    ItemKey(RunPrefix + id, MetaSortKey)
  }

  function CheckpointKey(source: string): ItemKey
  {
    ItemKey(CheckpointPrefix + source, MetaSortKey)
  }

  lemma RunKeyInjective(a: string, b: string)
    requires RunKey(a) == RunKey(b)
    ensures a == b
  {
    assert a == RunKey(a).pk[|RunPrefix|..];
    assert b == RunKey(b).pk[|RunPrefix|..];
  }

  lemma CheckpointKeyInjective(a: string, b: string)
    requires CheckpointKey(a) == CheckpointKey(b)
    ensures a == b
  {
    assert a == CheckpointKey(a).pk[|CheckpointPrefix|..];
    assert b == CheckpointKey(b).pk[|CheckpointPrefix|..];
  }

  /** A run and a checkpoint never share an item. */
  lemma RunAndCheckpointKeysDiffer(id: string, source: string)
    ensures RunKey(id) != CheckpointKey(source)
  {
    assert RunKey(id).pk[0] == 'R';
    assert CheckpointKey(source).pk[0] == 'C';
  }

  /** The item UpdateItem starts from when the key is absent: only the key. */
  function KeyItem(key: ItemKey): Item
  {
    map["pk" := JStr(key.pk), "sk" := JStr(key.sk)]
  }

  function NullableText(v: Option<string>): Json
  {
    match v
    case None => JNull
    case Some(s) => JStr(s)
  }

  function NullableInt(v: Option<int>): Json
  {
    match v
    case None => JNull
    case Some(i) => JInt(i)
  }

  /** A ledger run record laid out as a table item. */
  function RunItem(run: RunRecord): Item
  {
    map[
      "pk" := JStr(RunKey(run.ingestionRunId).pk),
      "sk" := JStr(MetaSortKey),
      "ingestion_run_id" := JStr(run.ingestionRunId),
      "run_scope" := JStr(run.runScope),
      "start_ts" := JStr(run.startTs),
      "end_ts" := NullableText(run.endTs),
      "status" := JStr(run.status),
      "rows_processed" := NullableInt(run.rowsProcessed),
      "last_checkpoint" := NullableText(run.lastCheckpoint),
      "error_message" := NullableText(run.errorMessage)]
  }

  /** The item `start_run` puts. */
  function StartRunItem(id: string, scope: string, now: string): Item
  {
    map[
      "pk" := JStr("RUN#" + id),
      "sk" := JStr("META"),
      "ingestion_run_id" := JStr(id),
      "run_scope" := JStr(scope),
      "start_ts" := JStr(now),
      "end_ts" := JNull,
      "status" := JStr("RUNNING"),
      "rows_processed" := JNull,
      "last_checkpoint" := JNull,
      "error_message" := JNull]
  }

  /** `start_run` stores the record the local ledger would append. */
  lemma StartRunItemMirrorsLocal(id: string, scope: string, now: string)
    ensures StartRunItem(id, scope, now) == RunItem(OpenRun(id, scope, now))
  {
    var run := OpenRun(id, scope, now);
    assert RunKey(run.ingestionRunId).pk == "RUN#" + id;
    assert run.status == "RUNNING";
  }

  /** The item `save_checkpoint` puts. */
  function CheckpointItem(source: string, value: Json): Item
  {
    map[
      "pk" := JStr("CHECKPOINT#" + source),
      "sk" := JStr("META"),
      "source" := JStr(source),
      "value" := value]
  }

  // ---------------------------------------------------------------------
  // UpdateItem: SET clauses
  //
  // An update expression is the keyword SET, then actions separated by
  // commas; each action is `path = operand`, with blanks allowed around the
  // tokens. A path is an attribute name or a `#name` placeholder, an operand
  // a `:value` placeholder. Every placeholder the request supplies must be
  // used and every one used must be supplied.

  datatype SetAction = SetAction(path: string, operand: string)

  predicate IsWord(w: string) { w != "" }

  /** The blank-separated words of a text. */
  function Words(s: string): seq<string>
  {
    Filter(Split(s, ' '), IsWord)
  }

  predicate IsNameRef(path: string) { |path| > 0 && path[0] == '#' }

  predicate IsValueRef(w: string) { |w| > 1 && w[0] == ':' }

  /** `path = operand`, or nothing if the text is not one action. */
  function ParseAction(text: string): Option<SetAction>
  {
    var sides := Split(text, '=');
    if |sides| != 2 then None
    else
      var lhs := Words(sides[0]);
      var rhs := Words(sides[1]);
      if |lhs| == 1 && |rhs| == 1 && IsValueRef(rhs[0]) then Some(SetAction(lhs[0], rhs[0]))
      else None
  }

  function ParseActions(pieces: seq<string>): (r: Option<seq<SetAction>>)
    ensures r.Some? ==> |r.value| == |pieces|
  {
    if pieces == [] then Some([])
    else
      match (ParseAction(pieces[0]), ParseActions(pieces[1..]))
      case (Some(a), Some(rest)) => Some([a] + rest)
      case _ => None
  }

  /** The keyword, in any letter case. */
  predicate IsSetKeyword(s: string)
  {
    |s| == 3 && ToLowerChar(s[0]) == 's' && ToLowerChar(s[1]) == 'e' && ToLowerChar(s[2]) == 't'
  }

  function ParseUpdateExpression(expr: string): Option<seq<SetAction>>
  {
    if |expr| >= 4 && IsSetKeyword(expr[..3]) && expr[3] == ' ' then
      ParseActions(Split(expr[4..], ','))
    else None
  }

  function AttributeName(path: string, names: map<string, string>): string
  {
    if IsNameRef(path) && path in names then names[path] else path
  }

  function OperandValue(operand: string, values: map<string, Json>): Json
  {
    if operand in values then values[operand] else JNull
  }

  /** The actions applied left to right. */
  function ApplyActions(item: Item, actions: seq<SetAction>, names: map<string, string>,
                        values: map<string, Json>): Item
    decreases |actions|
  {
    if actions == [] then item
    else
      var last := actions[|actions| - 1];
      ApplyActions(item, actions[..|actions| - 1], names, values)
        [AttributeName(last.path, names) := OperandValue(last.operand, values)]
  }

  function Operands(actions: seq<SetAction>): set<string>
  {
    set a | a in actions :: a.operand
  }

  function NameRefs(actions: seq<SetAction>): set<string>
  {
    set a | a in actions && IsNameRef(a.path) :: a.path
  }

  const SyntaxError := Failure(ClientError, "ValidationException: Invalid UpdateExpression: Syntax error")
  const PlaceholderError := Failure(ClientError, "ValidationException: expression attribute placeholder undefined or unused")

  /** UpdateItem with ReturnValues ALL_NEW: the item after the update. An
      absent key is created (an upsert); a rejected request changes nothing. */
  function UpdateItem(items: map<ItemKey, Item>, key: ItemKey, expr: string,
                      names: map<string, string>, values: map<string, Json>): Result<Item>
  {
    match ParseUpdateExpression(expr)
    case None => Err(SyntaxError)
    case Some(actions) =>
      if Operands(actions) != values.Keys || NameRefs(actions) != names.Keys then Err(PlaceholderError)
      else Ok(ApplyActions(if key in items then items[key] else KeyItem(key), actions, names, values))
  }

  // ---------------------------------------------------------------------
  // Words and splits

  lemma WordsAppend(a: string, b: string)
    ensures Words(a + [' '] + b) == Words(a) + Words(b)
  {
    SplitAppend(a, b, ' ');
    FilterAppend(Split(a, ' '), Split(b, ' '), IsWord);
  }

  lemma WordsOfEmpty()
    ensures Words("") == []
  {
    SplitNoSep("", ' ');
    FilterSingleton("", IsWord);
  }

  lemma WordsOfWord(w: string)
    requires w != "" && ' ' !in w
    ensures Words(w) == [w]
  {
    SplitNoSep(w, ' ');
    FilterSingleton(w, IsWord);
  }

  /** A split has one piece more than the text has separators. */
  lemma {:induction false} SplitCount(s: string, c: char)
    ensures |Split(s, c)| == multiset(s)[c] + 1
    decreases |s|
  {
    match IndexOf(s, c)
    case None =>
    case Some(k) =>
      SplitAt(s, c, k);
      SplitCount(s[k + 1..], c);
      assert s == s[..k] + [c] + s[k + 1..];
      assert multiset(s) == multiset(s[..k]) + multiset([c]) + multiset(s[k + 1..]);
      assert c !in multiset(s[..k]);
  }

  lemma {:induction false} NotInJoin(parts: seq<string>, sep: string, c: char)
    requires c !in sep
    requires forall i :: 0 <= i < |parts| ==> c !in parts[i]
    ensures c !in Join(parts, sep)
    decreases |parts|
  {
    if |parts| > 1 {
      NotInJoin(parts[1..], sep, c);
    }
  }

  // ---------------------------------------------------------------------
  // Clause texts

  /** A name the parser reads as one token. */
  predicate IsTokenChar(ch: char)
  {
    IsAsciiLower(ch) || IsAsciiUpper(ch) || IsDigit(ch) || ch == '_' || ch == '#' || ch == ':'
  }

  predicate IsToken(w: string)
  {
    w != "" && forall i :: 0 <= i < |w| ==> IsTokenChar(w[i])
  }

  lemma TokenHasNoSeparator(w: string)
    requires IsToken(w)
    ensures ' ' !in w && ',' !in w && '=' !in w
  {
    forall i | 0 <= i < |w|
      ensures w[i] != ' ' && w[i] != ',' && w[i] != '='
    {
      assert IsTokenChar(w[i]);
    }
  }

  predicate WellFormed(a: SetAction)
  {
    IsToken(a.path) && IsToken(a.operand) && IsValueRef(a.operand)
  }

  function ClauseText(a: SetAction): string
  {
    a.path + " = " + a.operand
  }

  function ClauseTexts(actions: seq<SetAction>): (r: seq<string>)
    ensures |r| == |actions|
    ensures forall i :: 0 <= i < |r| ==> r[i] == ClauseText(actions[i])
  {
    seq(|actions|, i requires 0 <= i < |actions| => ClauseText(actions[i]))
  }

  /** The clause list the adapter joins: the keyword glued to the first. */
  function SourceParts(actions: seq<SetAction>): (r: seq<string>)
    ensures |r| == |actions|
  {
    seq(|actions|, i requires 0 <= i < |actions| => (if i == 0 then "set " else "") + ClauseText(actions[i]))
  }

  lemma JoinOfSourceParts(actions: seq<SetAction>, sep: string)
    requires actions != []
    ensures Join(SourceParts(actions), sep) == "set " + Join(ClauseTexts(actions), sep)
  {
    var t := ClauseTexts(actions);
    assert SourceParts(actions) == ["set " + t[0]] + t[1..] by {
      SourcePartsAsClauseTexts(actions);
    }
    JoinPrefixHead(t, "set ", sep);
  }

  lemma SourcePartsAsClauseTexts(actions: seq<SetAction>)
    requires actions != []
    ensures SourceParts(actions) == ["set " + ClauseTexts(actions)[0]] + ClauseTexts(actions)[1..]
  {
    var p := SourceParts(actions);
    var q := ["set " + ClauseTexts(actions)[0]] + ClauseTexts(actions)[1..];
    forall i | 0 <= i < |p|
      ensures p[i] == q[i]
    {
      if i > 0 {
        assert p[i] == "" + ClauseText(actions[i]);
      }
    }
  }

  /** One action's text splits at its `=` into its two sides. */
  lemma SplitClauseText(pre: string, a: SetAction)
    requires pre == "" || pre == " "
    requires WellFormed(a)
    ensures Split(pre + ClauseText(a), '=') == [pre + a.path + " ", " " + a.operand]
  {
    TokenHasNoSeparator(a.path);
    TokenHasNoSeparator(a.operand);
    var left := pre + a.path + " ";
    var right := " " + a.operand;
    assert pre + ClauseText(a) == left + ['='] + right;
    assert '=' !in left;
    SplitAppend(left, right, '=');
    SplitNoSep(left, '=');
    SplitNoSep(right, '=');
  }

  lemma WordsOfLeadingBlank(w: string)
    requires w != "" && ' ' !in w
    ensures Words(" " + w) == [w]
  {
    var s := " " + w;
    IndexOfIs(s, ' ', 0);
    SplitAt(s, ' ', 0);
    assert s[1..] == w;
    SplitNoSep(w, ' ');
    assert Split(s, ' ') == [""] + [w];
    FilterAppend([""], [w], IsWord);
    FilterSingleton("", IsWord);
    FilterSingleton(w, IsWord);
  }

  lemma WordsOfTrailingBlank(x: string, w: string)
    requires Words(x) == [w]
    ensures Words(x + " ") == [w]
  {
    WordsOfEmpty();
    WordsAppend(x, "");
    assert x + " " == x + [' '] + "";
  }

  lemma WordsOfPadded(pre: string, w: string)
    requires pre == "" || pre == " "
    requires w != "" && ' ' !in w
    ensures Words(pre + w + " ") == [w]
  {
    if pre == " " {
      WordsOfLeadingBlank(w);
      WordsOfTrailingBlank(" " + w, w);
    } else {
      WordsOfWord(w);
      assert pre + w == w;
      WordsOfTrailingBlank(w, w);
    }
  }

  lemma ParseClauseText(pre: string, a: SetAction)
    requires pre == "" || pre == " "
    requires WellFormed(a)
    ensures ParseAction(pre + ClauseText(a)) == Some(a)
  {
    SplitClauseText(pre, a);
    TokenHasNoSeparator(a.path);
    TokenHasNoSeparator(a.operand);
    WordsOfPadded(pre, a.path);
    WordsOfLeadingBlank(a.operand);
  }

  /** The pieces a comma split of the corrected expression yields. */
  function CommaPieces(actions: seq<SetAction>, pre: string): (r: seq<string>)
    ensures |r| == |actions|
    decreases |actions|
  {
    if actions == [] then []
    else [pre + ClauseText(actions[0])] + CommaPieces(actions[1..], " ")
  }

  lemma {:induction false} SplitCommaJoin(actions: seq<SetAction>, pre: string)
    requires actions != []
    requires pre == "" || pre == " "
    requires forall i :: 0 <= i < |actions| ==> WellFormed(actions[i])
    ensures Split(pre + Join(ClauseTexts(actions), ", "), ',') == CommaPieces(actions, pre)
    decreases |actions|
  {
    var t := ClauseTexts(actions);
    var head := pre + t[0];
    TokenHasNoSeparator(actions[0].path);
    TokenHasNoSeparator(actions[0].operand);
    assert ',' !in head;
    if |actions| == 1 {
      SplitNoSep(head, ',');
    } else {
      var rest := actions[1..];
      assert t[1..] == ClauseTexts(rest);
      var tail := " " + Join(ClauseTexts(rest), ", ");
      assert pre + Join(t, ", ") == head + [','] + tail;
      SplitAppend(head, tail, ',');
      SplitNoSep(head, ',');
      SplitCommaJoin(rest, " ");
    }
  }

  lemma ParseActionsCons(piece: string, pieces: seq<string>, a: SetAction, rest: seq<SetAction>)
    requires ParseAction(piece) == Some(a) && ParseActions(pieces) == Some(rest)
    ensures ParseActions([piece] + pieces) == Some([a] + rest)
  {
    assert ([piece] + pieces)[1..] == pieces;
  }

  lemma CommaPiecesCons(actions: seq<SetAction>, pre: string)
    requires actions != []
    ensures CommaPieces(actions, pre) == [pre + ClauseText(actions[0])] + CommaPieces(actions[1..], " ")
  {}

  lemma {:induction false} ParseCommaPieces(actions: seq<SetAction>, pre: string)
    requires pre == "" || pre == " "
    requires forall i :: 0 <= i < |actions| ==> WellFormed(actions[i])
    ensures ParseActions(CommaPieces(actions, pre)) == Some(actions)
    decreases |actions|
  {
    if actions != [] {
      var a := actions[0];
      var rest := actions[1..];
      CommaPiecesCons(actions, pre);
      ParseClauseText(pre, a);
      assert forall i :: 0 <= i < |rest| ==> WellFormed(rest[i]) by {
        assert forall i :: 0 <= i < |rest| ==> rest[i] == actions[i + 1];
      }
      ParseCommaPieces(rest, " ");
      ParseActionsCons(pre + ClauseText(a), CommaPieces(rest, " "), a, rest);
      HeadTail(actions);
    }
  }

  /** After the keyword and a blank, the rest is split at commas. */
  lemma ParseSetPrefixed(body: string)
    ensures ParseUpdateExpression("set " + body) == ParseActions(Split(body, ','))
  {
    var expr := "set " + body;
    assert expr[..3] == "set" && expr[3] == ' ' && expr[4..] == body;
  }

  /** Actions joined with ", " parse back to those actions. */
  lemma CommaJoinedParses(actions: seq<SetAction>)
    requires actions != []
    requires forall i :: 0 <= i < |actions| ==> WellFormed(actions[i])
    ensures ParseUpdateExpression(Join(SourceParts(actions), ", ")) == Some(actions)
  {
    var expr := Join(SourceParts(actions), ", ");
    var body := Join(ClauseTexts(actions), ", ");
    JoinOfSourceParts(actions, ", ");
    ParseSetPrefixed(body);
    SplitCommaJoin(actions, "");
    assert "" + body == body;
    ParseCommaPieces(actions, "");
  }

  lemma ClauseHasEquals(a: SetAction)
    ensures multiset(ClauseText(a))['='] >= 1
  {
    assert ClauseText(a) == a.path + [' '] + ['='] + [' '] + a.operand;
  }

  lemma ClauseTextsNoComma(actions: seq<SetAction>)
    requires forall i :: 0 <= i < |actions| ==> WellFormed(actions[i])
    ensures forall i :: 0 <= i < |actions| ==> ',' !in ClauseTexts(actions)[i]
  {
    forall i | 0 <= i < |actions|
      ensures ',' !in ClauseTexts(actions)[i]
    {
      TokenHasNoSeparator(actions[i].path);
      TokenHasNoSeparator(actions[i].operand);
    }
  }

  /** Blank-joined clause texts hold one `=` per clause, hence at least two. */
  lemma BlankJoinedEquals(t: seq<string>)
    requires |t| >= 2
    requires multiset(t[0])['='] >= 1 && multiset(t[1])['='] >= 1
    ensures multiset(Join(t, " "))['='] >= 2
  {
    var second := Join(t[1..], " ");
    assert Join(t, " ") == t[0] + " " + second;
    if |t| == 2 {
      assert second == t[1];
    } else {
      assert second == t[1] + " " + Join(t[2..], " ");
    }
  }

  /** A text without commas and with two `=` is not one action. */
  lemma TwoEqualsRejected(body: string)
    requires ',' !in body
    requires multiset(body)['='] >= 2
    ensures ParseActions(Split(body, ',')) == None
  {
    SplitNoSep(body, ',');
    SplitCount(body, '=');
    assert ParseAction(body) == None;
  }

  /** Two or more actions joined with blanks alone are one action text with
      several `=`, which the grammar rejects. */
  lemma BlankJoinedRejected(actions: seq<SetAction>)
    requires |actions| >= 2
    requires forall i :: 0 <= i < |actions| ==> WellFormed(actions[i])
    ensures ParseUpdateExpression(Join(SourceParts(actions), " ")) == None
  {
    var expr := Join(SourceParts(actions), " ");
    var t := ClauseTexts(actions);
    var body := Join(t, " ");
    JoinOfSourceParts(actions, " ");
    ParseSetPrefixed(body);
    ClauseTextsNoComma(actions);
    NotInJoin(t, " ", ',');
    ClauseHasEquals(actions[0]);
    ClauseHasEquals(actions[1]);
    BlankJoinedEquals(t);
    TwoEqualsRejected(body);
  }

  // ---------------------------------------------------------------------
  // end_run's update

  const StatusAction := SetAction("#status", ":status")
  const EndTsAction := SetAction("end_ts", ":end_ts")
  const RowsAction := SetAction("rows_processed", ":rows")
  const CheckpointAction := SetAction("last_checkpoint", ":ckpt")
  const ErrorAction := SetAction("error_message", ":err")

  function Present<T>(v: Option<T>, a: SetAction): seq<SetAction>
  {
    if v.Some? then [a] else []
  }

  /** The actions end_run means to perform, in the order it lists them. */
  function EndRunActions(rows: Option<int>, checkpoint: Option<Json>, error: Option<string>): seq<SetAction>
  {
    [StatusAction, EndTsAction] + Present(rows, RowsAction) + Present(checkpoint, CheckpointAction)
      + Present(error, ErrorAction)
  }

  /** The clause strings end_run collects. */
  function EndRunParts(rows: Option<int>, checkpoint: Option<Json>, error: Option<string>): seq<string>
  {
    ["set #status = :status", "end_ts = :end_ts"]
      + (if rows.Some? then ["rows_processed = :rows"] else [])
      + (if checkpoint.Some? then ["last_checkpoint = :ckpt"] else [])
      + (if error.Some? then ["error_message = :err"] else [])
  }

  function EndRunValues(status: string, now: string, rows: Option<int>, checkpoint: Option<Json>,
                        error: Option<string>): map<string, Json>
  {
    var base := map[":status" := JStr(status), ":end_ts" := JStr(now)];
    var withRows := if rows.Some? then base[":rows" := JInt(rows.value)] else base;
    var withCheckpoint := if checkpoint.Some? then withRows[":ckpt" := JStr(PyStr(checkpoint.value))] else withRows;
    if error.Some? then withCheckpoint[":err" := JStr(error.value)] else withCheckpoint
  }

  const EndRunNames := map["#status" := "status"]

  /** The expression as end_run builds it: clauses joined by a blank. */
  function AsWrittenEndRunExpression(rows: Option<int>, checkpoint: Option<Json>, error: Option<string>): string
  {
    Join(EndRunParts(rows, checkpoint, error), " ")
  }

  /** The expression with the clauses joined by commas, as SET requires. */
  function EndRunExpression(rows: Option<int>, checkpoint: Option<Json>, error: Option<string>): string
  {
    Join(EndRunParts(rows, checkpoint, error), ", ")
  }

  /** The item after a successful end_run update of `base`. */
  function ClosedItem(base: Item, status: string, now: string, rows: Option<int>,
                      checkpoint: Option<Json>, error: Option<string>): Item
  {
    var closed := base["status" := JStr(status)]["end_ts" := JStr(now)];
    var withRows := if rows.Some? then closed["rows_processed" := JInt(rows.value)] else closed;
    var withCheckpoint :=
      if checkpoint.Some? then withRows["last_checkpoint" := JStr(PyStr(checkpoint.value))] else withRows;
    if error.Some? then withCheckpoint["error_message" := JStr(error.value)] else withCheckpoint
  }

  lemma StatusActionWellFormed() ensures WellFormed(StatusAction) {}
  lemma EndTsActionWellFormed() ensures WellFormed(EndTsAction) {}
  lemma RowsActionWellFormed() ensures WellFormed(RowsAction) {}
  lemma CheckpointActionWellFormed() ensures WellFormed(CheckpointAction) {}
  lemma ErrorActionWellFormed() ensures WellFormed(ErrorAction) {}

  lemma EndRunActionsWellFormed(rows: Option<int>, checkpoint: Option<Json>, error: Option<string>)
    ensures forall i :: 0 <= i < |EndRunActions(rows, checkpoint, error)| ==>
      WellFormed(EndRunActions(rows, checkpoint, error)[i])
  {
    StatusActionWellFormed();
    EndTsActionWellFormed();
    RowsActionWellFormed();
    CheckpointActionWellFormed();
    ErrorActionWellFormed();
    var actions := EndRunActions(rows, checkpoint, error);
    forall i | 0 <= i < |actions|
      ensures WellFormed(actions[i])
    {
      assert actions[i] in [StatusAction, EndTsAction, RowsAction, CheckpointAction, ErrorAction];
    }
  }

  lemma SourcePartsAppend(actions: seq<SetAction>, more: seq<SetAction>)
    requires actions != []
    ensures SourceParts(actions + more) == SourceParts(actions) + ClauseTexts(more)
  {
    var l := SourceParts(actions + more);
    var r := SourceParts(actions) + ClauseTexts(more);
    forall i | 0 <= i < |l|
      ensures l[i] == r[i]
    {
      if i >= |actions| {
        assert (actions + more)[i] == more[i - |actions|];
        assert l[i] == "" + ClauseText(more[i - |actions|]);
      }
    }
  }

  lemma ClauseTextsAppend(xs: seq<SetAction>, ys: seq<SetAction>)
    ensures ClauseTexts(xs + ys) == ClauseTexts(xs) + ClauseTexts(ys)
  {
    var l := ClauseTexts(xs + ys);
    var r := ClauseTexts(xs) + ClauseTexts(ys);
    forall i | 0 <= i < |l|
      ensures l[i] == r[i]
    {
      if i >= |xs| {
        assert (xs + ys)[i] == ys[i - |xs|];
      }
    }
  }

  lemma OptionalClauseTexts<T>(v: Option<T>, a: SetAction, text: string)
    requires text == ClauseText(a)
    ensures ClauseTexts(Present(v, a)) == (if v.Some? then [text] else [])
  {}

  lemma FirstSourceParts()
    ensures SourceParts([StatusAction, EndTsAction]) == ["set #status = :status", "end_ts = :end_ts"]
  {
    assert "set #status = :status" == "set " + ClauseText(StatusAction);
    assert "end_ts = :end_ts" == "" + ClauseText(EndTsAction);
  }

  lemma RowsClauseText() ensures ClauseText(RowsAction) == "rows_processed = :rows" {}
  lemma CheckpointClauseText() ensures ClauseText(CheckpointAction) == "last_checkpoint = :ckpt" {}
  lemma ErrorClauseText() ensures ClauseText(ErrorAction) == "error_message = :err" {}

  /** The texts of the optional clauses, in end_run's order. */
  lemma OptionalEndRunClauseTexts(rows: Option<int>, checkpoint: Option<Json>, error: Option<string>)
    ensures ClauseTexts(Present(rows, RowsAction) + Present(checkpoint, CheckpointAction) + Present(error, ErrorAction))
      == (if rows.Some? then ["rows_processed = :rows"] else [])
       + (if checkpoint.Some? then ["last_checkpoint = :ckpt"] else [])
       + (if error.Some? then ["error_message = :err"] else [])
  {
    RowsClauseText();
    CheckpointClauseText();
    ErrorClauseText();
    OptionalClauseTexts(rows, RowsAction, "rows_processed = :rows");
    OptionalClauseTexts(checkpoint, CheckpointAction, "last_checkpoint = :ckpt");
    OptionalClauseTexts(error, ErrorAction, "error_message = :err");
    ClauseTextsAppend(Present(rows, RowsAction) + Present(checkpoint, CheckpointAction), Present(error, ErrorAction));
    ClauseTextsAppend(Present(rows, RowsAction), Present(checkpoint, CheckpointAction));
  }

  lemma EndRunPartsShape(rows: Option<int>, checkpoint: Option<Json>, error: Option<string>)
    ensures EndRunParts(rows, checkpoint, error) == SourceParts(EndRunActions(rows, checkpoint, error))
  {
    var first := [StatusAction, EndTsAction];
    var more := Present(rows, RowsAction) + Present(checkpoint, CheckpointAction) + Present(error, ErrorAction);
    assert EndRunActions(rows, checkpoint, error) == first + more;
    SourcePartsAppend(first, more);
    FirstSourceParts();
    OptionalEndRunClauseTexts(rows, checkpoint, error);
  }

  /** The finding: the blank-joined expression never parses, whatever the
      arguments, so the request is rejected before anything is written. */
  lemma AsWrittenEndRunRejected(items: map<ItemKey, Item>, id: string, status: string, now: string,
                                rows: Option<int>, checkpoint: Option<Json>, error: Option<string>)
    ensures UpdateItem(items, RunKey(id), AsWrittenEndRunExpression(rows, checkpoint, error),
                       EndRunNames, EndRunValues(status, now, rows, checkpoint, error)) == Err(SyntaxError)
  {
    EndRunPartsShape(rows, checkpoint, error);
    EndRunActionsWellFormed(rows, checkpoint, error);
    BlankJoinedRejected(EndRunActions(rows, checkpoint, error));
  }

  lemma OperandsAppend(xs: seq<SetAction>, ys: seq<SetAction>)
    ensures Operands(xs + ys) == Operands(xs) + Operands(ys)
  {
    forall o | o in Operands(xs + ys)
      ensures o in Operands(xs) + Operands(ys)
    {
      var a :| a in xs + ys && a.operand == o;
    }
  }

  lemma NameRefsAppend(xs: seq<SetAction>, ys: seq<SetAction>)
    ensures NameRefs(xs + ys) == NameRefs(xs) + NameRefs(ys)
  {
    forall o | o in NameRefs(xs + ys)
      ensures o in NameRefs(xs) + NameRefs(ys)
    {
      var a :| a in xs + ys && IsNameRef(a.path) && a.path == o;
    }
  }

  lemma OptionalRefs<T>(v: Option<T>, a: SetAction)
    requires !IsNameRef(a.path)
    ensures Operands(Present(v, a)) == (if v.Some? then {a.operand} else {})
    ensures NameRefs(Present(v, a)) == {}
  {}

  function OptionalKey<T>(v: Option<T>, key: string): set<string>
  {
    if v.Some? then {key} else {}
  }

  lemma EndRunValueKeys(status: string, now: string, rows: Option<int>, checkpoint: Option<Json>,
                        error: Option<string>)
    ensures EndRunValues(status, now, rows, checkpoint, error).Keys
         == {":status", ":end_ts"} + OptionalKey(rows, ":rows") + OptionalKey(checkpoint, ":ckpt")
            + OptionalKey(error, ":err")
  {}

  lemma EndRunOperands(rows: Option<int>, checkpoint: Option<Json>, error: Option<string>)
    ensures Operands(EndRunActions(rows, checkpoint, error))
         == {":status", ":end_ts"} + OptionalKey(rows, ":rows") + OptionalKey(checkpoint, ":ckpt")
            + OptionalKey(error, ":err")
  {
    var first := [StatusAction, EndTsAction];
    var p1 := Present(rows, RowsAction);
    var p2 := Present(checkpoint, CheckpointAction);
    var p3 := Present(error, ErrorAction);
    assert EndRunActions(rows, checkpoint, error) == first + p1 + p2 + p3;
    OperandsAppend(first + p1 + p2, p3);
    OperandsAppend(first + p1, p2);
    OperandsAppend(first, p1);
    assert Operands(p1) == OptionalKey(rows, ":rows");
    assert Operands(p2) == OptionalKey(checkpoint, ":ckpt");
    assert Operands(p3) == OptionalKey(error, ":err");
    assert Operands(first) == {":status", ":end_ts"};
  }

  lemma EndRunNameRefs(rows: Option<int>, checkpoint: Option<Json>, error: Option<string>)
    ensures NameRefs(EndRunActions(rows, checkpoint, error)) == EndRunNames.Keys
  {
    var first := [StatusAction, EndTsAction];
    var p1 := Present(rows, RowsAction);
    var p2 := Present(checkpoint, CheckpointAction);
    var p3 := Present(error, ErrorAction);
    assert EndRunActions(rows, checkpoint, error) == first + p1 + p2 + p3;
    NameRefsAppend(first + p1 + p2, p3);
    NameRefsAppend(first + p1, p2);
    NameRefsAppend(first, p1);
    OptionalRefs(rows, RowsAction);
    OptionalRefs(checkpoint, CheckpointAction);
    OptionalRefs(error, ErrorAction);
    assert NameRefs(first) == {"#status"} by {
      assert !IsNameRef(EndTsAction.path);
    }
  }

  /** end_run supplies exactly the placeholders its clauses use. */
  lemma EndRunPlaceholders(status: string, now: string, rows: Option<int>, checkpoint: Option<Json>,
                           error: Option<string>)
    ensures Operands(EndRunActions(rows, checkpoint, error)) == EndRunValues(status, now, rows, checkpoint, error).Keys
    ensures NameRefs(EndRunActions(rows, checkpoint, error)) == EndRunNames.Keys
  {
    EndRunValueKeys(status, now, rows, checkpoint, error);
    EndRunOperands(rows, checkpoint, error);
    EndRunNameRefs(rows, checkpoint, error);
  }

  lemma ApplyPresent<T>(item: Item, xs: seq<SetAction>, v: Option<T>, a: SetAction,
                        names: map<string, string>, values: map<string, Json>)
    ensures ApplyActions(item, xs + Present(v, a), names, values)
         == if v.Some? then ApplyActions(item, xs, names, values)[AttributeName(a.path, names) := OperandValue(a.operand, values)]
            else ApplyActions(item, xs, names, values)
  {
    if v.Some? {
      assert (xs + [a])[..|xs|] == xs;
    } else {
      assert xs + [] == xs;
    }
  }

  lemma ApplySnoc(item: Item, xs: seq<SetAction>, x: SetAction, names: map<string, string>,
                  values: map<string, Json>)
    ensures ApplyActions(item, xs + [x], names, values)
         == ApplyActions(item, xs, names, values)[AttributeName(x.path, names) := OperandValue(x.operand, values)]
  {
    assert (xs + [x])[..|xs|] == xs;
  }

  lemma ApplyStatusAndEndTs(base: Item, values: map<string, Json>)
    ensures ApplyActions(base, [StatusAction, EndTsAction], EndRunNames, values)
         == base["status" := OperandValue(":status", values)]["end_ts" := OperandValue(":end_ts", values)]
  {
    ApplySnoc(base, [], StatusAction, EndRunNames, values);
    ApplySnoc(base, [StatusAction], EndTsAction, EndRunNames, values);
    assert [StatusAction, EndTsAction] == [StatusAction] + [EndTsAction];
    assert [] + [StatusAction] == [StatusAction];
    assert AttributeName(StatusAction.path, EndRunNames) == "status" by {
      assert IsNameRef(StatusAction.path);
    }
    assert AttributeName(EndTsAction.path, EndRunNames) == "end_ts" by {
      assert !IsNameRef(EndTsAction.path);
    }
  }

  lemma EndRunValueLookups(status: string, now: string, rows: Option<int>, checkpoint: Option<Json>,
                           error: Option<string>)
    ensures var values := EndRunValues(status, now, rows, checkpoint, error);
      && OperandValue(":status", values) == JStr(status)
      && OperandValue(":end_ts", values) == JStr(now)
      && (rows.Some? ==> OperandValue(":rows", values) == JInt(rows.value))
      && (checkpoint.Some? ==> OperandValue(":ckpt", values) == JStr(PyStr(checkpoint.value)))
      && (error.Some? ==> OperandValue(":err", values) == JStr(error.value))
  {}

  lemma PlainAttributeNames()
    ensures AttributeName(RowsAction.path, EndRunNames) == "rows_processed"
    ensures AttributeName(CheckpointAction.path, EndRunNames) == "last_checkpoint"
    ensures AttributeName(ErrorAction.path, EndRunNames) == "error_message"
  {
    assert !IsNameRef(RowsAction.path);
    assert !IsNameRef(CheckpointAction.path);
    assert !IsNameRef(ErrorAction.path);
  }

  /** Applying end_run's actions writes status, end time and whichever of
      rows, checkpoint and error were given, and nothing else. */
  lemma ApplyEndRunActions(base: Item, status: string, now: string, rows: Option<int>,
                           checkpoint: Option<Json>, error: Option<string>)
    ensures ApplyActions(base, EndRunActions(rows, checkpoint, error), EndRunNames,
                         EndRunValues(status, now, rows, checkpoint, error))
         == ClosedItem(base, status, now, rows, checkpoint, error)
  {
    var values := EndRunValues(status, now, rows, checkpoint, error);
    var a0 := [StatusAction, EndTsAction];
    var a1 := a0 + Present(rows, RowsAction);
    var a2 := a1 + Present(checkpoint, CheckpointAction);
    EndRunValueLookups(status, now, rows, checkpoint, error);
    PlainAttributeNames();
    ApplyStatusAndEndTs(base, values);
    ApplyPresent(base, a0, rows, RowsAction, EndRunNames, values);
    ApplyPresent(base, a1, checkpoint, CheckpointAction, EndRunNames, values);
    ApplyPresent(base, a2, error, ErrorAction, EndRunNames, values);
    assert EndRunActions(rows, checkpoint, error) == a2 + Present(error, ErrorAction);
  }

  /** The corrected update is accepted and closes the run's item, creating
      it from the key alone when no run with that id was started. */
  lemma EndRunUpdateApplies(items: map<ItemKey, Item>, id: string, status: string, now: string,
                            rows: Option<int>, checkpoint: Option<Json>, error: Option<string>)
    ensures UpdateItem(items, RunKey(id), EndRunExpression(rows, checkpoint, error),
                       EndRunNames, EndRunValues(status, now, rows, checkpoint, error))
         == Ok(ClosedItem(if RunKey(id) in items then items[RunKey(id)] else KeyItem(RunKey(id)),
                          status, now, rows, checkpoint, error))
  {
    var actions := EndRunActions(rows, checkpoint, error);
    EndRunPartsShape(rows, checkpoint, error);
    EndRunActionsWellFormed(rows, checkpoint, error);
    CommaJoinedParses(actions);
    EndRunPlaceholders(status, now, rows, checkpoint, error);
    ApplyEndRunActions(if RunKey(id) in items then items[RunKey(id)] else KeyItem(RunKey(id)),
                       status, now, rows, checkpoint, error);
  }

  /** Closing a stored run record gives the item of the record the local
      ledger's `end_run` produces. */
  lemma ClosedItemMirrorsLocal(run: RunRecord, status: string, now: string, rows: Option<int>,
                               checkpoint: Option<Json>, error: Option<string>)
    ensures ClosedItem(RunItem(run), status, now, rows, checkpoint, error)
         == RunItem(CloseRun(run, status, now, rows, checkpoint, error))
  {
    var closed := CloseRun(run, status, now, rows, checkpoint, error);
    assert closed.ingestionRunId == run.ingestionRunId;
  }

  // ---------------------------------------------------------------------
  // Checkpoints and run listings

  /** `load_checkpoint`: the default when the item is missing or empty,
      otherwise its `value` attribute, or the default without one. */
  function LoadCheckpointFrom(items: map<ItemKey, Item>, source: string, default: Json): (v: Json)
    ensures CheckpointKey(source) !in items ==> v == default
    ensures CheckpointKey(source) in items && "value" in items[CheckpointKey(source)]
            ==> v == items[CheckpointKey(source)]["value"]
    ensures CheckpointKey(source) in items && "value" !in items[CheckpointKey(source)] ==> v == default
  {
    var key := CheckpointKey(source);
    if key !in items || items[key] == map[] then default
    else if "value" in items[key] then items[key]["value"]
    else default
  }

  lemma LoadAfterSaveCheckpoint(items: map<ItemKey, Item>, source: string, value: Json, default: Json)
    ensures LoadCheckpointFrom(items[CheckpointKey(source) := CheckpointItem(source, value)], source, default) == value
  {
    assert "value" in CheckpointItem(source, value);
  }

  lemma LoadOtherAfterSaveCheckpoint(items: map<ItemKey, Item>, source: string, other: string, value: Json,
                                     default: Json)
    requires other != source
    ensures LoadCheckpointFrom(items[CheckpointKey(source) := CheckpointItem(source, value)], other, default)
         == LoadCheckpointFrom(items, other, default)
  {
    if CheckpointKey(other) == CheckpointKey(source) {
      CheckpointKeyInjective(other, source);
    }
  }

  /** Writing a run item never changes what a checkpoint load returns. */
  lemma LoadAfterRunWrite(items: map<ItemKey, Item>, id: string, item: Item, source: string, default: Json)
    ensures LoadCheckpointFrom(items[RunKey(id) := item], source, default)
         == LoadCheckpointFrom(items, source, default)
  {
    RunAndCheckpointKeysDiffer(id, source);
  }

  predicate IsRunItemKey(key: ItemKey)
  {
    StartsWith(key.pk, RunPrefix)
  }

  predicate InRunScope(scope: Option<string>, item: Item)
  {
    scope.None? || Get(item, "run_scope") == JStr(scope.value)
  }

  /** `list_runs`: one `scan` filtered on the `RUN#` partition-key prefix,
      with no follow-up on `LastEvaluatedKey`, so only the first page is
      read; `page` is the set of keys that page covers (which keys fit in
      its 1 MB is up to DynamoDB). A run item of the page is kept when the
      scope is absent or its `run_scope` equals it. */
  function ListRunsFrom(items: map<ItemKey, Item>, page: set<ItemKey>, scope: Option<string>): set<Item>
  {
    set key | key in items && key in page && IsRunItemKey(key) && InRunScope(scope, items[key]) :: items[key]
  }

  lemma CheckpointKeyIsNotRunKey(source: string)
    ensures !IsRunItemKey(CheckpointKey(source))
  {
    assert CheckpointKey(source).pk[0] == 'C';
  }

  /** Checkpoint items never show up among the runs, and saving one leaves
      the listing of the same scanned keys as it was. */
  lemma ListRunsAfterSaveCheckpoint(items: map<ItemKey, Item>, page: set<ItemKey>, source: string, value: Json,
                                    scope: Option<string>)
    ensures ListRunsFrom(items[CheckpointKey(source) := CheckpointItem(source, value)], page, scope)
         == ListRunsFrom(items, page, scope)
  {
    CheckpointKeyIsNotRunKey(source);
  }

  /** A started run whose key the scan page reaches is listed unscoped and
      under its own scope. */
  lemma StartedRunListed(items: map<ItemKey, Item>, page: set<ItemKey>, id: string, scope: string, now: string)
    requires RunKey(id) in page
    ensures StartRunItem(id, scope, now) in ListRunsFrom(items[RunKey(id) := StartRunItem(id, scope, now)], page, None)
    ensures StartRunItem(id, scope, now) in ListRunsFrom(items[RunKey(id) := StartRunItem(id, scope, now)], page, Some(scope))
  {
    var after := items[RunKey(id) := StartRunItem(id, scope, now)];
    assert IsRunItemKey(RunKey(id));
    assert Get(after[RunKey(id)], "run_scope") == JStr(scope);
  }

  /** The scoped listing is the unscoped one restricted to the scope. */
  lemma ScopedListing(items: map<ItemKey, Item>, page: set<ItemKey>, scope: string, item: Item)
    ensures item in ListRunsFrom(items, page, Some(scope))
        <==> item in ListRunsFrom(items, page, None) && Get(item, "run_scope") == JStr(scope)
  {}

  /** A page that reaches more keys lists a superset; when the first page
      covers the whole table, every run item in scope is listed. */
  lemma ListRunsPages(items: map<ItemKey, Item>, page: set<ItemKey>, bigger: set<ItemKey>, scope: Option<string>)
    requires page <= bigger
    ensures ListRunsFrom(items, page, scope) <= ListRunsFrom(items, bigger, scope)
    ensures items.Keys <= page ==>
      forall key :: key in items && IsRunItemKey(key) && InRunScope(scope, items[key]) ==>
        items[key] in ListRunsFrom(items, page, scope)
  {}

  // ---------------------------------------------------------------------
  // DynamoDB adapter

  /** The adapter over its table's items. */
  class DynamoMetadataAdapter {
    var items: map<ItemKey, Item>

    constructor (items: map<ItemKey, Item>)
      ensures this.items == items
    {
      this.items := items;
    }

    /** UpdateItem on the table: the new item on success, no change on error. */
    method Update(key: ItemKey, expr: string, names: map<string, string>, values: map<string, Json>)
      returns (r: Result<Item>)
      modifies this
      ensures r == UpdateItem(old(items), key, expr, names, values)
      ensures r.Ok? ==> items == old(items)[key := r.value]
      ensures r.Err? ==> items == old(items)
    {
      r := UpdateItem(items, key, expr, names, values);
      if r.Ok? {
        items := items[key := r.value];
      }
    }

    method StartRun(scope: string, id: string, now: string) returns (runId: string)
      modifies this
      ensures runId == id
      ensures items == old(items)[RunKey(id) := StartRunItem(id, scope, now)]
    {
      items := items[RunKey(id) := StartRunItem(id, scope, now)];
      runId := id;
    }

    /** `end_run` as written: the clauses are joined by a blank, so DynamoDB
        rejects the request and the run stays open. */
    method EndRunAsWritten(id: string, status: string, now: string, rows: Option<int>,
                           checkpoint: Option<Json>, error: Option<string>)
      returns (r: Result<Item>)
      modifies this
      ensures r == Err(SyntaxError)
      ensures items == old(items)
    {
      AsWrittenEndRunRejected(items, id, status, now, rows, checkpoint, error);
      r := Update(RunKey(id), AsWrittenEndRunExpression(rows, checkpoint, error), EndRunNames,
                  EndRunValues(status, now, rows, checkpoint, error));
    }

    /** `end_run` with comma-joined clauses: the run's item is closed, or
        created closed when the id is unknown. */
    method EndRun(id: string, status: string, now: string, rows: Option<int>,
                  checkpoint: Option<Json>, error: Option<string>)
      returns (r: Result<Item>)
      modifies this
      ensures r == Ok(ClosedItem(if RunKey(id) in old(items) then old(items)[RunKey(id)] else KeyItem(RunKey(id)),
                                 status, now, rows, checkpoint, error))
      ensures items == old(items)[RunKey(id) := r.value]
    {
      EndRunUpdateApplies(items, id, status, now, rows, checkpoint, error);
      r := Update(RunKey(id), EndRunExpression(rows, checkpoint, error), EndRunNames,
                  EndRunValues(status, now, rows, checkpoint, error));
    }

    method SaveCheckpoint(source: string, value: Json)
      modifies this
      ensures items == old(items)[CheckpointKey(source) := CheckpointItem(source, value)]
    {
      items := items[CheckpointKey(source) := CheckpointItem(source, value)];
    }

    function LoadCheckpoint(source: string, default: Json): (v: Json)
      reads this
      ensures CheckpointKey(source) !in items ==> v == default
    {
      LoadCheckpointFrom(items, source, default)
    }

    /** `list_runs` over the keys its single scan page covers. */
    function ListRuns(scope: Option<string>, page: set<ItemKey>): (r: set<Item>)
      reads this
      ensures forall item :: item in r ==>
                exists key :: key in page && key in items && StartsWith(key.pk, RunPrefix) && items[key] == item
      ensures forall key :: key in items && key in page && StartsWith(key.pk, RunPrefix) ==>
                (items[key] in r <== scope.None? || Get(items[key], "run_scope") == JStr(scope.value))
      ensures scope.Some? ==> forall item :: item in r ==> Get(item, "run_scope") == JStr(scope.value)
    {
      ListRunsFrom(items, page, scope)
    }
  }
}
