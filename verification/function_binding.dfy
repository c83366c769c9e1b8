/** Bind-time checks shared by the aggregate and the scalar LLM functions
    (`AggregateFunctionBase` and `ScalarFunctionBase`): the argument count
    and types, what the prompt struct's children say, the prompt object the
    bound prompt is read from, and the split of the cast prompt rows into the
    prompt and its `context_columns`. A DuckDB expression is reduced to what
    the checks read of it. */
module FunctionBinding {
  import opened Wrappers
  import opened Json
  import Text
  import InputParser
  import PromptRender

  /** One argument of the call: whether its type is a STRUCT, and the names
      of the struct's children in order. */
  datatype Argument = Argument(isStruct: bool, children: seq<string>)

  /** `PromptStructInfo`: whether a child is named `context_columns`, and
      the position and name of the first child naming the prompt. */
  datatype PromptStructInfo = PromptStructInfo(hasContextColumns: bool, promptFieldIndex: Option<nat>,
                                               promptFieldName: string)

  const CONTEXT_COLUMNS: string := "context_columns"

  function ArgumentCountError(functionName: string, n: nat): string {
    functionName + " requires 2 arguments: (1) model, (2) prompt with context_columns. Got " + Text.NatToString(n)
  }

  const MODEL_TYPE_ERROR: string := ": First argument must be model (struct type)"
  const PROMPT_TYPE_ERROR: string := ": Second argument must be prompt with context_columns (struct type)"
  const CONTEXT_FIELD_ERROR: string := ": Second argument must contain 'context_columns' field"
  const MISSING_CONTEXT_ERROR: string :=
    "Missing 'context_columns' in second argument. The prompt struct must include context_columns."

  predicate IsPromptField(name: string) {
    name == "prompt" || name == "prompt_name"
  }

  /** `info` is what the children `children` say: `context_columns` is
      among them exactly when the flag is set, and the prompt field is the
      first child named `prompt` or `prompt_name`, if any. */
  predicate Describes(info: PromptStructInfo, children: seq<string>) {
    (info.hasContextColumns <==> CONTEXT_COLUMNS in children) &&
    (info.promptFieldIndex.None? <==> forall i :: 0 <= i < |children| ==> !IsPromptField(children[i])) &&
    (info.promptFieldIndex.None? ==> info.promptFieldName == "") &&
    (info.promptFieldIndex.Some? ==>
       var i := info.promptFieldIndex.value;
       i < |children| && IsPromptField(children[i]) && info.promptFieldName == children[i] &&
       forall j :: 0 <= j < i ==> !IsPromptField(children[j]))
  }

  /** The children determine what they say: later prompt fields are ignored. */
  lemma DescribesUnique(a: PromptStructInfo, b: PromptStructInfo, children: seq<string>)
    requires Describes(a, children) && Describes(b, children)
    ensures a == b
  {
    if a.promptFieldIndex.Some? && b.promptFieldIndex.Some? {
      var i, j := a.promptFieldIndex.value, b.promptFieldIndex.value;
      if i != j {
        assert false;
      }
    }
  }

  /** `ExtractPromptStructInfo`: one pass over the children. */
  method ExtractPromptStructInfo(children: seq<string>) returns (info: PromptStructInfo)
    ensures Describes(info, children)
  {
    info := PromptStructInfo(false, None, "");
    for i := 0 to |children|
      invariant info.hasContextColumns <==> CONTEXT_COLUMNS in children[..i]
      invariant info.promptFieldIndex.None? <==> forall j :: 0 <= j < i ==> !IsPromptField(children[j])
      invariant info.promptFieldIndex.None? ==> info.promptFieldName == ""
      invariant info.promptFieldIndex.Some? ==>
        var k := info.promptFieldIndex.value;
        k < i && IsPromptField(children[k]) && info.promptFieldName == children[k] &&
        forall j :: 0 <= j < k ==> !IsPromptField(children[j])
    {
      assert children[..i + 1] == children[..i] + [children[i]];
      var name := children[i];
      if name == CONTEXT_COLUMNS {
        info := info.(hasContextColumns := true);
      } else if IsPromptField(name) && info.promptFieldIndex.None? {
        info := info.(promptFieldIndex := Some(i), promptFieldName := name);
      }
    }
    assert children[..|children|] == children;
  }

  /** `ValidateAndInitializeBindData` up to the bind data: the count, then
      the two types, then the prompt struct's children. The aggregates
      always require `context_columns`; each scalar function says whether
      it does. */
  method ValidateArguments(args: seq<Argument>, functionName: string, requireContextColumns: bool)
    returns (r: Result<PromptStructInfo>)
    ensures r.Ok? <==>
      |args| == 2 && args[0].isStruct && args[1].isStruct &&
      (requireContextColumns ==> CONTEXT_COLUMNS in args[1].children)
    ensures r.Ok? ==> Describes(r.value, args[1].children)
    ensures |args| != 2 ==> r == Err(ArgumentCountError(functionName, |args|))
    ensures |args| == 2 && !args[0].isStruct ==> r == Err(functionName + MODEL_TYPE_ERROR)
    ensures |args| == 2 && args[0].isStruct && !args[1].isStruct ==> r == Err(functionName + PROMPT_TYPE_ERROR)
    ensures |args| == 2 && args[0].isStruct && args[1].isStruct && r.Err? ==>
      r == Err(functionName + CONTEXT_FIELD_ERROR)
  {
    if |args| != 2 {
      return Err(ArgumentCountError(functionName, |args|));
    }
    if !args[0].isStruct {
      return Err(functionName + MODEL_TYPE_ERROR);
    }
    if !args[1].isStruct {
      return Err(functionName + PROMPT_TYPE_ERROR);
    }
    var info := ExtractPromptStructInfo(args[1].children);
    if requireContextColumns && !info.hasContextColumns {
      return Err(functionName + CONTEXT_FIELD_ERROR);
    }
    r := Ok(info);
  }

  // ------------------------------------------------------- the bound prompt

  /** How one child of a non-constant prompt struct folds at bind time. */
  datatype Folded = NotFoldable | EvaluationFailed | Varchar(text: string) | Folds(value: InputParser.SqlValue)

  /** A child that `InitializePrompt` stores: foldable, evaluated without
      error, and not `context_columns`. */
  predicate Stores(child: (string, Folded)) {
    child.0 != CONTEXT_COLUMNS && (child.1.Varchar? || child.1.Folds?)
  }

  /** The JSON a stored child is written as. */
  function StoredValue(f: Folded, show: InputParser.SqlValue -> string): Value {
    match f
    case Varchar(t) => Str(t)
    case Folds(v) => InputParser.CastValueToJson(v, show)
    case _ => Null
  }

  function FieldsOf(v: Value): map<string, Value> {
    if v.Obj? then v.fields else map[]
  }

  /** The prompt object of a struct built by a function call, child by
      child: `prompt_json[name] = value` for each child that stores, which
      turns the initial null into an object. */
  function PromptFromChildren(children: seq<(string, Folded)>, show: InputParser.SqlValue -> string): (v: Value)
    decreases |children|
  {
    if |children| == 0 then Null
    else
      var v := PromptFromChildren(children[..|children| - 1], show);
      var last := children[|children| - 1];
      if Stores(last) then Obj(FieldsOf(v)[last.0 := StoredValue(last.1, show)]) else v
  }

  /** The names of the children that store. */
  function StoredNames(children: seq<(string, Folded)>): set<string> {
    set i | 0 <= i < |children| && Stores(children[i]) :: children[i].0
  }

  /** The prompt object is null exactly when no child stores, and an
      object otherwise, holding one member per name of a child that stores;
      `context_columns` is never among them. */
  lemma {:induction false} PromptFromChildrenKeys(children: seq<(string, Folded)>,
                                                 show: InputParser.SqlValue -> string)
    ensures var v := PromptFromChildren(children, show);
      && (v.Null? <==> forall i :: 0 <= i < |children| ==> !Stores(children[i]))
      && (v.Null? || v.Obj?)
      && FieldsOf(v).Keys == StoredNames(children)
      && CONTEXT_COLUMNS !in FieldsOf(v)
    decreases |children|
  {
    if |children| > 0 {
      var n := |children| - 1;
      var pre := children[..n];
      PromptFromChildrenKeys(pre, show);
      var last := children[n];
      assert forall i :: 0 <= i < n ==> pre[i] == children[i];
      assert StoredNames(children) == StoredNames(pre) + (if Stores(last) then {last.0} else {}) by {
        forall k | k in StoredNames(children)
          ensures k in StoredNames(pre) + (if Stores(last) then {last.0} else {})
        {
          var i :| 0 <= i < |children| && Stores(children[i]) && children[i].0 == k;
          if i < n {
            assert pre[i] == children[i];
          }
        }
      }
    }
  }

  /** The child that wrote member `k`: the last child that stores under
      that name. */
  predicate WroteLast(children: seq<(string, Folded)>, i: int, k: string) {
    0 <= i < |children| && Stores(children[i]) && children[i].0 == k &&
    forall j :: i < j < |children| ==> !(Stores(children[j]) && children[j].0 == k)
  }

  /** Each member holds the value of the last child that stores under its
      name: a later child of the same name overwrites an earlier one. */
  lemma {:induction false} PromptFromChildrenValues(children: seq<(string, Folded)>,
                                                   show: InputParser.SqlValue -> string, k: string)
    requires k in FieldsOf(PromptFromChildren(children, show))
    ensures exists i :: (WroteLast(children, i, k) &&
      FieldsOf(PromptFromChildren(children, show))[k] == StoredValue(children[i].1, show))
    decreases |children|
  {
    var n := |children| - 1;
    var pre := children[..n];
    var last := children[n];
    if Stores(last) && k == last.0 {
      assert WroteLast(children, n, k);
    } else {
      PromptFromChildrenValues(pre, show, k);
      var i :| WroteLast(pre, i, k) && FieldsOf(PromptFromChildren(pre, show))[k] == StoredValue(pre[i].1, show);
      assert children[i] == pre[i];
      assert forall j :: i < j < n ==> children[j] == pre[j];
      assert WroteLast(children, i, k);
    }
  }

  /** The scalar `InitializePrompt` once the prompt object is built:
      `context_columns` is erased, then the details are read from it. */
  function ScalarPromptDetails(promptJson: Value, store: PromptRender.PromptStore): Result<PromptRender.PromptDetails> {
    PromptRender.CreatePromptDetails(FieldsOf(promptJson) - {CONTEXT_COLUMNS}, store)
  }

  /** The aggregate `InitializePrompt` once the prompt object is built: the
      details are read from it as it is. */
  function AggregatePromptDetails(promptJson: Value, store: PromptRender.PromptStore): Result<PromptRender.PromptDetails> {
    PromptRender.CreatePromptDetails(FieldsOf(promptJson), store)
  }

  /** A struct built by a function call never stores `context_columns`, so
      there the scalar and the aggregate bindings read the same prompt. */
  lemma BuiltPromptsAgree(children: seq<(string, Folded)>, show: InputParser.SqlValue -> string,
                          store: PromptRender.PromptStore)
    ensures var v := PromptFromChildren(children, show);
      ScalarPromptDetails(v, store) == AggregatePromptDetails(v, store)
  {
    PromptFromChildrenKeys(children, show);
    var v := PromptFromChildren(children, show);
    assert FieldsOf(v) - {CONTEXT_COLUMNS} == FieldsOf(v);
  }

  /** A constant prompt struct carrying its `context_columns` binds as a
      literal prompt in a scalar function, which erases them, while an
      aggregate reads both keys and rejects the struct. */
  lemma ConstantContextColumns(p: string, columns: Value, store: PromptRender.PromptStore)
    requires p != ""
    ensures var v := Obj(map["prompt" := Str(p), CONTEXT_COLUMNS := columns]);
      && ScalarPromptDetails(v, store) == Ok(PromptRender.PromptDetails("", p, -1))
      && AggregatePromptDetails(v, store) == Err(PromptRender.SINGLE_KEY_ERROR)
  {
    var m := map["prompt" := Str(p), CONTEXT_COLUMNS := columns];
    assert m - {CONTEXT_COLUMNS} == map["prompt" := Str(p)];
    assert m.Keys == {"prompt", CONTEXT_COLUMNS};
    assert |m.Keys| == 2;
  }

  // ------------------------------------------------------------ the inputs

  /** `AggregateFunctionBase::CastInputsToJson`: the prompt rows cast to one
      object, split into the object without `context_columns` and the
      `context_columns` value; an object without them is an error. */
  function CastInputsToJson(rows: seq<InputParser.SqlValue>, show: InputParser.SqlValue -> string)
    : (r: Result<(Value, Value)>)
    ensures InputParser.CastVectorOfStructsToJson(rows, show).Err? ==>
      r == Err(InputParser.CastVectorOfStructsToJson(rows, show).error)
    ensures InputParser.CastVectorOfStructsToJson(rows, show).Ok? ==>
      var json := InputParser.CastVectorOfStructsToJson(rows, show).value;
      && (r.Ok? <==> CONTEXT_COLUMNS in FieldsOf(json))
      && (r.Err? ==> r.error == MISSING_CONTEXT_ERROR)
      && (r.Ok? ==> r.value.0.Obj? && CONTEXT_COLUMNS !in r.value.0.fields &&
                    json == Obj(r.value.0.fields[CONTEXT_COLUMNS := r.value.1]))
  {
    var json :- InputParser.CastVectorOfStructsToJson(rows, show);
    if json.Obj? && CONTEXT_COLUMNS in json.fields then
      var prompt := json.fields - {CONTEXT_COLUMNS};
      assert prompt[CONTEXT_COLUMNS := json.fields[CONTEXT_COLUMNS]] == json.fields;
      Ok((Obj(prompt), json.fields[CONTEXT_COLUMNS]))
    else Err(MISSING_CONTEXT_ERROR)
  }
}
