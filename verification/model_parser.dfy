/** The model DDL (`ModelParser::Parse` and its four sub-parsers) over a
    token sequence:
      CREATE [GLOBAL|LOCAL] MODEL ( 'name' , 'model' , 'provider' [, {args}] )
      DELETE MODEL 'name'
      UPDATE MODEL 'name' TO GLOBAL|LOCAL
      UPDATE MODEL ( 'name' , 'model' , 'provider' [, {args}] )
      GET MODELS | GET MODEL[S] 'name'
    each followed by a terminator. The JSON text of the optional arguments
    is read by a `JsonParser` supplied by the caller. */
module ModelParser {
  import opened Wrappers
  import opened Json
  import opened Text
  import opened Tokens

  datatype ModelStatement =
    | CreateModel(catalog: string, modelName: string, model: string, provider: string, args: map<string, Value>)
    | DeleteModel(modelName: string)
    | UpdateModel(modelName: string, newModel: string, provider: string, newArgs: map<string, Value>)
    | UpdateModelScope(modelName: string, catalog: string)
    | GetModel(modelName: string)
    | GetAllModels

  /** What `json::parse` yields, as the loop over it sees it: an object's
      members in the library's iteration order, or a value of another kind. */
  datatype Document = Object(members: seq<(string, Value)>) | Other(v: Value)

  /** `json::parse`; `Err` carries the library's message. */
  type JsonParser = string -> Result<Document>

  const ARGS_ERROR_PREFIX: string := "Failed to parse model_args JSON: "
  const BATCH_SIZE_ERROR: string := "Expected 'batch_size' to be an integer."
  /** The library's message for asking the key of a non-object element. */
  const KEY_ERROR: string := "[json.exception.invalid_iterator.207] cannot use key() for non-object iterators"
  const NO_KEYWORD_ERROR: string := "Expected a keyword at the beginning of the query."

  predicate AllowedKey(k: string) {
    k == "tuple_format" || k == "batch_size" || k == "model_parameters"
  }

  function UnknownParameter(k: string): (e: string) {
    "Unknown model_args parameter: '" + k + "'. Only tuple_format, batch_size, and model_parameters are allowed."
  }

  /** A member the argument loop lets through: a known key, and an integer
      when the key is `batch_size`. */
  predicate Accepted(m: (string, Value)) {
    AllowedKey(m.0) && (m.0 == "batch_size" ==> m.1.Int?)
  }

  /** What the loop stores for an accepted member: `get<int>()` narrows the
      batch size to 32 bits, other values are copied. */
  function Stored(m: (string, Value)): (v: Value)
    requires Accepted(m)
  {
    if m.0 == "batch_size" then Int(Wrap32(m.1.i)) else m.1
  }

  function Rejection(m: (string, Value)): (e: string)
    requires !Accepted(m)
  {
    if AllowedKey(m.0) then BATCH_SIZE_ERROR else UnknownParameter(m.0)
  }

  /** No later member repeats the key of member `i`. */
  predicate LastOf(ms: seq<(string, Value)>, i: nat)
    requires i < |ms|
  {
    forall j :: i < j < |ms| ==> ms[j].0 != ms[i].0
  }

  /** Arguments a parsed statement may carry. */
  predicate ArgsWellFormed(a: map<string, Value>) {
    (forall k :: k in a ==> AllowedKey(k)) &&
    ("batch_size" in a ==> a["batch_size"].Int? && INT32_MIN <= a["batch_size"].i <= INT32_MAX)
  }

  /** The loop over the parsed members: the first rejected member stops it
      with its message; otherwise every member is stored under its key. */
  function CollectArgs(ms: seq<(string, Value)>): (r: Result<map<string, Value>>)
    ensures r.Ok? ==> ArgsWellFormed(r.value)
    decreases |ms|
  {
    if |ms| == 0 then Ok(map[])
    else
      var r0 := CollectArgs(ms[..|ms| - 1]);
      var m := ms[|ms| - 1];
      if r0.Err? then r0
      else if !Accepted(m) then Err(Rejection(m))
      else Ok(r0.value[m.0 := Stored(m)])
  }

  /** The loop succeeds exactly when every member is accepted. */
  lemma {:induction false} CollectArgsOk(ms: seq<(string, Value)>)
    ensures CollectArgs(ms).Ok? <==> forall i :: 0 <= i < |ms| ==> Accepted(ms[i])
    decreases |ms|
  {
    if |ms| > 0 {
      var init := ms[..|ms| - 1];
      CollectArgsOk(init);
      assert forall i :: 0 <= i < |init| ==> init[i] == ms[i];
    }
  }

  /** A failure reports the first rejected member. */
  lemma {:induction false} CollectArgsError(ms: seq<(string, Value)>)
    ensures var r := CollectArgs(ms);
      r.Err? ==> exists i :: 0 <= i < |ms| && !Accepted(ms[i]) && r.error == Rejection(ms[i]) &&
                             forall j :: 0 <= j < i ==> Accepted(ms[j])
    decreases |ms|
  {
    if |ms| > 0 {
      var init := ms[..|ms| - 1];
      CollectArgsError(init);
      CollectArgsOk(init);
      assert forall i :: 0 <= i < |init| ==> init[i] == ms[i];
      if CollectArgs(init).Ok? && !Accepted(ms[|ms| - 1]) {
        var i := |ms| - 1;
        assert forall j :: 0 <= j < i ==> Accepted(ms[j]);
      }
    }
  }

  /** A success stores exactly the keys of the members. */
  lemma {:induction false} CollectArgsKeys(ms: seq<(string, Value)>)
    ensures var r := CollectArgs(ms);
      r.Ok? ==> forall k :: k in r.value <==> exists i :: 0 <= i < |ms| && ms[i].0 == k
    decreases |ms|
  {
    if |ms| > 0 {
      var init := ms[..|ms| - 1];
      var m := ms[|ms| - 1];
      var r0 := CollectArgs(init);
      CollectArgsKeys(init);
      if r0.Ok? && Accepted(m) {
        var r := r0.value[m.0 := Stored(m)];
        assert CollectArgs(ms) == Ok(r);
        forall k
          ensures k in r <==> exists i :: 0 <= i < |ms| && ms[i].0 == k
        {
          if k == m.0 {
            assert ms[|ms| - 1].0 == k;
          } else {
            if k in r0.value {
              var i :| 0 <= i < |init| && init[i].0 == k;
              assert ms[i].0 == k;
            }
            if exists i :: 0 <= i < |ms| && ms[i].0 == k {
              var i :| 0 <= i < |ms| && ms[i].0 == k;
              assert init[i].0 == k;
            }
          }
        }
      }
    }
  }

  /** A success stores, under each key, the last member with that key. */
  lemma {:induction false} CollectArgsValues(ms: seq<(string, Value)>)
    ensures var r := CollectArgs(ms);
      r.Ok? ==> forall i :: 0 <= i < |ms| && LastOf(ms, i) ==>
                   Accepted(ms[i]) && ms[i].0 in r.value && r.value[ms[i].0] == Stored(ms[i])
    decreases |ms|
  {
    if |ms| > 0 {
      var init := ms[..|ms| - 1];
      CollectArgsValues(init);
      CollectArgsOk(ms);
      assert forall i :: 0 <= i < |init| ==> init[i] == ms[i];
      forall i | 0 <= i < |init| && LastOf(ms, i)
        ensures LastOf(init, i)
      {
      }
    }
  }

  /** Parsing and checking the argument text; every failure carries the
      common prefix. An empty non-object document (null, `[]`) gives no
      arguments, any other non-object fails on the first key lookup. */
  function ReadArgs(parse: JsonParser, text: string): (r: Result<map<string, Value>>)
    ensures r.Ok? ==> ArgsWellFormed(r.value)
    ensures r.Err? ==> |ARGS_ERROR_PREFIX| <= |r.error| && r.error[..|ARGS_ERROR_PREFIX|] == ARGS_ERROR_PREFIX
  {
    match parse(text)
    case Err(e) => Err(ARGS_ERROR_PREFIX + e)
    case Ok(Object(ms)) =>
      (match CollectArgs(ms)
       case Ok(a) => Ok(a)
       case Err(e) => Err(ARGS_ERROR_PREFIX + e))
    case Ok(Other(v)) => if IsEmpty(v) then Ok(map[]) else Err(ARGS_ERROR_PREFIX + KEY_ERROR)
  }

  /** What a parsed statement always satisfies: names read from non-empty
      literals (the scope change alone accepts an empty name), one of the two
      catalogs, and checked arguments. */
  predicate WellFormed(s: ModelStatement) {
    match s
    case CreateModel(c, n, m, p, a) => IsCatalog(c) && n != "" && m != "" && p != "" && ArgsWellFormed(a)
    case DeleteModel(n) => n != ""
    case UpdateModel(n, m, p, a) => n != "" && m != "" && p != "" && ArgsWellFormed(a)
    case UpdateModelScope(_, c) => IsCatalog(c)
    case GetModel(n) => n != ""
    case GetAllModels => true
  }

  /** The three literals and the arguments shared by create and update. */
  datatype Spec = Spec(modelName: string, model: string, provider: string, args: map<string, Value>)

  predicate SpecWellFormed(x: Spec) {
    x.modelName != "" && x.model != "" && x.provider != "" && ArgsWellFormed(x.args)
  }

  /** `ModelParser::Parse`: dispatch on the leading keyword. */
  function Parse(ts: seq<Token>, parse: JsonParser): (r: Result<ModelStatement>)
    ensures r.Ok? ==> WellFormed(r.value)
    ensures Peek(ts, 0).kind != KEYWORD ==> r == Err(NO_KEYWORD_ERROR)
  {
    var t := Peek(ts, 0);
    var word := Upper(t.value);
    if t.kind != KEYWORD then Err(NO_KEYWORD_ERROR)
    else if word == "CREATE" then ParseCreate(ts, parse)
    else if word == "DELETE" then ParseDelete(ts)
    else if word == "UPDATE" then ParseUpdate(ts, parse)
    else if word == "GET" then ParseGet(ts)
    else Err(UnknownKeyword(t))
  }

  /** `ParseCreateModel`, reading from position 1. */
  function ParseCreate(ts: seq<Token>, parse: JsonParser): (r: Result<ModelStatement>)
    ensures r.Ok? ==> r.value.CreateModel? && WellFormed(r.value)
    ensures r.Ok? ==> (r.value.catalog == GLOBAL_CATALOG <==> IsKeyword(Peek(ts, 1), "GLOBAL"))
  {
    var scoped := IsKeyword(Peek(ts, 1), "GLOBAL") || IsKeyword(Peek(ts, 1), "LOCAL");
    var catalog := if IsKeyword(Peek(ts, 1), "GLOBAL") then GLOBAL_CATALOG else "";
    var p := if scoped then 2 else 1;
    if !IsKeyword(Peek(ts, p), "MODEL") then Err("Expected 'MODEL' after 'CREATE'.")
    else if !IsParen(Peek(ts, p + 1), "(") then Err("Expected opening parenthesis '(' after 'MODEL'.")
    else
      match ParseSpec(ts, p + 2, parse, false)
      case Err(e) => Err(e)
      case Ok(x) => Ok(CreateModel(catalog, x.modelName, x.model, x.provider, x.args))
  }

  /** From the model-name literal at `p` to the terminator: the three
      literals with their commas, then the argument tail. */
  function ParseSpec(ts: seq<Token>, p: nat, parse: JsonParser, anyParen: bool): (r: Result<Spec>)
    ensures r.Ok? ==> SpecWellFormed(r.value)
    ensures r.Ok? ==> r.value.modelName == Peek(ts, p).value && r.value.model == Peek(ts, p + 2).value &&
                      r.value.provider == Peek(ts, p + 4).value
  {
    if !NonEmptyLiteral(Peek(ts, p)) then Err("Expected non-empty string literal for model name.")
    else if !IsSymbol(Peek(ts, p + 1), ",") then Err("Expected comma ',' after model name.")
    else if !NonEmptyLiteral(Peek(ts, p + 2)) then Err("Expected non-empty string literal for model.")
    else if !IsSymbol(Peek(ts, p + 3), ",") then Err("Expected comma ',' after model.")
    else if !NonEmptyLiteral(Peek(ts, p + 4)) then Err("Expected non-empty string literal for provider_name.")
    else
      match ParseArgsTail(ts, p + 5, parse, anyParen)
      case Err(e) => Err(e)
      case Ok(a) => Ok(Spec(Peek(ts, p).value, Peek(ts, p + 2).value, Peek(ts, p + 4).value, a))
  }

  /** After the provider literal, at `q`: either a separator, the argument
      text and a closing token, or the closing parenthesis alone; then a
      terminator. Any SYMBOL counts as the separator and, after the
      arguments, any PARENTHESIS closes; without arguments create wants `)`
      while update (`anyParen`) takes any PARENTHESIS. */
  function ParseArgsTail(ts: seq<Token>, q: nat, parse: JsonParser, anyParen: bool): (r: Result<map<string, Value>>)
    ensures r.Ok? ==> ArgsWellFormed(r.value)
    ensures r.Ok? && !(Peek(ts, q).kind == SYMBOL || Peek(ts, q).value == ",") ==> r.value == map[]
    ensures r.Ok? && (Peek(ts, q).kind == SYMBOL || Peek(ts, q).value == ",") ==>
              ReadArgs(parse, Peek(ts, q + 1).value) == Ok(r.value)
  {
    var t := Peek(ts, q);
    if t.kind == SYMBOL || t.value == "," then
      match ReadArgs(parse, Peek(ts, q + 1).value)
      case Err(e) => Err(e)
      case Ok(a) =>
        if Peek(ts, q + 2).kind != PARENTHESIS then Err("Expected closing parenthesis ')' after model_args.")
        else if !Terminates(Peek(ts, q + 3)) then Err(TRAILING_ERROR)
        else Ok(a)
    else if !(IsParen(t, ")") || (anyParen && t.kind == PARENTHESIS)) then
      Err("Expected closing parenthesis ')' or JSON after provider_name.")
    else if !Terminates(Peek(ts, q + 1)) then Err(TRAILING_ERROR)
    else Ok(map[])
  }

  /** `ParseDeleteModel`. */
  function ParseDelete(ts: seq<Token>): (r: Result<ModelStatement>)
    ensures r.Ok? ==> r.value.DeleteModel? && WellFormed(r.value)
  {
    if !IsKeyword(Peek(ts, 1), "MODEL") then Err(UnknownKeyword(Peek(ts, 1)))
    else if !NonEmptyLiteral(Peek(ts, 2)) then Err("Expected non-empty string literal for model name.")
    else if !Terminates(Peek(ts, 3)) then Err(TRAILING_ERROR)
    else Ok(DeleteModel(Peek(ts, 2).value))
  }

  /** `ParseUpdateModel`: a string literal after `MODEL` selects the scope
      change, anything else the definition update. */
  function ParseUpdate(ts: seq<Token>, parse: JsonParser): (r: Result<ModelStatement>)
    ensures r.Ok? ==> (r.value.UpdateModel? || r.value.UpdateModelScope?) && WellFormed(r.value)
    ensures r.Ok? ==> (r.value.UpdateModelScope? <==> Peek(ts, 2).kind == STRING_LITERAL)
  {
    if !IsKeyword(Peek(ts, 1), "MODEL") then Err("Expected 'MODEL' after 'UPDATE'.")
    else if Peek(ts, 2).kind == STRING_LITERAL then ParseUpdateScope(ts)
    else if !IsParen(Peek(ts, 2), "(") then Err("Expected opening parenthesis '(' after 'MODEL'.")
    else
      match ParseSpec(ts, 3, parse, true)
      case Err(e) => Err(e)
      case Ok(x) => Ok(UpdateModel(x.modelName, x.model, x.provider, x.args))
  }

  /** `UPDATE MODEL 'name' TO GLOBAL|LOCAL`; the name may be empty. */
  function ParseUpdateScope(ts: seq<Token>): (r: Result<ModelStatement>)
    ensures r.Ok? ==> r.value.UpdateModelScope? && WellFormed(r.value)
  {
    if !IsKeyword(Peek(ts, 3), "TO") then Err("Expected 'TO' after model name.")
    else if !IsKeyword(Peek(ts, 4), "GLOBAL") && !IsKeyword(Peek(ts, 4), "LOCAL") then
      Err("Expected 'GLOBAL' or 'LOCAL' after 'TO'.")
    else if !Terminates(Peek(ts, 5)) then Err(TRAILING_ERROR)
    else Ok(UpdateModelScope(Peek(ts, 2).value, if IsKeyword(Peek(ts, 4), "GLOBAL") then GLOBAL_CATALOG else ""))
  }

  /** `ParseGetModel`: `MODELS` and a terminator lists every model;
      otherwise a name must follow `MODEL` or `MODELS`. */
  function ParseGet(ts: seq<Token>): (r: Result<ModelStatement>)
    ensures r.Ok? ==> (r.value.GetModel? || r.value.GetAllModels?) && WellFormed(r.value)
    ensures r.Ok? ==> (r.value.GetAllModels? <==> IsKeyword(Peek(ts, 1), "MODELS") && Terminates(Peek(ts, 2)))
  {
    var t := Peek(ts, 1);
    if !IsKeyword(t, "MODEL") && !IsKeyword(t, "MODELS") then Err("Expected 'MODEL' after 'GET'.")
    else if Terminates(Peek(ts, 2)) && IsKeyword(t, "MODELS") then Ok(GetAllModels)
    else if !NonEmptyLiteral(Peek(ts, 2)) then Err("Expected non-empty string literal for model name.")
    else if !Terminates(Peek(ts, 3)) then Err("Unexpected characters after the model name. Only a semicolon is allowed.")
    else Ok(GetModel(Peek(ts, 2).value))
  }

  /** The argument part of a printed definition: nothing, or a separator
      and the JSON text. */
  function ArgsTokens(argsText: Option<string>): (ts: seq<Token>) {
    match argsText
    case None => []
    case Some(text) => [Token(SYMBOL, ","), Token(JSON, text)]
  }

  function SpecTokens(n: string, m: string, p: string, argsText: Option<string>): (ts: seq<Token>) {
    [Token(PARENTHESIS, "("), Lit(n), Token(SYMBOL, ","), Lit(m), Token(SYMBOL, ","), Lit(p)] +
    ArgsTokens(argsText) + [Token(PARENTHESIS, ")")]
  }

  /** The canonical token sequence of a statement; `argsText` is the JSON
      text printed for the arguments of a definition, if any. */
  function Print(s: ModelStatement, argsText: Option<string>): (ts: seq<Token>) {
    match s
    case CreateModel(c, n, m, p, _) => [Kw("CREATE")] + ScopeTokens(c) + [Kw("MODEL")] + SpecTokens(n, m, p, argsText)
    case DeleteModel(n) => [Kw("DELETE"), Kw("MODEL"), Lit(n)]
    case UpdateModel(n, m, p, _) => [Kw("UPDATE"), Kw("MODEL")] + SpecTokens(n, m, p, argsText)
    case UpdateModelScope(n, c) =>
      [Kw("UPDATE"), Kw("MODEL"), Lit(n), Kw("TO"), if c == GLOBAL_CATALOG then Kw("GLOBAL") else Kw("LOCAL")]
    case GetModel(n) => [Kw("GET"), Kw("MODEL"), Lit(n)]
    case GetAllModels => [Kw("GET"), Kw("MODELS")]
  }

  /** `argsText` prints the arguments of `args`: absent for no arguments,
      otherwise a text the JSON parser reads back to exactly `args`. */
  predicate PrintsArgs(parse: JsonParser, argsText: Option<string>, args: map<string, Value>) {
    match argsText
    case None => args == map[]
    case Some(text) => ReadArgs(parse, text) == Ok(args)
  }

  predicate ArgsPrinted(s: ModelStatement, parse: JsonParser, argsText: Option<string>) {
    match s
    case CreateModel(_, _, _, _, a) => PrintsArgs(parse, argsText, a)
    case UpdateModel(_, _, _, a) => PrintsArgs(parse, argsText, a)
    case _ => argsText.None?
  }

  /** Parsing a printed well-formed statement, followed by anything that may
      end a statement, gives the statement back. */
  lemma ParsePrint(s: ModelStatement, parse: JsonParser, argsText: Option<string>, rest: seq<Token>)
    requires WellFormed(s) && ArgsPrinted(s, parse, argsText) && Terminates(Peek(rest, 0))
    ensures Parse(Print(s, argsText) + rest, parse) == Ok(s)
  {
    PeekAppend(Print(s, argsText), rest);
    KeywordsFixed();
    if s.CreateModel? {
      CreatePrint(s, parse, argsText, rest);
    } else if s.DeleteModel? {
    } else if s.UpdateModel? || s.UpdateModelScope? {
      UpdatePrint(s, parse, argsText, rest);
    } else {
      GetPrint(s, rest);
    }
  }

  /** The definition part reads back from its printed tokens. */
  lemma SpecPrint(pre: seq<Token>, n: string, m: string, p: string, parse: JsonParser, argsText: Option<string>,
                  a: map<string, Value>, rest: seq<Token>, anyParen: bool)
    requires n != "" && m != "" && p != "" && PrintsArgs(parse, argsText, a) && Terminates(Peek(rest, 0))
    ensures ParseSpec(pre + SpecTokens(n, m, p, argsText) + rest, |pre| + 1, parse, anyParen) == Ok(Spec(n, m, p, a))
  {
    var ts := pre + SpecTokens(n, m, p, argsText) + rest;
    var q := |pre| + 6;
    assert ts == (pre + SpecTokens(n, m, p, argsText)) + rest;
    PeekAppend(pre + SpecTokens(n, m, p, argsText), rest);
    assert Peek(ts, |pre| + 1) == Lit(n) && Peek(ts, |pre| + 3) == Lit(m) && Peek(ts, |pre| + 5) == Lit(p);
    assert Peek(ts, |pre| + 2) == Token(SYMBOL, ",") && Peek(ts, |pre| + 4) == Token(SYMBOL, ",");
    if argsText.Some? {
      assert Peek(ts, q) == Token(SYMBOL, ",") && Peek(ts, q + 1) == Token(JSON, argsText.value);
      assert Peek(ts, q + 2) == Token(PARENTHESIS, ")") && Peek(ts, q + 3) == Peek(rest, 0);
    } else {
      assert Peek(ts, q) == Token(PARENTHESIS, ")") && Peek(ts, q + 1) == Peek(rest, 0);
    }
  }

  lemma CreatePrint(s: ModelStatement, parse: JsonParser, argsText: Option<string>, rest: seq<Token>)
    requires s.CreateModel? && WellFormed(s) && ArgsPrinted(s, parse, argsText) && Terminates(Peek(rest, 0))
    ensures ParseCreate(Print(s, argsText) + rest, parse) == Ok(s)
  {
    KeywordsFixed();
    var spec := SpecTokens(s.modelName, s.model, s.provider, argsText);
    var pre := [Kw("CREATE")] + ScopeTokens(s.catalog) + [Kw("MODEL")];
    var ts := Print(s, argsText) + rest;
    assert ts == pre + spec + rest;
    SpecPrint(pre, s.modelName, s.model, s.provider, parse, argsText, s.args, rest, false);
    PeekAppend(pre, spec + rest);
    assert Peek(ts, |pre|) == Token(PARENTHESIS, "(");
    if s.catalog == GLOBAL_CATALOG {
      assert Peek(ts, 1) == Kw("GLOBAL") && Peek(ts, 2) == Kw("MODEL");
    } else {
      assert Peek(ts, 1) == Kw("MODEL");
    }
  }

  lemma UpdatePrint(s: ModelStatement, parse: JsonParser, argsText: Option<string>, rest: seq<Token>)
    requires (s.UpdateModel? || s.UpdateModelScope?) && WellFormed(s) && ArgsPrinted(s, parse, argsText)
    requires Terminates(Peek(rest, 0))
    ensures ParseUpdate(Print(s, argsText) + rest, parse) == Ok(s)
  {
    if s.UpdateModel? {
      UpdateSpecPrint(s, parse, argsText, rest);
    } else {
      KeywordsFixed();
      PeekAppend(Print(s, argsText), rest);
    }
  }

  lemma UpdateSpecPrint(s: ModelStatement, parse: JsonParser, argsText: Option<string>, rest: seq<Token>)
    requires s.UpdateModel? && WellFormed(s) && ArgsPrinted(s, parse, argsText) && Terminates(Peek(rest, 0))
    ensures ParseUpdate(Print(s, argsText) + rest, parse) == Ok(s)
  {
    KeywordsFixed();
    var spec := SpecTokens(s.modelName, s.newModel, s.provider, argsText);
    var pre := [Kw("UPDATE"), Kw("MODEL")];
    var ts := Print(s, argsText) + rest;
    assert ts == pre + spec + rest;
    SpecPrint(pre, s.modelName, s.newModel, s.provider, parse, argsText, s.newArgs, rest, true);
    PeekAppend(pre, spec + rest);
    assert Peek(ts, 1) == Kw("MODEL") && Peek(ts, 2) == Token(PARENTHESIS, "(");
  }

  lemma GetPrint(s: ModelStatement, rest: seq<Token>)
    requires (s.GetModel? || s.GetAllModels?) && WellFormed(s) && Terminates(Peek(rest, 0))
    ensures ParseGet(Print(s, None) + rest) == Ok(s)
  {
    KeywordsFixed();
    PeekAppend(Print(s, None), rest);
  }
}
