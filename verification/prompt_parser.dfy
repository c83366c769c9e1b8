/** The prompt DDL (`PromptParser::Parse` and its four sub-parsers) over a
    token sequence:
      CREATE [GLOBAL|LOCAL] PROMPT ( 'name' , 'text' )
      DELETE PROMPT 'name'
      UPDATE PROMPT 'name' TO GLOBAL|LOCAL
      UPDATE PROMPT ( 'name' , 'text' )
      GET PROMPTS | GET PROMPT[S] 'name'
    each followed by a terminator. */
module PromptParser {
  import opened Wrappers
  import opened Text
  import opened Tokens

  datatype PromptStatement =
    | CreatePrompt(catalog: string, promptName: string, prompt: string)
    | DeletePrompt(promptName: string)
    | UpdatePrompt(promptName: string, newPrompt: string)
    | UpdatePromptScope(promptName: string, catalog: string)
    | GetPrompt(promptName: string)
    | GetAllPrompts

  /** What a parsed statement always satisfies: names and texts read from
      non-empty literals (the scope change alone accepts an empty name), and
      one of the two catalogs. */
  predicate WellFormed(s: PromptStatement) {
    match s
    case CreatePrompt(c, n, p) => IsCatalog(c) && n != "" && p != ""
    case DeletePrompt(n) => n != ""
    case UpdatePrompt(n, p) => n != "" && p != ""
    case UpdatePromptScope(_, c) => IsCatalog(c)
    case GetPrompt(n) => n != ""
    case GetAllPrompts => true
  }

  /** `PromptParser::Parse`: dispatch on the leading keyword. */
  function Parse(ts: seq<Token>): (r: Result<PromptStatement>)
    ensures r.Ok? ==> WellFormed(r.value)
    ensures r.Ok? ==> Peek(ts, 0).kind == KEYWORD
  {
    var t := Peek(ts, 0);
    var word := Upper(t.value);
    if t.kind != KEYWORD then Err(UnknownKeyword(t))
    else if word == "CREATE" then ParseCreate(ts)
    else if word == "DELETE" then ParseDelete(ts)
    else if word == "UPDATE" then ParseUpdate(ts)
    else if word == "GET" then ParseGet(ts)
    else Err(UnknownKeyword(t))
  }

  /** `ParseCreatePrompt`, reading from position 1. */
  function ParseCreate(ts: seq<Token>): (r: Result<PromptStatement>)
    ensures r.Ok? ==> r.value.CreatePrompt? && WellFormed(r.value)
    ensures r.Ok? ==> (r.value.catalog == GLOBAL_CATALOG <==> IsKeyword(Peek(ts, 1), "GLOBAL"))
  {
    var scoped := IsKeyword(Peek(ts, 1), "GLOBAL") || IsKeyword(Peek(ts, 1), "LOCAL");
    var catalog := if IsKeyword(Peek(ts, 1), "GLOBAL") then GLOBAL_CATALOG else "";
    var p := if scoped then 2 else 1;
    if !IsKeyword(Peek(ts, p), "PROMPT") then Err(UnknownKeyword(Peek(ts, p)))
    else if !IsParen(Peek(ts, p + 1), "(") then Err("Expected opening parenthesis '(' after 'PROMPT'.")
    else if !NonEmptyLiteral(Peek(ts, p + 2)) then Err("Expected non-empty string literal for prompt name.")
    else if !IsSymbol(Peek(ts, p + 3), ",") then Err("Expected comma ',' after prompt name.")
    else if !NonEmptyLiteral(Peek(ts, p + 4)) then Err("Expected non-empty string literal for prompt text.")
    else if !IsParen(Peek(ts, p + 5), ")") then Err("Expected closing parenthesis ')' after prompt text.")
    else if !Terminates(Peek(ts, p + 6)) then Err(TRAILING_ERROR)
    else Ok(CreatePrompt(catalog, Peek(ts, p + 2).value, Peek(ts, p + 4).value))
  }

  /** `ParseDeletePrompt`. */
  function ParseDelete(ts: seq<Token>): (r: Result<PromptStatement>)
    ensures r.Ok? ==> r.value.DeletePrompt? && WellFormed(r.value)
  {
    if !IsKeyword(Peek(ts, 1), "PROMPT") then Err(UnknownKeyword(Peek(ts, 1)))
    else if !NonEmptyLiteral(Peek(ts, 2)) then Err("Expected non-empty string literal for prompt name.")
    else if !Terminates(Peek(ts, 3)) then Err(TRAILING_ERROR)
    else Ok(DeletePrompt(Peek(ts, 2).value))
  }

  /** `ParseUpdatePrompt`: a string literal after `PROMPT` selects the scope
      change, anything else the text update. */
  function ParseUpdate(ts: seq<Token>): (r: Result<PromptStatement>)
    ensures r.Ok? ==> (r.value.UpdatePrompt? || r.value.UpdatePromptScope?) && WellFormed(r.value)
    ensures r.Ok? ==> (r.value.UpdatePromptScope? <==> Peek(ts, 2).kind == STRING_LITERAL)
  {
    if !IsKeyword(Peek(ts, 1), "PROMPT") then Err(UnknownKeyword(Peek(ts, 1)))
    else if Peek(ts, 2).kind == STRING_LITERAL then ParseUpdateScope(ts)
    else ParseUpdateText(ts)
  }

  /** `UPDATE PROMPT 'name' TO GLOBAL|LOCAL`; the name may be empty. */
  function ParseUpdateScope(ts: seq<Token>): (r: Result<PromptStatement>)
    ensures r.Ok? ==> r.value.UpdatePromptScope? && WellFormed(r.value)
  {
    if !IsKeyword(Peek(ts, 3), "TO") then Err("Expected 'TO' after prompt name.")
    else if !IsKeyword(Peek(ts, 4), "GLOBAL") && !IsKeyword(Peek(ts, 4), "LOCAL") then
      Err("Expected 'GLOBAL' or 'LOCAL' after 'TO'.")
    else if !Terminates(Peek(ts, 5)) then Err(TRAILING_ERROR)
    else Ok(UpdatePromptScope(Peek(ts, 2).value, if IsKeyword(Peek(ts, 4), "GLOBAL") then GLOBAL_CATALOG else ""))
  }

  /** `UPDATE PROMPT ( 'name' , 'text' )`. */
  function ParseUpdateText(ts: seq<Token>): (r: Result<PromptStatement>)
    ensures r.Ok? ==> r.value.UpdatePrompt? && WellFormed(r.value)
  {
    if !IsParen(Peek(ts, 2), "(") then Err("Expected opening parenthesis '(' after 'PROMPT'.")
    else if !NonEmptyLiteral(Peek(ts, 3)) then Err("Expected non-empty string literal for prompt name.")
    else if !IsSymbol(Peek(ts, 4), ",") then Err("Expected comma ',' after prompt name.")
    else if !NonEmptyLiteral(Peek(ts, 5)) then Err("Expected non-empty string literal for new prompt text.")
    else if !IsParen(Peek(ts, 6), ")") then Err("Expected closing parenthesis ')' after new prompt text.")
    else if !Terminates(Peek(ts, 7)) then Err(TRAILING_ERROR)
    else Ok(UpdatePrompt(Peek(ts, 3).value, Peek(ts, 5).value))
  }

  /** `ParseGetPrompt`: `PROMPTS` and a terminator lists every prompt;
      otherwise a name must follow `PROMPT` or `PROMPTS`. */
  function ParseGet(ts: seq<Token>): (r: Result<PromptStatement>)
    ensures r.Ok? ==> (r.value.GetPrompt? || r.value.GetAllPrompts?) && WellFormed(r.value)
    ensures r.Ok? ==> (r.value.GetAllPrompts? <==> IsKeyword(Peek(ts, 1), "PROMPTS") && Terminates(Peek(ts, 2)))
  {
    var t := Peek(ts, 1);
    if !IsKeyword(t, "PROMPT") && !IsKeyword(t, "PROMPTS") then Err(UnknownKeyword(t))
    else if Terminates(Peek(ts, 2)) && IsKeyword(t, "PROMPTS") then Ok(GetAllPrompts)
    else if !NonEmptyLiteral(Peek(ts, 2)) then Err("Expected non-empty string literal for prompt name.")
    else if !Terminates(Peek(ts, 3)) then Err("Unexpected characters after the prompt name. Only a semicolon is allowed.")
    else Ok(GetPrompt(Peek(ts, 2).value))
  }

  /** The canonical token sequence of a statement. */
  function Print(s: PromptStatement): (ts: seq<Token>) {
    match s
    case CreatePrompt(c, n, p) =>
      [Kw("CREATE")] + ScopeTokens(c) + [Kw("PROMPT"), Token(PARENTHESIS, "("), Lit(n), Token(SYMBOL, ","), Lit(p), Token(PARENTHESIS, ")")]
    case DeletePrompt(n) => [Kw("DELETE"), Kw("PROMPT"), Lit(n)]
    case UpdatePrompt(n, p) =>
      [Kw("UPDATE"), Kw("PROMPT"), Token(PARENTHESIS, "("), Lit(n), Token(SYMBOL, ","), Lit(p), Token(PARENTHESIS, ")")]
    case UpdatePromptScope(n, c) =>
      [Kw("UPDATE"), Kw("PROMPT"), Lit(n), Kw("TO"), if c == GLOBAL_CATALOG then Kw("GLOBAL") else Kw("LOCAL")]
    case GetPrompt(n) => [Kw("GET"), Kw("PROMPT"), Lit(n)]
    case GetAllPrompts => [Kw("GET"), Kw("PROMPTS")]
  }

  /** Parsing a printed well-formed statement, followed by anything that may
      end a statement, gives the statement back. */
  lemma ParsePrint(s: PromptStatement, rest: seq<Token>)
    requires WellFormed(s) && Terminates(Peek(rest, 0))
    ensures Parse(Print(s) + rest) == Ok(s)
  {
    PeekAppend(Print(s), rest);
    KeywordsFixed();
    if s.CreatePrompt? {
      CreatePrint(s, rest);
    } else if s.DeletePrompt? {
    } else if s.UpdatePrompt? || s.UpdatePromptScope? {
      UpdatePrint(s, rest);
    } else {
      GetPrint(s, rest);
    }
  }

  lemma CreatePrint(s: PromptStatement, rest: seq<Token>)
    requires s.CreatePrompt? && WellFormed(s) && Terminates(Peek(rest, 0))
    ensures ParseCreate(Print(s) + rest) == Ok(s)
  {
    KeywordsFixed();
    PeekAppend(Print(s), rest);
  }

  lemma UpdatePrint(s: PromptStatement, rest: seq<Token>)
    requires (s.UpdatePrompt? || s.UpdatePromptScope?) && WellFormed(s) && Terminates(Peek(rest, 0))
    ensures ParseUpdate(Print(s) + rest) == Ok(s)
  {
    KeywordsFixed();
    PeekAppend(Print(s), rest);
  }

  lemma GetPrint(s: PromptStatement, rest: seq<Token>)
    requires (s.GetPrompt? || s.GetAllPrompts?) && WellFormed(s) && Terminates(Peek(rest, 0))
    ensures ParseGet(Print(s) + rest) == Ok(s)
  {
    KeywordsFixed();
    PeekAppend(Print(s), rest);
  }
}
