/** The token stream the DDL parsers read. The tokenizer itself is not part of
    this model: a query is given as its token sequence, and reading past the
    last token yields the end-of-file token, as the tokenizer does at the end
    of the input. */
module Tokens {
  import opened Text

  datatype TokenType = KEYWORD | STRING_LITERAL | JSON | SYMBOL | NUMBER | PARENTHESIS | COMMENT | END_OF_FILE | UNKNOWN

  datatype Token = Token(kind: TokenType, value: string)

  const EOF: Token := Token(END_OF_FILE, "")

  /** The catalog prefix a `GLOBAL` statement targets; `LOCAL` or no scope
      gives the empty prefix. */
  const GLOBAL_CATALOG: string := "flock_storage."

  const TRAILING_ERROR: string := "Unexpected characters after the closing parenthesis. Only a semicolon is allowed."

  /** The token at position `i`, the end-of-file token past the end. */
  function Peek(ts: seq<Token>, i: nat): (t: Token)
    ensures i < |ts| ==> t == ts[i]
    ensures i >= |ts| ==> t == EOF
  {
    if i < |ts| then ts[i] else EOF
  }

  /** Reading a sequence followed by more tokens. */
  lemma PeekAppend(a: seq<Token>, b: seq<Token>)
    ensures forall i :: 0 <= i < |a| ==> Peek(a + b, i) == a[i]
    ensures Peek(a + b, |a|) == Peek(b, 0)
  {
  }

  /** A keyword token spelling `word` in any letter case. */
  predicate IsKeyword(t: Token, word: string) {
    t.kind == KEYWORD && Upper(t.value) == word
  }

  predicate IsSymbol(t: Token, s: string) {
    t.kind == SYMBOL && t.value == s
  }

  predicate IsParen(t: Token, s: string) {
    t.kind == PARENTHESIS && t.value == s
  }

  predicate NonEmptyLiteral(t: Token) {
    t.kind == STRING_LITERAL && t.value != ""
  }

  /** What may follow a complete statement: the end, any symbol, or a token
      whose text is `;`. */
  predicate Terminates(t: Token) {
    t.kind == END_OF_FILE || t.kind == SYMBOL || t.value == ";"
  }

  function UnknownKeyword(t: Token): (e: string) {
    "Unknown keyword: " + t.value
  }

  /** Text without lower-case ASCII letters is its own upper-case form, so a
      keyword printed in upper case is recognised. */
  lemma UpperFixed(w: string)
    requires forall i :: 0 <= i < |w| ==> !('a' <= w[i] <= 'z')
    ensures Upper(w) == w
  {
  }

  function Kw(word: string): (t: Token)
    ensures t.kind == KEYWORD && t.value == word
  {
    Token(KEYWORD, word)
  }

  /** The keywords the DDL prints are upper case already. */
  lemma KeywordsFixed()
    ensures Upper("CREATE") == "CREATE" && Upper("DELETE") == "DELETE" && Upper("UPDATE") == "UPDATE"
    ensures Upper("GET") == "GET" && Upper("GLOBAL") == "GLOBAL" && Upper("LOCAL") == "LOCAL" && Upper("TO") == "TO"
    ensures Upper("MODEL") == "MODEL" && Upper("MODELS") == "MODELS"
    ensures Upper("PROMPT") == "PROMPT" && Upper("PROMPTS") == "PROMPTS"
  {
    UpperFixed("CREATE");
    UpperFixed("DELETE");
    UpperFixed("UPDATE");
    UpperFixed("GET");
    UpperFixed("GLOBAL");
    UpperFixed("LOCAL");
    UpperFixed("TO");
    UpperFixed("MODEL");
    UpperFixed("MODELS");
    UpperFixed("PROMPT");
    UpperFixed("PROMPTS");
  }

  function Lit(s: string): (t: Token) {
    Token(STRING_LITERAL, s)
  }

  /** The scope keyword printed for a catalog. */
  function ScopeTokens(catalog: string): (ts: seq<Token>)
    ensures catalog == GLOBAL_CATALOG ==> |ts| == 1 && ts[0] == Token(KEYWORD, "GLOBAL")
    ensures catalog != GLOBAL_CATALOG ==> ts == []
  {
    if catalog == GLOBAL_CATALOG then [Kw("GLOBAL")] else []
  }

  predicate IsCatalog(c: string) {
    c == "" || c == GLOBAL_CATALOG
  }
}
