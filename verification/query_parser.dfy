/** The DDL front door (`QueryParser`): the leading-keyword check, the routing
    of a statement to the model or the prompt parser, and the rendering of a
    query result as an inline `VALUES` query. The statements are returned as
    parsed; their translation to storage SQL (`ToSQL`) is not part of this
    model. */
module QueryParser {
  import opened Wrappers
  import opened Text
  import opened Tokens
  import ModelParser
  import PromptParser

  // ---------------------------------------------------------------- quoting

  /** A result cell: `None` is SQL NULL, `Some(text)` a value's `ToString()`. */
  type Cell = Option<string>

  /** One character of a string literal's body: a quote is doubled. */
  function EscapeChar(c: char): (e: string) {
    if c == '\'' then "''" else [c]
  }

  /** The body of a string literal, built left to right. */
  function Escape(s: string): (e: string)
    ensures |s| <= |e|
    decreases |s|
  {
    if |s| == 0 then "" else Escape(s[..|s| - 1]) + EscapeChar(s[|s| - 1])
  }

  /** Reading a literal body back: `''` is one quote, and a quote on its own
      would end the literal, so it is refused. */
  function Unescape(e: string): (r: Option<string>)
    decreases |e|
  {
    if |e| == 0 then Some("")
    else if e[0] != '\'' then
      match Unescape(e[1..])
      case None => None
      case Some(t) => Some([e[0]] + t)
    else if |e| >= 2 && e[1] == '\'' then
      match Unescape(e[2..])
      case None => None
      case Some(t) => Some("'" + t)
    else None
  }

  lemma {:induction false} EscapeAppend(a: string, b: string)
    ensures Escape(a + b) == Escape(a) + Escape(b)
    decreases |b|
  {
    if |b| > 0 {
      var b0 := b[..|b| - 1];
      assert (a + b)[..|a + b| - 1] == a + b0;
      EscapeAppend(a, b0);
    } else {
      assert a + b == a;
    }
  }

  /** Un-doubling the quotes of an escaped body gives the original text. */
  lemma {:induction false} UnescapeEscape(s: string)
    ensures Unescape(Escape(s)) == Some(s)
    decreases |s|
  {
    if |s| > 0 {
      assert s == [s[0]] + s[1..];
      EscapeAppend([s[0]], s[1..]);
      assert Escape([s[0]]) == EscapeChar(s[0]);
      UnescapeEscape(s[1..]);
      var e := Escape(s);
      if s[0] == '\'' {
        assert e[2..] == Escape(s[1..]);
      } else {
        assert e[1..] == Escape(s[1..]);
      }
    }
  }

  /** The SQL text of a cell, as a reference for `FormatValueForSql`. */
  function SqlLiteral(v: Cell): (r: string) {
    match v
    case None => "NULL"
    case Some(s) => "'" + Escape(s) + "'"
  }

  /** Reading an SQL literal back: `NULL`, or a quoted body. */
  function ReadSqlLiteral(r: string): (v: Option<Cell>) {
    if r == "NULL" then Some(None)
    else if |r| >= 2 && r[0] == '\'' && r[|r| - 1] == '\'' then
      match Unescape(r[1..|r| - 1])
      case None => None
      case Some(s) => Some(Some(s))
    else None
  }

  /** Every cell, NULL or not, is recovered from its SQL text; in particular
      the text `NULL` and SQL NULL stay apart. */
  lemma ReadSqlLiteralBack(v: Cell)
    ensures ReadSqlLiteral(SqlLiteral(v)) == Some(v)
  {
    if v.Some? {
      var r := SqlLiteral(v);
      assert r[1..|r| - 1] == Escape(v.value);
      UnescapeEscape(v.value);
    }
  }

  /** `FormatValueForSQL`: NULL, or the value's text with every quote doubled,
      in single quotes. */
  method FormatValueForSql(v: Cell) returns (r: string)
    ensures r == SqlLiteral(v)
  {
    if v.None? {
      return "NULL";
    }
    var str := v.value;
    var escaped := "";
    for i := 0 to |str|
      invariant escaped == Escape(str[..i])
    {
      assert str[..i + 1][..i] == str[..i];
      escaped := escaped + EscapeChar(str[i]);
    }
    assert str[..|str|] == str;
    return "'" + escaped + "'";
  }

  // ------------------------------------------------------- result rendering

  datatype RawTable = RawTable(names: seq<string>, rows: seq<seq<Cell>>)

  /** A materialized result: every row has one cell per column. */
  predicate Rectangular(t: RawTable) {
    forall r :: 0 <= r < |t.rows| ==> |t.rows[r]| == |t.names|
  }

  type Table = t: RawTable | Rectangular(t) witness RawTable([], [])

  const EMPTY_RESULT: string := "SELECT * FROM (VALUES (NULL)) AS empty_result WHERE FALSE"

  function Literals(cells: seq<Cell>): (ls: seq<string>)
    ensures |ls| == |cells|
    ensures forall i :: 0 <= i < |cells| ==> ls[i] == SqlLiteral(cells[i])
    decreases |cells|
  {
    if |cells| == 0 then [] else Literals(cells[..|cells| - 1]) + [SqlLiteral(cells[|cells| - 1])]
  }

  function RowTuple(cells: seq<Cell>): (r: string) {
    "(" + Join(Literals(cells), ", ") + ")"
  }

  function Tuples(rows: seq<seq<Cell>>): (ts: seq<string>)
    ensures |ts| == |rows|
    ensures forall i :: 0 <= i < |rows| ==> ts[i] == RowTuple(rows[i])
    decreases |rows|
  {
    if |rows| == 0 then [] else Tuples(rows[..|rows| - 1]) + [RowTuple(rows[|rows| - 1])]
  }

  function Quoted(names: seq<string>): (qs: seq<string>)
    ensures |qs| == |names|
    ensures forall i :: 0 <= i < |names| ==> qs[i] == "\"" + names[i] + "\""
    decreases |names|
  {
    if |names| == 0 then [] else Quoted(names[..|names| - 1]) + ["\"" + names[|names| - 1] + "\""]
  }

  /** The query a result is rendered as, as a reference for
      `FormatResultsAsValues`. */
  function ValuesQuery(result: Option<Table>): (q: string) {
    if result.None? || |result.value.rows| == 0 then EMPTY_RESULT
    else
      "SELECT * FROM (VALUES " + Join(Tuples(result.value.rows), ", ") + ") AS result(" +
      Join(Quoted(result.value.names), ", ") + ")"
  }

  /** One row: its cells' literals, comma separated, in parentheses. */
  method FormatRow(cells: seq<Cell>) returns (r: string)
    ensures r == RowTuple(cells)
  {
    var body := "";
    for col := 0 to |cells|
      invariant body == Join(Literals(cells[..col]), ", ")
    {
      var literal := FormatValueForSql(cells[col]);
      assert cells[..col + 1][..col] == cells[..col];
      if col > 0 {
        JoinSnoc(Literals(cells[..col]), literal, ", ");
        body := body + ", ";
      }
      body := body + literal;
    }
    assert cells[..|cells|] == cells;
    return "(" + body + ")";
  }

  method FormatRows(rows: seq<seq<Cell>>) returns (r: string)
    ensures r == Join(Tuples(rows), ", ")
  {
    r := "";
    for row := 0 to |rows|
      invariant r == Join(Tuples(rows[..row]), ", ")
    {
      var tuple := FormatRow(rows[row]);
      assert rows[..row + 1][..row] == rows[..row];
      if row > 0 {
        JoinSnoc(Tuples(rows[..row]), tuple, ", ");
        r := r + ", ";
      }
      r := r + tuple;
    }
    assert rows[..|rows|] == rows;
  }

  method FormatNames(names: seq<string>) returns (r: string)
    ensures r == Join(Quoted(names), ", ")
  {
    r := "";
    for i := 0 to |names|
      invariant r == Join(Quoted(names[..i]), ", ")
    {
      var quoted := "\"" + names[i] + "\"";
      assert names[..i + 1][..i] == names[..i];
      if i > 0 {
        JoinSnoc(Quoted(names[..i]), quoted, ", ");
        r := r + ", ";
      }
      r := r + quoted;
    }
    assert names[..|names|] == names;
  }

  /** `FormatResultsAsValues`: a missing or empty result gives the fixed
      empty query; otherwise the rows become parenthesised tuples and the
      column names are double-quoted, both in order. */
  method FormatResultsAsValues(result: Option<Table>) returns (q: string)
    ensures q == ValuesQuery(result)
    ensures result.None? || |result.value.rows| == 0 <==> q == EMPTY_RESULT
  {
    if result.None? || |result.value.rows| == 0 {
      return EMPTY_RESULT;
    }
    var values := FormatRows(result.value.rows);
    var columns := FormatNames(result.value.names);
    q := "SELECT * FROM (VALUES " + values + ") AS result(" + columns + ")";
    assert q[|q| - 1] == ')' && EMPTY_RESULT[|EMPTY_RESULT| - 1] == 'E';
  }

  // ---------------------------------------------------------------- routing

  datatype Statement =
    | ModelStatement(model: ModelParser.ModelStatement)
    | PromptStatement(prompt: PromptParser.PromptStatement)

  predicate IsScope(t: Token) {
    t.kind == KEYWORD && (Upper(t.value) == "GLOBAL" || Upper(t.value) == "LOCAL")
  }

  predicate IsModelWord(t: Token) {
    t.kind == KEYWORD && (Upper(t.value) == "MODEL" || Upper(t.value) == "MODELS")
  }

  predicate IsPromptWord(t: Token) {
    t.kind == KEYWORD && (Upper(t.value) == "PROMPT" || Upper(t.value) == "PROMPTS")
  }

  predicate IsCommand(t: Token) {
    t.kind == KEYWORD &&
    (Upper(t.value) == "CREATE" || Upper(t.value) == "DELETE" || Upper(t.value) == "UPDATE" || Upper(t.value) == "GET")
  }

  /** What the router does once it reaches the deciding token `t`: the whole
      token sequence goes to the parser `t` names. */
  function Route(ts: seq<Token>, t: Token, parse: ModelParser.JsonParser): (r: Result<Statement>) {
    if IsModelWord(t) then
      match ModelParser.Parse(ts, parse)
      case Err(e) => Err(e)
      case Ok(s) => Ok(ModelStatement(s))
    else if IsPromptWord(t) then
      match PromptParser.Parse(ts)
      case Err(e) => Err(e)
      case Ok(s) => Ok(PromptStatement(s))
    else Err(UnknownKeyword(t))
  }

  /** `ParsePromptOrModel` from position `pos`: scope keywords are skipped,
      and the first other token decides. */
  function Dispatch(ts: seq<Token>, pos: nat, parse: ModelParser.JsonParser): (r: Result<Statement>)
    ensures forall k :: pos <= k && !IsScope(Peek(ts, k)) && (forall j :: pos <= j < k ==> IsScope(Peek(ts, j))) ==>
              r == Route(ts, Peek(ts, k), parse)
    decreases |ts| - pos
  {
    var t := Peek(ts, pos);
    if IsScope(t) then Dispatch(ts, pos + 1, parse) else Route(ts, t, parse)
  }

  /** `ParseQuery`: the statement must open with one of the four commands. */
  function ParseQuery(ts: seq<Token>, parse: ModelParser.JsonParser): (r: Result<Statement>)
    ensures !IsCommand(Peek(ts, 0)) ==> r == Err(UnknownKeyword(Peek(ts, 0)))
    ensures IsCommand(Peek(ts, 0)) ==> r == Dispatch(ts, 1, parse)
  {
    if !IsCommand(Peek(ts, 0)) then Err(UnknownKeyword(Peek(ts, 0))) else Dispatch(ts, 1, parse)
  }

  /** The front door hands the whole sequence to the parser named by the
      first token after the command and any scope keywords. */
  lemma FrontDoor(ts: seq<Token>, k: nat, parse: ModelParser.JsonParser)
    requires IsCommand(Peek(ts, 0)) && 1 <= k && !IsScope(Peek(ts, k))
    requires forall j :: 1 <= j < k ==> IsScope(Peek(ts, j))
    ensures ParseQuery(ts, parse) == Route(ts, Peek(ts, k), parse)
  {
  }

  lemma RouteToModel(ts: seq<Token>, t: Token, parse: ModelParser.JsonParser, s: ModelParser.ModelStatement)
    requires IsModelWord(t) && ModelParser.Parse(ts, parse) == Ok(s)
    ensures Route(ts, t, parse) == Ok(ModelStatement(s))
  {
  }

  lemma RouteToPrompt(ts: seq<Token>, t: Token, parse: ModelParser.JsonParser, s: PromptParser.PromptStatement)
    requires IsPromptWord(t) && PromptParser.Parse(ts) == Ok(s)
    ensures Route(ts, t, parse) == Ok(PromptStatement(s))
  {
    KeywordsFixed();
    assert Upper(t.value) != "MODEL" && Upper(t.value) != "MODELS";
  }

  /** Where a printed model statement names its parser: after the command,
      and after the scope keyword when there is one. */
  lemma ModelNaming(s: ModelParser.ModelStatement, argsText: Option<string>, rest: seq<Token>) returns (k: nat)
    ensures var ts := ModelParser.Print(s, argsText) + rest;
      IsCommand(Peek(ts, 0)) && 1 <= k && !IsScope(Peek(ts, k)) && IsModelWord(Peek(ts, k)) &&
      forall j :: 1 <= j < k ==> IsScope(Peek(ts, j))
  {
    var ts := ModelParser.Print(s, argsText) + rest;
    PeekAppend(ModelParser.Print(s, argsText), rest);
    KeywordsFixed();
    k := if s.CreateModel? && s.catalog == GLOBAL_CATALOG then 2 else 1;
  }

  /** Where a printed prompt statement names its parser. */
  lemma PromptNaming(s: PromptParser.PromptStatement, rest: seq<Token>) returns (k: nat)
    ensures var ts := PromptParser.Print(s) + rest;
      IsCommand(Peek(ts, 0)) && 1 <= k && !IsScope(Peek(ts, k)) && IsPromptWord(Peek(ts, k)) &&
      forall j :: 1 <= j < k ==> IsScope(Peek(ts, j))
  {
    var ts := PromptParser.Print(s) + rest;
    PeekAppend(PromptParser.Print(s), rest);
    KeywordsFixed();
    k := if s.CreatePrompt? && s.catalog == GLOBAL_CATALOG then 2 else 1;
  }

  /** A printed model statement comes back through the front door. */
  lemma QueryModelPrint(s: ModelParser.ModelStatement, parse: ModelParser.JsonParser, argsText: Option<string>,
                        rest: seq<Token>)
    requires ModelParser.WellFormed(s) && ModelParser.ArgsPrinted(s, parse, argsText) && Terminates(Peek(rest, 0))
    ensures ParseQuery(ModelParser.Print(s, argsText) + rest, parse) == Ok(ModelStatement(s))
  {
    var ts := ModelParser.Print(s, argsText) + rest;
    ModelParser.ParsePrint(s, parse, argsText, rest);
    var k := ModelNaming(s, argsText, rest);
    FrontDoor(ts, k, parse);
    RouteToModel(ts, Peek(ts, k), parse, s);
  }

  /** A printed prompt statement comes back through the front door. */
  lemma QueryPromptPrint(s: PromptParser.PromptStatement, parse: ModelParser.JsonParser, rest: seq<Token>)
    requires PromptParser.WellFormed(s) && Terminates(Peek(rest, 0))
    ensures ParseQuery(PromptParser.Print(s) + rest, parse) == Ok(PromptStatement(s))
  {
    var ts := PromptParser.Print(s) + rest;
    PromptParser.ParsePrint(s, rest);
    var k := PromptNaming(s, rest);
    FrontDoor(ts, k, parse);
    RouteToPrompt(ts, Peek(ts, k), parse, s);
  }
}
