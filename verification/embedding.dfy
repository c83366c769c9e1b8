/** `llm_embedding` over one chunk of rows: the inputs may only hold
    `context_columns`, no column may be typed `image`, each row's cells are
    joined into one text, the texts go to the provider in consecutive
    batches, and the embeddings of every response come back flattened in
    order. */
module Embedding {
  import opened Wrappers
  import opened Json
  import opened Columns
  import InputParser
  import Text
  import ScalarFunctions

  const CONTEXT_COLUMNS: string := "context_columns"
  const IMAGE_ERROR: string := "Image embedding is not supported yet. Please use text data for embedding."
  /** Shortened form of the library's `type_error.302` message for a value
      read as a number. */
  const NUMBER_ERROR: string := "type must be number"

  function UnexpectedKeyError(key: string): string {
    "Unexpected key in inputs: " + key
  }

  // ------------------------------------------------------------ the checks

  /** The keys of the inputs other than `context_columns`. */
  function Unexpected(inputs: Value): set<string> {
    if inputs.Obj? then inputs.fields.Keys - {CONTEXT_COLUMNS} else {}
  }

  /** The key check: the library visits an object's keys in sorted order,
      so the key reported is the least one that is not `context_columns`. */
  function CheckKeys(inputs: Value): (r: Option<string>)
    ensures r.None? <==> Unexpected(inputs) == {}
    ensures r.Some? ==> exists k :: InputParser.LeastOf(k, Unexpected(inputs)) && r.value == UnexpectedKeyError(k)
  {
    var keys := Unexpected(inputs);
    if keys == {} then None
    else
      var k := InputParser.Least(keys);
      assert InputParser.LeastOf(k, keys);
      Some(UnexpectedKeyError(k))
  }

  /** The error one entry of `context_columns` raises in the type check: a
      `type` that is not a string cannot be read, and `image` is refused. */
  function TypeError(column: Value): Option<string> {
    if column.Obj? && "type" in column.fields then
      match AsString(column.fields["type"])
      case Err(e) => Some(e)
      case Ok(t) => if t == "image" then Some(IMAGE_ERROR) else None
    else None
  }

  /** The type check over the entries of `context_columns`, in order: the
      error of the first entry that raises one. */
  function CheckTypes(columns: seq<Value>): (r: Option<string>)
    ensures r.None? <==> forall i :: 0 <= i < |columns| ==> TypeError(columns[i]).None?
    ensures r.Some? ==> exists i :: (0 <= i < |columns| && TypeError(columns[i]) == r &&
                                     forall j :: 0 <= j < i ==> TypeError(columns[j]).None?)
  {
    if |columns| == 0 then None
    else if TypeError(columns[0]).Some? then
      TypeError(columns[0])
    else
      var rest := CheckTypes(columns[1..]);
      assert forall i :: 1 <= i < |columns| ==> columns[i] == columns[1..][i - 1];
      rest
  }

  /** A column without a type, or typed by a string other than `image`. */
  predicate TextTyped(column: Value) {
    column.Obj? && "type" in column.fields ==> column.fields["type"].Str? && column.fields["type"].s != "image"
  }

  /** Only an image column, or a column whose type is not a string, is
      refused by the type check. */
  lemma {:induction false} TextColumnsPass(columns: seq<Value>)
    requires forall i :: 0 <= i < |columns| ==> TextTyped(columns[i])
    ensures CheckTypes(columns).None?
  {
    forall i | 0 <= i < |columns|
      ensures TypeError(columns[i]).None?
    {
    }
  }

  // ------------------------------------------------------------ the inputs

  /** The texts of a row, each followed by one space, in column order. */
  function Spaced(cells: seq<string>): (s: string)
  {
    if |cells| == 0 then "" else cells[0] + " " + Spaced(cells[1..])
  }

  lemma {:induction false} SpacedSnoc(cells: seq<string>, cell: string)
    ensures Spaced(cells + [cell]) == Spaced(cells) + cell + " "
  {
    if |cells| > 0 {
      assert (cells + [cell])[1..] == cells[1..] + [cell];
      SpacedSnoc(cells[1..], cell);
    } else {
      assert [cell][1..] == [];
    }
  }

  predicate NoSpace(w: string) {
    forall i :: 0 <= i < |w| ==> w[i] != ' '
  }

  /** The index of the first space of `s`, `|s|` when there is none. */
  function FirstSpace(s: string): (i: nat)
    ensures i <= |s| && NoSpace(s[..i]) && (i < |s| ==> s[i] == ' ')
  {
    if |s| == 0 || s[0] == ' ' then 0
    else
      var i := 1 + FirstSpace(s[1..]);
      assert forall j :: 1 <= j < i ==> s[..i][j] == s[1..][..i - 1][j - 1];
      i
  }

  /** The cells of a text in which each cell is followed by a space. */
  function Unspaced(s: string): (cells: seq<string>)
    decreases |s|
  {
    var i := FirstSpace(s);
    if i == |s| then (if |s| == 0 then [] else [s])
    else [s[..i]] + Unspaced(s[i + 1..])
  }

  /** Joining is undone by splitting at the spaces, as long as no cell
      holds a space of its own: distinct rows of space-free cells give
      distinct embedding inputs. */
  lemma {:induction false} UnspacedSpaced(cells: seq<string>)
    requires forall i :: 0 <= i < |cells| ==> NoSpace(cells[i])
    ensures Unspaced(Spaced(cells)) == cells
  {
    if |cells| > 0 {
      var w, rest := cells[0], Spaced(cells[1..]);
      var s := w + " " + rest;
      FirstSpaceAfterWord(w, rest);
      assert s[..|w|] == w && s[|w| + 1..] == rest;
      UnspacedSpaced(cells[1..]);
      assert [w] + cells[1..] == cells;
    }
  }

  lemma FirstSpaceAfterWord(w: string, rest: string)
    requires NoSpace(w)
    ensures FirstSpace(w + " " + rest) == |w|
  {
    var s := w + " " + rest;
    assert s[|w|] == ' ';
    assert forall j :: 0 <= j < |w| ==> s[j] == w[j];
    assert forall j :: 0 <= j <= |w| ==> s[..j] == w[..j];
  }

  /** The text of cell `c` of row `row`; a cell that is not a string
      counts as empty (the inputs are only built when every cell is one). */
  function Cell(b: Batch, c: nat, row: nat): string
    requires c < |b|
  {
    var v := At(b[c].data, row);
    if v.Str? then v.s else ""
  }

  function Cells(b: Batch, row: nat): (cells: seq<string>)
    ensures |cells| == |b| && forall c :: 0 <= c < |b| ==> cells[c] == Cell(b, c, row)
  {
    seq(|b|, c requires 0 <= c < |b| => Cell(b, c, row))
  }

  /** Every cell the inputs read is a string. A missing cell reads as null
      and cannot be read as a string either. */
  predicate Readable(b: Batch) {
    forall row, c :: 0 <= row < RowCount(b) && 0 <= c < |b| ==> At(b[c].data, row).Str?
  }

  /** The prepared inputs: one text per row of the first column, joining
      the row's cells of every column, each followed by a space. */
  method PrepareInputs(b: Batch) returns (r: Result<seq<string>>)
    ensures r.Ok? <==> Readable(b)
    ensures r.Ok? ==> |r.value| == RowCount(b) && forall row :: 0 <= row < RowCount(b) ==> r.value[row] == Spaced(Cells(b, row))
    ensures r.Err? ==> r.error == TYPE_ERROR
  {
    var inputs: seq<string> := [];
    for row := 0 to RowCount(b)
      invariant |inputs| == row && forall k :: 0 <= k < row ==> inputs[k] == Spaced(Cells(b, k))
      invariant forall k, c :: 0 <= k < row && 0 <= c < |b| ==> At(b[c].data, k).Str?
    {
      var text: string := "";
      for c := 0 to |b|
        invariant text == Spaced(Cells(b, row)[..c])
        invariant forall c' :: 0 <= c' < c ==> At(b[c'].data, row).Str?
      {
        var cell := AsString(At(b[c].data, row));
        if cell.Err? {
          return Err(cell.error);
        }
        SpacedSnoc(Cells(b, row)[..c], cell.value);
        assert Cells(b, row)[..c + 1] == Cells(b, row)[..c] + [cell.value];
        text := text + cell.value + " ";
      }
      assert Cells(b, row)[..|b|] == Cells(b, row);
      inputs := inputs + [text];
    }
    r := Ok(inputs);
  }

  // ---------------------------------------------------------- the requests

  /** The batch size the requests use: the model's, unless it is zero or
      more than the inputs, in which case all inputs go in one request. The
      source compares the signed size with the unsigned input count, so a
      negative size is converted to a huge unsigned one and also means all
      inputs. */
  function EffectiveBatchSize(modelBatchSize: int, n: nat): (bs: nat)
    ensures n > 0 ==> 0 < bs <= n
    ensures 0 < modelBatchSize <= n ==> bs == modelBatchSize
    ensures modelBatchSize <= 0 || modelBatchSize > n ==> bs == n
  {
    if modelBatchSize == 0 || modelBatchSize < 0 || modelBatchSize > n then n else modelBatchSize
  }

  function Concat<T>(xss: seq<seq<T>>): seq<T> {
    if |xss| == 0 then [] else xss[0] + Concat(xss[1..])
  }

  /** The requests: consecutive runs of `bs` inputs, the last one shorter
      when `bs` does not divide the count. */
  function Chunks(xs: seq<string>, bs: nat): (r: seq<seq<string>>)
    requires bs > 0
    ensures Concat(r) == xs
    ensures forall i :: 0 <= i < |r| ==> 0 < |r[i]| <= bs
    ensures forall i :: 0 <= i < |r| - 1 ==> |r[i]| == bs
    decreases |xs|
  {
    if |xs| == 0 then []
    else if |xs| <= bs then
      assert Concat([xs]) == xs + Concat<string>([]);
      [xs]
    else
      var rest := Chunks(xs[bs..], bs);
      assert ([xs[..bs]] + rest)[1..] == rest;
      [xs[..bs]] + rest
  }

  /** The batches are fixed by the inputs: any split into full runs of
      `bs` followed by a shorter non-empty last run is the one `Chunks`
      makes. */
  lemma {:induction false} ChunksUnique(xs: seq<string>, bs: nat, split: seq<seq<string>>)
    requires bs > 0 && Concat(split) == xs
    requires forall i :: 0 <= i < |split| ==> 0 < |split[i]| <= bs
    requires forall i :: 0 <= i < |split| - 1 ==> |split[i]| == bs
    ensures split == Chunks(xs, bs)
    decreases |xs|
  {
    if |split| > 0 {
      var rest := split[1..];
      assert forall i :: 0 <= i < |rest| ==> rest[i] == split[i + 1];
      if |rest| > 0 {
        ConcatLength(rest);
        assert xs == split[0] + Concat(rest);
        assert xs[..bs] == split[0] && xs[bs..] == Concat(rest);
        ChunksUnique(xs[bs..], bs, rest);
      } else {
        assert xs == split[0] + Concat<string>([]);
      }
    }
  }

  lemma {:induction false} ConcatLength<T>(xss: seq<seq<T>>)
    requires |xss| > 0 && |xss[0]| > 0
    ensures |Concat(xss)| > 0
  {
  }

  // --------------------------------------------------------- the responses

  /** The embeddings of every response, in order; a value that is not a
      number cannot be read as a double. */
  function Flatten(responses: seq<seq<seq<Value>>>): (r: Result<seq<seq<Value>>>)
    ensures r.Ok? <==> forall i, j, k :: 0 <= i < |responses| && 0 <= j < |responses[i]| && 0 <= k < |responses[i][j]| ==>
                                        IsNumber(responses[i][j][k])
    ensures r.Ok? ==> r.value == Concat(responses)
    ensures r.Err? ==> r.error == NUMBER_ERROR
  {
    if |responses| == 0 then Ok([])
    else if exists j, k :: 0 <= j < |responses[0]| && 0 <= k < |responses[0][j]| && !IsNumber(responses[0][j][k]) then
      Err(NUMBER_ERROR)
    else
      var rest := Flatten(responses[1..]);
      if rest.Err? then
        var i, j, k :| 0 <= i < |responses[1..]| && 0 <= j < |responses[1..][i]| && 0 <= k < |responses[1..][i][j]| &&
                       !IsNumber(responses[1..][i][j][k]);
        assert !IsNumber(responses[i + 1][j][k]);
        rest
      else
        assert forall i :: 1 <= i < |responses| ==> responses[i] == responses[1..][i - 1];
        Ok(responses[0] + rest.value)
  }

  predicate IsNumber(v: Value) {
    v.Int? || v.Real?
  }

  // --------------------------------------------------------- the operation

  /** `CollectEmbeddings` over the queued requests: one response per
      request, each a list of embeddings, or the error the batch raised. */
  type Collector = seq<seq<string>> -> Result<seq<seq<seq<Value>>>>

  /** The entries of `context_columns`: none when it is not an array. */
  function Entries(ctx: Value): seq<Value> {
    if ctx.Arr? then ctx.items else []
  }

  /** Which requests `Operation` sends for the inputs `inputs`: none for no
      inputs, otherwise the batches of the effective size. */
  function Requests(inputs: seq<string>, modelBatchSize: int): (rs: seq<seq<string>>)
    ensures Concat(rs) == inputs
  {
    if |inputs| == 0 then [] else Chunks(inputs, EffectiveBatchSize(modelBatchSize, |inputs|))
  }

  /** `LlmEmbedding::Operation`. `requests` is what was queued on the
      model; the collector is asked once, and only when something was
      queued. */
  method Operation(rows: seq<InputParser.SqlValue>, show: InputParser.SqlValue -> string, modelBatchSize: int,
                   collect: Collector)
    returns (r: Result<seq<seq<Value>>>, requests: seq<seq<string>>)
    ensures InputParser.CastVectorOfStructsToJson(rows, show).Err? ==>
      r == Err(InputParser.CastVectorOfStructsToJson(rows, show).error) && requests == []
    ensures InputParser.CastVectorOfStructsToJson(rows, show).Ok? ==>
      var json := InputParser.CastVectorOfStructsToJson(rows, show).value;
      var ctx := ScalarFunctions.ContextColumns(json);
      && (CheckKeys(json).Some? ==> r == Err(CheckKeys(json).value) && requests == [])
      && (CheckKeys(json).None? && CheckTypes(Entries(ctx)).Some? ==>
            r == Err(CheckTypes(Entries(ctx)).value) && requests == [])
      && (CheckKeys(json).None? && CheckTypes(Entries(ctx)).None? && ScalarFunctions.ColumnsOf(ctx).Err? ==>
            r == Err(INDEX_ERROR) && requests == [])
      && (CheckKeys(json).None? && CheckTypes(Entries(ctx)).None? && ScalarFunctions.ColumnsOf(ctx).Ok? ==>
            var b := ScalarFunctions.ColumnsOf(ctx).value;
            && (!Readable(b) ==> r == Err(TYPE_ERROR) && requests == [])
            && (Readable(b) ==>
                  && |Concat(requests)| == RowCount(b)
                  && (forall row :: 0 <= row < RowCount(b) ==> Concat(requests)[row] == Spaced(Cells(b, row)))
                  && requests == Requests(Concat(requests), modelBatchSize)
                  && (requests == [] ==> r == Ok([]))
                  && (requests != [] && collect(requests).Err? ==> r == Err(collect(requests).error))
                  && (requests != [] && collect(requests).Ok? ==> r == Flatten(collect(requests).value))))
  {
    requests := [];
    var json := InputParser.CastVectorOfStructsToJson(rows, show);
    if json.Err? {
      return Err(json.error), [];
    }
    var keyError := CheckKeys(json.value);
    if keyError.Some? {
      return Err(keyError.value), [];
    }
    var ctx := ScalarFunctions.ContextColumns(json.value);
    var typeError := CheckTypes(Entries(ctx));
    if typeError.Some? {
      return Err(typeError.value), [];
    }
    var columns := ScalarFunctions.ColumnsOf(ctx);
    if columns.Err? {
      return Err(columns.error), [];
    }
    var inputs := PrepareInputs(columns.value);
    if inputs.Err? {
      return Err(inputs.error), [];
    }
    requests := Requests(inputs.value, modelBatchSize);
    if requests == [] {
      return Ok([]), requests;
    }
    var responses := collect(requests);
    if responses.Err? {
      return Err(responses.error), requests;
    }
    r := Flatten(responses.value);
  }

  /** `LlmEmbedding::Execute`: embedding `i` is written to row `i`. */
  function Execute(count: nat, embeddings: seq<seq<Value>>): (out: seq<Option<seq<Value>>>)
    ensures |out| == count
    ensures forall i :: 0 <= i < count ==> (out[i].Some? <==> i < |embeddings|)
    ensures forall i :: 0 <= i < count && i < |embeddings| ==> out[i] == Some(embeddings[i])
  {
    ScalarFunctions.Written(count, embeddings)
  }
}
