/** `llm_complete` and `llm_filter` over one chunk of rows: the prompt rows
    are cast to JSON, a call without context columns sends the bound prompt
    alone for one answer, a call with them batches the columns through
    `BatchAndComplete`, and each answer becomes the text written to the
    result vector. Also the start of every scalar `Execute`, which opens a
    metrics invocation under a fresh id. */
module ScalarFunctions {
  import opened Wrappers
  import opened Json
  import opened Columns
  import opened Batching
  import opened ScalarEngine
  import InputParser
  import Metrics
  import MetricsManager

  const DATA: string := "data"

  /** The `context_columns` member of the cast prompt rows; an empty array
      when there is none. */
  function ContextColumns(json: Value): (ctx: Value)
    ensures json.Obj? && "context_columns" in json.fields ==> ctx == json.fields["context_columns"]
    ensures !(json.Obj? && "context_columns" in json.fields) ==> ctx == Arr([])
  {
    if json.Obj? && "context_columns" in json.fields then json.fields["context_columns"] else Arr([])
  }

  /** An entry of `context_columns` the batching code can read: an object
      whose `data` is an array. */
  predicate IsColumn(v: Value) {
    v.Obj? && DATA in v.fields && v.fields[DATA].Arr?
  }

  /** The column an entry of `context_columns` stands for. */
  function ColumnOf(v: Value): (c: Column)
    requires IsColumn(v)
  {
    Column(v.fields[DATA].items, v.fields - {DATA})
  }

  /** The columns of a `context_columns` array. An entry that is not an
      object with a `data` array cannot be read by index, which the library
      reports as an error. */
  function ColumnsOf(ctx: Value): (r: Result<Batch>)
    ensures r.Ok? <==> ctx.Arr? && forall i :: 0 <= i < |ctx.items| ==> IsColumn(ctx.items[i])
    ensures r.Ok? ==> |r.value| == |ctx.items| && forall i :: 0 <= i < |ctx.items| ==> r.value[i] == ColumnOf(ctx.items[i])
    ensures r.Err? ==> r.error == INDEX_ERROR
  {
    if ctx.Arr? && forall i :: 0 <= i < |ctx.items| ==> IsColumn(ctx.items[i]) then
      Ok(seq(|ctx.items|, i requires 0 <= i < |ctx.items| => ColumnOf(ctx.items[i])))
    else Err(INDEX_ERROR)
  }

  /** Reading the columns loses nothing: writing them back as JSON gives
      the array they were read from. */
  lemma ColumnsOfRoundTrip(ctx: Value)
    requires ColumnsOf(ctx).Ok?
    ensures BatchToJson(ColumnsOf(ctx).value) == ctx
  {
    var b := ColumnsOf(ctx).value;
    var back := BatchToJson(b);
    forall i | 0 <= i < |ctx.items|
      ensures back.items[i] == ctx.items[i]
    {
      var f := ctx.items[i].fields;
      assert (f - {DATA})[DATA := f[DATA]] == f;
    }
  }

  /** A batch written as JSON reads back as itself, provided no metadata
      key is `data` (the `data` member carries the rows). */
  lemma BatchReadsBack(b: Batch)
    requires forall i :: 0 <= i < |b| ==> DATA !in b[i].meta
    ensures ColumnsOf(BatchToJson(b)) == Ok(b)
  {
    var v := BatchToJson(b);
    forall i | 0 <= i < |b|
      ensures IsColumn(v.items[i]) && ColumnOf(v.items[i]) == b[i]
    {
      assert b[i].meta["data" := Arr(b[i].data)] - {DATA} == b[i].meta;
    }
    var r := ColumnsOf(v);
    assert r.Ok? && |r.value| == |b|;
    assert forall i :: 0 <= i < |b| ==> r.value[i] == b[i];
    assert r.value == b;
  }

  /** What `llm_filter` writes for one answer: null reads as `"true"`,
      anything else as its JSON dump. */
  function FilterText(v: Value, ser: Serializer): (t: string)
    ensures v.Null? ==> t == "true"
    ensures !v.Null? ==> t == ser.dump(v)
  {
    if v.Null? then "true" else ser.dump(v)
  }

  /** What one answer becomes: `llm_complete` writes a string as it is and
      anything else as its dump; `llm_filter` as `FilterText` says. */
  function AnswerText(v: Value, kind: ScalarKind, ser: Serializer): string {
    if kind == COMPLETE then Shown(v, ser) else FilterText(v, ser)
  }

  function Texts(vs: seq<Value>, kind: ScalarKind, ser: Serializer): (ts: seq<string>)
    ensures |ts| == |vs| && forall i :: 0 <= i < |vs| ==> ts[i] == AnswerText(vs[i], kind, ser)
  {
    seq(|vs|, i requires 0 <= i < |vs| => AnswerText(vs[i], kind, ser))
  }

  /** The request of a call without context columns: the bound prompt
      alone, asking for one output. */
  function SingleRequest(kind: ScalarKind): Request {
    Request([], 1, if kind == FILTER then BOOL else STRING, Null)
  }

  /** `LlmComplete::Operation` and `LlmFilter::Operation` after the model is
      built. `trace` is the provider calls made, in order. */
  method Operation(rows: seq<InputParser.SqlValue>, show: InputParser.SqlValue -> string, kind: ScalarKind,
                   modelBatchSize: int, oracle: Oracle, ser: Serializer)
    returns (r: Result<seq<string>>, trace: seq<Step>)
    ensures InputParser.CastVectorOfStructsToJson(rows, show).Err? ==>
      r == Err(InputParser.CastVectorOfStructsToJson(rows, show).error) && trace == []
    ensures InputParser.CastVectorOfStructsToJson(rows, show).Ok? ==>
      var ctx := ContextColumns(InputParser.CastVectorOfStructsToJson(rows, show).value);
      && (IsEmpty(ctx) ==>
            && trace == [Step(0, 1, SingleRequest(kind), oracle(0))]
            && (r.Ok? <==> oracle(0).Items?)
            && (r.Ok? ==> r.value == [AnswerText(First(oracle(0).items), kind, ser)])
            && (oracle(0).Overflow? ==> r == Err(OVERFLOW_MESSAGE))
            && (oracle(0).Failed? ==> r == Err(oracle(0).msg)))
      && (!IsEmpty(ctx) && ColumnsOf(ctx).Err? ==> r == Err(INDEX_ERROR) && trace == [])
      && (!IsEmpty(ctx) && ColumnsOf(ctx).Ok? ==>
            var b := ColumnsOf(ctx).value;
            var bs := Min(modelBatchSize, RowCount(b));
            && |b| > 0
            && (bs <= 0 ==> r == Err(BATCH_SIZE_ERROR) && trace == [])
            && (bs > 0 ==>
                  && Schedule(trace, RowCount(b), bs) && Faithful(trace, b, kind, oracle)
                  && Stopped(trace[|trace| - 1], RowCount(b))
                  && (r.Ok? <==> Outcome(trace).Ok?)
                  && (r.Ok? ==> r.value == Texts(Outcome(trace).value, kind, ser))
                  && (r.Err? ==> r.error == Outcome(trace).error)))
  {
    var json := InputParser.CastVectorOfStructsToJson(rows, show);
    if json.Err? {
      return Err(json.error), [];
    }
    var ctx := ContextColumns(json.value);
    if IsEmpty(ctx) {
      var step := Step(0, 1, SingleRequest(kind), oracle(0));
      trace := [step];
      r := match step.reply
        case Items(items) => Ok([AnswerText(First(items), kind, ser)])
        case Overflow => Err(OVERFLOW_MESSAGE)
        case Failed(msg) => Err(msg);
      return;
    }
    var columns := ColumnsOf(ctx);
    if columns.Err? {
      return Err(columns.error), [];
    }
    var values;
    values, trace := BatchAndComplete(columns.value, modelBatchSize, kind, oracle);
    r := match values
      case Ok(vs) => Ok(Texts(vs, kind, ser))
      case Err(e) => Err(e);
  }

  // ----------------------------------------------------------- the results

  /** The result vector of `count` rows after result `i` was written to row
      `i` for every result the vector has room for; `None` marks a row
      nothing was written to. */
  function Written<T>(count: nat, results: seq<T>): (out: seq<Option<T>>)
    ensures |out| == count
    ensures forall i :: 0 <= i < count ==> (out[i].Some? <==> i < |results|)
    ensures forall i :: 0 <= i < count && i < |results| ==> out[i] == Some(results[i])
  {
    seq(count, i requires 0 <= i < count => if i < |results| then Some(results[i]) else None)
  }

  /** `LlmComplete::Execute`: a single result is written to every row of
      the chunk; otherwise result `i` goes to row `i`. */
  function ExecuteComplete(count: nat, results: seq<string>): (out: seq<Option<string>>) {
    if |results| == 1 then seq(count, _ => Some(results[0])) else Written(count, results)
  }

  /** `LlmFilter::Execute` as written: result `i` goes to row `i`, also
      when a call without context columns answered once for the whole
      chunk. */
  function ExecuteFilterAsWritten(count: nat, results: seq<string>): (out: seq<Option<string>>) {
    Written(count, results)
  }

  /** `LlmFilter::Execute` as evidently intended: like `llm_complete`, the
      one answer of a call without context columns goes to every row. */
  function ExecuteFilter(count: nat, results: seq<string>): (out: seq<Option<string>>) {
    ExecuteComplete(count, results)
  }

  /** Every row of the chunk gets a result exactly when there is one result
      or at least one per row, and a single result is the answer of every
      row; otherwise rows keep their own results in order. */
  lemma ExecuteCompleteFills(count: nat, results: seq<string>)
    ensures |ExecuteComplete(count, results)| == count
    ensures (forall i :: 0 <= i < count ==> ExecuteComplete(count, results)[i].Some?)
      <==> count == 0 || |results| == 1 || |results| >= count
    ensures |results| == 1 ==> forall i :: 0 <= i < count ==> ExecuteComplete(count, results)[i] == Some(results[0])
    ensures |results| != 1 ==> ExecuteComplete(count, results) == Written(count, results)
  {
    var out := ExecuteComplete(count, results);
    if count > 0 && |results| != 1 && |results| < count {
      assert out[count - 1].None?;
    }
  }

  /** As written, a filter without context columns answers only the first
      row of a chunk of several: the other rows are never written. */
  lemma FilterLeavesRowsUnwritten(count: nat, answer: string)
    requires count > 1
    ensures ExecuteFilterAsWritten(count, [answer])[0] == Some(answer)
    ensures forall i :: 1 <= i < count ==> ExecuteFilterAsWritten(count, [answer])[i].None?
  {
  }

  /** Corrected, the single answer is the filter's verdict on every row,
      and with one result per row each row keeps its own. */
  lemma FilterAnswersEveryRow(count: nat, results: seq<string>)
    requires |results| == 1 || |results| == count
    ensures forall i :: 0 <= i < count ==>
      ExecuteFilter(count, results)[i] == Some(if |results| == 1 then results[0] else results[i])
  {
  }

  // ----------------------------------------------------------- the metrics

  /** The start of every scalar `Execute`: a fresh id from
      `GenerateUniqueId`, then `StartInvocation` on it for the function's
      kind. Returns the managers, the thread's context and the counter. */
  function Begin(ms: MetricsManager.Managers, ctx: MetricsManager.Context, t: Metrics.ThreadId,
                 db: MetricsManager.DbId, counter: nat, kind: Metrics.FunctionType)
    : (r: (MetricsManager.Managers, MetricsManager.Context, nat))
    requires counter < MetricsManager.UINT64_LIMIT
    ensures r.2 < MetricsManager.UINT64_LIMIT
  {
    var (counter', id) := MetricsManager.GenerateUniqueId(counter);
    var (ms', ctx') := MetricsManager.StartInvocation(ms, ctx, t, db, id, kind);
    (ms', ctx', counter')
  }

  /** Until the 64-bit counter wraps, each `Execute` on a database opens
      its invocation under an id no earlier one used, and the updates that
      follow go to that invocation. */
  lemma BeginFresh(ms: MetricsManager.Managers, ctx: MetricsManager.Context, t: Metrics.ThreadId,
                   db: MetricsManager.DbId, counter: nat, kind: Metrics.FunctionType)
    requires db != 0 && counter + 1 < MetricsManager.UINT64_LIMIT
    ensures var r := Begin(ms, ctx, t, db, counter, kind);
      && r.2 == counter + 1 && r.1 == MetricsManager.Context(db, counter + 1, kind)
      && r.0[db] == Metrics.StartInvocation(MetricsManager.Manager(ms, db), t, counter + 1, kind)
      && forall d :: d in ms && d != db ==> r.0[d] == ms[d]
  {
  }
}
