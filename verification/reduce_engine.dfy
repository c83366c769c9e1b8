/** `llm_reduce` (`LlmReduce::ReduceLoop`): the accumulated columns are
    folded batch by batch into one summary; every request carries the
    summary the previous batch produced, and the last summary is the result. */
module ReduceEngine {
  import opened Json
  import opened Wrappers
  import opened Columns
  import opened Batching
  import opened Accumulator

  const SUMMARY_KEY: string := "Previous Batch Summary"

  /** The summary text after the calls of `trace`: the first item of the
      last reply with items, the empty string before any. */
  function LastSummary(trace: seq<Step>): (v: Value)
    ensures (forall i :: 0 <= i < |trace| ==> !trace[i].reply.Items?) ==> v == Str("")
    ensures |trace| > 0 && trace[|trace| - 1].reply.Items? ==> v == First(trace[|trace| - 1].reply.items)
    decreases |trace|
  {
    if |trace| == 0 then Str("")
    else if trace[|trace| - 1].reply.Items? then First(trace[|trace| - 1].reply.items)
    else LastSummary(trace[..|trace| - 1])
  }

  function SummaryObject(text: Value): Value {
    Obj(map[SUMMARY_KEY := text])
  }

  /** Overflows since the last reply with items: the failed attempts whose
      columns are still in the batch array. */
  function TrailingOverflows(trace: seq<Step>): (k: nat)
    ensures k <= |trace|
    ensures k == 0 <==> |trace| == 0 || !trace[|trace| - 1].reply.Overflow?
    decreases |trace|
  {
    if |trace| == 0 || !trace[|trace| - 1].reply.Overflow? then 0
    else 1 + TrailingOverflows(trace[..|trace| - 1])
  }

  /** `cols * k`, the number of empty columns `k` overflows leave behind,
      counted one set of `cols` at a time. */
  function Stale(cols: nat, k: nat): nat {
    if k == 0 then 0 else Stale(cols, k - 1) + cols
  }

  /** The batch array the loop holds after `trace`: emptied after a reply
      with items; after overflows, the last attempt's rows followed by one
      empty column per column and earlier failed attempt. */
  function Leftover(tuples: Batch, trace: seq<Step>): Batch {
    var k := TrailingOverflows(trace);
    if k == 0 then []
    else
      var last := trace[|trace| - 1];
      Slice(tuples, if last.start >= 0 then last.start else 0, if last.size >= 0 then last.size else 0)
        + Empties(Stale(|tuples|, k - 1))
  }

  /** The request of the call after `trace` for rows `start .. start + size`:
      one text output, the rows of every column, as many empty columns as
      the overflows since the last success left behind, and the summary. */
  function ReduceRequest(tuples: Batch, trace: seq<Step>, start: nat, size: nat): Request {
    Request(Slice(tuples, start, size) + Empties(Stale(|tuples|, TrailingOverflows(trace))), 1, STRING,
            SummaryObject(LastSummary(trace)))
  }

  predicate Faithful(trace: seq<Step>, tuples: Batch, oracle: Oracle) {
    forall i :: 0 <= i < |trace| ==>
      trace[i].start >= 0 && trace[i].size >= 0 &&
      trace[i].request == ReduceRequest(tuples, trace[..i], trace[i].start, trace[i].size) &&
      trace[i].reply == oracle(i)
  }

  predicate Stopped(last: Step, n: int) {
    match last.reply
    case Items(_) => last.start + last.size >= n
    case Overflow => last.size >= 0 && Shrink(last.size) <= 0
    case Failed(_) => true
  }

  function Outcome(trace: seq<Step>): Result<Value>
    requires |trace| > 0
  {
    match trace[|trace| - 1].reply
    case Items(_) => Ok(LastSummary(trace))
    case Overflow => Err(REDUCED_TO_ZERO_ERROR)
    case Failed(msg) => Err(msg)
  }

  lemma RefillFresh(tuples: Batch, start: nat, size: nat)
    ensures Overlay(Empties(|tuples|), tuples, start, size, Replace) == Slice(tuples, start, size)
  {
    var lhs := Overlay(Empties(|tuples|), tuples, start, size, Replace);
    forall i | 0 <= i < |tuples|
      ensures lhs[i] == Slice(tuples, start, size)[i]
    {
      assert map[] + tuples[i].meta == tuples[i].meta;
    }
  }

  lemma RefillStale(tuples: Batch, s0: nat, z0: nat, start: nat, size: nat, m: nat)
    ensures Overlay(Slice(tuples, s0, z0) + Empties(m), tuples, start, size, Replace)
         == Slice(tuples, start, size) + Empties(m)
  {
    var before := Slice(tuples, s0, z0) + Empties(m);
    var lhs := Overlay(before, tuples, start, size, Replace);
    var rhs := Slice(tuples, start, size) + Empties(m);
    forall i | 0 <= i < |lhs|
      ensures lhs[i] == rhs[i]
    {
      if i < |tuples| {
        assert before[i].meta == tuples[i].meta;
        assert tuples[i].meta + tuples[i].meta == tuples[i].meta;
      }
    }
  }

  lemma EmptiesAppend(a: nat, b: nat)
    ensures Empties(a) + Empties(b) == Empties(a + b)
  {
  }

  /** The batch array after the loop's push of one fresh column per column. */
  lemma LeftoverPadded(tuples: Batch, trace: seq<Step>)
    ensures TrailingOverflows(trace) == 0 ==> Leftover(tuples, trace) + Empties(|tuples|) == Empties(|tuples|)
    ensures TrailingOverflows(trace) > 0 ==>
      var last := trace[|trace| - 1];
      Leftover(tuples, trace) + Empties(|tuples|) ==
        Slice(tuples, if last.start >= 0 then last.start else 0, if last.size >= 0 then last.size else 0)
          + Empties(Stale(|tuples|, TrailingOverflows(trace)))
  {
    var k := TrailingOverflows(trace);
    if k > 0 {
      var last := trace[|trace| - 1];
      var m := Stale(|tuples|, k - 1);
      var stale := Slice(tuples, if last.start >= 0 then last.start else 0, if last.size >= 0 then last.size else 0);
      assert Leftover(tuples, trace) == stale + Empties(m);
      EmptiesAppend(m, |tuples|);
      assert (stale + Empties(m)) + Empties(|tuples|) == stale + Empties(m + |tuples|);
    }
  }

  lemma OverlayRefill(tuples: Batch, trace: seq<Step>, start: nat, size: nat)
    ensures Overlay(Leftover(tuples, trace) + Empties(|tuples|), tuples, start, size, Replace)
         == Slice(tuples, start, size) + Empties(Stale(|tuples|, TrailingOverflows(trace)))
  {
    var k := TrailingOverflows(trace);
    LeftoverPadded(tuples, trace);
    if k == 0 {
      RefillFresh(tuples, start, size);
      assert Empties(Stale(|tuples|, k)) == [];
    } else {
      var last := trace[|trace| - 1];
      RefillStale(tuples, if last.start >= 0 then last.start else 0, if last.size >= 0 then last.size else 0,
                  start, size, Stale(|tuples|, k));
    }
  }

  lemma ExtendFaithful(trace: seq<Step>, step: Step, tuples: Batch, oracle: Oracle)
    requires Faithful(trace, tuples, oracle)
    requires step.start >= 0 && step.size >= 0
    requires step.request == ReduceRequest(tuples, trace, step.start, step.size) && step.reply == oracle(|trace|)
    ensures Faithful(trace + [step], tuples, oracle)
  {
    var t := trace + [step];
    forall i | 0 <= i < |t|
      ensures t[i].request == ReduceRequest(tuples, t[..i], t[i].start, t[i].size)
    {
      if i < |trace| {
        assert t[..i] == trace[..i];
      } else {
        assert t[..i] == trace;
      }
    }
  }

  lemma LastOfExtended(trace: seq<Step>, step: Step)
    ensures (trace + [step])[..|trace|] == trace
    ensures LastSummary(trace + [step]) == if step.reply.Items? then First(step.reply.items) else LastSummary(trace)
    ensures TrailingOverflows(trace + [step]) == if step.reply.Overflow? then TrailingOverflows(trace) + 1 else 0
  {
    assert (trace + [step])[..|trace|] == trace;
  }

  lemma LeftoverOfOverflow(tuples: Batch, t: seq<Step>)
    requires TrailingOverflows(t) > 0
    ensures Leftover(tuples, t) ==
      Slice(tuples, if t[|t| - 1].start >= 0 then t[|t| - 1].start else 0, if t[|t| - 1].size >= 0 then t[|t| - 1].size else 0)
        + Empties(Stale(|tuples|, TrailingOverflows(t) - 1))
  {
  }

  lemma LeftoverAfter(tuples: Batch, trace: seq<Step>, step: Step)
    requires step.start >= 0 && step.size >= 0
    ensures Leftover(tuples, trace + [step]) ==
      if step.reply.Overflow? then Slice(tuples, step.start, step.size) + Empties(Stale(|tuples|, TrailingOverflows(trace)))
      else []
  {
    if step.reply.Overflow? {
      LeftoverAfterOverflow(tuples, trace, step);
    } else {
      LastOfExtended(trace, step);
    }
  }

  lemma LeftoverAfterOverflow(tuples: Batch, trace: seq<Step>, step: Step)
    requires step.start >= 0 && step.size >= 0 && step.reply.Overflow?
    ensures Leftover(tuples, trace + [step]) ==
      Slice(tuples, step.start, step.size) + Empties(Stale(|tuples|, TrailingOverflows(trace)))
  {
    var t := trace + [step];
    assert t[..|trace|] == trace;
    assert t[|t| - 1] == step;
    assert TrailingOverflows(t) == TrailingOverflows(trace) + 1;
    LeftoverOfOverflow(tuples, t);
  }

  /** One pass of the loop: the refilled batch is the request's columns, and
      after the call the batch the loop keeps and the summary it carries are
      those `Leftover` and `LastSummary` describe. */
  lemma ReduceStep(tuples: Batch, oracle: Oracle, trace: seq<Step>, n: int, bs0: int, step: Step)
    requires step.start >= 0 && step.size >= 0
    requires |trace| == 0 ==> step.start == 0 && step.size == bs0
    requires |trace| > 0 ==> Schedule(trace, n, bs0) && LeadsTo(trace[|trace| - 1], step.start, step.size, n)
    requires Faithful(trace, tuples, oracle)
    requires step.request == Request(Overlay(Leftover(tuples, trace) + Empties(|tuples|), tuples, step.start, step.size, Replace),
                                     1, STRING, SummaryObject(LastSummary(trace)))
    requires step.reply == oracle(|trace|)
    ensures Schedule(trace + [step], n, bs0) && Faithful(trace + [step], tuples, oracle)
    ensures Leftover(tuples, trace + [step]) == if step.reply.Overflow? then step.request.columns else []
    ensures LastSummary(trace + [step]) == if step.reply.Items? then First(step.reply.items) else LastSummary(trace)
  {
    OverlayRefill(tuples, trace, step.start, step.size);
    ExtendSchedule(trace, step, n, bs0);
    ExtendFaithful(trace, step, tuples, oracle);
    LastOfExtended(trace, step);
    LeftoverAfter(tuples, trace, step);
  }

  /** What holds between two rounds of the loop: `batch` and `summary` are
      the array and the summary object the next call starts from. */
  predicate Between(trace: seq<Step>, tuples: Batch, oracle: Oracle, n: int, bs0: int,
                    start: int, bs: int, batch: Batch, summary: Value)
  {
    0 <= start < n && 0 < bs &&
    (|trace| == 0 ==> start == 0 && bs == bs0) &&
    (|trace| > 0 ==> Schedule(trace, n, bs0) && LeadsTo(trace[|trace| - 1], start, bs, n)) &&
    Faithful(trace, tuples, oracle) &&
    batch == Leftover(tuples, trace) &&
    summary == SummaryObject(LastSummary(trace))
  }

  /** One round of the loop: refill, call with the summary, and either stop
      with the outcome or continue with a later start or a smaller batch. */
  method Round(tuples: Batch, oracle: Oracle, trace: seq<Step>, n: int, ghost bs0: int,
               start: int, bs: int, batch: Batch, summary: Value)
    returns (step: Step, start': int, bs': int, batch': Batch, summary': Value, out: Option<Result<Value>>)
    requires Between(trace, tuples, oracle, n, bs0, start, bs, batch, summary)
    ensures Schedule(trace + [step], n, bs0) && Faithful(trace + [step], tuples, oracle)
    ensures (trace + [step])[|trace|] == step
    ensures out.Some? ==> Stopped(step, n) && out.value == Outcome(trace + [step])
    ensures out.None? ==> Between(trace + [step], tuples, oracle, n, bs0, start', bs', batch', summary')
    ensures out.None? ==> start < start' || (start == start' && 0 <= bs' < bs)
  {
    var rows := Overlay(batch + Empties(|tuples|), tuples, start, bs, Replace);
    step := Step(start, bs, Request(rows, 1, STRING, summary), oracle(|trace|));
    ReduceStep(tuples, oracle, trace, n, bs0, step);
    start', bs', batch', summary', out := start, bs, rows, summary, None;
    match step.reply {
      case Failed(msg) =>
        out := Some(Err(msg));
      case Items(items) =>
        batch' := [];
        summary' := SummaryObject(First(items));
        if start + bs >= n {
          out := Some(Ok(First(items)));
        } else {
          start' := start + bs;
        }
      case Overflow =>
        bs' := Shrink(bs);
        if bs' <= 0 {
          out := Some(Err(REDUCED_TO_ZERO_ERROR));
        }
    }
  }

  method ReduceLoop(tuples: Batch, modelBatchSize: int, oracle: Oracle)
    returns (r: Result<Value>, trace: seq<Step>)
    requires |tuples| > 0
    ensures Min(modelBatchSize, RowCount(tuples)) <= 0 ==> r == Err(BATCH_SIZE_ERROR) && trace == []
    ensures Min(modelBatchSize, RowCount(tuples)) > 0 ==>
      Schedule(trace, RowCount(tuples), Min(modelBatchSize, RowCount(tuples))) &&
      Faithful(trace, tuples, oracle) &&
      Stopped(trace[|trace| - 1], RowCount(tuples)) &&
      r == Outcome(trace)
  {
    var n := RowCount(tuples);
    var bs := Min(modelBatchSize, n);
    trace := [];
    if bs <= 0 {
      return Err(BATCH_SIZE_ERROR), trace;
    }
    ghost var bs0 := bs;
    var start := 0;
    var batch: Batch := [];
    var summary := SummaryObject(Str(""));
    while true
      invariant Between(trace, tuples, oracle, n, bs0, start, bs, batch, summary)
      decreases n - start, bs
    {
      var step, start', bs', batch', summary', out := Round(tuples, oracle, trace, n, bs0, start, bs, batch, summary);
      trace := trace + [step];
      if out.Some? {
        return out.value, trace;
      }
      start, bs, batch, summary := start', bs', batch', summary';
    }
  }

  /** Without an overflow no stale column is ever sent: every request holds
      exactly its rows of every column. */
  lemma NoStaleColumnsWithoutOverflow(trace: seq<Step>, tuples: Batch, oracle: Oracle)
    requires Faithful(trace, tuples, oracle) && NoOverflow(trace)
    ensures forall i :: 0 <= i < |trace| ==>
      trace[i].request.columns == Slice(tuples, trace[i].start, trace[i].size)
  {
    forall i | 0 <= i < |trace|
      ensures trace[i].request.columns == Slice(tuples, trace[i].start, trace[i].size)
    {
      assert TrailingOverflows(trace[..i]) == 0;
      assert Empties(0) + [] == [];
      assert Slice(tuples, trace[i].start, trace[i].size) + Empties(0) == Slice(tuples, trace[i].start, trace[i].size);
    }
  }

  /** Each call after the first success carries the summary the previous
      successful call returned. */
  lemma {:induction false} SummaryChains(trace: seq<Step>, tuples: Batch, oracle: Oracle, i: nat, j: nat)
    requires Faithful(trace, tuples, oracle)
    requires i < j < |trace| && trace[i].reply.Items?
    requires forall k :: i < k < j ==> !trace[k].reply.Items?
    ensures trace[j].request.summary == SummaryObject(First(trace[i].reply.items))
  {
    SummaryAfterSuccess(trace[..j], i);
  }

  lemma {:induction false} SummaryAfterSuccess(t: seq<Step>, i: nat)
    requires i < |t| && t[i].reply.Items?
    requires forall k :: i < k < |t| ==> !t[k].reply.Items?
    ensures LastSummary(t) == First(t[i].reply.items)
    decreases |t|
  {
    if i < |t| - 1 {
      SummaryAfterSuccess(t[..|t| - 1], i);
    }
  }

  /** `trace` is what finalizing state `s` asks the provider and `res` what
      `ReduceLoop` returns: nothing is asked for a null or empty state, a
      non-positive batch size fails before any call, and otherwise the loop
      runs over the accumulated columns. */
  predicate Reduced(s: Option<State>, modelBatchSize: int, oracle: Oracle, trace: seq<Step>, res: Result<Value>) {
    match Content(s)
    case None => trace == []
    case Some(v) =>
      var n := RowCount(v);
      if Min(modelBatchSize, n) <= 0 then trace == [] && res == Err(BATCH_SIZE_ERROR)
      else Schedule(trace, n, Min(modelBatchSize, n)) && Faithful(trace, v, oracle) &&
           Stopped(trace[|trace| - 1], n) && res == Outcome(trace)
  }

  /** The result slot of state `s` given what `ReduceLoop` returned for it:
      SQL NULL for a null or empty state, else the summary as text or the
      error that aborts the query. */
  function Slot(s: Option<State>, ser: Serializer, res: Result<Value>): Result<Option<string>> {
    if Content(s).None? then Ok(None)
    else
      match res
      case Ok(v) => Ok(Some(Shown(v, ser)))
      case Err(e) => Err(e)
  }

  /** The first `|results|` states were finalized into the slots `out`. */
  predicate Done(states: seq<Option<State>>, ser: Serializer, results: seq<Result<Value>>, out: ResultVector) {
    |out| == |results| <= |states| &&
    forall j :: 0 <= j < |results| ==> Slot(states[j], ser, results[j]) == Ok(out[j])
  }

  /** The states before the last of `results` were finalized, and finalizing
      the last one failed with `e`. */
  predicate FailedAt(states: seq<Option<State>>, ser: Serializer, results: seq<Result<Value>>, e: string) {
    0 < |results| <= |states| &&
    (forall j :: 0 <= j < |results| - 1 ==> Slot(states[j], ser, results[j]).Ok?) &&
    Slot(states[|results| - 1], ser, results[|results| - 1]) == Err(e)
  }

  /** Every state below `|traces|` was reduced with the calls `traces`
      (stated for the last one, then for the ones before it). */
  predicate Traced(states: seq<Option<State>>, modelBatchSize: int, oracles: seq<Oracle>,
                   traces: seq<seq<Step>>, results: seq<Result<Value>>)
    decreases |traces|
  {
    |traces| == |results| <= |states| <= |oracles| &&
    (|traces| == 0 ||
     (Traced(states, modelBatchSize, oracles, traces[..|traces| - 1], results[..|results| - 1]) &&
      Reduced(states[|traces| - 1], modelBatchSize, oracles[|traces| - 1], traces[|traces| - 1],
              results[|results| - 1])))
  }

  lemma {:induction false} TracedAt(states: seq<Option<State>>, modelBatchSize: int, oracles: seq<Oracle>,
                                    traces: seq<seq<Step>>, results: seq<Result<Value>>, j: nat)
    requires Traced(states, modelBatchSize, oracles, traces, results) && j < |traces|
    ensures Reduced(states[j], modelBatchSize, oracles[j], traces[j], results[j])
    decreases |traces|
  {
    if j < |traces| - 1 {
      var n := |traces| - 1;
      TracedAt(states, modelBatchSize, oracles, traces[..n], results[..n], j);
      assert traces[..n][j] == traces[j] && results[..n][j] == results[j];
    }
  }

  lemma ExtendTraced(states: seq<Option<State>>, modelBatchSize: int, oracles: seq<Oracle>,
                     traces: seq<seq<Step>>, results: seq<Result<Value>>, trace: seq<Step>, res: Result<Value>)
    requires Traced(states, modelBatchSize, oracles, traces, results) && |traces| < |states|
    requires Reduced(states[|traces|], modelBatchSize, oracles[|traces|], trace, res)
    ensures Traced(states, modelBatchSize, oracles, traces + [trace], results + [res])
  {
    assert (traces + [trace])[..|traces|] == traces;
    assert (results + [res])[..|results|] == results;
  }

  lemma ExtendDone(states: seq<Option<State>>, ser: Serializer, results: seq<Result<Value>>, out: ResultVector,
                   res: Result<Value>, cell: Option<string>)
    requires Done(states, ser, results, out) && |results| < |states|
    requires Slot(states[|results|], ser, res) == Ok(cell)
    ensures Done(states, ser, results + [res], out + [cell])
  {
    var rs, os := results + [res], out + [cell];
    forall j | 0 <= j < |rs|
      ensures Slot(states[j], ser, rs[j]) == Ok(os[j])
    {
      if j < |results| {
        assert rs[j] == results[j] && os[j] == out[j];
      }
    }
  }

  lemma FailAfterDone(states: seq<Option<State>>, ser: Serializer, results: seq<Result<Value>>, out: ResultVector,
                      res: Result<Value>, e: string)
    requires Done(states, ser, results, out) && |results| < |states|
    requires Slot(states[|results|], ser, res) == Err(e)
    ensures FailedAt(states, ser, results + [res], e)
  {
    var rs := results + [res];
    forall j | 0 <= j < |rs| - 1
      ensures Slot(states[j], ser, rs[j]).Ok?
    {
      assert rs[j] == results[j];
    }
    assert rs[|rs| - 1] == res;
  }

  /** `LlmReduce::FinalizeResults` over the `count` states of a result
      vector: each state is reduced in turn, with its own provider, and an
      error aborts the whole call. `results` and `traces` are what
      `ReduceLoop` returned and asked for each state; `processed` lists the
      states recorded for the metrics merge, in order. */
  method FinalizeResults(states: seq<Option<State>>, modelBatchSize: int, oracles: seq<Oracle>, ser: Serializer)
    returns (r: Result<ResultVector>, processed: seq<nat>,
             ghost results: seq<Result<Value>>, ghost traces: seq<seq<Step>>)
    requires |oracles| == |states|
    ensures Traced(states, modelBatchSize, oracles, traces, results)
    ensures r.Ok? ==> |results| == |states| && Done(states, ser, results, r.value)
    ensures r.Ok? ==> forall j :: 0 <= j < |states| ==> (r.value[j].None? <==> !HasContent(states[j]))
    ensures r.Err? ==> FailedAt(states, ser, results, r.error)
    ensures processed == Marked(states[..|results|], HasContent)
  {
    var out: ResultVector := [];
    processed := [];
    results, traces := [], [];
    for i := 0 to |states|
      invariant |results| == i && Done(states, ser, results, out)
      invariant Traced(states, modelBatchSize, oracles, traces, results)
      invariant processed == Marked(states[..i], HasContent)
    {
      var err;
      err, out, processed, results, traces := FinalizeNext(states, modelBatchSize, oracles, ser, out, processed, results, traces);
      if err.Some? {
        return Err(err.value), processed, results, traces;
      }
    }
    r := Ok(out);
  }

  /** One pass of the loop of `FinalizeResults`: finalize the next state, or
      stop with the error it raises. */
  method FinalizeNext(states: seq<Option<State>>, modelBatchSize: int, oracles: seq<Oracle>, ser: Serializer,
                      out: ResultVector, processed: seq<nat>,
                      ghost results: seq<Result<Value>>, ghost traces: seq<seq<Step>>)
    returns (err: Option<string>, out': ResultVector, processed': seq<nat>,
             ghost results': seq<Result<Value>>, ghost traces': seq<seq<Step>>)
    requires Done(states, ser, results, out) && |results| < |states|
    requires Traced(states, modelBatchSize, oracles, traces, results)
    requires processed == Marked(states[..|results|], HasContent)
    ensures |results'| == |results| + 1 && processed' == Marked(states[..|results'|], HasContent)
    ensures Traced(states, modelBatchSize, oracles, traces', results')
    ensures err.None? ==> Done(states, ser, results', out')
    ensures err.Some? ==> FailedAt(states, ser, results', err.value)
  {
    var i := |out|;
    var cell, res, trace := FinalizeOne(states[i], modelBatchSize, oracles[i], ser);
    ExtendTraced(states, modelBatchSize, oracles, traces, results, trace, res);
    processed' := if HasContent(states[i]) then processed + [i] else processed;
    MarkedStep(states, i, HasContent);
    results', traces' := results + [res], traces + [trace];
    if cell.Err? {
      FailAfterDone(states, ser, results, out, res, cell.error);
      return Some(cell.error), out, processed', results', traces';
    }
    ExtendDone(states, ser, results, out, res, cell.value);
    err, out' := None, out + [cell.value];
  }

  /** One iteration of `FinalizeResults`: the slot of one state after
      `ReduceLoop` runs over its columns. */
  method FinalizeOne(s: Option<State>, modelBatchSize: int, oracle: Oracle, ser: Serializer)
    returns (cell: Result<Option<string>>, ghost res: Result<Value>, ghost trace: seq<Step>)
    ensures Reduced(s, modelBatchSize, oracle, trace, res)
    ensures cell == Slot(s, ser, res)
  {
    trace, res := [], Err("");
    var content := Content(s);
    if content.None? {
      return Ok(None), res, trace;
    }
    var r;
    r, trace := ReduceLoop(content.value, modelBatchSize, oracle);
    res := r;
    cell := match r
      case Ok(v) => Ok(Some(Shown(v, ser)))
      case Err(e) => Err(e);
  }
}
