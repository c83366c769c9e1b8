/** `LlmRerank::Finalize`: every accumulated state of a result vector is
    ranked by its own sliding window and written out as the JSON text of the
    ranked columns. */
module RerankFinalize {
  import opened Json
  import opened Wrappers
  import opened Columns
  import opened Batching
  import opened Accumulator
  import opened RerankEngine

  /** What `SlidingWindow` promises for `tuples`: at most one row comes back
      cut to its first row without a call, a non-positive batch size fails
      without a call, and otherwise `trace` holds the loop's calls, run to
      the end, and `r` the outcome they lead to. */
  predicate Reranks(tuples: Batch, modelBatchSize: int, oracle: Oracle, ser: Serializer, mode: OnOverflow,
                    trace: seq<Step>, r: Result<Batch>)
    requires |tuples| > 0 && Rectangular(tuples)
  {
    var n := RowCount(tuples);
    var bs0 := InitialBatchSize(modelBatchSize, n);
    if n <= 1 then r == Ok(CutToFirst(tuples)) && trace == []
    else if bs0 <= 0 then r == Err(BATCH_SIZE_ERROR) && trace == []
    else Faithful(tuples, bs0, oracle, ser, mode, trace) && Stopped(tuples, bs0, ser, mode, trace) &&
         r == Outcome(tuples, bs0, ser, mode, trace)
  }

  /** The accumulated columns of every state with content are rectangular:
      the sliding window reads every column at the rows of the first. */
  predicate RectangularStates(states: seq<Option<State>>) {
    forall j :: 0 <= j < |states| && HasContent(states[j]) ==> Rectangular(Content(states[j]).value)
  }

  /** `trace` is what finalizing state `s` asks the provider and `res` what
      `SlidingWindow` returns: nothing is asked for a null or empty state. */
  predicate Windowed(s: Option<State>, modelBatchSize: int, oracle: Oracle, ser: Serializer, mode: OnOverflow,
                     trace: seq<Step>, res: Result<Batch>)
  {
    match Content(s)
    case None => trace == []
    case Some(v) => Rectangular(v) && Reranks(v, modelBatchSize, oracle, ser, mode, trace, res)
  }

  /** The result slot of state `s` given what `SlidingWindow` returned for
      it: SQL NULL for a null or empty state, else the JSON text of the
      ranked columns, or the error that aborts the query. */
  function Slot(s: Option<State>, ser: Serializer, res: Result<Batch>): Result<Option<string>> {
    if !HasContent(s) then Ok(None)
    else
      match res
      case Ok(b) => Ok(Some(ser.dump(BatchToJson(b))))
      case Err(e) => Err(e)
  }

  /** The first `|results|` states were finalized into the slots `out`. */
  predicate Done(states: seq<Option<State>>, ser: Serializer, results: seq<Result<Batch>>, out: ResultVector) {
    |out| == |results| <= |states| &&
    forall j :: 0 <= j < |results| ==> Slot(states[j], ser, results[j]) == Ok(out[j])
  }

  /** The states before the last of `results` were finalized, and finalizing
      the last one failed with `e`. */
  predicate FailedAt(states: seq<Option<State>>, ser: Serializer, results: seq<Result<Batch>>, e: string) {
    0 < |results| <= |states| &&
    (forall j :: 0 <= j < |results| - 1 ==> Slot(states[j], ser, results[j]).Ok?) &&
    Slot(states[|results| - 1], ser, results[|results| - 1]) == Err(e)
  }

  /** Every state below `|traces|` was ranked with the calls `traces`
      (stated for the last one, then for the ones before it). */
  predicate Traced(states: seq<Option<State>>, modelBatchSize: int, oracles: seq<Oracle>, ser: Serializer,
                   mode: OnOverflow, traces: seq<seq<Step>>, results: seq<Result<Batch>>)
    decreases |traces|
  {
    |traces| == |results| <= |states| <= |oracles| &&
    (|traces| == 0 ||
     (Traced(states, modelBatchSize, oracles, ser, mode, traces[..|traces| - 1], results[..|results| - 1]) &&
      Windowed(states[|traces| - 1], modelBatchSize, oracles[|traces| - 1], ser, mode, traces[|traces| - 1],
               results[|results| - 1])))
  }

  /** What `Traced` says of each state on its own. */
  lemma {:induction false} TracedAt(states: seq<Option<State>>, modelBatchSize: int, oracles: seq<Oracle>,
                                    ser: Serializer, mode: OnOverflow, traces: seq<seq<Step>>,
                                    results: seq<Result<Batch>>, j: nat)
    requires Traced(states, modelBatchSize, oracles, ser, mode, traces, results) && j < |traces|
    ensures Windowed(states[j], modelBatchSize, oracles[j], ser, mode, traces[j], results[j])
    decreases |traces|
  {
    if j < |traces| - 1 {
      var n := |traces| - 1;
      TracedAt(states, modelBatchSize, oracles, ser, mode, traces[..n], results[..n], j);
      assert traces[..n][j] == traces[j] && results[..n][j] == results[j];
    }
  }

  lemma ExtendTraced(states: seq<Option<State>>, modelBatchSize: int, oracles: seq<Oracle>, ser: Serializer,
                     mode: OnOverflow, traces: seq<seq<Step>>, results: seq<Result<Batch>>,
                     trace: seq<Step>, res: Result<Batch>)
    requires Traced(states, modelBatchSize, oracles, ser, mode, traces, results) && |traces| < |states|
    requires Windowed(states[|traces|], modelBatchSize, oracles[|traces|], ser, mode, trace, res)
    ensures Traced(states, modelBatchSize, oracles, ser, mode, traces + [trace], results + [res])
  {
    assert (traces + [trace])[..|traces|] == traces;
    assert (results + [res])[..|results|] == results;
  }

  lemma ExtendDone(states: seq<Option<State>>, ser: Serializer, results: seq<Result<Batch>>, out: ResultVector,
                   res: Result<Batch>, cell: Option<string>)
    requires Done(states, ser, results, out) && |results| < |states|
    requires Slot(states[|results|], ser, res) == Ok(cell)
    ensures Done(states, ser, results + [res], out + [cell])
  {
    var rs, os := results + [res], out + [cell];
    forall j | 0 <= j < |rs|
      ensures Slot(states[j], ser, rs[j]) == Ok(os[j])
    {
      if j < |results| {
        assert rs[j] == results[j] && os[j] == out[j];
      }
    }
  }

  lemma FailAfterDone(states: seq<Option<State>>, ser: Serializer, results: seq<Result<Batch>>, out: ResultVector,
                      res: Result<Batch>, e: string)
    requires Done(states, ser, results, out) && |results| < |states|
    requires Slot(states[|results|], ser, res) == Err(e)
    ensures FailedAt(states, ser, results + [res], e)
  {
    var rs := results + [res];
    forall j | 0 <= j < |rs| - 1
      ensures Slot(states[j], ser, rs[j]).Ok?
    {
      assert rs[j] == results[j];
    }
    assert rs[|rs| - 1] == res;
  }

  /** `LlmRerank::Finalize` over the `count` states of a result vector: each
      state is ranked in turn, with its own provider, and an error aborts the
      whole call. `results` and `traces` are what `SlidingWindow` returned
      and asked for each state; `processed` lists the states recorded for
      the metrics merge, in order. */
  method Finalize(states: seq<Option<State>>, modelBatchSize: int, oracles: seq<Oracle>, ser: Serializer,
                  mode: OnOverflow)
    returns (r: Result<ResultVector>, processed: seq<nat>,
             ghost results: seq<Result<Batch>>, ghost traces: seq<seq<Step>>)
    requires |oracles| == |states| && RectangularStates(states)
    ensures Traced(states, modelBatchSize, oracles, ser, mode, traces, results)
    ensures r.Ok? ==> |results| == |states| && Done(states, ser, results, r.value)
    ensures r.Ok? ==> forall j :: 0 <= j < |states| ==> (r.value[j].None? <==> !HasContent(states[j]))
    ensures r.Err? ==> FailedAt(states, ser, results, r.error)
    ensures processed == Marked(states[..|results|], HasContent)
  {
    var out: ResultVector := [];
    processed := [];
    results, traces := [], [];
    for i := 0 to |states|
      invariant |results| == i && Done(states, ser, results, out)
      invariant Traced(states, modelBatchSize, oracles, ser, mode, traces, results)
      invariant processed == Marked(states[..i], HasContent)
    {
      var err;
      err, out, processed, results, traces :=
        FinalizeNext(states, modelBatchSize, oracles, ser, mode, out, processed, results, traces);
      if err.Some? {
        return Err(err.value), processed, results, traces;
      }
    }
    r := Ok(out);
  }

  /** One pass of the loop of `Finalize`: finalize the next state, or stop
      with the error it raises. */
  method FinalizeNext(states: seq<Option<State>>, modelBatchSize: int, oracles: seq<Oracle>, ser: Serializer,
                      mode: OnOverflow, out: ResultVector, processed: seq<nat>,
                      ghost results: seq<Result<Batch>>, ghost traces: seq<seq<Step>>)
    returns (err: Option<string>, out': ResultVector, processed': seq<nat>,
             ghost results': seq<Result<Batch>>, ghost traces': seq<seq<Step>>)
    requires RectangularStates(states)
    requires Done(states, ser, results, out) && |results| < |states|
    requires Traced(states, modelBatchSize, oracles, ser, mode, traces, results)
    requires processed == Marked(states[..|results|], HasContent)
    ensures |results'| == |results| + 1 && processed' == Marked(states[..|results'|], HasContent)
    ensures Traced(states, modelBatchSize, oracles, ser, mode, traces', results')
    ensures err.None? ==> Done(states, ser, results', out')
    ensures err.Some? ==> FailedAt(states, ser, results', err.value)
  {
    var i := |out|;
    var cell, res, trace := FinalizeOne(states[i], modelBatchSize, oracles[i], ser, mode);
    ExtendTraced(states, modelBatchSize, oracles, ser, mode, traces, results, trace, res);
    processed' := if HasContent(states[i]) then processed + [i] else processed;
    MarkedStep(states, i, HasContent);
    results', traces' := results + [res], traces + [trace];
    if cell.Err? {
      FailAfterDone(states, ser, results, out, res, cell.error);
      return Some(cell.error), out, processed', results', traces';
    }
    ExtendDone(states, ser, results, out, res, cell.value);
    err, out' := None, out + [cell.value];
  }

  /** One iteration of `Finalize`: the slot of one state after
      `SlidingWindow` runs over its columns. */
  method FinalizeOne(s: Option<State>, modelBatchSize: int, oracle: Oracle, ser: Serializer, mode: OnOverflow)
    returns (cell: Result<Option<string>>, ghost res: Result<Batch>, ghost trace: seq<Step>)
    requires HasContent(s) ==> Rectangular(Content(s).value)
    ensures Windowed(s, modelBatchSize, oracle, ser, mode, trace, res)
    ensures cell == Slot(s, ser, res)
  {
    trace, res := [], Err("");
    var content := Content(s);
    if content.None? {
      return Ok(None), res, trace;
    }
    var r;
    r, trace := SlidingWindow(content.value, modelBatchSize, oracle, ser, mode);
    res := r;
    cell := match r
      case Ok(b) => Ok(Some(ser.dump(BatchToJson(b))))
      case Err(e) => Err(e);
  }
}
