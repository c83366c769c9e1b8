/** The batching loop behind `llm_complete` and `llm_filter`
    (`ScalarFunctionBase::BatchAndComplete`): the context columns are cut
    into sub-batches of `batch_size` rows, one completion request per
    sub-batch, the replies concatenated in row order. */
module ScalarEngine {
  import opened Json
  import opened Wrappers
  import opened Columns
  import opened Batching

  datatype ScalarKind = COMPLETE | FILTER

  /** What `Complete` asks for: one output per row of the sub-batch, boolean
      for a filter and text otherwise. */
  function ScalarRequest(tuples: Batch, start: nat, size: nat, kind: ScalarKind): (req: Request)
    requires |tuples| > 0
    ensures req.columns == Slice(tuples, start, size)
    ensures req.numOutputs == |SliceData(tuples[0].data, start, size)|
    ensures req.outputType == (if kind == FILTER then BOOL else STRING)
  {
    var batch := Slice(tuples, start, size);
    Request(batch, |batch[0].data|, if kind == FILTER then BOOL else STRING, Null)
  }

  function Nulls(k: nat): (r: seq<Value>)
    ensures |r| == k && forall i :: 0 <= i < k ==> r[i] == Null
  {
    seq(k, _ => Null)
  }

  /** The reply of one sub-batch brought to its row count: a short reply is
      padded with nulls; a long one is cut after as many items as the batch
      has COLUMNS (the source erases from `begin() + batch_tuples.size()`).
      When the column count exceeds the reply's length that erase is
      undefined; the reply is then kept whole. */
  function Fit(items: seq<Value>, rows: nat, cols: nat): (r: seq<Value>)
    ensures |items| < rows ==> r == items + Nulls(rows - |items|)
    ensures |items| == rows ==> r == items
    ensures |items| > rows ==> r == items[..Min(cols, |items|)]
  {
    if |items| < rows then items + Nulls(rows - |items|)
    else if |items| > rows then items[..Min(cols, |items|)]
    else items
  }

  /** A reply no longer than the sub-batch yields exactly one value per row,
      the reply's own items first. */
  lemma FitShortReply(items: seq<Value>, rows: nat, cols: nat)
    requires |items| <= rows
    ensures |Fit(items, rows, cols)| == rows
    ensures Fit(items, rows, cols)[..|items|] == items
  {
  }

  /** A reply longer than the sub-batch keeps as many items as there are
      columns, which is not the row count unless the two coincide. */
  lemma FitLongReply(items: seq<Value>, rows: nat, cols: nat)
    requires rows < |items| && cols <= |items|
    ensures |Fit(items, rows, cols)| == cols
    ensures Fit(items, rows, cols) == items[..cols]
  {
  }

  /** The values a trace contributes: each reply with items, fitted to its
      request, in call order. */
  function Collected(trace: seq<Step>): (r: seq<Value>)
    ensures |trace| == 0 ==> r == []
    decreases |trace|
  {
    if |trace| == 0 then []
    else
      var last := trace[|trace| - 1];
      Collected(trace[..|trace| - 1]) +
        match last.reply
        case Items(items) => Fit(items, if last.request.numOutputs >= 0 then last.request.numOutputs else 0,
                                 |last.request.columns|)
        case _ => []
  }

  /** Every call of the trace asked for the scalar request of its rows and
      received the oracle's answer for its position. */
  predicate Faithful(trace: seq<Step>, tuples: Batch, kind: ScalarKind, oracle: Oracle)
    requires |tuples| > 0
  {
    forall i :: 0 <= i < |trace| ==>
      trace[i].start >= 0 && trace[i].size >= 0 &&
      trace[i].request == ScalarRequest(tuples, trace[i].start, trace[i].size, kind) &&
      trace[i].reply == oracle(i)
  }

  /** Why the loop stopped after its last call. */
  predicate Stopped(last: Step, n: int) {
    match last.reply
    case Items(_) => last.start + last.size >= n
    case Overflow => last.size >= 0 && Shrink(last.size) <= 0
    case Failed(_) => true
  }

  function Outcome(trace: seq<Step>): Result<seq<Value>>
    requires |trace| > 0
  {
    match trace[|trace| - 1].reply
    case Items(_) => Ok(Collected(trace))
    case Overflow => Err(REDUCED_TO_ZERO_ERROR)
    case Failed(msg) => Err(msg)
  }

  /** What holds between two rounds of the loop: `responses` holds the
      values the calls so far contributed. */
  predicate Between(trace: seq<Step>, tuples: Batch, kind: ScalarKind, oracle: Oracle, n: int, bs0: int,
                    start: int, bs: int, responses: seq<Value>)
    requires |tuples| > 0
  {
    0 <= start < n && 0 < bs &&
    (|trace| == 0 ==> start == 0 && bs == bs0) &&
    (|trace| > 0 ==> Schedule(trace, n, bs0) && LeadsTo(trace[|trace| - 1], start, bs, n)) &&
    Faithful(trace, tuples, kind, oracle) &&
    responses == Collected(trace)
  }

  /** Everything the round after `trace` establishes, case by case. */
  lemma Advance(tuples: Batch, kind: ScalarKind, oracle: Oracle, trace: seq<Step>, n: int, bs0: int,
                start: int, bs: int, responses: seq<Value>, step: Step)
    requires |tuples| > 0 && Between(trace, tuples, kind, oracle, n, bs0, start, bs, responses)
    requires step == Step(start, bs, ScalarRequest(tuples, start, bs, kind), oracle(|trace|))
    ensures Schedule(trace + [step], n, bs0) && Faithful(trace + [step], tuples, kind, oracle)
    ensures (trace + [step])[|trace|] == step
    ensures step.reply.Failed? ==> Stopped(step, n) && Outcome(trace + [step]) == Err(step.reply.msg)
    ensures step.reply.Overflow? && Shrink(bs) <= 0 ==>
      Stopped(step, n) && Outcome(trace + [step]) == Err(REDUCED_TO_ZERO_ERROR)
    ensures step.reply.Overflow? && Shrink(bs) > 0 ==>
      Between(trace + [step], tuples, kind, oracle, n, bs0, start, Shrink(bs), responses)
    ensures step.reply.Items? && start + bs >= n ==>
      Stopped(step, n) &&
      Outcome(trace + [step]) == Ok(responses + Fit(step.reply.items, step.request.numOutputs, |step.request.columns|))
    ensures step.reply.Items? && start + bs < n ==>
      Between(trace + [step], tuples, kind, oracle, n, bs0, start + bs, bs,
              responses + Fit(step.reply.items, step.request.numOutputs, |step.request.columns|))
  {
    ExtendSchedule(trace, step, n, bs0);
    ExtendFaithful(trace, step, tuples, kind, oracle);
    ExtendCollected(trace, step);
    assert (trace + [step])[|trace|] == step;
  }

  /** One round of the loop: call `Complete` on the next rows, and either stop
      with the outcome or continue with a later start or a smaller batch. */
  method Round(tuples: Batch, kind: ScalarKind, oracle: Oracle, trace: seq<Step>, n: int, ghost bs0: int,
               start: int, bs: int, responses: seq<Value>)
    returns (step: Step, start': int, bs': int, responses': seq<Value>, out: Option<Result<seq<Value>>>)
    requires |tuples| > 0 && Between(trace, tuples, kind, oracle, n, bs0, start, bs, responses)
    ensures Schedule(trace + [step], n, bs0) && Faithful(trace + [step], tuples, kind, oracle)
    ensures (trace + [step])[|trace|] == step
    ensures out.Some? ==> Stopped(step, n) && out.value == Outcome(trace + [step])
    ensures out.None? ==> Between(trace + [step], tuples, kind, oracle, n, bs0, start', bs', responses')
    ensures out.None? ==> start < start' || (start == start' && 0 <= bs' < bs)
  {
    var request := ScalarRequest(tuples, start, bs, kind);
    step := Step(start, bs, request, oracle(|trace|));
    Advance(tuples, kind, oracle, trace, n, bs0, start, bs, responses, step);
    start', bs', responses', out := start, bs, responses, None;
    match step.reply {
      case Failed(msg) =>
        out := Some(Err(msg));
      case Items(items) =>
        responses' := responses + Fit(items, request.numOutputs, |request.columns|);
        if start + bs >= n {
          out := Some(Ok(responses'));
        } else {
          start' := start + bs;
        }
      case Overflow =>
        bs' := Shrink(bs);
        if bs' <= 0 {
          out := Some(Err(REDUCED_TO_ZERO_ERROR));
        }
    }
  }

  method BatchAndComplete(tuples: Batch, modelBatchSize: int, kind: ScalarKind, oracle: Oracle)
    returns (r: Result<seq<Value>>, trace: seq<Step>)
    requires |tuples| > 0
    ensures Min(modelBatchSize, RowCount(tuples)) <= 0 ==> r == Err(BATCH_SIZE_ERROR) && trace == []
    ensures Min(modelBatchSize, RowCount(tuples)) > 0 ==>
      Schedule(trace, RowCount(tuples), Min(modelBatchSize, RowCount(tuples))) &&
      Faithful(trace, tuples, kind, oracle) &&
      Stopped(trace[|trace| - 1], RowCount(tuples)) &&
      r == Outcome(trace)
  {
    var n := RowCount(tuples);
    var bs := Min(modelBatchSize, n);
    trace := [];
    if bs <= 0 {
      return Err(BATCH_SIZE_ERROR), trace;
    }
    ghost var bs0 := bs;
    var start := 0;
    var responses := [];
    while true
      invariant Between(trace, tuples, kind, oracle, n, bs0, start, bs, responses)
      decreases n - start, bs
    {
      var step, start', bs', responses', out := Round(tuples, kind, oracle, trace, n, bs0, start, bs, responses);
      trace := trace + [step];
      if out.Some? {
        return out.value, trace;
      }
      start, bs, responses := start', bs', responses';
    }
  }

  lemma ExtendFaithful(trace: seq<Step>, step: Step, tuples: Batch, kind: ScalarKind, oracle: Oracle)
    requires |tuples| > 0 && Faithful(trace, tuples, kind, oracle)
    requires step.start >= 0 && step.size >= 0
    requires step.request == ScalarRequest(tuples, step.start, step.size, kind) && step.reply == oracle(|trace|)
    ensures Faithful(trace + [step], tuples, kind, oracle)
  {
  }

  lemma ExtendCollected(trace: seq<Step>, step: Step)
    requires step.request.numOutputs >= 0
    ensures Collected(trace + [step]) == Collected(trace) +
      match step.reply
      case Items(items) => Fit(items, step.request.numOutputs, |step.request.columns|)
      case _ => []
  {
    assert (trace + [step])[..|trace|] == trace;
  }

  lemma {:induction false} CollectedReachesPosition(trace: seq<Step>, tuples: Batch, kind: ScalarKind,
                                                     oracle: Oracle, bs0: int, k: nat)
    requires |tuples| > 0 && RowCount(tuples) > 0
    requires Schedule(trace, RowCount(tuples), bs0) && Faithful(trace, tuples, kind, oracle)
    requires forall i :: 0 <= i < |trace| && trace[i].reply.Items? ==>
      |trace[i].reply.items| <= trace[i].request.numOutputs
    requires 0 < k <= |trace|
    ensures |Collected(trace[..k])| == Reached(trace[k - 1], RowCount(tuples))
  {
    var n := RowCount(tuples);
    var s := trace[k - 1];
    assert trace[..k][..k - 1] == trace[..k - 1];
    ScheduleStartsBelow(trace, n, bs0, k - 1);
    var rows := s.request.numOutputs;
    assert rows == Min(s.start + s.size, n) - s.start;
    if s.reply.Items? {
      FitShortReply(s.reply.items, rows, |s.request.columns|);
    }
    if k == 1 {
      assert s.start == 0;
    } else {
      CollectedReachesPosition(trace, tuples, kind, oracle, bs0, k - 1);
      assert Continues(trace[k - 2], s, n);
    }
  }

  /** Every row gets exactly one result when no reply is longer than its
      sub-batch, overflow retries included. */
  lemma ScalarRowsPreserved(trace: seq<Step>, tuples: Batch, kind: ScalarKind, oracle: Oracle, bs0: int)
    requires |tuples| > 0 && RowCount(tuples) > 0
    requires Schedule(trace, RowCount(tuples), bs0) && Faithful(trace, tuples, kind, oracle)
    requires Completed(trace, RowCount(tuples))
    requires forall i :: 0 <= i < |trace| && trace[i].reply.Items? ==>
      |trace[i].reply.items| <= trace[i].request.numOutputs
    ensures |Collected(trace)| == RowCount(tuples)
  {
    CollectedReachesPosition(trace, tuples, kind, oracle, bs0, |trace|);
    assert trace[..|trace|] == trace;
  }
}
