/** The request queue of a provider handler (`BaseModelProviderHandler`) and
    the way a batch of responses becomes results or an error. The network
    is not modelled: a `Wire` gives the response to each request of a batch,
    already classified by the provider's own checks. */
module ProviderHandler {
  import opened Wrappers
  import opened Json
  import opened Batching

  datatype RequestType = Completion | Embedding | Transcription

  const ERROR_PREFIX: string := "[ModelProvider] error. Reason: "
  const PROCESSING_ERROR: string := "Response processing error: "
  const EXTRACTION_ERROR: string := "Output extraction error: "
  const INVALID_JSON: string := "Invalid JSON response: "

  // ------------------------------------------------------------- responses

  /** The provider-specific check of a parsed response: it passes, it
      raises an ordinary error, or it raises the distinguished
      `ExceededMaxOutputTokensError`. */
  datatype Check = Accepted | Rejected(reason: string) | MaxTokens

  /** One response: text that is not JSON, or a parsed object with the
      dump of its `error` member if it has one, the verdict of the
      provider's check, its token usage (input, output) and the extracted
      output; a failed read carries the library's message. */
  datatype Response =
    | NotJson(text: string)
    | Parsed(error: Option<string>, check: Check, usage: Result<(int, int)>, output: Result<Value>)

  /** The responses to the requests of one batch, by position. */
  type Wire = nat -> Response

  /** What escapes `ExecuteBatch`. */
  datatype Failure = RuntimeError(message: string) | MaxTokensExceeded

  /** One response handled: its result slot and its token counts, or the
      exception that leaves the batch. */
  datatype Handled = Handled(result: Value, input: int, output: int) | Thrown(failure: Failure)

  /** The outer `catch (const std::exception&)`: `trigger_error` with the
      processing prefix, which throws or logs and leaves the slot null. */
  function Caught(throwing: bool, what: string): (h: Handled)
    ensures throwing <==> h.Thrown?
    ensures h.Handled? ==> h == Handled(Null, 0, 0)
  {
    if throwing then Thrown(RuntimeError(ERROR_PREFIX + PROCESSING_ERROR + what)) else Handled(Null, 0, 0)
  }

  /** A response whose check passes and whose usage (when counted) and
      output can be read: it fills its slot. */
  predicate Fills(r: Response, kind: RequestType) {
    r.Parsed? && r.check.Accepted? && (!kind.Transcription? ==> r.usage.Ok?) && r.output.Ok?
  }

  /** A response that fills its slot with no error on any path. */
  predicate Clean(r: Response, kind: RequestType) {
    Fills(r, kind) && r.error.None?
  }

  /** The body of the result loop for one response. `rethrowOverflow`
      selects between the source as written (`false`: the overflow error is
      caught like any other) and the corrected handler (`true`: it leaves
      the batch as itself). */
  function Handle(r: Response, kind: RequestType, throwing: bool, rethrowOverflow: bool): (h: Handled)
    ensures h.Thrown? && h.failure.MaxTokensExceeded? <==> rethrowOverflow && r.Parsed? && (r.error.None? || !throwing) && r.check.MaxTokens?
    ensures h.Thrown? && !h.failure.MaxTokensExceeded? ==> throwing
    ensures h.Handled? ==> h.result == if Fills(r, kind) then r.output.value else Null
    ensures h.Handled? && kind.Transcription? ==> h.input == 0 && h.output == 0
    ensures Clean(r, kind) ==> h.Handled?
  {
    match r
    case NotJson(text) =>
      if throwing then Thrown(RuntimeError(ERROR_PREFIX + INVALID_JSON + text)) else Handled(Null, 0, 0)
    case Parsed(error, check, usage, output) =>
      if error.Some? && throwing then Caught(true, ERROR_PREFIX + error.value)
      else match check
        case Rejected(reason) => Caught(throwing, reason)
        case MaxTokens =>
          if rethrowOverflow then Thrown(MaxTokensExceeded) else Caught(throwing, OVERFLOW_MESSAGE)
        case Accepted =>
          if !kind.Transcription? && usage.Err? then Caught(throwing, usage.error)
          else
            var tokens := if !kind.Transcription? then usage.value else (0, 0);
            match output
            case Ok(v) => Handled(v, tokens.0, tokens.1)
            case Err(m) =>
              if throwing then Caught(true, ERROR_PREFIX + EXTRACTION_ERROR + m) else Handled(Null, tokens.0, tokens.1)
  }

  // ----------------------------------------------------------------- batch

  /** The result loop after `n` responses. */
  datatype Run = Running(results: seq<Value>, input: int, output: int) | Stopped(failure: Failure)

  function RunPrefix(wire: Wire, kind: RequestType, throwing: bool, rethrowOverflow: bool, n: nat): (r: Run)
    ensures r.Running? ==> |r.results| == n
    decreases n
  {
    if n == 0 then Running([], 0, 0)
    else match RunPrefix(wire, kind, throwing, rethrowOverflow, n - 1)
      case Stopped(f) => Stopped(f)
      case Running(results, input, output) =>
        match Handle(wire(n - 1), kind, throwing, rethrowOverflow)
        case Thrown(f) => Stopped(f)
        case Handled(v, i, o) => Running(results + [v], input + i, output + o)
  }

  /** What `ExecuteBatch` does: one result per request, the token totals
      reported for completions and embeddings, one API call counted per
      request; or the exception that ends it, with no metrics recorded. */
  datatype Execution = Executed(results: seq<Value>, tokens: Option<(int, int)>, apiCalls: nat) | Raised(failure: Failure)

  function ExecuteBatchWith(jsons: seq<Value>, kind: RequestType, throwing: bool, wire: Wire, rethrowOverflow: bool): (e: Execution)
    ensures e.Executed? ==> |e.results| == |jsons| && e.apiCalls == |jsons|
    ensures e.Executed? ==> (e.tokens.Some? <==> !kind.Transcription?)
  {
    match RunPrefix(wire, kind, throwing, rethrowOverflow, |jsons|)
    case Stopped(f) => Raised(f)
    case Running(results, input, output) =>
      Executed(results, if !kind.Transcription? then Some((input, output)) else None, |jsons|)
  }

  /** `ExecuteBatch` as written: the overflow error is swallowed by the
      outer catch. */
  function ExecuteBatchAsWritten(jsons: seq<Value>, kind: RequestType, throwing: bool, wire: Wire): (e: Execution)
    ensures e.Raised? ==> e.failure.RuntimeError?
  {
    AsWrittenRuns(wire, kind, throwing, |jsons|);
    ExecuteBatchWith(jsons, kind, throwing, wire, false)
  }

  /** `ExecuteBatch` with the overflow error let through, as the engines
      that catch it expect. */
  function ExecuteBatch(jsons: seq<Value>, kind: RequestType, throwing: bool, wire: Wire): (e: Execution) {
    ExecuteBatchWith(jsons, kind, throwing, wire, true)
  }

  /** Without overflow passing through, a stopped loop stopped on an
      ordinary runtime error. */
  lemma {:induction false} AsWrittenRuns(wire: Wire, kind: RequestType, throwing: bool, n: nat)
    ensures RunPrefix(wire, kind, throwing, false, n).Stopped? ==> RunPrefix(wire, kind, throwing, false, n).failure.RuntimeError?
    decreases n
  {
    if n > 0 {
      AsWrittenRuns(wire, kind, throwing, n - 1);
    }
  }

  /** The loop runs to the end exactly when every response is handled, and
      then slot `i` holds what response `i` gave. */
  lemma {:induction false} RunPrefixPointwise(wire: Wire, kind: RequestType, throwing: bool, rethrowOverflow: bool, n: nat)
    ensures RunPrefix(wire, kind, throwing, rethrowOverflow, n).Running?
            <==> forall i :: 0 <= i < n ==> Handle(wire(i), kind, throwing, rethrowOverflow).Handled?
    ensures RunPrefix(wire, kind, throwing, rethrowOverflow, n).Running? ==>
      forall i :: 0 <= i < n ==>
        RunPrefix(wire, kind, throwing, rethrowOverflow, n).results[i] == Handle(wire(i), kind, throwing, rethrowOverflow).result
    decreases n
  {
    if n > 0 {
      RunPrefixPointwise(wire, kind, throwing, rethrowOverflow, n - 1);
    }
  }

  /** A stopped loop stopped at the first response that threw. */
  lemma {:induction false} RunPrefixFirstFailure(wire: Wire, kind: RequestType, throwing: bool, rethrowOverflow: bool, n: nat, k: nat)
    requires k < n && Handle(wire(k), kind, throwing, rethrowOverflow).Thrown?
    requires forall i :: 0 <= i < k ==> Handle(wire(i), kind, throwing, rethrowOverflow).Handled?
    ensures RunPrefix(wire, kind, throwing, rethrowOverflow, n) == Stopped(Handle(wire(k), kind, throwing, rethrowOverflow).failure)
    decreases n
  {
    if n == k + 1 {
      RunPrefixPointwise(wire, kind, throwing, rethrowOverflow, k);
    } else {
      RunPrefixFirstFailure(wire, kind, throwing, rethrowOverflow, n - 1, k);
    }
  }

  /** One result per request, in request order: the batch completes
      exactly when every response is handled, and result `i` is then the
      output extracted from response `i`, or null where that response
      failed and the handler only logs. */
  lemma ExecuteBatchResults(jsons: seq<Value>, kind: RequestType, throwing: bool, wire: Wire)
    ensures ExecuteBatch(jsons, kind, throwing, wire).Executed?
            <==> forall i :: 0 <= i < |jsons| ==> Handle(wire(i), kind, throwing, true).Handled?
    ensures var e := ExecuteBatch(jsons, kind, throwing, wire);
      e.Executed? ==> forall i :: 0 <= i < |jsons| ==> e.results[i] == Handle(wire(i), kind, throwing, true).result
  {
    RunPrefixPointwise(wire, kind, throwing, true, |jsons|);
  }

  /** A handler that only logs completes every batch unless a response
      overflows, and a batch of clean responses always completes. */
  lemma QuietHandlerCompletes(jsons: seq<Value>, kind: RequestType, throwing: bool, wire: Wire)
    requires !throwing || forall i :: 0 <= i < |jsons| ==> Clean(wire(i), kind)
    requires forall i :: 0 <= i < |jsons| ==> !(wire(i).Parsed? && wire(i).check.MaxTokens?)
    ensures ExecuteBatch(jsons, kind, throwing, wire).Executed?
    ensures ExecuteBatchAsWritten(jsons, kind, throwing, wire).Executed?
  {
    RunPrefixPointwise(wire, kind, throwing, true, |jsons|);
    RunPrefixPointwise(wire, kind, throwing, false, |jsons|);
  }

  /** As written, an overflow reported by the provider's check leaves the
      batch as an ordinary runtime error carrying the overflow text. */
  lemma OverflowBecomesRuntimeError(wire: Wire)
    requires wire(0) == Parsed(None, MaxTokens, Ok((0, 0)), Ok(Null))
    ensures ExecuteBatchAsWritten([Null], Completion, true, wire)
      == Raised(RuntimeError(ERROR_PREFIX + PROCESSING_ERROR + OVERFLOW_MESSAGE))
  {
    assert Handle(wire(0), Completion, true, false) == Thrown(RuntimeError(ERROR_PREFIX + PROCESSING_ERROR + OVERFLOW_MESSAGE));
    assert RunPrefix(wire, Completion, true, false, 1) == Stopped(RuntimeError(ERROR_PREFIX + PROCESSING_ERROR + OVERFLOW_MESSAGE));
  }

  /** Corrected, the first response that overflows ends the batch with the
      overflow error itself, whichever way the handler reports errors. */
  lemma OverflowPropagates(jsons: seq<Value>, kind: RequestType, throwing: bool, wire: Wire, k: nat)
    requires k < |jsons| && wire(k).Parsed? && wire(k).check.MaxTokens? && (wire(k).error.None? || !throwing)
    requires forall i :: 0 <= i < k ==> Handle(wire(i), kind, throwing, true).Handled?
    ensures ExecuteBatch(jsons, kind, throwing, wire) == Raised(MaxTokensExceeded)
  {
    RunPrefixFirstFailure(wire, kind, throwing, true, |jsons|, k);
  }

  /** The reply an engine sees from a collected batch of completions: the
      items, the overflow it retries on, or a failure. */
  function EngineReply(e: Execution): (r: Reply)
    ensures r.Overflow? <==> e.Raised? && e.failure.MaxTokensExceeded?
  {
    match e
    case Executed(results, _, _) => Items(results)
    case Raised(MaxTokensExceeded) => Overflow
    case Raised(RuntimeError(m)) => Failed(m)
  }

  /** Only the corrected batch can give an engine its overflow reply. */
  lemma OnlyCorrectedOverflows(jsons: seq<Value>, kind: RequestType, throwing: bool, wire: Wire)
    ensures !EngineReply(ExecuteBatchAsWritten(jsons, kind, throwing, wire)).Overflow?
  {
  }

  /** `trigger_error`: throws the prefixed message exactly when the handler
      was built to throw; otherwise the message is only logged. */
  function TriggerError(throwing: bool, msg: string): (r: Option<Failure>)
    ensures r.Some? <==> throwing
    ensures r.Some? ==> r.value == RuntimeError(ERROR_PREFIX + msg)
  {
    if throwing then Some(RuntimeError(ERROR_PREFIX + msg)) else None
  }

  // ----------------------------------------------------------------- queue

  /** The two parallel arrays of queued requests and their types. */
  datatype Queue = Queue(batch: seq<Value>, types: seq<RequestType>)

  const EMPTY_QUEUE: Queue := Queue([], [])

  /** What every reachable queue satisfies: at least one type per queued
      request, since clearing the requests leaves the types behind. */
  predicate Valid(q: Queue) {
    |q.batch| <= |q.types|
  }

  /** Every request sits beside its own type. */
  predicate Aligned(q: Queue) {
    |q.batch| == |q.types|
  }

  /** `AddRequest`. */
  function AddRequest(q: Queue, json: Value, kind: RequestType): (q': Queue)
    ensures Valid(q) ==> Valid(q')
    ensures Aligned(q) ==> Aligned(q')
    ensures |q'.batch| == |q.batch| + 1 && q'.batch[|q.batch|] == json && q'.batch[..|q.batch|] == q.batch
    ensures |q'.types| == |q.types| + 1 && q'.types[|q.types|] == kind && q'.types[..|q.types|] == q.types
  {
    Queue(q.batch + [json], q.types + [kind])
  }

  /** A collection: the queue afterwards and the batch that ran, if any. */
  datatype Collected = Collected(queue: Queue, ran: Option<Execution>)

  /** Which corrections a collection applies: letting the overflow error
      leave the batch as itself, and clearing the request types together
      with the requests. */
  datatype Fixes = Fixes(rethrowOverflow: bool, clearTypes: bool)

  const AS_WRITTEN: Fixes := Fixes(false, false)
  const CORRECTED: Fixes := Fixes(true, true)

  /** `CollectCompletions` and `CollectEmbeddings`: run the whole queue as
      one batch if it is not empty, then clear the requests (as written, but
      not their types). An exception leaves the queue as it was. */
  function CollectAll(q: Queue, kind: RequestType, throwing: bool, wire: Wire, fixes: Fixes): (c: Collected)
    requires !kind.Transcription?
    ensures c.ran.None? <==> |q.batch| == 0
    ensures c.ran.Some? ==> c.ran.value == ExecuteBatchWith(q.batch, kind, throwing, wire, fixes.rethrowOverflow)
    ensures c.ran.Some? && c.ran.value.Raised? ==> c.queue == q
    ensures !(c.ran.Some? && c.ran.value.Raised?) ==> c.queue == Queue([], if fixes.clearTypes then [] else q.types)
    ensures Valid(q) ==> Valid(c.queue)
    ensures fixes.clearTypes && Aligned(q) ==> Aligned(c.queue)
  {
    var cleared := Queue([], if fixes.clearTypes then [] else q.types);
    if |q.batch| == 0 then Collected(cleared, None)
    else
      var e := ExecuteBatchWith(q.batch, kind, throwing, wire, fixes.rethrowOverflow);
      if e.Raised? then Collected(q, Some(e)) else Collected(cleared, Some(e))
  }

  /** As written, a handler that only logs swallows every failure of a
      collected batch, the overflow included: the batch completes, the
      requests are cleared, and an overflowing response leaves a null
      result in its slot. */
  lemma QuietCollectionSwallowsOverflow(q: Queue, kind: RequestType, wire: Wire, k: nat)
    requires !kind.Transcription? && k < |q.batch| && wire(k).Parsed? && wire(k).check.MaxTokens?
    ensures var c := CollectAll(q, kind, false, wire, AS_WRITTEN);
      && c.ran.Some? && c.ran.value.Executed? && c.ran.value.results[k] == Null
      && c.queue == Queue([], q.types)
  {
    RunPrefixPointwise(wire, kind, false, false, |q.batch|);
  }

  /** As written, a throwing handler turns the overflow into a runtime
      error, so the engines never see their overflow signal; corrected, the
      first response that overflows ends the batch with the overflow error,
      and the queue is kept either way. */
  lemma CollectedOverflow(q: Queue, kind: RequestType, throwing: bool, wire: Wire, k: nat)
    requires !kind.Transcription? && k < |q.batch| && wire(k).Parsed? && wire(k).check.MaxTokens? && wire(k).error.None?
    requires forall i :: 0 <= i < k ==> Handle(wire(i), kind, throwing, true).Handled?
    ensures !EngineReply(CollectAll(q, kind, throwing, wire, AS_WRITTEN).ran.value).Overflow?
    ensures var c := CollectAll(q, kind, throwing, wire, CORRECTED);
      c.ran == Some(Raised(MaxTokensExceeded)) && c.queue == q
  {
    AsWrittenRuns(wire, kind, throwing, |q.batch|);
    OverflowPropagates(q.batch, kind, throwing, wire, k);
  }

  /** The queued items at positions `lo..hi` whose type is (or is not) a
      transcription, in order; `xs` is the request array or the type
      array itself. */
  function Filter<X>(xs: seq<X>, types: seq<RequestType>, lo: nat, hi: nat, transcription: bool): (r: seq<X>)
    requires lo <= hi <= |xs| && hi <= |types|
    decreases hi - lo
  {
    if lo == hi then []
    else (if types[lo].Transcription? == transcription then [xs[lo]] else []) + Filter(xs, types, lo + 1, hi, transcription)
  }

  /** The selected and the remaining items split the range. */
  lemma {:induction false} FilterPartition<X>(xs: seq<X>, types: seq<RequestType>, lo: nat, hi: nat)
    requires lo <= hi <= |xs| && hi <= |types|
    ensures multiset(Filter(xs, types, lo, hi, true)) + multiset(Filter(xs, types, lo, hi, false)) == multiset(xs[lo..hi])
    decreases hi - lo
  {
    if lo < hi {
      FilterPartition(xs, types, lo + 1, hi);
      FilterHead(xs, types, lo, hi);
      MultisetHead(xs, lo, hi);
    }
  }

  lemma MultisetHead<X>(xs: seq<X>, lo: nat, hi: nat)
    requires lo < hi <= |xs|
    ensures multiset(xs[lo..hi]) == multiset([xs[lo]]) + multiset(xs[lo + 1..hi])
  {
    assert xs[lo..hi] == [xs[lo]] + xs[lo + 1..hi];
  }

  /** The first item of the range goes to exactly one of the two filters. */
  lemma FilterHead<X>(xs: seq<X>, types: seq<RequestType>, lo: nat, hi: nat)
    requires lo < hi <= |xs| && hi <= |types|
    ensures multiset(Filter(xs, types, lo, hi, true)) + multiset(Filter(xs, types, lo, hi, false))
      == multiset([xs[lo]]) + multiset(Filter(xs, types, lo + 1, hi, true)) + multiset(Filter(xs, types, lo + 1, hi, false))
  {
    if types[lo].Transcription? {
      assert Filter(xs, types, lo, hi, true) == [xs[lo]] + Filter(xs, types, lo + 1, hi, true);
    } else {
      assert Filter(xs, types, lo, hi, false) == [xs[lo]] + Filter(xs, types, lo + 1, hi, false);
    }
  }

  /** How many items a filter keeps depends only on the types. */
  lemma {:induction false} FilterLength<X, Y>(xs: seq<X>, ys: seq<Y>, types: seq<RequestType>, lo: nat, hi: nat, transcription: bool)
    requires lo <= hi <= |xs| && hi <= |ys| && hi <= |types|
    ensures |Filter(xs, types, lo, hi, transcription)| == |Filter(ys, types, lo, hi, transcription)|
    decreases hi - lo
  {
    if lo < hi {
      FilterLength(xs, ys, types, lo + 1, hi, transcription);
    }
  }

  /** The types a filter keeps are the kind it keeps. */
  lemma {:induction false} FilterTypes(types: seq<RequestType>, lo: nat, hi: nat, transcription: bool)
    requires lo <= hi <= |types|
    ensures forall i :: 0 <= i < |Filter(types, types, lo, hi, transcription)| ==>
      Filter(types, types, lo, hi, transcription)[i].Transcription? == transcription
    decreases hi - lo
  {
    if lo < hi {
      FilterTypes(types, lo + 1, hi, transcription);
    }
  }

  /** The queue after the transcriptions are removed: the other requests in
      order, the matching types, and the types beyond the requests. */
  function WithoutTranscriptions(q: Queue): (q': Queue)
    requires Valid(q)
  {
    Queue(Filter(q.batch, q.types, 0, |q.batch|, false),
          Filter(q.types, q.types, 0, |q.batch|, false) + q.types[|q.batch|..])
  }

  /** Removing the transcriptions keeps the queue valid and an aligned
      queue aligned, and leaves no transcription type beside a request. */
  lemma WithoutTranscriptionsValid(q: Queue)
    requires Valid(q)
    ensures Valid(WithoutTranscriptions(q))
    ensures Aligned(q) ==> Aligned(WithoutTranscriptions(q))
    ensures var r := WithoutTranscriptions(q);
      forall i :: 0 <= i < |r.batch| ==> !r.types[i].Transcription?
  {
    FilterLength(q.batch, q.types, q.types, 0, |q.batch|, false);
    FilterTypes(q.types, 0, |q.batch|, false);
  }

  /** `CollectTranscriptions`: run the requests whose type beside them is
      a transcription, then erase them from both arrays. */
  function CollectTranscriptions(q: Queue, throwing: bool, wire: Wire, fixes: Fixes): (c: Collected)
    requires Valid(q)
    ensures var selected := Filter(q.batch, q.types, 0, |q.batch|, true);
      && (c.ran.None? <==> |selected| == 0)
      && (c.ran.Some? ==> c.ran.value == ExecuteBatchWith(selected, Transcription, throwing, wire, fixes.rethrowOverflow))
      && (c.ran.Some? && c.ran.value.Executed? ==> c.queue == WithoutTranscriptions(q))
      && (!(c.ran.Some? && c.ran.value.Executed?) ==> c.queue == q)
  {
    if |q.batch| == 0 then Collected(q, None)
    else
      var selected := Filter(q.batch, q.types, 0, |q.batch|, true);
      if |selected| == 0 then Collected(q, None)
      else
        var e := ExecuteBatchWith(selected, Transcription, throwing, wire, fixes.rethrowOverflow);
        if e.Raised? then Collected(q, Some(e)) else Collected(WithoutTranscriptions(q), Some(e))
  }

  /** The erase loop of `CollectTranscriptions`: walking from the last
      request down, erase each request whose type is a transcription
      together with that type. */
  method RemoveTranscriptions(q: Queue) returns (r: Queue)
    requires Valid(q)
    ensures r == WithoutTranscriptions(q)
  {
    var batch := q.batch;
    var types := q.types;
    var n := |q.batch|;
    var i := n;
    while i > 0
      invariant 0 <= i <= n
      invariant batch == q.batch[..i] + Filter(q.batch, q.types, i, n, false)
      invariant types == q.types[..i] + Filter(q.types, q.types, i, n, false) + q.types[n..]
    {
      EraseStep(q.batch, q.types, i, n);
      EraseStep(q.types, q.types, i, n);
      EraseAppend(q.types[..i] + Filter(q.types, q.types, i, n, false), q.types[n..], i - 1);
      if types[i - 1].Transcription? {
        batch := batch[..i - 1] + batch[i..];
        types := types[..i - 1] + types[i..];
      }
      i := i - 1;
    }
    assert q.batch[..0] == [] && q.types[..0] == [];
    r := Queue(batch, types);
  }

  /** One step of the erase loop on one array: the item at `i - 1` is the
      original one; erasing it when it is a transcription, or keeping it
      otherwise, gives the state one position further down. */
  lemma EraseStep<X>(xs: seq<X>, types: seq<RequestType>, i: nat, n: nat)
    requires 0 < i <= n <= |xs| && n <= |types|
    ensures var cur := xs[..i] + Filter(xs, types, i, n, false);
      && cur[i - 1] == xs[i - 1]
      && (types[i - 1].Transcription? ==> cur[..i - 1] + cur[i..] == xs[..i - 1] + Filter(xs, types, i - 1, n, false))
      && (!types[i - 1].Transcription? ==> cur == xs[..i - 1] + Filter(xs, types, i - 1, n, false))
  {
    var cur := xs[..i] + Filter(xs, types, i, n, false);
    assert xs[..i] == xs[..i - 1] + [xs[i - 1]];
    if types[i - 1].Transcription? {
      assert cur[..i - 1] == xs[..i - 1];
      assert cur[i..] == Filter(xs, types, i, n, false);
    }
  }

  /** Erasing inside the first part of a concatenation. */
  lemma EraseAppend<X>(a: seq<X>, b: seq<X>, k: nat)
    requires k < |a|
    ensures (a + b)[k] == a[k]
    ensures (a + b)[..k] + (a + b)[k + 1..] == a[..k] + a[k + 1..] + b
  {
    assert (a + b)[..k] == a[..k];
    assert (a + b)[k + 1..] == a[k + 1..] + b;
  }

  /** The misalignment: after a completion is collected its type stays
      queued, so a transcription queued next sits beside the stale
      completion type and is neither run nor removed. */
  lemma StaleTypeHidesTranscription(x: Value, y: Value, wire: Wire)
    requires Clean(wire(0), Completion)
    ensures var q1 := AddRequest(EMPTY_QUEUE, x, Completion);
      var q2 := CollectAll(q1, Completion, true, wire, AS_WRITTEN).queue;
      var q3 := AddRequest(q2, y, Transcription);
      q2 == Queue([], [Completion])
      && q3 == Queue([y], [Completion, Transcription])
      && CollectTranscriptions(q3, true, wire, AS_WRITTEN) == Collected(q3, None)
  {
    var q1 := AddRequest(EMPTY_QUEUE, x, Completion);
    QuietHandlerCompletes(q1.batch, Completion, true, wire);
    var q3 := Queue([y], [Completion, Transcription]);
    assert Filter(q3.batch, q3.types, 0, 1, true) == [] + Filter(q3.batch, q3.types, 1, 1, true) == [];
  }

  /** Corrected, the same sequence runs the transcription: the collection
      empties the whole queue, and the transcription is then the one request
      of its own type. */
  lemma ClearedTypesRunTranscription(x: Value, y: Value, wire: Wire)
    requires Clean(wire(0), Completion)
    ensures var q1 := AddRequest(EMPTY_QUEUE, x, Completion);
      var q2 := CollectAll(q1, Completion, true, wire, CORRECTED).queue;
      var q3 := AddRequest(q2, y, Transcription);
      q2 == EMPTY_QUEUE
      && q3 == Queue([y], [Transcription])
      && CollectTranscriptions(q3, true, wire, CORRECTED).ran == Some(ExecuteBatchWith([y], Transcription, true, wire, true))
  {
    var q1 := AddRequest(EMPTY_QUEUE, x, Completion);
    QuietHandlerCompletes(q1.batch, Completion, true, wire);
    var q3 := Queue([y], [Transcription]);
    assert Filter(q3.batch, q3.types, 0, 1, true) == [y] + Filter(q3.batch, q3.types, 1, 1, true) == [y];
  }

  /** Corrected, every operation keeps the two arrays side by side, so each
      request is run by the collection of its own type. */
  lemma CorrectedKeepsAligned(q: Queue, json: Value, kind: RequestType, throwing: bool, wire: Wire)
    requires Aligned(q)
    ensures Aligned(AddRequest(q, json, kind))
    ensures !kind.Transcription? ==> Aligned(CollectAll(q, kind, throwing, wire, CORRECTED).queue)
    ensures Aligned(CollectTranscriptions(q, throwing, wire, CORRECTED).queue)
  {
    WithoutTranscriptionsValid(q);
  }

  /** The requests run and the requests kept split the queue. */
  lemma TranscriptionsPartition(q: Queue)
    requires Valid(q)
    ensures multiset(Filter(q.batch, q.types, 0, |q.batch|, true)) + multiset(WithoutTranscriptions(q).batch) == multiset(q.batch)
  {
    FilterPartition(q.batch, q.types, 0, |q.batch|);
    assert q.batch[0..|q.batch|] == q.batch;
  }

  /** The content type each collection sends by default. */
  function DefaultContentType(kind: RequestType): (t: string)
    ensures kind.Transcription? <==> t == "multipart/form-data"
    ensures !kind.Transcription? <==> t == "application/json"
  {
    if kind.Transcription? then "multipart/form-data" else "application/json"
  }
}
