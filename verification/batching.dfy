/** What the batching engines share: the completion request they hand the
    provider, the three outcomes of a provider call, and the retry policy on
    output-token overflow (shrink the batch to 90% and retry from the same
    row; a batch size that reaches zero is fatal). The provider is an oracle
    indexed by the number of calls already made, and every engine returns
    the trace of its calls. */
module Batching {
  import opened Json
  import opened Columns

  datatype OutputType = STRING | OBJECT | BOOL | INTEGER

  /** `IProvider::GetOutputTypeString`. */
  function OutputTypeString(t: OutputType): (s: string)
    ensures s in {"string", "object", "boolean", "integer"}
  {
    match t
    case STRING => "string"
    case OBJECT => "object"
    case BOOL => "boolean"
    case INTEGER => "integer"
  }

  lemma OutputTypeStringInjective(a: OutputType, b: OutputType)
    ensures OutputTypeString(a) == OutputTypeString(b) ==> a == b
  {
  }

  /** Text of `ExceededMaxOutputTokensError`. */
  const OVERFLOW_MESSAGE: string :=
    "The response exceeded the max_output_tokens length; increase your max_output_tokens parameter."

  const BATCH_SIZE_ERROR: string := "Batch size must be greater than zero"

  const REDUCED_TO_ZERO_ERROR: string := "Batch size reduced to zero, unable to process tuples"

  /** The outcome of one provider call: the `items` array of the response,
      an output-token overflow, or any other error (carried verbatim). */
  datatype Reply = Items(items: seq<Value>) | Overflow | Failed(msg: string)

  type Oracle = nat -> Reply

  /** `response["items"][0]`: the first item, or null when there is none. */
  function First(items: seq<Value>): (v: Value)
    ensures |items| > 0 ==> v == items[0]
    ensures |items| == 0 ==> v == Null
  {
    if |items| > 0 then items[0] else Null
  }

  /** A completion request: the column batch the prompt is rendered from,
      the number of outputs asked for and their type. `summary` is the
      running summary `llm_reduce` appends to its prompt (null elsewhere). */
  datatype Request = Request(columns: Batch, numOutputs: int, outputType: OutputType, summary: Value)

  /** One provider call: the rows `start .. start + size` it covered, what was
      asked and what came back. */
  datatype Step = Step(start: int, size: int, request: Request, reply: Reply)

  /** `static_cast<int>(batch_size * 0.9)`. For every non-negative `int` the
      double product truncates to the same value as the integer quotient:
      the double nearest 0.9 lies above 0.9, so a multiple of ten never
      rounds below its exact tenth, and otherwise the fraction is at least 0.1. */
  function Shrink(bs: int): (r: int)
    requires bs >= 0
    ensures 0 <= r <= bs
    ensures bs > 0 ==> r < bs
  {
    bs * 9 / 10
  }

  /** What the loop does after call `a`: after items it moves to the next
      rows with the same size (it went on only because rows remained), after
      an overflow it retries the same rows with the shrunk size (it went on
      only because that size is positive). A failed call ends the loop. */
  predicate LeadsTo(a: Step, start: int, size: int, n: int) {
    a.size >= 0 &&
    match a.reply
    case Items(_) => a.start + a.size < n && start == a.start + a.size && size == a.size
    case Overflow => Shrink(a.size) > 0 && start == a.start && size == Shrink(a.size)
    case Failed(_) => false
  }

  predicate Continues(a: Step, b: Step, n: int) {
    LeadsTo(a, b.start, b.size, n)
  }

  /** The calls of a loop over `n` rows that starts with batch size `bs0`. */
  predicate Schedule(trace: seq<Step>, n: int, bs0: int) {
    |trace| > 0 && trace[0].start == 0 && trace[0].size == bs0 &&
    forall i :: 0 <= i < |trace| - 1 ==> Continues(trace[i], trace[i + 1], n)
  }

  /** The last call returned items and covered the last row. */
  predicate Completed(trace: seq<Step>, n: int) {
    |trace| > 0 && trace[|trace| - 1].reply.Items? &&
    trace[|trace| - 1].start + trace[|trace| - 1].size >= n
  }

  predicate NoOverflow(trace: seq<Step>) {
    forall i :: 0 <= i < |trace| ==> !trace[i].reply.Overflow?
  }

  function CeilDiv(n: nat, d: nat): nat
    requires d > 0
  {
    (n + d - 1) / d
  }

  lemma {:induction false} StartsWithoutOverflow(trace: seq<Step>, n: int, bs0: int, i: nat)
    requires Schedule(trace, n, bs0) && NoOverflow(trace) && i < |trace|
    ensures trace[i].start == i * bs0 && trace[i].size == bs0
  {
    if i > 0 {
      StartsWithoutOverflow(trace, n, bs0, i - 1);
      assert Continues(trace[i - 1], trace[i], n);
    }
  }

  lemma MultiplyMonotone(a: int, b: int, d: nat)
    ensures a <= b ==> a * d <= b * d
  {
  }

  lemma QuotientBetween(x: nat, d: nat, k: nat)
    requires d > 0 && k * d <= x < (k + 1) * d
    ensures x / d == k
  {
    var q := x / d;
    assert q * d <= x < (q + 1) * d;
    MultiplyMonotone(q + 1, k, d);
    MultiplyMonotone(k + 1, q, d);
  }

  /** Without an overflow a loop over `n` rows with batch size `bs0` calls
      the provider exactly ceil(n / bs0) times: one call even for one row. */
  lemma CallsWithoutOverflow(trace: seq<Step>, n: nat, bs0: nat)
    requires n > 0 && bs0 > 0 && Schedule(trace, n, bs0) && Completed(trace, n) && NoOverflow(trace)
    ensures |trace| == CeilDiv(n, bs0)
  {
    var k := |trace|;
    StartsWithoutOverflow(trace, n, bs0, k - 1);
    assert n <= k * bs0;
    if k >= 2 {
      StartsWithoutOverflow(trace, n, bs0, k - 2);
      assert Continues(trace[k - 2], trace[k - 1], n);
    }
    assert (k - 1) * bs0 < n;
    QuotientBetween(n + bs0 - 1, bs0, k);
  }

  lemma ExtendSchedule(trace: seq<Step>, step: Step, n: int, bs0: int)
    requires |trace| == 0 ==> step.start == 0 && step.size == bs0
    requires |trace| > 0 ==> Schedule(trace, n, bs0) && LeadsTo(trace[|trace| - 1], step.start, step.size, n)
    ensures Schedule(trace + [step], n, bs0)
  {
  }

  /** The position the loop is at after a call: past the call's rows after
      items, still at its first row after an overflow. */
  function Reached(s: Step, n: int): int {
    if s.reply.Items? then Min(s.start + s.size, n) else s.start
  }

  /** The loop never moves back: a retry keeps the start, a success
      advances it. */
  lemma {:induction false} StartsNonDecreasing(trace: seq<Step>, n: int, bs0: int, i: nat, j: nat)
    requires Schedule(trace, n, bs0) && i <= j < |trace|
    ensures trace[i].start <= trace[j].start
    decreases j - i
  {
    if i < j {
      StartsNonDecreasing(trace, n, bs0, i, j - 1);
      assert Continues(trace[j - 1], trace[j], n);
    }
  }

  lemma {:induction false} ScheduleStartsBelow(trace: seq<Step>, n: int, bs0: int, k: nat)
    requires Schedule(trace, n, bs0) && n > 0 && k < |trace|
    ensures 0 <= trace[k].start < n
  {
    if k > 0 {
      ScheduleStartsBelow(trace, n, bs0, k - 1);
      assert Continues(trace[k - 1], trace[k], n);
    }
  }

  lemma {:induction false} ScheduleSizesPositive(trace: seq<Step>, n: int, bs0: int, k: nat)
    requires Schedule(trace, n, bs0) && bs0 > 0 && k < |trace|
    ensures trace[k].size > 0
  {
    if k > 0 {
      ScheduleSizesPositive(trace, n, bs0, k - 1);
      assert Continues(trace[k - 1], trace[k], n);
    }
  }

}
