/** The metrics ledger: for every (thread, state) pair a slot of counters per
    LLM function kind, the registration order each (state, kind) receives
    from its thread's per-kind counter, and the flattened report
    `flock_get_metrics` returns. The thread is an explicit argument where the
    source reads `std::this_thread`, and durations are integer microseconds. */
module Metrics {
  import opened Json
  import opened Wrappers
  import opened Text

  datatype FunctionType =
    | LLM_COMPLETE | LLM_FILTER | LLM_EMBEDDING | LLM_REDUCE
    | LLM_RERANK | LLM_FIRST | LLM_LAST | UNKNOWN

  const NUM_FUNCTION_TYPES: nat := 8

  /** `FunctionTypeToIndex`: the enumerator's underlying value. */
  function TypeIndex(t: FunctionType): (i: nat)
    ensures i < NUM_FUNCTION_TYPES
    ensures i == NUM_FUNCTION_TYPES - 1 <==> t == UNKNOWN
  {
    match t
    case LLM_COMPLETE => 0
    case LLM_FILTER => 1
    case LLM_EMBEDDING => 2
    case LLM_REDUCE => 3
    case LLM_RERANK => 4
    case LLM_FIRST => 5
    case LLM_LAST => 6
    case UNKNOWN => 7
  }

  /** `static_cast<FunctionType>(i)`. */
  function TypeAt(i: nat): (t: FunctionType)
    requires i < NUM_FUNCTION_TYPES
    ensures TypeIndex(t) == i
  {
    if i == 0 then LLM_COMPLETE
    else if i == 1 then LLM_FILTER
    else if i == 2 then LLM_EMBEDDING
    else if i == 3 then LLM_REDUCE
    else if i == 4 then LLM_RERANK
    else if i == 5 then LLM_FIRST
    else if i == 6 then LLM_LAST
    else UNKNOWN
  }

  /** The index is a bijection between the kinds and `0 .. 7`. */
  lemma TypeIndexBijective(t: FunctionType, i: nat)
    requires i < NUM_FUNCTION_TYPES
    ensures TypeAt(TypeIndex(t)) == t
    ensures TypeIndex(t) == i <==> t == TypeAt(i)
  {
  }

  /** `FunctionTypeToString`. */
  function TypeName(t: FunctionType): (s: string)
    ensures s == "unknown" <==> t == UNKNOWN
  {
    match t
    case LLM_COMPLETE => "llm_complete"
    case LLM_FILTER => "llm_filter"
    case LLM_EMBEDDING => "llm_embedding"
    case LLM_REDUCE => "llm_reduce"
    case LLM_RERANK => "llm_rerank"
    case LLM_FIRST => "llm_first"
    case LLM_LAST => "llm_last"
    case UNKNOWN => "unknown"
  }

  /** Distinct kinds print differently. */
  lemma TypeNameInjective(a: FunctionType, b: FunctionType)
    ensures TypeName(a) == TypeName(b) ==> a == b
  {
  }

  /** The five counters of one function slot. */
  datatype Counts = Counts(inputTokens: int, outputTokens: int, apiCalls: int, apiDurationUs: int, executionTimeUs: int)

  const ZERO: Counts := Counts(0, 0, 0, 0, 0)

  function Plus(a: Counts, b: Counts): Counts {
    Counts(a.inputTokens + b.inputTokens, a.outputTokens + b.outputTokens, a.apiCalls + b.apiCalls,
           a.apiDurationUs + b.apiDurationUs, a.executionTimeUs + b.executionTimeUs)
  }

  /** `FunctionMetricsData`. */
  datatype Data = Data(modelName: string, provider: string, counts: Counts)

  const DEFAULT: Data := Data("", "", ZERO)

  /** `FunctionMetricsData::IsEmpty`: all five counters are zero; the model
      and provider do not matter. */
  predicate IsEmptyData(d: Data) {
    d.counts == ZERO
  }

  /** `FunctionMetricsData::ToJson`. The two millisecond figures are the
      exact quotients; the rounding of the source's doubles is not modelled. */
  function DataToJson(d: Data): (v: Value)
    ensures v.Obj?
    ensures "model_name" in v.fields <==> d.modelName != ""
    ensures "provider" in v.fields <==> d.provider != ""
    ensures "total_tokens" in v.fields && v.fields["total_tokens"].Int?
    ensures v.fields["total_tokens"].i == d.counts.inputTokens + d.counts.outputTokens
  {
    var c := d.counts;
    var base := map[
      "input_tokens" := Int(c.inputTokens),
      "output_tokens" := Int(c.outputTokens),
      "total_tokens" := Int(c.inputTokens + c.outputTokens),
      "api_calls" := Int(c.apiCalls),
      "api_duration_ms" := Real(c.apiDurationUs as real / 1000.0),
      "execution_time_ms" := Real(c.executionTimeUs as real / 1000.0)];
    var withModel := if d.modelName != "" then base["model_name" := Str(d.modelName)] else base;
    Obj(if d.provider != "" then withModel["provider" := Str(d.provider)] else withModel)
  }

  /** `ThreadMetrics`: one slot per kind, addressed by `TypeIndex`. */
  type ThreadMetrics = s: seq<Data> | |s| == NUM_FUNCTION_TYPES witness [DEFAULT, DEFAULT, DEFAULT, DEFAULT, DEFAULT, DEFAULT, DEFAULT, DEFAULT]

  /** A default-constructed `ThreadMetrics`, and the result of its `Reset`. */
  const FRESH: ThreadMetrics := [DEFAULT, DEFAULT, DEFAULT, DEFAULT, DEFAULT, DEFAULT, DEFAULT, DEFAULT]

  function Slot(tm: ThreadMetrics, k: FunctionType): Data {
    tm[TypeIndex(k)]
  }

  function WithSlot(tm: ThreadMetrics, k: FunctionType, d: Data): (r: ThreadMetrics)
    ensures Slot(r, k) == d
    ensures forall j :: j != k ==> Slot(r, j) == Slot(tm, j)
  {
    tm[TypeIndex(k) := d]
  }

  /** `ThreadMetrics::Reset`: every slot back to its default. */
  function ResetSlots(tm: ThreadMetrics): (r: ThreadMetrics)
    ensures forall k :: Slot(r, k) == DEFAULT
  {
    FRESH
  }

  /** `ThreadMetrics::IsEmpty`: the loop over all eight slots. */
  predicate IsEmptyMetrics(tm: ThreadMetrics) {
    forall i :: 0 <= i < NUM_FUNCTION_TYPES ==> IsEmptyData(tm[i])
  }

  /** A state's metrics are empty exactly when the slot of every kind is. */
  lemma IsEmptyMetricsBySlot(tm: ThreadMetrics)
    ensures IsEmptyMetrics(tm) <==> forall k :: IsEmptyData(Slot(tm, k))
  {
    if forall k :: IsEmptyData(Slot(tm, k)) {
      forall i | 0 <= i < NUM_FUNCTION_TYPES
        ensures IsEmptyData(tm[i])
      {
        assert Slot(tm, TypeAt(i)) == tm[i];
      }
    }
  }

  type ThreadId = nat

  /** The opaque address a state is tracked under; 0 is the null pointer. */
  type StateId = nat

  /** `BaseMetricsManager`'s three maps: metrics per (thread, state),
      registration order per (state, kind), invocation counter per
      (thread, kind). The nested thread -> state map is flattened. */
  datatype Ledger = Ledger(
    metrics: map<(ThreadId, StateId), ThreadMetrics>,
    order: map<(StateId, FunctionType), nat>,
    counters: map<(ThreadId, FunctionType), nat>)

  /** A new manager, and the result of `Reset`. */
  const EMPTY_LEDGER: Ledger := Ledger(map[], map[], map[])

  /** What `GetThreadMetrics` returns: the stored entry or a fresh one. */
  function Entry(l: Ledger, t: ThreadId, s: StateId): ThreadMetrics {
    if (t, s) in l.metrics then l.metrics[(t, s)] else FRESH
  }

  function Current(l: Ledger, t: ThreadId, s: StateId, k: FunctionType): Data {
    Slot(Entry(l, t, s), k)
  }

  function Counter(l: Ledger, t: ThreadId, k: FunctionType): nat {
    if (t, k) in l.counters then l.counters[(t, k)] else 0
  }

  /** `GetThreadMetrics` (and `RegisterThread`) as a change of the ledger:
      the entry exists afterwards, with the contents it was read with. */
  function Register(l: Ledger, t: ThreadId, s: StateId): (r: Ledger)
    ensures (t, s) in r.metrics && r.metrics.Keys == l.metrics.Keys + {(t, s)}
    ensures forall t': ThreadId, s': StateId :: Entry(r, t', s') == Entry(l, t', s')
    ensures r.order == l.order && r.counters == l.counters
  {
    if (t, s) in l.metrics then l else l.(metrics := l.metrics[(t, s) := FRESH])
  }

  /** Every registration order is positive. */
  predicate OrdersPositive(l: Ledger) {
    forall key :: key in l.order ==> l.order[key] >= 1
  }

  /** Some state holds order `j` for kind `k`. */
  ghost predicate Held(l: Ledger, k: FunctionType, j: nat) {
    exists s: StateId :: (s, k) in l.order && l.order[(s, k)] == j
  }

  /** Every order a thread's counter has handed out for a kind is held. */
  ghost predicate OrdersDense(l: Ledger) {
    forall t: ThreadId, k: FunctionType, j: nat :: 1 <= j <= Counter(l, t, k) ==> Held(l, k, j)
  }

  ghost predicate OrderInvariant(l: Ledger) {
    OrdersPositive(l) && OrdersDense(l)
  }

  /** Orders, once assigned, never change and are never dropped. */
  predicate OrdersKept(l: Ledger, r: Ledger) {
    forall key :: key in l.order ==> key in r.order && r.order[key] == l.order[key]
  }

  /** `BaseMetricsManager::StartInvocation`: registers the entry; the first
      invocation of a (state, kind) takes the thread's next order for that
      kind, a repeated one changes neither its order nor the counter. */
  function StartInvocation(l: Ledger, t: ThreadId, s: StateId, k: FunctionType): (r: Ledger)
    ensures r.metrics == Register(l, t, s).metrics
    ensures (s, k) in r.order && OrdersKept(l, r)
    ensures (s, k) in l.order ==> r.order == l.order && Counter(r, t, k) == Counter(l, t, k)
    ensures (s, k) !in l.order ==>
      r.order == l.order[(s, k) := Counter(l, t, k) + 1] && Counter(r, t, k) == Counter(l, t, k) + 1
    ensures forall t': ThreadId, k': FunctionType :: (t', k') != (t, k) ==> Counter(r, t', k') == Counter(l, t', k')
  {
    var l1 := Register(l, t, s);
    var c := Counter(l1, t, k);
    var l2 := l1.(counters := l1.counters[(t, k) := c]);
    if (s, k) in l2.order then l2
    else l2.(counters := l2.counters[(t, k) := c + 1], order := l2.order[(s, k) := c + 1])
  }

  /** Registration keeps every order positive and every handed-out order held. */
  lemma StartInvocationKeepsOrders(l: Ledger, t: ThreadId, s: StateId, k: FunctionType)
    requires OrderInvariant(l)
    ensures OrderInvariant(StartInvocation(l, t, s, k))
  {
    var r := StartInvocation(l, t, s, k);
    forall t': ThreadId, k': FunctionType, j: nat | 1 <= j <= Counter(r, t', k')
      ensures Held(r, k', j)
    {
      if (t', k') == (t, k) && (s, k) !in l.order && j == Counter(r, t, k) {
        assert (s, k) in r.order && r.order[(s, k)] == j;
      } else {
        assert Held(l, k', j);
        var s': StateId :| (s', k') in l.order && l.order[(s', k')] == j;
        assert (s', k') in r.order && r.order[(s', k')] == j;
      }
    }
  }

  /** Writes slot `k` of the (thread, state) entry, creating the entry. */
  function Write(l: Ledger, t: ThreadId, s: StateId, k: FunctionType, d: Data): (r: Ledger)
    ensures Current(r, t, s, k) == d
    ensures Elsewhere(l, r, t, s, k)
  {
    l.(metrics := l.metrics[(t, s) := WithSlot(Entry(l, t, s), k, d)])
  }

  /** Nothing but slot `k` of the (thread, state) entry differs. */
  ghost predicate Elsewhere(l: Ledger, r: Ledger, t: ThreadId, s: StateId, k: FunctionType) {
    r.order == l.order && r.counters == l.counters &&
    r.metrics.Keys == l.metrics.Keys + {(t, s)} &&
    (forall t': ThreadId, s': StateId :: (t', s') != (t, s) ==> Entry(r, t', s') == Entry(l, t', s')) &&
    (forall k' :: k' != k ==> Current(r, t, s, k') == Current(l, t, s, k'))
  }

  /** `SetModelInfo`: each of model and provider is written only while empty. */
  function SetModelInfo(l: Ledger, t: ThreadId, s: StateId, k: FunctionType, model: string, provider: string): (r: Ledger)
    ensures Current(r, t, s, k).counts == Current(l, t, s, k).counts
    ensures Current(l, t, s, k).modelName != "" ==> Current(r, t, s, k).modelName == Current(l, t, s, k).modelName
    ensures Current(l, t, s, k).modelName == "" ==> Current(r, t, s, k).modelName == model
    ensures Current(l, t, s, k).provider != "" ==> Current(r, t, s, k).provider == Current(l, t, s, k).provider
    ensures Current(l, t, s, k).provider == "" ==> Current(r, t, s, k).provider == provider
    ensures Elsewhere(l, r, t, s, k)
  {
    var m := Current(l, t, s, k);
    Write(l, t, s, k, Data(if m.modelName == "" then model else m.modelName,
                           if m.provider == "" then provider else m.provider, m.counts))
  }

  /** The first non-empty model and provider win: a second `SetModelInfo`
      changes nothing. */
  lemma SetModelInfoFirstWins(l: Ledger, t: ThreadId, s: StateId, k: FunctionType, m1: string, p1: string, m2: string, p2: string)
    requires m1 != "" && p1 != ""
    ensures var once := SetModelInfo(l, t, s, k, m1, p1);
      SetModelInfo(once, t, s, k, m2, p2) == once
  {
    var once := SetModelInfo(l, t, s, k, m1, p1);
    var twice := SetModelInfo(once, t, s, k, m2, p2);
    assert Entry(twice, t, s) == Entry(once, t, s);
    assert twice.metrics == once.metrics;
  }

  /** Adds `delta` to the counters of slot `k`. */
  function Bump(l: Ledger, t: ThreadId, s: StateId, k: FunctionType, delta: Counts): (r: Ledger)
    ensures Current(r, t, s, k).counts == Plus(Current(l, t, s, k).counts, delta)
    ensures Current(r, t, s, k).modelName == Current(l, t, s, k).modelName
    ensures Current(r, t, s, k).provider == Current(l, t, s, k).provider
    ensures Elsewhere(l, r, t, s, k)
  {
    var m := Current(l, t, s, k);
    Write(l, t, s, k, m.(counts := Plus(m.counts, delta)))
  }

  /** `UpdateTokens`. */
  function UpdateTokens(l: Ledger, t: ThreadId, s: StateId, k: FunctionType, input: int, output: int): (r: Ledger)
    ensures Current(r, t, s, k).counts.inputTokens == Current(l, t, s, k).counts.inputTokens + input
    ensures Current(r, t, s, k).counts.outputTokens == Current(l, t, s, k).counts.outputTokens + output
    ensures Current(r, t, s, k).counts.apiCalls == Current(l, t, s, k).counts.apiCalls
    ensures Elsewhere(l, r, t, s, k)
  {
    Bump(l, t, s, k, Counts(input, output, 0, 0, 0))
  }

  /** `IncrementApiCalls`. */
  function IncrementApiCalls(l: Ledger, t: ThreadId, s: StateId, k: FunctionType): (r: Ledger)
    ensures Current(r, t, s, k).counts.apiCalls == Current(l, t, s, k).counts.apiCalls + 1
    ensures Current(r, t, s, k).counts.inputTokens == Current(l, t, s, k).counts.inputTokens
    ensures Elsewhere(l, r, t, s, k)
  {
    Bump(l, t, s, k, Counts(0, 0, 1, 0, 0))
  }

  /** `AddApiDuration`, in microseconds. */
  function AddApiDuration(l: Ledger, t: ThreadId, s: StateId, k: FunctionType, us: int): (r: Ledger)
    ensures Current(r, t, s, k).counts.apiDurationUs == Current(l, t, s, k).counts.apiDurationUs + us
    ensures Current(r, t, s, k).counts.executionTimeUs == Current(l, t, s, k).counts.executionTimeUs
    ensures Elsewhere(l, r, t, s, k)
  {
    Bump(l, t, s, k, Counts(0, 0, 0, us, 0))
  }

  /** `AddExecutionTime`, in microseconds. */
  function AddExecutionTime(l: Ledger, t: ThreadId, s: StateId, k: FunctionType, us: int): (r: Ledger)
    ensures Current(r, t, s, k).counts.executionTimeUs == Current(l, t, s, k).counts.executionTimeUs + us
    ensures Current(r, t, s, k).counts.apiDurationUs == Current(l, t, s, k).counts.apiDurationUs
    ensures Elsewhere(l, r, t, s, k)
  {
    Bump(l, t, s, k, Counts(0, 0, 0, 0, us))
  }

  /** Counters accumulate: two token updates are one update by the sums. */
  lemma TokensAdditive(l: Ledger, t: ThreadId, s: StateId, k: FunctionType, a: int, b: int, c: int, d: int)
    ensures UpdateTokens(UpdateTokens(l, t, s, k, a, b), t, s, k, c, d) == UpdateTokens(l, t, s, k, a + c, b + d)
  {
    BumpTwice(l, t, s, k, Counts(a, b, 0, 0, 0), Counts(c, d, 0, 0, 0));
  }

  /** Two API durations add up to one. */
  lemma ApiDurationAdditive(l: Ledger, t: ThreadId, s: StateId, k: FunctionType, a: int, c: int)
    ensures AddApiDuration(AddApiDuration(l, t, s, k, a), t, s, k, c) == AddApiDuration(l, t, s, k, a + c)
  {
    BumpTwice(l, t, s, k, Counts(0, 0, 0, a, 0), Counts(0, 0, 0, c, 0));
  }

  /** Two execution times add up to one. */
  lemma ExecutionTimeAdditive(l: Ledger, t: ThreadId, s: StateId, k: FunctionType, a: int, c: int)
    ensures AddExecutionTime(AddExecutionTime(l, t, s, k, a), t, s, k, c) == AddExecutionTime(l, t, s, k, a + c)
  {
    BumpTwice(l, t, s, k, Counts(0, 0, 0, 0, a), Counts(0, 0, 0, 0, c));
  }

  lemma BumpTwice(l: Ledger, t: ThreadId, s: StateId, k: FunctionType, x: Counts, y: Counts)
    ensures Bump(Bump(l, t, s, k, x), t, s, k, y) == Bump(l, t, s, k, Plus(x, y))
  {
    var once := Bump(l, t, s, k, x);
    var twice := Bump(once, t, s, k, y);
    var direct := Bump(l, t, s, k, Plus(x, y));
    assert Entry(twice, t, s) == Entry(direct, t, s);
    assert twice.metrics == direct.metrics;
  }

  /** `Reset`: all three maps cleared. */
  function Reset(l: Ledger): (r: Ledger)
    ensures |r.metrics| == 0 && |r.order| == 0 && |r.counters| == 0
  {
    EMPTY_LEDGER
  }
}
