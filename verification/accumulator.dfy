/** The per-group state every aggregate LLM function accumulates: a JSON
    array of columns, appended to positionally as rows arrive (`Update`) and
    as partial states are merged (`Combine`). DuckDB hands the functions
    arrays of state pointers; they are modelled as a heap from pointers to
    states, with pointer 0 standing for null. */
module Accumulator {
  import opened Json
  import opened Wrappers
  import opened Columns

  datatype State = State(value: Option<Batch>, initialized: bool)

  type Ptr = nat

  const NULL_PTR: Ptr := 0

  type Heap = map<Ptr, State>

  /** A result vector of the query: `None` is SQL NULL. */
  type ResultVector = seq<Option<string>>

  function Initialize(s: State): (r: State)
    ensures r.value == Some([]) && r.initialized
  {
    State(Some([]), true)
  }

  /** Appends `incoming` to an accumulated column: data is concatenated, a
      metadata key already present keeps its value (first write wins). */
  function AddColumn(acc: Column, incoming: Column): (r: Column)
    ensures r.data == acc.data + incoming.data
    ensures r.meta.Keys == acc.meta.Keys + incoming.meta.Keys
    ensures forall k :: k in r.meta ==>
      r.meta[k] == if k in acc.meta then acc.meta[k] else incoming.meta[k]
  {
    Column(acc.data + incoming.data, incoming.meta + acc.meta)
  }

  /** The positional merge shared by `Update` and `Combine`: column `i` of
      `input` is appended to column `i` of `acc`, a column being created
      with empty data when `acc` has fewer columns. */
  function Absorb(acc: Batch, input: Batch): (r: Batch)
    ensures |r| == Max(|acc|, |input|)
    ensures forall i :: 0 <= i < |input| ==>
      r[i] == AddColumn(if i < |acc| then acc[i] else EmptyColumn, input[i])
    ensures forall i :: |input| <= i < |acc| ==> r[i] == acc[i]
  {
    seq(Max(|acc|, |input|), i requires 0 <= i < Max(|acc|, |input|) =>
      if i < |input| then AddColumn(if i < |acc| then acc[i] else EmptyColumn, input[i])
      else acc[i])
  }

  /** `AggregateFunctionState::Update`: a null value is first initialised. */
  function Update(s: State, input: Batch): (r: State)
    ensures r.value.Some?
    ensures r.value.value == Absorb(s.value.GetOr([]), input)
    ensures r.initialized == (s.initialized || s.value.None?)
  {
    var base := if s.value.None? then Initialize(s) else s;
    State(Some(Absorb(base.value.value, input)), base.initialized)
  }

  /** `AggregateFunctionState::Combine`: the source's columns are appended to
      the target's; a null source leaves the (initialised) target as is. */
  function Combine(target: State, source: State): (r: State)
    ensures r.value.Some?
    ensures source.value.Some? ==> r.value.value == Absorb(target.value.GetOr([]), source.value.value)
    ensures source.value.None? ==> r.value.value == target.value.GetOr([])
    ensures r.initialized == (target.initialized || target.value.None?)
  {
    var base := if target.value.None? then Initialize(target) else target;
    match source.value
    case None => base
    case Some(cols) => State(Some(Absorb(base.value.value, cols)), base.initialized)
  }

  function Destroy(s: State): (r: State)
    ensures r.value.None? && !r.initialized
  {
    State(None, false)
  }

  /** Absorbing nothing, or into nothing, changes nothing. */
  lemma AbsorbIdentity(b: Batch)
    ensures Absorb(b, []) == b
    ensures Absorb([], b) == b
  {
    var r := Absorb([], b);
    forall i | 0 <= i < |b|
      ensures r[i] == b[i]
    {
      assert b[i].meta + EmptyColumn.meta == b[i].meta;
      assert EmptyColumn.data + b[i].data == b[i].data;
    }
  }

  /** Column `i` of a batch, or a fresh empty column past its end. */
  function Get(b: Batch, i: nat): Column {
    if i < |b| then b[i] else EmptyColumn
  }

  lemma AddEmpty(x: Column)
    ensures AddColumn(x, EmptyColumn) == x
  {
    assert x.data + [] == x.data;
    assert map[] + x.meta == x.meta;
  }

  lemma AddColumnAssociative(x: Column, y: Column, z: Column)
    ensures AddColumn(AddColumn(x, y), z) == AddColumn(x, AddColumn(y, z))
  {
    assert (x.data + y.data) + z.data == x.data + (y.data + z.data);
    assert z.meta + (y.meta + x.meta) == (z.meta + y.meta) + x.meta;
  }

  /** Every column of a merge, the positions past the end included, is the
      merge of the two columns at that position. */
  lemma AbsorbGet(a: Batch, b: Batch, i: nat)
    ensures Get(Absorb(a, b), i) == AddColumn(Get(a, i), Get(b, i))
  {
    if i >= |b| {
      AddEmpty(Get(a, i));
    }
  }

  /** Merging is associative, so the order in which DuckDB combines partial
      states does not matter (their left-to-right order does). */
  lemma AbsorbAssociative(a: Batch, b: Batch, c: Batch)
    ensures Absorb(Absorb(a, b), c) == Absorb(a, Absorb(b, c))
  {
    var lhs := Absorb(Absorb(a, b), c);
    var rhs := Absorb(a, Absorb(b, c));
    assert |lhs| == |rhs|;
    forall i | 0 <= i < |lhs|
      ensures lhs[i] == rhs[i]
    {
      AbsorbGet(Absorb(a, b), c, i);
      AbsorbGet(a, b, i);
      AbsorbGet(a, Absorb(b, c), i);
      AbsorbGet(b, c, i);
      AddColumnAssociative(Get(a, i), Get(b, i), Get(c, i));
      assert lhs[i] == Get(lhs, i) && rhs[i] == Get(rhs, i);
    }
  }

  /** Row `i` of a column batch as the one-row tuple `Operation` builds. */
  function RowTuple(cols: Batch, i: nat): (r: Batch)
    ensures |r| == |cols|
    ensures forall c :: 0 <= c < |cols| ==> r[c] == Column([At(cols[c].data, i)], cols[c].meta)
  {
    seq(|cols|, c requires 0 <= c < |cols| => Column([At(cols[c].data, i)], cols[c].meta))
  }

  /** `Operation`: row `i` is appended to the state `rows[i]` points to,
      rows with a null pointer are skipped. */
  function Operation(heap: Heap, rows: seq<Ptr>, cols: Batch): (r: Heap)
    requires forall i :: 0 <= i < |rows| && rows[i] != NULL_PTR ==> rows[i] in heap
    ensures r.Keys == heap.Keys
    ensures forall p :: p in heap && p !in rows ==> r[p] == heap[p]
    decreases |rows|
  {
    if |rows| == 0 then heap
    else
      var before := Operation(heap, rows[..|rows| - 1], cols);
      var p := rows[|rows| - 1];
      if p == NULL_PTR then before
      else before[p := Update(before[p], RowTuple(cols, |rows| - 1))]
  }

  /** `SimpleUpdate`: the whole batch goes to one state. */
  function SimpleUpdate(heap: Heap, p: Ptr, cols: Batch): (r: Heap)
    requires p != NULL_PTR ==> p in heap
    ensures r.Keys == heap.Keys
    ensures forall q :: q in heap && q != p ==> r[q] == heap[q]
    ensures p != NULL_PTR ==> r[p].value == Some(Absorb(heap[p].value.GetOr([]), cols))
  {
    if p == NULL_PTR then heap else heap[p := Update(heap[p], cols)]
  }

  /** The first `k` rows of every column. */
  function Prefix(cols: Batch, k: nat): (r: Batch)
    requires forall c :: 0 <= c < |cols| ==> k <= |cols[c].data|
    ensures |r| == |cols|
    ensures forall c :: 0 <= c < |cols| ==> r[c] == Column(cols[c].data[..k], cols[c].meta)
  {
    seq(|cols|, c requires 0 <= c < |cols| => Column(cols[c].data[..k], cols[c].meta))
  }

  lemma PrefixStep(cols: Batch, k: nat)
    requires forall c :: 0 <= c < |cols| ==> k < |cols[c].data|
    ensures Absorb(Prefix(cols, k), RowTuple(cols, k)) == Prefix(cols, k + 1)
  {
    var lhs := Absorb(Prefix(cols, k), RowTuple(cols, k));
    forall c | 0 <= c < |cols|
      ensures lhs[c] == Prefix(cols, k + 1)[c]
    {
      assert cols[c].data[..k] + [cols[c].data[k]] == cols[c].data[..k + 1];
      assert cols[c].meta + cols[c].meta == cols[c].meta;
    }
  }

  /** Feeding the rows of one group one at a time (`Operation`) leaves the
      state exactly as handing it the whole batch (`SimpleUpdate`). */
  lemma OperationMatchesSimpleUpdate(heap: Heap, rows: seq<Ptr>, p: Ptr, cols: Batch)
    requires p != NULL_PTR && p in heap && |rows| > 0
    requires forall i :: 0 <= i < |rows| ==> rows[i] == p
    requires forall c :: 0 <= c < |cols| ==> |cols[c].data| == |rows|
    ensures Operation(heap, rows, cols) == SimpleUpdate(heap, p, cols)
  {
    RowsFoldToPrefix(heap, rows, p, cols, |rows|);
    assert rows[..|rows|] == rows;
    forall c | 0 <= c < |cols|
      ensures Prefix(cols, |rows|)[c] == cols[c]
    {
      assert cols[c].data[..|rows|] == cols[c].data;
    }
    assert Prefix(cols, |rows|) == cols;
  }

  lemma RowTupleIsFirstPrefix(cols: Batch)
    requires forall c :: 0 <= c < |cols| ==> 0 < |cols[c].data|
    ensures RowTuple(cols, 0) == Prefix(cols, 1)
  {
    forall c | 0 <= c < |cols|
      ensures RowTuple(cols, 0)[c] == Prefix(cols, 1)[c]
    {
      assert cols[c].data[..1] == [cols[c].data[0]];
    }
  }

  /** Appending row `k` to a state that holds the first `k` rows after `acc`
      leaves it holding the first `k + 1`. */
  lemma UpdateExtendsPrefix(s: State, acc: Batch, init: bool, cols: Batch, k: nat)
    requires forall c :: 0 <= c < |cols| ==> k < |cols[c].data|
    requires s == State(Some(Absorb(acc, Prefix(cols, k))), init)
    ensures Update(s, RowTuple(cols, k)) == State(Some(Absorb(acc, Prefix(cols, k + 1))), init)
  {
    AbsorbAssociative(acc, Prefix(cols, k), RowTuple(cols, k));
    PrefixStep(cols, k);
  }

  lemma {:induction false} RowsFoldToPrefix(heap: Heap, rows: seq<Ptr>, p: Ptr, cols: Batch, k: nat)
    requires p != NULL_PTR && p in heap
    requires forall i :: 0 <= i < |rows| ==> rows[i] == p
    requires forall c :: 0 <= c < |cols| ==> |cols[c].data| == |rows|
    requires 0 < k <= |rows|
    ensures Operation(heap, rows[..k], cols) ==
      heap[p := State(Some(Absorb(heap[p].value.GetOr([]), Prefix(cols, k))),
                      heap[p].initialized || heap[p].value.None?)]
  {
    assert rows[..k][..k - 1] == rows[..k - 1];
    assert rows[..k][k - 1] == p;
    var before := Operation(heap, rows[..k - 1], cols);
    assert Operation(heap, rows[..k], cols) == before[p := Update(before[p], RowTuple(cols, k - 1))];
    if k == 1 {
      RowTupleIsFirstPrefix(cols);
    } else {
      RowsFoldToPrefix(heap, rows, p, cols, k - 1);
      UpdateExtendsPrefix(before[p], heap[p].value.GetOr([]), heap[p].initialized || heap[p].value.None?, cols, k - 1);
    }
  }

  /** Two successive updates equal one update with the two inputs merged. */
  lemma UpdateTwice(s: State, a: Batch, b: Batch)
    ensures Update(Update(s, a), b).value == Update(s, Absorb(a, b)).value
  {
    AbsorbAssociative(s.value.GetOr([]), a, b);
  }

  predicate ValidPtrs(heap: Heap, ptrs: seq<Ptr>) {
    forall i :: 0 <= i < |ptrs| && ptrs[i] != NULL_PTR ==> ptrs[i] in heap
  }

  /** The vectorised `Combine`: pair `i` merges `sources[i]` into
      `targets[i]`; a pair with a null side is skipped. */
  function CombineAll(heap: Heap, sources: seq<Ptr>, targets: seq<Ptr>): (r: Heap)
    requires |sources| == |targets| && ValidPtrs(heap, sources) && ValidPtrs(heap, targets)
    ensures r.Keys == heap.Keys
    ensures forall p :: p in heap && p !in targets ==> r[p] == heap[p]
    decreases |targets|
  {
    if |targets| == 0 then heap
    else
      var n := |targets| - 1;
      var before := CombineAll(heap, sources[..n], targets[..n]);
      if sources[n] == NULL_PTR || targets[n] == NULL_PTR then before
      else before[targets[n] := Combine(before[targets[n]], before[sources[n]])]
  }

  /** When no state is both a source and a target and every target appears
      once, each target ends up as its own combination with its source. */
  lemma {:induction false} CombineAllPairwise(heap: Heap, sources: seq<Ptr>, targets: seq<Ptr>)
    requires |sources| == |targets| && ValidPtrs(heap, sources) && ValidPtrs(heap, targets)
    requires forall i, j :: 0 <= i < |sources| && 0 <= j < |targets| ==> sources[i] != targets[j]
    requires forall i, j :: 0 <= i < j < |targets| ==> targets[i] != targets[j]
    ensures forall i :: 0 <= i < |targets| && sources[i] != NULL_PTR && targets[i] != NULL_PTR ==>
      CombineAll(heap, sources, targets)[targets[i]] == Combine(heap[targets[i]], heap[sources[i]])
    ensures forall i :: 0 <= i < |sources| && sources[i] != NULL_PTR ==>
      CombineAll(heap, sources, targets)[sources[i]] == heap[sources[i]]
    decreases |targets|
  {
    if |targets| > 0 {
      var n := |targets| - 1;
      var ss, ts := sources[..n], targets[..n];
      CombineAllPairwise(heap, ss, ts);
      var before := CombineAll(heap, ss, ts);
      var after := CombineAll(heap, sources, targets);
      assert targets[n] !in ts by {
        forall j | 0 <= j < n ensures ts[j] != targets[n] {
          assert ts[j] == targets[j];
        }
      }
      assert sources[n] !in ts by {
        forall j | 0 <= j < n ensures ts[j] != sources[n] {
          assert ts[j] == targets[j];
        }
      }
      forall i | 0 <= i < |targets| && sources[i] != NULL_PTR && targets[i] != NULL_PTR
        ensures after[targets[i]] == Combine(heap[targets[i]], heap[sources[i]])
      {
        if i < n {
          assert ss[i] == sources[i] && ts[i] == targets[i];
          assert targets[i] != targets[n];
        }
      }
      forall i | 0 <= i < |sources| && sources[i] != NULL_PTR
        ensures after[sources[i]] == heap[sources[i]]
      {
        assert sources[i] != targets[n];
        if i < n {
          assert ss[i] == sources[i];
        }
      }
    }
  }

  /** The vectorised `Destroy`: every non-null state is reset. */
  function DestroyAll(heap: Heap, ptrs: seq<Ptr>): (r: Heap)
    requires ValidPtrs(heap, ptrs)
    ensures r.Keys == heap.Keys
    ensures forall i :: 0 <= i < |ptrs| && ptrs[i] != NULL_PTR ==> r[ptrs[i]] == State(None, false)
    ensures forall p :: p in heap && p !in ptrs ==> r[p] == heap[p]
    decreases |ptrs|
  {
    if |ptrs| == 0 then heap
    else
      var n := |ptrs| - 1;
      var before := DestroyAll(heap, ptrs[..n]);
      if ptrs[n] == NULL_PTR then before else before[ptrs[n] := Destroy(before[ptrs[n]])]
  }

  /** `FinalizeSafe`: every one of the `count` result slots from `offset`
      receives the empty JSON array text. */
  function FinalizeSafe(result: ResultVector, count: nat, offset: nat): (r: ResultVector)
    requires offset + count <= |result|
    ensures |r| == |result|
    ensures forall i :: offset <= i < offset + count ==> r[i] == Some("[]")
    ensures forall i :: 0 <= i < |result| && !(offset <= i < offset + count) ==> r[i] == result[i]
  {
    seq(|result|, i requires 0 <= i < |result| =>
      if offset <= i < offset + count then Some("[]") else result[i])
  }

  /** What a finalizer reads from entry `s` of the state vector (`None` for a
      null pointer): the accumulated columns, or nothing when the pointer or
      its value is null or the array is empty. */
  function Content(s: Option<State>): (r: Option<Batch>)
    ensures r.Some? <==> s.Some? && s.value.value.Some? && |s.value.value.value| > 0
    ensures r.Some? ==> r.value == s.value.value.value
  {
    if s.Some? && s.value.value.Some? && |s.value.value.value| > 0 then s.value.value else None
  }

  /** Whether a finalizer runs its engine over `s` (and records it for the
      metrics merge): its array is non-empty. */
  predicate HasContent(s: Option<State>) {
    Content(s).Some?
  }

  /** The positions of `xs` whose element satisfies `p`, in order: the
      states a finalizer records for the metrics merge. */
  function Marked<T>(xs: seq<T>, p: T -> bool): (r: seq<nat>)
    ensures |r| <= |xs|
    decreases |xs|
  {
    if |xs| == 0 then []
    else Marked(xs[..|xs| - 1], p) + if p(xs[|xs| - 1]) then [|xs| - 1] else []
  }

  /** `Marked` lists exactly the positions whose element satisfies `p`, each
      once and in increasing order. */
  lemma {:induction false} MarkedListed<T>(xs: seq<T>, p: T -> bool)
    ensures forall j :: 0 <= j < |Marked(xs, p)| ==> Marked(xs, p)[j] < |xs| && p(xs[Marked(xs, p)[j]])
    ensures forall j, k :: 0 <= j < k < |Marked(xs, p)| ==> Marked(xs, p)[j] < Marked(xs, p)[k]
    ensures forall j :: 0 <= j < |xs| && p(xs[j]) ==> j in Marked(xs, p)
    decreases |xs|
  {
    if |xs| > 0 {
      var n := |xs| - 1;
      var init := xs[..n];
      MarkedListed(init, p);
      var m := Marked(init, p);
      assert Marked(xs, p) == m + if p(xs[n]) then [n] else [];
      assert forall j :: 0 <= j < n ==> init[j] == xs[j];
    }
  }

  /** Looking at one more element appends its position when it satisfies `p`. */
  lemma MarkedStep<T>(xs: seq<T>, i: nat, p: T -> bool)
    requires i < |xs|
    ensures Marked(xs[..i + 1], p) == Marked(xs[..i], p) + if p(xs[i]) then [i] else []
  {
    assert xs[..i + 1][..i] == xs[..i];
  }
}
