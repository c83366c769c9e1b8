/** Column batches, the unit every LLM function works on. A column is the JSON
    object `{"data": [...], "name": ..., "type": ..., ...}` built from one
    entry of `context_columns`: its `data` array and its other keys (the
    metadata). A batch is an array of columns; its row count is the length of
    the first column's data, as the source reads `tuples[0]["data"].size()`. */
module Columns {
  import opened Json
  import opened Wrappers

  datatype Column = Column(data: seq<Value>, meta: map<string, Value>)

  type Batch = seq<Column>

  /** The `{}` object pushed by `push_back(json::object())`. */
  const EmptyColumn: Column := Column([], map[])

  /** Name of the identifier column the aggregate functions add. */
  const ROW_ID: string := "flock_row_id"

  function Min(a: int, b: int): int { if a <= b then a else b }

  function Max(a: int, b: int): int { if a >= b then a else b }

  function Empties(k: nat): (r: Batch)
    ensures |r| == k && forall i :: 0 <= i < k ==> r[i] == EmptyColumn
  {
    seq(k, _ => EmptyColumn)
  }

  function RowCount(b: Batch): nat {
    if |b| == 0 then 0 else |b[0].data|
  }

  predicate Rectangular(b: Batch) {
    forall i :: 0 <= i < |b| ==> |b[i].data| == RowCount(b)
  }

  /** `data[i]` on a non-const JSON array: out-of-range reads yield null. */
  function At(data: seq<Value>, i: int): (v: Value)
    ensures 0 <= i < |data| ==> v == data[i]
    ensures !(0 <= i < |data|) ==> v == Null
  {
    if 0 <= i < |data| then data[i] else Null
  }

  /** The elements `data[start + j]` for `j < size` that exist. */
  function SliceData(data: seq<Value>, start: nat, size: nat): (r: seq<Value>)
    ensures |r| == Max(0, Min(start + size, |data|) - start)
    ensures forall k :: 0 <= k < |r| ==> r[k] == data[start + k]
  {
    if start >= |data| then [] else data[start..Min(start + size, |data|)]
  }

  /** `data[j]` for `start <= j < end`, reading out-of-range positions as null. */
  function Range(data: seq<Value>, start: int, end: int): (r: seq<Value>)
    ensures |r| == Max(0, end - start)
    ensures forall k :: 0 <= k < |r| ==> r[k] == At(data, start + k)
  {
    seq(Max(0, end - start), k requires 0 <= k < Max(0, end - start) => At(data, start + k))
  }

  /** Every column cut to rows `start .. start + size`, metadata kept. */
  function Slice(b: Batch, start: nat, size: nat): (r: Batch)
    ensures |r| == |b|
    ensures forall i :: 0 <= i < |b| ==>
      r[i].meta == b[i].meta && r[i].data == SliceData(b[i].data, start, size)
  {
    seq(|b|, i requires 0 <= i < |b| => Column(SliceData(b[i].data, start, size), b[i].meta))
  }

  /** Every column cut to its first row (none if it has no rows). */
  function CutToFirst(b: Batch): (r: Batch)
    ensures |r| == |b|
    ensures forall i :: 0 <= i < |b| ==>
      r[i].meta == b[i].meta && r[i].data == b[i].data[..Min(1, |b[i].data|)]
  {
    seq(|b|, i requires 0 <= i < |b| => Column(b[i].data[..Min(1, |b[i].data|)], b[i].meta))
  }

  /** The `name` of a column, when it is a string. */
  function NameOf(c: Column): (r: Option<string>)
    ensures r.Some? <==> "name" in c.meta && c.meta["name"].Str?
  {
    if "name" in c.meta && c.meta["name"].Str? then Some(c.meta["name"].s) else None
  }

  /** How a refill pass treats the data already in a batch column. */
  datatype Mode =
    | Replace            // `data` reassigned to a fresh array before the rows are pushed
    | ReplaceUnlessEmpty // reassigned only when at least one row is pushed
    | Append             // rows pushed after the existing data

  /** One pass of the loop that copies rows `start .. start + size` of every
      source column into position `i` of `batch`: metadata keys are assigned
      (overwriting), data follows `mode`; positions past `|src|` are untouched. */
  function Overlay(batch: Batch, src: Batch, start: nat, size: nat, mode: Mode): (r: Batch)
    requires |src| <= |batch|
    ensures |r| == |batch|
    ensures forall i :: |src| <= i < |batch| ==> r[i] == batch[i]
    ensures forall i :: 0 <= i < |src| ==> r[i].meta == batch[i].meta + src[i].meta
  {
    seq(|batch|, i requires 0 <= i < |batch| =>
      if i < |src| then
        var rows := SliceData(src[i].data, start, size);
        var data := match mode
          case Replace => rows
          case ReplaceUnlessEmpty => if |rows| > 0 then rows else batch[i].data
          case Append => batch[i].data + rows;
        Column(data, batch[i].meta + src[i].meta)
      else batch[i])
  }

  /** `batch[i]` on a JSON array for `i < n`: missing positions are created. */
  function Pad(batch: Batch, n: nat): (r: Batch)
    ensures |r| == Max(|batch|, n)
    ensures r[..|batch|] == batch
    ensures forall i :: |batch| <= i < |r| ==> r[i] == EmptyColumn
  {
    if |batch| >= n then batch else batch + Empties(n - |batch|)
  }

  /** The JSON array a batch is: one object per column, its metadata plus
      the `data` array. */
  function BatchToJson(b: Batch): (v: Value)
    ensures v.Arr? && |v.items| == |b|
    ensures forall i :: 0 <= i < |b| ==> v.items[i] == Obj(b[i].meta["data" := Arr(b[i].data)])
  {
    Arr(seq(|b|, i requires 0 <= i < |b| => Obj(b[i].meta["data" := Arr(b[i].data)])))
  }
}
