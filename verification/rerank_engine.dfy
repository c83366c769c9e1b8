/** `llm_rerank` (`LlmRerank::SlidingWindow`): a sliding-window ranking. Each
    window holds the rows carried from the previous window followed by new
    rows; the model returns the window's row ids best first, the worse half
    of the ranking goes to the output and the better half is carried into
    the next window, and the final carry closes the output. */
module RerankEngine {
  import opened Json
  import opened Wrappers
  import opened Text
  import opened Columns
  import opened Batching
  import opened RowIds

  /** The model batch size that stands for "unset": it is clamped to the
      number of rows. */
  const DEFAULT_BATCH_SIZE: int := 2048

  /** The batch size `SlidingWindow` starts with. */
  function InitialBatchSize(modelBatchSize: int, n: int): (bs: int)
    ensures modelBatchSize == DEFAULT_BATCH_SIZE ==> bs == Min(DEFAULT_BATCH_SIZE, n)
    ensures modelBatchSize != DEFAULT_BATCH_SIZE ==> bs == modelBatchSize
  {
    if modelBatchSize == DEFAULT_BATCH_SIZE then Min(modelBatchSize, n) else modelBatchSize
  }

  function DuplicateId(s: string): string {
    "Invalid LLM response: The LLM returned duplicate ID '" + s + "'."
  }

  predicate DistinctTexts(ids: seq<RowId>) {
    forall j, k :: 0 <= j < k < |ids| ==> ids[j].text != ids[k].text
  }

  /** The ids read from the items in turn: the first item that is not an
      accepted id, or that repeats an earlier id, decides the error. */
  function Rank(parsed: seq<Result<RowId>>): (r: Result<seq<RowId>>)
    ensures r.Ok? ==> |r.value| == |parsed| && DistinctTexts(r.value)
    ensures r.Ok? ==> forall k :: 0 <= k < |parsed| ==> parsed[k] == Ok(r.value[k])
    decreases |parsed|
  {
    if |parsed| == 0 then Ok([])
    else
      var n := |parsed| - 1;
      match Rank(parsed[..n])
      case Err(e) => Err(e)
      case Ok(ids) =>
        assert forall k :: 0 <= k < n ==> parsed[..n][k] == parsed[k];
        match parsed[n]
        case Err(e) => Err(e)
        case Ok(id) =>
          if exists k :: 0 <= k < n && ids[k].text == id.text then Err(DuplicateId(id.text))
          else Ok(ids + [id])
  }

  /** Conversely, accepted ids with no text named twice pass. */
  lemma {:induction false} RankAccepts(parsed: seq<Result<RowId>>, ids: seq<RowId>)
    requires |ids| == |parsed| && DistinctTexts(ids)
    requires forall k :: 0 <= k < |parsed| ==> parsed[k] == Ok(ids[k])
    ensures Rank(parsed) == Ok(ids)
    decreases |parsed|
  {
    if |parsed| > 0 {
      var n := |parsed| - 1;
      assert forall k :: 0 <= k < n ==> parsed[..n][k] == parsed[k];
      RankAccepts(parsed[..n], ids[..n]);
      assert ids[..n] + [ids[n]] == ids;
    }
  }

  /** `RerankBatch` after the provider answered with `items`: every item must
      be an accepted id and no id may repeat; the first offending item
      decides the error. */
  function Ranking(valid: set<string>, items: seq<Value>, ser: Serializer): (r: Result<seq<RowId>>)
    ensures r.Ok? ==> |r.value| == |items| && DistinctTexts(r.value)
    ensures r.Ok? ==> forall k :: 0 <= k < |items| ==> ItemId(items[k], valid, ser) == Ok(r.value[k])
  {
    Rank(seq(|items|, k requires 0 <= k < |items| => ItemId(items[k], valid, ser)))
  }

  /** Conversely, items that are all accepted, with no id named twice, pass. */
  lemma RankingAccepts(valid: set<string>, items: seq<Value>, ser: Serializer, ids: seq<RowId>)
    requires |ids| == |items| && DistinctTexts(ids)
    requires forall k :: 0 <= k < |items| ==> ItemId(items[k], valid, ser) == Ok(ids[k])
    ensures Ranking(valid, items, ser) == Ok(ids)
  {
    RankAccepts(seq(|items|, k requires 0 <= k < |items| => ItemId(items[k], valid, ser)), ids);
  }

  function Indices(ids: seq<RowId>): (r: seq<int>)
    ensures |r| == |ids| && forall k :: 0 <= k < |ids| ==> r[k] == ids[k].index
  {
    seq(|ids|, k requires 0 <= k < |ids| => ids[k].index)
  }

  /** Distinct texts that are all valid ids are at most as many as the ids. */
  lemma {:induction false} DistinctTextsBound(ids: seq<RowId>, valid: set<string>)
    requires DistinctTexts(ids) && forall k :: 0 <= k < |ids| ==> ids[k].text in valid
    ensures |ids| <= |valid|
    decreases |ids|
  {
    if |ids| > 0 {
      var n := |ids| - 1;
      var rest := valid - {ids[n].text};
      assert forall k :: 0 <= k < n ==> ids[..n][k] == ids[k];
      DistinctTextsBound(ids[..n], rest);
    }
  }

  /** The state of the loop between two windows: the next new row, the batch
      size, the carried columns (`[]` once cleared) and the output columns
      (`[]` until the first ranking). */
  datatype Loop = Loop(start: int, bs: int, carry: Batch, out: Batch)

  /** What a round of the loop ends with: the next state or the function's
      result. */
  datatype Next = Continue(l: Loop) | Finish(r: Result<Batch>)

  /** The loop runs while new rows remain or a carry is held. */
  predicate Active(tuples: Batch, l: Loop) {
    l.start < RowCount(tuples) || |l.carry| > 0
  }

  /** What holds between rounds: the columns are rectangular, the carry
      fills at most half the batch size and is only held while new rows
      remain, and the output has a column per input column once a ranking
      has been made, which happens before the first new row is passed. */
  predicate Valid(tuples: Batch, l: Loop) {
    |tuples| > 0 && Rectangular(tuples) &&
    0 <= l.start <= RowCount(tuples) && l.bs > 0 &&
    (|l.carry| > 0 ==>
       |l.carry| == |tuples| && Rectangular(l.carry) && 2 * RowCount(l.carry) <= l.bs &&
       l.start < RowCount(tuples)) &&
    (|l.out| > 0 ==> |l.out| == |tuples|) &&
    (|l.out| == 0 ==> l.start == 0)
  }

  /** Room for new rows: the batch size less the carried rows. */
  function Space(l: Loop): int {
    if |l.carry| == 0 then l.bs else l.bs - RowCount(l.carry)
  }

  /** One past the last new row of the next window. */
  function End(tuples: Batch, l: Loop): int {
    Min(l.start + Space(l), RowCount(tuples))
  }

  /** Column `c` of the carry, empty when nothing is carried. */
  function Carried(l: Loop, c: int): Column {
    if 0 <= c < |l.carry| then l.carry[c] else EmptyColumn
  }

  /** The window of the next round: the carried columns, then rows
      `start .. End` of every input column appended, the input's metadata
      written over the carried one. */
  function Window(tuples: Batch, l: Loop): (w: Batch)
    requires Valid(tuples, l) && Active(tuples, l)
    ensures |w| == |tuples| && Rectangular(w)
    ensures l.start < End(tuples, l)
    ensures RowCount(w) == RowCount(l.carry) + (End(tuples, l) - l.start)
    ensures 0 < RowCount(w) <= l.bs
    ensures forall c :: 0 <= c < |tuples| ==>
      w[c].data == Carried(l, c).data + SliceData(tuples[c].data, l.start, End(tuples, l) - l.start) &&
      w[c].meta == Carried(l, c).meta + tuples[c].meta
  {
    var n := RowCount(tuples);
    var size := End(tuples, l) - l.start;
    assert forall c :: 0 <= c < |tuples| ==> |tuples[c].data| == n;
    assert forall c :: 0 <= c < |tuples| ==> |Carried(l, c).data| == RowCount(l.carry);
    seq(|tuples|, c requires 0 <= c < |tuples| =>
      Column(Carried(l, c).data + SliceData(tuples[c].data, l.start, size), Carried(l, c).meta + tuples[c].meta))
  }

  /** The columns of `window` at the rows `ranked` names, in that order
      (`column["data"][ranked[k]]`), metadata kept. */
  function Pick(window: Batch, ranked: seq<int>): (r: Batch)
    ensures |r| == |window|
    ensures forall c :: 0 <= c < |window| ==>
      r[c].meta == window[c].meta && |r[c].data| == |ranked| &&
      forall k :: 0 <= k < |ranked| ==> r[c].data[k] == At(window[c].data, ranked[k])
  {
    seq(|window|, c requires 0 <= c < |window| =>
      Column(seq(|ranked|, k requires 0 <= k < |ranked| => At(window[c].data, ranked[k])), window[c].meta))
  }

  /** `acc[idx]["data"].push_back(...)` for every column of `rows`: the rows
      are appended, the metadata of `acc` kept. */
  function Push(acc: Batch, rows: Batch): (r: Batch)
    requires |rows| <= |acc|
    ensures |r| == |acc|
    ensures forall c :: 0 <= c < |rows| ==> r[c] == Column(acc[c].data + rows[c].data, acc[c].meta)
    ensures forall c :: |rows| <= c < |acc| ==> r[c] == acc[c]
  {
    seq(|acc|, c requires 0 <= c < |acc| =>
      if c < |rows| then Column(acc[c].data + rows[c].data, acc[c].meta) else acc[c])
  }

  /** The state after the window was ranked `ranked` (best first): the worse
      half `ranked[half..]` joins the output, the better half `ranked[..half]`
      becomes the carry, and once the input is exhausted the carry is
      flushed to the output. */
  function Ranked(tuples: Batch, l: Loop, ranked: seq<int>): (r: Loop)
    requires Valid(tuples, l) && Active(tuples, l) && |ranked| <= RowCount(Window(tuples, l))
    ensures Valid(tuples, r) && r.bs == l.bs && r.start == End(tuples, l) > l.start
  {
    var window := Window(tuples, l);
    var half := |ranked| / 2;
    var base := if |l.out| == 0 then Pick(window, []) else l.out;
    var out := Push(base, Pick(window, ranked[half..]));
    var carry := Pick(window, ranked[..half]);
    var end := End(tuples, l);
    if end >= RowCount(tuples) then Loop(end, l.bs, [], Push(out, carry))
    else Loop(end, l.bs, carry, out)
  }

  /** The ids a window's reply may name: those of the id column appended to
      it. */
  function WindowIds(tuples: Batch, l: Loop): set<string>
    requires Valid(tuples, l) && Active(tuples, l)
  {
    ValidIds(WithIds(Window(tuples, l)))
  }

  lemma RankingBound(tuples: Batch, l: Loop, items: seq<Value>, ser: Serializer)
    requires Valid(tuples, l) && Active(tuples, l)
    requires Ranking(WindowIds(tuples, l), items, ser).Ok?
    ensures |items| <= RowCount(Window(tuples, l))
  {
    var w := Window(tuples, l);
    var t := WithIds(w);
    assert Rectangular(t) by {
      forall c | 0 <= c < |t| ensures |t[c].data| == RowCount(t) {
        if c < |w| {
          assert t[c] == w[c];
        }
      }
    }
    ValidIdsBound(t);
    var ids := Ranking(WindowIds(tuples, l), items, ser).value;
    DistinctTextsBound(ids, WindowIds(tuples, l));
  }

  /** What an overflow does with the carried rows: the source clears the
      carry before the call, so they are dropped; kept, they join the output
      before the retry. */
  datatype OnOverflow = DropCarry | KeepCarry

  /** The output once the carried rows joined it. */
  function Flush(out: Batch, carry: Batch): Batch
    requires |carry| > 0 ==> |carry| <= |out| || |out| == 0
  {
    if |carry| == 0 then out else if |out| == 0 then carry else Push(out, carry)
  }

  /** One round of the loop given the provider's reply to the window: a
      failed call aborts, an overflow retries the same new rows with the
      shrunk batch size (fatal at zero), dropping the carry or, with
      `KeepCarry`, moving it to the output, and items are checked and
      ranked. */
  function Advance(tuples: Batch, l: Loop, reply: Reply, ser: Serializer, mode: OnOverflow): (r: Next)
    requires Valid(tuples, l) && Active(tuples, l)
    ensures r.Continue? ==> Valid(tuples, r.l)
    ensures r.Continue? ==> l.start < r.l.start || (l.start == r.l.start && r.l.bs < l.bs)
    ensures r.Finish? ==> r.r.Err?
  {
    match reply
    case Failed(msg) => Finish(Err(msg))
    case Overflow =>
      var bs := Shrink(l.bs);
      if bs <= 0 then Finish(Err(REDUCED_TO_ZERO_ERROR))
      else if mode == DropCarry then Continue(Loop(l.start, bs, [], l.out))
      else Continue(Loop(l.start, bs, [], Flush(l.out, l.carry)))
    case Items(items) =>
      match Ranking(WindowIds(tuples, l), items, ser)
      case Err(e) => Finish(Err(e))
      case Ok(ids) =>
        RankingBound(tuples, l, items, ser);
        Continue(Ranked(tuples, l, Indices(ids)))
  }

  /** The loop set up for `tuples` with batch size `bs`. */
  predicate Setup(tuples: Batch, bs: int) {
    |tuples| > 0 && Rectangular(tuples) && bs > 0
  }

  /** The loop after the calls of `trace`: their replies applied in turn
      from the initial state; a finished or stopped loop stays as it is. */
  function Replay(tuples: Batch, bs0: int, ser: Serializer, mode: OnOverflow, trace: seq<Step>): (r: Next)
    requires Setup(tuples, bs0)
    ensures r.Continue? ==> Valid(tuples, r.l)
    ensures r.Finish? ==> r.r.Err?
    decreases |trace|
  {
    if |trace| == 0 then Continue(Loop(0, bs0, [], []))
    else
      var before := Replay(tuples, bs0, ser, mode, trace[..|trace| - 1]);
      if before.Continue? && Active(tuples, before.l) then Advance(tuples, before.l, trace[|trace| - 1].reply, ser, mode)
      else before
  }

  /** The call a round makes: the window with the id column `"0" .. "w-1"`
      appended, asking for one integer per row of the window. */
  function Call(tuples: Batch, l: Loop, reply: Reply): (s: Step)
    requires Valid(tuples, l) && Active(tuples, l)
    ensures s.request.numOutputs == RowCount(Window(tuples, l)) && s.request.outputType == INTEGER
  {
    var w := Window(tuples, l);
    Step(l.start, End(tuples, l) - l.start, Request(WithIds(w), RowCount(w), INTEGER, Null), reply)
  }

  /** Every call of `trace` was made by a running loop, from the state the
      calls before it left, and got the oracle's answer. */
  predicate Faithful(tuples: Batch, bs0: int, oracle: Oracle, ser: Serializer, mode: OnOverflow, trace: seq<Step>)
    requires Setup(tuples, bs0)
    decreases |trace|
  {
    |trace| == 0 ||
    (var init := trace[..|trace| - 1];
     var before := Replay(tuples, bs0, ser, mode, init);
     Faithful(tuples, bs0, oracle, ser, mode, init) &&
     before.Continue? && Active(tuples, before.l) &&
     trace[|trace| - 1] == Call(tuples, before.l, oracle(|init|)))
  }

  /** The loop has ended after `trace`. */
  predicate Stopped(tuples: Batch, bs0: int, ser: Serializer, mode: OnOverflow, trace: seq<Step>)
    requires Setup(tuples, bs0)
  {
    var last := Replay(tuples, bs0, ser, mode, trace);
    last.Finish? || !Active(tuples, last.l)
  }

  /** What `SlidingWindow` returns once the loop has ended. */
  function Outcome(tuples: Batch, bs0: int, ser: Serializer, mode: OnOverflow, trace: seq<Step>): Result<Batch>
    requires Setup(tuples, bs0)
  {
    match Replay(tuples, bs0, ser, mode, trace)
    case Finish(r) => r
    case Continue(l) => Ok(l.out)
  }

  lemma ReplayStep(tuples: Batch, bs0: int, oracle: Oracle, ser: Serializer, mode: OnOverflow, trace: seq<Step>, l: Loop)
    requires Setup(tuples, bs0) && Faithful(tuples, bs0, oracle, ser, mode, trace)
    requires Replay(tuples, bs0, ser, mode, trace) == Continue(l) && Active(tuples, l)
    ensures Faithful(tuples, bs0, oracle, ser, mode, trace + [Call(tuples, l, oracle(|trace|))])
    ensures Replay(tuples, bs0, ser, mode, trace + [Call(tuples, l, oracle(|trace|))]) ==
      Advance(tuples, l, oracle(|trace|), ser, mode)
  {
    var t := trace + [Call(tuples, l, oracle(|trace|))];
    assert t[..|trace|] == trace;
  }

  /** `LlmRerank::SlidingWindow`: at most one row is returned as it is (cut
      to its first row) without a call; the batch size 2048 means the row
      count, a non-positive one fails; otherwise the sliding window runs and
      returns the output columns or the error that stopped it. */
  method SlidingWindow(tuples: Batch, modelBatchSize: int, oracle: Oracle, ser: Serializer, mode: OnOverflow)
    returns (r: Result<Batch>, trace: seq<Step>)
    requires |tuples| > 0 && Rectangular(tuples)
    ensures RowCount(tuples) <= 1 ==> r == Ok(CutToFirst(tuples)) && trace == []
    ensures RowCount(tuples) > 1 && InitialBatchSize(modelBatchSize, RowCount(tuples)) <= 0 ==>
      r == Err(BATCH_SIZE_ERROR) && trace == []
    ensures RowCount(tuples) > 1 && InitialBatchSize(modelBatchSize, RowCount(tuples)) > 0 ==>
      var bs0 := InitialBatchSize(modelBatchSize, RowCount(tuples));
      Faithful(tuples, bs0, oracle, ser, mode, trace) && Stopped(tuples, bs0, ser, mode, trace) &&
      r == Outcome(tuples, bs0, ser, mode, trace)
    ensures Canonical(tuples) && RowCount(tuples) > 1 && r.Ok? ==> exists order :: RowsOf(tuples, r.value, order)
  {
    var n := RowCount(tuples);
    trace := [];
    if n <= 1 {
      return Ok(CutToFirst(tuples)), trace;
    }
    var bs := InitialBatchSize(modelBatchSize, n);
    if bs <= 0 {
      return Err(BATCH_SIZE_ERROR), trace;
    }
    ghost var bs0 := bs;
    var l := Loop(0, bs, [], []);
    while Active(tuples, l)
      invariant Setup(tuples, bs0) && Faithful(tuples, bs0, oracle, ser, mode, trace)
      invariant Replay(tuples, bs0, ser, mode, trace) == Continue(l)
      decreases n - l.start, l.bs
    {
      var reply := oracle(|trace|);
      var step := Call(tuples, l, reply);
      var next := Advance(tuples, l, reply, ser, mode);
      ReplayStep(tuples, bs0, oracle, ser, mode, trace, l);
      trace := trace + [step];
      if next.Finish? {
        return next.r, trace;
      }
      l := next.l;
    }
    r := Ok(l.out);
    if Canonical(tuples) {
      Conservation(tuples, bs0, oracle, ser, mode, trace, l.out);
    }
  }

  // Where the rows go. With no input column of its own named
  // `flock_row_id`, every ranked index is a row of the window, so the carry
  // and the output are rows of the input, each taken at most once.

  predicate Canonical(tuples: Batch) {
    |tuples| > 0 && RowCount(tuples) - 1 <= INT32_MAX &&
    forall c :: 0 <= c < |tuples| ==> NameOf(tuples[c]) != Some(ROW_ID)
  }

  predicate Distinct(xs: seq<int>) {
    forall j, k :: 0 <= j < k < |xs| ==> xs[j] != xs[k]
  }

  /** The integers `lo .. hi - 1`. */
  function Span(lo: int, hi: int): (r: seq<int>)
    requires lo <= hi
    ensures |r| == hi - lo && forall k :: 0 <= k < |r| ==> r[k] == lo + k
  {
    seq(hi - lo, k requires 0 <= k < hi - lo => lo + k)
  }

  /** `rows[ranked[k]]` for every `k`. */
  function Compose(rows: seq<int>, ranked: seq<int>): (r: seq<int>)
    requires forall k :: 0 <= k < |ranked| ==> 0 <= ranked[k] < |rows|
    ensures |r| == |ranked| && forall k :: 0 <= k < |ranked| ==> r[k] == rows[ranked[k]]
  {
    seq(|ranked|, k requires 0 <= k < |ranked| => rows[ranked[k]])
  }

  /** `ci` are the input rows the carry holds and `oi` those of the output:
      none twice, all before `start`. */
  predicate Origins(tuples: Batch, l: Loop, ci: seq<int>, oi: seq<int>) {
    (if |l.carry| == 0 then ci == [] else l.carry == Pick(tuples, ci)) &&
    (if |l.out| == 0 then oi == [] else l.out == Pick(tuples, oi)) &&
    Distinct(oi + ci) && forall k :: 0 <= k < |oi + ci| ==> 0 <= (oi + ci)[k] < l.start
  }

  /** Every row before `start` is in the output or the carry. */
  predicate Covers(l: Loop, ci: seq<int>, oi: seq<int>) {
    forall j :: 0 <= j < l.start ==> j in oi + ci
  }

  /** The reply to call `s` ranks every row of its window. */
  predicate RanksWindow(s: Step, ser: Serializer) {
    s.reply.Items? ==>
      match Ranking(ValidIds(s.request.columns), s.reply.items, ser)
      case Ok(ids) => forall j :: 0 <= j < s.request.numOutputs ==> j in Indices(ids)
      case Err(_) => true
  }

  predicate RanksAllWindows(trace: seq<Step>, ser: Serializer) {
    forall i :: 0 <= i < |trace| ==> RanksWindow(trace[i], ser)
  }

  lemma DistinctConcat(a: seq<int>, b: seq<int>)
    ensures Distinct(a + b) <==>
      Distinct(a) && Distinct(b) && forall i, j :: 0 <= i < |a| && 0 <= j < |b| ==> a[i] != b[j]
  {
    var ab := a + b;
    if Distinct(a) && Distinct(b) && forall i, j :: 0 <= i < |a| && 0 <= j < |b| ==> a[i] != b[j] {
      forall j, k | 0 <= j < k < |ab| ensures ab[j] != ab[k] {
        if k < |a| {
          assert ab[j] == a[j] && ab[k] == a[k];
        } else if j >= |a| {
          assert ab[j] == b[j - |a|] && ab[k] == b[k - |a|];
        } else {
          assert ab[j] == a[j] && ab[k] == b[k - |a|];
        }
      }
    }
    if Distinct(ab) {
      forall i, j | 0 <= i < |a| && 0 <= j < |b| ensures a[i] != b[j] {
        assert ab[i] == a[i] && ab[|a| + j] == b[j];
      }
      forall j, k | 0 <= j < k < |b| ensures b[j] != b[k] {
        assert ab[|a| + j] == b[j] && ab[|a| + k] == b[k];
      }
      forall j, k | 0 <= j < k < |a| ensures a[j] != a[k] {
        assert ab[j] == a[j] && ab[k] == a[k];
      }
    }
  }

  /** The window is the input at the carried rows followed by the new rows. */
  lemma WindowRows(tuples: Batch, l: Loop, ci: seq<int>)
    requires Valid(tuples, l) && Active(tuples, l)
    requires if |l.carry| == 0 then ci == [] else l.carry == Pick(tuples, ci)
    ensures Window(tuples, l) == Pick(tuples, ci + Span(l.start, End(tuples, l)))
  {
    var w := Window(tuples, l);
    var g := Pick(tuples, ci + Span(l.start, End(tuples, l)));
    forall c | 0 <= c < |tuples| ensures w[c] == g[c] {
      WindowColumn(tuples, l, ci, c);
    }
  }

  lemma WindowColumn(tuples: Batch, l: Loop, ci: seq<int>, c: int)
    requires Valid(tuples, l) && Active(tuples, l) && 0 <= c < |tuples|
    requires if |l.carry| == 0 then ci == [] else l.carry == Pick(tuples, ci)
    ensures Window(tuples, l)[c] == Pick(tuples, ci + Span(l.start, End(tuples, l)))[c]
  {
    var slice := SliceData(tuples[c].data, l.start, End(tuples, l) - l.start);
    var w := Window(tuples, l);
    var rows := ci + Span(l.start, End(tuples, l));
    var g := Pick(tuples, rows);
    var carried := Carried(l, c);
    assert |tuples[c].data| == RowCount(tuples);
    assert |carried.data| == |ci|;
    assert w[c].data == g[c].data by {
      forall k | 0 <= k < |rows| ensures (carried.data + slice)[k] == g[c].data[k] {
        if k >= |ci| {
          assert (carried.data + slice)[k] == slice[k - |ci|];
        }
      }
    }
    MetaJoin(carried.meta, tuples[c].meta);
  }

  /** Writing metadata over an empty map or over itself leaves it as it is. */
  lemma MetaJoin(a: map<string, Value>, b: map<string, Value>)
    requires a == map[] || a == b
    ensures a + b == b
  {
  }

  /** Picking from picked rows picks the composed rows. */
  lemma PickPick(tuples: Batch, rows: seq<int>, ranked: seq<int>)
    requires forall k :: 0 <= k < |ranked| ==> 0 <= ranked[k] < |rows|
    ensures Pick(Pick(tuples, rows), ranked) == Pick(tuples, Compose(rows, ranked))
  {
    var a, b := Pick(Pick(tuples, rows), ranked), Pick(tuples, Compose(rows, ranked));
    forall c | 0 <= c < |tuples| ensures a[c] == b[c] {
      assert a[c].data == b[c].data;
    }
  }

  /** Appending picked rows to picked rows picks both lists in turn. */
  lemma PushPick(tuples: Batch, a: seq<int>, b: seq<int>)
    ensures Push(Pick(tuples, a), Pick(tuples, b)) == Pick(tuples, a + b)
  {
    var x, y := Push(Pick(tuples, a), Pick(tuples, b)), Pick(tuples, a + b);
    forall c | 0 <= c < |tuples| ensures x[c] == y[c] {
      assert x[c].data == y[c].data;
    }
  }

  /** Distinct positions of distinct rows are distinct rows, all among
      `rows`. */
  lemma DistinctCompose(rows: seq<int>, ranked: seq<int>)
    requires forall k :: 0 <= k < |ranked| ==> 0 <= ranked[k] < |rows|
    requires Distinct(rows) && Distinct(ranked)
    ensures Distinct(Compose(rows, ranked))
  {
  }

  /** The worse half followed by the better half of a ranking without
      repeats has no repeats. */
  lemma DistinctRotate(ranked: seq<int>, half: nat)
    requires Distinct(ranked) && half <= |ranked|
    ensures Distinct(ranked[half..] + ranked[..half])
  {
    var r := ranked[half..] + ranked[..half];
    forall j, k | 0 <= j < k < |r| ensures r[j] != r[k] {
      var m := |ranked| - half;
      var pj := if j < m then half + j else j - m;
      var pk := if k < m then half + k else k - m;
      assert r[j] == ranked[pj] && r[k] == ranked[pk];
    }
  }

  /** The rows of the window after ranking `ranked`, as rows of the input
      (`wi` being the window's rows): the worse half joins the output and,
      once the input is exhausted, the better half follows it; otherwise
      the better half is carried. */
  lemma RankedPicks(tuples: Batch, l: Loop, ranked: seq<int>, ci: seq<int>, oi: seq<int>)
    requires Valid(tuples, l) && Active(tuples, l) && Origins(tuples, l, ci, oi)
    requires |ranked| <= RowCount(Window(tuples, l))
    requires forall k :: 0 <= k < |ranked| ==> 0 <= ranked[k] < RowCount(Window(tuples, l))
    ensures |ci + Span(l.start, End(tuples, l))| == RowCount(Window(tuples, l))
    ensures var r := Ranked(tuples, l, ranked);
      var wi := ci + Span(l.start, End(tuples, l));
      var lo := Compose(wi, ranked[..|ranked| / 2]);
      var hi := Compose(wi, ranked[|ranked| / 2..]);
      if End(tuples, l) >= RowCount(tuples) then r.carry == [] && r.out == Pick(tuples, oi + hi + lo)
      else r.carry == Pick(tuples, lo) && r.out == Pick(tuples, oi + hi)
  {
    var window := Window(tuples, l);
    var wi := ci + Span(l.start, End(tuples, l));
    WindowRows(tuples, l, ci);
    var half := |ranked| / 2;
    var lo, hi := Compose(wi, ranked[..half]), Compose(wi, ranked[half..]);
    PickPick(tuples, wi, ranked[..half]);
    PickPick(tuples, wi, ranked[half..]);
    PickPick(tuples, wi, []);
    assert Compose(wi, []) == [];
    var base := if |l.out| == 0 then Pick(window, []) else l.out;
    assert base == Pick(tuples, oi);
    PushPick(tuples, oi, hi);
    PushPick(tuples, oi + hi, lo);
  }

  /** The output rows followed by the window rows in their new order have
      no repeats and all come before the window's end. */
  lemma MergedDistinct(oi: seq<int>, ci: seq<int>, start: int, end: int, rot: seq<int>)
    requires Distinct(oi + ci) && forall k :: 0 <= k < |oi + ci| ==> 0 <= (oi + ci)[k] < start
    requires 0 <= start <= end && Distinct(rot)
    requires forall k :: 0 <= k < |rot| ==> 0 <= rot[k] < |ci| + (end - start)
    ensures var x := Compose(ci + Span(start, end), rot);
      Distinct(oi + x) && forall k :: 0 <= k < |oi + x| ==> 0 <= (oi + x)[k] < end
  {
    var wi := ci + Span(start, end);
    var x := Compose(wi, rot);
    DistinctConcat(oi, ci);
    forall i, j | 0 <= i < |ci| && 0 <= j < end - start ensures ci[i] != Span(start, end)[j] {
      assert (oi + ci)[|oi| + i] == ci[i];
    }
    DistinctConcat(ci, Span(start, end));
    DistinctCompose(wi, rot);
    forall i, j | 0 <= i < |oi| && 0 <= j < |x| ensures oi[i] != x[j] {
      assert (oi + ci)[i] == oi[i];
      if rot[j] < |ci| {
        assert (oi + ci)[|oi| + rot[j]] == x[j];
      }
    }
    DistinctConcat(oi, x);
    forall k | 0 <= k < |oi + x| ensures 0 <= (oi + x)[k] < end {
      if k < |oi| {
        assert (oi + ci)[k] == (oi + x)[k];
      } else {
        var r := rot[k - |oi|];
        assert (oi + x)[k] == wi[r];
        if r < |ci| {
          assert (oi + ci)[|oi| + r] == wi[r];
        } else {
          assert wi[r] == Span(start, end)[r - |ci|];
        }
      }
    }
  }

  /** A ranking that names every window row leaves every row before the
      window's end in the output or the carry. */
  lemma MergedCovers(oi: seq<int>, ci: seq<int>, start: int, end: int, rot: seq<int>)
    requires start <= end && forall k :: 0 <= k < |rot| ==> 0 <= rot[k] < |ci| + (end - start)
    requires forall j :: 0 <= j < start ==> j in oi + ci
    requires forall p :: 0 <= p < |ci| + (end - start) ==> p in rot
    ensures forall j :: 0 <= j < end ==> j in oi + Compose(ci + Span(start, end), rot)
  {
    var wi := ci + Span(start, end);
    var x := Compose(wi, rot);
    forall j | 0 <= j < end ensures j in oi + x {
      if j !in oi {
        var p: int;
        if j < start {
          assert j in oi + ci;
          var q :| 0 <= q < |ci| && ci[q] == j;
          p := q;
        } else {
          p := |ci| + j - start;
        }
        assert wi[p] == j;
        assert p in rot;
        var m :| 0 <= m < |rot| && rot[m] == p;
        assert x[m] == j;
      }
    }
  }

  /** The worse half of a ranking followed by the better half, as rows. */
  lemma ComposeRotate(wi: seq<int>, ranked: seq<int>, half: nat)
    requires half <= |ranked| && forall k :: 0 <= k < |ranked| ==> 0 <= ranked[k] < |wi|
    ensures Compose(wi, ranked[half..]) + Compose(wi, ranked[..half]) == Compose(wi, ranked[half..] + ranked[..half])
  {
  }

  lemma RotateKeeps(ranked: seq<int>, half: nat, p: int)
    requires half <= |ranked| && p in ranked
    ensures p in ranked[half..] + ranked[..half]
  {
    assert ranked == ranked[..half] + ranked[half..];
  }

  lemma ConcatAssoc(a: seq<int>, b: seq<int>, c: seq<int>)
    ensures a + b + c == a + (b + c) && a + b + c + [] == a + (b + c)
  {
  }

  /** The input rows of the carry and of the output after the window of
      `l` was ranked `ranked`, given the rows `ci` and `oi` they held. */
  function NextRows(tuples: Batch, l: Loop, ranked: seq<int>, ci: seq<int>, oi: seq<int>): (r: (seq<int>, seq<int>))
    requires l.start <= End(tuples, l)
    requires forall k :: 0 <= k < |ranked| ==> 0 <= ranked[k] < |ci| + (End(tuples, l) - l.start)
    ensures r.1 + r.0 == oi + Compose(ci + Span(l.start, End(tuples, l)), ranked[|ranked| / 2..] + ranked[..|ranked| / 2])
  {
    var wi := ci + Span(l.start, End(tuples, l));
    var half := |ranked| / 2;
    var lo, hi := Compose(wi, ranked[..half]), Compose(wi, ranked[half..]);
    ComposeRotate(wi, ranked, half);
    ConcatAssoc(oi, hi, lo);
    if End(tuples, l) >= RowCount(tuples) then ([], oi + hi + lo) else (lo, oi + hi)
  }

  /** After a ranking the carry and the output hold the rows `NextRows`
      names, still none twice and all before the new `start`. */
  lemma RankedOrigins(tuples: Batch, l: Loop, ranked: seq<int>, ci: seq<int>, oi: seq<int>)
    requires Valid(tuples, l) && Active(tuples, l) && Origins(tuples, l, ci, oi)
    requires |ranked| <= RowCount(Window(tuples, l)) && Distinct(ranked)
    requires forall k :: 0 <= k < |ranked| ==> 0 <= ranked[k] < RowCount(Window(tuples, l))
    ensures var rows := NextRows(tuples, l, ranked, ci, oi);
      Origins(tuples, Ranked(tuples, l, ranked), rows.0, rows.1)
  {
    var end := End(tuples, l);
    RankedPicks(tuples, l, ranked, ci, oi);
    var half := |ranked| / 2;
    DistinctRotate(ranked, half);
    MergedDistinct(oi, ci, l.start, end, ranked[half..] + ranked[..half]);
  }

  /** A ranking that names every window row keeps every row before the new
      `start` in the output or the carry. */
  lemma RankedCovers(tuples: Batch, l: Loop, ranked: seq<int>, ci: seq<int>, oi: seq<int>)
    requires Valid(tuples, l) && Active(tuples, l) && Covers(l, ci, oi)
    requires |ci| + (End(tuples, l) - l.start) == RowCount(Window(tuples, l))
    requires |ranked| <= RowCount(Window(tuples, l))
    requires forall k :: 0 <= k < |ranked| ==> 0 <= ranked[k] < RowCount(Window(tuples, l))
    requires forall j :: 0 <= j < RowCount(Window(tuples, l)) ==> j in ranked
    ensures var rows := NextRows(tuples, l, ranked, ci, oi);
      Covers(Ranked(tuples, l, ranked), rows.0, rows.1)
  {
    var end := End(tuples, l);
    var half := |ranked| / 2;
    var rot := ranked[half..] + ranked[..half];
    forall p | 0 <= p < |ci| + (end - l.start) ensures p in rot {
      RotateKeeps(ranked, half, p);
    }
    MergedCovers(oi, ci, l.start, end, rot);
  }

  /** Against the ids `"0" .. "w-1"` an accepted ranking names distinct rows
      below `w`. */
  lemma NumberedRanking(valid: set<string>, items: seq<Value>, w: nat, ser: Serializer)
    requires w - 1 <= INT32_MAX && valid == IdTexts(w) && Ranking(valid, items, ser).Ok?
    ensures var ranked := Indices(Ranking(valid, items, ser).value);
      Distinct(ranked) && forall k :: 0 <= k < |ranked| ==> 0 <= ranked[k] < w
  {
    var ids := Ranking(valid, items, ser).value;
    var ranked := Indices(ids);
    forall k | 0 <= k < |ranked| ensures 0 <= ranked[k] < w && ids[k].text == IntToString(ranked[k]) {
      ItemIdOfNumbered(items[k], w, ser);
    }
  }

  /** Distinct integers below `m` are at most `m`. */
  lemma {:induction false} DistinctBelow(xs: seq<int>, m: int)
    requires m >= 0 && Distinct(xs) && forall k :: 0 <= k < |xs| ==> 0 <= xs[k] < m
    ensures |xs| <= m
    decreases |xs|
  {
    if |xs| > 0 {
      var n := |xs| - 1;
      var x := xs[n];
      var zs := seq(n, k requires 0 <= k < n => if xs[k] > x then xs[k] - 1 else xs[k]);
      forall j, k | 0 <= j < k < n ensures zs[j] != zs[k] {
        assert xs[j] != xs[k] && xs[j] != x && xs[k] != x;
      }
      forall k | 0 <= k < n ensures 0 <= zs[k] < m - 1 {
        assert xs[k] != x;
      }
      DistinctBelow(zs, m - 1);
    }
  }

  /** A window never holds more rows than the input. */
  lemma WindowBound(tuples: Batch, l: Loop, ci: seq<int>, oi: seq<int>)
    requires Valid(tuples, l) && Active(tuples, l) && Origins(tuples, l, ci, oi)
    ensures RowCount(Window(tuples, l)) <= RowCount(tuples)
  {
    DistinctConcat(oi, ci);
    forall k | 0 <= k < |ci| ensures 0 <= ci[k] < l.start {
      assert (oi + ci)[|oi| + k] == ci[k];
    }
    DistinctBelow(ci, l.start);
    assert RowCount(l.carry) == |ci|;
  }

  /** Against a window of input rows without an id column of their own,
      an accepted ranking names distinct window rows. */
  lemma RankingRows(tuples: Batch, l: Loop, ci: seq<int>, oi: seq<int>, items: seq<Value>, ser: Serializer)
    requires Valid(tuples, l) && Active(tuples, l) && Canonical(tuples) && Origins(tuples, l, ci, oi)
    requires Ranking(WindowIds(tuples, l), items, ser).Ok?
    ensures var ranked := Indices(Ranking(WindowIds(tuples, l), items, ser).value);
      Distinct(ranked) && forall k :: 0 <= k < |ranked| ==> 0 <= ranked[k] < RowCount(Window(tuples, l))
  {
    var window := Window(tuples, l);
    WindowRows(tuples, l, ci);
    WindowBound(tuples, l, ci, oi);
    assert forall c :: 0 <= c < |window| ==> NameOf(window[c]) == NameOf(tuples[c]);
    ValidIdsOfWithIds(window);
    NumberedRanking(WindowIds(tuples, l), items, RowCount(window), ser);
  }

  /** One round keeps the output and the carry made of input rows, none
      twice; a round whose ranking named every row of the window, and that
      did not overflow unless the carry is kept, leaves no row before the
      new `start` missing. */
  lemma AdvanceOrigins(tuples: Batch, l: Loop, reply: Reply, ser: Serializer, mode: OnOverflow, ci0: seq<int>, oi0: seq<int>)
    returns (ci: seq<int>, oi: seq<int>)
    requires Valid(tuples, l) && Active(tuples, l) && Canonical(tuples) && Origins(tuples, l, ci0, oi0)
    requires Advance(tuples, l, reply, ser, mode).Continue?
    ensures Origins(tuples, Advance(tuples, l, reply, ser, mode).l, ci, oi)
    ensures Covers(l, ci0, oi0) && (!reply.Overflow? || mode == KeepCarry) && RanksWindow(Call(tuples, l, reply), ser) ==>
      Covers(Advance(tuples, l, reply, ser, mode).l, ci, oi)
  {
    DistinctConcat(oi0, ci0);
    if reply.Overflow? && mode == DropCarry {
      ci, oi := [], oi0;
      assert oi + ci == oi;
      assert forall k :: 0 <= k < |oi| ==> (oi0 + ci0)[k] == oi[k];
    } else if reply.Overflow? {
      ci, oi := [], oi0 + ci0;
      assert oi + ci == oi0 + ci0;
      KeptCarry(tuples, l, ci0, oi0);
    } else {
      var items := reply.items;
      var ids := Ranking(WindowIds(tuples, l), items, ser).value;
      var ranked := Indices(ids);
      RankingRows(tuples, l, ci0, oi0, items, ser);
      RankingBound(tuples, l, items, ser);
      RankedOrigins(tuples, l, ranked, ci0, oi0);
      var rows := NextRows(tuples, l, ranked, ci0, oi0);
      ci, oi := rows.0, rows.1;
      if Covers(l, ci0, oi0) && RanksWindow(Call(tuples, l, reply), ser) {
        RankedPicks(tuples, l, ranked, ci0, oi0);
        RankedCovers(tuples, l, ranked, ci0, oi0);
      }
    }
  }

  /** The carry moved to the output: its rows follow the output's. */
  lemma KeptCarry(tuples: Batch, l: Loop, ci: seq<int>, oi: seq<int>)
    requires Valid(tuples, l) && Origins(tuples, l, ci, oi)
    ensures var out := Flush(l.out, l.carry);
      if |out| == 0 then oi + ci == [] else out == Pick(tuples, oi + ci)
  {
    if |l.carry| == 0 {
      assert oi + ci == oi;
    } else if |l.out| == 0 {
      assert oi + ci == ci;
    } else {
      PushPick(tuples, oi, ci);
    }
  }

  lemma LastCall(trace: seq<Step>, ser: Serializer)
    requires |trace| > 0
    ensures NoOverflow(trace) ==> NoOverflow(trace[..|trace| - 1]) && !trace[|trace| - 1].reply.Overflow?
    ensures RanksAllWindows(trace, ser) ==>
      RanksAllWindows(trace[..|trace| - 1], ser) && RanksWindow(trace[|trace| - 1], ser)
  {
    assert forall k :: 0 <= k < |trace| - 1 ==> trace[..|trace| - 1][k] == trace[k];
  }

  /** The rows of the output and the carry of every state the loop reaches
      are input rows, none twice; when every ranking named every row of its
      window, and no call overflowed or the carry is kept on overflow, none
      before `start` is missing. */
  lemma {:induction false} Provenance(tuples: Batch, bs0: int, oracle: Oracle, ser: Serializer, mode: OnOverflow, trace: seq<Step>)
    returns (ci: seq<int>, oi: seq<int>)
    requires Setup(tuples, bs0) && Canonical(tuples) && Faithful(tuples, bs0, oracle, ser, mode, trace)
    requires Replay(tuples, bs0, ser, mode, trace).Continue?
    ensures Origins(tuples, Replay(tuples, bs0, ser, mode, trace).l, ci, oi)
    ensures (NoOverflow(trace) || mode == KeepCarry) && RanksAllWindows(trace, ser) ==>
      Covers(Replay(tuples, bs0, ser, mode, trace).l, ci, oi)
    decreases |trace|
  {
    if |trace| == 0 {
      ci, oi := [], [];
    } else {
      var init := trace[..|trace| - 1];
      var l := Replay(tuples, bs0, ser, mode, init).l;
      var ci0, oi0 := Provenance(tuples, bs0, oracle, ser, mode, init);
      var step := trace[|trace| - 1];
      assert step == Call(tuples, l, step.reply);
      assert Replay(tuples, bs0, ser, mode, trace) == Advance(tuples, l, step.reply, ser, mode);
      LastCall(trace, ser);
      ci, oi := AdvanceOrigins(tuples, l, step.reply, ser, mode, ci0, oi0);
    }
  }

  /** `out` is the input at the rows `order`: each an input row, none
      twice. */
  predicate RowsOf(tuples: Batch, out: Batch, order: seq<int>) {
    out == Pick(tuples, order) && Distinct(order) &&
    forall k :: 0 <= k < |order| ==> 0 <= order[k] < RowCount(tuples)
  }

  /** Without an id column of its own among the input columns, a sliding
      window that ran to its end returns input rows, none twice; when every
      ranking named every row of its window it returns every input row,
      provided no call overflowed or the carry is kept on overflow. */
  lemma Conservation(tuples: Batch, bs0: int, oracle: Oracle, ser: Serializer, mode: OnOverflow, trace: seq<Step>, out: Batch)
    requires Setup(tuples, bs0) && Canonical(tuples) && RowCount(tuples) > 0
    requires Faithful(tuples, bs0, oracle, ser, mode, trace) && Stopped(tuples, bs0, ser, mode, trace)
    requires Outcome(tuples, bs0, ser, mode, trace) == Ok(out)
    ensures exists order :: RowsOf(tuples, out, order)
    ensures (NoOverflow(trace) || mode == KeepCarry) && RanksAllWindows(trace, ser) ==>
      exists order :: RowsOf(tuples, out, order) && forall j :: 0 <= j < RowCount(tuples) ==> j in order
  {
    var ci, oi := Provenance(tuples, bs0, oracle, ser, mode, trace);
    assert oi + ci == oi;
    assert RowsOf(tuples, out, oi);
  }

  // An overflow after the first window loses the carried rows: the carry is
  // cleared before the call and the retry starts again at `start`. With one
  // column of rows "a", "b", "c" and batch size 2, the model ranks "b" above
  // "a", then overflows, then ranks "c"; "b" never reaches the output.

  /** The one-column batch holding `data`. */
  function Rows(data: seq<Value>): Batch {
    [Column(data, map["name" := Str("x")])]
  }

  /** The provider of the example. */
  function DropReplies(i: nat): Reply {
    if i == 0 then Items([Int(1), Int(0)])
    else if i == 1 then Overflow
    else if i == 2 then Items([Int(0)])
    else Failed("no further call")
  }

  lemma NumberedItem(j: nat, w: nat, ser: Serializer)
    requires j < w <= 3
    ensures ItemId(Int(j), IdTexts(w), ser) == Ok(RowId(IntToString(j), j))
  {
    assert 0 <= j < w && IntToString(j) == IntToString(j);
    ItemIdAcceptsListedRow(Int(j), IdTexts(w), ser, j);
  }

  /** The window of `Loop(start, bs, [], out)` over "a", "b", "c" when it
      takes the new rows `start .. end`. */
  lemma FreshWindow(start: nat, bs: int, out: Batch, end: nat)
    requires start < end <= 3 && bs > 0 && end == Min(start + bs, 3)
    requires (start == 0 && out == []) || (start > 0 && |out| == 1)
    ensures Window(Rows([Str("a"), Str("b"), Str("c")]), Loop(start, bs, [], out)) ==
      Rows([Str("a"), Str("b"), Str("c")][start..end])
  {
    var t := Rows([Str("a"), Str("b"), Str("c")]);
    var l := Loop(start, bs, [], out);
    var w := Window(t, l);
    var slice := SliceData(t[0].data, start, end - start);
    assert slice == t[0].data[start..end];
    MetaJoin(map[], t[0].meta);
    assert w[0] == Column(slice, t[0].meta);
  }

  /** The example's window ids are `"0" .. "w-1"`. */
  lemma ExampleIds(w: Batch)
    requires |w| == 1 && w[0].meta == map["name" := Str("x")]
    ensures ValidIds(WithIds(w)) == IdTexts(RowCount(w))
  {
    ValidIdsOfWithIds(w);
  }

  /** A reply whose items pass ranks the window in their order. */
  lemma AdvanceItems(tuples: Batch, l: Loop, items: seq<Value>, ser: Serializer, mode: OnOverflow, ids: seq<RowId>)
    requires Valid(tuples, l) && Active(tuples, l) && Ranking(WindowIds(tuples, l), items, ser) == Ok(ids)
    ensures |ids| <= RowCount(Window(tuples, l))
    ensures Advance(tuples, l, Items(items), ser, mode) == Continue(Ranked(tuples, l, Indices(ids)))
  {
    RankingBound(tuples, l, items, ser);
  }

  lemma FirstRanking(ser: Serializer)
    ensures Ranking(IdTexts(2), [Int(1), Int(0)], ser) == Ok([RowId("1", 1), RowId("0", 0)])
  {
    NumberedItem(1, 2, ser);
    NumberedItem(0, 2, ser);
    assert IntToString(1) == "1" && IntToString(0) == "0";
    RankingAccepts(IdTexts(2), [Int(1), Int(0)], ser, [RowId("1", 1), RowId("0", 0)]);
  }

  lemma FirstRanked()
    ensures Window(Rows([Str("a"), Str("b"), Str("c")]), Loop(0, 2, [], [])) == Rows([Str("a"), Str("b")])
    ensures Ranked(Rows([Str("a"), Str("b"), Str("c")]), Loop(0, 2, [], []), [1, 0]) ==
      Loop(2, 2, Rows([Str("b")]), Rows([Str("a")]))
  {
    var t := Rows([Str("a"), Str("b"), Str("c")]);
    var l := Loop(0, 2, [], []);
    var w := Window(t, l);
    FreshWindow(0, 2, [], 2);
    assert [Str("a"), Str("b"), Str("c")][0..2] == [Str("a"), Str("b")];
    assert w == Rows([Str("a"), Str("b")]);
    var ranked: seq<int> := [1, 0];
    assert ranked[1..] == [0] && ranked[..1] == [1];
    assert Pick(w, [1])[0].data == [Str("b")];
    assert Pick(w, [1]) == Rows([Str("b")]);
    assert Pick(w, [0])[0].data == [Str("a")];
    assert Pick(w, [])[0].data == [];
    assert [] + [Str("a")] == [Str("a")];
    assert Push(Pick(w, []), Pick(w, [0]))[0] == Rows([Str("a")])[0];
    assert Push(Pick(w, []), Pick(w, [0])) == Rows([Str("a")]);
    assert End(t, l) == 2;
  }

  lemma FirstRound(ser: Serializer, mode: OnOverflow)
    ensures Advance(Rows([Str("a"), Str("b"), Str("c")]), Loop(0, 2, [], []), DropReplies(0), ser, mode) ==
      Continue(Loop(2, 2, Rows([Str("b")]), Rows([Str("a")])))
  {
    var t := Rows([Str("a"), Str("b"), Str("c")]);
    var l := Loop(0, 2, [], []);
    FirstRanked();
    ExampleIds(Window(t, l));
    FirstRanking(ser);
    var ids := [RowId("1", 1), RowId("0", 0)];
    AdvanceItems(t, l, [Int(1), Int(0)], ser, mode, ids);
    assert Indices(ids) == [1, 0];
  }

  lemma SecondRound(ser: Serializer)
    ensures Advance(Rows([Str("a"), Str("b"), Str("c")]), Loop(2, 2, Rows([Str("b")]), Rows([Str("a")])), DropReplies(1), ser, DropCarry) ==
      Continue(Loop(2, 1, [], Rows([Str("a")])))
    ensures Advance(Rows([Str("a"), Str("b"), Str("c")]), Loop(2, 2, Rows([Str("b")]), Rows([Str("a")])), DropReplies(1), ser, KeepCarry) ==
      Continue(Loop(2, 1, [], Rows([Str("a"), Str("b")])))
  {
    var out := Push(Rows([Str("a")]), Rows([Str("b")]));
    assert [Str("a")] + [Str("b")] == [Str("a"), Str("b")];
    assert out[0] == Rows([Str("a"), Str("b")])[0];
  }

  lemma ThirdRanked(done: seq<Value>)
    requires |done| > 0
    ensures Window(Rows([Str("a"), Str("b"), Str("c")]), Loop(2, 1, [], Rows(done))) == Rows([Str("c")])
    ensures Ranked(Rows([Str("a"), Str("b"), Str("c")]), Loop(2, 1, [], Rows(done)), [0]) ==
      Loop(3, 1, [], Rows(done + [Str("c")]))
  {
    var t := Rows([Str("a"), Str("b"), Str("c")]);
    var l := Loop(2, 1, [], Rows(done));
    var w := Window(t, l);
    FreshWindow(2, 1, Rows(done), 3);
    assert [Str("a"), Str("b"), Str("c")][2..3] == [Str("c")];
    assert w == Rows([Str("c")]);
    var out := Push(l.out, Pick(w, [0]));
    assert Pick(w, [0])[0].data == [Str("c")];
    assert out == Rows(done + [Str("c")]);
    assert Pick(w, [])[0].data == [];
    assert out[0].data + [] == out[0].data;
    assert Push(out, Pick(w, []))[0] == out[0];
    assert Push(out, Pick(w, [])) == out;
    assert End(t, l) == 3;
  }

  lemma ThirdRound(ser: Serializer, mode: OnOverflow, done: seq<Value>)
    requires |done| > 0
    ensures Advance(Rows([Str("a"), Str("b"), Str("c")]), Loop(2, 1, [], Rows(done)), DropReplies(2), ser, mode) ==
      Continue(Loop(3, 1, [], Rows(done + [Str("c")])))
  {
    var t := Rows([Str("a"), Str("b"), Str("c")]);
    var l := Loop(2, 1, [], Rows(done));
    ThirdRanked(done);
    ExampleIds(Window(t, l));
    NumberedItem(0, 1, ser);
    assert IntToString(0) == "0";
    var ids := [RowId("0", 0)];
    RankingAccepts(IdTexts(1), [Int(0)], ser, ids);
    AdvanceItems(t, l, [Int(0)], ser, mode, ids);
    assert Indices(ids) == [0];
  }

  /** The output of the example: "b" is in it only if the carry is kept. */
  function ExampleOutput(mode: OnOverflow): Batch {
    if mode == DropCarry then Rows([Str("a"), Str("c")]) else Rows([Str("a"), Str("b"), Str("c")])
  }

  /** Three rounds that run the loop to its end make a trace whose outcome
      is the last output. */
  lemma ThreeCalls(t: Batch, bs0: int, oracle: Oracle, ser: Serializer, mode: OnOverflow, l1: Loop, l2: Loop, l3: Loop)
    returns (trace: seq<Step>)
    requires Setup(t, bs0)
    requires Valid(t, Loop(0, bs0, [], [])) && Active(t, Loop(0, bs0, [], []))
    requires Advance(t, Loop(0, bs0, [], []), oracle(0), ser, mode) == Continue(l1)
    requires Valid(t, l1) && Active(t, l1) && Advance(t, l1, oracle(1), ser, mode) == Continue(l2)
    requires Valid(t, l2) && Active(t, l2) && Advance(t, l2, oracle(2), ser, mode) == Continue(l3)
    requires !Active(t, l3)
    ensures Faithful(t, bs0, oracle, ser, mode, trace) && Stopped(t, bs0, ser, mode, trace)
    ensures Outcome(t, bs0, ser, mode, trace) == Ok(l3.out)
    ensures |trace| == 3 && trace[1].reply == oracle(1)
  {
    var l0 := Loop(0, bs0, [], []);
    ReplayStep(t, bs0, oracle, ser, mode, [], l0);
    var t1 := [] + [Call(t, l0, oracle(0))];
    ReplayStep(t, bs0, oracle, ser, mode, t1, l1);
    var t2 := t1 + [Call(t, l1, oracle(1))];
    ReplayStep(t, bs0, oracle, ser, mode, t2, l2);
    trace := t2 + [Call(t, l2, oracle(2))];
  }

  /** With rows "a", "b", "c", batch size 2 and the provider `DropReplies`,
      the calls the loop makes end with the output "a", "c" when the carry
      is dropped: row "b", carried when the second call overflowed, is
      lost. Kept, it reaches the output. */
  lemma CarryExample(ser: Serializer, mode: OnOverflow) returns (trace: seq<Step>)
    ensures var t := Rows([Str("a"), Str("b"), Str("c")]);
      Setup(t, 2) && Faithful(t, 2, DropReplies, ser, mode, trace) && Stopped(t, 2, ser, mode, trace) &&
      Outcome(t, 2, ser, mode, trace) == Ok(ExampleOutput(mode))
    ensures |trace| == 3 && trace[1].reply == Overflow
  {
    var t := Rows([Str("a"), Str("b"), Str("c")]);
    var done := if mode == DropCarry then [Str("a")] else [Str("a"), Str("b")];
    var l1 := Loop(2, 2, Rows([Str("b")]), Rows([Str("a")]));
    var l2 := Loop(2, 1, [], Rows(done));
    var l3 := Loop(3, 1, [], Rows(done + [Str("c")]));
    assert done + [Str("c")] == ExampleOutput(mode)[0].data;
    FirstRound(ser, mode);
    SecondRound(ser);
    ThirdRound(ser, mode, done);
    trace := ThreeCalls(t, 2, DropReplies, ser, mode, l1, l2, l3);
  }

  lemma {:induction false} FaithfulPrefix(tuples: Batch, bs0: int, oracle: Oracle, ser: Serializer, mode: OnOverflow, trace: seq<Step>, k: nat)
    requires Setup(tuples, bs0) && Faithful(tuples, bs0, oracle, ser, mode, trace) && k <= |trace|
    ensures Faithful(tuples, bs0, oracle, ser, mode, trace[..k])
    decreases |trace|
  {
    if k < |trace| {
      var init := trace[..|trace| - 1];
      FaithfulPrefix(tuples, bs0, oracle, ser, mode, init, k);
      assert init[..k] == trace[..k];
    } else {
      assert trace[..k] == trace;
    }
  }

  /** What a faithful trace says of its last call. */
  lemma FaithfulLast(tuples: Batch, bs0: int, oracle: Oracle, ser: Serializer, mode: OnOverflow, trace: seq<Step>)
    requires Setup(tuples, bs0) && Faithful(tuples, bs0, oracle, ser, mode, trace) && |trace| > 0
    ensures var init := trace[..|trace| - 1];
      var before := Replay(tuples, bs0, ser, mode, init);
      Faithful(tuples, bs0, oracle, ser, mode, init) && before.Continue? && Active(tuples, before.l) &&
      trace[|trace| - 1] == Call(tuples, before.l, oracle(|init|))
  {
  }

  lemma SameCalls(a: seq<Step>, b: seq<Step>)
    requires |a| == |b| > 0 && a[..|a| - 1] == b[..|b| - 1] && a[|a| - 1] == b[|b| - 1]
    ensures a == b
  {
    assert a == a[..|a| - 1] + [a[|a| - 1]];
    assert b == b[..|b| - 1] + [b[|b| - 1]];
  }

  /** Two faithful traces of the same length are the same calls. */
  lemma {:induction false} FaithfulAgree(tuples: Batch, bs0: int, oracle: Oracle, ser: Serializer, mode: OnOverflow, a: seq<Step>, b: seq<Step>)
    requires Setup(tuples, bs0) && |a| == |b|
    requires Faithful(tuples, bs0, oracle, ser, mode, a) && Faithful(tuples, bs0, oracle, ser, mode, b)
    ensures a == b
    decreases |a|
  {
    if |a| > 0 {
      var n := |a| - 1;
      FaithfulLast(tuples, bs0, oracle, ser, mode, a);
      FaithfulLast(tuples, bs0, oracle, ser, mode, b);
      FaithfulAgree(tuples, bs0, oracle, ser, mode, a[..n], b[..n]);
      SameCalls(a, b);
    }
  }

  /** The loop's calls are determined by the provider: two faithful traces
      after which the loop has ended are the same. */
  lemma StoppedUnique(tuples: Batch, bs0: int, oracle: Oracle, ser: Serializer, mode: OnOverflow, a: seq<Step>, b: seq<Step>)
    requires Setup(tuples, bs0)
    requires Faithful(tuples, bs0, oracle, ser, mode, a) && Stopped(tuples, bs0, ser, mode, a)
    requires Faithful(tuples, bs0, oracle, ser, mode, b) && Stopped(tuples, bs0, ser, mode, b)
    ensures a == b
  {
    if |a| < |b| {
      RunsOn(tuples, bs0, oracle, ser, mode, a, b);
      assert false;
    } else if |b| < |a| {
      RunsOn(tuples, bs0, oracle, ser, mode, b, a);
      assert false;
    } else {
      FaithfulAgree(tuples, bs0, oracle, ser, mode, a, b);
    }
  }

  /** A faithful trace that a longer faithful trace extends leaves the loop
      running. */
  lemma RunsOn(tuples: Batch, bs0: int, oracle: Oracle, ser: Serializer, mode: OnOverflow, a: seq<Step>, b: seq<Step>)
    requires Setup(tuples, bs0) && |a| < |b|
    requires Faithful(tuples, bs0, oracle, ser, mode, a) && Faithful(tuples, bs0, oracle, ser, mode, b)
    ensures !Stopped(tuples, bs0, ser, mode, a)
  {
    var c := b[..|a| + 1];
    FaithfulPrefix(tuples, bs0, oracle, ser, mode, b, |a| + 1);
    var init := c[..|c| - 1];
    FaithfulLast(tuples, bs0, oracle, ser, mode, c);
    FaithfulAgree(tuples, bs0, oracle, ser, mode, a, init);
  }

  /** So `SlidingWindow` over "a", "b", "c" with batch size 2 and the
      provider `DropReplies` returns "a", "c" whatever trace it reports. */
  lemma OverflowLosesRow(ser: Serializer, trace: seq<Step>)
    requires Setup(Rows([Str("a"), Str("b"), Str("c")]), 2)
    requires Faithful(Rows([Str("a"), Str("b"), Str("c")]), 2, DropReplies, ser, DropCarry, trace)
    requires Stopped(Rows([Str("a"), Str("b"), Str("c")]), 2, ser, DropCarry, trace)
    ensures Outcome(Rows([Str("a"), Str("b"), Str("c")]), 2, ser, DropCarry, trace) == Ok(Rows([Str("a"), Str("c")]))
  {
    var calls := CarryExample(ser, DropCarry);
    StoppedUnique(Rows([Str("a"), Str("b"), Str("c")]), 2, DropReplies, ser, DropCarry, trace, calls);
  }

  /** Keeping the carry on overflow, the same run returns all three rows. */
  lemma KeptCarryKeepsRow(ser: Serializer, trace: seq<Step>)
    requires Setup(Rows([Str("a"), Str("b"), Str("c")]), 2)
    requires Faithful(Rows([Str("a"), Str("b"), Str("c")]), 2, DropReplies, ser, KeepCarry, trace)
    requires Stopped(Rows([Str("a"), Str("b"), Str("c")]), 2, ser, KeepCarry, trace)
    ensures Outcome(Rows([Str("a"), Str("b"), Str("c")]), 2, ser, KeepCarry, trace) ==
      Ok(Rows([Str("a"), Str("b"), Str("c")]))
  {
    var calls := CarryExample(ser, KeepCarry);
    StoppedUnique(Rows([Str("a"), Str("b"), Str("c")]), 2, DropReplies, ser, KeepCarry, trace, calls);
  }
}
