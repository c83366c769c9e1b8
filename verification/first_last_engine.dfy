/** `llm_first` and `llm_last` (`LlmFirstOrLast::Evaluate`): a tournament over
    the rows of a group. Every request holds the current champion and the
    next rows, the model answers with the `flock_row_id` of the row it picks,
    and the picked row becomes the champion carried into the next batch. */
module FirstLastEngine {
  import opened Json
  import opened Wrappers
  import opened Text
  import opened Columns
  import opened Batching
  import opened Accumulator
  import opened RowIds

  /** `GetFirstOrLastTupleId` after the provider answered with `items`: an
      integer item is narrowed to `int` and printed, a string item must parse
      with `stoi`, anything else is rejected; the printed or given text must
      be one of the batch's ids. */
  function PickId(batch: Batch, items: seq<Value>, ser: Serializer): (r: Result<int>)
    ensures r.Ok? ==> exists s :: s in ValidIds(batch) && Stoi(s) == Some(r.value)
    ensures r.Ok? ==> First(items).Int? || First(items).Str?
    ensures !First(items).Int? && !First(items).Str? ==> r == Err(NOT_AN_ID + ser.dump(First(items)))
  {
    match ItemId(First(items), ValidIds(batch), ser)
    case Ok(id) => Ok(id.index)
    case Err(e) => Err(e)
  }

  /** When every valid id is the printed form of a row index in `lo .. hi`,
      an accepted pick is such an index. */
  lemma PickIdCanonical(batch: Batch, items: seq<Value>, ser: Serializer, lo: int, hi: int)
    requires 0 <= lo && hi - 1 <= INT32_MAX
    requires forall s :: s in ValidIds(batch) ==> exists j :: lo <= j < hi && s == IntToString(j)
    ensures PickId(batch, items, ser).Ok? ==> lo <= PickId(batch, items, ser).value < hi
  {
    var r := PickId(batch, items, ser);
    if r.Ok? {
      var s :| s in ValidIds(batch) && Stoi(s) == Some(r.value);
      var j :| lo <= j < hi && s == IntToString(j);
      StoiOfIntToString(j);
    }
  }

  /** Conversely, naming a listed row, as an integer or as its printed id,
      picks that row. */
  lemma PickIdAcceptsListedRow(batch: Batch, items: seq<Value>, ser: Serializer, j: nat)
    requires j <= INT32_MAX && IntToString(j) in ValidIds(batch)
    requires First(items) == Int(j) || First(items) == Str(IntToString(j))
    ensures PickId(batch, items, ser) == Ok(j)
  {
    ItemIdAcceptsListedRow(First(items), ValidIds(batch), ser, j);
  }

  /** The batch after a successful call: every column but the last (the id
      column) rebuilt as one row, the picked row of the original input. */
  function Winner(tuples: Batch, id: int): (r: Batch)
    requires |tuples| > 0
    ensures |r| == |tuples| - 1
    ensures forall i :: 0 <= i < |r| ==> r[i] == Column([At(tuples[i].data, id)], tuples[i].meta)
  {
    seq(|tuples| - 1, i requires 0 <= i < |tuples| - 1 => Column([At(tuples[i].data, id)], tuples[i].meta))
  }

  /** One refill pass over the batch array the loop holds. At the first rows
      a fresh `{}` is pushed per column, but the rows go to positions `0 ..`,
      and `data` is reset only when a row is copied; further on, missing
      positions are created and the rows are appended to what is there. */
  function Refill(tuples: Batch, carried: Batch, start: nat, size: nat): (r: Batch)
    ensures start == 0 ==> |r| == |carried| + |tuples|
    ensures start > 0 ==> |r| == Max(|carried|, |tuples|)
  {
    if start == 0 then Overlay(carried + Empties(|tuples|), tuples, 0, size, ReplaceUnlessEmpty)
    else Overlay(Pad(carried, |tuples|), tuples, start, size, Append)
  }

  predicate Success(s: Step, ser: Serializer) {
    s.reply.Items? && PickId(s.request.columns, s.reply.items, ser).Ok?
  }

  /** The batch array after the calls of `trace`: the champion after a
      success, otherwise the array the last call was rendered from. */
  function Carried(trace: seq<Step>, tuples: Batch, ser: Serializer): (b: Batch)
    requires |tuples| > 0
    ensures |trace| > 0 && !Success(trace[|trace| - 1], ser) ==> b == trace[|trace| - 1].request.columns
  {
    if |trace| == 0 then []
    else
      var s := trace[|trace| - 1];
      if Success(s, ser) then Winner(tuples, PickId(s.request.columns, s.reply.items, ser).value)
      else s.request.columns
  }

  /** Every call asked for one integer over the refilled batch and got the
      oracle's answer; every call but the last that returned items had its
      pick accepted (a rejected pick ends the loop). */
  predicate Faithful(trace: seq<Step>, tuples: Batch, oracle: Oracle, ser: Serializer)
    requires |tuples| > 0
  {
    (forall i :: 0 <= i < |trace| ==> Asked(trace[i], trace[..i], tuples, ser) && trace[i].reply == oracle(i)) &&
    (forall i :: 0 <= i < |trace| - 1 ==> trace[i].reply.Items? ==> Success(trace[i], ser))
  }

  /** Call `s`, made after the calls `before`, asked for one integer over the
      refilled batch. */
  predicate Asked(s: Step, before: seq<Step>, tuples: Batch, ser: Serializer)
    requires |tuples| > 0
  {
    s.start >= 0 && s.size >= 0 &&
    s.request == Request(Refill(tuples, Carried(before, tuples, ser), s.start, s.size), 1, INTEGER, Null)
  }

  predicate Stopped(last: Step, n: int, ser: Serializer) {
    match last.reply
    case Items(_) => !Success(last, ser) || last.start + last.size >= n
    case Overflow => last.size >= 0 && Shrink(last.size) <= 0
    case Failed(_) => true
  }

  function Outcome(trace: seq<Step>, tuples: Batch, ser: Serializer): Result<Batch>
    requires |trace| > 0 && |tuples| > 0
  {
    var last := trace[|trace| - 1];
    match last.reply
    case Items(items) =>
      (match PickId(last.request.columns, items, ser)
       case Ok(id) => Ok(Winner(tuples, id))
       case Err(e) => Err(e))
    case Overflow => Err(REDUCED_TO_ZERO_ERROR)
    case Failed(msg) => Err(msg)
  }

  /** Every column but the last (the id column), cut to its first row. */
  function ShortGroup(tuples: Batch): (r: Batch)
    ensures |r| == Max(|tuples| - 1, 0)
    ensures forall i :: 0 <= i < |r| ==>
      r[i].meta == tuples[i].meta && r[i].data == tuples[i].data[..Min(1, |tuples[i].data|)]
  {
    CutToFirst(tuples[..Max(|tuples| - 1, 0)])
  }

  lemma ExtendFaithful(trace: seq<Step>, step: Step, tuples: Batch, oracle: Oracle, ser: Serializer)
    requires |tuples| > 0 && Faithful(trace, tuples, oracle, ser)
    requires Asked(step, trace, tuples, ser) && step.reply == oracle(|trace|)
    requires |trace| > 0 && trace[|trace| - 1].reply.Items? ==> Success(trace[|trace| - 1], ser)
    ensures Faithful(trace + [step], tuples, oracle, ser)
  {
    ExtendAsked(trace, step, tuples, oracle, ser);
    var t := trace + [step];
    forall i | 0 <= i < |t| - 1
      ensures t[i].reply.Items? ==> Success(t[i], ser)
    {
      assert t[i] == trace[i];
    }
  }

  lemma ExtendAsked(trace: seq<Step>, step: Step, tuples: Batch, oracle: Oracle, ser: Serializer)
    requires |tuples| > 0
    requires forall i :: 0 <= i < |trace| ==> Asked(trace[i], trace[..i], tuples, ser) && trace[i].reply == oracle(i)
    requires Asked(step, trace, tuples, ser) && step.reply == oracle(|trace|)
    ensures forall i :: 0 <= i < |trace| + 1 ==>
      Asked((trace + [step])[i], (trace + [step])[..i], tuples, ser) && (trace + [step])[i].reply == oracle(i)
  {
    var t := trace + [step];
    forall i | 0 <= i < |t|
      ensures Asked(t[i], t[..i], tuples, ser) && t[i].reply == oracle(i)
    {
      if i < |trace| {
        assert t[i] == trace[i] && t[..i] == trace[..i];
      } else {
        assert t[i] == step && t[..i] == trace;
      }
    }
  }

  /** One pass of the loop: the trace stays a schedule of faithful calls and
      the batch the loop keeps is `Carried`. */
  lemma EvaluateStep(tuples: Batch, oracle: Oracle, ser: Serializer, trace: seq<Step>, n: int, bs0: int, step: Step)
    requires |tuples| > 0 && step.start >= 0 && step.size >= 0
    requires |trace| == 0 ==> step.start == 0 && step.size == bs0
    requires |trace| > 0 ==> Schedule(trace, n, bs0) && LeadsTo(trace[|trace| - 1], step.start, step.size, n)
    requires |trace| > 0 && trace[|trace| - 1].reply.Items? ==> Success(trace[|trace| - 1], ser)
    requires Faithful(trace, tuples, oracle, ser)
    requires Asked(step, trace, tuples, ser) && step.reply == oracle(|trace|)
    ensures Schedule(trace + [step], n, bs0) && Faithful(trace + [step], tuples, oracle, ser)
    ensures (trace + [step])[|trace|] == step
    ensures Carried(trace + [step], tuples, ser) ==
      if Success(step, ser) then Winner(tuples, PickId(step.request.columns, step.reply.items, ser).value)
      else step.request.columns
  {
    ExtendSchedule(trace, step, n, bs0);
    ExtendFaithful(trace, step, tuples, oracle, ser);
  }

  /** What holds between two rounds of the loop, `batch` being the array it
      holds and `start`, `bs` the rows the next call covers. */
  predicate Between(trace: seq<Step>, tuples: Batch, oracle: Oracle, ser: Serializer,
                    n: int, bs0: int, start: int, bs: int, batch: Batch)
    requires |tuples| > 0
  {
    0 <= start < n && 0 < bs &&
    (|trace| == 0 ==> start == 0 && bs == bs0) &&
    (|trace| > 0 ==> Schedule(trace, n, bs0) && LeadsTo(trace[|trace| - 1], start, bs, n) &&
                     (trace[|trace| - 1].reply.Items? ==> Success(trace[|trace| - 1], ser))) &&
    Faithful(trace, tuples, oracle, ser) &&
    batch == Carried(trace, tuples, ser)
  }

  /** One round of the do-while loop: refill, call, and either stop with the
      outcome or continue with a later start or a smaller batch. */
  method Round(tuples: Batch, oracle: Oracle, ser: Serializer, trace: seq<Step>, n: int, ghost bs0: int,
               start: int, bs: int, batch: Batch)
    returns (step: Step, start': int, bs': int, batch': Batch, out: Option<Result<Batch>>)
    requires |tuples| > 0 && Between(trace, tuples, oracle, ser, n, bs0, start, bs, batch)
    ensures Schedule(trace + [step], n, bs0) && Faithful(trace + [step], tuples, oracle, ser)
    ensures (trace + [step])[|trace|] == step
    ensures out.Some? ==> Stopped(step, n, ser) && out.value == Outcome(trace + [step], tuples, ser)
    ensures out.None? ==> Between(trace + [step], tuples, oracle, ser, n, bs0, start', bs', batch')
    ensures out.None? ==> start < start' || (start == start' && 0 <= bs' < bs)
  {
    var rows := Refill(tuples, batch, start, bs);
    step := Step(start, bs, Request(rows, 1, INTEGER, Null), oracle(|trace|));
    assert Asked(step, trace, tuples, ser);
    EvaluateStep(tuples, oracle, ser, trace, n, bs0, step);
    start', bs', batch', out := start, bs, rows, None;
    match step.reply {
      case Failed(msg) =>
        out := Some(Err(msg));
      case Items(items) =>
        var pick := PickId(rows, items, ser);
        if pick.Err? {
          out := Some(Err(pick.error));
        } else {
          batch' := Winner(tuples, pick.value);
          if start + bs >= n {
            out := Some(Ok(batch'));
          } else {
            start' := start + bs;
          }
        }
      case Overflow =>
        bs' := Shrink(bs);
        if bs' <= 0 {
          out := Some(Err(REDUCED_TO_ZERO_ERROR));
        }
    }
  }

  method Evaluate(tuples: Batch, modelBatchSize: int, oracle: Oracle, ser: Serializer)
    returns (r: Result<Batch>, trace: seq<Step>)
    ensures RowCount(tuples) <= 1 ==> r == Ok(ShortGroup(tuples)) && trace == []
    ensures RowCount(tuples) > 1 && Min(modelBatchSize, RowCount(tuples)) <= 0 ==>
      r == Err(BATCH_SIZE_ERROR) && trace == []
    ensures RowCount(tuples) > 1 && Min(modelBatchSize, RowCount(tuples)) > 0 ==>
      |tuples| > 0 &&
      Schedule(trace, RowCount(tuples), Min(modelBatchSize, RowCount(tuples))) &&
      Faithful(trace, tuples, oracle, ser) &&
      Stopped(trace[|trace| - 1], RowCount(tuples), ser) &&
      r == Outcome(trace, tuples, ser)
  {
    var n := RowCount(tuples);
    trace := [];
    if n <= 1 {
      return Ok(ShortGroup(tuples)), trace;
    }
    var bs := Min(modelBatchSize, n);
    if bs <= 0 {
      return Err(BATCH_SIZE_ERROR), trace;
    }
    ghost var bs0 := bs;
    var start := 0;
    var batch: Batch := [];
    while true
      invariant Between(trace, tuples, oracle, ser, n, bs0, start, bs, batch)
      decreases n - start, bs
    {
      var step, start', bs', batch', out := Round(tuples, oracle, ser, trace, n, bs0, start, bs, batch);
      trace := trace + [step];
      if out.Some? {
        return out.value, trace;
      }
      start, bs, batch := start', bs', batch';
    }
  }

  /** A retry after an overflow renders the stale array again: at the first
      rows it gains one more set of empty columns, further on every column's
      rows are appended a second time after the ones already there. */
  lemma OverflowKeepsStaleRows(trace: seq<Step>, tuples: Batch, oracle: Oracle, ser: Serializer, i: nat)
    requires |tuples| > 0 && Faithful(trace, tuples, oracle, ser)
    requires i + 1 < |trace| && trace[i].reply.Overflow? && trace[i + 1].start == trace[i].start
    ensures trace[i].start == 0 ==>
      |trace[i + 1].request.columns| == |trace[i].request.columns| + |tuples|
    ensures trace[i].start > 0 ==>
      |trace[i + 1].request.columns| == |trace[i].request.columns| &&
      forall c :: 0 <= c < |tuples| ==>
        trace[i + 1].request.columns[c].data ==
          trace[i].request.columns[c].data + SliceData(tuples[c].data, trace[i].start, trace[i + 1].size)
  {
    var prev := trace[..i + 1];
    assert prev[|prev| - 1] == trace[i];
    var carried := Carried(prev, tuples, ser);
    assert carried == trace[i].request.columns;
    assert |carried| >= |tuples|;
    if trace[i].start > 0 {
      assert Pad(carried, |tuples|) == carried;
    }
  }

  /** The first call is rendered from rows `0 .. bs0` of every column, the
      id column included. */
  lemma FirstRequest(trace: seq<Step>, tuples: Batch, oracle: Oracle, ser: Serializer, n: int, bs0: int)
    requires |tuples| > 0 && Schedule(trace, n, bs0) && Faithful(trace, tuples, oracle, ser)
    ensures trace[0].request.columns == Slice(tuples, 0, bs0)
  {
    assert Asked(trace[0], trace[..0], tuples, ser);
    assert trace[..0] == [];
    RefillAtFirstRows(tuples, bs0);
  }

  /** At the first rows the refill of an empty array is the plain slice. */
  lemma RefillAtFirstRows(tuples: Batch, size: nat)
    requires |tuples| > 0
    ensures Refill(tuples, [], 0, size) == Slice(tuples, 0, size)
  {
    var r := Overlay([] + Empties(|tuples|), tuples, 0, size, ReplaceUnlessEmpty);
    forall c | 0 <= c < |tuples|
      ensures r[c] == Slice(tuples, 0, size)[c]
    {
      assert ([] + Empties(|tuples|))[c] == EmptyColumn;
      assert map[] + tuples[c].meta == tuples[c].meta;
    }
  }

  /** The refilled array after an accepted pick of row `pick`: every column
      but the id column holds the picked row of the original input and then
      the new rows, and the id column holds only the new rows. */
  lemma RefillAfterWinner(tuples: Batch, pick: int, start: nat, size: nat)
    requires |tuples| > 0 && start > 0
    ensures |Refill(tuples, Winner(tuples, pick), start, size)| == |tuples|
    ensures forall c :: 0 <= c < |tuples| - 1 ==>
      Refill(tuples, Winner(tuples, pick), start, size)[c] ==
        Column([At(tuples[c].data, pick)] + SliceData(tuples[c].data, start, size), tuples[c].meta)
    ensures Refill(tuples, Winner(tuples, pick), start, size)[|tuples| - 1] ==
      Column(SliceData(tuples[|tuples| - 1].data, start, size), tuples[|tuples| - 1].meta)
  {
    var w := Winner(tuples, pick);
    var padded := Pad(w, |tuples|);
    var r := Refill(tuples, w, start, size);
    assert r == Overlay(padded, tuples, start, size, Append);
    forall c | 0 <= c < |tuples| - 1
      ensures r[c] == Column([At(tuples[c].data, pick)] + SliceData(tuples[c].data, start, size), tuples[c].meta)
    {
      assert padded[c] == w[c];
      assert tuples[c].meta + tuples[c].meta == tuples[c].meta;
    }
    assert padded[|tuples| - 1] == EmptyColumn;
    assert map[] + tuples[|tuples| - 1].meta == tuples[|tuples| - 1].meta;
    assert [] + SliceData(tuples[|tuples| - 1].data, start, size) == SliceData(tuples[|tuples| - 1].data, start, size);
  }

  /** A call that follows an accepted pick is rendered from the champion
      followed by the next rows (`RefillAfterWinner`). */
  lemma RequestAfterPick(trace: seq<Step>, tuples: Batch, oracle: Oracle, ser: Serializer,
                         n: int, bs0: int, i: nat)
    requires |tuples| > 0 && Schedule(trace, n, bs0) && Faithful(trace, tuples, oracle, ser) && bs0 > 0
    requires 0 < i < |trace| && trace[i - 1].reply.Items?
    ensures Success(trace[i - 1], ser)
    ensures trace[i].start > 0
    ensures trace[i].request.columns ==
      Refill(tuples, Winner(tuples, PickId(trace[i - 1].request.columns, trace[i - 1].reply.items, ser).value),
             trace[i].start, trace[i].size)
  {
    assert Continues(trace[i - 1], trace[i], n);
    ScheduleSizesPositive(trace, n, bs0, i - 1);
    ScheduleStartsBelow(trace, n, bs0, i - 1);
    var prev := trace[..i];
    assert prev[|prev| - 1] == trace[i - 1];
    assert Asked(trace[i], prev, tuples, ser);
  }

  /** Two batches whose columns carry the same metadata have the same id
      column. */
  lemma {:induction false} IdColumnOfSameMeta(a: Batch, b: Batch, from: nat)
    requires |a| == |b| && forall c :: 0 <= c < |a| ==> a[c].meta == b[c].meta
    ensures IdColumnFrom(a, from) == IdColumnFrom(b, from)
    decreases |a| - from
  {
    if from < |a| {
      IdColumnOfSameMeta(a, b, from + 1);
    }
  }

  /** The tuples `FinalizeResults` hands over: the group's columns followed by
      the id column `"0" .. "n-1"`, no earlier column named `flock_row_id`. */
  predicate Numbered(tuples: Batch, n: nat) {
    |tuples| > 0 && IdColumn(tuples) == Some(|tuples| - 1) &&
    tuples[|tuples| - 1].data == Ids(n) && n - 1 <= INT32_MAX
  }

  /** When the id column of a request holds the ids of rows `lo .. hi`, an
      accepted pick names one of those rows. */
  lemma PickFromSlice(tuples: Batch, req: Batch, items: seq<Value>, ser: Serializer, n: nat, lo: nat, size: nat)
    requires Numbered(tuples, n) && |req| == |tuples| && lo < n
    requires forall c :: 0 <= c < |req| ==> req[c].meta == tuples[c].meta
    requires req[|req| - 1].data == SliceData(Ids(n), lo, size)
    ensures PickId(req, items, ser).Ok? ==> lo <= PickId(req, items, ser).value < Min(lo + size, n)
  {
    IdColumnOfSameMeta(req, tuples, 0);
    var ids := req[|req| - 1].data;
    forall s | s in ValidIds(req)
      ensures exists j :: lo <= j < Min(lo + size, n) && s == IntToString(j)
    {
      var x :| x in ids && x.Str? && x.s == s;
      var k :| 0 <= k < |ids| && ids[k] == x;
      assert ids[k] == Ids(n)[lo + k];
    }
    PickIdCanonical(req, items, ser, lo, Min(lo + size, n));
  }

  /** The columns of a call made at the first rows or right after an
      accepted pick carry the input's metadata, and its id column holds the
      ids of the rows the call admits. */
  predicate AdmitsIds(s: Step, tuples: Batch, n: nat)
    requires |tuples| > 0
  {
    s.start >= 0 && s.size >= 0 &&
    |s.request.columns| == |tuples| &&
    (forall c :: 0 <= c < |tuples| ==> s.request.columns[c].meta == tuples[c].meta) &&
    s.request.columns[|tuples| - 1].data == SliceData(tuples[|tuples| - 1].data, s.start, s.size)
  }

  lemma FirstRequestAdmitsIds(trace: seq<Step>, tuples: Batch, oracle: Oracle, ser: Serializer, n: nat, bs0: int)
    requires |tuples| > 0 && Schedule(trace, n, bs0) && Faithful(trace, tuples, oracle, ser) && bs0 > 0
    ensures AdmitsIds(trace[0], tuples, n)
  {
    FirstRequest(trace, tuples, oracle, ser, n, bs0);
  }

  lemma LaterRequestAdmitsIds(trace: seq<Step>, tuples: Batch, oracle: Oracle, ser: Serializer,
                              n: nat, bs0: int, i: nat)
    requires |tuples| > 0 && Schedule(trace, n, bs0) && Faithful(trace, tuples, oracle, ser) && bs0 > 0
    requires 0 < i < |trace| && trace[i - 1].reply.Items?
    ensures AdmitsIds(trace[i], tuples, n)
  {
    RequestAfterPick(trace, tuples, oracle, ser, n, bs0, i);
    assert Continues(trace[i - 1], trace[i], n);
    var pick := PickId(trace[i - 1].request.columns, trace[i - 1].reply.items, ser).value;
    RefillAdmitsIds(trace[i], tuples, pick, n);
  }

  /** A request refilled after a winner admits the ids of its window. */
  lemma RefillAdmitsIds(s: Step, tuples: Batch, pick: int, n: nat)
    requires |tuples| > 0 && s.start > 0 && s.size >= 0
    requires s.request.columns == Refill(tuples, Winner(tuples, pick), s.start, s.size)
    ensures AdmitsIds(s, tuples, n)
  {
    RefillAfterWinner(tuples, pick, s.start, s.size);
  }

  /** Every accepted pick names one of the rows the call admitted, unless
      the previous call overflowed: after an accepted pick the id column
      holds only the new rows, so the carried champion cannot be named. */
  lemma PickInNewRows(trace: seq<Step>, tuples: Batch, oracle: Oracle, ser: Serializer,
                      n: nat, bs0: int, i: nat)
    requires Numbered(tuples, n) && n == RowCount(tuples) && n > 1
    requires Schedule(trace, n, bs0) && Faithful(trace, tuples, oracle, ser) && bs0 > 0
    requires i < |trace| && (i == 0 || trace[i - 1].reply.Items?) && Success(trace[i], ser)
    ensures trace[i].start <= PickId(trace[i].request.columns, trace[i].reply.items, ser).value
                          < trace[i].start + trace[i].size
  {
    ScheduleStartsBelow(trace, n, bs0, i);
    if i == 0 {
      FirstRequestAdmitsIds(trace, tuples, oracle, ser, n, bs0);
    } else {
      LaterRequestAdmitsIds(trace, tuples, oracle, ser, n, bs0, i);
    }
    PickAdmitted(trace[i], tuples, n, ser);
  }

  lemma PickAdmitted(s: Step, tuples: Batch, n: nat, ser: Serializer)
    requires Numbered(tuples, n) && AdmitsIds(s, tuples, n) && s.start < n && Success(s, ser)
    ensures s.start <= PickId(s.request.columns, s.reply.items, ser).value < s.start + s.size
  {
    PickFromSlice(tuples, s.request.columns, s.reply.items, ser, n, s.start, s.size);
  }

  /** While no call has overflowed, every accepted pick is a later row than
      every earlier accepted pick: a row once carried is never selected
      again. */
  lemma ChampionNeverReselected(trace: seq<Step>, tuples: Batch, oracle: Oracle, ser: Serializer,
                                n: nat, bs0: int, i: nat, j: nat)
    requires Numbered(tuples, n) && n == RowCount(tuples) && n > 1
    requires Schedule(trace, n, bs0) && Faithful(trace, tuples, oracle, ser) && bs0 > 0
    requires i < j < |trace| && forall k :: 0 <= k < j ==> !trace[k].reply.Overflow?
    requires Success(trace[i], ser) && Success(trace[j], ser)
    ensures PickId(trace[i].request.columns, trace[i].reply.items, ser).value <
            PickId(trace[j].request.columns, trace[j].reply.items, ser).value
  {
    PickAfterItems(trace, tuples, oracle, ser, n, bs0, i);
    PickAfterItems(trace, tuples, oracle, ser, n, bs0, j);
    assert Continues(trace[i], trace[i + 1], n);
    StartsNonDecreasing(trace, n, bs0, i + 1, j);
  }

  /** A pick accepted while no call has overflowed lies in its own window. */
  lemma PickAfterItems(trace: seq<Step>, tuples: Batch, oracle: Oracle, ser: Serializer,
                       n: nat, bs0: int, i: nat)
    requires Numbered(tuples, n) && n == RowCount(tuples) && n > 1
    requires Schedule(trace, n, bs0) && Faithful(trace, tuples, oracle, ser) && bs0 > 0
    requires i < |trace| && (i > 0 ==> !trace[i - 1].reply.Overflow?) && Success(trace[i], ser)
    ensures trace[i].start <= PickId(trace[i].request.columns, trace[i].reply.items, ser).value
                          < trace[i].start + trace[i].size
  {
    if i > 0 {
      assert Continues(trace[i - 1], trace[i], n);
    }
    PickInNewRows(trace, tuples, oracle, ser, n, bs0, i);
  }

  /** After an overflow the retry keeps the rows of the larger call in every
      column, the id column included, so it admits ids past its own window
      (`RetryShape` gives the two refills a run makes). An answer naming the
      first row past the window is accepted; the next call then starts at
      that very row and offers it again as a new row, and the same answer
      picks it a second time. */
  lemma OverflowReadmitsChampion(tuples: Batch, pick: int, s: nat, size0: nat, size: nat, n: nat,
                                 items: seq<Value>, ser: Serializer, prev: Batch, retry: Batch, next: Batch)
    requires Numbered(tuples, n) && n == RowCount(tuples) && s > 0 && 0 < size < size0 && s + size < n
    requires prev == Refill(tuples, Winner(tuples, pick), s, size0) && retry == Refill(tuples, prev, s, size)
    requires next == Refill(tuples, Winner(tuples, s + size), s + size, size)
    requires First(items) == Int(s + size)
    ensures PickId(retry, items, ser) == Ok(s + size)
    ensures PickId(next, items, ser) == Ok(s + size)
  {
    RetryKeepsLargerWindow(tuples, pick, s, size0, size, n, prev, retry);
    PickIdAcceptsListedRow(retry, items, ser, s + size);
    NextOffersStart(tuples, s + size, size, n, next);
    PickIdAcceptsListedRow(next, items, ser, s + size);
  }

  /** The refill after a pick lists the id of the first row of its window. */
  lemma NextOffersStart(tuples: Batch, s: nat, size: nat, n: nat, next: Batch)
    requires Numbered(tuples, n) && n == RowCount(tuples) && s > 0 && size > 0 && s < n
    requires next == Refill(tuples, Winner(tuples, s), s, size)
    ensures IntToString(s) in ValidIds(next)
  {
    var last := |tuples| - 1;
    assert |next| == |tuples| && forall c :: 0 <= c < |tuples| ==> next[c].meta == tuples[c].meta by {
      WinnerRefillShape(tuples, s, s, size, next);
    }
    assert next[last].data == SliceData(tuples[last].data, s, size) by {
      WinnerRefillShape(tuples, s, s, size, next);
    }
    IdColumnOfSameMeta(next, tuples, 0);
    ListedId(next, last, 0, IntToString(s));
  }

  /** The retry after an overflow that followed an accepted pick: the
      overflowing call was the refill after the pick, and the retry refills
      that same array at the same start with a smaller size. */
  lemma RetryShape(trace: seq<Step>, tuples: Batch, oracle: Oracle, ser: Serializer,
                   n: nat, bs0: int, i: nat)
    requires |tuples| > 0 && Schedule(trace, n, bs0) && Faithful(trace, tuples, oracle, ser) && bs0 > 0
    requires 2 <= i < |trace| && trace[i - 2].reply.Items? && trace[i - 1].reply.Overflow?
    ensures Success(trace[i - 2], ser)
    ensures trace[i].start > 0 && trace[i].start == trace[i - 1].start && trace[i].size < trace[i - 1].size
    ensures trace[i - 1].request.columns ==
      Refill(tuples, Winner(tuples, PickId(trace[i - 2].request.columns, trace[i - 2].reply.items, ser).value),
             trace[i].start, trace[i - 1].size)
    ensures trace[i].request.columns == Refill(tuples, trace[i - 1].request.columns, trace[i].start, trace[i].size)
  {
    assert Continues(trace[i - 1], trace[i], n);
    RequestAfterPick(trace, tuples, oracle, ser, n, bs0, i - 1);
    assert trace[..i][i - 1] == trace[i - 1];
    assert Asked(trace[i], trace[..i], tuples, ser);
  }

  /** The id column of a retry over the refill after a pick holds the ids of
      the larger window and then those of the smaller one. */
  lemma RetryKeepsLargerWindow(tuples: Batch, pick: int, s: nat, size0: nat, size: nat, n: nat, prev: Batch, req: Batch)
    requires Numbered(tuples, n) && n == RowCount(tuples) && s > 0 && size < size0 && s + size < n
    requires prev == Refill(tuples, Winner(tuples, pick), s, size0) && req == Refill(tuples, prev, s, size)
    ensures IntToString(s + size) in ValidIds(req)
  {
    WinnerRefillShape(tuples, pick, s, size0, prev);
    RefillAppends(prev, tuples, s, size, req);
    RetryIds(tuples, prev, req, s, size0, size, n);
  }

  /** The refill after a pick keeps the input's metadata and puts only the
      window's ids in the id column. */
  lemma WinnerRefillShape(tuples: Batch, pick: int, s: nat, size0: nat, prev: Batch)
    requires |tuples| > 0 && s > 0 && prev == Refill(tuples, Winner(tuples, pick), s, size0)
    ensures |prev| == |tuples| && forall c :: 0 <= c < |tuples| ==> prev[c].meta == tuples[c].meta
    ensures prev[|tuples| - 1].data == SliceData(tuples[|tuples| - 1].data, s, size0)
  {
    RefillAfterWinner(tuples, pick, s, size0);
  }

  /** Further on, a refill of an array as wide as the input appends the
      window's rows to every column. */
  lemma RefillAppends(prev: Batch, tuples: Batch, s: nat, size: nat, req: Batch)
    requires |prev| == |tuples| && s > 0 && req == Refill(tuples, prev, s, size)
    ensures |req| == |tuples|
    ensures forall c :: 0 <= c < |tuples| ==>
      req[c] == Column(prev[c].data + SliceData(tuples[c].data, s, size), prev[c].meta + tuples[c].meta)
  {
    assert Pad(prev, |tuples|) == prev;
  }

  lemma RetryIds(tuples: Batch, prev: Batch, req: Batch, s: nat, size0: nat, size: nat, n: nat)
    requires Numbered(tuples, n) && n == RowCount(tuples) && size < size0 && s + size < n
    requires |prev| == |tuples| && forall c :: 0 <= c < |tuples| ==> prev[c].meta == tuples[c].meta
    requires prev[|tuples| - 1].data == SliceData(tuples[|tuples| - 1].data, s, size0)
    requires |req| == |tuples| && forall c :: 0 <= c < |tuples| ==>
      req[c] == Column(prev[c].data + SliceData(tuples[c].data, s, size), prev[c].meta + tuples[c].meta)
    ensures IntToString(s + size) in ValidIds(req)
  {
    var last := |tuples| - 1;
    assert IdColumn(req) == Some(last) by {
      forall c | 0 <= c < |req|
        ensures req[c].meta == tuples[c].meta
      {
        assert tuples[c].meta + tuples[c].meta == tuples[c].meta;
      }
      IdColumnOfSameMeta(req, tuples, 0);
    }
    assert req[last].data[size] == Str(IntToString(s + size)) by {
      assert req[last].data[size] == prev[last].data[size];
    }
    ListedId(req, last, size, IntToString(s + size));
  }

  /** A string at any position of the id column is a valid id. */
  lemma ListedId(b: Batch, k: nat, pos: nat, x: string)
    requires IdColumn(b) == Some(k) && k < |b| && pos < |b[k].data| && b[k].data[pos] == Str(x)
    ensures x in ValidIds(b)
  {
    assert Str(x) in b[k].data;
  }

  const EMPTY_PROMPT_ERROR: string := "The prompt cannot be empty"

  /** A group with no column of its own named `flock_row_id` gets well
      numbered tuples. */
  lemma WithIdsNumbered(v: Batch)
    requires |v| > 0 && RowCount(v) - 1 <= INT32_MAX
    requires forall c :: 0 <= c < |v| ==> NameOf(v[c]) != Some(ROW_ID)
    ensures Numbered(WithIds(v), RowCount(v))
  {
    var t := WithIds(v);
    forall c | 0 <= c < |v| ensures NameOf(t[c]) != Some(ROW_ID) {
      assert t[c] == v[c];
    }
    assert NameOf(t[|v|]) == Some(ROW_ID);
  }

  /** The calls `Evaluate` makes for a group of more than one row with a
      positive batch size. */
  predicate Run(tuples: Batch, bs0: int, oracle: Oracle, ser: Serializer, trace: seq<Step>) {
    |tuples| > 0 && Schedule(trace, RowCount(tuples), bs0) && Faithful(trace, tuples, oracle, ser) &&
    Stopped(trace[|trace| - 1], RowCount(tuples), ser)
  }

  /** `trace` is what finalizing state `s` asks the provider and `res` what
      `Evaluate` returns: nothing is asked for a null or empty state, a group
      of at most one row or an empty prompt, and a non-positive batch size
      fails before any call; otherwise the tournament runs over the numbered
      group. */
  predicate Evaluated(s: Option<State>, prompt: string, modelBatchSize: int, oracle: Oracle, ser: Serializer,
                      trace: seq<Step>, res: Result<Batch>)
  {
    match Content(s)
    case None => trace == []
    case Some(v) =>
      var n := RowCount(v);
      if n <= 1 || prompt == "" then trace == []
      else if Min(modelBatchSize, n) <= 0 then trace == [] && res == Err(BATCH_SIZE_ERROR)
      else Run(WithIds(v), Min(modelBatchSize, n), oracle, ser, trace) && res == Outcome(trace, WithIds(v), ser)
  }

  /** The result slot of state `s` given what `Evaluate` returned for it: SQL
      NULL for a null or empty state, the dump of every column cut to its
      first row for at most one row, the error of an empty prompt, else the
      dump of the winner or the error that aborts the query. */
  function Slot(s: Option<State>, prompt: string, ser: Serializer, res: Result<Batch>): Result<Option<string>> {
    match Content(s)
    case None => Ok(None)
    case Some(v) =>
      if RowCount(v) <= 1 then Ok(Some(ser.dump(BatchToJson(CutToFirst(v)))))
      else if prompt == "" then Err(EMPTY_PROMPT_ERROR)
      else
        match res
        case Ok(b) => Ok(Some(ser.dump(BatchToJson(b))))
        case Err(e) => Err(e)
  }

  /** Whether finalizing `s` runs the tournament (and is recorded for the
      metrics merge). */
  predicate Processed(s: Option<State>) {
    Content(s).Some? && RowCount(Content(s).value) > 1
  }

  /** The first `|results|` states were finalized into the slots `out`,
      `results` being what `Evaluate` returned for them. */
  predicate Done(states: seq<Option<State>>, prompt: string, ser: Serializer, results: seq<Result<Batch>>,
                 out: ResultVector)
  {
    |out| == |results| <= |states| &&
    forall j :: 0 <= j < |results| ==> Slot(states[j], prompt, ser, results[j]) == Ok(out[j])
  }

  /** The states before the last of `results` were finalized, and finalizing
      the last one failed with `e`. */
  predicate FailedAt(states: seq<Option<State>>, prompt: string, ser: Serializer, results: seq<Result<Batch>>,
                     e: string)
  {
    0 < |results| <= |states| &&
    (forall j :: 0 <= j < |results| - 1 ==> Slot(states[j], prompt, ser, results[j]).Ok?) &&
    Slot(states[|results| - 1], prompt, ser, results[|results| - 1]) == Err(e)
  }

  /** Every state below `|traces|` was evaluated with the calls `traces`
      (stated for the last one, then for the ones before it). */
  predicate Traced(states: seq<Option<State>>, prompt: string, modelBatchSize: int, oracles: seq<Oracle>,
                   ser: Serializer, traces: seq<seq<Step>>, results: seq<Result<Batch>>)
    decreases |traces|
  {
    |traces| == |results| <= |states| <= |oracles| &&
    (|traces| == 0 ||
     (Traced(states, prompt, modelBatchSize, oracles, ser, traces[..|traces| - 1], results[..|results| - 1]) &&
      Evaluated(states[|traces| - 1], prompt, modelBatchSize, oracles[|traces| - 1], ser,
                traces[|traces| - 1], results[|results| - 1])))
  }

  lemma {:induction false} TracedAt(states: seq<Option<State>>, prompt: string, modelBatchSize: int,
                                    oracles: seq<Oracle>, ser: Serializer, traces: seq<seq<Step>>,
                                    results: seq<Result<Batch>>, j: nat)
    requires Traced(states, prompt, modelBatchSize, oracles, ser, traces, results) && j < |traces|
    ensures Evaluated(states[j], prompt, modelBatchSize, oracles[j], ser, traces[j], results[j])
    decreases |traces|
  {
    if j < |traces| - 1 {
      var n := |traces| - 1;
      TracedAt(states, prompt, modelBatchSize, oracles, ser, traces[..n], results[..n], j);
      assert traces[..n][j] == traces[j] && results[..n][j] == results[j];
    }
  }

  lemma ExtendDone(states: seq<Option<State>>, prompt: string, ser: Serializer, results: seq<Result<Batch>>,
                   out: ResultVector, res: Result<Batch>, cell: Option<string>)
    requires Done(states, prompt, ser, results, out) && |results| < |states|
    requires Slot(states[|results|], prompt, ser, res) == Ok(cell)
    ensures Done(states, prompt, ser, results + [res], out + [cell])
  {
    var rs, os := results + [res], out + [cell];
    forall j | 0 <= j < |rs|
      ensures Slot(states[j], prompt, ser, rs[j]) == Ok(os[j])
    {
      if j < |results| {
        assert rs[j] == results[j] && os[j] == out[j];
      }
    }
  }

  lemma FailAfterDone(states: seq<Option<State>>, prompt: string, ser: Serializer, results: seq<Result<Batch>>,
                      out: ResultVector, res: Result<Batch>, e: string)
    requires Done(states, prompt, ser, results, out) && |results| < |states|
    requires Slot(states[|results|], prompt, ser, res) == Err(e)
    ensures FailedAt(states, prompt, ser, results + [res], e)
  {
    var rs := results + [res];
    forall j | 0 <= j < |rs| - 1
      ensures Slot(states[j], prompt, ser, rs[j]).Ok?
    {
      assert rs[j] == results[j];
    }
    assert rs[|rs| - 1] == res;
  }

  lemma ExtendTraced(states: seq<Option<State>>, prompt: string, modelBatchSize: int, oracles: seq<Oracle>,
                     ser: Serializer, traces: seq<seq<Step>>, results: seq<Result<Batch>>,
                     trace: seq<Step>, res: Result<Batch>)
    requires Traced(states, prompt, modelBatchSize, oracles, ser, traces, results) && |traces| < |states|
    requires Evaluated(states[|traces|], prompt, modelBatchSize, oracles[|traces|], ser, trace, res)
    ensures Traced(states, prompt, modelBatchSize, oracles, ser, traces + [trace], results + [res])
  {
    assert (traces + [trace])[..|traces|] == traces;
    assert (results + [res])[..|results|] == results;
  }

  /** `LlmFirstOrLast::FinalizeResults` over the `count` states of a result
      vector: each state is finalized in turn, with its own provider, and an
      error aborts the whole call. `results` and `traces` are what `Evaluate`
      returned and asked for each state; `processed` lists the states
      recorded for the metrics merge, in order. */
  method FinalizeResults(states: seq<Option<State>>, prompt: string, modelBatchSize: int,
                         oracles: seq<Oracle>, ser: Serializer)
    returns (r: Result<ResultVector>, processed: seq<nat>,
             ghost results: seq<Result<Batch>>, ghost traces: seq<seq<Step>>)
    requires |oracles| == |states|
    ensures Traced(states, prompt, modelBatchSize, oracles, ser, traces, results)
    ensures r.Ok? ==> |results| == |states| && Done(states, prompt, ser, results, r.value)
    ensures r.Ok? ==> forall j :: 0 <= j < |states| ==> (r.value[j].None? <==> Content(states[j]).None?)
    ensures r.Err? ==> FailedAt(states, prompt, ser, results, r.error)
    ensures processed == Marked(states[..|results|], Processed)
  {
    var out: ResultVector := [];
    processed := [];
    results, traces := [], [];
    for i := 0 to |states|
      invariant |results| == i && Done(states, prompt, ser, results, out)
      invariant Traced(states, prompt, modelBatchSize, oracles, ser, traces, results)
      invariant processed == Marked(states[..i], Processed)
    {
      var err;
      err, out, processed, results, traces :=
        FinalizeNext(states, prompt, modelBatchSize, oracles, ser, out, processed, results, traces);
      if err.Some? {
        return Err(err.value), processed, results, traces;
      }
    }
    r := Ok(out);
  }

  /** One pass of the loop of `FinalizeResults`: finalize the next state, or
      stop with the error it raises. */
  method FinalizeNext(states: seq<Option<State>>, prompt: string, modelBatchSize: int, oracles: seq<Oracle>,
                      ser: Serializer, out: ResultVector, processed: seq<nat>,
                      ghost results: seq<Result<Batch>>, ghost traces: seq<seq<Step>>)
    returns (err: Option<string>, out': ResultVector, processed': seq<nat>,
             ghost results': seq<Result<Batch>>, ghost traces': seq<seq<Step>>)
    requires Done(states, prompt, ser, results, out) && |results| < |states|
    requires Traced(states, prompt, modelBatchSize, oracles, ser, traces, results)
    requires processed == Marked(states[..|results|], Processed)
    ensures |results'| == |results| + 1 && processed' == Marked(states[..|results'|], Processed)
    ensures Traced(states, prompt, modelBatchSize, oracles, ser, traces', results')
    ensures err.None? ==> Done(states, prompt, ser, results', out')
    ensures err.Some? ==> FailedAt(states, prompt, ser, results', err.value)
  {
    var i := |out|;
    var cell, res, trace := FinalizeOne(states[i], prompt, modelBatchSize, oracles[i], ser);
    ExtendTraced(states, prompt, modelBatchSize, oracles, ser, traces, results, trace, res);
    processed' := if Processed(states[i]) then processed + [i] else processed;
    MarkedStep(states, i, Processed);
    results', traces' := results + [res], traces + [trace];
    if cell.Err? {
      FailAfterDone(states, prompt, ser, results, out, res, cell.error);
      return Some(cell.error), out, processed', results', traces';
    }
    ExtendDone(states, prompt, ser, results, out, res, cell.value);
    err, out' := None, out + [cell.value];
  }

  /** One iteration of `FinalizeResults`: the slot of one state, after the
      id column is appended and `Evaluate` runs. */
  method FinalizeOne(s: Option<State>, prompt: string, modelBatchSize: int, oracle: Oracle, ser: Serializer)
    returns (cell: Result<Option<string>>, ghost res: Result<Batch>, ghost trace: seq<Step>)
    ensures Evaluated(s, prompt, modelBatchSize, oracle, ser, trace, res)
    ensures cell == Slot(s, prompt, ser, res)
  {
    trace, res := [], Err("");
    var content := Content(s);
    if content.None? {
      return Ok(None), res, trace;
    }
    var v := content.value;
    if RowCount(v) <= 1 {
      return Ok(Some(ser.dump(BatchToJson(CutToFirst(v))))), res, trace;
    }
    var tuples := WithIds(v);
    if prompt == "" {
      return Err(EMPTY_PROMPT_ERROR), res, trace;
    }
    var r;
    r, trace := Evaluate(tuples, modelBatchSize, oracle, ser);
    res := r;
    cell := match r
      case Ok(b) => Ok(Some(ser.dump(BatchToJson(b))))
      case Err(e) => Err(e);
  }
}
