/** Row identifiers. `llm_first`, `llm_last` and `llm_rerank` append a
    `flock_row_id` column numbering the rows they send, and accept an item of
    the reply only when it names one of that column's ids. */
module RowIds {
  import opened Json
  import opened Wrappers
  import opened Text
  import opened Columns
  import opened Batching

  /** The ids of an id column: `std::to_string(j)` for every row `j`. */
  function Ids(n: nat): (r: seq<Value>)
    ensures |r| == n && forall j :: 0 <= j < n ==> r[j] == Str(IntToString(j))
  {
    seq(n, j requires 0 <= j < n => Str(IntToString(j)))
  }

  /** The first column of `b` at or after `from` whose name is `flock_row_id`. */
  function IdColumnFrom(b: Batch, from: nat): (r: Option<nat>)
    ensures r.Some? ==> from <= r.value < |b| && NameOf(b[r.value]) == Some(ROW_ID)
    ensures r.Some? ==> forall j :: from <= j < r.value ==> NameOf(b[j]) != Some(ROW_ID)
    ensures r.None? ==> forall j :: from <= j < |b| ==> NameOf(b[j]) != Some(ROW_ID)
    decreases |b| - from
  {
    if from >= |b| then None
    else if NameOf(b[from]) == Some(ROW_ID) then Some(from)
    else IdColumnFrom(b, from + 1)
  }

  function IdColumn(b: Batch): Option<nat> {
    IdColumnFrom(b, 0)
  }

  /** The ids a reply may name: the string entries of the first column named
      `flock_row_id` (none when there is no such column). */
  function ValidIds(b: Batch): set<string> {
    match IdColumn(b)
    case None => {}
    case Some(k) => Strings(b[k].data)
  }

  function InvalidId(s: string): string {
    "Invalid LLM response: The LLM returned ID '" + s + "' which is not a valid flock_row_id."
  }

  const NOT_AN_ID: string := "Invalid LLM response: Expected integer or string ID, got: "


  /** A batch followed by the id column the aggregate functions append: named
      `flock_row_id`, holding `"0" .. "n-1"` for its `n` rows. */
  function WithIds(v: Batch): (r: Batch)
    requires |v| > 0
    ensures |r| == |v| + 1 && r[..|v|] == v && RowCount(r) == RowCount(v)
    ensures r[|v|] == Column(Ids(RowCount(v)), map["name" := Str(ROW_ID)])
  {
    v + [Column(Ids(RowCount(v)), map["name" := Str(ROW_ID)])]
  }

  /** An accepted id: the text looked up in the id column and the integer
      the function goes on with. */
  datatype RowId = RowId(text: string, index: int)

  /** One item of a reply read as a row id: an integer item is narrowed to
      `int` and printed, a string item must parse with `stoi`, anything else
      is rejected; the printed or given text must be a valid id. */
  function ItemId(v: Value, valid: set<string>, ser: Serializer): (r: Result<RowId>)
    ensures r.Ok? ==> r.value.text in valid && Stoi(r.value.text) == Some(r.value.index)
    ensures r.Ok? ==> v.Int? || v.Str?
    ensures v.Str? && r.Ok? ==> r.value.text == v.s
    ensures v.Int? && r.Ok? ==> r.value.index == Wrap32(v.i)
    ensures !v.Int? && !v.Str? ==> r == Err(NOT_AN_ID + ser.dump(v))
    ensures v.Str? && Stoi(v.s).None? ==> r == Err(InvalidId(v.s))
  {
    match v
    case Int(x) =>
      var id := Wrap32(x);
      var s := IntToString(id);
      if s in valid then StoiOfIntToString(id); Ok(RowId(s, id)) else Err(InvalidId(s))
    case Str(s) =>
      (match Stoi(s)
       case None => Err(InvalidId(s))
       case Some(id) => if s in valid then Ok(RowId(s, id)) else Err(InvalidId(s)))
    case _ => Err(NOT_AN_ID + ser.dump(v))
  }

  /** Naming a listed row, as an integer or as its printed id, is accepted
      as that row. */
  lemma ItemIdAcceptsListedRow(v: Value, valid: set<string>, ser: Serializer, j: nat)
    requires j <= INT32_MAX && IntToString(j) in valid
    requires v == Int(j) || v == Str(IntToString(j))
    ensures ItemId(v, valid, ser) == Ok(RowId(IntToString(j), j))
  {
    StoiOfIntToString(j);
  }

  /** Against the ids of `WithIds` an accepted id is a row of the batch,
      printed canonically. */
  lemma ItemIdOfNumbered(v: Value, w: nat, ser: Serializer)
    requires w - 1 <= INT32_MAX
    requires ItemId(v, IdTexts(w), ser).Ok?
    ensures 0 <= ItemId(v, IdTexts(w), ser).value.index < w
    ensures ItemId(v, IdTexts(w), ser).value.text == IntToString(ItemId(v, IdTexts(w), ser).value.index)
  {
    var id := ItemId(v, IdTexts(w), ser).value;
    var j :| 0 <= j < w && id.text == IntToString(j);
    StoiOfIntToString(j);
  }

  /** The texts `"0" .. "w-1"`. */
  function IdTexts(w: nat): (r: set<string>)
    ensures forall s :: s in r <==> exists j :: 0 <= j < w && s == IntToString(j)
  {
    set j | 0 <= j < w :: IntToString(j)
  }

  /** With no column of its own named `flock_row_id`, the ids of a batch
      with the id column appended are `"0" .. "n-1"`. */
  lemma ValidIdsOfWithIds(v: Batch)
    requires |v| > 0
    requires forall c :: 0 <= c < |v| ==> NameOf(v[c]) != Some(ROW_ID)
    ensures ValidIds(WithIds(v)) == IdTexts(RowCount(v))
  {
    var t := WithIds(v);
    forall c | 0 <= c < |v| ensures NameOf(t[c]) != Some(ROW_ID) {
      assert t[c] == v[c];
    }
    assert NameOf(t[|v|]) == Some(ROW_ID);
    assert IdColumn(t) == Some(|v|);
    var ids := Ids(RowCount(v));
    forall s | s in IdTexts(RowCount(v)) ensures s in ValidIds(t) {
      var j :| 0 <= j < RowCount(v) && s == IntToString(j);
      assert ids[j] == Str(s);
    }
  }

  /** A subset is no larger than its superset. */
  lemma SubsetCard<T>(a: set<T>, b: set<T>)
    requires a <= b
    ensures |a| <= |b|
  {
    var d := b - a;
    assert b == a + d;
    assert a * d == {};
  }

  /** The string entries of a data array. */
  function Strings(data: seq<Value>): set<string> {
    set x | x in data && x.Str? :: x.s
  }

  lemma {:induction false} StringsBound(data: seq<Value>)
    ensures |Strings(data)| <= |data|
  {
    if |data| > 0 {
      var init := data[..|data| - 1];
      var x := data[|data| - 1];
      StringsBound(init);
      var extra: set<string> := if x.Str? then {x.s} else {};
      forall s | s in Strings(data) ensures s in Strings(init) + extra {
        var z :| z in data && z.Str? && s == z.s;
        if z != x {
          var k :| 0 <= k < |data| && data[k] == z;
          assert init[k] == z;
          assert z in init;
        }
      }
      SubsetCard(Strings(data), Strings(init) + extra);
    }
  }

  /** A batch whose columns all have its row count offers at most that many
      ids. */
  lemma ValidIdsBound(b: Batch)
    requires Rectangular(b)
    ensures |ValidIds(b)| <= RowCount(b)
  {
    match IdColumn(b)
    case None =>
    case Some(k) =>
      assert ValidIds(b) == Strings(b[k].data);
      StringsBound(b[k].data);
  }
}
