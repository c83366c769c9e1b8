/** `CastVectorOfStructsToJson` and `CastValueToJson`: the DuckDB struct
    values a function is called with, read into the JSON its prompt and its
    engines work on. Every struct child becomes a member of one object; the
    entries of a `context_columns` list become columns whose `data` arrays
    collect one value per row, and whose other keys are validated and
    cleaned when the column is first created. */
module InputParser {
  import opened Wrappers
  import opened Text
  import opened Json

  /** A DuckDB value as the casts read it: SQL NULL, an INTEGER, any other
      scalar by its text, a struct of named children, or a list. */
  datatype SqlValue =
    | SqlNull
    | SqlInt(i: int)
    | SqlScalar(text: string)
    | SqlStruct(fields: seq<SqlField>)
    | SqlList(items: seq<SqlValue>)

  datatype SqlField = SqlField(name: string, value: SqlValue)

  const LIST_ERROR: string := "Expected 'context_columns' to be a list."
  const INTEGER_ERROR: string := "Expected 'batch_size' to be an integer."
  const UNEXPECTED_KEY: string := "Unexpected key in 'context_columns': "
  const MISSING_KEY: string := "Expected 'context_columns' to contain key: "
  const AUDIO_ERROR: string := "Argument 'transcription_model' is required when type is 'audio'."
  /** DuckDB's internal error for reading the children of a NULL struct. */
  const NULL_STRUCT_ERROR: string := "Calling StructValue::GetChildren on a NULL value"

  function TranscriptionTypeError(t: string): string {
    "Argument 'transcription_model' is not supported for data type '" + t + "'. It can only be used with type 'audio'."
  }

  /** The keys a context column may carry. */
  const ALLOWED_KEYS: set<string> := {"name", "data", "type", "detail", "transcription_model"}

  /** The allowed keys other than `data`, which the cleaning step visits. */
  const CLEANED_KEYS: set<string> := {"name", "type", "detail", "transcription_model"}

  /** `Value::ToString()`: NULL prints as `NULL`, an INTEGER in decimal, any
      other scalar as its text, and a struct or list as `show` renders it. */
  function ToText(v: SqlValue, show: SqlValue -> string): string {
    match v
    case SqlNull => "NULL"
    case SqlInt(i) => IntToString(i)
    case SqlScalar(t) => t
    case _ => show(v)
  }

  // ---------------------------------------------------------------------
  // Cleaning a context column

  /** Key `key` of `col` is set and does not hold the text `NULL`. */
  predicate Active(col: Value, key: string) {
    col.Obj? && key in col.fields && col.fields[key] != Str("NULL")
  }

  /** The cleaned keys of `col` hold strings wherever they are set. */
  predicate StringKeys(col: Value) {
    col.Obj? && forall k :: k in CLEANED_KEYS && k in col.fields ==> col.fields[k].Str?
  }

  /** What the cleaning step demands of a column: a transcription model only
      on an audio column, and an audio column only with one. */
  predicate AudioRules(col: Value) {
    (Active(col, "transcription_model") ==> Active(col, "type") && col.fields["type"] == Str("audio")) &&
    (Active(col, "type") && col.fields["type"] == Str("audio") ==> Active(col, "transcription_model"))
  }

  /** `column.contains(key) && column[key] != "NULL"`, reading the key as a
      string. */
  function Present(col: Value, key: string): Result<bool> {
    if col.Obj? && key in col.fields then
      var s :- AsString(col.fields[key]);
      Ok(s != "NULL")
    else Ok(false)
  }

  /** `column.erase(key)`: only an object has keys to erase. */
  function Erase(col: Value, key: string): Result<Value> {
    if col.Obj? then Ok(Obj(col.fields - {key})) else Err(ERASE_ERROR)
  }

  /** One pass of the cleaning loop: `key` is erased unless it is set to
      something other than `NULL`; the flag says whether it was kept. */
  function Strip(col: Value, key: string): (r: Result<(Value, bool)>)
    ensures StringKeys(col) && key in CLEANED_KEYS ==>
      (r.Ok? && r.value.1 == Active(col, key) && StringKeys(r.value.0) &&
       r.value.0 == (if Active(col, key) then col else Obj(col.fields - {key})))
  {
    var keep :- Present(col, key);
    var c :- if keep then Ok(col) else Erase(col, key);
    Ok((c, keep))
  }

  /** `ValidateAndCleanContextColumn` as the source runs it: one pass per
      cleaned key, in the order `name`, `type`, `detail`,
      `transcription_model`, erasing the key unless it is set to something
      other than `NULL`, then a transcription model is refused on a column
      that is not audio and required on one that is. */
  function CleanPasses(col: Value): Result<Value> {
    var (c1, hasName) :- Strip(col, "name");
    var (c2, hasType) :- Strip(c1, "type");
    var (c3, hasDetail) :- Strip(c2, "detail");
    var (c4, hasModel) :- Strip(c3, "transcription_model");
    var columnType := if hasType then c1.fields["type"].s else "";
    if hasModel && columnType != "audio" then
      Err(TranscriptionTypeError(if hasType then columnType else "tabular"))
    else if hasType && columnType == "audio" && !hasModel then Err(AUDIO_ERROR)
    else Ok(c4)
  }

  /** What cleaning a column amounts to, stated at once: only an object can
      be cleaned, its cleaned keys must hold strings, the audio rules must
      hold, and then the cleaned keys that hold `NULL` are gone. */
  function Clean(col: Value): (r: Result<Value>)
    ensures r.Ok? ==> r.value.Obj?
  {
    if !col.Obj? then Err(ERASE_ERROR)
    else if !StringKeys(col) then Err(TYPE_ERROR)
    else if Active(col, "transcription_model") && !(Active(col, "type") && col.fields["type"] == Str("audio")) then
      Err(TranscriptionTypeError(if Active(col, "type") then col.fields["type"].s else "tabular"))
    else if Active(col, "type") && col.fields["type"] == Str("audio") && !Active(col, "transcription_model") then
      Err(AUDIO_ERROR)
    else Ok(Obj(Kept(col.fields)))
  }

  /** The members `f` without the keys of `keys` that hold `NULL`. */
  function KeptOf(f: map<string, Value>, keys: set<string>): map<string, Value> {
    map k | k in f && !(k in keys && f[k] == Str("NULL")) :: f[k]
  }

  /** What cleaning keeps of the members `f`: every key but the cleaned ones
      that hold `NULL`. */
  function Kept(f: map<string, Value>): map<string, Value> {
    KeptOf(f, CLEANED_KEYS)
  }

  /** One pass of the cleaning loop drops `key` from what the earlier passes
      kept exactly when it holds `NULL`. */
  lemma StripStep(f: map<string, Value>, done: set<string>, key: string)
    requires key in CLEANED_KEYS && StringKeys(Obj(f))
    ensures StringKeys(Obj(KeptOf(f, done)))
    ensures Strip(Obj(KeptOf(f, done)), key).value.0 == Obj(KeptOf(f, done + {key}))
    ensures Strip(Obj(KeptOf(f, done)), key).value.1 == Active(Obj(f), key)
  {
    var g := KeptOf(f, done);
    if key in g && g[key] != Str("NULL") {
      assert KeptOf(f, done + {key}) == g;
    } else {
      assert KeptOf(f, done + {key}) == g - {key};
    }
  }

  /** The four passes of the cleaning loop leave `Kept` of the members. */
  lemma StripAll(col: Value)
    requires StringKeys(col)
    ensures var c1 := Strip(col, "name").value.0;
      var c2 := Strip(c1, "type").value.0;
      var c3 := Strip(c2, "detail").value.0;
      Strip(c3, "transcription_model").value.0 == Obj(Kept(col.fields))
  {
    var f := col.fields;
    assert Obj(KeptOf(f, {})) == col;
    StripStep(f, {}, "name");
    var d1: set<string> := {"name"};
    assert {} + {"name"} == d1;
    StripStep(f, d1, "type");
    var d2: set<string> := {"name", "type"};
    assert d1 + {"type"} == d2;
    StripStep(f, d2, "detail");
    var d3: set<string> := {"name", "type", "detail"};
    assert d2 + {"detail"} == d3;
    StripStep(f, d3, "transcription_model");
    assert d3 + {"transcription_model"} == CLEANED_KEYS;
  }

  /** A cleaned key that holds something other than a string stops the
      passes with the library's type error, whichever pass meets it. */
  lemma PassesMeetNonString(col: Value)
    requires col.Obj? && !StringKeys(col)
    ensures CleanPasses(col) == Err(TYPE_ERROR)
  {
    var k :| k in CLEANED_KEYS && k in col.fields && !col.fields[k].Str?;
    var r1 := Strip(col, "name");
    StripObject(col, "name");
    if r1.Ok? {
      var c1 := r1.value.0;
      var r2 := Strip(c1, "type");
      StripObject(c1, "type");
      if r2.Ok? {
        var c2 := r2.value.0;
        var r3 := Strip(c2, "detail");
        StripObject(c2, "detail");
        if r3.Ok? {
          var c3 := r3.value.0;
          StripObject(c3, "transcription_model");
          if Strip(c3, "transcription_model").Ok? {
            assert false;
          }
        }
      }
    }
  }

  /** A pass over an object fails only with the type error, and otherwise
      touches no other key and leaves `key` holding a string if at all. */
  lemma StripObject(col: Value, key: string)
    requires col.Obj?
    ensures Strip(col, key).Err? ==> Strip(col, key).error == TYPE_ERROR && key in col.fields && !col.fields[key].Str?
    ensures Strip(col, key).Ok? ==>
      var c := Strip(col, key).value.0;
      c.Obj? && (key in col.fields ==> col.fields[key].Str?) &&
      (forall k :: k != key ==> (k in c.fields <==> k in col.fields)) &&
      (forall k :: k != key && k in c.fields ==> c.fields[k] == col.fields[k])
  {
  }

  /** The passes of `ValidateAndCleanContextColumn` clean every column to
      what `Clean` says: a non-object cannot be cleaned, a cleaned key that
      is not a string is a type error, a transcription model is allowed on
      an audio column only and required there, and what is kept is every
      key but the cleaned ones that hold `NULL` (`data` and any key outside
      the cleaned ones stay as they are). */
  lemma CleanPassesAgree(col: Value)
    ensures CleanPasses(col) == Clean(col)
  {
    if col.Obj? && !StringKeys(col) {
      PassesMeetNonString(col);
    } else if col.Obj? {
      var (c1, hasName) := Strip(col, "name").value;
      var (c2, hasType) := Strip(c1, "type").value;
      var (c3, hasDetail) := Strip(c2, "detail").value;
      var (c4, hasModel) := Strip(c3, "transcription_model").value;
      StripAll(col);
      assert hasType == Active(col, "type") && hasModel == Active(col, "transcription_model");
      assert hasType ==> c1.fields["type"] == col.fields["type"];
    }
  }

  // ---------------------------------------------------------------------
  // The least unexpected key

  /** `k` comes before every other member of `s` in `std::map` order. */
  predicate LeastOf(k: string, s: set<string>) {
    k in s && forall x :: x in s && x != k ==> Below(k, x)
  }

  /** Adding `y` to a set whose least member is `k` leaves the lesser of the
      two least. */
  lemma LeastOfInsert(y: string, k: string, rest: set<string>)
    requires LeastOf(k, rest) && y !in rest
    ensures LeastOf(if Below(y, k) then y else k, rest + {y})
  {
    BelowTotal(y, k);
    var least := if Below(y, k) then y else k;
    forall x | x in rest + {y} && x != least
      ensures Below(least, x)
    {
      if least == y && x != k {
        BelowTransitive(y, k, x);
      }
    }
  }

  /** Every non-empty set of strings has a least element. */
  lemma {:induction false} LeastExists(s: set<string>)
    requires s != {}
    ensures exists k :: LeastOf(k, s)
    decreases |s|
  {
    var y :| y in s;
    if s != {y} {
      var rest := s - {y};
      LeastExists(rest);
      var k :| LeastOf(k, rest);
      LeastOfInsert(y, k, rest);
      assert rest + {y} == s;
    } else {
      assert LeastOf(y, s);
    }
  }

  lemma BelowStrict()
    ensures forall a, b :: !(Below(a, b) && Below(b, a))
  {
    forall a, b
      ensures !(Below(a, b) && Below(b, a))
    {
      BelowAsymmetric(a, b);
    }
  }

  /** The first of `s` in `std::map` order, which `items()` visits first. */
  function Least(s: set<string>): (k: string)
    requires s != {}
    ensures k in s && forall x :: x in s && x != k ==> Below(k, x)
  {
    LeastExists(s);
    BelowStrict();
    var k :| LeastOf(k, s);
    k
  }

  function Keys(v: Value): set<string> {
    if v.Obj? then v.fields.Keys else {}
  }

  /** The key checks on the JSON `ccj` of one list entry: the first
      unexpected key, in the order `items()` visits them, is reported, then
      a missing `data`. */
  function CheckColumn(ccj: Value): (r: Result<Value>)
    ensures r.Ok? <==> Keys(ccj) <= ALLOWED_KEYS && "data" in Keys(ccj)
    ensures r.Ok? ==> r.value == ccj
    ensures !(Keys(ccj) <= ALLOWED_KEYS) ==>
      exists k :: k in Keys(ccj) - ALLOWED_KEYS && r == Err(UNEXPECTED_KEY + k) &&
        forall x :: x in Keys(ccj) - ALLOWED_KEYS && x != k ==> Below(k, x)
    ensures Keys(ccj) <= ALLOWED_KEYS && "data" !in Keys(ccj) ==> r == Err(MISSING_KEY + "data")
  {
    var bad := Keys(ccj) - ALLOWED_KEYS;
    if bad != {} then Err(UNEXPECTED_KEY + Least(bad))
    else if "data" !in Keys(ccj) then Err(MISSING_KEY + "data")
    else Ok(ccj)
  }

  // ---------------------------------------------------------------------
  // CastVectorOfStructsToJson

  /** The object being built: its members other than `context_columns`, and
      the `context_columns` array once something was pushed to it. */
  datatype Cast = Cast(members: map<string, Value>, columns: Option<seq<Value>>)

  const Start: Cast := Cast(map[], None)

  /** The JSON object a cast stands for; null while nothing was written. */
  function ToJson(c: Cast): Value {
    if |c.members| == 0 && c.columns.None? then Null
    else Obj(if c.columns.Some? then c.members["context_columns" := Arr(c.columns.value)] else c.members)
  }

  function Member(v: Value, k: string): Value {
    if v.Obj? && k in v.fields then v.fields[k] else Null
  }

  /** `col["data"].push_back(d)`: a null column becomes an object first. */
  function AppendData(col: Value, d: Value): Result<Value> {
    if col.Obj? || col.Null? then
      var data :- PushBack(Member(col, "data"), d);
      Ok(Obj((if col.Obj? then col.fields else map[])["data" := data]))
    else Err(INDEX_ERROR)
  }

  /** One list entry `ccj`, at position `idx` of a list of `n` entries, added
      to the columns: when the array already has `n` columns, `ccj`'s data
      is appended to column `idx`; otherwise `ccj` is pushed, column `idx` is
      cleaned and its `data` restarts as `[ccj["data"]]`. */
  function AddColumn(c: Cast, n: nat, idx: nat, ccj: Value): (r: Result<Cast>)
    requires idx < n
    requires idx == 0 || (c.columns.Some? && idx <= |c.columns.value|)
    ensures r.Ok? ==> r.value.members == c.members && r.value.columns.Some? && |r.value.columns.value| > idx
  {
    var d := Member(ccj, "data");
    if c.columns.Some? && |c.columns.value| == n then
      var cols := c.columns.value;
      var col :- AppendData(cols[idx], d);
      Ok(c.(columns := Some(cols[idx := col])))
    else
      var cols := (if c.columns.Some? then c.columns.value else []) + [ccj];
      var cleaned :- Clean(cols[idx]);
      Ok(c.(columns := Some(cols[idx := Obj(cleaned.fields["data" := Arr([d])])])))
  }

  /** The fields of one struct row, in order. */
  function CastFields(fields: seq<SqlField>, c: Cast, show: SqlValue -> string): (r: Result<Cast>)
    decreases fields, 0
  {
    if |fields| == 0 then Ok(c)
    else
      var c' :- CastField(fields[0], c, show);
      CastFields(fields[1..], c', show)
  }

  /** One struct child: `context_columns` must be a list and adds its
      entries as columns, `batch_size` must be an INTEGER and is stored as a
      number, and any other child is stored as its text. */
  function CastField(f: SqlField, c: Cast, show: SqlValue -> string): (r: Result<Cast>)
    decreases f, 0
  {
    if f.name == "context_columns" then
      if f.value.SqlList? then CastColumns(f.value.items, 0, c, show) else Err(LIST_ERROR)
    else if f.name == "batch_size" then
      if f.value.SqlInt? then Ok(c.(members := c.members["batch_size" := Int(f.value.i)])) else Err(INTEGER_ERROR)
    else Ok(c.(members := c.members[f.name := Str(ToText(f.value, show))]))
  }

  /** The entries `items[idx..]` of one row's `context_columns` list. */
  function CastColumns(items: seq<SqlValue>, idx: nat, c: Cast, show: SqlValue -> string): (r: Result<Cast>)
    requires idx <= |items|
    requires idx == 0 || (c.columns.Some? && idx <= |c.columns.value|)
    ensures r.Ok? ==> r.value.members == c.members
    decreases items, |items| - idx
  {
    if idx == |items| then Ok(c)
    else
      var ccj :- CastColumn(items[idx], show);
      var c' :- AddColumn(c, |items|, idx, ccj);
      CastColumns(items, idx + 1, c', show)
  }

  /** One list entry read on its own, as a struct vector of one row, then
      checked for its keys. */
  function CastColumn(item: SqlValue, show: SqlValue -> string): (r: Result<Value>)
    decreases item, 1
  {
    match item
    case SqlStruct(fs) =>
      var c :- CastFields(fs, Start, show);
      CheckColumn(ToJson(c))
    case _ => Err(NULL_STRUCT_ERROR)
  }

  /** Rows `rows` read in order into the cast `c`. */
  function CastRowsFrom(rows: seq<SqlValue>, c: Cast, show: SqlValue -> string): (r: Result<Cast>)
    decreases |rows|
  {
    if |rows| == 0 then Ok(c)
    else
      match rows[0]
      case SqlStruct(fs) =>
        var c' :- CastFields(fs, c, show);
        CastRowsFrom(rows[1..], c', show)
      case _ => Err(NULL_STRUCT_ERROR)
  }

  /** `CastVectorOfStructsToJson`: the rows of a struct vector, read in
      order into one JSON object. */
  function CastVectorOfStructsToJson(rows: seq<SqlValue>, show: SqlValue -> string): Result<Value> {
    var c :- CastRowsFrom(rows, Start, show);
    Ok(ToJson(c))
  }

  /** A row that reads without error stores one member per child other
      than `context_columns` (a later child of the same name overwriting an
      earlier one), and the `context_columns` key only through the list. */
  lemma {:induction false} CastFieldsKeys(fs: seq<SqlField>, c: Cast, show: SqlValue -> string)
    requires CastFields(fs, c, show).Ok?
    ensures CastFields(fs, c, show).value.members.Keys ==
      c.members.Keys + (set i | 0 <= i < |fs| && fs[i].name != "context_columns" :: fs[i].name)
    decreases |fs|
  {
    if |fs| > 0 {
      var c' := CastField(fs[0], c, show).value;
      CastFieldsKeys(fs[1..], c', show);
      assert c'.members.Keys == c.members.Keys + (if fs[0].name == "context_columns" then {} else {fs[0].name});
      var rest := set i | 0 <= i < |fs[1..]| && fs[1..][i].name != "context_columns" :: fs[1..][i].name;
      var all := set i | 0 <= i < |fs| && fs[i].name != "context_columns" :: fs[i].name;
      assert all == (if fs[0].name == "context_columns" then {} else {fs[0].name}) + rest by {
        forall x | x in all
          ensures x in (if fs[0].name == "context_columns" then {} else {fs[0].name}) + rest
        {
          var i :| 0 <= i < |fs| && fs[i].name != "context_columns" && fs[i].name == x;
          if i > 0 {
            assert fs[1..][i - 1] == fs[i];
          }
        }
        forall x | x in rest
          ensures x in all
        {
          var i :| 0 <= i < |fs[1..]| && fs[1..][i].name != "context_columns" && fs[1..][i].name == x;
          assert fs[i + 1] == fs[1..][i];
        }
      }
    }
  }

  // ---------------------------------------------------------------------
  // How the columns accumulate

  /** Every row's list has `n` entries, and entry `k` of row `i` reads to
      the JSON `ccjs[i][k]`, which passed the key checks. */
  predicate ReadAll(lists: seq<seq<SqlValue>>, ccjs: seq<seq<Value>>, n: nat, show: SqlValue -> string) {
    |ccjs| == |lists| &&
    forall i :: 0 <= i < |lists| ==>
      (|lists[i]| == n && |ccjs[i]| == n &&
       forall k {:trigger CastColumn(lists[i][k], show)} :: 0 <= k < n ==> CastColumn(lists[i][k], show) == Ok(ccjs[i][k]))
  }

  /** The entries of the first row clean to the members `metas`. */
  predicate CleansTo(ccjs: seq<seq<Value>>, metas: seq<map<string, Value>>, n: nat) {
    |ccjs| > 0 && |ccjs[0]| == n && |metas| == n &&
    forall k {:trigger Clean(ccjs[0][k])} :: 0 <= k < n ==> Clean(ccjs[0][k]) == Ok(Obj(metas[k]))
  }

  /** The data values of entry `k` of the lists of the first `m` rows. */
  function DataOf(ccjs: seq<seq<Value>>, m: nat, k: nat): (data: seq<Value>)
    requires m <= |ccjs| && forall i :: 0 <= i < m ==> k < |ccjs[i]|
    ensures |data| == m
  {
    seq(m, i requires 0 <= i < m => Member(ccjs[i][k], "data"))
  }

  /** Column `k` after `m` rows were read: the cleaned keys of the first
      row's entry, and one data value per row, in row order. */
  function Gathered(ccjs: seq<seq<Value>>, metas: seq<map<string, Value>>, m: nat, k: nat): Value
    requires m <= |ccjs| && k < |metas| && forall i :: 0 <= i < m ==> k < |ccjs[i]|
  {
    Obj(metas[k]["data" := Arr(DataOf(ccjs, m, k))])
  }

  /** Columns `0 .. n` as gathered after `m` rows, except that those at
      `idx` and beyond have one row less. */
  function Midway(ccjs: seq<seq<Value>>, metas: seq<map<string, Value>>, m: nat, idx: nat, n: nat): (cols: seq<Value>)
    requires 0 < m <= |ccjs| && n <= |metas| && forall i :: 0 <= i < m ==> n <= |ccjs[i]|
    ensures |cols| == n
  {
    seq(n, k requires 0 <= k < n => Gathered(ccjs, metas, if k < idx then m else m - 1, k))
  }

  /** All the columns after `m` rows. */
  function GatheredAll(ccjs: seq<seq<Value>>, metas: seq<map<string, Value>>, m: nat, n: nat): (cols: seq<Value>)
    requires m <= |ccjs| && n <= |metas| && forall i :: 0 <= i < m ==> n <= |ccjs[i]|
    ensures |cols| == n
  {
    seq(n, k requires 0 <= k < n => Gathered(ccjs, metas, m, k))
  }

  /** An entry at a position the columns have not reached yet is pushed as
      a new column, cleaned, with its data as the only value. */
  lemma NewColumn(c: Cast, n: nat, idx: nat, ccj: Value, meta: map<string, Value>)
    requires idx < n && Clean(ccj) == Ok(Obj(meta))
    requires if idx == 0 then c.columns.None? else c.columns.Some? && |c.columns.value| == idx
    ensures AddColumn(c, n, idx, ccj) ==
      Ok(c.(columns := Some((if idx == 0 then [] else c.columns.value) + [Obj(meta["data" := Arr([Member(ccj, "data")])])])))
  {
    var cols := (if c.columns.Some? then c.columns.value else []) + [ccj];
    assert cols[idx] == ccj;
    var prev := if idx == 0 then [] else c.columns.value;
    assert cols[idx := Obj(meta["data" := Arr([Member(ccj, "data")])])] ==
      prev + [Obj(meta["data" := Arr([Member(ccj, "data")])])];
  }

  /** One more column of the first row. */
  lemma GatheredFirstGrows(ccjs: seq<seq<Value>>, metas: seq<map<string, Value>>, n: nat, idx: nat)
    requires |ccjs| > 0 && |ccjs[0]| == n && |metas| == n && idx < n
    ensures GatheredAll(ccjs, metas, 1, idx) + [Obj(metas[idx]["data" := Arr([Member(ccjs[0][idx], "data")])])] ==
      GatheredAll(ccjs, metas, 1, idx + 1)
  {
    assert DataOf(ccjs, 1, idx) == [Member(ccjs[0][idx], "data")];
  }

  /** Reading entry `idx` as `ccj` and adding it as `c'` moves the list on
      by one entry. */
  lemma CastColumnsStep(items: seq<SqlValue>, idx: nat, c: Cast, ccj: Value, c': Cast, show: SqlValue -> string)
    requires idx < |items| && (idx == 0 || (c.columns.Some? && idx <= |c.columns.value|))
    requires CastColumn(items[idx], show) == Ok(ccj) && AddColumn(c, |items|, idx, ccj) == Ok(c')
    ensures c'.columns.Some? && idx + 1 <= |c'.columns.value|
    ensures CastColumns(items, idx, c, show) == CastColumns(items, idx + 1, c', show)
  {
  }

  /** The first row's list creates one column per entry, in list order,
      each cleaned and holding the entry's data as its only value. */
  lemma {:induction false} FirstRowColumns(lists: seq<seq<SqlValue>>, ccjs: seq<seq<Value>>,
                                           metas: seq<map<string, Value>>, n: nat, idx: nat, c: Cast,
                                           show: SqlValue -> string)
    requires ReadAll(lists, ccjs, n, show) && CleansTo(ccjs, metas, n) && idx <= n
    requires idx == 0 ==> c.columns.None?
    requires idx > 0 ==> c.columns == Some(GatheredAll(ccjs, metas, 1, idx))
    ensures CastColumns(lists[0], idx, c, show) ==
      Ok(c.(columns := if n == 0 then None else Some(GatheredAll(ccjs, metas, 1, n))))
    decreases n - idx
  {
    if idx < n {
      var ccj := ccjs[0][idx];
      assert CastColumn(lists[0][idx], show) == Ok(ccj);
      NewColumn(c, n, idx, ccj, metas[idx]);
      GatheredFirstGrows(ccjs, metas, n, idx);
      var next := c.(columns := Some(GatheredAll(ccjs, metas, 1, idx + 1)));
      CastColumnsStep(lists[0], idx, c, ccj, next, show);
      FirstRowColumns(lists, ccjs, metas, n, idx + 1, next, show);
    }
  }

  /** `col["data"].push_back(d)` on a column whose data is an array. */
  lemma AppendToColumn(meta: map<string, Value>, data: seq<Value>, d: Value)
    ensures AppendData(Obj(meta["data" := Arr(data)]), d) == Ok(Obj(meta["data" := Arr(data + [d])]))
  {
    assert meta["data" := Arr(data)]["data" := Arr(data + [d])] == meta["data" := Arr(data + [d])];
  }

  /** A later row's list of as many entries appends each entry's data to the
      column at its position, and changes nothing else. */
  lemma {:induction false} NextRowColumns(lists: seq<seq<SqlValue>>, ccjs: seq<seq<Value>>,
                                          metas: seq<map<string, Value>>, n: nat, m: nat, idx: nat, c: Cast,
                                          show: SqlValue -> string)
    requires ReadAll(lists, ccjs, n, show) && CleansTo(ccjs, metas, n)
    requires 0 < m < |lists| && idx <= n
    requires c.columns == Some(Midway(ccjs, metas, m + 1, idx, n))
    ensures CastColumns(lists[m], idx, c, show) == Ok(c.(columns := Some(GatheredAll(ccjs, metas, m + 1, n))))
    decreases n - idx
  {
    var cols := c.columns.value;
    if idx < n {
      var ccj := ccjs[m][idx];
      assert CastColumn(lists[m][idx], show) == Ok(ccj);
      var d := Member(ccj, "data");
      assert cols[idx] == Gathered(ccjs, metas, m, idx);
      assert DataOf(ccjs, m + 1, idx) == DataOf(ccjs, m, idx) + [d];
      AppendToColumn(metas[idx], DataOf(ccjs, m, idx), d);
      var next := cols[idx := Gathered(ccjs, metas, m + 1, idx)];
      assert next == Midway(ccjs, metas, m + 1, idx + 1, n);
      assert AddColumn(c, n, idx, ccj) == Ok(c.(columns := Some(next)));
      NextRowColumns(lists, ccjs, metas, n, m, idx + 1, c.(columns := Some(next)), show);
    } else {
      assert cols == GatheredAll(ccjs, metas, m + 1, n);
    }
  }

  /** A child that is not `context_columns` and, when it is `batch_size`,
      is an INTEGER: reading it cannot fail and leaves the columns alone. */
  predicate Plain(f: SqlField) {
    f.name != "context_columns" && (f.name == "batch_size" ==> f.value.SqlInt?)
  }

  lemma {:induction false} PlainFields(fs: seq<SqlField>, c: Cast, show: SqlValue -> string)
    requires forall i :: 0 <= i < |fs| ==> Plain(fs[i])
    ensures CastFields(fs, c, show).Ok? && CastFields(fs, c, show).value.columns == c.columns
    decreases |fs|
  {
    if |fs| > 0 {
      PlainFields(fs[1..], CastField(fs[0], c, show).value, show);
    }
  }

  /** Reading `a + b` reads `a`, then `b` from where `a` left off. */
  lemma {:induction false} CastFieldsConcat(a: seq<SqlField>, b: seq<SqlField>, c: Cast, show: SqlValue -> string)
    ensures CastFields(a + b, c, show) ==
      match CastFields(a, c, show)
      case Ok(c') => CastFields(b, c', show)
      case Err(e) => Err(e)
    decreases |a|
  {
    if |a| > 0 {
      assert (a + b)[0] == a[0] && (a + b)[1..] == a[1..] + b;
      if CastField(a[0], c, show).Ok? {
        CastFieldsConcat(a[1..], b, CastField(a[0], c, show).value, show);
      }
    } else {
      assert a + b == b;
    }
  }

  /** A row whose children are plain except for one `context_columns` list. */
  predicate RowOf(row: SqlValue, pre: seq<SqlField>, list: seq<SqlValue>, post: seq<SqlField>) {
    row == SqlStruct(pre + [SqlField("context_columns", SqlList(list))] + post) &&
    (forall i :: 0 <= i < |pre| ==> Plain(pre[i])) && (forall i :: 0 <= i < |post| ==> Plain(post[i]))
  }

  /** Reading such a row does to the columns what its list does. */
  lemma ReadRow(pre: seq<SqlField>, list: seq<SqlValue>, post: seq<SqlField>, c: Cast, cols: Option<seq<Value>>,
                show: SqlValue -> string)
    requires RowOf(SqlStruct(pre + [SqlField("context_columns", SqlList(list))] + post), pre, list, post)
    requires forall c': Cast :: c'.columns == c.columns ==> CastColumns(list, 0, c', show) == Ok(c'.(columns := cols))
    ensures CastFields(pre + [SqlField("context_columns", SqlList(list))] + post, c, show).Ok?
    ensures CastFields(pre + [SqlField("context_columns", SqlList(list))] + post, c, show).value.columns == cols
  {
    var cc := SqlField("context_columns", SqlList(list));
    assert pre + [cc] + post == pre + ([cc] + post);
    CastFieldsConcat(pre, [cc] + post, c, show);
    PlainFields(pre, c, show);
    var c1 := CastFields(pre, c, show).value;
    assert ([cc] + post)[0] == cc && ([cc] + post)[1..] == post;
    var c2 := c1.(columns := cols);
    assert CastField(cc, c1, show) == Ok(c2);
    PlainFields(post, c2, show);
  }

  /** Rows `m..` read on top of the columns of the first `m` rows. */
  lemma {:induction false} LaterRows(rows: seq<SqlValue>, pre: seq<seq<SqlField>>, lists: seq<seq<SqlValue>>,
                                     post: seq<seq<SqlField>>, ccjs: seq<seq<Value>>,
                                     metas: seq<map<string, Value>>, n: nat, m: nat, c: Cast,
                                     show: SqlValue -> string)
    requires |rows| == |pre| == |lists| == |post| && 0 < m <= |rows|
    requires forall i :: 0 <= i < |rows| ==> RowOf(rows[i], pre[i], lists[i], post[i])
    requires ReadAll(lists, ccjs, n, show) && CleansTo(ccjs, metas, n) && n > 0
    requires c.columns == Some(GatheredAll(ccjs, metas, m, n))
    ensures CastRowsFrom(rows[m..], c, show).Ok?
    ensures CastRowsFrom(rows[m..], c, show).value.columns == Some(GatheredAll(ccjs, metas, |rows|, n))
    decreases |rows| - m
  {
    if m < |rows| {
      var cols := Some(GatheredAll(ccjs, metas, m + 1, n));
      assert Midway(ccjs, metas, m + 1, 0, n) == GatheredAll(ccjs, metas, m, n);
      forall c': Cast | c'.columns == c.columns
        ensures CastColumns(lists[m], 0, c', show) == Ok(c'.(columns := cols))
      {
        NextRowColumns(lists, ccjs, metas, n, m, 0, c', show);
      }
      ReadRow(pre[m], lists[m], post[m], c, cols, show);
      var c' := CastFields(rows[m].fields, c, show).value;
      assert rows[m..][0] == rows[m] && rows[m..][1..] == rows[m + 1..];
      LaterRows(rows, pre, lists, post, ccjs, metas, n, m + 1, c', show);
    }
  }

  /** The rows of a chunk whose `context_columns` lists all have `n` entries
      read to `n` columns: each keeps the cleaned keys of its entry in the
      first row, and its `data` holds the entry's data of every row, in row
      order. */
  lemma ContextColumnsAccumulate(rows: seq<SqlValue>, pre: seq<seq<SqlField>>, lists: seq<seq<SqlValue>>,
                                 post: seq<seq<SqlField>>, ccjs: seq<seq<Value>>, metas: seq<map<string, Value>>,
                                 n: nat, show: SqlValue -> string)
    requires |rows| == |pre| == |lists| == |post| > 0
    requires forall i :: 0 <= i < |rows| ==> RowOf(rows[i], pre[i], lists[i], post[i])
    requires ReadAll(lists, ccjs, n, show) && CleansTo(ccjs, metas, n) && n > 0
    ensures CastVectorOfStructsToJson(rows, show).Ok?
    ensures Member(CastVectorOfStructsToJson(rows, show).value, "context_columns") ==
      Arr(GatheredAll(ccjs, metas, |rows|, n))
  {
    var cols := Some(GatheredAll(ccjs, metas, 1, n));
    forall c': Cast | c'.columns == Start.columns
      ensures CastColumns(lists[0], 0, c', show) == Ok(c'.(columns := cols))
    {
      FirstRowColumns(lists, ccjs, metas, n, 0, c', show);
    }
    ReadRow(pre[0], lists[0], post[0], Start, cols, show);
    var c := CastFields(rows[0].fields, Start, show).value;
    LaterRows(rows, pre, lists, post, ccjs, metas, n, 1, c, show);
  }

  // ---------------------------------------------------------------------
  // CastValueToJson

  /** A non-null struct child as `CastValueToJson` stores it. */
  function ChildToJson(v: SqlValue, show: SqlValue -> string): Value
    decreases v, 2
  {
    match v
    case SqlStruct(_) => CastValueToJson(v, show)
    case SqlInt(i) => Int(i)
    case _ => Str(ToText(v, show))
  }

  /** The members written for the children `fs`, in order. */
  function StructMembers(fs: seq<SqlField>, show: SqlValue -> string): map<string, Value>
    decreases fs, 0
  {
    if |fs| == 0 then map[]
    else
      var f := fs[|fs| - 1];
      var m := StructMembers(fs[..|fs| - 1], show);
      if f.value.SqlNull? then m else m[f.name := ChildToJson(f.value, show)]
  }

  /** A NULL child is skipped: the members are named by the non-null
      children. */
  lemma {:induction false} StructMembersKeys(fs: seq<SqlField>, show: SqlValue -> string)
    ensures forall k :: k in StructMembers(fs, show) <==>
      exists i :: 0 <= i < |fs| && fs[i].name == k && !fs[i].value.SqlNull?
    decreases |fs|
  {
    if |fs| > 0 {
      var n := |fs| - 1;
      var init := fs[..n];
      StructMembersKeys(init, show);
      forall k
        ensures k in StructMembers(fs, show) <==> exists i :: 0 <= i < |fs| && fs[i].name == k && !fs[i].value.SqlNull?
      {
        if exists i :: 0 <= i < |fs| && fs[i].name == k && !fs[i].value.SqlNull? {
          var i :| 0 <= i < |fs| && fs[i].name == k && !fs[i].value.SqlNull?;
          if i < n {
            assert init[i] == fs[i];
          }
        }
        if k in StructMembers(init, show) {
          var i :| 0 <= i < n && init[i].name == k && !init[i].value.SqlNull?;
          assert fs[i] == init[i];
        }
      }
    }
  }

  /** A later child overwrites an earlier one of the same name: every
      member comes from the last non-null child of its name. */
  lemma {:induction false} StructMembersValues(fs: seq<SqlField>, show: SqlValue -> string)
    ensures forall i :: 0 <= i < |fs| && !fs[i].value.SqlNull? && LastOfName(fs, i) ==>
      fs[i].name in StructMembers(fs, show) &&
      StructMembers(fs, show)[fs[i].name] == ChildToJson(fs[i].value, show)
    decreases |fs|
  {
    if |fs| > 0 {
      var n := |fs| - 1;
      var init := fs[..n];
      StructMembersValues(init, show);
      forall i | 0 <= i < n && !fs[i].value.SqlNull? && LastOfName(fs, i)
        ensures fs[i].name in StructMembers(fs, show) &&
          StructMembers(fs, show)[fs[i].name] == ChildToJson(fs[i].value, show)
      {
        assert init[i] == fs[i];
        assert LastOfName(init, i);
      }
    }
  }

  /** No non-null child after position `i` has the name of child `i`. */
  predicate LastOfName(fs: seq<SqlField>, i: int)
    requires 0 <= i < |fs|
  {
    forall j :: i < j < |fs| ==> fs[j].name != fs[i].name || fs[j].value.SqlNull?
  }

  /** `CastValueToJson`: NULL and non-struct values give null; a struct
      gives the object of its non-null children, or null when it has none. */
  function CastValueToJson(v: SqlValue, show: SqlValue -> string): (r: Value)
    decreases v, 1
  {
    match v
    case SqlStruct(fs) =>
      var m := StructMembers(fs, show);
      if |m| == 0 then Null else Obj(m)
    case _ => Null
  }

  /** NULL and non-struct values give null; a struct gives an object exactly
      when one of its children is not NULL, with a member for each name of a
      non-null child, holding the last such child of that name. */
  lemma CastValueToJsonMeaning(v: SqlValue, show: SqlValue -> string)
    ensures var r := CastValueToJson(v, show);
      (r.Null? || r.Obj?) &&
      (r.Obj? <==> v.SqlStruct? && exists i :: 0 <= i < |v.fields| && !v.fields[i].value.SqlNull?) &&
      (r.Obj? ==> forall k :: k in r.fields <==>
         exists i :: 0 <= i < |v.fields| && v.fields[i].name == k && !v.fields[i].value.SqlNull?) &&
      (r.Obj? ==> forall i :: 0 <= i < |v.fields| && !v.fields[i].value.SqlNull? && LastOfName(v.fields, i) ==>
         r.fields[v.fields[i].name] == ChildToJson(v.fields[i].value, show))
  {
    if v.SqlStruct? {
      StructMembersKeys(v.fields, show);
      StructMembersValues(v.fields, show);
      var m := StructMembers(v.fields, show);
      if exists i :: 0 <= i < |v.fields| && !v.fields[i].value.SqlNull? {
        var i :| 0 <= i < |v.fields| && !v.fields[i].value.SqlNull?;
        assert v.fields[i].name in m;
      }
    }
  }
}
