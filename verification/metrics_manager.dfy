/** `MetricsManager`: one metrics ledger per database instance, and the
    static API the LLM functions call. The API reads a thread-local context
    (database, state, kind) that `StartInvocation` sets; without one every
    update is a no-op. The context and the managers are threaded through
    explicitly, together with the calling thread. */
module MetricsManager {
  import opened Wrappers
  import opened Json
  import opened Metrics
  import opened MetricsReport

  /** The address of a `DatabaseInstance`; 0 is the null pointer. */
  type DbId = nat

  /** The static `db_managers` map. */
  type Managers = map<DbId, Ledger>

  /** The thread-local `current_db_`, `current_state_id_` and
      `current_function_type_`. */
  datatype Context = Context(db: DbId, state: StateId, kind: FunctionType) {
    /** Both pointers are non-null, so updates reach a ledger. */
    predicate IsSet() {
      db != 0 && state != 0
    }
  }

  /** The context a thread starts with, and the one `ClearContext` leaves. */
  const NO_CONTEXT: Context := Context(0, 0, UNKNOWN)

  /** The ledger of `db`, or the empty one a first lookup creates. */
  function Manager(ms: Managers, db: DbId): Ledger {
    if db in ms then ms[db] else EMPTY_LEDGER
  }

  /** `GetForDatabase`: a runtime error on a null database; otherwise the
      manager of `db`, created empty on first use. */
  function GetForDatabase(ms: Managers, db: DbId): (r: Result<(Managers, Ledger)>)
    ensures r.Err? <==> db == 0
    ensures r.Ok? ==> r.value.0.Keys == ms.Keys + {db} && r.value.0[db] == r.value.1
    ensures r.Ok? ==> forall d :: d in ms ==> r.value.0[d] == ms[d]
    ensures r.Ok? && db !in ms ==> r.value.1 == EMPTY_LEDGER
  {
    if db == 0 then Err("Database instance is null")
    else if db in ms then Ok((ms, ms[db]))
    else Ok((ms[db := EMPTY_LEDGER], EMPTY_LEDGER))
  }

  /** A repeated lookup of the same database returns the same manager and
      creates nothing more. */
  lemma GetForDatabaseStable(ms: Managers, db: DbId)
    requires db != 0
    ensures GetForDatabase(ms, db).Ok?
    ensures var first := GetForDatabase(ms, db).value;
      GetForDatabase(first.0, db) == Ok(first)
  {
  }

  /** `ms` after the ledger of `db` became `l`; every other manager is kept. */
  ghost predicate Replaced(ms: Managers, r: Managers, db: DbId, l: Ledger) {
    r.Keys == ms.Keys + {db} && r[db] == l &&
    forall d :: d in ms && d != db ==> r[d] == ms[d]
  }

  const UINT64_LIMIT: nat := 0x1_0000_0000_0000_0000

  /** `GenerateUniqueId`: the pre-incremented value of a 64-bit atomic
      counter, returned with the counter's new state. */
  function GenerateUniqueId(counter: nat): (r: (nat, StateId))
    requires counter < UINT64_LIMIT
    ensures r.0 < UINT64_LIMIT && r.1 == r.0
    ensures counter + 1 < UINT64_LIMIT ==> r.1 == counter + 1
    ensures counter + 1 == UINT64_LIMIT ==> r.1 == 0
  {
    var next := (counter + 1) % UINT64_LIMIT;
    (next, next)
  }

  /** The ids `n` successive calls return, starting from `counter`. */
  function UniqueIds(counter: nat, n: nat): seq<StateId>
    requires counter < UINT64_LIMIT
    decreases n
  {
    if n == 0 then []
    else var (next, id) := GenerateUniqueId(counter); [id] + UniqueIds(next, n - 1)
  }

  /** Until the counter wraps, the ids are non-null and strictly increasing,
      so no two calls share one. */
  lemma {:induction false} UniqueIdsIncrease(counter: nat, n: nat)
    requires counter + n < UINT64_LIMIT
    ensures |UniqueIds(counter, n)| == n
    ensures forall i :: 0 <= i < n ==> UniqueIds(counter, n)[i] == counter + 1 + i
    ensures forall i, j :: 0 <= i < j < n ==> 0 < UniqueIds(counter, n)[i] < UniqueIds(counter, n)[j]
    decreases n
  {
    if n > 0 {
      UniqueIdsIncrease(counter + 1, n - 1);
    }
  }

  /** `static_cast<int64_t>(duration_ms * 1000.0)`: microseconds, truncated
      toward zero. */
  function MsToUs(ms: real): (us: int)
    ensures ms >= 0.0 ==> us >= 0 && us as real <= ms * 1000.0 < us as real + 1.0
    ensures ms < 0.0 ==> us <= 0 && us as real - 1.0 < ms * 1000.0 <= us as real
  {
    var x := ms * 1000.0;
    if x >= 0.0 then x.Floor else -((-x).Floor)
  }

  /** `MetricsManager::StartInvocation`: with a null database or state it
      changes nothing; otherwise it stores the context and starts the
      invocation on the database's ledger. */
  function StartInvocation(ms: Managers, ctx: Context, t: ThreadId, db: DbId, s: StateId, k: FunctionType): (r: (Managers, Context))
    ensures db == 0 || s == 0 ==> r == (ms, ctx)
    ensures db != 0 && s != 0 ==>
      r.1 == Context(db, s, k) && r.1.IsSet() &&
      Replaced(ms, r.0, db, Metrics.StartInvocation(Manager(ms, db), t, s, k))
  {
    if db != 0 && s != 0 then
      var l := Register(Manager(ms, db), t, s);
      (ms[db := Metrics.StartInvocation(l, t, s, k)], Context(db, s, k))
    else (ms, ctx)
  }

  /** `MetricsManager::SetModelInfo`. */
  function SetModelInfo(ms: Managers, ctx: Context, t: ThreadId, model: string, provider: string): (r: Managers)
    ensures !ctx.IsSet() ==> r == ms
    ensures ctx.IsSet() ==>
      Replaced(ms, r, ctx.db, Metrics.SetModelInfo(Manager(ms, ctx.db), t, ctx.state, ctx.kind, model, provider))
  {
    if ctx.IsSet() then ms[ctx.db := Metrics.SetModelInfo(Manager(ms, ctx.db), t, ctx.state, ctx.kind, model, provider)] else ms
  }

  /** `MetricsManager::UpdateTokens`. */
  function UpdateTokens(ms: Managers, ctx: Context, t: ThreadId, input: int, output: int): (r: Managers)
    ensures !ctx.IsSet() ==> r == ms
    ensures ctx.IsSet() ==>
      Replaced(ms, r, ctx.db, Metrics.UpdateTokens(Manager(ms, ctx.db), t, ctx.state, ctx.kind, input, output))
  {
    if ctx.IsSet() then ms[ctx.db := Metrics.UpdateTokens(Manager(ms, ctx.db), t, ctx.state, ctx.kind, input, output)] else ms
  }

  /** `MetricsManager::IncrementApiCalls`. */
  function IncrementApiCalls(ms: Managers, ctx: Context, t: ThreadId): (r: Managers)
    ensures !ctx.IsSet() ==> r == ms
    ensures ctx.IsSet() ==>
      Replaced(ms, r, ctx.db, Metrics.IncrementApiCalls(Manager(ms, ctx.db), t, ctx.state, ctx.kind))
  {
    if ctx.IsSet() then ms[ctx.db := Metrics.IncrementApiCalls(Manager(ms, ctx.db), t, ctx.state, ctx.kind)] else ms
  }

  /** `MetricsManager::AddApiDuration`, taking milliseconds. */
  function AddApiDuration(ms: Managers, ctx: Context, t: ThreadId, durationMs: real): (r: Managers)
    ensures !ctx.IsSet() ==> r == ms
    ensures ctx.IsSet() ==>
      Replaced(ms, r, ctx.db, Metrics.AddApiDuration(Manager(ms, ctx.db), t, ctx.state, ctx.kind, MsToUs(durationMs)))
  {
    if ctx.IsSet() then ms[ctx.db := Metrics.AddApiDuration(Manager(ms, ctx.db), t, ctx.state, ctx.kind, MsToUs(durationMs))] else ms
  }

  /** `MetricsManager::AddExecutionTime`, taking milliseconds. */
  function AddExecutionTime(ms: Managers, ctx: Context, t: ThreadId, durationMs: real): (r: Managers)
    ensures !ctx.IsSet() ==> r == ms
    ensures ctx.IsSet() ==>
      Replaced(ms, r, ctx.db, Metrics.AddExecutionTime(Manager(ms, ctx.db), t, ctx.state, ctx.kind, MsToUs(durationMs)))
  {
    if ctx.IsSet() then ms[ctx.db := Metrics.AddExecutionTime(Manager(ms, ctx.db), t, ctx.state, ctx.kind, MsToUs(durationMs))] else ms
  }

  /** `ClearContext`. */
  function ClearContext(): (c: Context)
    ensures !c.IsSet() && c.kind == UNKNOWN
  {
    NO_CONTEXT
  }

  /** After `ClearContext` every update leaves the managers alone. */
  lemma ClearedUpdatesNothing(ms: Managers, t: ThreadId, model: string, provider: string, input: int, output: int, durationMs: real)
    ensures var c := ClearContext();
      SetModelInfo(ms, c, t, model, provider) == ms && UpdateTokens(ms, c, t, input, output) == ms &&
      IncrementApiCalls(ms, c, t) == ms && AddApiDuration(ms, c, t, durationMs) == ms &&
      AddExecutionTime(ms, c, t, durationMs) == ms
  {
  }

  /** Once an invocation has started on non-null pointers, the updates that
      follow reach the state and kind it named. */
  lemma StartedUpdatesReach(ms: Managers, ctx: Context, t: ThreadId, db: DbId, s: StateId, k: FunctionType, input: int, output: int)
    requires db != 0 && s != 0
    ensures var (ms1, c) := StartInvocation(ms, ctx, t, db, s, k);
      var l1 := Manager(ms1, db);
      var l2 := Manager(UpdateTokens(ms1, c, t, input, output), db);
      Current(l2, t, s, k).counts.inputTokens == Current(l1, t, s, k).counts.inputTokens + input &&
      Current(l2, t, s, k).counts.outputTokens == Current(l1, t, s, k).counts.outputTokens + output
  {
  }

  /** `ExecuteResetMetrics`: clears the ledger of the query's database and
      answers with a fixed message. */
  function ExecuteResetMetrics(ms: Managers, db: DbId): (r: Result<(Managers, string)>)
    ensures r.Err? <==> db == 0
    ensures r.Ok? ==> r.value.1 == RESET_MESSAGE && Replaced(ms, r.value.0, db, EMPTY_LEDGER)
  {
    match GetForDatabase(ms, db)
    case Err(e) => Err(e)
    case Ok(got) =>
      assert got.0.Keys == ms.Keys + {db};
      Ok((got.0[db := Reset(got.1)], RESET_MESSAGE))
  }

  const RESET_MESSAGE: string := "Metrics reset successfully"

  /** After a reset no key of the database's ledger is reported, whatever
      order its entries are visited in. */
  lemma ResetThenNothingReported(ms: Managers, db: DbId, visit: seq<(ThreadId, StateId)>, key: Key)
    requires db != 0
    ensures ExecuteResetMetrics(ms, db).Ok?
    ensures !AnyContributes(ExecuteResetMetrics(ms, db).value.0[db], visit, key)
  {
    ResetReportsNothing(Manager(ms, db), visit, key);
  }

  /** `ExecuteGetMetrics`: the flattened report of the query's database, as
      a JSON object. */
  method ExecuteGetMetrics(ms: Managers, db: DbId, visit: seq<(ThreadId, StateId)>) returns (r: Result<(Managers, Value)>)
    requires db in ms ==> Enumerates(ms[db], visit)
    requires db !in ms ==> visit == []
    ensures r.Err? <==> db == 0
    ensures r.Ok? ==> r.value.0 == GetForDatabase(ms, db).value.0 && r.value.1.Obj?
    ensures r.Ok? ==> forall key :: AnyContributes(Manager(ms, db), visit, key) ==>
      var name := Name(key.kind, Rank(Manager(ms, db), visit, key));
      name in r.value.1.fields && r.value.1.fields[name] == DataToJson(Expected(Manager(ms, db), visit, key))
    ensures r.Ok? ==> forall name :: name in r.value.1.fields ==>
      exists key :: AnyContributes(Manager(ms, db), visit, key) && name == Name(key.kind, Rank(Manager(ms, db), visit, key))
  {
    var found := GetForDatabase(ms, db);
    if found.Err? {
      return Err(found.error);
    }
    var (ms1, l) := found.value;
    var report := GetMetrics(l, visit);
    return Ok((ms1, Obj(report)));
  }

  /** The summed counters of the listed states' slots of kind `k`, in list
      order; a state listed twice counts twice. */
  function Totals(l: Ledger, t: ThreadId, ids: seq<StateId>, k: FunctionType): Counts
    decreases |ids|
  {
    if |ids| == 0 then ZERO
    else Plus(Totals(l, t, ids[..|ids| - 1], k), Current(l, t, ids[|ids| - 1], k).counts)
  }

  /** A state whose slot counts something and names a model. */
  predicate Named(l: Ledger, t: ThreadId, s: StateId, k: FunctionType) {
    !IsEmptyData(Current(l, t, s, k)) && Current(l, t, s, k).modelName != ""
  }

  /** The position of the first named state of the list, if any. */
  function FirstNamed(l: Ledger, t: ThreadId, ids: seq<StateId>, k: FunctionType): (r: Option<nat>)
    ensures r.Some? ==> r.value < |ids|
    decreases |ids|
  {
    if |ids| == 0 then None
    else
      var p := FirstNamed(l, t, ids[..|ids| - 1], k);
      if p.Some? then p
      else if Named(l, t, ids[|ids| - 1], k) then Some(|ids| - 1)
      else None
  }

  /** `FirstNamed` finds the earliest named state, and finds none exactly
      when no state is named. */
  lemma {:induction false} FirstNamedIsFirst(l: Ledger, t: ThreadId, ids: seq<StateId>, k: FunctionType)
    ensures FirstNamed(l, t, ids, k).None? <==> forall i :: 0 <= i < |ids| ==> !Named(l, t, ids[i], k)
    ensures FirstNamed(l, t, ids, k).Some? ==>
      var j := FirstNamed(l, t, ids, k).value;
      Named(l, t, ids[j], k) && forall i :: 0 <= i < j ==> !Named(l, t, ids[i], k)
    decreases |ids|
  {
    if |ids| > 0 {
      var front := ids[..|ids| - 1];
      FirstNamedIsFirst(l, t, front, k);
      assert forall i :: 0 <= i < |front| ==> front[i] == ids[i];
    }
  }

  /** The model and provider the merge settles on: the arguments when a
      model is given, else those of the first named state, else the
      (empty) arguments. */
  function Chosen(l: Ledger, t: ThreadId, ids: seq<StateId>, k: FunctionType, model: string, provider: string): (string, string) {
    if model != "" then (model, provider)
    else match FirstNamed(l, t, ids, k)
      case Some(j) => (Current(l, t, ids[j], k).modelName, Current(l, t, ids[j], k).provider)
      case None => (model, provider)
  }

  /** The survivor's slot after the merge: the totals, and the chosen model
      and provider when a model was chosen, its own otherwise. */
  function Survivor(l: Ledger, t: ThreadId, ids: seq<StateId>, k: FunctionType, model: string, provider: string): Data
    requires |ids| > 0
  {
    var own := Current(l, t, ids[0], k);
    var (m, p) := Chosen(l, t, ids, k, model, provider);
    Data(if m != "" then m else own.modelName, if m != "" then p else own.provider, Totals(l, t, ids, k))
  }

  /** The (thread, state) entries `ids` names. */
  function Entries(t: ThreadId, ids: seq<StateId>): set<(ThreadId, StateId)> {
    set s | s in ids :: (t, s)
  }

  /** `l` holds the same slots as `l0`, with possibly more entries registered. */
  ghost predicate SameSlots(l0: Ledger, l: Ledger) {
    forall t': ThreadId, s': StateId :: Entry(l, t', s') == Entry(l0, t', s')
  }

  /** One step of the model choice: a named state fills an empty choice. */
  lemma ChosenStep(l: Ledger, t: ThreadId, ids: seq<StateId>, i: nat, k: FunctionType, model: string, provider: string)
    requires i < |ids|
    ensures var c := Chosen(l, t, ids[..i], k, model, provider);
      var d := Current(l, t, ids[i], k);
      Chosen(l, t, ids[..i + 1], k, model, provider) ==
        if !IsEmptyData(d) && c.0 == "" && d.modelName != "" then (d.modelName, d.provider) else c
  {
    assert ids[..i + 1][..i] == ids[..i];
    var p := FirstNamed(l, t, ids[..i], k);
    if p.Some? {
      FirstNamedIsFirst(l, t, ids[..i], k);
    }
  }

  /** What the first loop of the merge has built after `i` states. */
  ghost predicate Swept(l0: Ledger, l: Ledger, t: ThreadId, ids: seq<StateId>, i: nat, k: FunctionType, model: string, provider: string,
                        total: Counts, finalModel: string, finalProvider: string)
    requires i <= |ids|
  {
    SameSlots(l0, l) && l.order == l0.order && l.counters == l0.counters &&
    l.metrics.Keys == l0.metrics.Keys + Entries(t, ids[..i]) &&
    total == Totals(l0, t, ids[..i], k) &&
    (finalModel, finalProvider) == Chosen(l0, t, ids[..i], k, model, provider)
  }

  /** The body of the first loop for one state's slot `d`: a non-empty slot
      adds its counters and, when no model is chosen yet, offers its own. */
  function Absorbed(total: Counts, finalModel: string, finalProvider: string, d: Data): (Counts, string, string) {
    if IsEmptyData(d) then (total, finalModel, finalProvider)
    else if finalModel == "" && d.modelName != "" then (Plus(total, d.counts), d.modelName, d.provider)
    else (Plus(total, d.counts), finalModel, finalProvider)
  }

  lemma SweepStep(l0: Ledger, l: Ledger, t: ThreadId, ids: seq<StateId>, i: nat, k: FunctionType, model: string, provider: string,
                  total: Counts, finalModel: string, finalProvider: string)
    requires i < |ids| && Swept(l0, l, t, ids, i, k, model, provider, total, finalModel, finalProvider)
    ensures var l' := Register(l, t, ids[i]);
      var next := Absorbed(total, finalModel, finalProvider, Current(l', t, ids[i], k));
      Swept(l0, l', t, ids, i + 1, k, model, provider, next.0, next.1, next.2)
  {
    var l' := Register(l, t, ids[i]);
    assert SameSlots(l0, l');
    assert Current(l', t, ids[i], k) == Current(l0, t, ids[i], k);
    assert l'.metrics.Keys == l0.metrics.Keys + Entries(t, ids[..i + 1]) by {
      assert Entries(t, ids[..i + 1]) == Entries(t, ids[..i]) + {(t, ids[i])};
    }
    AbsorbedStep(l0, t, ids, i, k, model, provider, total, finalModel, finalProvider);
  }

  /** One more state adds its counters to the totals. */
  lemma TotalsStep(l: Ledger, t: ThreadId, ids: seq<StateId>, i: nat, k: FunctionType)
    requires i < |ids|
    ensures Totals(l, t, ids[..i + 1], k) == Plus(Totals(l, t, ids[..i], k), Current(l, t, ids[i], k).counts)
  {
    assert ids[..i + 1][..i] == ids[..i];
  }

  /** `Absorbed` extends the totals and the model choice by one state. */
  lemma AbsorbedStep(l: Ledger, t: ThreadId, ids: seq<StateId>, i: nat, k: FunctionType, model: string, provider: string,
                     total: Counts, finalModel: string, finalProvider: string)
    requires i < |ids|
    requires total == Totals(l, t, ids[..i], k) && (finalModel, finalProvider) == Chosen(l, t, ids[..i], k, model, provider)
    ensures var next := Absorbed(total, finalModel, finalProvider, Current(l, t, ids[i], k));
      next.0 == Totals(l, t, ids[..i + 1], k) && (next.1, next.2) == Chosen(l, t, ids[..i + 1], k, model, provider)
  {
    var d := Current(l, t, ids[i], k);
    TotalsStep(l, t, ids, i, k);
    ChosenStep(l, t, ids, i, k, model, provider);
    if IsEmptyData(d) {
      assert d.counts == ZERO;
      assert Plus(total, ZERO) == total;
    }
  }

  /** The first loop of the merge: registers every listed state and sums
      the non-empty slots, picking up the first model when none is given. */
  method Sweep(l0: Ledger, t: ThreadId, ids: seq<StateId>, k: FunctionType, model: string, provider: string)
    returns (l: Ledger, total: Counts, finalModel: string, finalProvider: string)
    ensures SameSlots(l0, l) && l.order == l0.order && l.counters == l0.counters
    ensures l.metrics.Keys == l0.metrics.Keys + Entries(t, ids)
    ensures total == Totals(l0, t, ids, k)
    ensures (finalModel, finalProvider) == Chosen(l0, t, ids, k, model, provider)
  {
    l := l0;
    total := ZERO;
    finalModel, finalProvider := model, provider;
    var i := 0;
    while i < |ids|
      invariant 0 <= i <= |ids|
      invariant Swept(l0, l, t, ids, i, k, model, provider, total, finalModel, finalProvider)
    {
      SweepStep(l0, l, t, ids, i, k, model, provider, total, finalModel, finalProvider);
      l := Register(l, t, ids[i]);
      var next := Absorbed(total, finalModel, finalProvider, Current(l, t, ids[i], k));
      total, finalModel, finalProvider := next.0, next.1, next.2;
      i := i + 1;
    }
    assert ids[..|ids|] == ids;
  }

  /** The second loop of the merge: every listed state but the first gets
      a default slot of kind `k`. */
  method ClearOthers(l0: Ledger, t: ThreadId, ids: seq<StateId>, k: FunctionType) returns (l: Ledger)
    requires |ids| > 0 && Entries(t, ids) <= l0.metrics.Keys
    ensures l.order == l0.order && l.counters == l0.counters && l.metrics.Keys == l0.metrics.Keys
    ensures forall i :: 1 <= i < |ids| ==> Current(l, t, ids[i], k) == DEFAULT
    ensures forall t': ThreadId, s': StateId, k' :: (t' != t || k' != k || s' !in ids[1..]) ==>
      Current(l, t', s', k') == Current(l0, t', s', k')
  {
    l := l0;
    var i := 1;
    while i < |ids|
      invariant 1 <= i <= |ids|
      invariant l.order == l0.order && l.counters == l0.counters && l.metrics.Keys == l0.metrics.Keys
      invariant forall j :: 1 <= j < i ==> Current(l, t, ids[j], k) == DEFAULT
      invariant forall t': ThreadId, s': StateId, k' :: (t' != t || k' != k || s' !in ids[1..i]) ==>
        Current(l, t', s', k') == Current(l0, t', s', k')
    {
      assert (t, ids[i]) in Entries(t, ids);
      l := Write(l, t, ids[i], k, DEFAULT);
      assert ids[1..i + 1] == ids[1..i] + [ids[i]];
      i := i + 1;
    }
    assert ids[1..|ids|] == ids[1..];
  }

  /** The ledger a merge starts from: the survivor's invocation started,
      unless its id is null. */
  function Started(l: Ledger, t: ThreadId, survivor: StateId, k: FunctionType): Ledger {
    if survivor != 0 then Metrics.StartInvocation(l, t, survivor, k) else l
  }

  /** `MergeAggregateMetrics`: folds the metrics of kind `k` of every listed
      state into the first one, which keeps the totals, and resets the
      others. Nothing happens for an empty list or a null database. */
  method MergeAggregateMetrics(ms: Managers, ctx: Context, t: ThreadId, db: DbId, ids: seq<StateId>, k: FunctionType,
                               model: string, provider: string)
    returns (ms': Managers, ctx': Context)
    ensures |ids| == 0 || db == 0 ==> ms' == ms && ctx' == ctx
    ensures |ids| > 0 && db != 0 ==> ctx' == if ids[0] != 0 then Context(db, ids[0], k) else ctx
    ensures |ids| > 0 && db != 0 ==> ms'.Keys == ms.Keys + {db} && forall d :: d in ms && d != db ==> ms'[d] == ms[d]
    ensures |ids| > 0 && db != 0 ==>
      var l0 := Manager(ms, db);
      ms'[db].order == Started(l0, t, ids[0], k).order && ms'[db].counters == Started(l0, t, ids[0], k).counters &&
      ms'[db].metrics.Keys == l0.metrics.Keys + Entries(t, ids)
    ensures |ids| > 0 && db != 0 && ids[0] !in ids[1..] ==>
      Current(ms'[db], t, ids[0], k) == Survivor(Manager(ms, db), t, ids, k, model, provider)
    ensures |ids| > 0 && db != 0 ==> forall i :: 1 <= i < |ids| ==> Current(ms'[db], t, ids[i], k) == DEFAULT
    ensures |ids| > 0 && db != 0 ==> forall t': ThreadId, s': StateId, k' :: (t' != t || k' != k || s' !in ids) ==>
      Current(ms'[db], t', s', k') == Current(Manager(ms, db), t', s', k')
  {
    if |ids| == 0 || db == 0 {
      return ms, ctx;
    }
    var l0 := Manager(ms, db);
    var begun := StartInvocation(ms[db := l0], ctx, t, db, ids[0], k);
    ctx' := begun.1;
    assert begun.0[db] == Started(l0, t, ids[0], k);
    var cleared := MergeLedger(l0, begun.0[db], t, ids, k, model, provider);
    ms' := ms[db := cleared];
  }

  /** The merge within one database's ledger, from the ledger `started` left by
      the survivor's `StartInvocation`. */
  method MergeLedger(l0: Ledger, started: Ledger, t: ThreadId, ids: seq<StateId>, k: FunctionType, model: string, provider: string)
    returns (cleared: Ledger)
    requires |ids| > 0 && started == Started(l0, t, ids[0], k)
    ensures cleared.order == started.order && cleared.counters == started.counters
    ensures cleared.metrics.Keys == l0.metrics.Keys + Entries(t, ids)
    ensures ids[0] !in ids[1..] ==> Current(cleared, t, ids[0], k) == Survivor(l0, t, ids, k, model, provider)
    ensures forall i :: 1 <= i < |ids| ==> Current(cleared, t, ids[i], k) == DEFAULT
    ensures forall t': ThreadId, s': StateId, k' :: (t' != t || k' != k || s' !in ids) ==>
      Current(cleared, t', s', k') == Current(l0, t', s', k')
  {
    var survivor := ids[0];
    StartedSlots(l0, t, survivor, k);
    var swept, total, finalModel, finalProvider := Sweep(started, t, ids, k, model, provider);
    SweepReads(l0, started, t, ids, k, model, provider);
    var own := Current(swept, t, survivor, k);
    var merged := Data(if finalModel != "" then finalModel else own.modelName,
                       if finalModel != "" then finalProvider else own.provider, total);
    assert merged == Survivor(l0, t, ids, k, model, provider);
    var written := Write(swept, t, survivor, k, merged);
    assert (t, survivor) in Entries(t, ids);
    cleared := ClearOthers(written, t, ids, k);
    MergeOutcome(l0, started, swept, written, cleared, t, ids, k, model, provider);
  }

  lemma StartedSlots(l: Ledger, t: ThreadId, survivor: StateId, k: FunctionType)
    ensures SameSlots(l, Started(l, t, survivor, k))
    ensures l.metrics.Keys <= Started(l, t, survivor, k).metrics.Keys <= l.metrics.Keys + {(t, survivor)}
  {
  }

  /** The three steps of the merge after the survivor's invocation started,
      read back against the ledger before the merge. */
  lemma MergeOutcome(l0: Ledger, started: Ledger, swept: Ledger, written: Ledger, cleared: Ledger,
                     t: ThreadId, ids: seq<StateId>, k: FunctionType, model: string, provider: string)
    requires |ids| > 0
    requires SameSlots(l0, started) && started.metrics.Keys <= l0.metrics.Keys + {(t, ids[0])}
    requires started.metrics.Keys >= l0.metrics.Keys
    requires SameSlots(started, swept) && swept.order == started.order && swept.counters == started.counters
    requires swept.metrics.Keys == started.metrics.Keys + Entries(t, ids)
    requires written == Write(swept, t, ids[0], k, Survivor(l0, t, ids, k, model, provider))
    requires cleared.order == written.order && cleared.counters == written.counters && cleared.metrics.Keys == written.metrics.Keys
    requires forall t': ThreadId, s': StateId, k' :: (t' != t || k' != k || s' !in ids[1..]) ==>
      Current(cleared, t', s', k') == Current(written, t', s', k')
    ensures cleared.order == started.order && cleared.counters == started.counters
    ensures cleared.metrics.Keys == l0.metrics.Keys + Entries(t, ids)
    ensures ids[0] !in ids[1..] ==> Current(cleared, t, ids[0], k) == Survivor(l0, t, ids, k, model, provider)
    ensures forall t': ThreadId, s': StateId, k' :: (t' != t || k' != k || s' !in ids) ==>
      Current(cleared, t', s', k') == Current(l0, t', s', k')
  {
    MergeKeys(l0, started, swept, written, t, ids, k, Survivor(l0, t, ids, k, model, provider));
    forall t': ThreadId, s': StateId, k' | t' != t || k' != k || s' !in ids
      ensures Current(cleared, t', s', k') == Current(l0, t', s', k')
    {
      assert s' !in ids ==> s' !in ids[1..] && s' != ids[0];
      assert Current(written, t', s', k') == Current(swept, t', s', k');
      assert Entry(swept, t', s') == Entry(l0, t', s');
    }
  }

  /** The merge adds exactly the entries of the listed states to the ledger. */
  lemma MergeKeys(l0: Ledger, started: Ledger, swept: Ledger, written: Ledger, t: ThreadId, ids: seq<StateId>, k: FunctionType, d: Data)
    requires |ids| > 0
    requires l0.metrics.Keys <= started.metrics.Keys <= l0.metrics.Keys + {(t, ids[0])}
    requires swept.metrics.Keys == started.metrics.Keys + Entries(t, ids)
    requires written == Write(swept, t, ids[0], k, d)
    ensures written.metrics.Keys == l0.metrics.Keys + Entries(t, ids)
  {
    assert (t, ids[0]) in Entries(t, ids);
  }


  /** Reading the slots of a ledger with the same contents gives the same
      totals and the same choice of model. */
  lemma SweepReads(l0: Ledger, l: Ledger, t: ThreadId, ids: seq<StateId>, k: FunctionType, model: string, provider: string)
    requires SameSlots(l0, l)
    ensures Totals(l, t, ids, k) == Totals(l0, t, ids, k)
    ensures Chosen(l, t, ids, k, model, provider) == Chosen(l0, t, ids, k, model, provider)
  {
    SameTotals(l0, l, t, ids, k);
    SameFirstNamed(l0, l, t, ids, k);
  }

  lemma {:induction false} SameTotals(l0: Ledger, l: Ledger, t: ThreadId, ids: seq<StateId>, k: FunctionType)
    requires SameSlots(l0, l)
    ensures Totals(l, t, ids, k) == Totals(l0, t, ids, k)
    decreases |ids|
  {
    if |ids| > 0 {
      SameTotals(l0, l, t, ids[..|ids| - 1], k);
    }
  }

  lemma {:induction false} SameFirstNamed(l0: Ledger, l: Ledger, t: ThreadId, ids: seq<StateId>, k: FunctionType)
    requires SameSlots(l0, l)
    ensures FirstNamed(l, t, ids, k) == FirstNamed(l0, t, ids, k)
    decreases |ids|
  {
    if |ids| > 0 {
      SameFirstNamed(l0, l, t, ids[..|ids| - 1], k);
    }
  }
}
