/** `BaseMetricsManager::GetMetrics`: the ledger flattened into one JSON
    object. Non-empty slots of the seven real kinds are merged by (kind,
    registration order), the merged entries are sorted by kind and order,
    and each is reported under `<kind>_<n>` where `n` numbers the entries of
    its kind densely from 1. The iteration order of the source's hash maps is
    a parameter (`visit`); only the choice of model and provider depends on it. */
module MetricsReport {
  import opened Json
  import opened Text
  import opened Metrics

  /** `SIZE_MAX`: the order given to a slot whose (state, kind) was never registered. */
  const SIZE_MAX: nat := 0xFFFF_FFFF_FFFF_FFFF

  datatype Key = Key(kind: FunctionType, order: nat)

  /** The `merged_metrics` hash map, as an association list in insertion order. */
  type Merged = seq<(Key, Data)>

  function OrderOf(l: Ledger, s: StateId, k: FunctionType): nat {
    if (s, k) in l.order then l.order[(s, k)] else SIZE_MAX
  }

  function Keys(m: Merged): set<Key> {
    set i | 0 <= i < |m| :: m[i].0
  }

  predicate DistinctKeys(m: Merged) {
    forall i, j :: 0 <= i < j < |m| ==> m[i].0 != m[j].0
  }

  /** `merged_metrics[key]`: the stored entry, or a default one. */
  function Lookup(m: Merged, key: Key): Data {
    if |m| == 0 then DEFAULT else if m[0].0 == key then m[0].1 else Lookup(m[1..], key)
  }

  /** Adding a slot into a merged entry: counters summed, the first
      non-empty model and the first non-empty provider kept. */
  function Combine(a: Data, d: Data): Data {
    Data(if a.modelName == "" && d.modelName != "" then d.modelName else a.modelName,
         if a.provider == "" && d.provider != "" then d.provider else a.provider,
         Plus(a.counts, d.counts))
  }

  lemma KeysCons(x: (Key, Data), m: Merged)
    ensures Keys([x] + m) == {x.0} + Keys(m)
  {
    var r := [x] + m;
    assert r[0] == x;
    forall k | k in Keys(r)
      ensures k in {x.0} + Keys(m)
    {
      var i :| 0 <= i < |r| && r[i].0 == k;
      if i > 0 {
        assert m[i - 1] == r[i];
      }
    }
    forall k | k in Keys(m)
      ensures k in Keys(r)
    {
      var i :| 0 <= i < |m| && m[i].0 == k;
      assert r[i + 1] == m[i];
    }
  }

  function Absorb(m: Merged, key: Key, d: Data): Merged {
    if |m| == 0 then [(key, Combine(DEFAULT, d))]
    else if m[0].0 == key then [(key, Combine(m[0].1, d))] + m[1..]
    else [m[0]] + Absorb(m[1..], key, d)
  }

  lemma DistinctCons(x: (Key, Data), m: Merged)
    requires x.0 !in Keys(m) && DistinctKeys(m)
    ensures DistinctKeys([x] + m)
  {
    var r := [x] + m;
    forall i, j | 0 <= i < j < |r|
      ensures r[i].0 != r[j].0
    {
      assert r[j] == m[j - 1];
      if i > 0 {
        assert r[i] == m[i - 1];
      }
    }
  }

  lemma {:induction false} AbsorbKeys(m: Merged, key: Key, d: Data)
    ensures Keys(Absorb(m, key, d)) == Keys(m) + {key}
    decreases |m|
  {
    var r := Absorb(m, key, d);
    if |m| == 0 {
      KeysCons((key, Combine(DEFAULT, d)), m);
      assert [(key, Combine(DEFAULT, d))] + m == r;
    } else {
      assert m == [m[0]] + m[1..];
      KeysCons(m[0], m[1..]);
      if m[0].0 == key {
        KeysCons((key, Combine(m[0].1, d)), m[1..]);
      } else {
        AbsorbKeys(m[1..], key, d);
        KeysCons(m[0], Absorb(m[1..], key, d));
      }
    }
  }

  lemma {:induction false} AbsorbDistinct(m: Merged, key: Key, d: Data)
    requires DistinctKeys(m)
    ensures DistinctKeys(Absorb(m, key, d))
    decreases |m|
  {
    if |m| > 0 {
      assert m == [m[0]] + m[1..];
      KeysCons(m[0], m[1..]);
      assert m[0].0 !in Keys(m[1..]);
      if m[0].0 == key {
        DistinctCons((key, Combine(m[0].1, d)), m[1..]);
      } else {
        AbsorbDistinct(m[1..], key, d);
        AbsorbKeys(m[1..], key, d);
        DistinctCons(m[0], Absorb(m[1..], key, d));
      }
    }
  }

  lemma {:induction false} AbsorbLookup(m: Merged, key: Key, d: Data, k: Key)
    ensures Lookup(Absorb(m, key, d), k) == if k == key then Combine(Lookup(m, key), d) else Lookup(m, k)
    decreases |m|
  {
    if |m| > 0 && m[0].0 != key {
      var r := Absorb(m, key, d);
      assert r[0] == m[0] && r[1..] == Absorb(m[1..], key, d);
      AbsorbLookup(m[1..], key, d, k);
    }
  }

  /** Absorbing a slot into `key` changes that entry alone, adding it when
      absent, and keeps the keys distinct. */
  lemma AbsorbEffect(m: Merged, key: Key, d: Data)
    ensures Keys(Absorb(m, key, d)) == Keys(m) + {key}
    ensures DistinctKeys(m) ==> DistinctKeys(Absorb(m, key, d))
    ensures Lookup(Absorb(m, key, d), key) == Combine(Lookup(m, key), d)
    ensures forall k :: k != key ==> Lookup(Absorb(m, key, d), k) == Lookup(m, k)
  {
    AbsorbKeys(m, key, d);
    if DistinctKeys(m) {
      AbsorbDistinct(m, key, d);
    }
    AbsorbLookup(m, key, d, key);
    forall k | k != key
      ensures Lookup(Absorb(m, key, d), k) == Lookup(m, k)
    {
      AbsorbLookup(m, key, d, k);
    }
  }

  /** The inner loop of the merge over the kinds with index below `i`
      (never UNKNOWN, whose index is 7). */
  function MergeKinds(m: Merged, l: Ledger, s: StateId, tm: ThreadMetrics, i: nat): Merged
    requires i < NUM_FUNCTION_TYPES
    decreases i
  {
    if i == 0 then m
    else
      var r := MergeKinds(m, l, s, tm, i - 1);
      var k := TypeAt(i - 1);
      if IsEmptyData(Slot(tm, k)) then r else Absorb(r, Key(k, OrderOf(l, s, k)), Slot(tm, k))
  }

  /** The outer loops of the merge, over the (thread, state) entries in `visit` order. */
  function Merge(l: Ledger, visit: seq<(ThreadId, StateId)>): Merged
    decreases |visit|
  {
    if |visit| == 0 then []
    else
      var m := Merge(l, visit[..|visit| - 1]);
      var t := visit[|visit| - 1].0;
      var s := visit[|visit| - 1].1;
      var tm := Entry(l, t, s);
      if IsEmptyMetrics(tm) then m else MergeKinds(m, l, s, tm, NUM_FUNCTION_TYPES - 1)
  }

  /** The slot of state `s` on thread `t` is added into entry `key`. */
  predicate Contributes(l: Ledger, t: ThreadId, s: StateId, key: Key) {
    key.kind != UNKNOWN && !IsEmptyData(Current(l, t, s, key.kind)) && OrderOf(l, s, key.kind) == key.order
  }

  /** Some visited entry contributes to `key`. */
  predicate AnyContributes(l: Ledger, visit: seq<(ThreadId, StateId)>, key: Key)
    decreases |visit|
  {
    |visit| > 0 &&
    (AnyContributes(l, visit[..|visit| - 1], key) || Contributes(l, visit[|visit| - 1].0, visit[|visit| - 1].1, key))
  }

  /** The sum of the counters of every contributing slot. */
  function Total(l: Ledger, visit: seq<(ThreadId, StateId)>, key: Key): Counts
    decreases |visit|
  {
    if |visit| == 0 then ZERO
    else
      var p := visit[|visit| - 1];
      Plus(Total(l, visit[..|visit| - 1], key),
           if Contributes(l, p.0, p.1, key) then Current(l, p.0, p.1, key.kind).counts else ZERO)
  }

  /** The model of the first contributing slot, in `visit` order, that has one. */
  function FirstModel(l: Ledger, visit: seq<(ThreadId, StateId)>, key: Key): string
    decreases |visit|
  {
    if |visit| == 0 then ""
    else
      var p := visit[|visit| - 1];
      var earlier := FirstModel(l, visit[..|visit| - 1], key);
      if earlier == "" && Contributes(l, p.0, p.1, key) then Current(l, p.0, p.1, key.kind).modelName else earlier
  }

  /** The provider of the first contributing slot, in `visit` order, that has one. */
  function FirstProvider(l: Ledger, visit: seq<(ThreadId, StateId)>, key: Key): string
    decreases |visit|
  {
    if |visit| == 0 then ""
    else
      var p := visit[|visit| - 1];
      var earlier := FirstProvider(l, visit[..|visit| - 1], key);
      if earlier == "" && Contributes(l, p.0, p.1, key) then Current(l, p.0, p.1, key.kind).provider else earlier
  }

  /** What entry `key` of the merge holds. */
  function Expected(l: Ledger, visit: seq<(ThreadId, StateId)>, key: Key): Data {
    Data(FirstModel(l, visit, key), FirstProvider(l, visit, key), Total(l, visit, key))
  }

  /** Distinct keys, none of kind UNKNOWN. */
  predicate WellMerged(m: Merged) {
    DistinctKeys(m) && forall k :: k in Keys(m) ==> k.kind != UNKNOWN
  }

  lemma {:induction false} MergeKindsShape(m: Merged, l: Ledger, s: StateId, tm: ThreadMetrics, i: nat)
    requires i < NUM_FUNCTION_TYPES && WellMerged(m)
    ensures WellMerged(MergeKinds(m, l, s, tm, i))
    decreases i
  {
    if i > 0 {
      MergeKindsShape(m, l, s, tm, i - 1);
      var k := TypeAt(i - 1);
      AbsorbEffect(MergeKinds(m, l, s, tm, i - 1), Key(k, OrderOf(l, s, k)), Slot(tm, k));
    }
  }

  lemma {:induction false} MergeKindsEffect(m: Merged, l: Ledger, t: ThreadId, s: StateId, i: nat, key: Key)
    requires i < NUM_FUNCTION_TYPES
    ensures var r := MergeKinds(m, l, s, Entry(l, t, s), i);
      var hit := TypeIndex(key.kind) < i && Contributes(l, t, s, key);
      (key in Keys(r) <==> key in Keys(m) || hit) &&
      Lookup(r, key) == if hit then Combine(Lookup(m, key), Current(l, t, s, key.kind)) else Lookup(m, key)
    decreases i
  {
    if i > 0 {
      MergeKindsEffect(m, l, t, s, i - 1, key);
      TypeIndexBijective(key.kind, i - 1);
      var tm := Entry(l, t, s);
      var k := TypeAt(i - 1);
      AbsorbEffect(MergeKinds(m, l, s, tm, i - 1), Key(k, OrderOf(l, s, k)), Slot(tm, k));
    }
  }

  lemma {:induction false} MergeShape(l: Ledger, visit: seq<(ThreadId, StateId)>)
    ensures WellMerged(Merge(l, visit))
    decreases |visit|
  {
    if |visit| > 0 {
      var init := visit[..|visit| - 1];
      MergeShape(l, init);
      var tm := Entry(l, visit[|visit| - 1].0, visit[|visit| - 1].1);
      MergeKindsShape(Merge(l, init), l, visit[|visit| - 1].1, tm, NUM_FUNCTION_TYPES - 1);
    }
  }

  /** One more visited entry adds its slot to `key` when it contributes. */
  lemma ExpectedStep(l: Ledger, visit: seq<(ThreadId, StateId)>, key: Key)
    requires |visit| > 0
    ensures var init := visit[..|visit| - 1];
      var p := visit[|visit| - 1];
      Expected(l, visit, key) ==
        if Contributes(l, p.0, p.1, key) then Combine(Expected(l, init, key), Current(l, p.0, p.1, key.kind))
        else Expected(l, init, key)
  {
  }

  /** Each merged entry is exactly the combination of the slots that
      contribute to it: the counter sums, and the first model and first
      provider met in `visit` order; the merge holds no other entry. */
  lemma {:induction false} MergeEntries(l: Ledger, visit: seq<(ThreadId, StateId)>, key: Key)
    ensures key in Keys(Merge(l, visit)) <==> AnyContributes(l, visit, key)
    ensures Lookup(Merge(l, visit), key) == Expected(l, visit, key)
    decreases |visit|
  {
    if |visit| > 0 {
      var init := visit[..|visit| - 1];
      var t := visit[|visit| - 1].0;
      var s := visit[|visit| - 1].1;
      MergeEntries(l, init, key);
      ExpectedStep(l, visit, key);
      var tm := Entry(l, t, s);
      if IsEmptyMetrics(tm) {
        IsEmptyMetricsBySlot(tm);
        assert !Contributes(l, t, s, key);
      } else {
        MergeKindsEffect(Merge(l, init), l, t, s, NUM_FUNCTION_TYPES - 1, key);
      }
    }
  }

  /** `a` sorts before `b`: by kind index, then by registration order. */
  predicate Before(a: Key, b: Key) {
    TypeIndex(a.kind) < TypeIndex(b.kind) || (a.kind == b.kind && a.order < b.order)
  }

  predicate SortedKeys(m: Merged) {
    forall i, j :: 0 <= i < j < |m| ==> Before(m[i].0, m[j].0)
  }

  lemma BeforeTotal(a: Key, b: Key)
    ensures a == b || Before(a, b) || Before(b, a)
  {
    TypeIndexBijective(a.kind, TypeIndex(b.kind));
  }

  function Insert(e: (Key, Data), m: Merged): (r: Merged)
    ensures multiset(r) == multiset(m) + multiset{e}
    ensures |r| == |m| + 1
  {
    if |m| == 0 || Before(e.0, m[0].0) then [e] + m
    else
      assert m == [m[0]] + m[1..];
      [m[0]] + Insert(e, m[1..])
  }

  lemma {:induction false} InsertSorted(e: (Key, Data), m: Merged)
    requires SortedKeys(m) && e.0 !in Keys(m)
    ensures SortedKeys(Insert(e, m))
    decreases |m|
  {
    if |m| > 0 && !Before(e.0, m[0].0) {
      assert m[0].0 in Keys(m);
      BeforeTotal(e.0, m[0].0);
      assert Keys(m[1..]) <= Keys(m);
      InsertSorted(e, m[1..]);
      var r := Insert(e, m[1..]);
      forall j | 0 <= j < |r|
        ensures Before(m[0].0, r[j].0)
      {
        assert r[j] in multiset(r);
        assert r[j] in multiset(m[1..]) + multiset{e};
        if r[j] in multiset(m[1..]) {
          var x :| 0 <= x < |m[1..]| && m[1..][x] == r[j];
          assert m[x + 1] == r[j];
        }
      }
    }
  }

  /** `std::sort` of the entries with the comparator `Before`. */
  function Sort(m: Merged): (r: Merged)
    ensures multiset(r) == multiset(m) && |r| == |m|
    decreases |m|
  {
    if |m| == 0 then [] else
      assert m == [m[0]] + m[1..];
      Insert(m[0], Sort(m[1..]))
  }

  lemma KeysOfPermutation(a: Merged, b: Merged)
    requires multiset(a) == multiset(b)
    ensures Keys(a) == Keys(b)
  {
    forall k | k in Keys(a) ensures k in Keys(b) {
      var i :| 0 <= i < |a| && a[i].0 == k;
      assert a[i] in multiset(b);
    }
    forall k | k in Keys(b) ensures k in Keys(a) {
      var i :| 0 <= i < |b| && b[i].0 == k;
      assert b[i] in multiset(a);
    }
  }

  lemma {:induction false} SortSorted(m: Merged)
    requires DistinctKeys(m)
    ensures SortedKeys(Sort(m))
    decreases |m|
  {
    if |m| > 0 {
      SortSorted(m[1..]);
      var rest := Sort(m[1..]);
      KeysOfPermutation(rest, m[1..]);
      assert m[0].0 !in Keys(m[1..]);
      InsertSorted(m[0], rest);
    }
  }

  /** A key's entry is the pair found in any list with distinct keys. */
  lemma {:induction false} LookupFinds(m: Merged, i: nat)
    requires DistinctKeys(m) && i < |m|
    ensures Lookup(m, m[i].0) == m[i].1
    decreases i
  {
    if i > 0 {
      LookupFinds(m[1..], i - 1);
    }
  }

  /** Number of entries of kind `k` among the first `i` of `m`. */
  function SameKind(m: Merged, i: nat, k: FunctionType): nat
    requires i <= |m|
  {
    if i == 0 then 0 else SameKind(m, i - 1, k) + (if m[i - 1].0.kind == k then 1 else 0)
  }

  /** The keys of `keys` of the same kind as `key` and a smaller order. */
  function Smaller(keys: set<Key>, key: Key): set<Key> {
    set k | k in keys && k.kind == key.kind && k.order < key.order
  }

  function Earlier(m: Merged, i: nat, kind: FunctionType): set<Key>
    requires i <= |m|
  {
    set j | 0 <= j < i && m[j].0.kind == kind :: m[j].0
  }

  lemma {:induction false} EarlierCount(m: Merged, i: nat, kind: FunctionType)
    requires DistinctKeys(m) && i <= |m|
    ensures |Earlier(m, i, kind)| == SameKind(m, i, kind)
    decreases i
  {
    if i > 0 {
      EarlierCount(m, i - 1, kind);
      EarlierStep(m, i, kind);
    }
  }

  lemma EarlierStep(m: Merged, i: nat, kind: FunctionType)
    requires DistinctKeys(m) && 0 < i <= |m|
    ensures m[i - 1].0 !in Earlier(m, i - 1, kind)
    ensures Earlier(m, i, kind) == Earlier(m, i - 1, kind) + if m[i - 1].0.kind == kind then {m[i - 1].0} else {}
  {
  }

  /** In a sorted list, the entries of a kind before position `i` are
      exactly the keys of that kind with a smaller order. */
  lemma SortedEarlier(m: Merged, i: nat)
    requires SortedKeys(m) && i < |m|
    ensures Earlier(m, i, m[i].0.kind) == Smaller(Keys(m), m[i].0)
  {
    var key := m[i].0;
    forall k | k in Smaller(Keys(m), key)
      ensures k in Earlier(m, i, key.kind)
    {
      var j :| 0 <= j < |m| && m[j].0 == k;
      assert j < i;
    }
  }

  /** The dense number of the entry at position `i` of a sorted list: one
      more than the number of keys of its kind with a smaller order. */
  lemma DenseNumber(m: Merged, i: nat)
    requires SortedKeys(m) && i < |m|
    ensures SameKind(m, i, m[i].0.kind) == |Smaller(Keys(m), m[i].0)|
  {
    SortedEarlier(m, i);
    EarlierCount(m, i, m[i].0.kind);
  }

  /** The number of an entry among the entries of its kind, with the kind. */
  type Label = (FunctionType, nat)

  /** The key an entry is reported under. */
  function Name(k: FunctionType, n: nat): string {
    TypeName(k) + "_" + NatToString(n)
  }

  predicate Word(s: string) {
    forall i :: 0 <= i < |s| ==> s[i] == '_' || 'a' <= s[i] <= 'z'
  }

  lemma TypeNameWord(k: FunctionType)
    ensures Word(TypeName(k))
  {
  }

  lemma UnderscoreSplit(a1: string, d1: string, a2: string, d2: string)
    requires Word(a1) && Word(a2) && AllDigits(d1) && AllDigits(d2)
    requires a1 + "_" + d1 == a2 + "_" + d2
    ensures a1 == a2 && d1 == d2
  {
    var s := a1 + "_" + d1;
    assert forall j :: |a1| < j < |s| ==> s[j] == d1[j - |a1| - 1];
    assert forall j :: |a2| < j < |s| ==> s[j] == d2[j - |a2| - 1];
    assert s[|a1|] == '_' && s[|a2|] == '_';
    assert |a1| == |a2|;
    assert a1 == s[..|a1|] == a2;
    assert d1 == s[|a1| + 1..] == d2;
  }

  /** Report keys are unambiguous: the kind and the number can be read back. */
  lemma NameInjective(k1: FunctionType, n1: nat, k2: FunctionType, n2: nat)
    ensures Name(k1, n1) == Name(k2, n2) ==> k1 == k2 && n1 == n2
  {
    if Name(k1, n1) == Name(k2, n2) {
      TypeNameWord(k1);
      TypeNameWord(k2);
      UnderscoreSplit(TypeName(k1), NatToString(n1), TypeName(k2), NatToString(n2));
      TypeNameInjective(k1, k2);
      NatToStringInjective(n1, n2);
    }
  }

  /** The (kind, number) pair the numbering loop gives the entry at position `i`. */
  function LabelAt(m: Merged, i: nat): Label
    requires i < |m|
  {
    (m[i].0.kind, SameKind(m, i, m[i].0.kind) + 1)
  }

  lemma {:induction false} SameKindGrows(m: Merged, j: nat, i: nat, k: FunctionType)
    requires j < i <= |m| && m[j].0.kind == k
    ensures SameKind(m, j, k) < SameKind(m, i, k)
    decreases i
  {
    if j < i - 1 {
      SameKindGrows(m, j, i - 1, k);
    }
  }

  lemma LabelsDistinct(m: Merged, j: nat, i: nat)
    requires j < i < |m|
    ensures LabelAt(m, j) != LabelAt(m, i)
  {
    if m[j].0.kind == m[i].0.kind {
      SameKindGrows(m, j, i, m[j].0.kind);
    }
  }

  /** The dense rank of `key` among the merged entries of its kind. */
  function Rank(l: Ledger, visit: seq<(ThreadId, StateId)>, key: Key): nat {
    |Smaller(Keys(Merge(l, visit)), key)| + 1
  }

  /** `visit` lists every (thread, state) entry of the ledger once. */
  ghost predicate Enumerates(l: Ledger, visit: seq<(ThreadId, StateId)>) {
    (forall p :: p in visit <==> p in l.metrics) &&
    forall i, j :: 0 <= i < j < |visit| ==> visit[i] != visit[j]
  }

  /** `function_counters` holds, per kind, the entries of that kind emitted so far. */
  predicate Counted(counters: map<FunctionType, nat>, entries: Merged, i: nat)
    requires i <= |entries|
  {
    forall k :: (if k in counters then counters[k] else 0) == SameKind(entries, i, k)
  }

  lemma CountedStep(counters: map<FunctionType, nat>, entries: Merged, i: nat)
    requires i < |entries| && Counted(counters, entries, i)
    ensures var k := entries[i].0.kind;
      var c := if k in counters then counters[k] else 0;
      (k, c + 1) == LabelAt(entries, i) && Counted(counters[k := c + 1], entries, i + 1)
  {
  }

  /** The labels after the first `i` entries were numbered. */
  function Written(entries: Merged, i: nat): map<Label, Data>
    requires i <= |entries|
  {
    if i == 0 then map[] else Written(entries, i - 1)[LabelAt(entries, i - 1) := entries[i - 1].1]
  }

  /** Entry `j` survives the later writes, since their labels differ from its own. */
  lemma {:induction false} WrittenHas(entries: Merged, i: nat, j: nat)
    requires j < i <= |entries|
    ensures LabelAt(entries, j) in Written(entries, i)
    ensures Written(entries, i)[LabelAt(entries, j)] == entries[j].1
  {
    if j < i - 1 {
      WrittenHas(entries, i - 1, j);
      LabelsDistinct(entries, j, i - 1);
    }
  }

  /** Every tag written is the tag of an entry numbered so far. */
  lemma {:induction false} WrittenFrom(entries: Merged, i: nat, tag: Label) returns (j: nat)
    requires i <= |entries| && tag in Written(entries, i)
    ensures j < i && tag == LabelAt(entries, j)
  {
    if tag == LabelAt(entries, i - 1) {
      j := i - 1;
    } else {
      j := WrittenFrom(entries, i - 1, tag);
    }
  }

  /** The numbering loop of `GetMetrics` over the sorted entries: each
      entry gets the next number of its kind. */
  method Emit(entries: Merged) returns (labels: map<Label, Data>)
    ensures forall j :: 0 <= j < |entries| ==> LabelAt(entries, j) in labels && labels[LabelAt(entries, j)] == entries[j].1
    ensures forall tag :: tag in labels ==> exists j :: 0 <= j < |entries| && tag == LabelAt(entries, j)
  {
    var counters: map<FunctionType, nat> := map[];
    labels := map[];
    var i := 0;
    while i < |entries|
      invariant 0 <= i <= |entries|
      invariant Counted(counters, entries, i)
      invariant labels == Written(entries, i)
    {
      var kind := entries[i].0.kind;
      var c := if kind in counters then counters[kind] else 0;
      CountedStep(counters, entries, i);
      counters := counters[kind := c + 1];
      labels := labels[(kind, c + 1) := entries[i].1];
      i := i + 1;
    }
    forall j | 0 <= j < |entries|
      ensures LabelAt(entries, j) in labels && labels[LabelAt(entries, j)] == entries[j].1
    {
      WrittenHas(entries, |entries|, j);
    }
    forall tag | tag in labels
      ensures exists j :: 0 <= j < |entries| && tag == LabelAt(entries, j)
    {
      var j := WrittenFrom(entries, |entries|, tag);
    }
  }

  lemma NamesInjective()
    ensures forall a: Label, b: Label :: Name(a.0, a.1) == Name(b.0, b.1) ==> a == b
  {
    forall a: Label, b: Label
      ensures Name(a.0, a.1) == Name(b.0, b.1) ==> a == b
    {
      NameInjective(a.0, a.1, b.0, b.1);
    }
  }

  /** `result[key] = entry.metrics.ToJson()` with `key` spelled `<kind>_<number>`. */
  function Render(labels: map<Label, Data>): (report: map<string, Value>)
    ensures forall tag :: tag in labels ==>
      Name(tag.0, tag.1) in report && report[Name(tag.0, tag.1)] == DataToJson(labels[tag])
    ensures forall name :: name in report ==> exists tag :: tag in labels && name == Name(tag.0, tag.1)
  {
    NamesInjective();
    map tag | tag in labels :: Name(tag.0, tag.1) := DataToJson(labels[tag])
  }

  /** `GetMetrics`. Every key some slot contributes to is reported under
      `<kind>_<rank>`, with the summed counters and the first model and
      provider; nothing else is reported. */
  method GetMetrics(l: Ledger, visit: seq<(ThreadId, StateId)>) returns (report: map<string, Value>)
    requires Enumerates(l, visit)
    ensures forall key :: AnyContributes(l, visit, key) ==>
      var name := Name(key.kind, Rank(l, visit, key));
      name in report && report[name] == DataToJson(Expected(l, visit, key))
    ensures forall name :: name in report ==>
      exists key :: AnyContributes(l, visit, key) && name == Name(key.kind, Rank(l, visit, key))
  {
    var merged := Merge(l, visit);
    var entries := Sort(merged);
    var labels := Emit(entries);
    report := Render(labels);
    ReportCovers(l, visit, entries, labels);
    ReportOnly(l, visit, entries, labels);
  }

  lemma ReportCovers(l: Ledger, visit: seq<(ThreadId, StateId)>, entries: Merged, labels: map<Label, Data>)
    requires entries == Sort(Merge(l, visit))
    requires forall j :: 0 <= j < |entries| ==> LabelAt(entries, j) in labels && labels[LabelAt(entries, j)] == entries[j].1
    ensures forall key :: AnyContributes(l, visit, key) ==>
      var tag := (key.kind, Rank(l, visit, key));
      tag in labels && labels[tag] == Expected(l, visit, key)
  {
    var merged := Merge(l, visit);
    MergeShape(l, visit);
    SortSorted(merged);
    forall key | AnyContributes(l, visit, key)
      ensures (key.kind, Rank(l, visit, key)) in labels && labels[(key.kind, Rank(l, visit, key))] == Expected(l, visit, key)
    {
      var j := ReportedAt(l, visit, merged, entries, key);
    }
  }

  lemma ReportOnly(l: Ledger, visit: seq<(ThreadId, StateId)>, entries: Merged, labels: map<Label, Data>)
    requires entries == Sort(Merge(l, visit))
    requires forall tag :: tag in labels ==> exists j :: 0 <= j < |entries| && tag == LabelAt(entries, j)
    ensures forall tag :: tag in labels ==> exists key :: AnyContributes(l, visit, key) && tag == (key.kind, Rank(l, visit, key))
  {
    var merged := Merge(l, visit);
    MergeShape(l, visit);
    SortSorted(merged);
    forall tag | tag in labels
      ensures exists key :: AnyContributes(l, visit, key) && tag == (key.kind, Rank(l, visit, key))
    {
      var j :| 0 <= j < |entries| && tag == LabelAt(entries, j);
      ReportedFrom(l, visit, merged, entries, j);
    }
  }

  lemma ReportedAt(l: Ledger, visit: seq<(ThreadId, StateId)>, merged: Merged, entries: Merged, key: Key) returns (j: nat)
    requires merged == Merge(l, visit) && multiset(entries) == multiset(merged) && SortedKeys(entries)
    requires AnyContributes(l, visit, key)
    ensures j < |entries| && LabelAt(entries, j) == (key.kind, Rank(l, visit, key)) && entries[j].1 == Expected(l, visit, key)
  {
    MergeEntries(l, visit, key);
    MergeShape(l, visit);
    var i :| 0 <= i < |merged| && merged[i].0 == key;
    LookupFinds(merged, i);
    assert merged[i] in multiset(entries);
    j :| 0 <= j < |entries| && entries[j] == merged[i];
    KeysOfPermutation(entries, merged);
    DenseNumber(entries, j);
  }

  lemma ReportedFrom(l: Ledger, visit: seq<(ThreadId, StateId)>, merged: Merged, entries: Merged, j: nat)
    requires merged == Merge(l, visit) && multiset(entries) == multiset(merged) && SortedKeys(entries)
    requires j < |entries|
    ensures AnyContributes(l, visit, entries[j].0)
    ensures LabelAt(entries, j) == (entries[j].0.kind, Rank(l, visit, entries[j].0))
  {
    var key := entries[j].0;
    KeysOfPermutation(entries, merged);
    assert key in Keys(entries);
    MergeEntries(l, visit, key);
    DenseNumber(entries, j);
  }

  /** After `Reset` no slot contributes to any key, whatever the visit
      order, so the report is the empty object. */
  lemma {:induction false} ResetReportsNothing(l: Ledger, visit: seq<(ThreadId, StateId)>, key: Key)
    ensures !AnyContributes(Reset(l), visit, key)
    decreases |visit|
  {
    if |visit| > 0 {
      ResetReportsNothing(l, visit[..|visit| - 1], key);
    }
  }
}
