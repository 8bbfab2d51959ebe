/** The table of modules: the linked list of active ones, the slot of each in the configuration
    vectors, and the cache of merge functions read by slot.
 */
module ModuleTable {
  import opened Wrappers
  import opened Sequences

  datatype Command = Command(name: string, key: nat)

  /** `named`: a symbol name is known for it, given when it is loaded or found among the prelinked symbols. */
  datatype Module = Module(id: nat, named: bool, merger: Option<nat>, commands: seq<Command>)

  /** What the cache holds for the module. */
  function ForCache(m: Module): Option<nat> {
    if m.named then m.merger else None
  }

  /** `ap_top_module` as a list, `ap_loaded_modules` without its end mark, `module_index` of the modules
      that have one, what is not NULL in `merger_func_cache`, `total_modules`, `dynamic_modules` and its
      limit, and the length of the vectors; `stale` are the modules not in the list whose `next` is
      still set. */
  datatype Table = Table(linked: seq<Module>, loaded: seq<Module>, index: map<nat, nat>, cache: map<nat, nat>,
                         total: nat, dynamic: int, limit: nat, slots: nat, stale: set<nat>)

  datatype Result = Fine(table: Table) | LimitReached | OutOfSlots

  function Put(cache: map<nat, nat>, i: nat, merger: Option<nat>): map<nat, nat> {
    if merger.Some? then cache[i := merger.value] else cache - {i}
  }

  /** The `next` of the module is set: it is in the list and not its last, or was taken out of the middle. */
  predicate HasNext(t: Table, m: Module) {
    m.id in t.stale || (m in t.linked && t.linked[|t.linked| - 1] != m)
  }

  /** `ap_add_module`; the last of the list, added once more, is put on top and the list goes round. */
  function Add(t: Table, m: Module): Result {
    if m.id !in t.index && t.dynamic >= t.limit then LimitReached
    else if m.id !in t.index && t.total >= t.slots then OutOfSlots
    else
      var u := if m.id in t.index then t else t.(index := t.index[m.id := t.total], total := t.total + 1, dynamic := t.dynamic + 1);
      Fine(u.(linked := if HasNext(u, m) then u.linked else [m] + u.linked, cache := if m.named then Put(u.cache, u.index[m.id], m.merger) else u.cache))
  }

  /** `ap_add_loaded_module` */
  function AddLoaded(t: Table, m: Module): Result {
    match Add(t, m)
    case Fine(u) => Fine(u.(loaded := u.loaded + [m]))
    case e => e
  }

  /** The list without the first occurrence of `m`. */
  function Without(ms: seq<Module>, m: Module): seq<Module> {
    if ms == [] then [] else if ms[0] == m then ms[1..] else [ms[0]] + Without(ms[1..], m)
  }

  /** `ap_remove_module`; the `next` of a module not on top, nor at the end, is left as it is. */
  function Remove(t: Table, m: Module): Table {
    if m !in t.linked || m.id !in t.index || t.total == 0 then t
    else
      var top, last := t.linked[0] == m, t.linked[|t.linked| - 1] == m;
      t.(linked := Without(t.linked, m),
         cache := t.cache - {t.index[m.id]},
         index := t.index - {m.id},
         total := t.total - 1, dynamic := t.dynamic - 1,
         stale := if top || last then t.stale else t.stale + {m.id})
  }

  /** `ap_remove_loaded_module` */
  function RemoveLoaded(t: Table, m: Module): Table {
    var u := Remove(t, m);
    u.(loaded := Without(u.loaded, m))
  }

  /** The slots of modules numbered in their order. */
  function Positions(ms: seq<Module>): map<nat, nat> {
    if ms == [] then map[] else Positions(ms[..|ms| - 1])[ms[|ms| - 1].id := |ms| - 1]
  }

  /** `ap_setup_prelinked_modules` up to its last loop. */
  function Blank(pre: seq<Module>, limit: nat): Table {
    Table([], pre, Positions(pre), map[], |pre|, 0, limit, |pre| + limit + 1, {})
  }

  /** The prelinked modules added in turn. */
  function Link(t: Table, ms: seq<Module>): Result
    decreases |ms|
  {
    if ms == [] then Fine(t)
    else match Add(t, ms[0])
      case Fine(u) => Link(u, ms[1..])
      case e => e
  }

  // ----- the table as a function of what is loaded

  function Reversed(ms: seq<Module>): seq<Module> {
    if ms == [] then [] else [ms[|ms| - 1]] + Reversed(ms[..|ms| - 1])
  }

  /** What the slot `i` holds when `active` of the modules `pre` are linked and `ds` are loaded. */
  function MergerAt(pre: seq<Module>, active: seq<Module>, ds: seq<Module>, i: nat): Option<nat> {
    if i < |pre| then if pre[i] in active then ForCache(pre[i]) else None
    else if i < |pre| + |ds| then ForCache(ds[i - |pre|]) else None
  }

  function CacheOf(pre: seq<Module>, active: seq<Module>, ds: seq<Module>): map<nat, nat> {
    map i: nat | i < |pre| + |ds| && MergerAt(pre, active, ds, i).Some? :: MergerAt(pre, active, ds, i).value
  }

  /** The table when `active` of the modules `pre` are linked and `ds` have been loaded on top, in order. */
  function Standing(pre: seq<Module>, active: seq<Module>, ds: seq<Module>, limit: nat): Table {
    Table(Reversed(ds) + Reversed(active), pre + ds, Positions(pre + ds), CacheOf(pre, active, ds),
          |pre| + |ds|, |ds|, limit, |pre| + limit + 1, {})
  }

  ghost predicate Distinct(ms: seq<Module>) {
    forall i, j :: 0 <= i < j < |ms| ==> ms[i].id != ms[j].id
  }

  /** Every module has the slot it was numbered for, and no other module has one. */
  lemma {:induction false} PositionsAre(ms: seq<Module>)
    requires Distinct(ms)
    ensures forall i :: 0 <= i < |ms| ==> ms[i].id in Positions(ms) && Positions(ms)[ms[i].id] == i
    ensures forall id :: id in Positions(ms) ==> exists i :: 0 <= i < |ms| && ms[i].id == id
  {
    if ms != [] {
      var n := |ms| - 1;
      PositionsAre(ms[..n]);
      forall i | 0 <= i < n ensures ms[i].id in Positions(ms) && Positions(ms)[ms[i].id] == i {
        assert ms[..n][i] == ms[i];
      }
      forall id | id in Positions(ms) ensures exists i :: 0 <= i < |ms| && ms[i].id == id {
        if id != ms[n].id {
          var i :| 0 <= i < n && ms[..n][i].id == id;
          assert ms[i].id == id;
        }
      }
    }
  }

  // ----- setting up

  ghost predicate Among(active: seq<Module>, pre: seq<Module>) {
    forall i :: 0 <= i < |active| ==> active[i] in pre
  }

  lemma {:induction false} LinkStands(pre: seq<Module>, done: seq<Module>, rest: seq<Module>, limit: nat)
    requires Distinct(pre) && Distinct(done + rest) && Among(done + rest, pre)
    ensures Link(Standing(pre, done, [], limit), rest) == Fine(Standing(pre, done + rest, [], limit))
    decreases |rest|
  {
    if rest == [] {
      assert done + rest == done;
    } else {
      assert (done + rest)[|done|] == rest[0];
      assert rest[0] !in done by {
        assert forall i :: 0 <= i < |done| ==> (done + rest)[i] == done[i];
      }
      LinkOne(pre, done, rest[0], limit);
      assert done + rest == (done + [rest[0]]) + rest[1..];
      LinkStands(pre, done + [rest[0]], rest[1..], limit);
    }
  }

  lemma CacheLinked(pre: seq<Module>, done: seq<Module>, m: Module, k: nat)
    requires Distinct(pre) && k < |pre| && pre[k] == m
    ensures CacheOf(pre, done + [m], []) == Put(CacheOf(pre, done, []), k, ForCache(m))
    ensures !m.named ==> CacheOf(pre, done + [m], []) == CacheOf(pre, done, [])
  {
    forall i: nat | i < |pre| ensures MergerAt(pre, done + [m], [], i) == if i == k then ForCache(m) else MergerAt(pre, done, [], i) {
      if i != k {
        assert pre[i].id != m.id;
      }
    }
  }

  lemma ReversedSnoc(ms: seq<Module>, m: Module)
    ensures Reversed(ms + [m]) == [m] + Reversed(ms)
  {
    assert (ms + [m])[..|ms|] == ms;
  }

  lemma {:induction false} NotInReversed(ms: seq<Module>, m: Module)
    requires m !in ms
    ensures m !in Reversed(ms)
  {
    if ms != [] {
      NotInReversed(ms[..|ms| - 1], m);
    }
  }

  lemma AddKnown(t: Table, m: Module)
    requires m.id in t.index && !HasNext(t, m)
    ensures Add(t, m) == Fine(t.(linked := [m] + t.linked, cache := if m.named then Put(t.cache, t.index[m.id], m.merger) else t.cache))
  {
  }

  lemma LinkOne(pre: seq<Module>, done: seq<Module>, m: Module, limit: nat)
    requires Distinct(pre) && m in pre && m !in done
    ensures Add(Standing(pre, done, [], limit), m) == Fine(Standing(pre, done + [m], [], limit))
  {
    PositionsAre(pre);
    assert pre + [] == pre;
    var k :| 0 <= k < |pre| && pre[k] == m;
    ReversedSnoc(done, m);
    NotInReversed(done, m);
    assert Reversed([]) + Reversed(done) == Reversed(done) && Reversed([]) + ([m] + Reversed(done)) == [m] + Reversed(done);
    CacheLinked(pre, done, m, k);
    AddKnown(Standing(pre, done, [], limit), m);
  }

  lemma SetupStands(pre: seq<Module>, active: seq<Module>, limit: nat)
    requires Distinct(pre) && Distinct(active) && Among(active, pre)
    ensures Link(Blank(pre, limit), active) == Fine(Standing(pre, active, [], limit))
  {
    assert pre + [] == pre && [] + active == active;
    assert CacheOf(pre, [], []) == map[];
    assert Reversed([]) + Reversed([]) == [];
    assert Blank(pre, limit) == Standing(pre, [], [], limit);
    LinkStands(pre, [], active, limit);
  }

  // ----- loading and unloading, last in first out

  datatype Op = Load(m: Module) | UnloadTop

  /** What is loaded after the operations; at the limit nothing more is. */
  function Stack(ops: seq<Op>, limit: nat): (ds: seq<Module>)
    ensures |ds| <= limit
  {
    if ops == [] then []
    else
      var ds, op := Stack(ops[..|ops| - 1], limit), ops[|ops| - 1];
      match op
      case Load(m) => if |ds| < limit then ds + [m] else ds
      case UnloadTop => if ds == [] then ds else ds[..|ds| - 1]
  }

  function StepOp(t: Table, op: Op, ds: seq<Module>): Table {
    match op
    case Load(m) => var r := AddLoaded(t, m); if r.Fine? then r.table else t
    case UnloadTop => if ds == [] then t else RemoveLoaded(t, ds[|ds| - 1])
  }

  function Run(t: Table, ops: seq<Op>): Table {
    if ops == [] then t
    else var ops' := ops[..|ops| - 1]; StepOp(Run(t, ops'), ops[|ops| - 1], Stack(ops', t.limit))
  }

  /** No module is loaded that is there already. */
  ghost predicate NoDoubles(pre: seq<Module>, ops: seq<Op>, limit: nat) {
    ops != [] ==>
      var ops', op := ops[..|ops| - 1], ops[|ops| - 1];
      && NoDoubles(pre, ops', limit)
      && (op.Load? ==> Fresh(pre + Stack(ops', limit), op.m))
  }

  lemma PositionsSnoc(ms: seq<Module>, m: Module)
    ensures Positions(ms + [m]) == Positions(ms)[m.id := |ms|]
  {
    assert (ms + [m])[..|ms|] == ms;
  }

  lemma CacheLoaded(pre: seq<Module>, active: seq<Module>, ds: seq<Module>, m: Module)
    ensures CacheOf(pre, active, ds + [m]) == Put(CacheOf(pre, active, ds), |pre| + |ds|, ForCache(m))
    ensures !m.named ==> CacheOf(pre, active, ds + [m]) == CacheOf(pre, active, ds)
    ensures CacheOf(pre, active, ds) == CacheOf(pre, active, ds + [m]) - {|pre| + |ds|}
  {
    forall i: nat | i < |pre| + |ds| ensures MergerAt(pre, active, ds + [m], i) == MergerAt(pre, active, ds, i) {
    }
  }

  ghost predicate Fresh(ms: seq<Module>, m: Module) {
    forall i :: 0 <= i < |ms| ==> ms[i].id != m.id
  }

  lemma DistinctSnoc(ms: seq<Module>, m: Module)
    ensures Distinct(ms + [m]) <==> Distinct(ms) && Fresh(ms, m)
  {
    assert forall i :: 0 <= i < |ms| ==> (ms + [m])[i] == ms[i];
    assert (ms + [m])[|ms|] == m;
  }

  lemma {:induction false} NotPlaced(ms: seq<Module>, m: Module)
    requires Fresh(ms, m)
    ensures m.id !in Positions(ms)
  {
    if ms != [] {
      NotPlaced(ms[..|ms| - 1], m);
    }
  }

  lemma LoadOnTop(t: Table, m: Module)
    requires m.id !in t.index && t.dynamic < t.limit && t.total < t.slots && m.id !in t.stale && m !in t.linked
    ensures AddLoaded(t, m) == Fine(Table([m] + t.linked, t.loaded + [m], t.index[m.id := t.total],
                                          if m.named then Put(t.cache, t.total, m.merger) else t.cache,
                                          t.total + 1, t.dynamic + 1, t.limit, t.slots, t.stale))
  {
  }

  lemma CacheAfterLoad(pre: seq<Module>, active: seq<Module>, ds: seq<Module>, m: Module)
    ensures CacheOf(pre, active, ds + [m]) ==
            if m.named then Put(CacheOf(pre, active, ds), |pre + ds|, m.merger) else CacheOf(pre, active, ds)
  {
    CacheLoaded(pre, active, ds, m);
  }

  lemma FreshIsNew(pre: seq<Module>, active: seq<Module>, ds: seq<Module>, m: Module)
    requires Fresh(pre + ds, m) && Among(active, pre)
    ensures m !in Reversed(ds) + Reversed(active)
  {
    forall x | x in ds ensures x != m {
      var i :| 0 <= i < |ds| && ds[i] == x;
      assert (pre + ds)[|pre| + i] == x;
    }
    forall x | x in active ensures x != m {
      var k :| 0 <= k < |pre| && pre[k] == x;
      assert (pre + ds)[k] == x;
    }
    NotInReversed(ds, m);
    NotInReversed(active, m);
  }

  lemma LoadStands(pre: seq<Module>, active: seq<Module>, ds: seq<Module>, m: Module, limit: nat)
    requires Fresh(pre + ds, m) && Among(active, pre) && |ds| < limit
    ensures AddLoaded(Standing(pre, active, ds, limit), m) == Fine(Standing(pre, active, ds + [m], limit))
  {
    StandingWith(pre, active, ds, m, limit);
    PositionsSnoc(pre + ds, m);
    CacheAfterLoad(pre, active, ds, m);
    NotPlaced(pre + ds, m);
    var t := Standing(pre, active, ds, limit);
    assert t.total == |pre + ds| && t.loaded == pre + ds && t.index == Positions(pre + ds);
    FreshIsNew(pre, active, ds, m);
    LoadOnTop(t, m);
  }

  lemma {:induction false} WithoutLast(ms: seq<Module>, m: Module)
    requires Fresh(ms, m)
    ensures Without(ms + [m], m) == ms
  {
    if ms != [] {
      assert (ms + [m])[1..] == ms[1..] + [m];
      WithoutLast(ms[1..], m);
    }
  }

  lemma LastPlaced(ms: seq<Module>, m: Module)
    requires Fresh(ms, m)
    ensures m.id in Positions(ms + [m]) && Positions(ms + [m])[m.id] == |ms|
    ensures Positions(ms + [m]) - {m.id} == Positions(ms)
  {
    NotPlaced(ms, m);
    PositionsSnoc(ms, m);
  }

  lemma UnloadFromTop(t: Table, m: Module, linked: seq<Module>)
    requires t.linked == [m] + linked && m.id in t.index && t.total > 0
    ensures RemoveLoaded(t, m) == Table(linked, Without(t.loaded, m), t.index - {m.id}, t.cache - {t.index[m.id]},
                                        t.total - 1, t.dynamic - 1, t.limit, t.slots, t.stale)
  {
    assert ([m] + linked)[1..] == linked && ([m] + linked)[0] == m;
  }

  /** The table with one more module loaded. */
  lemma StandingWith(pre: seq<Module>, active: seq<Module>, ds: seq<Module>, m: Module, limit: nat)
    ensures Standing(pre, active, ds + [m], limit)
         == Table([m] + (Reversed(ds) + Reversed(active)), pre + ds + [m], Positions(pre + ds + [m]), CacheOf(pre, active, ds + [m]),
                  |pre + ds| + 1, |ds| + 1, limit, |pre| + limit + 1, {})
  {
    Assoc(pre, ds, [m]);
    ReversedSnoc(ds, m);
    Assoc([m], Reversed(ds), Reversed(active));
  }

  lemma UnloadStands(pre: seq<Module>, active: seq<Module>, ds: seq<Module>, m: Module, limit: nat)
    requires Fresh(pre + ds, m)
    ensures RemoveLoaded(Standing(pre, active, ds + [m], limit), m) == Standing(pre, active, ds, limit)
  {
    StandingWith(pre, active, ds, m, limit);
    LastPlaced(pre + ds, m);
    WithoutLast(pre + ds, m);
    CacheLoaded(pre, active, ds, m);
    UnloadFromTop(Standing(pre, active, ds + [m], limit), m, Reversed(ds) + Reversed(active));
  }

  /** One operation, and what is loaded before and after it. */
  lemma StepStands(pre: seq<Module>, active: seq<Module>, op: Op, ds: seq<Module>, ds': seq<Module>, limit: nat)
    requires Distinct(pre + ds) && Among(active, pre) && |ds| <= limit && (op.Load? ==> Fresh(pre + ds, op.m))
    requires ds' == if op.Load? then (if |ds| < limit then ds + [op.m] else ds) else if ds == [] then ds else ds[..|ds| - 1]
    ensures StepOp(Standing(pre, active, ds, limit), op, ds) == Standing(pre, active, ds', limit)
    ensures Distinct(pre + ds')
  {
    if op.Load? {
      if |ds| < limit {
        LoadStands(pre, active, ds, op.m, limit);
        assert pre + (ds + [op.m]) == (pre + ds) + [op.m];
        DistinctSnoc(pre + ds, op.m);
      } else {
        NotPlaced(pre + ds, op.m);
      }
    } else if ds != [] {
      var n := |ds| - 1;
      assert ds == ds[..n] + [ds[n]] && pre + ds == (pre + ds[..n]) + [ds[n]];
      DistinctSnoc(pre + ds[..n], ds[n]);
      UnloadStands(pre, active, ds[..n], ds[n], limit);
    }
  }

  /** Under loading and unloading last in first out, the whole table is what the modules loaded say. */
  lemma {:induction false} TableStands(pre: seq<Module>, active: seq<Module>, ops: seq<Op>, limit: nat)
    requires Distinct(pre) && Among(active, pre) && NoDoubles(pre, ops, limit)
    ensures Run(Standing(pre, active, [], limit), ops) == Standing(pre, active, Stack(ops, limit), limit)
    ensures Distinct(pre + Stack(ops, limit))
    decreases |ops|
  {
    if ops == [] {
      assert pre + [] == pre;
    } else {
      var ops', op := ops[..|ops| - 1], ops[|ops| - 1];
      TableStands(pre, active, ops', limit);
      StepStands(pre, active, op, Stack(ops', limit), Stack(ops, limit), limit);
    }
  }

  // ----- what this means for slots and merging

  /** A configuration value: given, or made by a merge function. */
  datatype Value = Given(key: nat) | Merged(with: nat, base: Value, over: Value)

  /** A slot merged by the function `df`, as `ap_merge_per_dir_configs` does. */
  function MergeWith(df: Option<nat>, base: Option<Value>, over: Option<Value>): Option<Value> {
    if over.None? then base
    else if df.Some? && base.Some? then Some(Merged(df.value, base.value, over.value))
    else over
  }

  function Cached(t: Table, i: nat): Option<nat> {
    if i in t.cache then Some(t.cache[i]) else None
  }

  /** Slots are numbered without gap or repeat, the vectors are long enough for all modules and an end
      mark, every linked module that is named finds its own merge function in its own slot, and no other slot
      has one. */
  ghost predicate Sound(t: Table, all: seq<Module>) {
    && t.total == |all| && t.loaded == all && |all| + 1 <= t.slots
    && (forall i :: 0 <= i < |all| ==> all[i].id in t.index && t.index[all[i].id] == i)
    && (forall id :: id in t.index ==> t.index[id] < t.total)
    && (forall i :: 0 <= i < |t.linked| ==>
          t.linked[i].id in t.index && Cached(t, t.index[t.linked[i].id]) == ForCache(t.linked[i]))
    && (forall i :: i in t.cache ==> HasSlot(t, t.linked, i))
  }

  /** One of the modules has the slot `i`. */
  ghost predicate HasSlot(t: Table, ms: seq<Module>, i: nat) {
    exists k :: 0 <= k < |ms| && ms[k].id in t.index && t.index[ms[k].id] == i
  }

  lemma {:induction false} ReversedIn(ms: seq<Module>, k: nat)
    requires k < |Reversed(ms)|
    ensures Reversed(ms)[k] in ms
  {
    var n := |ms| - 1;
    if k > 0 {
      ReversedIn(ms[..n], k - 1);
    }
  }

  lemma LinkedIsPlaced(pre: seq<Module>, active: seq<Module>, ds: seq<Module>, k: nat)
    requires Among(active, pre) && k < |Reversed(ds) + Reversed(active)|
    ensures var m := (Reversed(ds) + Reversed(active))[k];
            exists i :: 0 <= i < |pre + ds| && (pre + ds)[i] == m && MergerAt(pre, active, ds, i) == ForCache(m)
  {
    var m := (Reversed(ds) + Reversed(active))[k];
    if k < |Reversed(ds)| {
      ReversedIn(ds, k);
      var i :| 0 <= i < |ds| && ds[i] == m;
      assert (pre + ds)[|pre| + i] == m;
    } else {
      ReversedIn(active, k - |Reversed(ds)|);
      var j :| 0 <= j < |active| && active[j] == m;
      var i :| 0 <= i < |pre| && pre[i] == m;
      assert (pre + ds)[i] == m;
    }
  }

  lemma StandingSound(pre: seq<Module>, active: seq<Module>, ds: seq<Module>, limit: nat)
    requires Distinct(pre + ds) && Among(active, pre) && |ds| <= limit
    ensures Sound(Standing(pre, active, ds, limit), pre + ds)
  {
    PositionsAre(pre + ds);
    LinkedFindTheirs(pre, active, ds, limit);
    CachedAreLinked(pre, active, ds, limit);
  }

  lemma LinkedFindTheirs(pre: seq<Module>, active: seq<Module>, ds: seq<Module>, limit: nat)
    requires Distinct(pre + ds) && Among(active, pre)
    ensures var t := Standing(pre, active, ds, limit);
            forall k :: 0 <= k < |t.linked| ==>
              t.linked[k].id in t.index && Cached(t, t.index[t.linked[k].id]) == ForCache(t.linked[k])
  {
    var t, all := Standing(pre, active, ds, limit), pre + ds;
    PositionsAre(all);
    forall k | 0 <= k < |t.linked|
      ensures t.linked[k].id in t.index && Cached(t, t.index[t.linked[k].id]) == ForCache(t.linked[k])
    {
      LinkedIsPlaced(pre, active, ds, k);
      var i :| 0 <= i < |all| && all[i] == t.linked[k] && MergerAt(pre, active, ds, i) == ForCache(t.linked[k]);
    }
  }

  lemma CachedAreLinked(pre: seq<Module>, active: seq<Module>, ds: seq<Module>, limit: nat)
    requires Distinct(pre + ds)
    ensures var t := Standing(pre, active, ds, limit); forall i :: i in t.cache ==> HasSlot(t, t.linked, i)
  {
    var t, all := Standing(pre, active, ds, limit), pre + ds;
    PositionsAre(all);
    forall i | i in t.cache ensures HasSlot(t, t.linked, i) {
      CachedIsLinked(pre, active, ds, i);
      var k :| 0 <= k < |t.linked| && t.linked[k] == all[i];
    }
  }

  lemma CachedIsLinked(pre: seq<Module>, active: seq<Module>, ds: seq<Module>, i: nat)
    requires i < |pre + ds| && MergerAt(pre, active, ds, i).Some?
    ensures (pre + ds)[i] in Reversed(ds) + Reversed(active)
  {
    if i < |pre| {
      var j :| 0 <= j < |active| && active[j] == pre[i];
      InReversed(active, j);
    } else {
      InReversed(ds, i - |pre|);
    }
  }

  /** After the set-up and any loading and unloading, last in first out, the table is sound. */
  lemma TableSound(pre: seq<Module>, active: seq<Module>, ops: seq<Op>, limit: nat)
    requires Distinct(pre) && Distinct(active) && Among(active, pre) && NoDoubles(pre, ops, limit)
    ensures Link(Blank(pre, limit), active).Fine?
    ensures Sound(Run(Link(Blank(pre, limit), active).table, ops), pre + Stack(ops, limit))
  {
    SetupStands(pre, active, limit);
    TableStands(pre, active, ops, limit);
    StandingSound(pre, active, Stack(ops, limit), limit);
  }

  /** What merging gives where there is no merge function: the newer value if there is one. */
  function Overlaid(base: seq<Option<Value>>, over: seq<Option<Value>>, n: nat): (r: seq<Option<Value>>)
    requires n <= |base| && n <= |over|
    ensures |r| == n
  {
    seq(n, i requires 0 <= i < n => MergeWith(None, base[i], over[i]))
  }

  /** The merge module by module, along a list. */
  function MergeAlong(t: Table, ms: seq<Module>, base: seq<Option<Value>>, over: seq<Option<Value>>): (r: seq<Option<Value>>)
    requires t.total <= |base| && t.total <= |over|
    ensures |r| == t.total
  {
    if ms == [] then Overlaid(base, over, t.total)
    else
      var r, m := MergeAlong(t, ms[1..], base, over), ms[0];
      if m.id in t.index && t.index[m.id] < t.total then
        var i := t.index[m.id];
        r[i := MergeWith(m.merger, base[i], over[i])]
      else r
  }

  /** The first module of the list with the slot `i`. */
  function ModuleAt(t: Table, ms: seq<Module>, i: nat): (m: Option<Module>)
    ensures m.Some? ==> m.value in ms && m.value.id in t.index && t.index[m.value.id] == i
    ensures m.None? ==> !HasSlot(t, ms, i)
  {
    if ms == [] then None
    else if ms[0].id in t.index && t.index[ms[0].id] == i then Some(ms[0])
    else
      assert HasSlot(t, ms, i) ==> HasSlot(t, ms[1..], i) by {
        assert forall k :: 1 <= k < |ms| ==> ms[k] == ms[1..][k - 1];
      }
      ModuleAt(t, ms[1..], i)
  }

  lemma {:induction false} AlongIsByModule(t: Table, ms: seq<Module>, base: seq<Option<Value>>, over: seq<Option<Value>>, i: nat)
    requires t.total <= |base| && t.total <= |over| && i < t.total
    ensures var m := ModuleAt(t, ms, i);
            MergeAlong(t, ms, base, over)[i] == MergeWith(if m.Some? then m.value.merger else None, base[i], over[i])
  {
    if ms != [] {
      AlongIsByModule(t, ms[1..], base, over, i);
    }
  }

  lemma CacheIsByModule(t: Table, all: seq<Module>, i: nat)
    requires Sound(t, all)
    ensures var m := ModuleAt(t, t.linked, i); Cached(t, i) == if m.Some? then ForCache(m.value) else None
  {
    var m := ModuleAt(t, t.linked, i);
    if m.Some? {
      var k :| 0 <= k < |t.linked| && t.linked[k] == m.value;
    }
  }

  /** Every configuration is merged at the slot as by going along the list. */
  ghost predicate MergedAlike(t: Table, i: nat)
    requires i < t.total <= t.slots
  {
    forall base: seq<Option<Value>>, over: seq<Option<Value>> :: |base| == |over| == t.slots ==>
      MergeWith(Cached(t, i), base[i], over[i]) == MergeAlong(t, t.linked, base, over)[i]
  }

  /** Merging slot by slot through the cache is merging module by module along the linked list, if and only if
      the module linked at the slot has no merge function or is named. */
  lemma MergeByCache(t: Table, all: seq<Module>, i: nat)
    requires Sound(t, all) && i < t.total
    ensures var m := ModuleAt(t, t.linked, i);
            MergedAlike(t, i) <==> (m.Some? && m.value.merger.Some? ==> m.value.named)
  {
    var m := ModuleAt(t, t.linked, i);
    CacheIsByModule(t, all, i);
    if m.Some? && m.value.merger.Some? && !m.value.named {
      var vs := seq(t.slots, k => Some(Given(0)));
      AlongIsByModule(t, t.linked, vs, vs, i);
      assert MergeWith(Cached(t, i), vs[i], vs[i]) != MergeAlong(t, t.linked, vs, vs)[i];
    } else {
      forall base: seq<Option<Value>>, over: seq<Option<Value>> | |base| == |over| == t.slots
        ensures MergeWith(Cached(t, i), base[i], over[i]) == MergeAlong(t, t.linked, base, over)[i]
      {
        AlongIsByModule(t, t.linked, base, over, i);
      }
    }
  }

  // ----- a slot through a chain of directories

  /** What a slot comes to through a chain of configurations, the outermost first, merged one into the other. */
  function Chained(df: Option<nat>, vs: seq<Option<Value>>): Option<Value> {
    if vs == [] then None else MergeWith(df, Chained(df, vs[..|vs| - 1]), vs[|vs| - 1])
  }

  /** The values that are set, in order. */
  function SetValues(vs: seq<Option<Value>>): seq<Value> {
    if vs == [] then [] else SetValues(vs[..|vs| - 1]) + if vs[|vs| - 1].Some? then [vs[|vs| - 1].value] else []
  }

  /** `f` applied from the outermost value inwards: the older value as base, the newer as the one that overrides it. */
  function Folded(f: nat, vs: seq<Value>): Value
    requires vs != []
  {
    if |vs| == 1 then vs[0] else Merged(f, Folded(f, vs[..|vs| - 1]), vs[|vs| - 1])
  }

  /** Where no directory sets anything there is nothing; without a merge function the innermost value stands; with
      one, the values that are set are folded by it from the outermost inwards. */
  lemma {:induction false} ChainIs(df: Option<nat>, vs: seq<Option<Value>>)
    ensures var given := SetValues(vs);
            Chained(df, vs) ==
            if given == [] then None
            else if df.None? then Some(given[|given| - 1])
            else Some(Folded(df.value, given))
    decreases |vs|
  {
    if vs != [] {
      var p, v := vs[..|vs| - 1], vs[|vs| - 1];
      ChainIs(df, p);
      if v.Some? {
        assert SetValues(vs)[..|SetValues(vs)| - 1] == SetValues(p);
      } else {
        assert SetValues(vs) == SetValues(p);
      }
    }
  }

  /** One directory more that sets the slot. */
  lemma {:induction false} ChainGoesOn(df: Option<nat>, vs: seq<Option<Value>>, v: Value)
    ensures Chained(df, vs + [Some(v)]) ==
            if df.Some? && SetValues(vs) != [] then Some(Merged(df.value, Folded(df.value, SetValues(vs)), v)) else Some(v)
  {
    assert (vs + [Some(v)])[..|vs|] == vs;
    ChainIs(df, vs);
  }

  lemma UnloadThenLoad(t: Table, d: Module, m: Module)
    requires d in t.linked && d.id in t.index && m.id !in t.index && t.dynamic <= t.limit && 0 < t.total <= t.slots
    ensures var r := AddLoaded(RemoveLoaded(t, d), m);
            r.Fine? && r.table.index == (t.index - {d.id})[m.id := t.total - 1]
  {
  }

  /** What is used of the state `Standing`. */
  ghost predicate Stands(t: Table, pre: seq<Module>, ds: seq<Module>) {
    && t.index == Positions(pre + ds) && t.total == |pre + ds| <= t.slots && t.dynamic == |ds| <= t.limit
    && forall j :: 0 <= j < |ds| ==> ds[j] in t.linked
  }

  lemma StandingStands(pre: seq<Module>, active: seq<Module>, ds: seq<Module>, limit: nat)
    requires |ds| <= limit
    ensures Stands(Standing(pre, active, ds, limit), pre, ds)
  {
    forall j | 0 <= j < |ds| ensures ds[j] in Reversed(ds) + Reversed(active) {
      InReversed(ds, j);
    }
  }

  ghost predicate SharesSlot(index: map<nat, nat>, ds: seq<Module>, j: nat, m: Module) {
    exists i :: 0 <= i < |ds| && i != j && ds[i].id in index && m.id in index && index[ds[i].id] == index[m.id]
  }

  lemma SlotsAfterUnload(t: Table, pre: seq<Module>, ds: seq<Module>, j: nat, m: Module)
    requires Stands(t, pre, ds) && Distinct(pre + ds) && j < |ds| && Fresh(pre + ds, m)
    ensures var r := AddLoaded(RemoveLoaded(t, ds[j]), m);
            r.Fine? && (SharesSlot(r.table.index, ds, j, m) <==> j != |ds| - 1)
  {
    var all := pre + ds;
    PositionsAre(all);
    assert all[|pre| + j] == ds[j];
    NotPlaced(all, m);
    UnloadThenLoad(t, ds[j], m);
    SlotsApart(all, |pre|, ds, j, m);
  }

  /** A module is unloaded from the table as it is after any run, and another loaded after it: the slots stay
      apart exactly when the one unloaded was the last one loaded. */
  lemma UnloadOutOfOrder(pre: seq<Module>, active: seq<Module>, ops: seq<Op>, limit: nat, j: nat, m: Module)
    requires Distinct(pre) && Distinct(active) && Among(active, pre) && NoDoubles(pre, ops, limit)
    requires j < |Stack(ops, limit)| && Fresh(pre + Stack(ops, limit), m)
    ensures Link(Blank(pre, limit), active).Fine?
    ensures var ds, t := Stack(ops, limit), Run(Link(Blank(pre, limit), active).table, ops);
            var r := AddLoaded(RemoveLoaded(t, ds[j]), m);
            r.Fine? && (SharesSlot(r.table.index, ds, j, m) <==> j != |ds| - 1)
  {
    var ds := Stack(ops, limit);
    SetupStands(pre, active, limit);
    TableStands(pre, active, ops, limit);
    StandingStands(pre, active, ds, limit);
    SlotsAfterUnload(Standing(pre, active, ds, limit), pre, ds, j, m);
  }

  /** After any run a module that is new is refused, with the limit as the reason, if and only if as many are loaded as
      the limit allows, and one that is there already is always accepted; slots never run out. */
  lemma LoadsUpToLimit(pre: seq<Module>, active: seq<Module>, ops: seq<Op>, limit: nat, m: Module)
    requires Distinct(pre) && Distinct(active) && Among(active, pre) && NoDoubles(pre, ops, limit)
    ensures Link(Blank(pre, limit), active).Fine?
    ensures var ds, r := Stack(ops, limit), AddLoaded(Run(Link(Blank(pre, limit), active).table, ops), m);
            && (r == LimitReached <==> Fresh(pre + ds, m) && |ds| == limit)
            && (r.Fine? <==> !Fresh(pre + ds, m) || |ds| < limit)
  {
    var all := pre + Stack(ops, limit);
    SetupStands(pre, active, limit);
    TableStands(pre, active, ops, limit);
    PositionsAre(all);
    if Fresh(all, m) {
      NotPlaced(all, m);
    }
  }

  lemma SlotsApart(all: seq<Module>, n: nat, ds: seq<Module>, j: nat, m: Module)
    requires Distinct(all) && j < |ds| && Fresh(all, m) && n + |ds| == |all| && all[n..] == ds
    ensures SharesSlot((Positions(all) - {ds[j].id})[m.id := |all| - 1], ds, j, m) <==> j != |ds| - 1
  {
    var index := (Positions(all) - {ds[j].id})[m.id := |all| - 1];
    PositionsAre(all);
    forall i | 0 <= i < |ds| && i != j ensures ds[i].id in index && index[ds[i].id] == n + i {
      assert all[n + i] == ds[i] && all[n + j] == ds[j];
    }
    assert j != |ds| - 1 ==> ds[|ds| - 1].id in index;
  }

  lemma {:induction false} ReversedAt(ms: seq<Module>, k: nat)
    requires k < |ms|
    ensures |Reversed(ms)| == |ms| && Reversed(ms)[k] == ms[|ms| - 1 - k]
    decreases |ms|
  {
    if |ms| > 1 {
      ReversedAt(ms[..|ms| - 1], if k > 0 then k - 1 else 0);
    }
  }

  lemma {:induction false} WithoutIsGone(ms: seq<Module>, m: Module, k: nat)
    requires k < |ms| && ms[k] == m && forall i :: 0 <= i < |ms| && i != k ==> ms[i] != m
    ensures m !in Without(ms, m)
  {
    assert forall i :: 0 <= i < |ms[1..]| ==> ms[1..][i] == ms[i + 1];
    if k > 0 {
      WithoutIsGone(ms[1..], m, k - 1);
    }
  }

  /** A module taken out of the table and added once more is in the list again if and only if it was on top or last:
      one from the middle has its `next` still set. */
  lemma AddedAgain(t: Table, m: Module, k: nat)
    requires k < |t.linked| && t.linked[k] == m && (forall i :: 0 <= i < |t.linked| && i != k ==> t.linked[i] != m)
    requires m.id in t.index && 0 < t.total <= t.slots && 0 < t.dynamic <= t.limit && m.id !in t.stale
    ensures var r := AddLoaded(RemoveLoaded(t, m), m);
            r.Fine? && (m in r.table.linked <==> k == 0 || k == |t.linked| - 1)
  {
    WithoutIsGone(t.linked, m, k);
    var u := RemoveLoaded(t, m);
    assert m !in u.linked && m.id !in u.index;
    assert m.id in u.stale <==> !(t.linked[0] == m || t.linked[|t.linked| - 1] == m);
  }

  /** What is linked when `ds` are loaded on top of `active`, by place. */
  lemma LinkedAt(active: seq<Module>, ds: seq<Module>, i: nat)
    requires i < |ds| + |active|
    ensures var linked := Reversed(ds) + Reversed(active);
            && |linked| == |ds| + |active|
            && linked[i] == if i < |ds| then ds[|ds| - 1 - i] else active[|active| - 1 - (i - |ds|)]
  {
    if ds != [] {
      ReversedAt(ds, if i < |ds| then i else 0);
    }
    if active != [] {
      ReversedAt(active, if i < |ds| then 0 else i - |ds|);
    }
  }

  /** Over every run: a loaded module is unloaded and loaded once more; it is linked again if and only if it was the
      last one loaded, or the first with no prelinked one active. */
  lemma LoadedAgain(pre: seq<Module>, active: seq<Module>, ops: seq<Op>, limit: nat, j: nat)
    requires Distinct(pre) && Distinct(active) && Among(active, pre) && NoDoubles(pre, ops, limit) && j < |Stack(ops, limit)|
    ensures Link(Blank(pre, limit), active).Fine?
    ensures var ds, t := Stack(ops, limit), Run(Link(Blank(pre, limit), active).table, ops);
            var r := AddLoaded(RemoveLoaded(t, ds[j]), ds[j]);
            r.Fine? && (ds[j] in r.table.linked <==> j == |ds| - 1 || (j == 0 && active == []))
  {
    var ds := Stack(ops, limit);
    SetupStands(pre, active, limit);
    TableStands(pre, active, ops, limit);
    StandingAgain(pre, active, ds, limit, j);
  }

  lemma LinkedOnce(pre: seq<Module>, active: seq<Module>, ds: seq<Module>, j: nat)
    requires Distinct(pre + ds) && Among(active, pre) && j < |ds|
    ensures var linked, k := Reversed(ds) + Reversed(active), |ds| - 1 - j;
            && |linked| == |ds| + |active| && linked[k] == ds[j]
            && forall i :: 0 <= i < |linked| && i != k ==> linked[i] != ds[j]
  {
    var linked, k := Reversed(ds) + Reversed(active), |ds| - 1 - j;
    LinkedAt(active, ds, k);
    forall i | 0 <= i < |linked| && i != k ensures linked[i] != ds[j] {
      LinkedAt(active, ds, i);
      OtherLoaded(pre, active, ds, j, i);
    }
  }

  lemma StandingAgain(pre: seq<Module>, active: seq<Module>, ds: seq<Module>, limit: nat, j: nat)
    requires Distinct(pre + ds) && Among(active, pre) && j < |ds| <= limit
    ensures var r := AddLoaded(RemoveLoaded(Standing(pre, active, ds, limit), ds[j]), ds[j]);
            r.Fine? && (ds[j] in r.table.linked <==> j == |ds| - 1 || (j == 0 && active == []))
  {
    PositionsAre(pre + ds);
    LinkedOnce(pre, active, ds, j);
    assert (pre + ds)[|pre| + j] == ds[j];
    AddedAgain(Standing(pre, active, ds, limit), ds[j], |ds| - 1 - j);
  }

  lemma OtherLoaded(pre: seq<Module>, active: seq<Module>, ds: seq<Module>, j: nat, i: nat)
    requires Distinct(pre + ds) && Among(active, pre) && j < |ds| && i < |ds| + |active| && i != |ds| - 1 - j
    ensures (if i < |ds| then ds[|ds| - 1 - i] else active[|active| - 1 - (i - |ds|)]) != ds[j]
  {
    var all := pre + ds;
    assert all[|pre| + j] == ds[j];
    if i < |ds| {
      assert all[|pre| + |ds| - 1 - i] == ds[|ds| - 1 - i];
    } else {
      var x := active[|active| - 1 - (i - |ds|)];
      var n :| 0 <= n < |pre| && pre[n] == x;
      assert all[n] == x;
    }
  }

  lemma {:induction false} InReversed(ms: seq<Module>, j: nat)
    requires j < |ms|
    ensures ms[j] in Reversed(ms)
  {
    var n := |ms| - 1;
    if j < n {
      InReversed(ms[..n], j);
    }
  }

  // ----- the table as it is changed

  lemma RunSnoc(t: Table, ops: seq<Op>, op: Op)
    ensures Run(t, ops + [op]) == StepOp(Run(t, ops), op, Stack(ops, t.limit))
  {
    assert (ops + [op])[..|ops|] == ops;
  }

  lemma {:induction false} LinkLimit(t: Table, ms: seq<Module>)
    requires Link(t, ms).Fine?
    ensures Link(t, ms).table.limit == t.limit
    decreases |ms|
  {
    if ms != [] {
      LinkLimit(Add(t, ms[0]).table, ms[1..]);
    }
  }

  lemma SetupSound(pre: seq<Module>, active: seq<Module>, limit: nat)
    requires Distinct(pre) && Distinct(active) && Among(active, pre)
    ensures Link(Blank(pre, limit), active).Fine?
    ensures var t := Link(Blank(pre, limit), active).table; Run(t, []) == t && Sound(t, pre + Stack([], limit))
  {
    TableSound(pre, active, [], limit);
  }

  lemma RemoveIs(t: Table, m: Module, at: nat)
    requires m in t.linked && m.id in t.index && t.total > 0
    requires at < |t.linked| && (at == 0 <==> t.linked[0] == m) && Without(t.linked, m) == t.linked[..at] + t.linked[at + 1..]
    ensures Remove(t, m) ==
            Table(t.linked[..at] + t.linked[at + 1..], t.loaded, t.index - {m.id}, t.cache - {t.index[m.id]}, t.total - 1, t.dynamic - 1,
                  t.limit, t.slots, if at > 0 && t.linked[|t.linked| - 1] != m then t.stale + {m.id} else t.stale)
  {
  }

  /** Unloading the module loaded last is the next step of the run. */
  lemma UnloadIsNext(pre: seq<Module>, active: seq<Module>, ops: seq<Op>, limit: nat)
    requires Link(Blank(pre, limit), active).Fine? && Stack(ops, limit) != []
    ensures var t, ds := Link(Blank(pre, limit), active).table, Stack(ops, limit);
            Run(t, ops + [UnloadTop]) == RemoveLoaded(Run(t, ops), ds[|ds| - 1])
  {
    LinkLimit(Blank(pre, limit), active);
    RunSnoc(Link(Blank(pre, limit), active).table, ops, UnloadTop);
  }

  class Registry {
    var linked: seq<Module>
    var loaded: seq<Module>
    var index: map<nat, nat>
    var cache: map<nat, nat>
    var total: nat
    var dynamic: int
    var stale: set<nat>
    const limit: nat
    const slots: nat

    function Now(): Table
      reads this
    {
      Table(linked, loaded, index, cache, total, dynamic, limit, slots, stale)
    }

    /** What was set up, and what has been loaded and unloaded since. */
    ghost var pre: seq<Module>
    ghost var active: seq<Module>
    ghost var ops: seq<Op>

    ghost predicate Valid()
      reads this
    {
      && Distinct(pre) && Distinct(active) && Among(active, pre)
      && Link(Blank(pre, limit), active).Fine? && Now() == Run(Link(Blank(pre, limit), active).table, ops)
      && (NoDoubles(pre, ops, limit) ==> Sound(Now(), pre + Stack(ops, limit)))
    }

    /** `ap_setup_prelinked_modules` */
    constructor (pre: seq<Module>, active: seq<Module>, limit: nat)
      requires Distinct(pre) && Distinct(active) && Among(active, pre)
      ensures Valid() && this.pre == pre && this.active == active && this.limit == limit && ops == []
    {
      this.pre, this.active, ops := pre, active, [];
      linked, loaded, cache, dynamic, stale := [], pre, map[], 0, {};
      this.limit, slots := limit, |pre| + limit + 1;
      index, total := map[], 0;
      new;
      SetUp(pre, active);
    }

    method SetUp(pre: seq<Module>, active: seq<Module>)
      requires Distinct(pre) && Distinct(active) && Among(active, pre)
      requires Now() == Blank(pre, limit).(index := map[], total := 0)
      requires this.pre == pre && this.active == active && ops == []
      modifies this`linked, this`index, this`cache, this`total, this`dynamic
      ensures Valid()
    {
      NumberModules(pre);
      SetupSound(pre, active, limit);
      LinkModules(active);
    }

    method NumberModules(pre: seq<Module>)
      requires index == map[] && total == 0
      modifies this`index, this`total
      ensures index == Positions(pre) && total == |pre|
    {
      while total < |pre|
        invariant total <= |pre| && index == Positions(pre[..total])
      {
        assert pre[..total + 1][..total] == pre[..total];
        index := index[pre[total].id := total];
        total := total + 1;
      }
      assert pre[..total] == pre;
    }

    method LinkModules(ms: seq<Module>)
      requires Link(Now(), ms).Fine?
      modifies this`linked, this`index, this`cache, this`total, this`dynamic
      ensures Now() == Link(old(Now()), ms).table
    {
      var i := 0;
      assert ms[0..] == ms;
      while i < |ms|
        invariant i <= |ms| && Link(Now(), ms[i..]) == Link(old(Now()), ms)
      {
        assert ms[i..][1..] == ms[i + 1..];
        var ok := AddModule(ms[i]);
        i := i + 1;
      }
    }

    /** `ap_add_module` */
    method AddModule(m: Module) returns (ok: bool)
      modifies this`linked, this`index, this`cache, this`total, this`dynamic
      ensures ok <==> Add(old(Now()), m).Fine?
      ensures Now() == if ok then Add(old(Now()), m).table else old(Now())
    {
      if m.id !in index {
        if dynamic >= limit || total >= slots {
          return false;
        }
        index := index[m.id := total];
        total := total + 1;
        dynamic := dynamic + 1;
      }
      if m.id !in stale && (m !in linked || linked[|linked| - 1] == m) {
        linked := [m] + linked;
      }
      if m.named {
        cache := Put(cache, index[m.id], m.merger);
      }
      ok := true;
    }

    /** `ap_add_loaded_module` */
    method AddLoadedModule(m: Module) returns (ok: bool)
      requires Valid()
      modifies this
      ensures Valid() && ops == old(ops) + [Load(m)] && pre == old(pre) && active == old(active)
      ensures ok <==> AddLoaded(old(Now()), m).Fine?
    {
      ok := AddModule(m);
      if ok {
        loaded := loaded + [m];
      }
      LinkLimit(Blank(pre, limit), active);
      RunSnoc(Link(Blank(pre, limit), active).table, ops, Load(m));
      Note(Load(m));
    }

    /** The operation has been done. */
    ghost method Note(op: Op)
      requires Distinct(pre) && Distinct(active) && Among(active, pre) && Link(Blank(pre, limit), active).Fine?
      requires Now() == Run(Link(Blank(pre, limit), active).table, ops + [op])
      modifies this`ops
      ensures Valid() && ops == old(ops) + [op]
    {
      ops := ops + [op];
      if NoDoubles(pre, ops, limit) {
        TableSound(pre, active, ops, limit);
      }
    }

    /** `ap_remove_module` */
    method RemoveModule(m: Module)
      modifies this`linked, this`index, this`cache, this`total, this`dynamic, this`stale
      ensures Now() == Remove(old(Now()), m)
    {
      if m.id !in index || total == 0 {
        return;
      }
      var at := FindLinked(linked, m);
      if at == |linked| {
        return;
      }
      RemoveIs(Now(), m, at);
      if at > 0 && linked[|linked| - 1] != m {
        stale := stale + {m.id};
      }
      linked := linked[..at] + linked[at + 1..];
      cache := cache - {index[m.id]};
      index := index - {m.id};
      total := total - 1;
      dynamic := dynamic - 1;
    }

    /** `ap_remove_loaded_module`, with the list of loaded modules closed up */
    method RemoveLoadedModule(mod: Module)
      modifies this`linked, this`loaded, this`index, this`cache, this`total, this`dynamic, this`stale
      ensures Now() == RemoveLoaded(old(Now()), mod)
    {
      RemoveModule(mod);
      loaded := CloseUp(loaded, mod);
    }

    /** The module loaded last removed: the next step of the run. */
    method UnloadLast(mod: Module)
      requires Valid() && Stack(ops, limit) != [] && mod == Stack(ops, limit)[|Stack(ops, limit)| - 1]
      modifies this
      ensures Valid() && ops == old(ops) + [UnloadTop] && pre == old(pre) && active == old(active)
    {
      UnloadIsNext(pre, active, ops, limit);
      RemoveLoadedModule(mod);
      Note(UnloadTop);
    }

    /** `ap_merge_per_dir_configs` */
    method MergePerDirConfigs(base: seq<Option<Value>>, over: seq<Option<Value>>) returns (conf: seq<Option<Value>>)
      requires |base| == |over| == slots && total <= slots
      ensures |conf| == total
      ensures forall i :: 0 <= i < total ==>
                conf[i] == if over[i].None? then base[i]
                           else if i !in cache || base[i].None? then over[i]
                           else Some(Merged(cache[i], base[i].value, over[i].value))
      ensures forall i :: 0 <= i < total ==> conf[i] == MergeWith(Cached(Now(), i), base[i], over[i])
    {
      conf := [];
      while |conf| < total
        invariant |conf| <= total
        invariant forall i :: 0 <= i < |conf| ==> conf[i] == MergeWith(Cached(Now(), i), base[i], over[i])
      {
        var i := |conf|;
        if over[i].None? {
          conf := conf + [base[i]];
        } else if i in cache && base[i].Some? {
          conf := conf + [Some(Merged(cache[i], base[i].value, over[i].value))];
        } else {
          conf := conf + [over[i]];
        }
      }
    }
  }

  /** What is left to do in closing the list up, once `done` says that the module has been passed. */
  function LeftToKeep(ms: seq<Module>, mod: Module, done: bool): seq<Module> {
    if done then ms else Without(ms, mod)
  }

  lemma KeepStep(kept: seq<Module>, ms: seq<Module>, mod: Module, done: bool, m2: nat)
    requires m2 < |ms|
    ensures kept + LeftToKeep(ms[m2..], mod, done) ==
            if ms[m2] == mod && !done then kept + LeftToKeep(ms[m2 + 1..], mod, true)
            else kept + [ms[m2]] + LeftToKeep(ms[m2 + 1..], mod, done)
  {
    var rest := ms[m2..];
    assert rest[1..] == ms[m2 + 1..];
    if !(ms[m2] == mod && !done) {
      assert LeftToKeep(rest, mod, done) == [ms[m2]] + LeftToKeep(rest[1..], mod, done);
    }
  }

  /** The loaded modules moved up over the first occurrence of one. */
  method CloseUp(ms: seq<Module>, mod: Module) returns (kept: seq<Module>)
    ensures kept == Without(ms, mod)
  {
    kept := [];
    var m2, done := 0, false;
    while m2 < |ms|
      invariant m2 <= |ms| && kept + LeftToKeep(ms[m2..], mod, done) == Without(ms, mod)
    {
      KeepStep(kept, ms, mod, done, m2);
      if ms[m2] == mod && !done {
        done := true;
      } else {
        kept := kept + [ms[m2]];
      }
      m2 := m2 + 1;
    }
    assert kept + [] == kept;
  }

  /** Where a module stands in the list, with what unlinking it there leaves; the length when it is not in it. */
  method FindLinked(ms: seq<Module>, m: Module) returns (at: nat)
    ensures m !in ms ==> at == |ms|
    ensures m in ms ==> at < |ms| && (at == 0 <==> ms[0] == m) && Without(ms, m) == ms[..at] + ms[at + 1..]
  {
    at := 0;
    while at < |ms| && ms[at] != m
      invariant at <= |ms| && m !in ms[..at] && (at > 0 ==> ms[0] != m)
    {
      assert ms[..at + 1] == ms[..at] + [ms[at]];
      at := at + 1;
    }
    if at == |ms| {
      assert ms[..at] == ms;
    } else {
      WithoutAt(ms, m, at);
    }
  }

  lemma {:induction false} WithoutAt(ms: seq<Module>, m: Module, at: nat)
    requires at < |ms| && ms[at] == m && m !in ms[..at]
    ensures Without(ms, m) == ms[..at] + ms[at + 1..]
  {
    if at > 0 {
      assert ms[0] == ms[..at][0];
      assert ms[1..][..at - 1] == ms[..at][1..];
      WithoutAt(ms[1..], m, at - 1);
    }
  }
}
