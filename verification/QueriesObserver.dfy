/**
  The multi-query observer of src/queries_observer.rs: results reconciled by
  cache key when the observed specs change, while executions started earlier
  are still writing to the slot buffer they were started with.
 */
module QueriesObservers {
  import opened Wrappers

  datatype QueryState =
    | Idle
    | Loading
    | Placeholder(data: int)
    | Refetching(data: int)
    | Success(data: int)
    | Stale(data: int)
    | Error(staleData: Option<int>)
  {
    function Data(): Option<int> {
      match this
      case Idle => None
      case Loading => None
      case Error(d) => d
      case Placeholder(d) => Some(d)
      case Refetching(d) => Some(d)
      case Success(d) => Some(d)
      case Stale(d) => Some(d)
    }
  }

  /** A state and the cache key whose cache entry or execution it shows. */
  datatype Shown = Shown(key: string, state: QueryState)

  datatype Spec = Spec(key: string, enabled: bool)

  /** One shared slot vector; `keys` are the specs it was created for. */
  datatype Buffer = Buffer(keys: seq<string>, slots: seq<Option<Shown>>)

  /** A spawned execution: the buffer and index it will write to. */
  datatype Task = Task(buffer: nat, idx: nat, key: string)

  /** The observer with every slot buffer it ever had and every execution it
      ever started; buffers are named by position. */
  datatype Observer = Observer(
    specs: seq<Spec>,
    results: seq<Shown>,
    current: nat,
    buffers: seq<Buffer>,
    tasks: seq<Task>)

  function Keys(specs: seq<Spec>): seq<string> {
    seq(|specs|, i requires 0 <= i < |specs| => specs[i].key)
  }

  /** `position`: the first index holding `key`, or the length. */
  function First(keys: seq<string>, key: string): (i: nat)
    ensures i <= |keys|
    ensures i < |keys| ==> keys[i] == key
    ensures forall j :: 0 <= j < i ==> keys[j] != key
  {
    if keys == [] || keys[0] == key then 0 else 1 + First(keys[1..], key)
  }

  // ----- reconciliation -----

  /** What spec `i` of the new list shows: a kept key takes the old result of
      its first old occurrence, once; later duplicates start over as idle; a
      new key shows the client's view. */
  ghost function Reconciled(o: Observer, specs: seq<Spec>, initial: string -> QueryState, i: nat): Shown
    requires i < |specs|
  {
    var key := specs[i].key;
    var j := First(Keys(o.specs), key);
    if j < |o.results| && j < |o.specs| then
      if First(Keys(specs), key) == i then o.results[j] else Shown(key, Idle)
    else Shown(key, initial(key))
  }

  ghost function ReconciledSlot(o: Observer, specs: seq<Spec>, i: nat): Option<Shown>
    requires i < |specs| && o.current < |o.buffers|
  {
    var j := First(Keys(o.specs), specs[i].key);
    var slots := o.buffers[o.current].slots;
    if j < |o.results| && j < |o.specs| && j < |slots| then slots[j] else None
  }

  /** What every spec of the new list shows, and its slot. */
  ghost function AllReconciled(o: Observer, specs: seq<Spec>, initial: string -> QueryState): (r: seq<Shown>)
    ensures |r| == |specs|
  {
    seq(|specs|, i requires 0 <= i < |specs| => Reconciled(o, specs, initial, i))
  }

  ghost function AllSlots(o: Observer, specs: seq<Spec>): (r: seq<Option<Shown>>)
    requires o.current < |o.buffers|
    ensures |r| == |specs|
  {
    seq(|specs|, i requires 0 <= i < |specs| => ReconciledSlot(o, specs, i))
  }

  /** Indices, below `n`, of specs whose key was not observed before. */
  ghost function NewIndices(o: Observer, specs: seq<Spec>, n: nat): seq<nat>
    requires n <= |specs|
  {
    if n == 0 then []
    else NewIndices(o, specs, n - 1) + (if IsNew(o, specs[n - 1]) then [n - 1] else [])
  }

  lemma {:induction false} NewIndicesIff(o: Observer, specs: seq<Spec>, n: nat, i: nat)
    requires n <= |specs|
    ensures i in NewIndices(o, specs, n) <==> i < n && IsNew(o, specs[i])
  {
    if n > 0 { NewIndicesIff(o, specs, n - 1, i); }
  }

  predicate IsNew(o: Observer, spec: Spec) {
    First(Keys(o.specs), spec.key) >= |o.specs|
  }

  /** Optimistic mark before an execution. */
  function Marked(s: Shown): Shown {
    s.(state := if s.state.Data().Some? then Refetching(s.state.Data().value) else Loading)
  }

  /** Mark and spawn the given indices, in order. */
  function RunIndices(o: Observer, indices: seq<nat>): Observer {
    if indices == [] then o
    else RunOne(RunIndices(o, indices[..|indices| - 1]), indices[|indices| - 1])
  }

  function RunOne(o: Observer, idx: nat): Observer {
    if idx >= |o.specs| || !o.specs[idx].enabled then o
    else
      o.(results := if idx < |o.results| then o.results[idx := Marked(o.results[idx])] else o.results,
         tasks := o.tasks + [Task(o.current, idx, o.specs[idx].key)])
  }

  /** An execution finishes: its state goes to its own buffer. */
  function Complete(o: Observer, task: Task, state: QueryState): Observer {
    if task.buffer < |o.buffers| && task.idx < |o.buffers[task.buffer].slots| then
      var b := o.buffers[task.buffer];
      o.(buffers := o.buffers[task.buffer := b.(slots := b.slots[task.idx := Some(Shown(task.key, state))])])
    else o
  }

  function Synced(slot: Option<Shown>, result: Shown): Shown {
    if slot.Some? then slot.value else result
  }

  function Sync(o: Observer): Observer
    requires o.current < |o.buffers|
  {
    var slots := o.buffers[o.current].slots;
    o.(results := seq(|o.results|, i requires 0 <= i < |o.results| =>
        if i < |slots| then Synced(slots[i], o.results[i]) else o.results[i]))
  }

  // ----- the reconciling loop -----

  method Position(keys: seq<string>, key: string) returns (i: nat)
    ensures i == First(keys, key)
  {
    i := 0;
    while i < |keys| && keys[i] != key
      invariant 0 <= i <= |keys|
      invariant forall j :: 0 <= j < i ==> keys[j] != key
    {
      i := i + 1;
    }
  }

  /** The loop of `set_specs`: taken results leave nothing behind for a
      duplicate. */
  method Reconcile(o: Observer, specs: seq<Spec>, initial: string -> QueryState)
    returns (shown: seq<Shown>, slots: seq<Option<Shown>>, indices: seq<nat>)
    requires o.current < |o.buffers| && |o.results| == |o.specs|
    ensures shown == AllReconciled(o, specs, initial) && slots == AllSlots(o, specs)
    ensures indices == NewIndices(o, specs, |specs|)
  {
    var left := seq(|o.results|, i requires 0 <= i < |o.results| => Some(o.results[i]));
    shown, slots, indices := [], [], [];
    var idx := 0;
    while idx < |specs|
      invariant 0 <= idx <= |specs| && Reconciling(o, specs, initial, idx, shown, slots, indices, left)
    {
      shown, slots, indices, left := ReconcileNext(o, specs, initial, idx, shown, slots, indices, left);
      idx := idx + 1;
    }
  }

  /** What the loop has gathered when it reaches `n`. */
  ghost predicate Reconciling(
      o: Observer, specs: seq<Spec>, initial: string -> QueryState, n: nat,
      shown: seq<Shown>, slots: seq<Option<Shown>>, indices: seq<nat>, left: seq<Option<Shown>>)
    requires n <= |specs| && o.current < |o.buffers|
  {
    && shown == AllReconciled(o, specs, initial)[..n] && slots == AllSlots(o, specs)[..n]
    && indices == NewIndices(o, specs, n) && left == LeftSeq(o, specs, n)
  }

  /** The loop body. */
  method ReconcileNext(
      o: Observer, specs: seq<Spec>, initial: string -> QueryState, idx: nat,
      shown: seq<Shown>, slots: seq<Option<Shown>>, indices: seq<nat>, left: seq<Option<Shown>>)
    returns (shown': seq<Shown>, slots': seq<Option<Shown>>, indices': seq<nat>, left': seq<Option<Shown>>)
    requires idx < |specs| && o.current < |o.buffers| && |o.results| == |o.specs|
    requires Reconciling(o, specs, initial, idx, shown, slots, indices, left)
    ensures Reconciling(o, specs, initial, idx + 1, shown', slots', indices', left')
  {
    var j := Position(Keys(o.specs), specs[idx].key);
    var s, slot, isNew;
    s, slot, isNew, left' := ReconcileOne(o, specs, initial, idx, j, left);
    AllStep(o, specs, initial, idx);
    shown', slots' := shown + [s], slots + [slot];
    indices' := if isNew then indices + [idx] else indices;
  }

  /** One turn: take the old result of a known key, or start a new one. */
  method ReconcileOne(
      o: Observer, specs: seq<Spec>, initial: string -> QueryState, idx: nat, j: nat, left: seq<Option<Shown>>)
    returns (s: Shown, slot: Option<Shown>, isNew: bool, left': seq<Option<Shown>>)
    requires idx < |specs| && |o.results| == |o.specs| && o.current < |o.buffers|
    requires j == First(Keys(o.specs), specs[idx].key) && left == LeftSeq(o, specs, idx)
    ensures s == Reconciled(o, specs, initial, idx) && slot == ReconciledSlot(o, specs, idx)
    ensures isNew == IsNew(o, specs[idx]) && left' == LeftSeq(o, specs, idx + 1)
  {
    isNew := j >= |left|;
    var key, oldSlots := specs[idx].key, o.buffers[o.current].slots;
    if j < |left| {
      LeftSeqAt(o, specs, idx, j);
      TakesReconciled(o, specs, initial, idx);
      s := if left[j].Some? then left[j].value else Shown(key, Idle);
      left' := left[j := None];
      slot := if j < |oldSlots| then oldSlots[j] else None;
    } else {
      s, slot, left' := Shown(key, initial(key)), None, left;
    }
  }

  /** The old results that the first `n` new specs have not taken. */
  ghost function LeftSeq(o: Observer, specs: seq<Spec>, n: nat): (r: seq<Option<Shown>>)
    requires n <= |specs|
    ensures |r| == |o.results|
  {
    if n == 0 then seq(|o.results|, i requires 0 <= i < |o.results| => Some(o.results[i]))
    else
      var before, j := LeftSeq(o, specs, n - 1), First(Keys(o.specs), specs[n - 1].key);
      if j < |before| then before[j := None] else before
  }

  lemma {:induction false} LeftSeqAt(o: Observer, specs: seq<Spec>, n: nat, j: nat)
    requires n <= |specs| && j < |o.results|
    ensures LeftSeq(o, specs, n)[j] == Left(o, specs, n, j)
  {
    if n > 0 { LeftSeqAt(o, specs, n - 1, j); }
  }

  lemma AllStep(o: Observer, specs: seq<Spec>, initial: string -> QueryState, n: nat)
    requires n < |specs| && o.current < |o.buffers|
    ensures AllReconciled(o, specs, initial)[..n + 1] ==
      AllReconciled(o, specs, initial)[..n] + [Reconciled(o, specs, initial, n)]
    ensures AllSlots(o, specs)[..n + 1] == AllSlots(o, specs)[..n] + [ReconciledSlot(o, specs, n)]
  {
  }

  // ----- the observer -----

  class QueriesObserver {
    var specs: seq<Spec>
    var results: seq<Shown>
    var current: nat
    var buffers: seq<Buffer>
    var tasks: seq<Task>

    ghost function State(): Observer
      reads this
    {
      Observer(specs, results, current, buffers, tasks)
    }

    constructor (specs: seq<Spec>, initial: string -> QueryState)
      ensures State() == Begin(specs, initial)
      ensures this.specs == specs && |results| == |specs| && tasks == [] && current == 0 && |buffers| == 1
      ensures forall i :: 0 <= i < |specs| ==> results[i] == Shown(specs[i].key, initial(specs[i].key))
      ensures |buffers[0].slots| == |specs| && forall i :: 0 <= i < |specs| ==> buffers[0].slots[i] == None
    {
      this.specs := specs;
      this.results := seq(|specs|, i requires 0 <= i < |specs| => Shown(specs[i].key, initial(specs[i].key)));
      this.current, this.tasks := 0, [];
      this.buffers := [Buffer(Keys(specs), seq(|specs|, i => None))];
    }

    /** Replace the specs and execute the new ones. */
    method SetSpecs(newSpecs: seq<Spec>, initial: string -> QueryState)
      requires current < |buffers| && |results| == |specs|
      modifies this
      ensures State() == WithSpecs(old(State()), newSpecs, initial)
    {
      ghost var next := Replaced(State(), newSpecs, initial);
      var shown, slots, indices := Reconcile(Observer(specs, results, current, buffers, tasks), newSpecs, initial);
      assert shown == next.results && slots == next.buffers[|buffers|].slots;
      specs, results := newSpecs, shown;
      buffers := buffers + [Buffer(Keys(newSpecs), slots)];
      current := |buffers| - 1;
      assert State() == next;
      RunSpecs(indices);
    }

    method RunSpecs(indices: seq<nat>)
      modifies this
      ensures State() == RunIndices(old(State()), indices)
    {
      var k := 0;
      while k < |indices|
        invariant 0 <= k <= |indices|
        invariant State() == RunIndices(old(State()), indices[..k])
      {
        assert indices[..k + 1][..k] == indices[..k];
        var idx := indices[k];
        if idx < |specs| && specs[idx].enabled {
          if idx < |results| { results := results[idx := Marked(results[idx])]; }
          tasks := tasks + [Task(current, idx, specs[idx].key)];
        }
        k := k + 1;
      }
      assert indices[..k] == indices;
    }

    method SyncResults()
      requires current < |buffers|
      modifies this
      ensures State() == Sync(old(State()))
    {
      var slots := buffers[current].slots;
      ghost var was := results;
      var i := 0;
      while i < |slots|
        invariant 0 <= i <= |slots| && |results| == |was|
        invariant unchanged(`specs) && unchanged(`current) && unchanged(`buffers) && unchanged(`tasks)
        invariant forall k :: 0 <= k < |was| ==> results[k] == if k < i then Synced(slots[k], was[k]) else was[k]
      {
        if slots[i].Some? && i < |results| {
          results := results[i := slots[i].value];
        }
        i := i + 1;
      }
      assert results == Sync(old(State())).results;
    }
  }

  /** One of the first `idx` new specs has taken old result `j`. */
  ghost predicate Taken(o: Observer, specs: seq<Spec>, idx: nat, j: nat)
    requires idx <= |specs|
  {
    idx > 0 && (First(Keys(o.specs), specs[idx - 1].key) == j || Taken(o, specs, idx - 1, j))
  }

  /** What is left of old result `j` when the loop reaches `idx`. */
  ghost function Left(o: Observer, specs: seq<Spec>, idx: nat, j: nat): Option<Shown>
    requires idx <= |specs| && j < |o.results|
  {
    if Taken(o, specs, idx, j) then None else Some(o.results[j])
  }

  /** The old result of a kept key is gone exactly when an earlier new spec has
      the same key. */
  lemma {:induction false} TakenIff(o: Observer, specs: seq<Spec>, idx: nat, key: string)
    requires idx <= |specs| && First(Keys(o.specs), key) < |o.specs|
    ensures Taken(o, specs, idx, First(Keys(o.specs), key)) <==> exists i :: 0 <= i < idx && specs[i].key == key
  {
    if idx > 0 {
      TakenIff(o, specs, idx - 1, key);
      var j, before := First(Keys(o.specs), key), specs[idx - 1].key;
      if First(Keys(o.specs), before) == j { assert Keys(o.specs)[j] == key == before; }
    }
  }

  /** What the loop finds of a kept key's old result is what it should show. */
  lemma TakesReconciled(o: Observer, specs: seq<Spec>, initial: string -> QueryState, idx: nat)
    requires idx < |specs| && |o.results| == |o.specs| && First(Keys(o.specs), specs[idx].key) < |o.specs|
    ensures var key := specs[idx].key;
      var left := Left(o, specs, idx, First(Keys(o.specs), key));
      Reconciled(o, specs, initial, idx) == if left.Some? then left.value else Shown(key, Idle)
  {
    TakenIff(o, specs, idx, specs[idx].key);
    FirstOccurrence(specs, idx);
  }

  /** A spec is the first of its key exactly when no earlier one has it. */
  lemma FirstOccurrence(specs: seq<Spec>, idx: nat)
    requires idx < |specs|
    ensures First(Keys(specs), specs[idx].key) == idx <==>
      forall i :: 0 <= i < idx ==> specs[i].key != specs[idx].key
  {
    var f := First(Keys(specs), specs[idx].key);
    FirstIsAtMost(Keys(specs), idx);
    if f == idx {
      forall i | 0 <= i < idx
        ensures specs[i].key != specs[idx].key
      {
        assert Keys(specs)[i] == specs[i].key;
      }
    } else {
      assert specs[f].key == specs[idx].key;
    }
  }

  lemma {:induction false} FirstIsAtMost(keys: seq<string>, i: nat)
    requires i < |keys|
    ensures First(keys, keys[i]) <= i
  {
    if i > 0 && keys[0] != keys[i] { FirstIsAtMost(keys[1..], i - 1); }
  }

  ghost function Begin(specs: seq<Spec>, initial: string -> QueryState): Observer {
    Observer(
      specs,
      seq(|specs|, i requires 0 <= i < |specs| => Shown(specs[i].key, initial(specs[i].key))),
      0,
      [Buffer(Keys(specs), seq(|specs|, i => None))],
      [])
  }

  /** The observer with new specs, before the new ones are executed: a new
      buffer, the old ones left to the executions still holding them. */
  ghost function Replaced(o: Observer, specs: seq<Spec>, initial: string -> QueryState): Observer
    requires o.current < |o.buffers|
  {
    Observer(
      specs,
      AllReconciled(o, specs, initial),
      |o.buffers|,
      o.buffers + [Buffer(Keys(specs), AllSlots(o, specs))],
      o.tasks)
  }

  /** `set_specs`: reconcile, then execute the specs with new keys. */
  ghost function WithSpecs(o: Observer, specs: seq<Spec>, initial: string -> QueryState): Observer
    requires o.current < |o.buffers|
  {
    RunIndices(Replaced(o, specs, initial), NewIndices(o, specs, |specs|))
  }

  // ----- runs -----

  datatype Step =
    | SetSpecs(specs: seq<Spec>, initial: string -> QueryState)
    | Run(indices: seq<nat>)
    | Finish(task: nat, state: QueryState)
    | DoSync

  ghost predicate Enabled(o: Observer, step: Step) {
    match step
    case SetSpecs(_, _) => o.current < |o.buffers|
    case Run(_) => true
    case Finish(task, _) => task < |o.tasks|
    case DoSync => o.current < |o.buffers|
  }

  ghost function Apply(o: Observer, step: Step): Observer
    requires Enabled(o, step)
  {
    match step
    case SetSpecs(specs, initial) => WithSpecs(o, specs, initial)
    case Run(indices) => RunIndices(o, indices)
    case Finish(task, state) => Complete(o, o.tasks[task], state)
    case DoSync => Sync(o)
  }

  ghost predicate ValidRun(o: Observer, steps: seq<Step>)
    decreases |steps|
  {
    steps == [] || (Enabled(o, steps[0]) && ValidRun(Apply(o, steps[0]), steps[1..]))
  }

  ghost function After(o: Observer, steps: seq<Step>): Observer
    requires ValidRun(o, steps)
    decreases |steps|
  {
    if steps == [] then o else After(Apply(o, steps[0]), steps[1..])
  }

  // ----- every state belongs to the key it is shown for -----

  ghost predicate BufferInv(b: Buffer) {
    && |b.slots| == |b.keys|
    && forall i :: 0 <= i < |b.slots| && b.slots[i].Some? ==> b.slots[i].value.key == b.keys[i]
  }

  ghost predicate TaskInv(o: Observer, t: Task) {
    t.buffer < |o.buffers| && t.idx < |o.buffers[t.buffer].keys| && o.buffers[t.buffer].keys[t.idx] == t.key
  }

  /** Results, specs and slots line up; every result and filled slot belongs to
      the key at its index; every execution still points at a slot of its own
      key. */
  ghost predicate Inv(o: Observer) {
    && |o.results| == |o.specs|
    && o.current < |o.buffers| && o.buffers[o.current].keys == Keys(o.specs)
    && (forall i :: 0 <= i < |o.results| ==> o.results[i].key == o.specs[i].key)
    && (forall b :: 0 <= b < |o.buffers| ==> BufferInv(o.buffers[b]))
    && (forall t :: 0 <= t < |o.tasks| ==> TaskInv(o, o.tasks[t]))
  }

  lemma ReplacedInv(o: Observer, specs: seq<Spec>, initial: string -> QueryState)
    requires Inv(o)
    ensures Inv(Replaced(o, specs, initial))
  {
    var r := Replaced(o, specs, initial);
    assert BufferInv(o.buffers[o.current]);
    forall i | 0 <= i < |specs|
      ensures r.results[i].key == specs[i].key
      ensures ReconciledSlot(o, specs, i).Some? ==> ReconciledSlot(o, specs, i).value.key == specs[i].key
    {
      var j := First(Keys(o.specs), specs[i].key);
      assert j < |o.specs| ==> Keys(o.specs)[j] == specs[i].key;
    }
    forall t | 0 <= t < |r.tasks|
      ensures TaskInv(r, r.tasks[t])
    {
      assert TaskInv(o, o.tasks[t]);
    }
  }

  lemma RunOneInv(o: Observer, idx: nat)
    requires Inv(o)
    ensures Inv(RunOne(o, idx))
  {
    var r := RunOne(o, idx);
    forall t | 0 <= t < |r.tasks|
      ensures TaskInv(r, r.tasks[t])
    {
      if t < |o.tasks| { assert TaskInv(o, o.tasks[t]); }
    }
  }

  lemma {:induction false} RunIndicesInv(o: Observer, indices: seq<nat>)
    requires Inv(o)
    ensures Inv(RunIndices(o, indices))
  {
    if indices != [] {
      RunIndicesInv(o, indices[..|indices| - 1]);
      RunOneInv(RunIndices(o, indices[..|indices| - 1]), indices[|indices| - 1]);
    }
  }

  lemma CompleteInv(o: Observer, task: nat, state: QueryState)
    requires Inv(o) && task < |o.tasks|
    ensures Inv(Complete(o, o.tasks[task], state))
  {
    var r := Complete(o, o.tasks[task], state);
    assert TaskInv(o, o.tasks[task]);
    forall b | 0 <= b < |r.buffers|
      ensures BufferInv(r.buffers[b])
    {
      assert BufferInv(o.buffers[b]);
    }
    forall t | 0 <= t < |r.tasks|
      ensures TaskInv(r, r.tasks[t])
    {
      assert TaskInv(o, o.tasks[t]);
    }
  }

  lemma SyncInv(o: Observer)
    requires Inv(o)
    ensures Inv(Sync(o))
  {
    var r := Sync(o);
    assert BufferInv(o.buffers[o.current]);
    forall t | 0 <= t < |r.tasks|
      ensures TaskInv(r, r.tasks[t])
    {
      assert TaskInv(o, o.tasks[t]);
    }
  }

  lemma StepKeepsInv(o: Observer, step: Step)
    requires Inv(o) && Enabled(o, step)
    ensures Inv(Apply(o, step))
  {
    match step
    case SetSpecs(specs, initial) =>
      ReplacedInv(o, specs, initial);
      RunIndicesInv(Replaced(o, specs, initial), NewIndices(o, specs, |specs|));
    case Run(indices) => RunIndicesInv(o, indices);
    case Finish(task, state) => CompleteInv(o, task, state);
    case DoSync => SyncInv(o);
  }

  lemma {:induction false} RunKeepsInv(o: Observer, steps: seq<Step>)
    requires Inv(o) && ValidRun(o, steps)
    ensures Inv(After(o, steps))
    decreases |steps|
  {
    if steps != [] {
      StepKeepsInv(o, steps[0]);
      RunKeepsInv(Apply(o, steps[0]), steps[1..]);
    }
  }

  /** Through every sequence of spec changes, runs, late completions and syncs,
      each result and each filled slot shows the key now at its index. */
  lemma ResultsBelongToTheirSpecs(specs: seq<Spec>, initial: string -> QueryState, steps: seq<Step>, i: nat)
    requires ValidRun(Begin(specs, initial), steps)
    requires i < |After(Begin(specs, initial), steps).specs|
    ensures var o := After(Begin(specs, initial), steps);
      && |o.results| == |o.specs| && o.results[i].key == o.specs[i].key
      && o.current < |o.buffers| && |o.buffers[o.current].slots| == |o.specs|
      && (o.buffers[o.current].slots[i].Some? ==> o.buffers[o.current].slots[i].value.key == o.specs[i].key)
  {
    var start := Begin(specs, initial);
    assert BufferInv(start.buffers[0]);
    RunKeepsInv(start, steps);
    var o := After(start, steps);
    assert BufferInv(o.buffers[o.current]);
  }

  // ----- late executions -----

  /** An execution started before the specs changed writes only to its old
      buffer: nothing the observer shows now or after a sync changes. */
  lemma LateCompletionIsInvisible(o: Observer, task: nat, state: QueryState)
    requires Inv(o) && task < |o.tasks| && o.tasks[task].buffer != o.current
    ensures var r := Complete(o, o.tasks[task], state);
      && r.specs == o.specs && r.results == o.results && r.current == o.current
      && r.buffers[r.current] == o.buffers[o.current]
      && Sync(r).results == Sync(o).results
  {
  }

  /** An execution of the current specs shows up at its own index with the next
      sync, and nowhere else. */
  lemma CurrentCompletionShowsAfterSync(o: Observer, task: nat, state: QueryState)
    requires Inv(o) && task < |o.tasks| && o.tasks[task].buffer == o.current
    ensures var idx := o.tasks[task].idx; var r := Sync(Complete(o, o.tasks[task], state));
      && idx < |r.results| && r.results[idx] == Shown(o.specs[idx].key, state)
      && (forall i :: 0 <= i < |r.results| && i != idx ==> r.results[i] == Sync(o).results[i])
  {
    assert TaskInv(o, o.tasks[task]);
    assert BufferInv(o.buffers[o.current]);
  }

  // ----- kept specs -----

  lemma {:induction false} RunLeavesOthers(o: Observer, indices: seq<nat>, i: nat)
    requires i < |o.results| && i !in indices
    ensures var r := RunIndices(o, indices);
      |r.results| == |o.results| && r.results[i] == o.results[i] && r.buffers == o.buffers && r.current == o.current
  {
    if indices != [] {
      RunLeavesOthers(o, indices[..|indices| - 1], i);
    }
  }

  /** A kept spec shows its key's old result exactly as it was, with its slot,
      when it is the first of its key among the new specs; a later duplicate
      shows idle. */
  lemma KeptSpecKeepsResult(o: Observer, specs: seq<Spec>, initial: string -> QueryState, i: nat)
    requires Inv(o) && i < |specs| && !IsNew(o, specs[i])
    ensures var j := First(Keys(o.specs), specs[i].key);
      var r := WithSpecs(o, specs, initial);
      && i < |r.results| && r.current < |r.buffers| && i < |r.buffers[r.current].slots|
      && r.results[i] == (if forall k :: 0 <= k < i ==> specs[k].key != specs[i].key
                          then o.results[j] else Shown(specs[i].key, Idle))
      && r.buffers[r.current].slots[i] == o.buffers[o.current].slots[j]
  {
    var m := Replaced(o, specs, initial);
    assert BufferInv(o.buffers[o.current]);
    NewIndicesIff(o, specs, |specs|, i);
    RunLeavesOthers(m, NewIndices(o, specs, |specs|), i);
    FirstOccurrence(specs, i);
  }

  /** With distinct keys on both sides, a key observed before and after keeps
      its result wherever it moves. */
  lemma DistinctKeysKeepResults(
      o: Observer, specs: seq<Spec>, initial: string -> QueryState, i: nat, j: nat)
    requires Inv(o) && i < |specs| && j < |o.specs|
    requires specs[i].key == o.specs[j].key
    requires forall a, b :: 0 <= a < b < |specs| ==> specs[a].key != specs[b].key
    requires forall a, b :: 0 <= a < b < |o.specs| ==> o.specs[a].key != o.specs[b].key
    ensures var r := WithSpecs(o, specs, initial);
      i < |r.results| && r.results[i] == o.results[j]
  {
    var f := First(Keys(o.specs), specs[i].key);
    FirstIsAtMost(Keys(o.specs), j);
    assert Keys(o.specs)[f] == specs[i].key;
    KeptSpecKeepsResult(o, specs, initial, i);
  }

  // ----- executions running when the specs change -----

  /** No execution will write to slot `i` of the current buffer. */
  ghost predicate Deaf(o: Observer, i: nat) {
    forall t :: 0 <= t < |o.tasks| ==> !(o.tasks[t].buffer == o.current && o.tasks[t].idx == i)
  }

  /** Neither replaces the specs nor executes spec `i`. */
  predicate LeavesAlone(step: Step, i: nat) {
    !step.SetSpecs? && (step.Run? ==> i !in step.indices)
  }

  /** The same slot `i`, and the same result unless a sync brought the slot's. */
  ghost predicate Unheard(o: Observer, t: Observer, i: nat)
    requires Inv(o) && Inv(t)
  {
    && |t.specs| == |o.specs| && t.current == o.current && t.current < |t.buffers| && o.current < |o.buffers|
    && |t.buffers[t.current].slots| == |t.results| == |o.results| == |o.buffers[o.current].slots|
    && (i < |o.results| ==>
        && t.buffers[t.current].slots[i] == o.buffers[o.current].slots[i]
        && (t.results[i] == o.results[i] || Some(t.results[i]) == o.buffers[o.current].slots[i]))
  }

  lemma {:induction false} RunStaysDeaf(o: Observer, indices: seq<nat>, i: nat)
    requires Deaf(o, i) && i !in indices
    ensures Deaf(RunIndices(o, indices), i)
    ensures var r := RunIndices(o, indices); r.specs == o.specs && r.current == o.current
  {
    if indices != [] { RunStaysDeaf(o, indices[..|indices| - 1], i); }
  }

  lemma DeafStep(o: Observer, step: Step, i: nat)
    requires Inv(o) && Deaf(o, i) && i < |o.results| && Enabled(o, step) && LeavesAlone(step, i)
    ensures Inv(Apply(o, step)) && Deaf(Apply(o, step), i) && Unheard(o, Apply(o, step), i)
  {
    StepKeepsInv(o, step);
    assert BufferInv(o.buffers[o.current]);
    assert BufferInv(Apply(o, step).buffers[Apply(o, step).current]);
    match step
    case Run(indices) =>
      RunStaysDeaf(o, indices, i);
      RunLeavesOthers(o, indices, i);
    case Finish(task, state) =>
    case DoSync =>
  }

  lemma {:induction false} DeafRun(o: Observer, steps: seq<Step>, i: nat)
    requires Inv(o) && Deaf(o, i) && i < |o.results| && ValidRun(o, steps)
    requires forall k :: 0 <= k < |steps| ==> LeavesAlone(steps[k], i)
    ensures Inv(After(o, steps)) && Unheard(o, After(o, steps), i)
    decreases |steps|
  {
    if steps == [] {
      assert BufferInv(o.buffers[o.current]);
    } else {
      DeafStep(o, steps[0], i);
      DeafRun(Apply(o, steps[0]), steps[1..], i);
    }
  }

  /** No execution of a spec kept by `set_specs` can reach its slot: those still
      running hold the old buffer, and it is not executed again. */
  lemma KeptSpecIsDeaf(o: Observer, specs: seq<Spec>, initial: string -> QueryState, i: nat)
    requires Inv(o) && i < |specs| && !IsNew(o, specs[i])
    ensures Inv(WithSpecs(o, specs, initial)) && Deaf(WithSpecs(o, specs, initial), i)
    ensures i < |WithSpecs(o, specs, initial).results|
  {
    var m := Replaced(o, specs, initial);
    StepKeepsInv(o, SetSpecs(specs, initial));
    NewIndicesIff(o, specs, |specs|, i);
    forall t | 0 <= t < |m.tasks|
      ensures m.tasks[t].buffer != m.current
    {
      assert TaskInv(o, o.tasks[t]);
    }
    RunStaysDeaf(m, NewIndices(o, specs, |specs|), i);
    RunLeavesOthers(m, NewIndices(o, specs, |specs|), i);
  }

  /** So a kept spec whose execution was running never shows its completion:
      until it is executed again or the specs change again, whatever completes
      or is synced, a result without a filled slot stays as it was, `Loading`
      included. */
  lemma RunningSpecLosesItsCompletion(
      o: Observer, specs: seq<Spec>, initial: string -> QueryState, i: nat, steps: seq<Step>)
    requires Inv(o) && i < |specs| && !IsNew(o, specs[i])
    requires ValidRun(WithSpecs(o, specs, initial), steps)
    requires forall k :: 0 <= k < |steps| ==> LeavesAlone(steps[k], i)
    requires o.buffers[o.current].slots[First(Keys(o.specs), specs[i].key)].None?
    ensures var r, t := WithSpecs(o, specs, initial), After(WithSpecs(o, specs, initial), steps);
      i < |r.results| && i < |t.results| && t.results[i] == r.results[i]
  {
    KeptSpecKeepsResult(o, specs, initial, i);
    KeptSpecIsDeaf(o, specs, initial, i);
    DeafRun(WithSpecs(o, specs, initial), steps, i);
  }

  // ----- what is started -----

  /** Executing a spec: out of range or disabled, nothing happens. Otherwise one
      execution of its key starts on the current buffer, and its result is marked as
      refetching its data, or as loading when there is none. */
  lemma RunOneExactly(o: Observer, idx: nat)
    requires |o.results| == |o.specs|
    ensures idx >= |o.specs| || !o.specs[idx].enabled ==> RunOne(o, idx) == o
    ensures idx < |o.specs| && o.specs[idx].enabled ==>
      var r := RunOne(o, idx);
      && r.specs == o.specs && r.current == o.current && r.buffers == o.buffers
      && r.tasks == o.tasks + [Task(o.current, idx, o.specs[idx].key)]
      && |r.results| == |o.results| && (forall i :: 0 <= i < |r.results| && i != idx ==> r.results[i] == o.results[i])
      && r.results[idx].key == o.results[idx].key
      && match o.results[idx].state
         case Idle => r.results[idx].state == Loading
         case Loading => r.results[idx].state == Loading
         case Error(None) => r.results[idx].state == Loading
         case Error(Some(d)) => r.results[idx].state == Refetching(d)
         case Placeholder(d) => r.results[idx].state == Refetching(d)
         case Refetching(d) => r.results[idx].state == Refetching(d)
         case Success(d) => r.results[idx].state == Refetching(d)
         case Stale(d) => r.results[idx].state == Refetching(d)
  {
  }

  /** Executing a list of specs starts one execution for each enabled one in
      range, in order, and none for the others. */
  lemma {:induction false} RunStartsEnabled(o: Observer, indices: seq<nat>)
    requires |o.results| == |o.specs|
    ensures var r := RunIndices(o, indices);
      && r.specs == o.specs && r.current == o.current && |r.results| == |o.results|
      && r.tasks == o.tasks + Started(o, indices)
  {
    if indices == [] {
      assert o.tasks + [] == o.tasks;
    } else {
      var n := |indices| - 1;
      RunStartsEnabled(o, indices[..n]);
      RunOneExactly(RunIndices(o, indices[..n]), indices[n]);
    }
  }

  ghost function Started(o: Observer, indices: seq<nat>): seq<Task> {
    if indices == [] then []
    else
      var idx := indices[|indices| - 1];
      Started(o, indices[..|indices| - 1]) +
      (if idx < |o.specs| && o.specs[idx].enabled then [Task(o.current, idx, o.specs[idx].key)] else [])
  }

  /** A spec with a new key shows the client's view, as loading or refetching when
      it is enabled, and is the only kind that `set_specs` starts. */
  lemma NewSpecIsStarted(o: Observer, specs: seq<Spec>, initial: string -> QueryState, i: nat)
    requires Inv(o) && i < |specs| && IsNew(o, specs[i])
    ensures var r := WithSpecs(o, specs, initial);
      && i < |r.results| && |o.tasks| <= |r.tasks|
      && (Task(|o.buffers|, i, specs[i].key) in r.tasks[|o.tasks|..] <==> specs[i].enabled)
      && r.results[i] == (var shown := Shown(specs[i].key, initial(specs[i].key));
                          if specs[i].enabled then Marked(shown) else shown)
  {
    var m, indices := Replaced(o, specs, initial), NewIndices(o, specs, |specs|);
    ReplacedInv(o, specs, initial);
    RunStartsEnabled(m, indices);
    RunIndicesInv(m, indices);
    NewIndicesIff(o, specs, |specs|, i);
    StartedIff(m, indices, i);
    if specs[i].enabled { EnabledIsMarked(m, indices, i); } else { DisabledIsLeft(m, indices, i); }
  }

  lemma {:induction false} StartedIff(o: Observer, indices: seq<nat>, i: nat)
    requires i < |o.specs|
    ensures Task(o.current, i, o.specs[i].key) in Started(o, indices) <==> i in indices && o.specs[i].enabled
  {
    if indices != [] {
      var n := |indices| - 1;
      StartedIff(o, indices[..n], i);
      assert indices == indices[..n] + [indices[n]];
    }
  }

  lemma {:induction false} EnabledIsMarked(o: Observer, indices: seq<nat>, i: nat)
    requires |o.results| == |o.specs| && i < |o.specs| && o.specs[i].enabled
    ensures var r := RunIndices(o, indices);
      && r.specs == o.specs && |r.results| == |o.results|
      && r.results[i] == if i in indices then Marked(o.results[i]) else o.results[i]
  {
    if indices != [] {
      var n := |indices| - 1;
      EnabledIsMarked(o, indices[..n], i);
      RunOneExactly(RunIndices(o, indices[..n]), indices[n]);
      assert indices == indices[..n] + [indices[n]];
    }
  }

  lemma {:induction false} DisabledIsLeft(o: Observer, indices: seq<nat>, i: nat)
    requires |o.results| == |o.specs| && i < |o.specs| && !o.specs[i].enabled
    ensures var r := RunIndices(o, indices);
      r.specs == o.specs && |r.results| == |o.results| && r.results[i] == o.results[i]
  {
    if indices != [] {
      var n := |indices| - 1;
      DisabledIsLeft(o, indices[..n], i);
      RunOneExactly(RunIndices(o, indices[..n]), indices[n]);
    }
  }

  // ----- when a completion shows -----

  lemma {:induction false} RunOnlyAdds(o: Observer, indices: seq<nat>)
    ensures var r := RunIndices(o, indices);
      r.current == o.current && r.buffers == o.buffers && o.tasks <= r.tasks
  {
    if indices != [] { RunOnlyAdds(o, indices[..|indices| - 1]); }
  }

  predicate NoSetSpecs(steps: seq<Step>) {
    forall k :: 0 <= k < |steps| ==> !steps[k].SetSpecs?
  }

  /** Executions and buffers are never forgotten, and only a change of specs
      moves on to a new buffer. */
  lemma StepBuffers(o: Observer, step: Step)
    requires Inv(o) && Enabled(o, step)
    ensures var r := Apply(o, step);
      && o.tasks <= r.tasks && |o.buffers| <= |r.buffers|
      && (if step.SetSpecs? then r.current >= |o.buffers| else r.current == o.current)
  {
    match step
    case SetSpecs(specs, initial) =>
      RunOnlyAdds(Replaced(o, specs, initial), NewIndices(o, specs, |specs|));
    case Run(indices) => RunOnlyAdds(o, indices);
    case Finish(task, state) =>
    case DoSync =>
  }

  lemma {:induction false} RunBuffers(o: Observer, steps: seq<Step>)
    requires Inv(o) && ValidRun(o, steps)
    ensures var t := After(o, steps);
      && Inv(t) && o.tasks <= t.tasks && |o.buffers| <= |t.buffers| && o.current <= t.current
      && (t.current == o.current <==> NoSetSpecs(steps))
    decreases |steps|
  {
    if steps != [] {
      var r := Apply(o, steps[0]);
      StepKeepsInv(o, steps[0]);
      StepBuffers(o, steps[0]);
      RunBuffers(r, steps[1..]);
      NoSetSpecsTail(steps);
    }
  }

  lemma NoSetSpecsTail(steps: seq<Step>)
    requires steps != []
    ensures NoSetSpecs(steps) <==> !steps[0].SetSpecs? && NoSetSpecs(steps[1..])
  {
    assert steps == [steps[0]] + steps[1..];
  }

  /** Were this execution to complete now with `state`, the next sync would show
      it at the execution's index. */
  ghost predicate WouldShow(o: Observer, task: nat, state: QueryState)
    requires Inv(o) && task < |o.tasks|
  {
    var u := Sync(Complete(o, o.tasks[task], state));
    o.tasks[task].idx < |u.results| && u.results[o.tasks[task].idx] == Shown(o.tasks[task].key, state)
  }

  /** For any execution of the current specs: whatever happens meanwhile, its
      completion shows with the next sync if and only if the specs were not
      replaced since it started. Keeping its spec does not help. */
  lemma CompletionShowsIff(o: Observer, idx: nat, steps: seq<Step>)
    requires Inv(o) && idx < |o.specs| && o.specs[idx].enabled && ValidRun(RunOne(o, idx), steps)
    ensures var t, task := After(RunOne(o, idx), steps), |o.tasks|;
      && Inv(t) && task < |t.tasks| && t.tasks[task] == Task(o.current, idx, o.specs[idx].key)
      && ((forall state :: WouldShow(t, task, state)) <==> NoSetSpecs(steps))
  {
    var r, task := RunOne(o, idx), |o.tasks|;
    RunOneInv(o, idx);
    RunBuffers(r, steps);
    var t := After(r, steps);
    assert r.tasks[task] == Task(o.current, idx, o.specs[idx].key) == t.tasks[task];
    if t.current == o.current {
      forall state: QueryState
        ensures WouldShow(t, task, state)
      {
        assert TaskInv(t, t.tasks[task]);
        CurrentCompletionShowsAfterSync(t, task, state);
      }
    } else {
      LateCompletionIsInvisible(t, task, Idle);
      LateCompletionIsInvisible(t, task, Loading);
      assert !(WouldShow(t, task, Idle) && WouldShow(t, task, Loading));
    }
  }

  lemma RunCons(o: Observer, step: Step, rest: seq<Step>)
    requires Enabled(o, step) && ValidRun(Apply(o, step), rest)
    ensures ValidRun(o, [step] + rest) && After(o, [step] + rest) == After(Apply(o, step), rest)
  {
    assert ([step] + rest)[1..] == rest;
  }

  /** One spec, executed, set again unchanged, completed and synced: it is still
      loading. */
  lemma SameSpecsLoseCompletion(initial: string -> QueryState)
    requires initial("k") == Idle
    ensures var start := Begin([Spec("k", true)], initial);
      var steps := [Run([0])] + ([SetSpecs([Spec("k", true)], initial)] + LateFinish());
      ValidRun(start, steps) && After(start, steps).results == [Shown("k", Loading)]
  {
    var spec := Spec("k", true);
    var o0 := Begin([spec], initial);
    assert o0.results == [Shown("k", Idle)] && o0.buffers[0].slots == [None];
    var o1 := OneStarted(o0, spec);
    var o2 := OneKept(o1, spec, initial);
    FinishedLate(o2);
    RunCons(o1, SetSpecs([spec], initial), LateFinish());
    RunCons(o0, Run([0]), [SetSpecs([spec], initial)] + LateFinish());
  }

  function LateFinish(): seq<Step> { [Finish(0, Success(1))] + [DoSync] }

  lemma FinishedLate(o: Observer)
    requires |o.results| == 1 && |o.tasks| == 1 && o.tasks[0].buffer == 0
    requires o.current == 1 && |o.buffers| == 2 && o.buffers[1].slots == [None]
    ensures ValidRun(o, LateFinish()) && After(o, LateFinish()).results == o.results
  {
    var r := Apply(o, Finish(0, Success(1)));
    assert Apply(r, DoSync).results == o.results;
    RunCons(r, DoSync, []);
    assert [DoSync] + [] == [DoSync];
    RunCons(o, Finish(0, Success(1)), [DoSync]);
  }

  lemma OneStarted(o: Observer, spec: Spec) returns (r: Observer)
    requires o.specs == [spec] && spec.enabled && o.results == [Shown(spec.key, Idle)] && o.tasks == []
    ensures r == Apply(o, Run([0]))
    ensures r == o.(results := [Shown(spec.key, Loading)], tasks := [Task(o.current, 0, spec.key)])
  {
    r := Apply(o, Run([0]));
    assert [0][..0] == [];
    assert RunIndices(o, []) == o;
  }

  lemma OneKept(o: Observer, spec: Spec, initial: string -> QueryState) returns (r: Observer)
    requires o.specs == [spec] && |o.results| == 1 && o.current == 0 && |o.buffers| == 1
    requires o.buffers[0].slots == [None]
    ensures r == Apply(o, SetSpecs([spec], initial))
    ensures r.results == o.results && r.tasks == o.tasks && r.current == 1
    ensures |r.buffers| == 2 && r.buffers[0] == o.buffers[0] && r.buffers[1].slots == [None]
  {
    r := Apply(o, SetSpecs([spec], initial));
    assert Keys([spec]) == [spec.key];
    assert First([spec.key], spec.key) == 0;
    assert NewIndices(o, [spec], 0) == [];
    assert NewIndices(o, [spec], 1) == [];
    assert RunIndices(Replaced(o, [spec], initial), []) == Replaced(o, [spec], initial);
  }
}
