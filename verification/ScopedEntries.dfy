/**
  What the cache entries show while the scheduler runs, in every run: cleared
  caches and dropped executions included.
 */
module ScopedEntries {
  import opened Wrappers
  import opened MutationCaches
  import opened ScopedMutations

  // ----- entries agree with their executions -----

  /** The entry status an execution in this phase must show. Only a parked
      execution may be shown as paused; the entry of a dropped one stays
      pending, and paused if it was. */
  ghost predicate Agrees(entry: Entry, e: Exec) {
    && entry.scope == e.scope && entry.hasContext == e.rollback
    && (!e.phase.Parked? && !e.phase.Dropped? ==> !entry.isPaused)
    && match e.phase
       case Settled(None) => entry.status.Success? && entry.hasResult && entry.error == None
       case Settled(Some(error)) => entry.status.Error? && !entry.hasResult && entry.error == Some(error)
       case _ => entry.status.Pending? && !entry.hasResult && entry.error == None
  }

  ghost predicate DistinctIds(c: CacheState) {
    && (forall k :: 0 <= k < |c.entries| ==> c.entries[k].id <= c.nextId)
    && (forall j, k :: 0 <= j < k < |c.entries| ==> c.entries[j].id != c.entries[k].id)
  }

  ghost predicate EntriesInv(s: Sys) {
    && DistinctIds(s.cache)
    && (forall i :: 0 <= i < |s.execs| && !s.execs[i].Submitted() ==> !s.execs[i].rollback)
    && (forall i :: 0 <= i < |s.execs| && s.execs[i].Submitted() ==> s.execs[i].id <= s.cache.nextId)
    && (forall i, j :: 0 <= i < j < |s.execs| && s.execs[i].Submitted() && s.execs[j].Submitted() ==>
          s.execs[i].id != s.execs[j].id)
    && (forall i, k | 0 <= i < |s.execs| && 0 <= k < |s.cache.entries| ::
          s.execs[i].Submitted() && s.cache.entries[k].id == s.execs[i].id ==>
          Agrees(s.cache.entries[k], s.execs[i]))
  }

  /** `d` differs from `c` at most in the entry with this id. */
  ghost predicate OnlyEntry(c: CacheState, d: CacheState, id: nat) {
    && d.nextId == c.nextId && |d.entries| == |c.entries|
    && (forall k :: 0 <= k < |c.entries| ==> d.entries[k].id == c.entries[k].id)
    && (forall k :: 0 <= k < |c.entries| && c.entries[k].id != id ==> d.entries[k] == c.entries[k])
  }

  lemma UpdateTouchesOne(c: CacheState, id: nat, f: Entry -> Entry)
    requires DistinctIds(c) && forall e: Entry :: f(e).id == e.id
    ensures OnlyEntry(c, Update(c, id, f), id)
    ensures forall k :: 0 <= k < |c.entries| && c.entries[k].id == id ==>
      Update(c, id, f).entries[k] == f(c.entries[k])
  {
    var i := IndexOf(c.entries, id);
    forall k | 0 <= k < |c.entries| && c.entries[k].id == id
      ensures k == i
    {
      assert i < |c.entries|;
    }
  }

  lemma ReleaseKeepsEntries(c: CacheState, scope: Option<string>)
    ensures Release(c, scope).entries == c.entries && Release(c, scope).nextId == c.nextId
  {
  }

  ghost function SettledCache(c: CacheState, id: nat, error: Option<string>): CacheState {
    if error.None? then SettleSuccess(c, id) else SettleError(c, id, error.value)
  }

  lemma SettleTouchesOne(c: CacheState, e: Exec, error: Option<string>)
    requires DistinctIds(c)
    requires forall k :: 0 <= k < |c.entries| && c.entries[k].id == e.id ==>
      c.entries[k].scope == e.scope && c.entries[k].hasContext == e.rollback
    ensures var d := Release(SettledCache(c, e.id, error), e.scope);
      && OnlyEntry(c, d, e.id)
      && (forall k :: 0 <= k < |d.entries| && d.entries[k].id == e.id ==>
            Agrees(d.entries[k], e.(phase := Settled(error))))
  {
    if error.None? {
      UpdateTouchesOne(c, e.id, Succeeded);
    } else {
      UpdateTouchesOne(c, e.id, Failed(error.value));
    }
    ReleaseKeepsEntries(SettledCache(c, e.id, error), e.scope);
  }

  lemma BeginTouchesOne(c: CacheState, e: Exec, hook: Hook)
    requires DistinctIds(c)
    requires forall k :: 0 <= k < |c.entries| && c.entries[k].id == e.id ==>
      Agrees(c.entries[k], e.(phase := Calling))
    ensures var r := Begin(c, e, hook);
      && OnlyEntry(c, r.0, e.id) && r.1.id == e.id && r.1.scope == e.scope && r.1.Submitted()
      && (forall k :: 0 <= k < |r.0.entries| && r.0.entries[k].id == e.id ==> Agrees(r.0.entries[k], r.1))
  {
    match hook
    case NoHook =>
    case HookOk => UpdateTouchesOne(c, e.id, WithContext);
    case HookErr(error) => SettleTouchesOne(c, e, Some(error));
  }

  lemma AcquireTouchesOne(c: CacheState, scope: string, id: nat)
    requires DistinctIds(c)
    ensures var d := Acquire(c, scope, id);
      && DistinctIds(d) && OnlyEntry(c, d, id)
      && (forall k :: 0 <= k < |c.entries| && c.entries[k].id == id ==> d.entries[k] == Unpaused(c.entries[k]))
  {
    var c1 := MarkRunning(c, scope);
    var i := IndexOf(c.entries, id);
    if i < |c.entries| && c.entries[i].isPaused {
      UpdateTouchesOne(c1, id, Unpaused);
    } else {
      forall k | 0 <= k < |c.entries| && c.entries[k].id == id
        ensures k == i
      {
      }
    }
  }

  lemma GateTouchesOne(c: CacheState, e: Exec, hook: Hook)
    requires DistinctIds(c) && (e.scope.Some? ==> e.scope.value in c.release)
    requires forall k :: 0 <= k < |c.entries| && c.entries[k].id == e.id ==>
      Agrees(c.entries[k], e.(phase := Parked(0))) && (e.scope.None? ==> !c.entries[k].isPaused)
    ensures var r := Gate(c, e, hook);
      && OnlyEntry(c, r.0, e.id) && r.1.id == e.id && r.1.scope == e.scope && r.1.Submitted()
      && (forall k :: 0 <= k < |r.0.entries| && r.0.entries[k].id == e.id ==> Agrees(r.0.entries[k], r.1))
  {
    match e.scope
    case None => BeginTouchesOne(c, e, hook);
    case Some(sc) =>
      if CanRun(c, sc) {
        AcquireTouchesOne(c, sc, e.id);
        BeginTouchesOne(Acquire(c, sc, e.id), e, hook);
      }
  }

  /** Replacing one execution and its own entry keeps the rest in agreement. */
  lemma PutKeepsEntries(s: Sys, i: nat, c: CacheState, r: (CacheState, Exec))
    requires i < |s.execs| && EntriesInv(s) && DistinctIds(c) && c.nextId >= s.cache.nextId
    requires forall k :: 0 <= k < |c.entries| ==>
      c.entries[k] in s.cache.entries || c.entries[k].id == r.1.id
    requires OnlyEntry(c, r.0, r.1.id) && r.1.Submitted() && r.1.id <= c.nextId
    requires forall j :: 0 <= j < |s.execs| && j != i && s.execs[j].Submitted() ==> s.execs[j].id != r.1.id
    requires forall k :: 0 <= k < |r.0.entries| && r.0.entries[k].id == r.1.id ==> Agrees(r.0.entries[k], r.1)
    ensures EntriesInv(Put(s, i, r))
  {
    var t := Put(s, i, r);
    forall j, k | 0 <= j < |t.execs| && 0 <= k < |t.cache.entries| && t.execs[j].Submitted()
        && t.cache.entries[k].id == t.execs[j].id
      ensures Agrees(t.cache.entries[k], t.execs[j])
    {
      if j != i {
        assert c.entries[k] in s.cache.entries;
        var m :| 0 <= m < |s.cache.entries| && s.cache.entries[m] == c.entries[k];
      }
    }
  }

  /** `d` is `c` with one fresh pending entry under the next id. */
  ghost predicate AddsOne(c: CacheState, d: CacheState, scope: Option<string>) {
    && d.nextId == c.nextId + 1 && |d.entries| == |c.entries| + 1
    && (forall k :: 0 <= k < |c.entries| ==> d.entries[k] == c.entries[k])
    && (var e := d.entries[|c.entries|]; e == FreshEntry(scope).(id := d.nextId, isPaused := e.isPaused))
    && (scope.None? ==> !d.entries[|c.entries|].isPaused)
    && (scope.Some? ==> scope.value in d.release)
  }

  lemma EnterAddsOne(c: CacheState, scope: Option<string>)
    ensures AddsOne(c, Enter(c, scope), scope)
  {
  }

  /** Passing the gate with a cache that gained at most this execution's own
      entry. */
  lemma GatedKeepsEntries(s: Sys, i: nat, c: CacheState, e: Exec, hook: Hook)
    requires i < |s.execs| && EntriesInv(s) && DistinctIds(c) && c.nextId >= s.cache.nextId
    requires (e.scope.Some? ==> e.scope.value in c.release) && e.id <= c.nextId
    requires forall x :: x in c.entries ==> x in s.cache.entries || x.id == e.id
    requires forall j :: 0 <= j < |s.execs| && j != i && s.execs[j].Submitted() ==> s.execs[j].id != e.id
    requires forall k :: 0 <= k < |c.entries| && c.entries[k].id == e.id ==>
      Agrees(c.entries[k], e.(phase := Parked(0))) && (e.scope.None? ==> !c.entries[k].isPaused)
    ensures EntriesInv(Put(s, i, Gate(c, e, hook)))
  {
    GateTouchesOne(c, e, hook);
    PutKeepsEntries(s, i, c, Gate(c, e, hook));
  }

  lemma NewcomerKeepsEntries(s: Sys, i: nat, c: CacheState, e: Exec, hook: Hook)
    requires i < |s.execs| && EntriesInv(s) && AddsOne(s.cache, c, e.scope) && e.id == c.nextId && !e.rollback
    ensures EntriesInv(Put(s, i, Gate(c, e, hook)))
  {
    assert DistinctIds(c);
    GatedKeepsEntries(s, i, c, e, hook);
  }

  lemma SubmitKeepsEntries(s: Sys, i: nat, hook: Hook)
    requires EntriesInv(s) && Enabled(s, Submit(i, hook))
    ensures EntriesInv(Apply(s, Submit(i, hook)))
  {
    var e := s.execs[i].(id := s.cache.nextId + 1);
    EnterAddsOne(s.cache, e.scope);
    NewcomerKeepsEntries(s, i, Enter(s.cache, e.scope), e, hook);
  }

  lemma ReplyKeepsEntries(s: Sys, i: nat, failure: Option<string>)
    requires EntriesInv(s) && Enabled(s, Reply(i, failure))
    ensures EntriesInv(Apply(s, Reply(i, failure)))
  {
    if failure.None? || s.execs[i].used >= s.execs[i].retry {
      SettleTouchesOne(s.cache, s.execs[i], failure);
    }
    PutKeepsEntries(s, i, s.cache, OnReply(s.cache, s.execs[i], failure));
  }

  lemma DropAt(es: seq<Entry>, p: nat)
    requires p < |es|
    ensures var r := es[..p] + es[p + 1..];
      |r| == |es| - 1 && forall k :: 0 <= k < |r| ==> r[k] == es[if k < p then k else k + 1]
  {
  }

  lemma RemoveDropsOne(c: CacheState, id: nat)
    requires DistinctIds(c)
    ensures var d := Remove(c, id); d.nextId == c.nextId && DistinctIds(d)
    ensures forall k :: 0 <= k < |Remove(c, id).entries| ==> Remove(c, id).entries[k] in c.entries
  {
    var p := IndexOf(c.entries, id);
    if p < |c.entries| {
      DropAt(c.entries, p);
      assert Remove(c, id).entries == c.entries[..p] + c.entries[p + 1..];
    }
  }

  lemma RemoveKeepsEntries(s: Sys, id: nat)
    requires EntriesInv(s)
    ensures EntriesInv(Apply(s, RemoveEntry(id)))
  {
    RemoveDropsOne(s.cache, id);
    var t := Apply(s, RemoveEntry(id));
    forall i, k | 0 <= i < |t.execs| && 0 <= k < |t.cache.entries|
        && t.execs[i].Submitted() && t.cache.entries[k].id == t.execs[i].id
      ensures Agrees(t.cache.entries[k], t.execs[i])
    {
      assert t.cache.entries[k] in s.cache.entries;
    }
  }

  lemma ElapseKeepsEntries(s: Sys, i: nat)
    requires EntriesInv(s) && Enabled(s, Elapse(i))
    ensures EntriesInv(Apply(s, Elapse(i)))
  {
    PutKeepsEntries(s, i, s.cache, (s.cache, s.execs[i].(phase := Calling)));
  }

  lemma DropKeepsEntries(s: Sys, i: nat)
    requires EntriesInv(s) && Enabled(s, DropExec(i))
    ensures EntriesInv(Apply(s, DropExec(i)))
  {
    PutKeepsEntries(s, i, s.cache, (s.cache, s.execs[i].(phase := Dropped)));
  }

  lemma StepKeepsEntries(s: Sys, step: Step)
    requires EntriesInv(s) && Enabled(s, step)
    ensures EntriesInv(Apply(s, step))
  {
    match step
    case Submit(i, hook) => SubmitKeepsEntries(s, i, hook);
    case Wake(i, hook) => GatedKeepsEntries(s, i, s.cache, s.execs[i], hook);
    case Reply(i, failure) => ReplyKeepsEntries(s, i, failure);
    case Elapse(i) => ElapseKeepsEntries(s, i);
    case RemoveEntry(id) => RemoveKeepsEntries(s, id);
    case ResumeAll =>
    case ClearCache =>
    case DropExec(i) => DropKeepsEntries(s, i);
  }

  lemma {:induction false} RunKeepsEntries(s: Sys, steps: seq<Step>)
    requires EntriesInv(s) && ValidRun(s, steps)
    ensures EntriesInv(After(s, steps))
    decreases |steps|
  {
    if steps != [] {
      StepKeepsEntries(s, steps[0]);
      RunKeepsEntries(Apply(s, steps[0]), steps[1..]);
    }
  }

  /** In every run an entry still in the cache shows its execution's phase: a
      terminal status exactly once it settled, the right one, and paused only
      while it waits for its scope. */
  lemma EntriesTellTheTruth(s: Sys, steps: seq<Step>, i: nat)
    requires Start(s) && ValidRun(s, steps) && i < |s.execs|
    ensures var t := After(s, steps);
      && i < |t.execs|
      && (t.execs[i].Submitted() && Get(t.cache, t.execs[i].id).Some? ==>
          Agrees(Get(t.cache, t.execs[i].id).value, t.execs[i]))
  {
    RunKeepsEntries(s, steps);
    SameLength(s, steps);
  }

  lemma {:induction false} SameLength(s: Sys, steps: seq<Step>)
    requires ValidRun(s, steps)
    ensures |After(s, steps).execs| == |s.execs|
    decreases |steps|
  {
    if steps != [] { SameLength(Apply(s, steps[0]), steps[1..]); }
  }
}
