/**
  The code of src/mutation.rs between two awaits, working in place on the
  shared mutation cache. Each method takes exactly the step the scheduler of
  `ScopedMutations` takes, so its run theorems are about these methods.
 */
module MutationSteps {
  import opened Wrappers
  import opened MutationCaches
  import opened ScopedMutations

  /** `release_scope`: finish the scope, then pop the next queued id. */
  method ReleaseScope(cache: MutationCache, scope: Option<string>, acquired: bool)
    modifies cache
    ensures cache.State() == if acquired then Release(old(cache.State()), scope) else old(cache.State())
  {
    if acquired && scope.Some? {
      cache.MarkScopeFinished(scope.value);
      var next := cache.RunNextQueued(scope.value);
    }
  }

  /** `on_mutate` after the gate: the first mutate call is next, or the
      execution has settled with the hook's error and let its scope go. */
  method BeginExecution(cache: MutationCache, e: Exec, hook: Hook) returns (e': Exec)
    modifies cache
    ensures (cache.State(), e') == Begin(old(cache.State()), e, hook)
  {
    match hook {
      case NoHook => e' := e.(phase := Calling);
      case HookOk =>
        var found := cache.UpdateEntry(e.id, WithContext);
        e' := e.(rollback := true, phase := Calling);
      case HookErr(error) =>
        var found := cache.UpdateEntry(e.id, Failed(error));
        ReleaseScope(cache, e.scope, e.scope.Some?);
        e' := e.(phase := Settled(Some(error)));
    }
  }

  /** Mark the scope running and show the entry as no longer paused. */
  method TakeScope(cache: MutationCache, scope: string, id: nat)
    modifies cache
    ensures cache.State() == Acquire(old(cache.State()), scope, id)
  {
    cache.MarkScopeRunning(scope);
    var i := cache.Find(id);
    if i < |cache.entries| && cache.entries[i].isPaused {
      var found := cache.UpdateEntry(id, Unpaused);
    }
  }

  /** One turn of the gate loop; a watcher that parks has seen the version its
      scope has now. */
  method PassGate(cache: MutationCache, e: Exec, hook: Hook) returns (e': Exec)
    requires e.scope.Some? ==> e.scope.value in cache.release
    modifies cache
    ensures (cache.State(), e') == Gate(old(cache.State()), e, hook)
  {
    if e.scope.Some? {
      var free := cache.CanRunScope(e.scope.value);
      if !free {
        e' := e.(phase := Parked(cache.release[e.scope.value]));
        return;
      }
      TakeScope(cache, e.scope.value, e.id);
    }
    e' := BeginExecution(cache, e, hook);
  }

  /** From the call to the first await: add the entry, subscribe, pass the
      gate or park. */
  method SubmitExecution(cache: MutationCache, e: Exec, hook: Hook) returns (e': Exec)
    modifies cache
    ensures (cache.State(), e') ==
      Gate(Enter(old(cache.State()), e.scope), e.(id := old(cache.nextId) + 1), hook)
  {
    var id := cache.AddEntry(FreshEntry(e.scope));
    if e.scope.Some? {
      var seen := cache.Subscribe(e.scope.value);
    }
    e' := PassGate(cache, e.(id := id), hook);
  }

  /** A reply of the mutate function: sleep before a retry, or settle and
      release. */
  method HandleReply(cache: MutationCache, e: Exec, failure: Option<string>) returns (e': Exec)
    modifies cache
    ensures (cache.State(), e') == OnReply(old(cache.State()), e, failure)
  {
    if failure.Some? && e.used < e.retry {
      e' := e.(used := e.used + 1, phase := Sleeping);
      return;
    }
    if failure.None? {
      var found := cache.UpdateEntry(e.id, Succeeded);
    } else {
      var found := cache.UpdateEntry(e.id, Failed(failure.value));
    }
    ReleaseScope(cache, e.scope, e.scope.Some?);
    e' := e.(phase := Settled(failure));
  }

  /** Any step of any execution or of the surroundings, carried out in place,
      is the scheduler's step. */
  method TakeStep(cache: MutationCache, execs: seq<Exec>, step: Step) returns (execs': seq<Exec>)
    requires Enabled(Sys(cache.State(), execs), step)
    modifies cache
    ensures Sys(cache.State(), execs') == Apply(Sys(old(cache.State()), execs), step)
  {
    execs' := execs;
    match step {
      case Submit(i, hook) =>
        var e := SubmitExecution(cache, execs[i], hook);
        execs' := execs[i := e];
      case Wake(i, hook) =>
        var e := PassGate(cache, execs[i], hook);
        execs' := execs[i := e];
      case Reply(i, failure) =>
        var e := HandleReply(cache, execs[i], failure);
        execs' := execs[i := e];
      case Elapse(i) => execs' := execs[i := execs[i].(phase := Calling)];
      case RemoveEntry(id) => var found := cache.RemoveEntry(id);
      case ResumeAll => var resumed := cache.ResumePausedMutations();
      case ClearCache => cache.ClearAll();
      case DropExec(i) => execs' := execs[i := execs[i].(phase := Dropped)];
    }
  }

  /** So it keeps the system live exactly when it is careful, and every scope
      covered unless it drops a waiter. */
  method TakeStepSafely(cache: MutationCache, execs: seq<Exec>, step: Step) returns (execs': seq<Exec>)
    requires Enabled(Sys(cache.State(), execs), step) && Live(Sys(cache.State(), execs))
    modifies cache
    ensures Sys(cache.State(), execs') == Apply(Sys(old(cache.State()), execs), step)
    ensures Live(Sys(cache.State(), execs')) <==> Careful(Sys(old(cache.State()), execs), step)
    ensures Careful(Sys(old(cache.State()), execs), step) && !step.DropExec? ==>
      Keeps(Sys(old(cache.State()), execs), Sys(cache.State(), execs'))
  {
    StepKeepsInv(Sys(cache.State(), execs), step);
    execs' := TakeStep(cache, execs, step);
  }
}
