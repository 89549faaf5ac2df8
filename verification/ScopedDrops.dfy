/**
  What dropping the future of an execution does to the scheduler, and exactly
  when it does harm: a dropped waiter may leak its scope's entry, a dropped
  holder may strand the others.
 */
module ScopedDrops {
  import opened Wrappers
  import opened MutationCaches
  import opened ScopedMutations
  import opened ScopedEntries
  import opened ScopedLimits

  // ----- dropped waiters -----

  /** No tidy continuation that ends all of the scope's executions leaves its
      entry behind. */
  ghost predicate NeverLeaks(s: Sys, scope: string) {
    forall steps | CarefulRun(s, steps) && Tidy(s, steps, scope) ::
      Finished(After(s, steps), scope) ==> scope !in After(s, steps).cache.scopes
  }

  /** More ids are queued than waiters and holder can pop. */
  ghost predicate Overfull(s: Sys, scope: string) {
    var waiting, queued := Waiters(s, scope), |s.cache.Queue(scope)|;
    if s.cache.Running(scope) then queued > waiting else scope in s.cache.scopes && queued >= waiting
  }

  lemma CoveredUnlessOverfull(s: Sys, scope: string)
    ensures Covered(s, scope) <==> !Overfull(s, scope)
  {
  }

  lemma ElapseStaysOverfull(s: Sys, k: nat, scope: string)
    requires Live(s) && Overfull(s, scope) && Enabled(s, Elapse(k)) && Holder(scope)(s.execs[k]) == 1
    ensures Overfull(Apply(s, Elapse(k)), scope)
  {
    Counts(s, Apply(s, Elapse(k)), k);
  }

  lemma ReplyStaysOverfull(s: Sys, k: nat, scope: string)
    requires Live(s) && Overfull(s, scope) && Enabled(s, Reply(k, None)) && Holder(scope)(s.execs[k]) == 1
    ensures Overfull(Apply(s, Reply(k, None)), scope)
  {
    assert ExecInv(s.cache, s.execs[k]);
    assert Exclusive(s, scope);
    SumMember(Holder(scope), s.execs, k);
    ReleaseEffect(SettleSuccess(s.cache, s.execs[k].id), scope);
    Counts(s, Apply(s, Reply(k, None)), k);
  }

  lemma WakeStaysOverfull(s: Sys, k: nat, scope: string)
    requires Live(s) && Overfull(s, scope) && !s.cache.Running(scope)
    requires k < |s.execs| && s.execs[k].scope == Some(scope) && s.execs[k].phase.Parked?
    ensures Enabled(s, Wake(k, NoHook)) && Overfull(Apply(s, Wake(k, NoHook)), scope)
  {
    IdleScopeIsOpenToAll(s, k, scope);
    AcquireEffect(s.cache, scope, s.execs[k].id);
    Counts(s, Apply(s, Wake(k, NoHook)), k);
  }

  /** The next step towards the end of an overfull scope. */
  lemma NextTowardsLeak(s: Sys, scope: string) returns (step: Step)
    requires Live(s) && Overfull(s, scope) && !Finished(s, scope)
    ensures Enabled(s, step) && step.Work() && Overfull(Apply(s, step), scope)
  {
    assert Exclusive(s, scope);
    if s.cache.Running(scope) {
      var k := SumWitness(Holder(scope), s.execs);
      if s.execs[k].phase.Sleeping? {
        step := Elapse(k);
        ElapseStaysOverfull(s, k, scope);
      } else {
        step := Reply(k, None);
        ReplyStaysOverfull(s, k, scope);
      }
    } else {
      var k :| 0 <= k < |s.execs| && s.execs[k].scope == Some(scope)
        && !s.execs[k].Done() && !s.execs[k].phase.Unsubmitted?;
      SumMember(Holder(scope), s.execs, k);
      step := Wake(k, NoHook);
      WakeStaysOverfull(s, k, scope);
    }
  }

  /** An overfull scope can always be brought to a leak, by ordinary steps. */
  lemma {:induction false} LeakRun(s: Sys, scope: string) returns (steps: seq<Step>)
    requires Live(s) && Overfull(s, scope)
    ensures CarefulRun(s, steps) && Tidy(s, steps, scope)
    ensures Finished(After(s, steps), scope) && scope in After(s, steps).cache.scopes
    decreases Measure(s)
  {
    if Finished(s, scope) {
      steps := [];
      SumZero(Holder(scope), s.execs);
      assert Exclusive(s, scope);
    } else {
      var step := NextTowardsLeak(s, scope);
      StepKeepsInv(s, step);
      StepMeasure(s, step);
      var rest := LeakRun(Apply(s, step), scope);
      RunCons(s, step, rest);
      steps := [step] + rest;
      assert steps[1..] == rest;
    }
  }

  /** Leak-freedom exactly: a scope's entry is gone at the end of every tidy
      continuation if and only if its queue is covered now. */
  lemma NeverLeaksIff(s: Sys, scope: string)
    requires Live(s)
    ensures NeverLeaks(s, scope) <==> Covered(s, scope)
  {
    CoveredUnlessOverfull(s, scope);
    if Covered(s, scope) {
      forall steps | CarefulRun(s, steps) && Tidy(s, steps, scope) && Finished(After(s, steps), scope)
        ensures scope !in After(s, steps).cache.scopes
      {
        RunKeepsLive(s, steps);
        RunKeepsCover(s, steps, scope);
        FinishedLeavesNothing(After(s, steps), scope);
      }
    } else {
      var steps := LeakRun(s, scope);
      assert !NeverLeaks(s, scope);
    }
  }

  /** Dropping a waiter is harmless for exclusion and progress, and leaks its
      scope's entry in some continuation unless the queue had spare room. */
  lemma DroppedWaiterNeverLeaksIff(s: Sys, i: nat, scope: string)
    requires Live(s) && Covered(s, scope)
    requires i < |s.execs| && s.execs[i].scope == Some(scope) && s.execs[i].phase.Parked?
    ensures Live(Apply(s, DropExec(i)))
    ensures NeverLeaks(Apply(s, DropExec(i)), scope) <==> SpareRoom(s, scope)
  {
    DropKeepsLiveIff(s, i);
    DropKeepsCoverIff(s, i, scope);
    NeverLeaksIff(Apply(s, DropExec(i)), scope);
  }

  /** One waiter behind one holder, dropped: both executions end and the
      scope's entry stays. */
  lemma DroppedWaiterLeaks() returns (s: Sys, steps: seq<Step>)
    ensures Start(s) && CarefulRun(s, steps)
    ensures var t := After(s, steps);
      && (forall i :: 0 <= i < |t.execs| ==> t.execs[i].Done())
      && "s" in t.cache.scopes && t.cache.Queue("s") == []
  {
    var s1, s2;
    s, s1, s2 := TwoSubmitted([]);
    assert s2.execs == [Exec(Some("s"), 0, 0, 1, false, Calling), Exec(Some("s"), 0, 0, 2, false, Parked(0))];
    steps := DropThenReply(s2);
    RunCons(s1, Submit(1, NoHook), steps);
    steps := [Submit(1, NoHook)] + steps;
    RunCons(s, Submit(0, NoHook), steps);
    steps := [Submit(0, NoHook)] + steps;
  }

  lemma DropThenReply(s: Sys) returns (steps: seq<Step>)
    requires s.cache.scopes == map["s" := ScopeState(true, [2])] && s.cache.release == map["s" := 0]
    requires s.execs == [Exec(Some("s"), 0, 0, 1, false, Calling), Exec(Some("s"), 0, 0, 2, false, Parked(0))]
    ensures CarefulRun(s, steps)
    ensures var t := After(s, steps);
      && (forall i :: 0 <= i < |t.execs| ==> t.execs[i].Done())
      && t.cache.scopes == map["s" := ScopeState(false, [])]
  {
    var d := Apply(s, DropExec(1));
    var c := SettleSuccess(d.cache, 1);
    assert MarkFinished(c, "s").scopes == map["s" := ScopeState(false, [2])];
    assert [2][1..] == [];
    RunCons(d, Reply(0, None), []);
    RunCons(s, DropExec(1), [Reply(0, None)] + []);
    steps := [DropExec(1)] + ([Reply(0, None)] + []);
  }

  // ----- dropped holders -----

  /** A scope marked running that nobody holds. */
  ghost predicate Orphaned(s: Sys, scope: string) {
    s.cache.Running(scope) && Holders(s, scope) == 0
  }

  /** `t` is still orphaned, and nothing of the scope settled since `s`. */
  ghost predicate Stranded(s: Sys, t: Sys, scope: string) {
    && Orphaned(t, scope) && |t.execs| == |s.execs|
    && forall j :: 0 <= j < |s.execs| ==>
         && t.execs[j].scope == s.execs[j].scope
         && (t.execs[j].scope == Some(scope) && t.execs[j].phase.Settled? ==> s.execs[j].phase.Settled?)
  }

  lemma ReleaseElsewhere(c: CacheState, released: Option<string>, scope: string)
    requires released != Some(scope)
    ensures Release(c, released).Running(scope) == c.Running(scope)
  {
  }

  /** Execution `e` neither holds nor has settled in the scope. */
  predicate KeptOut(e: Exec, scope: string) {
    e.scope == Some(scope) ==> !e.Holds() && !e.phase.Settled?
  }

  /** Nothing done at the gate frees or takes a busy scope. */
  lemma GateLeavesBusyScope(c: CacheState, e: Exec, hook: Hook, scope: string)
    requires e.scope.Some? ==> e.scope.value in c.release
    requires c.Running(scope)
    ensures var r := Gate(c, e, hook);
      r.0.Running(scope) && r.1.scope == e.scope && KeptOut(r.1, scope)
  {
    if e.scope != Some(scope) {
      var c1 := if e.scope.Some? then Acquire(c, e.scope.value, e.id) else c;
      assert c1.Running(scope);
      if hook.HookErr? { ReleaseElsewhere(SettleError(c1, e.id, hook.error), e.scope, scope); }
    }
  }

  lemma OrphanPut(s: Sys, i: nat, r: (CacheState, Exec), scope: string)
    requires Orphaned(s, scope) && i < |s.execs|
    requires r.0.Running(scope) && r.1.scope == s.execs[i].scope && KeptOut(r.1, scope)
    ensures Stranded(s, Put(s, i, r), scope)
  {
    SumUpdate(Holder(scope), s.execs, i, r.1);
  }

  lemma OrphanReply(s: Sys, i: nat, failure: Option<string>, scope: string)
    requires Orphaned(s, scope) && Enabled(s, Reply(i, failure))
    ensures Stranded(s, Apply(s, Reply(i, failure)), scope)
  {
    var e := s.execs[i];
    SumMember(Holder(scope), s.execs, i);
    ReleaseElsewhere(SettledCache(s.cache, e.id, failure), e.scope, scope);
    OrphanPut(s, i, OnReply(s.cache, e, failure), scope);
  }

  lemma OrphanSubmit(s: Sys, i: nat, hook: Hook, scope: string)
    requires Orphaned(s, scope) && Enabled(s, Submit(i, hook))
    ensures Stranded(s, Apply(s, Submit(i, hook)), scope)
  {
    var e := s.execs[i].(id := s.cache.nextId + 1);
    var c := Enter(s.cache, e.scope);
    GateLeavesBusyScope(c, e, hook, scope);
    OrphanPut(s, i, Gate(c, e, hook), scope);
  }

  lemma OrphanStep(s: Sys, step: Step, scope: string)
    requires Orphaned(s, scope) && Enabled(s, step) && !step.ClearCache?
    ensures Stranded(s, Apply(s, step), scope)
  {
    match step
    case Submit(i, hook) => OrphanSubmit(s, i, hook, scope);
    case Wake(i, hook) =>
      GateLeavesBusyScope(s.cache, s.execs[i], hook, scope);
      OrphanPut(s, i, Gate(s.cache, s.execs[i], hook), scope);
    case Reply(i, failure) => OrphanReply(s, i, failure, scope);
    case Elapse(i) =>
      SumMember(Holder(scope), s.execs, i);
      OrphanPut(s, i, (s.cache, s.execs[i].(phase := Calling)), scope);
    case RemoveEntry(_) =>
    case ResumeAll =>
    case DropExec(i) => OrphanPut(s, i, (s.cache, s.execs[i].(phase := Dropped)), scope);
  }

  lemma {:induction false} OrphanRun(s: Sys, steps: seq<Step>, scope: string)
    requires Orphaned(s, scope) && ValidRun(s, steps)
    requires forall k :: 0 <= k < |steps| ==> !steps[k].ClearCache?
    ensures Stranded(s, After(s, steps), scope)
    decreases |steps|
  {
    if steps != [] {
      OrphanStep(s, steps[0], scope);
      OrphanRun(Apply(s, steps[0]), steps[1..], scope);
    }
  }

  /** Once the future holding a scope is dropped, no execution ever runs in
      that scope again and none that had not settled ever settles, however the
      run goes on, until somebody clears the cache. */
  lemma DroppedHolderBlocksItsScope(s: Sys, i: nat, steps: seq<Step>)
    requires Live(s) && i < |s.execs| && s.execs[i].scope.Some? && s.execs[i].Holds()
    requires ValidRun(Apply(s, DropExec(i)), steps)
    requires forall k :: 0 <= k < |steps| ==> !steps[k].ClearCache?
    ensures var t := After(Apply(s, DropExec(i)), steps);
      |t.execs| == |s.execs| && forall j :: 0 <= j < |t.execs| && t.execs[j].scope == s.execs[i].scope ==>
        !t.execs[j].Holds() && (t.execs[j].phase.Settled? ==> s.execs[j].phase.Settled?)
  {
    var sc := s.execs[i].scope.value;
    var d := Apply(s, DropExec(i));
    assert Exclusive(s, sc);
    SumUpdate(Holder(sc), s.execs, i, d.execs[i]);
    SumMember(Holder(sc), s.execs, i);
    OrphanRun(d, steps, sc);
    var t := After(d, steps);
    forall j | 0 <= j < |t.execs| && t.execs[j].scope == s.execs[i].scope
      ensures !t.execs[j].Holds()
    {
      SumMember(Holder(sc), t.execs, j);
    }
  }

  // ----- which drops strand somebody -----

  ghost predicate NoDrop(steps: seq<Step>) {
    forall k :: 0 <= k < |steps| ==> !steps[k].DropExec?
  }

  ghost predicate AllDone(s: Sys) {
    forall i :: 0 <= i < |s.execs| ==> s.execs[i].Done()
  }

  /** Without clearing or dropping anything, every execution can still come to
      its end. */
  ghost predicate CanFinish(s: Sys) {
    exists steps :: ValidRun(s, steps) && NoClear(steps) && NoDrop(steps) && AllDone(After(s, steps))
  }

  lemma {:induction false} FinishRun(s: Sys) returns (steps: seq<Step>)
    requires Live(s)
    ensures ValidRun(s, steps) && NoClear(steps) && NoDrop(steps) && AllDone(After(s, steps))
    decreases Measure(s)
  {
    if AllDone(s) {
      steps := [];
    } else {
      var step := Progress(s);
      StepKeepsInv(s, step);
      StepMeasure(s, step);
      var rest := FinishRun(Apply(s, step));
      steps := [step] + rest;
      assert steps[1..] == rest;
    }
  }

  /** The system without its memory of one scope. */
  ghost function Forget(s: Sys, scope: string): Sys {
    s.(cache := ForgetIn(s.cache, scope))
  }

  ghost function ForgetIn(c: CacheState, scope: string): CacheState {
    c.(scopes := c.scopes - {scope})
  }

  lemma FinishForgets(c: CacheState, sc: string, scope: string)
    requires sc != scope
    ensures MarkFinished(ForgetIn(c, scope), sc) == ForgetIn(MarkFinished(c, sc), scope)
  {
    assert MarkFinished(ForgetIn(c, scope), sc).scopes == MarkFinished(c, sc).scopes - {scope};
  }

  lemma RunNextForgets(c: CacheState, sc: string, scope: string)
    requires sc != scope
    ensures RunNext(ForgetIn(c, scope), sc) == ForgetIn(RunNext(c, sc), scope)
  {
    assert RunNext(ForgetIn(c, scope), sc).scopes == RunNext(c, sc).scopes - {scope};
  }

  lemma ReleaseForgets(c: CacheState, released: Option<string>, scope: string)
    requires released != Some(scope)
    ensures Release(ForgetIn(c, scope), released) == ForgetIn(Release(c, released), scope)
  {
    if released.Some? {
      FinishForgets(c, released.value, scope);
      RunNextForgets(MarkFinished(c, released.value), released.value, scope);
    }
  }

  lemma BeginForgets(c: CacheState, e: Exec, hook: Hook, scope: string)
    requires e.scope != Some(scope)
    ensures var r, f := Begin(c, e, hook), Begin(ForgetIn(c, scope), e, hook);
      f == (ForgetIn(r.0, scope), r.1)
  {
    if hook.HookErr? {
      ReleaseForgets(SettleError(c, e.id, hook.error), e.scope, scope);
      assert SettleError(ForgetIn(c, scope), e.id, hook.error) == ForgetIn(SettleError(c, e.id, hook.error), scope);
    }
  }

  lemma GateForgets(c: CacheState, e: Exec, hook: Hook, scope: string)
    requires e.scope.Some? ==> e.scope.value in c.release
    requires e.scope != Some(scope)
    ensures var r, f := Gate(c, e, hook), Gate(ForgetIn(c, scope), e, hook);
      f == (ForgetIn(r.0, scope), r.1)
  {
    if e.scope.None? {
      BeginForgets(c, e, hook, scope);
    } else {
      var sc := e.scope.value;
      var d := ForgetIn(c, scope);
      if CanRun(c, sc) {
        assert MarkRunning(d, sc).scopes == MarkRunning(c, sc).scopes - {scope};
        assert Acquire(d, sc, e.id) == ForgetIn(Acquire(c, sc, e.id), scope);
        BeginForgets(Acquire(c, sc, e.id), e, hook, scope);
      }
    }
  }

  lemma AddForgets(c: CacheState, entry: Entry, scope: string)
    requires entry.scope != Some(scope)
    ensures Add(ForgetIn(c, scope), entry) == ForgetIn(Add(c, entry), scope)
  {
    assert Add(ForgetIn(c, scope), entry).scopes == Add(c, entry).scopes - {scope};
  }

  lemma EnterForgets(c: CacheState, entered: Option<string>, scope: string)
    requires entered != Some(scope)
    ensures Enter(ForgetIn(c, scope), entered) == ForgetIn(Enter(c, entered), scope)
  {
    AddForgets(c, FreshEntry(entered), scope);
  }

  lemma RemoveForgets(c: CacheState, id: nat, scope: string)
    ensures Remove(ForgetIn(c, scope), id) == ForgetIn(Remove(c, id), scope)
  {
    assert Remove(ForgetIn(c, scope), id).scopes == Remove(c, id).scopes - {scope};
  }

  /** The step of a system and of the same system with the scope forgotten. */
  ghost predicate Forgets(s: Sys, step: Step, scope: string)
    requires Enabled(s, step)
  {
    Enabled(Forget(s, scope), step) && Apply(Forget(s, scope), step) == Forget(Apply(s, step), scope)
  }

  lemma PutForgets(s: Sys, i: nat, r: (CacheState, Exec), f: (CacheState, Exec), scope: string)
    requires i < |s.execs| && f == (ForgetIn(r.0, scope), r.1)
    ensures Put(Forget(s, scope), i, f) == Forget(Put(s, i, r), scope)
  {
  }

  lemma NewcomerForgets(c: CacheState, e: Exec, hook: Hook, scope: string)
    requires e.scope != Some(scope)
    ensures var r, f := Gate(Enter(c, e.scope), e, hook), Gate(Enter(ForgetIn(c, scope), e.scope), e, hook);
      f == (ForgetIn(r.0, scope), r.1)
  {
    EnterForgets(c, e.scope, scope);
    GateForgets(Enter(c, e.scope), e, hook, scope);
  }

  lemma SubmitIsPut(s: Sys, i: nat, hook: Hook, e: Exec)
    requires Enabled(s, Submit(i, hook)) && e == s.execs[i].(id := s.cache.nextId + 1)
    ensures Apply(s, Submit(i, hook)) == Put(s, i, Gate(Enter(s.cache, e.scope), e, hook))
  {
  }

  lemma SubmitForgets(s: Sys, i: nat, hook: Hook, scope: string)
    requires Enabled(s, Submit(i, hook)) && s.execs[i].scope != Some(scope)
    ensures Forgets(s, Submit(i, hook), scope)
  {
    var e, t := s.execs[i].(id := s.cache.nextId + 1), Forget(s, scope);
    assert Enabled(t, Submit(i, hook));
    assert Apply(t, Submit(i, hook)) == Forget(Apply(s, Submit(i, hook)), scope) by {
      SubmitIsPut(s, i, hook, e);
      SubmitIsPut(t, i, hook, e);
      NewcomerForgets(s.cache, e, hook, scope);
      PutForgets(s, i, Gate(Enter(s.cache, e.scope), e, hook), Gate(Enter(t.cache, e.scope), e, hook), scope);
    }
  }

  lemma WakeForgets(s: Sys, i: nat, hook: Hook, scope: string)
    requires Enabled(s, Wake(i, hook)) && s.execs[i].scope != Some(scope)
    ensures Forgets(s, Wake(i, hook), scope)
  {
    GateForgets(s.cache, s.execs[i], hook, scope);
  }

  lemma ReplyForgets(s: Sys, i: nat, failure: Option<string>, scope: string)
    requires Enabled(s, Reply(i, failure)) && s.execs[i].scope != Some(scope)
    ensures Forgets(s, Reply(i, failure), scope)
  {
    var e := s.execs[i];
    ReleaseForgets(SettledCache(s.cache, e.id, failure), e.scope, scope);
    assert SettledCache(ForgetIn(s.cache, scope), e.id, failure) == ForgetIn(SettledCache(s.cache, e.id, failure), scope);
  }

  /** A scope whose executions are all over is nobody's business: the system
      behaves as if it were forgotten. */
  lemma StepForgets(s: Sys, step: Step, scope: string)
    requires Enabled(s, step) && NoRival(s, |s.execs|, scope)
    ensures Forgets(s, step, scope)
  {
    match step
    case Submit(i, hook) => SubmitForgets(s, i, hook, scope);
    case Wake(i, hook) => WakeForgets(s, i, hook, scope);
    case Reply(i, failure) => ReplyForgets(s, i, failure, scope);
    case Elapse(i) =>
    case RemoveEntry(id) => RemoveForgets(s.cache, id, scope);
    case ResumeAll =>
    case ClearCache => assert Clear(s.cache).scopes - {scope} == map[];
    case DropExec(i) =>
  }

  lemma StepKeepsNoRival(s: Sys, step: Step, i: nat, scope: string)
    requires Enabled(s, step) && NoRival(s, i, scope)
    ensures NoRival(Apply(s, step), i, scope) && |Apply(s, step).execs| == |s.execs|
  {
  }

  lemma {:induction false} RunForgets(s: Sys, steps: seq<Step>, scope: string)
    requires ValidRun(Forget(s, scope), steps) && NoRival(s, |s.execs|, scope)
    ensures ValidRun(s, steps)
    ensures After(Forget(s, scope), steps) == Forget(After(s, steps), scope)
    decreases |steps|
  {
    if steps != [] {
      assert Enabled(s, steps[0]);
      StepForgets(s, steps[0], scope);
      StepKeepsNoRival(s, steps[0], |s.execs|, scope);
      RunForgets(Apply(s, steps[0]), steps[1..], scope);
    }
  }

  /** Forgetting the scope of a dropped holder without rivals leaves a live
      system. */
  lemma ForgottenIsLive(s: Sys, i: nat, scope: string)
    requires Live(s) && i < |s.execs| && s.execs[i].scope == Some(scope) && s.execs[i].Holds()
    requires NoRival(s, i, scope)
    ensures Live(Forget(Apply(s, DropExec(i)), scope))
  {
    var d := Apply(s, DropExec(i));
    var t := Forget(d, scope);
    Counts(s, d, i);
    forall other: string
      ensures Exclusive(t, other)
    {
      assert Exclusive(s, other);
      if other == scope { SumZero(Holder(scope), t.execs); }
    }
    forall k | 0 <= k < |t.execs|
      ensures ExecInv(t.cache, t.execs[k])
    {
      assert ExecInv(s.cache, s.execs[k]);
    }
  }

  lemma HolderDropCanFinish(s: Sys, i: nat, scope: string)
    requires Live(s) && i < |s.execs| && s.execs[i].scope == Some(scope) && s.execs[i].Holds()
    requires NoRival(s, i, scope)
    ensures CanFinish(Apply(s, DropExec(i)))
  {
    var d := Apply(s, DropExec(i));
    ForgottenIsLive(s, i, scope);
    var steps := FinishRun(Forget(d, scope));
    RunForgets(d, steps, scope);
    assert AllDone(After(d, steps));
  }

  lemma HolderDropStrands(s: Sys, i: nat, j: nat, scope: string)
    requires Live(s) && i < |s.execs| && s.execs[i].scope == Some(scope) && s.execs[i].Holds()
    requires j < |s.execs| && j != i && s.execs[j].scope == Some(scope) && !s.execs[j].Done()
    ensures !CanFinish(Apply(s, DropExec(i)))
  {
    var d := Apply(s, DropExec(i));
    forall steps | ValidRun(d, steps) && NoClear(steps) && NoDrop(steps)
      ensures !AllDone(After(d, steps))
    {
      DroppedHolderBlocksItsScope(s, i, steps);
      UndroppedStays(d, steps, j);
      KeepsScopes(d, steps, j);
    }
  }

  lemma {:induction false} UndroppedStays(s: Sys, steps: seq<Step>, j: nat)
    requires ValidRun(s, steps) && NoDrop(steps) && j < |s.execs| && !s.execs[j].phase.Dropped?
    ensures j < |After(s, steps).execs| && !After(s, steps).execs[j].phase.Dropped?
    decreases |steps|
  {
    if steps != [] { UndroppedStays(Apply(s, steps[0]), steps[1..], j); }
  }

  lemma {:induction false} KeepsScopes(s: Sys, steps: seq<Step>, j: nat)
    requires ValidRun(s, steps) && j < |s.execs|
    ensures j < |After(s, steps).execs| && After(s, steps).execs[j].scope == s.execs[j].scope
    decreases |steps|
  {
    if steps != [] { KeepsScopes(Apply(s, steps[0]), steps[1..], j); }
  }

  /** Dropping an execution leaves all others able to finish if and only if it
      did not hold a scope with another unfinished execution. */
  lemma DropLetsOthersFinishIff(s: Sys, i: nat)
    requires Live(s) && Enabled(s, DropExec(i))
    ensures CanFinish(Apply(s, DropExec(i))) <==>
      !(s.execs[i].scope.Some? && s.execs[i].Holds() && !NoRival(s, i, s.execs[i].scope.value))
  {
    var d := Apply(s, DropExec(i));
    if s.execs[i].scope.Some? && s.execs[i].Holds() {
      var scope := s.execs[i].scope.value;
      if NoRival(s, i, scope) {
        HolderDropCanFinish(s, i, scope);
      } else {
        var j :| 0 <= j < |s.execs| && j != i && s.execs[j].scope == Some(scope) && !s.execs[j].Done();
        HolderDropStrands(s, i, j, scope);
      }
    } else {
      DropKeepsLiveIff(s, i);
      var steps := FinishRun(d);
    }
  }
}
