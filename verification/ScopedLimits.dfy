/**
  Where the scheduler's promises end, and exactly where: clearing the cache
  under a holder and the order of waiters.
 */
module ScopedLimits {
  import opened Wrappers
  import opened MutationCaches
  import opened ScopedMutations
  import opened ScopedEntries

  lemma RunCons(s: Sys, step: Step, rest: seq<Step>)
    requires Enabled(s, step) && Careful(s, step) && CarefulRun(Apply(s, step), rest)
    ensures CarefulRun(s, [step] + rest)
    ensures After(s, [step] + rest) == After(Apply(s, step), rest)
  {
    assert ([step] + rest)[1..] == rest;
  }

  // ----- clearing under a holder -----

  /** Two unsettled executions of one scope overlap after `clear` runs while
      the scope is held. */
  lemma ClearWhileHeldBreaksExclusion() returns (s: Sys, t: Sys)
    ensures Start(s) && Enabled(s, Submit(0, NoHook))
    ensures Enabled(Apply(Apply(s, Submit(0, NoHook)), ClearCache), Submit(1, NoHook))
    ensures t == Apply(Apply(Apply(s, Submit(0, NoHook)), ClearCache), Submit(1, NoHook))
    ensures |t.execs| == 2 && t.execs[0].scope == t.execs[1].scope == Some("s")
    ensures t.execs[0].Holds() && t.execs[1].Holds()
  {
    var e := Exec(Some("s"), 0, 0, 0, false, Unsubmitted);
    s := Sys(EMPTY, [e, e]);
    t := Apply(Apply(Apply(s, Submit(0, NoHook)), ClearCache), Submit(1, NoHook));
  }

  /** However it came about: once the cache is cleared under a holder, any
      newcomer to its scope, and any waiter with an unseen release, runs beside
      it at its next step. */
  lemma ClearUnderHolderOverlaps(s: Sys, i: nat, step: Step)
    requires Live(s) && i < |s.execs| && s.execs[i].scope.Some? && s.execs[i].Holds()
    requires (step.Submit? || step.Wake?) && step.hook.NoHook? && Enabled(Apply(s, ClearCache), step)
    requires step.i < |s.execs| && s.execs[step.i].scope == s.execs[i].scope
    ensures var t := Apply(Apply(s, ClearCache), step);
      |t.execs| == |s.execs| && i != step.i && t.execs[i].Holds() && t.execs[step.i].Holds()
  {
  }

  /** Nobody can enter the scope before its version moves on: nobody is yet to
      be submitted to it, and every waiter has seen its version. */
  ghost predicate Quiet(s: Sys, scope: string) {
    forall i :: 0 <= i < |s.execs| && s.execs[i].scope == Some(scope) ==>
      && !s.execs[i].phase.Unsubmitted?
      && (s.execs[i].phase.Parked? ==>
          scope in s.cache.release && s.cache.release[scope] == s.execs[i].phase.seen)
  }

  /** At most one holder, and one that the flag does not show has nobody to
      meet. */
  ghost predicate Alone(s: Sys, scope: string) {
    Holders(s, scope) <= 1 && (Holders(s, scope) == 1 && !s.cache.Running(scope) ==> Quiet(s, scope))
  }

  /** No continuation without another `clear` ever has two holders of one
      scope, whatever else happens, dropped holders included. */
  ghost predicate NeverOverlaps(s: Sys) {
    forall steps, scope: string | ValidRun(s, steps) && NoClear(steps) :: Holders(After(s, steps), scope) <= 1
  }

  ghost predicate NoClear(steps: seq<Step>) {
    forall k :: 0 <= k < |steps| ==> !steps[k].ClearCache?
  }

  lemma ReleaseFrame(c: CacheState, released: Option<string>, scope: string)
    requires released != Some(scope)
    ensures var r := Release(c, released);
      && r.Running(scope) == c.Running(scope) && (scope in r.release <==> scope in c.release)
      && (scope in c.release ==> r.release[scope] == c.release[scope])
  {
  }

  /** A step of one execution leaves the other scopes alone. */
  ghost predicate OtherScope(c: CacheState, d: CacheState, scope: string) {
    && d.Running(scope) == c.Running(scope)
    && (scope in c.release ==> scope in d.release && d.release[scope] == c.release[scope])
  }

  lemma BeginElsewhere(c: CacheState, e: Exec, hook: Hook, scope: string)
    requires e.scope != Some(scope)
    ensures OtherScope(c, Begin(c, e, hook).0, scope) && Begin(c, e, hook).1.scope == e.scope
  {
    if hook.HookErr? { ReleaseFrame(SettleError(c, e.id, hook.error), e.scope, scope); }
  }

  lemma GateElsewhere(c: CacheState, e: Exec, hook: Hook, scope: string)
    requires e.scope.Some? ==> e.scope.value in c.release
    requires e.scope != Some(scope)
    ensures OtherScope(c, Gate(c, e, hook).0, scope) && Gate(c, e, hook).1.scope == e.scope
  {
    if e.scope.Some? && CanRun(c, e.scope.value) {
      BeginElsewhere(Acquire(c, e.scope.value, e.id), e, hook, scope);
    } else if e.scope.None? {
      BeginElsewhere(c, e, hook, scope);
    }
  }

  lemma PutElsewhere(s: Sys, i: nat, r: (CacheState, Exec), scope: string)
    requires i < |s.execs| && Alone(s, scope) && s.execs[i].scope == r.1.scope != Some(scope)
    requires OtherScope(s.cache, r.0, scope)
    ensures Alone(Put(s, i, r), scope)
  {
    SumUpdate(Holder(scope), s.execs, i, r.1);
  }

  /** At the scope itself: somebody takes it only when nobody holds it, since an
      unshown holder leaves nobody who could. */
  lemma GateStaysAlone(s: Sys, i: nat, c: CacheState, e: Exec, hook: Hook, scope: string)
    requires i < |s.execs| && Alone(s, scope) && s.execs[i].scope == e.scope == Some(scope)
    requires Holder(scope)(s.execs[i]) == 0 && scope in c.release && c.Running(scope) == s.cache.Running(scope)
    requires !Quiet(s, scope)
    ensures Alone(Put(s, i, Gate(c, e, hook)), scope)
  {
    var r := Gate(c, e, hook);
    SumUpdate(Holder(scope), s.execs, i, r.1);
    if CanRun(c, scope) && !hook.HookErr? { AcquireEffect(c, scope, e.id); }
  }

  lemma SubmitStaysAlone(s: Sys, i: nat, hook: Hook, scope: string)
    requires Alone(s, scope) && Enabled(s, Submit(i, hook))
    ensures Alone(Apply(s, Submit(i, hook)), scope)
  {
    var e := s.execs[i].(id := s.cache.nextId + 1);
    var c := Enter(s.cache, e.scope);
    if e.scope == Some(scope) {
      EnterKeepsTable(s.cache, scope);
      GateStaysAlone(s, i, c, e, hook, scope);
    } else {
      assert OtherScope(s.cache, c, scope);
      GateElsewhere(c, e, hook, scope);
      PutElsewhere(s, i, Gate(c, e, hook), scope);
    }
  }

  lemma WakeStaysAlone(s: Sys, i: nat, hook: Hook, scope: string)
    requires Alone(s, scope) && Enabled(s, Wake(i, hook))
    ensures Alone(Apply(s, Wake(i, hook)), scope)
  {
    if s.execs[i].scope == Some(scope) {
      GateStaysAlone(s, i, s.cache, s.execs[i], hook, scope);
    } else {
      GateElsewhere(s.cache, s.execs[i], hook, scope);
      PutElsewhere(s, i, Gate(s.cache, s.execs[i], hook), scope);
    }
  }

  lemma ReplyStaysAlone(s: Sys, i: nat, failure: Option<string>, scope: string)
    requires Alone(s, scope) && Enabled(s, Reply(i, failure))
    ensures Alone(Apply(s, Reply(i, failure)), scope)
  {
    var r := OnReply(s.cache, s.execs[i], failure);
    if s.execs[i].scope == Some(scope) {
      SumUpdate(Holder(scope), s.execs, i, r.1);
    } else {
      ReleaseFrame(SettledCache(s.cache, s.execs[i].id, failure), s.execs[i].scope, scope);
      PutElsewhere(s, i, r, scope);
    }
  }

  lemma StepStaysAlone(s: Sys, step: Step, scope: string)
    requires Alone(s, scope) && Enabled(s, step) && !step.ClearCache?
    ensures Alone(Apply(s, step), scope)
  {
    match step
    case Submit(i, hook) => SubmitStaysAlone(s, i, hook, scope);
    case Wake(i, hook) => WakeStaysAlone(s, i, hook, scope);
    case Reply(i, failure) => ReplyStaysAlone(s, i, failure, scope);
    case Elapse(i) => SumUpdate(Holder(scope), s.execs, i, s.execs[i].(phase := Calling));
    case RemoveEntry(_) =>
    case ResumeAll =>
    case DropExec(i) => SumUpdate(Holder(scope), s.execs, i, s.execs[i].(phase := Dropped));
  }

  lemma {:induction false} RunStaysAlone(s: Sys, steps: seq<Step>, scope: string)
    requires Alone(s, scope) && ValidRun(s, steps) && NoClear(steps)
    ensures Alone(After(s, steps), scope)
    decreases |steps|
  {
    if steps != [] {
      StepStaysAlone(s, steps[0], scope);
      RunStaysAlone(Apply(s, steps[0]), steps[1..], scope);
    }
  }

  /** Exclusion after any history: it holds for good, whatever is dropped, if and
      only if every scope has at most one holder now and no holder that the flag
      does not show can be met. */
  lemma NeverOverlapsIff(s: Sys)
    requires forall i :: 0 <= i < |s.execs| && s.execs[i].Submitted() && s.execs[i].scope.Some? ==>
      s.execs[i].scope.value in s.cache.release
    ensures NeverOverlaps(s) <==> forall scope: string :: Alone(s, scope)
  {
    if forall scope: string :: Alone(s, scope) {
      forall steps, scope: string | ValidRun(s, steps) && NoClear(steps)
        ensures Holders(After(s, steps), scope) <= 1
      {
        RunStaysAlone(s, steps, scope);
      }
    } else {
      var scope: string :| !Alone(s, scope);
      var steps := OverlapRun(s, scope);
      assert !NeverOverlaps(s);
    }
  }

  /** From a state that is not so, two holders are at most one step away. */
  lemma OverlapRun(s: Sys, scope: string) returns (steps: seq<Step>)
    requires !Alone(s, scope)
    requires forall i :: 0 <= i < |s.execs| && s.execs[i].Submitted() && s.execs[i].scope.Some? ==>
      s.execs[i].scope.value in s.cache.release
    ensures ValidRun(s, steps) && NoClear(steps) && Holders(After(s, steps), scope) > 1
  {
    if Holders(s, scope) > 1 {
      steps := [];
    } else {
      var j :| 0 <= j < |s.execs| && s.execs[j].scope == Some(scope)
        && (s.execs[j].phase.Unsubmitted? || (s.execs[j].phase.Parked? && s.cache.release[scope] != s.execs[j].phase.seen));
      IntruderHolds(s, j, scope);
      steps := [TakeNow(s, j)];
      assert After(s, steps) == Apply(s, steps[0]);
    }
  }

  /** Whoever can step up to a scope that is not shown as held takes it. */
  lemma IntruderHolds(s: Sys, j: nat, scope: string)
    requires j < |s.execs| && s.execs[j].scope == Some(scope) && !s.cache.Running(scope)
    requires Enabled(s, TakeNow(s, j))
    ensures Holders(Apply(s, TakeNow(s, j)), scope) == Holders(s, scope) + 1
  {
    SumUpdate(Holder(scope), s.execs, j, Apply(s, TakeNow(s, j)).execs[j]);
  }

  /** So after `clear` no two executions of a scope ever overlap if and only if
      no scope held at that moment has an execution yet to be submitted or a
      waiter with an unseen version. */
  lemma ClearNeverOverlapsIff(s: Sys)
    requires Live(s)
    ensures NeverOverlaps(Apply(s, ClearCache)) <==>
      forall scope: string :: Holders(s, scope) == 1 ==> Quiet(s, scope)
  {
    var t := Apply(s, ClearCache);
    forall i | 0 <= i < |s.execs| && s.execs[i].Submitted() && s.execs[i].scope.Some?
      ensures s.execs[i].scope.value in t.cache.release
    {
      assert ExecInv(s.cache, s.execs[i]);
    }
    NeverOverlapsIff(t);
    forall scope: string
      ensures Alone(t, scope) <==> (Holders(s, scope) == 1 ==> Quiet(s, scope))
    {
      assert Exclusive(s, scope);
    }
  }

  /** And without any `clear`, no drop breaks exclusion: from an empty cache no
      two executions of a scope ever overlap. */
  lemma DropsNeverOverlap(s: Sys)
    requires Start(s)
    ensures NeverOverlaps(s)
  {
    StartInv(s);
    forall scope: string
      ensures Alone(s, scope)
    {
      assert Exclusive(s, scope);
    }
    NeverOverlapsIff(s);
  }

  // ----- the queue is advisory -----

  /** A first submission takes its scope. */
  lemma FirstSubmit(s: Sys)
    requires s.cache == EMPTY && |s.execs| > 0 && s.execs[0] == Exec(Some("s"), 0, 0, 0, false, Unsubmitted)
    ensures var t := Apply(s, Submit(0, NoHook));
      && t.cache.scopes == map["s" := ScopeState(true, [])] && t.cache.release == map["s" := 0]
      && t.cache.nextId == 1 && t.execs == s.execs[0 := Exec(Some("s"), 0, 0, 1, false, Calling)]
  {
  }

  /** Two submissions to one scope: one runs, one is queued. */
  lemma TwoSubmitted(more: seq<Exec>) returns (s: Sys, s1: Sys, t: Sys)
    requires forall i :: 0 <= i < |more| ==> more[i] == Newcomer()
    ensures Start(s)
    ensures Enabled(s, Submit(0, NoHook)) && s1 == Apply(s, Submit(0, NoHook))
    ensures Enabled(s1, Submit(1, NoHook)) && t == Apply(s1, Submit(1, NoHook))
    ensures t.cache.scopes == map["s" := ScopeState(true, [2])] && t.cache.release == map["s" := 0]
    ensures t.cache.nextId == 2
    ensures t.execs == [Exec(Some("s"), 0, 0, 1, false, Calling), Exec(Some("s"), 0, 0, 2, false, Parked(0))] + more
  {
    s := Sys(EMPTY, [Newcomer(), Newcomer()] + more);
    FirstSubmit(s);
    s1 := Apply(s, Submit(0, NoHook));
    BusySubmit(s1, 1, [], 0);
    assert [] + [2] == [2];
    t := Apply(s1, Submit(1, NoHook));
  }

  function Newcomer(): Exec { Exec(Some("s"), 0, 0, 0, false, Unsubmitted) }

  /** A third submission is queued behind the second. */
  lemma ThreeSubmitted() returns (s: Sys, s1: Sys, s2: Sys, t: Sys)
    ensures Start(s)
    ensures Enabled(s, Submit(0, NoHook)) && s1 == Apply(s, Submit(0, NoHook))
    ensures Enabled(s1, Submit(1, NoHook)) && s2 == Apply(s1, Submit(1, NoHook))
    ensures Enabled(s2, Submit(2, NoHook)) && t == Apply(s2, Submit(2, NoHook))
    ensures t.cache.scopes == map["s" := ScopeState(true, [2, 3])] && t.cache.release == map["s" := 0]
    ensures t.execs == [Exec(Some("s"), 0, 0, 1, false, Calling), Exec(Some("s"), 0, 0, 2, false, Parked(0)),
                        Exec(Some("s"), 0, 0, 3, false, Parked(0))]
  {
    s, s1, s2 := TwoSubmitted([Newcomer()]);
    BusySubmit(s2, 2, [2], 0);
    assert [2] + [3] == [2, 3];
    t := Apply(s2, Submit(2, NoHook));
  }

  /** A submission to a busy scope joins its queue and parks. */
  lemma BusySubmit(s: Sys, i: nat, queue: seq<nat>, version: nat)
    requires i < |s.execs| && s.execs[i].phase.Unsubmitted? && s.execs[i].scope == Some("s")
    requires s.cache.scopes == map["s" := ScopeState(true, queue)] && s.cache.release == map["s" := version]
    ensures var t := Apply(s, Submit(i, NoHook));
      && t.cache.scopes == map["s" := ScopeState(true, queue + [s.cache.nextId + 1])]
      && t.cache.release == s.cache.release && t.cache.nextId == s.cache.nextId + 1
      && t.execs == s.execs[i := s.execs[i].(id := s.cache.nextId + 1, phase := Parked(version))]
  {
  }

  /** The queue is advisory: the id at its front is popped on release, yet a
      later submission may wake first and take the scope. */
  lemma WaitersMayOvertake() returns (s: Sys, steps: seq<Step>)
    ensures Start(s) && CarefulRun(s, steps)
    ensures var t := After(s, steps);
      && |t.execs| == 3 && t.execs[1].id < t.execs[2].id
      && t.execs[1].phase.Parked? && t.execs[2].Holds()
      && t.execs[1].id !in t.cache.Queue("s")
  {
    var s1, s2, s3;
    s, s1, s2, s3 := ThreeSubmitted();
    var s4 := Apply(s3, Reply(0, None));
    OvertakeAfterRelease(s3);
    RunCons(s4, Wake(2, NoHook), []);
    RunCons(s3, Reply(0, None), [Wake(2, NoHook)] + []);
    steps := [Reply(0, None)] + ([Wake(2, NoHook)] + []);
    RunCons(s2, Submit(2, NoHook), steps);
    steps := [Submit(2, NoHook)] + steps;
    RunCons(s1, Submit(1, NoHook), steps);
    steps := [Submit(1, NoHook)] + steps;
    RunCons(s, Submit(0, NoHook), steps);
    steps := [Submit(0, NoHook)] + steps;
  }

  lemma OvertakeAfterRelease(s: Sys)
    requires s.cache.scopes == map["s" := ScopeState(true, [2, 3])] && s.cache.release == map["s" := 0]
    requires s.execs == [Exec(Some("s"), 0, 0, 1, false, Calling), Exec(Some("s"), 0, 0, 2, false, Parked(0)),
                         Exec(Some("s"), 0, 0, 3, false, Parked(0))]
    ensures Enabled(s, Reply(0, None)) && Enabled(Apply(s, Reply(0, None)), Wake(2, NoHook))
    ensures var t := Apply(Apply(s, Reply(0, None)), Wake(2, NoHook));
      && |t.execs| == 3 && t.execs[1] == s.execs[1] && t.execs[2] == s.execs[2].(phase := Calling)
      && t.cache.Queue("s") == [3]
  {
    var c := SettleSuccess(s.cache, 1);
    assert MarkFinished(c, "s").scopes == map["s" := ScopeState(false, [2, 3])];
    var s4 := Apply(s, Reply(0, None));
    assert s4.cache.scopes == map["s" := ScopeState(false, [3])] && s4.cache.release == map["s" := 2];
  }

  /** An idle scope is open to every waiter and every newcomer: each can take
      it with its next step. */
  lemma IdleScopeIsOpenToAll(s: Sys, i: nat, scope: string)
    requires Live(s) && !s.cache.Running(scope)
    requires i < |s.execs| && s.execs[i].scope == Some(scope)
    requires s.execs[i].phase.Parked? || s.execs[i].phase.Unsubmitted?
    ensures var step := TakeNow(s, i);
      && Enabled(s, step) && i < |Apply(s, step).execs|
      && Apply(s, step).execs[i].scope == Some(scope) && Apply(s, step).execs[i].Holds()
  {
    assert ExecInv(s.cache, s.execs[i]);
  }

  ghost function TakeNow(s: Sys, i: nat): Step
    requires i < |s.execs|
  {
    if s.execs[i].phase.Parked? then Wake(i, NoHook) else Submit(i, NoHook)
  }

  /** With this step an execution passes the scope's gate, whatever its hook
      then does. */
  predicate Takes(s: Sys, step: Step, scope: string)
    requires Enabled(s, step)
  {
    (step.Submit? || step.Wake?) && s.execs[step.i].scope == Some(scope) && CanRun(s.cache, scope)
  }

  /** Holding is taking: whoever holds the scope after a step and did not before
      has just taken it. */
  lemma NewHolderTook(s: Sys, step: Step, j: nat, scope: string)
    requires Enabled(s, step) && j < |s.execs| && Holder(scope)(s.execs[j]) == 0
    requires j < |Apply(s, step).execs| && Holder(scope)(Apply(s, step).execs[j]) == 1
    ensures Takes(s, step, scope) && step.i == j
  {
  }

  /** No step of the run takes the scope. */
  ghost predicate Untaken(s: Sys, steps: seq<Step>, scope: string)
    decreases |steps|
  {
    steps == [] || !Enabled(s, steps[0]) ||
    (!Takes(s, steps[0], scope) && Untaken(Apply(s, steps[0]), steps[1..], scope))
  }

  /** However the run goes on, the first to take the scope is `i`. */
  ghost predicate NextIs(s: Sys, i: nat, scope: string) {
    forall steps, step | ValidRun(s, steps) && Enabled(After(s, steps), step) ::
      Untaken(s, steps, scope) && Takes(After(s, steps), step, scope) ==> step.i == i
  }

  /** Nobody but `i` waits for the scope or could still enter it. */
  ghost predicate NoRival(s: Sys, i: nat, scope: string) {
    forall j :: 0 <= j < |s.execs| && j != i && s.execs[j].scope == Some(scope) ==> s.execs[j].Done()
  }

  /** Another execution waits for the scope or has yet to be submitted to it. */
  ghost predicate Rival(s: Sys, i: nat, j: nat, scope: string) {
    && j < |s.execs| && j != i && s.execs[j].scope == Some(scope)
    && (s.execs[j].phase.Parked? || s.execs[j].phase.Unsubmitted?)
  }

  lemma {:induction false} RivalsStayAway(s: Sys, i: nat, scope: string, steps: seq<Step>)
    requires NoRival(s, i, scope) && ValidRun(s, steps)
    ensures NoRival(After(s, steps), i, scope)
    decreases |steps|
  {
    if steps != [] {
      assert NoRival(Apply(s, steps[0]), i, scope);
      RivalsStayAway(Apply(s, steps[0]), i, scope, steps[1..]);
    }
  }

  /** The queue never decides who comes next. A waiter on an idle scope is
      bound to be the next to take it exactly when no other execution waits for
      the scope or has yet to be submitted to it. */
  lemma NextHolderIsForcedIff(s: Sys, i: nat, scope: string)
    requires Live(s) && !s.cache.Running(scope)
    requires i < |s.execs| && s.execs[i].scope == Some(scope) && s.execs[i].phase.Parked?
    ensures NextIs(s, i, scope) <==> !exists j: nat :: Rival(s, i, j, scope)
  {
    assert Exclusive(s, scope);
    if j: nat :| Rival(s, i, j, scope) {
      IdleScopeIsOpenToAll(s, j, scope);
      var steps: seq<Step> := [];
      assert ValidRun(s, steps) && Untaken(s, steps, scope) && After(s, steps) == s;
      assert Takes(After(s, steps), TakeNow(s, j), scope);
    } else {
      forall j | 0 <= j < |s.execs| && j != i && s.execs[j].scope == Some(scope)
        ensures s.execs[j].Done()
      {
        assert !Rival(s, i, j, scope);
        SumMember(Holder(scope), s.execs, j);
      }
      forall steps, step | ValidRun(s, steps) && Enabled(After(s, steps), step)
          && Takes(After(s, steps), step, scope)
        ensures step.i == i
      {
        RivalsStayAway(s, i, scope, steps);
      }
    }
  }
}
