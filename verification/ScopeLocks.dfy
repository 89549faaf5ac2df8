/**
  The scope gate one lock acquisition at a time. `can_run` and `mark_running`
  (src/mutation.rs:387-388) take the cache lock separately, so on a
  multi-threaded executor another execution may come between them. The model
  follows one scope and the executions at its gate.
 */
module ScopeLocks {
  import opened MutationCaches

  /** `passed` have been told they can run and have not marked the scope yet. */
  datatype Gate = Gate(cache: CacheState, passed: set<nat>, holding: set<nat>)

  datatype Step = Check(i: nat) | Mark(i: nat) | Finish(i: nat)

  predicate Enabled(g: Gate, step: Step) {
    match step
    case Check(i) => i !in g.passed && i !in g.holding
    case Mark(i) => i in g.passed
    case Finish(i) => i in g.holding
  }

  function Apply(g: Gate, scope: string, step: Step): Gate {
    match step
    case Check(i) => if CanRun(g.cache, scope) then g.(passed := g.passed + {i}) else g
    case Mark(i) =>
      Gate(MarkRunning(g.cache, scope), g.passed - {i}, g.holding + {i})
    case Finish(i) => g.(cache := MarkFinished(g.cache, scope), holding := g.holding - {i})
  }

  /** At most one execution is past its check, and the flag tells of a holder. */
  ghost predicate Exclusive(g: Gate, scope: string) {
    && g.passed !! g.holding
    && (forall i, j :: i in g.passed + g.holding && j in g.passed + g.holding ==> i == j)
    && (g.cache.Running(scope) <==> g.holding != {})
  }

  /** No check between another execution's check and its mark. */
  predicate Undisturbed(g: Gate, step: Step) {
    step.Check? ==> g.passed == {}
  }

  /** A lock step keeps exclusion exactly when it is not a check that comes
      between another execution's check and its mark. */
  lemma StepKeepsExclusionIff(g: Gate, scope: string, step: Step)
    requires Exclusive(g, scope) && Enabled(g, step)
    ensures Exclusive(Apply(g, scope, step), scope) <==> Undisturbed(g, step)
  {
    var t := Apply(g, scope, step);
    if step.Check? && g.passed != {} {
      NobodyHolds(g, scope);
      var j :| j in g.passed;
      assert j in t.passed + t.holding && step.i in t.passed + t.holding;
    } else if step.Mark? {
      assert step.i in g.passed + g.holding && step.i in t.holding;
    } else if step.Finish? {
      assert step.i in g.passed + g.holding && t.holding == {};
    }
  }

  lemma NobodyHolds(g: Gate, scope: string)
    requires Exclusive(g, scope) && g.passed != {}
    ensures g.holding == {} && CanRun(g.cache, scope)
  {
    var j :| j in g.passed;
    assert forall h :: h in g.holding ==> h in g.passed + g.holding && j in g.passed + g.holding;
  }

  ghost predicate ValidRun(g: Gate, scope: string, steps: seq<Step>)
    decreases |steps|
  {
    steps == [] || (Enabled(g, steps[0]) && ValidRun(Apply(g, scope, steps[0]), scope, steps[1..]))
  }

  ghost predicate UndisturbedRun(g: Gate, scope: string, steps: seq<Step>)
    decreases |steps|
  {
    steps == [] || (Undisturbed(g, steps[0]) && UndisturbedRun(Apply(g, scope, steps[0]), scope, steps[1..]))
  }

  ghost function After(g: Gate, scope: string, steps: seq<Step>): Gate
    decreases |steps|
  {
    if steps == [] then g else After(Apply(g, scope, steps[0]), scope, steps[1..])
  }

  /** Mutual exclusion at lock granularity, in every run that no check
      disturbs. */
  lemma {:induction false} UndisturbedRunIsExclusive(g: Gate, scope: string, steps: seq<Step>)
    requires Exclusive(g, scope) && ValidRun(g, scope, steps) && UndisturbedRun(g, scope, steps)
    ensures Exclusive(After(g, scope, steps), scope)
    decreases |steps|
  {
    if steps != [] {
      StepKeepsExclusionIff(g, scope, steps[0]);
      UndisturbedRunIsExclusive(Apply(g, scope, steps[0]), scope, steps[1..]);
    }
  }

  /** A disturbed check always lets two executions in: both go on to mark. */
  lemma DisturbedCheckOverlaps(g: Gate, scope: string, i: nat, j: nat)
    requires Exclusive(g, scope) && Enabled(g, Check(i)) && j in g.passed
    ensures var steps := [Check(i), Mark(i), Mark(j)];
      ValidRun(g, scope, steps) && i != j && {i, j} <= After(g, scope, steps).holding
  {
    NobodyHolds(g, scope);
    var g1 := Apply(g, scope, Check(i));
    var g2 := Apply(g1, scope, Mark(i));
    RunCons(g2, scope, Mark(j), []);
    RunCons(g1, scope, Mark(i), [Mark(j)]);
    RunCons(g, scope, Check(i), [Mark(i), Mark(j)]);
    assert [Mark(j)] + [] == [Mark(j)] && [Mark(i)] + [Mark(j)] == [Mark(i), Mark(j)];
    assert [Check(i)] + [Mark(i), Mark(j)] == [Check(i), Mark(i), Mark(j)];
  }

  lemma RunCons(g: Gate, scope: string, step: Step, rest: seq<Step>)
    requires Enabled(g, step) && ValidRun(Apply(g, scope, step), scope, rest)
    ensures ValidRun(g, scope, [step] + rest)
    ensures After(g, scope, [step] + rest) == After(Apply(g, scope, step), scope, rest)
  {
    assert ([step] + rest)[1..] == rest;
  }
}
