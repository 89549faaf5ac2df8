/**
  The scope scheduler of src/mutation.rs over the mutation cache, as a
  transition system over any number of executions. One step is the code an
  execution runs between two awaits: submit, wake on the scope's release
  watcher, a reply of the mutate function, the end of a retry sleep. The
  surroundings may remove entries, resume paused ones, clear the cache and drop
  the future of any started execution at any moment.
 */
module ScopedMutations {
  import opened Wrappers
  import opened MutationCaches

  /** What `on_mutate` does when it is reached. */
  datatype Hook = NoHook | HookOk | HookErr(error: string)

  datatype Phase =
    | Unsubmitted
    | Parked(seen: nat)
    | Calling
    | Sleeping
    | Settled(error: Option<string>)
    | Dropped

  /** One execution: its options, the local variables of its future and where it
      stands. */
  datatype Exec = Exec(scope: Option<string>, retry: nat, used: nat, id: nat, rollback: bool, phase: Phase)
  {
    predicate Holds() { phase.Calling? || phase.Sleeping? }
    predicate Submitted() { !phase.Unsubmitted? }
    predicate Done() { phase.Settled? || phase.Dropped? }
  }

  datatype Sys = Sys(cache: CacheState, execs: seq<Exec>)

  datatype Step =
    | Submit(i: nat, hook: Hook)
    | Wake(i: nat, hook: Hook)
    | Reply(i: nat, failure: Option<string>)
    | Elapse(i: nat)
    | RemoveEntry(id: nat)
    | ResumeAll
    | ClearCache
    | DropExec(i: nat)
  {
    predicate Work() { Submit? || Wake? || Reply? || Elapse? }
  }

  // ----- the code between two awaits -----

  function SettleSuccess(c: CacheState, id: nat): CacheState {
    Update(c, id, Succeeded)
  }

  function Succeeded(e: Entry): Entry {
    e.(status := Success, hasResult := true, error := None, isPaused := false)
  }

  function SettleError(c: CacheState, id: nat, error: string): CacheState {
    Update(c, id, Failed(error))
  }

  function Failed(error: string): Entry -> Entry {
    (e: Entry) => e.(status := Error, error := Some(error), hasResult := false, isPaused := false)
  }

  function WithContext(e: Entry): Entry { e.(hasContext := true) }

  function Release(c: CacheState, scope: Option<string>): CacheState {
    match scope
    case None => c
    case Some(sc) => RunNext(MarkFinished(c, sc), sc)
  }

  function Acquire(c: CacheState, scope: string, id: nat): CacheState {
    var c1 := MarkRunning(c, scope);
    var entry := Get(c1, id);
    if entry.Some? && entry.value.isPaused then Update(c1, id, Unpaused) else c1
  }

  /** From the acquired scope through `on_mutate` to the first mutate call. */
  function Begin(c: CacheState, e: Exec, hook: Hook): (CacheState, Exec) {
    match hook
    case NoHook => (c, e.(phase := Calling))
    case HookOk => (Update(c, e.id, WithContext), e.(rollback := true, phase := Calling))
    case HookErr(error) => (Release(SettleError(c, e.id, error), e.scope), e.(phase := Settled(Some(error))))
  }

  /** One turn of the gate loop: acquire and go on, or park having seen the
      current release version. */
  function Gate(c: CacheState, e: Exec, hook: Hook): (CacheState, Exec)
    requires e.scope.Some? ==> e.scope.value in c.release
  {
    match e.scope
    case None => Begin(c, e, hook)
    case Some(sc) =>
      if CanRun(c, sc) then Begin(Acquire(c, sc, e.id), e, hook)
      else (c, e.(phase := Parked(c.release[sc])))
  }

  function FreshEntry(scope: Option<string>): Entry {
    Entry(0, scope, Pending, false, false, None, false)
  }

  /** The entry is added and the release watcher subscribed. */
  function Enter(c: CacheState, scope: Option<string>): CacheState {
    var c1 := Add(c, FreshEntry(scope));
    match scope case None => c1 case Some(sc) => SubscribeScope(c1, sc)
  }

  function OnReply(c: CacheState, e: Exec, failure: Option<string>): (CacheState, Exec) {
    match failure
    case None => (Release(SettleSuccess(c, e.id), e.scope), e.(phase := Settled(None)))
    case Some(error) =>
      if e.used < e.retry then (c, e.(used := e.used + 1, phase := Sleeping))
      else (Release(SettleError(c, e.id, error), e.scope), e.(phase := Settled(Some(error))))
  }

  // ----- the transition system -----

  predicate Enabled(s: Sys, step: Step) {
    match step
    case Submit(i, _) => i < |s.execs| && s.execs[i].phase.Unsubmitted?
    case Wake(i, _) =>
      && i < |s.execs| && s.execs[i].phase.Parked? && s.execs[i].scope.Some?
      && s.execs[i].scope.value in s.cache.release
      && s.cache.release[s.execs[i].scope.value] != s.execs[i].phase.seen
    case Reply(i, _) => i < |s.execs| && s.execs[i].phase.Calling?
    case Elapse(i) => i < |s.execs| && s.execs[i].phase.Sleeping?
    case RemoveEntry(_) => true
    case ResumeAll => true
    case ClearCache => true
    case DropExec(i) => i < |s.execs| && s.execs[i].Submitted() && !s.execs[i].Done()
  }

  function Put(s: Sys, i: nat, r: (CacheState, Exec)): Sys
    requires i < |s.execs|
  {
    Sys(r.0, s.execs[i := r.1])
  }

  function Apply(s: Sys, step: Step): Sys
    requires Enabled(s, step)
  {
    match step
    case Submit(i, hook) =>
      var e := s.execs[i];
      Put(s, i, Gate(Enter(s.cache, e.scope), e.(id := s.cache.nextId + 1), hook))
    case Wake(i, hook) => Put(s, i, Gate(s.cache, s.execs[i], hook))
    case Reply(i, failure) => Put(s, i, OnReply(s.cache, s.execs[i], failure))
    case Elapse(i) => s.(execs := s.execs[i := s.execs[i].(phase := Calling)])
    case RemoveEntry(id) => s.(cache := Remove(s.cache, id))
    case ResumeAll => s.(cache := ResumePaused(s.cache))
    case ClearCache => s.(cache := Clear(s.cache))
    case DropExec(i) => s.(execs := s.execs[i := s.execs[i].(phase := Dropped)])
  }

  predicate NoHolder(s: Sys) {
    forall i :: 0 <= i < |s.execs| ==> !(s.execs[i].scope.Some? && s.execs[i].Holds())
  }

  /** Not a `clear` while a scope is held, nor the drop of a holder: nothing in
      the cache remembers the holder after either. */
  predicate Careful(s: Sys, step: Step)
    requires Enabled(s, step)
  {
    && (step.ClearCache? ==> NoHolder(s))
    && (step.DropExec? ==> !(s.execs[step.i].scope.Some? && s.execs[step.i].Holds()))
  }

  ghost predicate ValidRun(s: Sys, steps: seq<Step>)
    decreases |steps|
  {
    steps == [] || (Enabled(s, steps[0]) && ValidRun(Apply(s, steps[0]), steps[1..]))
  }

  /** A run of careful steps. */
  ghost predicate CarefulRun(s: Sys, steps: seq<Step>)
    decreases |steps|
  {
    steps == [] ||
    (Enabled(s, steps[0]) && Careful(s, steps[0]) && CarefulRun(Apply(s, steps[0]), steps[1..]))
  }

  lemma {:induction false} CarefulIsValid(s: Sys, steps: seq<Step>)
    requires CarefulRun(s, steps)
    ensures ValidRun(s, steps)
    decreases |steps|
  {
    if steps != [] { CarefulIsValid(Apply(s, steps[0]), steps[1..]); }
  }

  /** The system after the steps, up to the first that is not possible. */
  ghost function After(s: Sys, steps: seq<Step>): Sys
    decreases |steps|
  {
    if steps == [] || !Enabled(s, steps[0]) then s else After(Apply(s, steps[0]), steps[1..])
  }

  ghost predicate Start(s: Sys) {
    && s.cache == EMPTY
    && forall i :: 0 <= i < |s.execs| ==> s.execs[i].phase.Unsubmitted? && s.execs[i].used == 0 && !s.execs[i].rollback
  }

  // ----- counting executions -----

  ghost function Sum(f: Exec -> nat, es: seq<Exec>): nat {
    if es == [] then 0 else f(es[0]) + Sum(f, es[1..])
  }

  lemma {:induction false} SumUpdate(f: Exec -> nat, es: seq<Exec>, i: nat, x: Exec)
    requires i < |es|
    ensures Sum(f, es[i := x]) + f(es[i]) == Sum(f, es) + f(x)
  {
    if i == 0 {
      assert es[0 := x][1..] == es[1..];
    } else {
      assert es[i := x][1..] == es[1..][i - 1 := x];
      SumUpdate(f, es[1..], i - 1, x);
    }
  }

  lemma {:induction false} SumMember(f: Exec -> nat, es: seq<Exec>, i: nat)
    requires i < |es|
    ensures f(es[i]) <= Sum(f, es)
  {
    if i > 0 { SumMember(f, es[1..], i - 1); }
  }

  lemma {:induction false} SumTwo(f: Exec -> nat, es: seq<Exec>, i: nat, j: nat)
    requires i < j < |es|
    ensures f(es[i]) + f(es[j]) <= Sum(f, es)
  {
    if i == 0 { SumMember(f, es[1..], j - 1); } else { SumTwo(f, es[1..], i - 1, j - 1); }
  }

  lemma {:induction false} SumWitness(f: Exec -> nat, es: seq<Exec>) returns (i: nat)
    requires Sum(f, es) > 0
    ensures i < |es| && f(es[i]) > 0
  {
    if f(es[0]) > 0 { i := 0; } else {
      var k := SumWitness(f, es[1..]);
      i := k + 1;
    }
  }

  lemma {:induction false} SumZero(f: Exec -> nat, es: seq<Exec>)
    requires forall i :: 0 <= i < |es| ==> f(es[i]) == 0
    ensures Sum(f, es) == 0
  {
    if es != [] { SumZero(f, es[1..]); }
  }

  lemma {:induction false} SumAtMostLength(f: Exec -> nat, es: seq<Exec>)
    requires forall i :: 0 <= i < |es| ==> f(es[i]) <= 1
    ensures Sum(f, es) <= |es|
  {
    if es != [] { SumAtMostLength(f, es[1..]); }
  }

  lemma {:induction false} SumSame(f: Exec -> nat, g: Exec -> nat, es: seq<Exec>)
    requires forall i :: 0 <= i < |es| ==> f(es[i]) == g(es[i])
    ensures Sum(f, es) == Sum(g, es)
  {
    if es != [] { SumSame(f, g, es[1..]); }
  }

  /** 1 for an execution between acquire and release of `scope`. */
  ghost function Holder(scope: string): Exec -> nat {
    (e: Exec) => if e.scope == Some(scope) && e.Holds() then 1 else 0
  }

  /** 1 for an execution parked on `scope`. */
  ghost function Waiter(scope: string): Exec -> nat {
    (e: Exec) => if e.scope == Some(scope) && e.phase.Parked? then 1 else 0
  }

  ghost function Holders(s: Sys, scope: string): nat { Sum(Holder(scope), s.execs) }
  ghost function Waiters(s: Sys, scope: string): nat { Sum(Waiter(scope), s.execs) }

  // ----- the scheduler invariant -----

  /** The running flag counts the one holder. */
  ghost predicate Exclusive(s: Sys, scope: string) {
    Holders(s, scope) == (if s.cache.Running(scope) then 1 else 0)
  }

  /** The queue is covered by parked executions; an idle scope keeps its entry
      only while somebody waits. */
  ghost predicate Covered(s: Sys, scope: string) {
    var waiting := Waiters(s, scope);
    && |s.cache.Queue(scope)| <= (if s.cache.Running(scope) || waiting == 0 then waiting else waiting - 1)
    && (scope in s.cache.scopes && !s.cache.Running(scope) ==> waiting > 0)
  }

  /** No lost wake-up: a parked execution has its scope running or an unseen
      release version. */
  ghost predicate ExecInv(c: CacheState, e: Exec) {
    && e.used <= e.retry
    && (e.Submitted() && e.scope.Some? ==> e.scope.value in c.release)
    && (e.phase.Parked? ==>
        && e.scope.Some?
        && e.phase.seen <= c.release[e.scope.value]
        && (c.Running(e.scope.value) || e.phase.seen < c.release[e.scope.value]))
  }

  /** What exclusion, termination and progress rest on. */
  ghost predicate Live(s: Sys) {
    && (forall scope: string :: Exclusive(s, scope))
    && (forall i :: 0 <= i < |s.execs| ==> ExecInv(s.cache, s.execs[i]))
  }

  ghost predicate Inv(s: Sys) {
    Live(s) && forall scope: string :: Covered(s, scope)
  }

  /** `t` is live and covers every scope that `s` covered. */
  ghost predicate Keeps(s: Sys, t: Sys) {
    Live(t) && forall scope: string :: Covered(s, scope) ==> Covered(t, scope)
  }

  lemma StartInv(s: Sys)
    requires Start(s)
    ensures Inv(s)
  {
    forall scope: string
      ensures Exclusive(s, scope) && Covered(s, scope)
    {
      SumZero(Holder(scope), s.execs);
      SumZero(Waiter(scope), s.execs);
    }
  }

  /** How the counts of every scope move when one execution changes. */
  lemma Counts(s: Sys, t: Sys, i: nat)
    requires i < |s.execs| == |t.execs| && t.execs == s.execs[i := t.execs[i]]
    ensures forall scope: string ::
      && Holders(t, scope) + Holder(scope)(s.execs[i]) == Holders(s, scope) + Holder(scope)(t.execs[i])
      && Waiters(t, scope) + Waiter(scope)(s.execs[i]) == Waiters(s, scope) + Waiter(scope)(t.execs[i])
  {
    forall scope: string
      ensures Holders(t, scope) + Holder(scope)(s.execs[i]) == Holders(s, scope) + Holder(scope)(t.execs[i])
      ensures Waiters(t, scope) + Waiter(scope)(s.execs[i]) == Waiters(s, scope) + Waiter(scope)(t.execs[i])
    {
      SumUpdate(Holder(scope), s.execs, i, t.execs[i]);
      SumUpdate(Waiter(scope), s.execs, i, t.execs[i]);
    }
  }

  /** What acquiring does to the scope table. */
  lemma AcquireEffect(c: CacheState, scope: string, id: nat)
    ensures var r := Acquire(c, scope, id);
      && r.release == c.release && r.nextId == c.nextId
      && r.Running(scope) && r.Queue(scope) == c.Queue(scope)
      && (forall other: string :: other != scope ==>
          (other in r.scopes <==> other in c.scopes) && r.Running(other) == c.Running(other) && r.Queue(other) == c.Queue(other))
  {
  }

  /** What releasing a held scope does: idle, one id popped, version bumped,
      entry dropped when nothing is queued. */
  lemma ReleaseEffect(c: CacheState, scope: string)
    requires c.Running(scope) && scope in c.release
    ensures var r := Release(c, Some(scope));
      && r.nextId == c.nextId && r.entries == c.entries
      && !r.Running(scope)
      && (scope in r.scopes <==> c.Queue(scope) != [])
      && |r.Queue(scope)| == (if c.Queue(scope) == [] then 0 else |c.Queue(scope)| - 1)
      && scope in r.release && r.release[scope] > c.release[scope]
      && (forall other: string :: other != scope ==>
          && (other in r.scopes <==> other in c.scopes) && r.Running(other) == c.Running(other)
          && r.Queue(other) == c.Queue(other)
          && (other in r.release <==> other in c.release)
          && (other in c.release ==> r.release[other] == c.release[other]))
  {
  }

  /** Releasing keeps the invariant when the holder of a scope settles. */
  lemma SettleKeepsInv(s: Sys, i: nat, c: CacheState, error: Option<string>)
    requires i < |s.execs| && Live(s) && s.execs[i].Holds()
    requires c.scopes == s.cache.scopes && c.release == s.cache.release
    ensures Keeps(s, Put(s, i, (Release(c, s.execs[i].scope), s.execs[i].(phase := Settled(error)))))
  {
    var e := s.execs[i];
    var t := Put(s, i, (Release(c, e.scope), e.(phase := Settled(error))));
    Counts(s, t, i);
    if e.scope.Some? {
      var sc := e.scope.value;
      assert Exclusive(s, sc);
      SumMember(Holder(sc), s.execs, i);
      ReleaseEffect(c, sc);
    }
    forall scope: string
      ensures Exclusive(t, scope) && (Covered(s, scope) ==> Covered(t, scope))
    {
      assert Exclusive(s, scope);
    }
    forall k | 0 <= k < |t.execs|
      ensures ExecInv(t.cache, t.execs[k])
    {
      assert ExecInv(s.cache, s.execs[k]);
    }
  }

  /** Acquiring an idle scope keeps the invariant, whether the execution was
      parked on it or has just been submitted. */
  lemma AcquireKeepsInv(s: Sys, i: nat, c: CacheState, e: Exec)
    requires i < |s.execs| && Live(s)
    requires e.scope.Some? && s.execs[i].scope == e.scope
    requires s.execs[i].phase.Unsubmitted? || s.execs[i].phase.Parked?
    requires e.used <= e.retry && !s.cache.Running(e.scope.value)
    requires SameTable(s.cache, c, e.scope.value)
    ensures Keeps(s, Put(s, i, (Acquire(c, e.scope.value, e.id), e.(phase := Calling))))
  {
    var sc := e.scope.value;
    var t := Put(s, i, (Acquire(c, sc, e.id), e.(phase := Calling)));
    Counts(s, t, i);
    AcquireEffect(c, sc, e.id);
    SumMember(Waiter(sc), s.execs, i);
    forall scope: string
      ensures Exclusive(t, scope) && (Covered(s, scope) ==> Covered(t, scope))
    {
      assert Exclusive(s, scope);
    }
    forall k | 0 <= k < |t.execs|
      ensures ExecInv(t.cache, t.execs[k])
    {
      assert ExecInv(s.cache, s.execs[k]);
    }
  }

  /** The same scope table up to a default entry for `scope`, and the same
      release versions up to a first cell for `scope`. */
  ghost predicate SameTable(c: CacheState, d: CacheState, scope: string) {
    && scope in d.release
    && (forall k: string :: d.Running(k) == c.Running(k) && d.Queue(k) == c.Queue(k))
    && (forall k: string :: k != scope ==> (k in d.scopes <==> k in c.scopes))
    && (forall k: string :: k in c.release ==> k in d.release && d.release[k] == c.release[k])
  }

  /** `Begin` after a successful gate. */
  lemma BeginKeepsInv(s: Sys, i: nat, c: CacheState, e: Exec, hook: Hook)
    requires i < |s.execs| && Keeps(s, Put(s, i, (c, e.(phase := Calling))))
    ensures Keeps(s, Put(s, i, Begin(c, e, hook)))
  {
    var t := Put(s, i, (c, e.(phase := Calling)));
    var u := Put(s, i, Begin(c, e, hook));
    match hook
    case NoHook =>
    case HookOk =>
      assert ExecInv(t.cache, t.execs[i]);
      ChangeInv(t, u, i);
    case HookErr(error) =>
      SettleKeepsInv(t, i, SettleError(c, e.id, error), Some(error));
      var settled := e.(phase := Settled(Some(error)));
      assert t.execs[i := settled] == s.execs[i := settled];
  }

  /** The invariant does not look at entries, events or the id counter. */
  lemma SameScopesInv(s: Sys, t: Sys)
    requires Live(s) && t.execs == s.execs
    requires t.cache.scopes == s.cache.scopes && t.cache.release == s.cache.release
    ensures Keeps(s, t)
  {
    forall scope: string
      ensures Exclusive(t, scope) && (Covered(s, scope) ==> Covered(t, scope))
    {
      assert Exclusive(s, scope);
    }
    forall k | 0 <= k < |t.execs|
      ensures ExecInv(t.cache, t.execs[k])
    {
      assert ExecInv(s.cache, s.execs[k]);
    }
  }

  /** Entering an idle scope adds at most a default entry and a first cell. */
  lemma EnterKeepsTable(c: CacheState, scope: string)
    ensures Enter(c, Some(scope)).Running(scope) == c.Running(scope)
    ensures !c.Running(scope) ==> SameTable(c, Enter(c, Some(scope)), scope)
  {
  }

  /** The gate of a newcomer: take an idle scope or park on a busy one. */
  lemma NewcomerKeepsInv(s: Sys, i: nat, e: Exec, hook: Hook)
    requires i < |s.execs| && Live(s) && s.execs[i].phase.Unsubmitted?
    requires e.scope.Some? && s.execs[i].scope == e.scope && e.used <= e.retry
    ensures Keeps(s, Put(s, i, Gate(Enter(s.cache, e.scope), e, hook)))
  {
    var sc, c := e.scope.value, Enter(s.cache, e.scope);
    EnterKeepsTable(s.cache, sc);
    if CanRun(c, sc) {
      AcquireKeepsInv(s, i, c, e);
      BeginKeepsInv(s, i, Acquire(c, sc, e.id), e, hook);
    } else {
      ParkKeepsInv(s, i, c, e);
    }
  }

  lemma UnscopedKeepsInv(s: Sys, i: nat, c: CacheState, e: Exec, hook: Hook)
    requires i < |s.execs| && Live(s) && s.execs[i].phase.Unsubmitted?
    requires e.scope.None? && s.execs[i].scope.None? && e.used <= e.retry
    requires c.scopes == s.cache.scopes && c.release == s.cache.release
    ensures Keeps(s, Put(s, i, Begin(c, e, hook)))
  {
    ChangeInv(s, Put(s, i, (c, e.(phase := Calling))), i);
    BeginKeepsInv(s, i, c, e, hook);
  }

  lemma SubmitKeepsInv(s: Sys, i: nat, hook: Hook)
    requires Live(s) && Enabled(s, Submit(i, hook))
    ensures Keeps(s, Apply(s, Submit(i, hook)))
  {
    var e := s.execs[i].(id := s.cache.nextId + 1);
    var t := Put(s, i, Gate(Enter(s.cache, e.scope), e, hook));
    assert Apply(s, Submit(i, hook)) == t;
    assert Keeps(s, t) by {
      assert ExecInv(s.cache, s.execs[i]);
      if e.scope.Some? {
        NewcomerKeepsInv(s, i, e, hook);
      } else {
        UnscopedKeepsInv(s, i, Enter(s.cache, None), e, hook);
      }
    }
  }

  /** An execution changing phase without taking, leaving or waiting for a
      scope touches no scope. */
  lemma ChangeInv(s: Sys, t: Sys, i: nat)
    requires i < |s.execs| == |t.execs| && Live(s) && t.execs == s.execs[i := t.execs[i]]
    requires t.cache.scopes == s.cache.scopes && t.cache.release == s.cache.release
    requires t.execs[i].scope == s.execs[i].scope && t.execs[i].used <= t.execs[i].retry
    requires t.execs[i].Submitted() && !t.execs[i].phase.Parked?
    requires s.execs[i].scope.Some? ==> s.execs[i].Holds() && t.execs[i].Holds()
    requires !s.execs[i].phase.Parked?
    ensures Keeps(s, t)
  {
    Counts(s, t, i);
    forall scope: string
      ensures Exclusive(t, scope) && (Covered(s, scope) ==> Covered(t, scope))
    {
      assert Exclusive(s, scope);
    }
    forall k | 0 <= k < |t.execs|
      ensures ExecInv(t.cache, t.execs[k])
    {
      assert ExecInv(s.cache, s.execs[k]);
    }
  }

  /** A newcomer finding its scope busy is queued and parks. */
  lemma ParkKeepsInv(s: Sys, i: nat, c: CacheState, e: Exec)
    requires i < |s.execs| && Live(s) && s.execs[i].phase.Unsubmitted?
    requires e.scope.Some? && s.execs[i].scope == e.scope && e.used <= e.retry
    requires c == Enter(s.cache, e.scope) && c.Running(e.scope.value)
    ensures Keeps(s, Put(s, i, (c, e.(phase := Parked(c.release[e.scope.value])))))
  {
    var sc := e.scope.value;
    var t := Put(s, i, (c, e.(phase := Parked(c.release[sc]))));
    Counts(s, t, i);
    forall scope: string
      ensures Exclusive(t, scope) && (Covered(s, scope) ==> Covered(t, scope))
    {
      assert Exclusive(s, scope);
    }
    forall k | 0 <= k < |t.execs|
      ensures ExecInv(t.cache, t.execs[k])
    {
      assert ExecInv(s.cache, s.execs[k]);
    }
  }

  lemma WakeKeepsInv(s: Sys, i: nat, hook: Hook)
    requires Live(s) && Enabled(s, Wake(i, hook))
    ensures Keeps(s, Apply(s, Wake(i, hook)))
  {
    var e := s.execs[i];
    var sc := e.scope.value;
    assert ExecInv(s.cache, e);
    if CanRun(s.cache, sc) {
      AcquireKeepsInv(s, i, s.cache, e);
      BeginKeepsInv(s, i, Acquire(s.cache, sc, e.id), e, hook);
    } else {
      var t := Apply(s, Wake(i, hook));
      Counts(s, t, i);
      forall scope: string
        ensures Exclusive(t, scope) && (Covered(s, scope) ==> Covered(t, scope))
      {
        assert Exclusive(s, scope);
      }
      forall k | 0 <= k < |t.execs|
        ensures ExecInv(t.cache, t.execs[k])
      {
        assert ExecInv(s.cache, s.execs[k]);
      }
    }
  }

  lemma ReplyKeepsInv(s: Sys, i: nat, failure: Option<string>)
    requires Live(s) && Enabled(s, Reply(i, failure))
    ensures Keeps(s, Apply(s, Reply(i, failure)))
  {
    var e := s.execs[i];
    assert ExecInv(s.cache, e);
    match failure
    case None => SettleKeepsInv(s, i, SettleSuccess(s.cache, e.id), None);
    case Some(error) =>
      if e.used < e.retry {
        ChangeInv(s, Apply(s, Reply(i, failure)), i);
      } else {
        SettleKeepsInv(s, i, SettleError(s.cache, e.id, error), Some(error));
      }
  }

  lemma RemoveKeepsInv(s: Sys, id: nat)
    requires Live(s)
    ensures Keeps(s, Apply(s, RemoveEntry(id)))
  {
    var t := Apply(s, RemoveEntry(id));
    forall scope: string
      ensures Exclusive(t, scope) && (Covered(s, scope) ==> Covered(t, scope))
    {
      assert Exclusive(s, scope);
    }
    forall k | 0 <= k < |t.execs|
      ensures ExecInv(t.cache, t.execs[k])
    {
      assert ExecInv(s.cache, s.execs[k]);
    }
  }

  /** `clear` forgets running flags: the system stays live exactly when no
      execution holds a scope, and then nothing is left behind. */
  lemma ClearKeepsInvIff(s: Sys)
    requires Live(s)
    ensures Live(Apply(s, ClearCache)) <==> NoHolder(s)
    ensures NoHolder(s) ==> Inv(Apply(s, ClearCache))
  {
    var t := Apply(s, ClearCache);
    if NoHolder(s) {
      forall scope: string
        ensures Exclusive(t, scope) && Covered(t, scope)
      {
        SumZero(Holder(scope), s.execs);
      }
      forall k | 0 <= k < |t.execs|
        ensures ExecInv(t.cache, t.execs[k])
      {
        assert ExecInv(s.cache, s.execs[k]);
        if s.execs[k].phase.Parked? {
          var sc := s.execs[k].scope.value;
          SumZero(Holder(sc), s.execs);
          assert Exclusive(s, sc);
        }
      }
    } else {
      var i :| 0 <= i < |s.execs| && s.execs[i].scope.Some? && s.execs[i].Holds();
      var sc := s.execs[i].scope.value;
      SumMember(Holder(sc), s.execs, i);
      assert !Exclusive(t, sc);
    }
  }

  /** Dropping a started execution's future runs no release code: the system
      stays live exactly when the execution held no scope. */
  lemma DropKeepsLiveIff(s: Sys, i: nat)
    requires Live(s) && Enabled(s, DropExec(i))
    ensures Live(Apply(s, DropExec(i))) <==> !(s.execs[i].scope.Some? && s.execs[i].Holds())
  {
    var t := Apply(s, DropExec(i));
    Counts(s, t, i);
    if s.execs[i].scope.Some? && s.execs[i].Holds() {
      var sc := s.execs[i].scope.value;
      SumMember(Holder(sc), s.execs, i);
      assert Exclusive(s, sc) && !Exclusive(t, sc);
    } else {
      forall scope: string
        ensures Exclusive(t, scope)
      {
        assert Exclusive(s, scope);
      }
      forall k | 0 <= k < |t.execs|
        ensures ExecInv(t.cache, t.execs[k])
      {
        assert ExecInv(s.cache, s.execs[k]);
      }
    }
  }

  /** A dropped waiter leaves its id queued. The scope stays covered exactly
      when its queue was one shorter than the bound allows. */
  ghost predicate SpareRoom(s: Sys, scope: string) {
    var waiting := Waiters(s, scope);
    if s.cache.Running(scope) then |s.cache.Queue(scope)| < waiting
    else if waiting == 1 then scope !in s.cache.scopes
    else |s.cache.Queue(scope)| < waiting - 1
  }

  lemma DropKeepsCoverIff(s: Sys, i: nat, scope: string)
    requires Enabled(s, DropExec(i)) && Covered(s, scope)
    ensures Covered(Apply(s, DropExec(i)), scope) <==>
      (s.execs[i].scope == Some(scope) && s.execs[i].phase.Parked? ==> SpareRoom(s, scope))
  {
    Counts(s, Apply(s, DropExec(i)), i);
    SumMember(Waiter(scope), s.execs, i);
  }

  /** Every other step keeps the invariant; together with the two above, a
      system stays live through a step exactly when the step is careful. */
  lemma StepKeepsInv(s: Sys, step: Step)
    requires Live(s) && Enabled(s, step)
    ensures Live(Apply(s, step)) <==> Careful(s, step)
    ensures Careful(s, step) && !step.DropExec? ==> Keeps(s, Apply(s, step))
  {
    match step
    case Submit(i, hook) => SubmitKeepsInv(s, i, hook);
    case Wake(i, hook) => WakeKeepsInv(s, i, hook);
    case Reply(i, failure) => ReplyKeepsInv(s, i, failure);
    case Elapse(i) =>
      assert ExecInv(s.cache, s.execs[i]);
      ChangeInv(s, Apply(s, step), i);
    case RemoveEntry(id) => RemoveKeepsInv(s, id);
    case ResumeAll => SameScopesInv(s, Apply(s, step));
    case ClearCache => ClearKeepsInvIff(s);
    case DropExec(i) => DropKeepsLiveIff(s, i);
  }

  lemma {:induction false} RunKeepsLive(s: Sys, steps: seq<Step>)
    requires Live(s) && CarefulRun(s, steps)
    ensures Live(After(s, steps))
    decreases |steps|
  {
    if steps != [] {
      StepKeepsInv(s, steps[0]);
      RunKeepsLive(Apply(s, steps[0]), steps[1..]);
    }
  }

  /** Waiters of `scope` are dropped only while its queue has spare room. */
  ghost predicate Tidy(s: Sys, steps: seq<Step>, scope: string)
    decreases |steps|
  {
    steps == [] || !Enabled(s, steps[0]) ||
    (&& (steps[0].DropExec? && s.execs[steps[0].i].scope == Some(scope) && s.execs[steps[0].i].phase.Parked? ==>
          SpareRoom(s, scope))
     && Tidy(Apply(s, steps[0]), steps[1..], scope))
  }

  lemma {:induction false} RunKeepsCover(s: Sys, steps: seq<Step>, scope: string)
    requires Live(s) && Covered(s, scope) && CarefulRun(s, steps) && Tidy(s, steps, scope)
    ensures Covered(After(s, steps), scope)
    decreases |steps|
  {
    if steps != [] {
      StepKeepsInv(s, steps[0]);
      if steps[0].DropExec? { DropKeepsCoverIff(s, steps[0].i, scope); }
      RunKeepsCover(Apply(s, steps[0]), steps[1..], scope);
    }
  }

  // ----- safety over whole runs -----

  /** Whatever barging, removal, retry, hook failure or dropped waiter happens,
      a scope's flag is set exactly when one execution is between acquire and
      release, and no two executions of one scope overlap. */
  lemma MutualExclusion(s: Sys, steps: seq<Step>, scope: string)
    requires Start(s) && CarefulRun(s, steps)
    ensures var t := After(s, steps);
      && (t.cache.Running(scope) <==>
          exists i :: 0 <= i < |t.execs| && t.execs[i].scope == Some(scope) && t.execs[i].Holds())
      && (forall i, j | 0 <= i < |t.execs| && 0 <= j < |t.execs| ::
            Holder(scope)(t.execs[i]) == 1 == Holder(scope)(t.execs[j]) ==> i == j)
  {
    var t := After(s, steps);
    StartInv(s);
    RunKeepsLive(s, steps);
    assert Exclusive(t, scope);
    if t.cache.Running(scope) {
      var k := SumWitness(Holder(scope), t.execs);
    }
    forall i, j | 0 <= i < j < |t.execs|
      ensures !(Holder(scope)(t.execs[i]) == 1 == Holder(scope)(t.execs[j]))
    {
      SumTwo(Holder(scope), t.execs, i, j);
    }
    forall i | 0 <= i < |t.execs| && t.execs[i].scope == Some(scope) && t.execs[i].Holds()
      ensures t.cache.Running(scope)
    {
      SumMember(Holder(scope), t.execs, i);
    }
  }

  /** Every execution of the scope is over or has not begun. */
  ghost predicate Finished(s: Sys, scope: string) {
    forall i :: 0 <= i < |s.execs| && s.execs[i].scope == Some(scope) ==>
      s.execs[i].Done() || s.execs[i].phase.Unsubmitted?
  }

  /** A covered scope whose executions are all over has no entry left. */
  lemma FinishedLeavesNothing(s: Sys, scope: string)
    requires Live(s) && Covered(s, scope) && Finished(s, scope)
    ensures scope !in s.cache.scopes
  {
    SumZero(Holder(scope), s.execs);
    SumZero(Waiter(scope), s.execs);
    assert Exclusive(s, scope);
  }

  /** The scope queue never outgrows the parked executions, and once every
      execution of a scope is over its entry is gone. */
  lemma QueueIsCovered(s: Sys, steps: seq<Step>, scope: string)
    requires Start(s) && CarefulRun(s, steps) && Tidy(s, steps, scope)
    ensures var t := After(s, steps); var waiting := Waiters(t, scope);
      && |t.cache.Queue(scope)| <= waiting
      && (!t.cache.Running(scope) && waiting > 0 ==> |t.cache.Queue(scope)| <= waiting - 1)
      && (Finished(t, scope) ==> scope !in t.cache.scopes)
  {
    var t := After(s, steps);
    StartInv(s);
    RunKeepsLive(s, steps);
    RunKeepsCover(s, steps, scope);
    if Finished(t, scope) { FinishedLeavesNothing(t, scope); }
  }

  // ----- termination -----

  /** Steps an execution can still take, retries included. */
  ghost function Weight(): Exec -> nat {
    (e: Exec) =>
      var left := if e.used <= e.retry then e.retry - e.used else 0;
      match e.phase
      case Unsubmitted => 2 * left + 3
      case Parked(_) => 2 * left + 2
      case Calling => 2 * left + 1
      case Sleeping => 2 * left + 2
      case Settled(_) => 0
      case Dropped => 0
  }

  /** 1 for a parked execution with an unseen release version. */
  ghost function Unseen(release: map<string, nat>): Exec -> nat {
    (e: Exec) =>
      if e.phase.Parked? && e.scope.Some? && e.scope.value in release && release[e.scope.value] != e.phase.seen
      then 1 else 0
  }

  /** Remaining work first, waiters with unseen versions second, as one
      number. */
  ghost function Measure(s: Sys): nat {
    Sum(Weight(), s.execs) * (|s.execs| + 1) + Sum(Unseen(s.cache.release), s.execs)
  }

  lemma {:induction false} MulDrop(a: nat, b: nat, n: nat)
    requires a < b
    ensures a * n + n <= b * n
    decreases b
  {
    assert (b - 1) * n + n == b * n;
    if a + 1 < b { MulDrop(a, b - 1, n); }
  }

  lemma WeightDropLowersMeasure(s: Sys, t: Sys)
    requires |t.execs| == |s.execs| && Sum(Weight(), t.execs) < Sum(Weight(), s.execs)
    ensures Measure(t) < Measure(s)
  {
    SumAtMostLength(Unseen(t.cache.release), t.execs);
    MulDrop(Sum(Weight(), t.execs), Sum(Weight(), s.execs), |s.execs| + 1);
  }

  /** A turn of the gate uses up work unless it parks again. */
  lemma GateWeight(c: CacheState, e: Exec, hook: Hook)
    requires e.scope.Some? ==> e.scope.value in c.release
    requires (e.phase.Unsubmitted? || e.phase.Parked?) && e.used <= e.retry
    ensures var r := Gate(c, e, hook);
      || Weight()(r.1) < Weight()(e)
      || (e.phase.Parked? && r == (c, e.(phase := r.1.phase)) && Unseen(c.release)(r.1) == 0)
  {
  }

  lemma ReplyWeight(c: CacheState, e: Exec, failure: Option<string>)
    requires e.phase.Calling? && e.used <= e.retry
    ensures Weight()(OnReply(c, e, failure).1) < Weight()(e)
  {
  }

  /** Execution `i` used up work, or caught up with its scope's version. */
  ghost predicate MovedOn(s: Sys, t: Sys, i: nat)
    requires i < |s.execs|
  {
    && |t.execs| == |s.execs| && t.execs == s.execs[i := t.execs[i]]
    && (|| Weight()(t.execs[i]) < Weight()(s.execs[i])
        || (&& t.cache == s.cache && Weight()(t.execs[i]) == Weight()(s.execs[i])
            && Unseen(s.cache.release)(t.execs[i]) < Unseen(s.cache.release)(s.execs[i])))
  }

  lemma SubmitMovesOn(s: Sys, i: nat, hook: Hook)
    requires Live(s) && Enabled(s, Submit(i, hook))
    ensures MovedOn(s, Apply(s, Submit(i, hook)), i)
  {
    var e := s.execs[i];
    assert ExecInv(s.cache, e);
    GateWeight(Enter(s.cache, e.scope), e.(id := s.cache.nextId + 1), hook);
  }

  lemma WakeMovesOn(s: Sys, i: nat, hook: Hook)
    requires Live(s) && Enabled(s, Wake(i, hook))
    ensures MovedOn(s, Apply(s, Wake(i, hook)), i)
  {
    assert ExecInv(s.cache, s.execs[i]);
    GateWeight(s.cache, s.execs[i], hook);
  }

  /** A work step uses up work, or a waiter catches up with its version. */
  lemma WorkEffect(s: Sys, step: Step)
    requires Live(s) && Enabled(s, step) && step.Work()
    ensures MovedOn(s, Apply(s, step), step.i)
  {
    match step
    case Submit(i, hook) => SubmitMovesOn(s, i, hook);
    case Wake(i, hook) => WakeMovesOn(s, i, hook);
    case Reply(i, failure) =>
      assert ExecInv(s.cache, s.execs[i]);
      ReplyWeight(s.cache, s.execs[i], failure);
    case Elapse(i) =>
      assert ExecInv(s.cache, s.execs[i]);
  }

  lemma CatchingUpLowersMeasure(s: Sys, t: Sys)
    requires t.cache == s.cache && |t.execs| == |s.execs|
    requires Sum(Weight(), t.execs) == Sum(Weight(), s.execs)
    requires Sum(Unseen(s.cache.release), t.execs) < Sum(Unseen(s.cache.release), s.execs)
    ensures Measure(t) < Measure(s)
  {
  }

  /** Every work step lowers the measure; the surroundings never raise it. */
  lemma StepMeasure(s: Sys, step: Step)
    requires Live(s) && Enabled(s, step)
    ensures step.Work() ==> Measure(Apply(s, step)) < Measure(s)
    ensures !step.Work() ==> Measure(Apply(s, step)) <= Measure(s)
  {
    if step.Work() {
      WorkLowersMeasure(s, step);
    } else if step.DropExec? {
      DropLowersMeasure(s, step.i);
    } else {
      SameMeasure(s, Apply(s, step));
    }
  }

  lemma SameMeasure(s: Sys, t: Sys)
    requires t.execs == s.execs && t.cache.release == s.cache.release
    ensures Measure(t) == Measure(s)
  {
  }

  lemma DropLowersMeasure(s: Sys, i: nat)
    requires Enabled(s, DropExec(i))
    ensures Measure(Apply(s, DropExec(i))) < Measure(s)
  {
    var t := Apply(s, DropExec(i));
    SumUpdate(Weight(), s.execs, i, t.execs[i]);
    WeightDropLowersMeasure(s, t);
  }

  lemma WorkLowersMeasure(s: Sys, step: Step)
    requires Live(s) && Enabled(s, step) && step.Work()
    ensures Measure(Apply(s, step)) < Measure(s)
  {
    WorkEffect(s, step);
    var t, i := Apply(s, step), step.i;
    var x := t.execs[i];
    assert t.execs == s.execs[i := x];
    SumUpdate(Weight(), s.execs, i, x);
    if Weight()(x) < Weight()(s.execs[i]) {
      WeightDropLowersMeasure(s, t);
    } else {
      SumUpdate(Unseen(s.cache.release), s.execs, i, x);
      CatchingUpLowersMeasure(s, t);
    }
  }

  ghost function WorkSteps(steps: seq<Step>): nat {
    if steps == [] then 0 else (if steps[0].Work() then 1 else 0) + WorkSteps(steps[1..])
  }

  lemma {:induction false} RunMeasure(s: Sys, steps: seq<Step>)
    requires Live(s) && CarefulRun(s, steps)
    ensures WorkSteps(steps) + Measure(After(s, steps)) <= Measure(s)
    decreases |steps|
  {
    if steps != [] {
      StepMeasure(s, steps[0]);
      StepKeepsInv(s, steps[0]);
      RunMeasure(Apply(s, steps[0]), steps[1..]);
    }
  }

  /** A bound known before anything runs: twice the retries plus three per
      execution, times one more than the number of executions. */
  ghost function Budget(execs: seq<Exec>): nat {
    Sum(Weight(), execs) * (|execs| + 1)
  }

  /** Every schedule is finite: no run does more work than its budget. */
  lemma SchedulesAreFinite(s: Sys, steps: seq<Step>)
    requires Start(s) && CarefulRun(s, steps)
    ensures WorkSteps(steps) <= Budget(s.execs)
  {
    StartInv(s);
    RunMeasure(s, steps);
    SumZero(Unseen(s.cache.release), s.execs);
  }

  /** While any execution is not over, some execution can take a step. */
  lemma Progress(s: Sys) returns (step: Step)
    requires Live(s) && exists i :: 0 <= i < |s.execs| && !s.execs[i].Done()
    ensures step.Work() && Enabled(s, step)
  {
    var i :| 0 <= i < |s.execs| && !s.execs[i].Done();
    var e := s.execs[i];
    assert ExecInv(s.cache, e);
    match e.phase
    case Unsubmitted => step := Submit(i, NoHook);
    case Calling => step := Reply(i, None);
    case Sleeping => step := Elapse(i);
    case Parked(seen) =>
      var sc := e.scope.value;
      if s.cache.Running(sc) {
        assert Exclusive(s, sc);
        var k := SumWitness(Holder(sc), s.execs);
        step := if s.execs[k].phase.Calling? then Reply(k, None) else Elapse(k);
      } else {
        step := Wake(i, NoHook);
      }
  }

  /** A schedule that can go no further has settled every execution it did not
      drop, and has left no scope behind where waiters were dropped tidily. */
  lemma StuckMeansSettled(s: Sys, steps: seq<Step>)
    requires Start(s) && CarefulRun(s, steps)
    requires forall step: Step :: step.Work() ==> !Enabled(After(s, steps), step)
    ensures var t := After(s, steps);
      && (forall i :: 0 <= i < |t.execs| ==> t.execs[i].Done())
      && (forall scope: string :: Tidy(s, steps, scope) ==> scope !in t.cache.scopes)
  {
    var t := After(s, steps);
    StartInv(s);
    RunKeepsLive(s, steps);
    if exists i :: 0 <= i < |t.execs| && !t.execs[i].Done() {
      var step := Progress(t);
      assert false;
    }
    forall scope: string | Tidy(s, steps, scope)
      ensures scope !in t.cache.scopes
    {
      QueueIsCovered(s, steps, scope);
    }
  }
}
