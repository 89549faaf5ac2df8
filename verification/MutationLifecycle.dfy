/**
  One mutation execution of src/mutation.rs from submission to release: the
  retry loop, the rollback and the callbacks, as the sequence of calls it
  makes. The mutate function's replies are an arbitrary stream.
 */
module MutationLifecycle {
  import opened Wrappers
  import ScopedMutations

  datatype Outcome = Ok(data: string) | Err(error: string)

  type Hook = ScopedMutations.Hook

  /** Per-call `MutateOptions`: which callbacks are set. */
  datatype PerCall = PerCall(onSuccess: bool, onError: bool, onSettled: bool)

  /** The mutation and cache configuration: which callbacks are set. */
  datatype Config = Config(
    scoped: bool,
    retry: nat,
    onMutate: Hook,
    invalidates: bool,
    onSuccess: bool,
    onError: bool,
    onSettled: bool,
    cacheOnMutate: bool,
    cacheOnSuccess: bool,
    cacheOnError: bool,
    cacheOnSettled: bool,
    perCall: Option<PerCall>)

  /** Whether the cache still holds the entry at each moment it is looked up:
      for the cache-level hook, the context mark, the status, the cache-level
      outcome callback and the cache-level settled callback. */
  datatype Presence = Presence(
    atMutate: bool,
    atContext: bool,
    atStatus: bool,
    atOutcome: bool,
    atSettled: bool)

  datatype Call =
    | CacheOnMutate
    | AcquireScope
    | OnMutate
    | SetContext
    | Attempt(k: nat)
    | Sleep
    | Rollback
    | Invalidate
    | WriteStatus(ok: bool)
    | OptionCallback(result: Outcome)
    | CacheCallback(ok: bool)
    | PerCallCallback(result: Outcome)
    | PerCallSettled(result: Outcome)
    | OptionSettled(result: Outcome)
    | CacheSettled
    | ReleaseScope

  // ----- calls that are due when configured -----

  /** A call and whether it is configured. */
  datatype Item = Item(due: bool, call: Call)

  ghost function Keep(plan: seq<Item>): seq<Call> {
    if plan == [] then [] else
      var last := plan[|plan| - 1];
      Keep(plan[..|plan| - 1]) + (if last.due then [last.call] else [])
  }

  lemma KeepStep(plan: seq<Item>, k: nat)
    requires k < |plan|
    ensures Keep(plan[..k + 1]) == Keep(plan[..k]) + (if plan[k].due then [plan[k].call] else [])
  {
    assert plan[..k + 1][..k] == plan[..k];
  }

  lemma KeepAll(plan: seq<Item>)
    ensures Keep(plan[..|plan|]) == Keep(plan)
  {
    assert plan[..|plan|] == plan;
  }

  // ----- the execution -----

  /** One execution; `trace` is every call made so far. */
  class Execution {
    const cfg: Config
    var trace: seq<Call>

    constructor (cfg: Config)
      ensures this.cfg == cfg && trace == []
    {
      this.cfg := cfg;
      trace := [];
    }

    /** Make the `k`th call of `plan` if it is configured. */
    method Fire(configured: bool, c: Call, ghost start: seq<Call>, ghost plan: seq<Item>, ghost k: nat)
      requires k < |plan| && plan[k] == Item(configured, c) && trace == start + Keep(plan[..k])
      modifies this
      ensures trace == start + Keep(plan[..k + 1])
    {
      KeepStep(plan, k);
      if configured { trace := trace + [c]; }
    }

    /** The end of both settle paths. */
    method PerCallThenSettled(r: Outcome, present: Presence, ghost start: seq<Call>)
      requires trace == start + Keep(SettlePlan(cfg, r, present)[..4])
      modifies this
      ensures trace == start + Keep(SettlePlan(cfg, r, present))
    {
      ghost var plan := SettlePlan(cfg, r, present);
      if cfg.perCall.Some? {
        var configured := if r.Ok? then cfg.perCall.value.onSuccess else cfg.perCall.value.onError;
        Fire(configured, PerCallCallback(r), start, plan, 4);
        Fire(cfg.perCall.value.onSettled, PerCallSettled(r), start, plan, 5);
      } else {
        KeepStep(plan, 4);
        KeepStep(plan, 5);
      }
      Fire(cfg.onSettled, OptionSettled(r), start, plan, 6);
      Fire(cfg.cacheOnSettled && present.atSettled, CacheSettled, start, plan, 7);
      KeepAll(plan);
    }

    /** Cache-level callbacks are silent once the entry has been removed. */
    method SettleSuccess(data: string, present: Presence)
      modifies this
      ensures trace == old(trace) + Keep(SettlePlan(cfg, Ok(data), present))
    {
      ghost var t := trace;
      ghost var plan := SettlePlan(cfg, Ok(data), present);
      Fire(cfg.invalidates, Invalidate, t, plan, 0);
      Fire(present.atStatus, WriteStatus(true), t, plan, 1);
      Fire(cfg.onSuccess, OptionCallback(Ok(data)), t, plan, 2);
      Fire(cfg.cacheOnSuccess && present.atOutcome, CacheCallback(true), t, plan, 3);
      PerCallThenSettled(Ok(data), present, t);
    }

    method SettleError(error: string, present: Presence)
      modifies this
      ensures trace == old(trace) + Keep(SettlePlan(cfg, Err(error), present))
    {
      ghost var t := trace;
      ghost var plan := SettlePlan(cfg, Err(error), present);
      KeepStep(plan, 0);
      Fire(present.atStatus, WriteStatus(false), t, plan, 1);
      Fire(cfg.onError, OptionCallback(Err(error)), t, plan, 2);
      Fire(cfg.cacheOnError && present.atOutcome, CacheCallback(false), t, plan, 3);
      PerCallThenSettled(Err(error), present, t);
    }

    /** From the cache-level hook through the scope gate and `on_mutate`. */
    method Open(present: Presence)
      requires trace == []
      modifies this
      ensures trace == Keep(OpeningPlan(cfg, present))
    {
      ghost var plan := OpeningPlan(cfg, present);
      Fire(cfg.cacheOnMutate && present.atMutate, CacheOnMutate, [], plan, 0);
      Fire(cfg.scoped, AcquireScope, [], plan, 1);
      Fire(!cfg.onMutate.NoHook?, OnMutate, [], plan, 2);
      Fire(cfg.onMutate.HookOk? && present.atContext, SetContext, [], plan, 3);
      KeepAll(plan);
    }

    /** The retry loop. */
    method CallMutateFn(reply: nat -> Outcome) returns (result: Outcome, attempts: nat)
      modifies this
      ensures 1 <= attempts <= cfg.retry + 1 && result == reply(attempts - 1)
      ensures forall k :: 0 <= k < attempts - 1 ==> reply(k).Err?
      ensures result.Err? ==> attempts == cfg.retry + 1
      ensures trace == old(trace) + AttemptCalls(attempts)
    {
      var retriesUsed := 0;
      attempts := 0;
      while true
        invariant attempts == retriesUsed <= cfg.retry
        invariant forall k :: 0 <= k < attempts ==> reply(k).Err?
        invariant trace == old(trace) + AttemptCalls(attempts) + (if attempts > 0 then [Sleep] else [])
        decreases cfg.retry - retriesUsed
      {
        result := reply(attempts);
        trace := trace + [Attempt(attempts)];
        attempts := attempts + 1;
        if result.Ok? || retriesUsed >= cfg.retry {
          break;
        }
        retriesUsed := retriesUsed + 1;
        trace := trace + [Sleep];
      }
    }

    /** Rollback, settle and release. */
    method Close(result: Outcome, present: Presence)
      modifies this
      ensures trace == old(trace) + Closing(cfg, result, present)
    {
      if result.Err? && cfg.onMutate.HookOk? { trace := trace + [Rollback]; }
      match result {
        case Ok(data) => SettleSuccess(data, present);
        case Err(error) => SettleError(error, present);
      }
      if cfg.scoped { trace := trace + [ReleaseScope]; }
    }

    /** `reply` is the mutate function's stream of outcomes; `present` tells
        when the cache entry still exists. */
    method Execute(reply: nat -> Outcome, present: Presence) returns (result: Outcome, attempts: nat)
      requires trace == []
      modifies this
      ensures Delivers(cfg, reply, attempts, result)
      ensures trace == Expected(cfg, attempts, result, present)
    {
      Open(present);
      if cfg.onMutate.HookErr? {
        result, attempts := Err(cfg.onMutate.error), 0;
      } else {
        result, attempts := CallMutateFn(reply);
      }
      Close(result, present);
    }
  }

  /** A failed hook gives its error without an attempt. Otherwise the result is the
      last attempt's: the first success, or the failure that spent the budget. */
  ghost predicate Delivers(cfg: Config, reply: nat -> Outcome, attempts: nat, result: Outcome) {
    if cfg.onMutate.HookErr? then attempts == 0 && result == Err(cfg.onMutate.error)
    else
      && 1 <= attempts <= cfg.retry + 1
      && result == reply(attempts - 1)
      && (forall k :: 0 <= k < attempts - 1 ==> reply(k).Err?)
      && (result.Err? ==> attempts == cfg.retry + 1)
  }

  // ----- the calls a settled execution has made -----

  ghost function AttemptCalls(n: nat): seq<Call> {
    if n == 0 then []
    else if n == 1 then [Attempt(0)]
    else AttemptCalls(n - 1) + [Sleep, Attempt(n - 1)]
  }

  ghost function OpeningPlan(cfg: Config, present: Presence): seq<Item> {
    [Item(cfg.cacheOnMutate && present.atMutate, CacheOnMutate),
     Item(cfg.scoped, AcquireScope),
     Item(!cfg.onMutate.NoHook?, OnMutate),
     Item(cfg.onMutate.HookOk? && present.atContext, SetContext)]
  }

  ghost function SettlePlan(cfg: Config, r: Outcome, present: Presence): seq<Item> {
    var per := cfg.perCall.Some?;
    [Item(r.Ok? && cfg.invalidates, Invalidate),
     Item(present.atStatus, WriteStatus(r.Ok?)),
     Item(if r.Ok? then cfg.onSuccess else cfg.onError, OptionCallback(r)),
     Item((if r.Ok? then cfg.cacheOnSuccess else cfg.cacheOnError) && present.atOutcome, CacheCallback(r.Ok?)),
     Item(per && (if r.Ok? then cfg.perCall.value.onSuccess else cfg.perCall.value.onError), PerCallCallback(r)),
     Item(per && cfg.perCall.value.onSettled, PerCallSettled(r)),
     Item(cfg.onSettled, OptionSettled(r)),
     Item(cfg.cacheOnSettled && present.atSettled, CacheSettled)]
  }

  ghost function Closing(cfg: Config, r: Outcome, present: Presence): seq<Call> {
    (if r.Err? && cfg.onMutate.HookOk? then [Rollback] else [])
    + Keep(SettlePlan(cfg, r, present))
    + (if cfg.scoped then [ReleaseScope] else [])
  }

  ghost function Expected(cfg: Config, attempts: nat, r: Outcome, present: Presence): seq<Call> {
    Keep(OpeningPlan(cfg, present)) + AttemptCalls(attempts) + Closing(cfg, r, present)
  }

  // ----- what that sequence promises -----

  /** How often each call is due, stated per call. */
  ghost function Due(cfg: Config, attempts: nat, r: Outcome, present: Presence, c: Call): nat {
    var yes := match c
      case CacheOnMutate => cfg.cacheOnMutate && present.atMutate
      case AcquireScope => cfg.scoped
      case OnMutate => !cfg.onMutate.NoHook?
      case SetContext => cfg.onMutate.HookOk? && present.atContext
      case Attempt(k) => k < attempts
      case Sleep => false
      case Rollback => r.Err? && cfg.onMutate.HookOk?
      case Invalidate => r.Ok? && cfg.invalidates
      case WriteStatus(ok) => present.atStatus && ok == r.Ok?
      case OptionCallback(x) => x == r && (if r.Ok? then cfg.onSuccess else cfg.onError)
      case CacheCallback(ok) => present.atOutcome && ok == r.Ok? && (if r.Ok? then cfg.cacheOnSuccess else cfg.cacheOnError)
      case PerCallCallback(x) =>
        x == r && cfg.perCall.Some? && (if r.Ok? then cfg.perCall.value.onSuccess else cfg.perCall.value.onError)
      case PerCallSettled(x) => x == r && cfg.perCall.Some? && cfg.perCall.value.onSettled
      case OptionSettled(x) => x == r && cfg.onSettled
      case CacheSettled => cfg.cacheOnSettled && present.atSettled
      case ReleaseScope => cfg.scoped;
    if c.Sleep? then (if attempts == 0 then 0 else attempts - 1)
    else if yes then 1 else 0
  }

  /** Place of a call in the documented order: rollback before the error
      callbacks, option before cache before per-call, settled after them,
      release last. */
  ghost function Rank(c: Call): nat {
    match c
    case CacheOnMutate => 0
    case AcquireScope => 1
    case OnMutate => 2
    case SetContext => 3
    case Attempt(_) => 4
    case Sleep => 4
    case Rollback => 5
    case Invalidate => 6
    case WriteStatus(_) => 7
    case OptionCallback(_) => 8
    case CacheCallback(_) => 9
    case PerCallCallback(_) => 10
    case PerCallSettled(_) => 11
    case OptionSettled(_) => 12
    case CacheSettled => 13
    case ReleaseScope => 14
  }

  /** Item `k` of a ranked plan has rank `base + k`. */
  ghost predicate Ranked(plan: seq<Item>, base: nat) {
    forall k :: 0 <= k < |plan| ==> Rank(plan[k].call) == base + k
  }

  /** A kept plan holds each due call once and no other. */
  lemma {:induction false} KeepCount(plan: seq<Item>, base: nat, c: Call)
    requires Ranked(plan, base)
    ensures multiset(Keep(plan))[c] == if Item(true, c) in plan then 1 else 0
  {
    if plan != [] {
      var n := |plan| - 1;
      var init := plan[..n];
      assert plan == init + [plan[n]];
      KeepCount(init, base, c);
      if plan[n].call == c {
        assert Item(true, c) !in init;
      }
    }
  }

  /** A call can only be at its own rank's place in a ranked plan. */
  lemma RankedMember(plan: seq<Item>, base: nat, c: Call)
    requires Ranked(plan, base)
    ensures Item(true, c) in plan <==>
      base <= Rank(c) < base + |plan| && plan[Rank(c) - base] == Item(true, c)
  {
  }

  ghost predicate Sorted(t: seq<Call>, lo: nat, hi: nat) {
    && (forall i :: 0 <= i < |t| ==> lo <= Rank(t[i]) <= hi)
    && (forall i, j :: 0 <= i < j < |t| ==> Rank(t[i]) <= Rank(t[j]))
  }

  lemma {:induction false} KeepSorted(plan: seq<Item>, base: nat)
    requires Ranked(plan, base)
    ensures Sorted(Keep(plan), base, base + |plan|)
  {
    if plan != [] { KeepSorted(plan[..|plan| - 1], base); }
  }

  lemma {:induction false} AttemptCount(n: nat, c: Call)
    ensures multiset(AttemptCalls(n))[c] ==
      (if c.Attempt? && c.k < n then 1 else if c.Sleep? && n > 0 then n - 1 else 0)
  {
    if n > 1 {
      AttemptCount(n - 1, c);
      assert multiset(AttemptCalls(n)) == multiset(AttemptCalls(n - 1)) + multiset{Sleep, Attempt(n - 1)};
    }
  }

  /** Attempts come in order, with one sleep between any two. */
  lemma {:induction false} AttemptsAlternate(n: nat, k: nat)
    requires k < n
    ensures |AttemptCalls(n)| == 2 * n - 1 && AttemptCalls(n)[2 * k] == Attempt(k)
    ensures k + 1 < n ==> AttemptCalls(n)[2 * k + 1] == Sleep
  {
    if n > 1 {
      AttemptsAlternate(n - 1, if k < n - 1 then k else 0);
      var before := AttemptCalls(n - 1);
      assert AttemptCalls(n) == before + [Sleep, Attempt(n - 1)];
    }
  }

  lemma SettleCount(cfg: Config, r: Outcome, present: Presence, c: Call)
    ensures multiset(Keep(SettlePlan(cfg, r, present)))[c] ==
      if 6 <= Rank(c) <= 13 then Due(cfg, 0, r, present, c) else 0
  {
    KeepCount(SettlePlan(cfg, r, present), 6, c);
    RankedMember(SettlePlan(cfg, r, present), 6, c);
    if 6 <= Rank(c) <= 13 { SettleDue(cfg, r, present, c); }
  }

  /** The plan's item at a call's place is that call when it is due. */
  lemma SettleDue(cfg: Config, r: Outcome, present: Presence, c: Call)
    requires 6 <= Rank(c) <= 13
    ensures Due(cfg, 0, r, present, c) == if SettlePlan(cfg, r, present)[Rank(c) - 6] == Item(true, c) then 1 else 0
  {
  }

  lemma OpeningCount(cfg: Config, r: Outcome, present: Presence, c: Call)
    ensures multiset(Keep(OpeningPlan(cfg, present)))[c] == if Rank(c) <= 3 then Due(cfg, 0, r, present, c) else 0
  {
    KeepCount(OpeningPlan(cfg, present), 0, c);
    RankedMember(OpeningPlan(cfg, present), 0, c);
  }

  lemma ClosingCount(cfg: Config, r: Outcome, present: Presence, c: Call)
    ensures multiset(Closing(cfg, r, present))[c] == if Rank(c) >= 5 then Due(cfg, 0, r, present, c) else 0
  {
    SettleCount(cfg, r, present, c);
  }

  lemma CountJoin(a: seq<Call>, b: seq<Call>, d: seq<Call>, c: Call)
    ensures multiset(a + b + d)[c] == multiset(a)[c] + multiset(b)[c] + multiset(d)[c]
  {
  }

  /** Only the retry loop's own calls depend on the number of attempts. */
  lemma DueOutsideLoop(cfg: Config, attempts: nat, r: Outcome, present: Presence, c: Call)
    ensures Due(cfg, attempts, r, present, c) ==
      if c.Attempt? then (if c.k < attempts then 1 else 0)
      else if c.Sleep? then (if attempts > 0 then attempts - 1 else 0)
      else Due(cfg, 0, r, present, c)
  {
  }

  /** Each configured callback runs exactly once and nothing else runs: one
      terminal status, a rollback exactly when `on_mutate` succeeded and the
      result is an error, one release of an acquired scope. */
  lemma ExactlyOnce(cfg: Config, attempts: nat, r: Outcome, present: Presence, c: Call)
    ensures multiset(Expected(cfg, attempts, r, present))[c] == Due(cfg, attempts, r, present, c)
  {
    AttemptCount(attempts, c);
    OpeningCount(cfg, r, present, c);
    ClosingCount(cfg, r, present, c);
    CountJoin(Keep(OpeningPlan(cfg, present)), AttemptCalls(attempts), Closing(cfg, r, present), c);
    DueOutsideLoop(cfg, attempts, r, present, c);
  }

  lemma SortedJoin(a: seq<Call>, b: seq<Call>, lo: nat, mid: nat, hi: nat)
    requires Sorted(a, lo, mid) && Sorted(b, mid, hi) && lo <= mid <= hi
    ensures Sorted(a + b, lo, hi)
  {
  }

  lemma {:induction false} AttemptsSorted(n: nat)
    ensures Sorted(AttemptCalls(n), 4, 4)
  {
    if n > 0 { AttemptsSorted(n - 1); }
  }

  lemma ClosingSorted(cfg: Config, r: Outcome, present: Presence)
    ensures Sorted(Closing(cfg, r, present), 4, 14)
  {
    var rollback := if r.Err? && cfg.onMutate.HookOk? then [Rollback] else [];
    var settle := Keep(SettlePlan(cfg, r, present));
    KeepSorted(SettlePlan(cfg, r, present), 6);
    SortedJoin(rollback, settle, 4, 6, 14);
    SortedJoin(rollback + settle, if cfg.scoped then [ReleaseScope] else [], 4, 14, 14);
  }

  /** The calls come in the documented order, whatever is configured. */
  lemma InDocumentedOrder(cfg: Config, attempts: nat, r: Outcome, present: Presence)
    ensures Sorted(Expected(cfg, attempts, r, present), 0, 14)
  {
    AttemptsSorted(attempts);
    KeepSorted(OpeningPlan(cfg, present), 0);
    SortedJoin(Keep(OpeningPlan(cfg, present)), AttemptCalls(attempts), 0, 4, 4);
    ClosingSorted(cfg, r, present);
    SortedJoin(Keep(OpeningPlan(cfg, present)) + AttemptCalls(attempts), Closing(cfg, r, present), 0, 4, 14);
  }

  /** A scope is released last, after every callback. */
  lemma ReleaseComesLast(cfg: Config, attempts: nat, r: Outcome, present: Presence)
    requires cfg.scoped
    ensures var t := Expected(cfg, attempts, r, present);
      |t| > 0 && t[|t| - 1] == ReleaseScope && ReleaseScope !in t[..|t| - 1]
  {
    var t := Expected(cfg, attempts, r, present);
    ExactlyOnce(cfg, attempts, r, present, ReleaseScope);
    assert t == t[..|t| - 1] + [ReleaseScope];
  }
}
