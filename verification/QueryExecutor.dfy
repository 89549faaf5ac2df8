/**
  The query run of src/executor.rs: network gate, fetch, retry with pause and
  backoff. Fetch outcomes, connectivity, cancellation and the connectivity
  watch are an arbitrary script the run reads one observation at a time; a run
  that outlives its script is still suspended. `LongerScript` shows that a run
  never depends on observations it has not read, so every prefix of every
  endless environment is covered.
 */
module QueryExecutor {
  import opened Wrappers
  import opened Backoff

  datatype NetworkMode = Online | Always | OfflineFirst

  predicate CanFetch(mode: NetworkMode, online: bool) { mode.Online? ==> online }

  predicate CanRetry(mode: NetworkMode, online: bool) { mode.Always? || online }

  datatype QueryError = Network | Timeout | Cancelled | Paused | Custom(message: string)

  /** Only connection trouble is retried. */
  predicate Retryable(e: QueryError) { e.Network? || e.Timeout? }

  datatype Outcome = Ok(data: int) | Err(error: QueryError)

  datatype Wake = Changed | WatchClosed | CancelledWhileParked

  /** One look at the world. */
  datatype Obs = Obs(cancelled: bool, online: bool, fetch: Outcome, wake: Wake)

  /** Cancellation is never undone and ends a park only when it happened. */
  ghost predicate WellFormed(env: seq<Obs>) {
    && (forall i, j :: 0 <= i <= j < |env| && env[i].cancelled ==> env[j].cancelled)
    && (forall i :: 0 <= i < |env| && env[i].wake.CancelledWhileParked? ==> env[i].cancelled)
  }

  datatype Query = Query(mode: NetworkMode, retry: RetryConfig, select: Option<int -> int>)
  {
    function Selected(data: int): int { if select.Some? then select.value(data) else data }

    /** Whether attempt `n`, counted from zero, may be followed by another. */
    predicate Retries(n: nat, e: QueryError) { n < retry.maxRetries && Retryable(e) }
  }

  datatype State =
    | Idle
    | Deduplicated
    | Suspended
    | Success(data: int)
    | Error(error: QueryError, stale: Option<int>)

  datatype Notice = NotifiedLoading | NotifiedSuccess | NotifiedError

  /** A backoff: how long, and the observation that let it start. */
  datatype Sleep = Sleep(delay: nat, seen: nat)

  /** A run: how it ended, where in the script each attempt got its outcome, its
      backoffs, and how much of the script it has read. */
  datatype Run = Run(state: State, at: seq<nat>, sleeps: seq<Sleep>, read: nat)

  // ----- what the script makes of a run -----

  datatype Reason = Allowed | Closed | Aborted

  /** Why `wait_for_online` came back, and its last look. */
  datatype Waited = Returned(why: Reason, seen: nat) | OutOfScript

  function Waiting(mode: NetworkMode, env: seq<Obs>, t: nat): (w: Waited)
    ensures w.Returned? ==> t <= w.seen < |env|
    decreases |env| - t
  {
    if t >= |env| then OutOfScript
    else if env[t].cancelled then Returned(Aborted, t)
    else if CanRetry(mode, env[t].online) then Returned(Allowed, t)
    else match env[t].wake
      case Changed => Waiting(mode, env, t + 1)
      case WatchClosed => Returned(Closed, t)
      case CancelledWhileParked => Returned(Aborted, t)
  }

  /** Between a failed attempt and its backoff. */
  datatype Pause = Proceed(seen: nat, next: nat) | GiveUp(read: nat) | Starved

  function PauseFrom(mode: NetworkMode, env: seq<Obs>, t: nat): (p: Pause)
    ensures p.Proceed? ==> t <= p.seen < p.next <= |env|
    ensures p.GiveUp? ==> t < p.read <= |env|
  {
    if t >= |env| then Starved
    else if CanRetry(mode, env[t].online) then Proceed(t, t + 1)
    else match Waiting(mode, env, t + 1)
      case OutOfScript => Starved
      case Returned(_, seen) =>
        if seen + 1 >= |env| then Starved
        else if env[seen + 1].cancelled then GiveUp(seen + 2)
        else Proceed(seen, seen + 2)
  }

  /** One turn of the loop: the run ends, with or without having fetched, or an
      attempt at `at` is followed by a backoff and another turn. */
  datatype Turn = Ends(state: State, made: seq<nat>, read: nat) | Again(at: nat, sleep: Sleep, next: nat)

  /** The turn at observation `t`, with `n` attempts made before. */
  function TurnOf(q: Query, env: seq<Obs>, cached: Option<int>, t: nat, n: nat): (r: Turn)
    ensures r.Again? ==> t < r.next <= |env|
  {
    if t >= |env| then Ends(Suspended, [], |env|)
    else if env[t].cancelled then Ends(Error(Cancelled, cached), [], t + 1)
    else if t + 1 >= |env| then Ends(Suspended, [], |env|)
    else match env[t + 1].fetch
      case Ok(data) => Ends(Success(q.Selected(data)), [t + 1], t + 2)
      case Err(e) =>
        if e.Cancelled? || !q.Retries(n, e) then Ends(Error(e, cached), [t + 1], t + 2)
        else match PauseFrom(q.mode, env, t + 2)
          case Starved => Ends(Suspended, [t + 1], |env|)
          case GiveUp(read) => Ends(Error(Cancelled, cached), [t + 1], read)
          case Proceed(seen, next) => Again(t + 1, Sleep(DelayFor(q.retry, n), seen), next)
  }

  /** An attempt and its backoff in front of the rest of a run. */
  function Before(at: nat, sleep: Sleep, rest: Run): Run {
    rest.(at := [at] + rest.at, sleeps := [sleep] + rest.sleeps)
  }

  /** The run from observation `t` on, with `n` attempts made before. */
  function FetchFrom(q: Query, env: seq<Obs>, cached: Option<int>, t: nat, n: nat): Run
    decreases |env| - t
  {
    match TurnOf(q, env, cached, t, n)
    case Ends(state, at, read) => Run(state, at, [], read)
    case Again(at, sleep, next) => Before(at, sleep, FetchFrom(q, env, cached, next, n + 1))
  }

  /** A whole run: the gates, then the loop from observation 1 on. */
  function RunOf(q: Query, restoring: bool, dedup: bool, env: seq<Obs>, cached: Option<int>): Run {
    if restoring then Run(Idle, [], [], 0)
    else if dedup then Run(Deduplicated, [], [], 0)
    else if env == [] then Run(Suspended, [], [], 0)
    else if !CanFetch(q.mode, env[0].online) then Run(Error(Paused, cached), [], [], 1)
    else FetchFrom(q, env, cached, 1, 0)
  }

  // ----- the executor -----

  /** Park until a retry may continue. */
  method WaitForOnline(mode: NetworkMode, env: seq<Obs>, t0: nat) returns (w: Waited)
    requires t0 <= |env|
    ensures w == Waiting(mode, env, t0)
  {
    var t := t0;
    while t < |env|
      invariant t0 <= t <= |env|
      invariant Waiting(mode, env, t0) == Waiting(mode, env, t)
    {
      var now := env[t];
      if now.cancelled { return Returned(Aborted, t); }
      if CanRetry(mode, now.online) { return Returned(Allowed, t); }
      match now.wake {
        case Changed =>
        case WatchClosed => return Returned(Closed, t);
        case CancelledWhileParked => return Returned(Aborted, t);
      }
      t := t + 1;
    }
    return OutOfScript;
  }

  /** The connectivity check after a failure, and the wait it may lead to. */
  method PauseForRetry(mode: NetworkMode, env: seq<Obs>, t: nat) returns (p: Pause)
    ensures p == PauseFrom(mode, env, t)
  {
    if t >= |env| { return Starved; }
    if CanRetry(mode, env[t].online) { return Proceed(t, t + 1); }
    var w := WaitForOnline(mode, env, t + 1);
    if w.OutOfScript? || w.seen + 1 >= |env| { return Starved; }
    if env[w.seen + 1].cancelled { return GiveUp(w.seen + 2); }
    return Proceed(w.seen, w.seen + 2);
  }

  /** The client's copy of the query's data and the notices it sent. */
  class Client {
    var cached: Option<int>
    var notices: seq<Notice>

    constructor (cached: Option<int>)
      ensures this.cached == cached && notices == []
    {
      this.cached := cached;
      notices := [];
    }

    /** Gates before the first fetch, then the retry loop. */
    method Execute(q: Query, restoring: bool, dedup: bool, env: seq<Obs>) returns (run: Run)
      modifies this
      ensures run == RunOf(q, restoring, dedup, env, old(cached))
      ensures cached == if run.state.Success? then Some(run.state.data) else old(cached)
      ensures notices == old(notices) +
        (if run.state.Idle? || run.state.Deduplicated? then []
         else if run.state.Success? then [NotifiedLoading, NotifiedSuccess]
         else if run.state.Error? && run.at != [] && !run.state.error.Cancelled? then [NotifiedLoading, NotifiedError]
         else [NotifiedLoading])
    {
      if restoring { return Run(Idle, [], [], 0); }
      if dedup { return Run(Deduplicated, [], [], 0); }
      notices := notices + [NotifiedLoading];
      if env == [] { return Run(Suspended, [], [], 0); }
      if !CanFetch(q.mode, env[0].online) { return Run(Error(Paused, cached), [], [], 1); }
      run := FetchLoop(q, env);
    }

    method FetchLoop(q: Query, env: seq<Obs>) returns (run: Run)
      modifies this
      ensures run == FetchFrom(q, env, old(cached), 1, 0)
      ensures cached == if run.state.Success? then Some(run.state.data) else old(cached)
      ensures notices == old(notices) +
        (if run.state.Success? then [NotifiedSuccess]
         else if run.state.Error? && run.at != [] && !run.state.error.Cancelled? then [NotifiedError]
         else [])
      ensures !run.state.Idle? && !run.state.Deduplicated?
    {
      var at: seq<nat>, sleeps: seq<Sleep> := [], [];
      var t := 1;
      while true
        invariant cached == old(cached) && notices == old(notices)
        invariant FetchFrom(q, env, cached, 1, 0) == After(at, sleeps, FetchFrom(q, env, cached, t, |at|))
        decreases |env| - t
      {
        ghost var was := cached;
        var turn := TakeTurn(q, env, t, |at|);
        match turn {
          case Ends(state, made, read) => return Run(state, at + made, sleeps, read);
          case Again(made, sleep, next) =>
            AfterBefore(at, sleeps, made, sleep, FetchFrom(q, env, was, next, |at| + 1));
            at, sleeps, t := at + [made], sleeps + [sleep], next;
        }
      }
    }

    /** The loop body up to the end of the backoff, with `index` attempts made
        before. */
    method TakeTurn(q: Query, env: seq<Obs>, t: nat, index: nat) returns (turn: Turn)
      modifies this
      ensures turn == TurnOf(q, env, old(cached), t, index)
      ensures cached == if turn.Ends? && turn.state.Success? then Some(turn.state.data) else old(cached)
      ensures notices == old(notices) +
        (if turn.Ends? && turn.state.Success? then [NotifiedSuccess]
         else if turn.Ends? && turn.state.Error? && !turn.state.error.Cancelled? then [NotifiedError]
         else [])
      ensures turn.Ends? ==> !turn.state.Idle? && !turn.state.Deduplicated?
      ensures turn.Ends? && turn.state.Error? && !turn.state.error.Cancelled? ==> turn.made != []
    {
      if t >= |env| { return Ends(Suspended, [], |env|); }
      if env[t].cancelled { return Ends(Error(Cancelled, cached), [], t + 1); }
      if t + 1 >= |env| { return Ends(Suspended, [], |env|); }
      match env[t + 1].fetch {
        case Ok(data) =>
          cached := Some(q.Selected(data));
          notices := notices + [NotifiedSuccess];
          return Ends(Success(cached.value), [t + 1], t + 2);
        case Err(error) =>
          if error.Cancelled? { return Ends(Error(Cancelled, cached), [t + 1], t + 2); }
          if !(index < q.retry.maxRetries && Retryable(error)) {
            notices := notices + [NotifiedError];
            return Ends(Error(error, cached), [t + 1], t + 2);
          }
          var pause := PauseForRetry(q.mode, env, t + 2);
          match pause {
            case Starved => return Ends(Suspended, [t + 1], |env|);
            case GiveUp(read) => return Ends(Error(Cancelled, cached), [t + 1], read);
            case Proceed(seen, next) => return Again(t + 1, Sleep(DelayFor(q.retry, index), seen), next);
          }
      }
    }
  }

  /** Attempts and backoffs already made in front of the rest of a run. */
  ghost function After(at: seq<nat>, sleeps: seq<Sleep>, rest: Run): Run {
    rest.(at := at + rest.at, sleeps := sleeps + rest.sleeps)
  }

  lemma AfterBefore(at: seq<nat>, sleeps: seq<Sleep>, made: nat, sleep: Sleep, rest: Run)
    ensures After(at, sleeps, Before(made, sleep, rest)) == After(at + [made], sleeps + [sleep], rest)
  {
    assert at + ([made] + rest.at) == at + [made] + rest.at;
    assert sleeps + ([sleep] + rest.sleeps) == sleeps + [sleep] + rest.sleeps;
  }

  // ----- what every run promises -----

  /** `seen` is the first look after `from` that allowed a retry, unless the
      watch was closed while a retry was still forbidden. */
  ghost predicate LookAllows(mode: NetworkMode, env: seq<Obs>, from: nat, seen: nat) {
    && from < seen < |env|
    && (mode.Always? || env[seen].online || env[seen].wake.WatchClosed?)
    && (forall i :: from < i < seen ==> !mode.Always? && !env[i].online)
  }

  /** A look that neither allows a retry nor ends the wait. */
  ghost predicate KeepsWaiting(mode: NetworkMode, o: Obs) {
    !mode.Always? && !o.online && !o.cancelled && o.wake.Changed?
  }

  lemma {:induction false} WaitingLooks(mode: NetworkMode, env: seq<Obs>, t: nat)
    requires WellFormed(env)
    ensures var w := Waiting(mode, env, t);
      && (forall i :: t <= i < (if w.Returned? then w.seen else |env|) ==> KeepsWaiting(mode, env[i]))
      && (w.Returned? ==>
          && (w.why.Allowed? ==> (mode.Always? || env[w.seen].online) && !env[w.seen].cancelled)
          && (w.why.Closed? ==> !mode.Always? && !env[w.seen].online && env[w.seen].wake.WatchClosed?)
          && (w.why.Aborted? ==> env[w.seen].cancelled))
    decreases |env| - t
  {
    if t < |env| { WaitingLooks(mode, env, t + 1); }
  }

  /** After a failure at `from` the script ends before a backoff can begin: every
      look kept the run waiting, but for a last one whose wait is over. */
  ghost predicate Starves(mode: NetworkMode, env: seq<Obs>, from: nat) {
    && (from + 1 < |env| ==> !mode.Always? && !env[from + 1].online)
    && (forall i :: from + 1 < i < |env| - 1 ==> KeepsWaiting(mode, env[i]))
  }

  lemma PauseLooks(mode: NetworkMode, env: seq<Obs>, t: nat)
    requires WellFormed(env) && t > 0
    ensures var p := PauseFrom(mode, env, t);
      && (p.Proceed? ==> LookAllows(mode, env, t - 1, p.seen) && p.next <= p.seen + 2)
      && (p.GiveUp? ==> env[p.read - 1].cancelled)
      && (p.Starved? ==> Starves(mode, env, t - 1))
  {
    if t < |env| && !CanRetry(mode, env[t].online) {
      WaitingLooks(mode, env, t + 1);
    }
  }

  /** The first attempt takes the second observation; attempts and backoffs
      alternate, each at a later place in the script than the one before, and an
      attempt at most three observations after its backoff began. */
  ghost predicate InScriptOrder(env: seq<Obs>, t: nat, run: Run) {
    var k := |run.at|;
    && t <= run.read <= |env| && |run.sleeps| <= k <= |run.sleeps| + 1
    && (k > 0 ==> run.at[0] == t + 1)
    && (forall j :: 0 <= j < k ==> t < run.at[j] < run.read)
    && (forall j :: 0 <= j < |run.sleeps| ==> run.at[j] < run.sleeps[j].seen < run.read)
    && (forall i, j :: 0 <= i < |run.sleeps| && i < j < k ==> run.sleeps[i].seen < run.at[j])
    && (forall i, j :: 0 <= i < |run.sleeps| && j == i + 1 < k ==> run.at[j] <= run.sleeps[i].seen + 3)
  }

  /** Each backoff has its length and was begun by a look that allowed it. */
  ghost predicate SleepsAllowed(q: Query, env: seq<Obs>, n: nat, run: Run) {
    && |run.sleeps| <= |run.at|
    && forall j :: 0 <= j < |run.sleeps| ==>
         && run.sleeps[j].delay == DelayFor(q.retry, n + j)
         && LookAllows(q.mode, env, run.at[j], run.sleeps[j].seen)
  }

  /** No attempt is made once cancellation shows. */
  ghost predicate StopsWhenCancelled(env: seq<Obs>, run: Run) {
    forall j :: 0 <= j < |run.at| ==> 0 < run.at[j] < |env| && !env[run.at[j] - 1].cancelled
  }

  /** Attempt `n`, counted from zero, failed and may be followed by another. */
  ghost predicate FailedAgain(q: Query, n: nat, o: Outcome) {
    o.Err? && n < q.retry.maxRetries && (o.error.Network? || o.error.Timeout?)
  }

  /** At most `max_retries + 1` attempts, and only network and timeout errors
      are followed by another. */
  ghost predicate RetriesBounded(q: Query, env: seq<Obs>, n: nat, run: Run) {
    && (n <= q.retry.maxRetries ==> n + |run.at| <= q.retry.maxRetries + 1)
    && (forall j :: 0 <= j < |run.sleeps| && j < |run.at| && run.at[j] < |env| ==>
          FailedAgain(q, n + j, env[run.at[j]].fetch))
  }

  /** The run ends as its script says: success and errors are the last
      attempt's, a cancellation was seen or answered, and a run is suspended
      only for want of the very next observation. */
  ghost predicate EndsRight(q: Query, env: seq<Obs>, cached: Option<int>, t: nat, n: nat, run: Run) {
    var k := |run.at|;
    var fetched := k == |run.sleeps| + 1 && run.at[k - 1] < |env|;
    match run.state
    case Success(data) =>
      && fetched && env[run.at[k - 1]].fetch.Ok?
      && var got := env[run.at[k - 1]].fetch.data;
         data == if q.select.Some? then q.select.value(got) else got
    case Error(e, stale) =>
      && stale == cached
      && if e.Cancelled? then
           || (t < run.read <= |env| && env[run.read - 1].cancelled)
           || (fetched && env[run.at[k - 1]].fetch == Err(Cancelled))
         else fetched && env[run.at[k - 1]].fetch == Err(e) && !FailedAgain(q, n + k - 1, Err(e))
    case Suspended =>
      && run.read == |env|
      && if k == |run.sleeps| then |env| <= (if k == 0 then t + 1 else run.sleeps[k - 1].seen + 3)
         else fetched && FailedAgain(q, n + k - 1, env[run.at[k - 1]].fetch) && Starves(q.mode, env, run.at[k - 1])
    case Idle => false
    case Deduplicated => false
  }

  ghost predicate Promise(q: Query, env: seq<Obs>, cached: Option<int>, t: nat, n: nat, run: Run) {
    && InScriptOrder(env, t, run) && SleepsAllowed(q, env, n, run) && StopsWhenCancelled(env, run)
    && RetriesBounded(q, env, n, run) && EndsRight(q, env, cached, t, n, run)
  }

  /** What a turn that goes on has done. */
  lemma AgainFacts(q: Query, env: seq<Obs>, cached: Option<int>, t: nat, n: nat)
    requires WellFormed(env) && TurnOf(q, env, cached, t, n).Again?
    ensures var turn := TurnOf(q, env, cached, t, n);
      && turn.at == t + 1 < turn.sleep.seen < turn.next <= |env| && turn.next <= turn.sleep.seen + 2 && !env[t].cancelled
      && turn.sleep.delay == DelayFor(q.retry, n) && LookAllows(q.mode, env, turn.at, turn.sleep.seen)
      && FailedAgain(q, n, env[turn.at].fetch)
  {
    PauseLooks(q.mode, env, t + 2);
  }

  lemma EndKeepsPromise(q: Query, env: seq<Obs>, cached: Option<int>, t: nat, n: nat)
    requires WellFormed(env) && t <= |env| && TurnOf(q, env, cached, t, n).Ends?
    ensures var turn := TurnOf(q, env, cached, t, n);
      Promise(q, env, cached, t, n, Run(turn.state, turn.made, [], turn.read))
  {
    var turn := TurnOf(q, env, cached, t, n);
    var run := Run(turn.state, turn.made, [], turn.read);
    if t + 2 <= |env| { PauseLooks(q.mode, env, t + 2); }
    assert InScriptOrder(env, t, run) && StopsWhenCancelled(env, run);
    assert EndsRight(q, env, cached, t, n, run);
  }

  lemma BeforeKeepsOrder(env: seq<Obs>, t: nat, turn: Turn, rest: Run)
    requires turn.Again? && turn.at == t + 1 < turn.sleep.seen < turn.next <= |env| && turn.next <= turn.sleep.seen + 2
    requires InScriptOrder(env, turn.next, rest)
    ensures InScriptOrder(env, t, Before(turn.at, turn.sleep, rest))
  {
    var run := Before(turn.at, turn.sleep, rest);
    forall j | 0 < j < |run.at|
      ensures turn.next < run.at[j] < run.read
    {
      assert run.at[j] == rest.at[j - 1];
    }
    forall j | 0 < j < |run.sleeps|
      ensures run.at[j] < run.sleeps[j].seen < run.read
    {
      assert run.at[j] == rest.at[j - 1] && run.sleeps[j] == rest.sleeps[j - 1];
    }
    forall i, j | 0 < i < |run.sleeps| && i < j < |run.at|
      ensures run.sleeps[i].seen < run.at[j] && (j == i + 1 ==> run.at[j] <= run.sleeps[i].seen + 3)
    {
      assert run.at[j] == rest.at[j - 1] && run.sleeps[i] == rest.sleeps[i - 1];
    }
    assert |run.at| > 1 ==> run.at[1] == rest.at[0] == turn.next + 1;
  }

  lemma BeforeKeepsSleeps(q: Query, env: seq<Obs>, n: nat, turn: Turn, rest: Run)
    requires turn.Again? && turn.sleep.delay == DelayFor(q.retry, n)
    requires LookAllows(q.mode, env, turn.at, turn.sleep.seen) && SleepsAllowed(q, env, n + 1, rest)
    ensures SleepsAllowed(q, env, n, Before(turn.at, turn.sleep, rest))
  {
    var run := Before(turn.at, turn.sleep, rest);
    forall j | 0 < j < |run.sleeps|
      ensures run.sleeps[j].delay == DelayFor(q.retry, n + j)
      ensures LookAllows(q.mode, env, run.at[j], run.sleeps[j].seen)
    {
      assert run.sleeps[j] == rest.sleeps[j - 1] && run.at[j] == rest.at[j - 1];
    }
  }

  lemma BeforeKeepsEnd(q: Query, env: seq<Obs>, cached: Option<int>, t: nat, n: nat, turn: Turn, rest: Run)
    requires turn.Again? && t < turn.next <= turn.sleep.seen + 2 && InScriptOrder(env, turn.next, rest)
    requires EndsRight(q, env, cached, turn.next, n + 1, rest)
    ensures EndsRight(q, env, cached, t, n, Before(turn.at, turn.sleep, rest))
  {
    var run := Before(turn.at, turn.sleep, rest);
    assert forall j :: 0 < j < |run.at| ==> run.at[j] == rest.at[j - 1];
    assert |rest.sleeps| > 0 ==> run.sleeps[|run.sleeps| - 1] == rest.sleeps[|rest.sleeps| - 1];
  }

  lemma BeforeKeepsBound(q: Query, env: seq<Obs>, n: nat, turn: Turn, rest: Run)
    requires turn.Again? && turn.at < |env|
    requires FailedAgain(q, n, env[turn.at].fetch)
    requires RetriesBounded(q, env, n + 1, rest)
    ensures RetriesBounded(q, env, n, Before(turn.at, turn.sleep, rest))
  {
    var run := Before(turn.at, turn.sleep, rest);
    forall j | 0 < j < |run.sleeps| && j < |run.at| && run.at[j] < |env|
      ensures FailedAgain(q, n + j, env[run.at[j]].fetch)
    {
      assert run.at[j] == rest.at[j - 1];
    }
  }

  lemma BeforeStopsWhenCancelled(env: seq<Obs>, t: nat, turn: Turn, rest: Run)
    requires turn.Again? && turn.at == t + 1 < |env| && !env[t].cancelled && StopsWhenCancelled(env, rest)
    ensures StopsWhenCancelled(env, Before(turn.at, turn.sleep, rest))
  {
    var run := Before(turn.at, turn.sleep, rest);
    assert forall j :: 0 < j < |run.at| ==> run.at[j] == rest.at[j - 1];
  }

  /** A turn in front of a run that keeps its promise. */
  lemma TurnKeepsPromise(q: Query, env: seq<Obs>, cached: Option<int>, t: nat, n: nat, turn: Turn, rest: Run)
    requires WellFormed(env) && turn == TurnOf(q, env, cached, t, n) && turn.Again?
    requires Promise(q, env, cached, turn.next, n + 1, rest)
    ensures Promise(q, env, cached, t, n, Before(turn.at, turn.sleep, rest))
  {
    AgainFacts(q, env, cached, t, n);
    BeforeKeepsOrder(env, t, turn, rest);
    BeforeKeepsSleeps(q, env, n, turn, rest);
    BeforeStopsWhenCancelled(env, t, turn, rest);
    BeforeKeepsBound(q, env, n, turn, rest);
    BeforeKeepsEnd(q, env, cached, t, n, turn, rest);
  }

  /** Every run of the loop keeps its promise. */
  lemma {:induction false} LoopKeepsPromise(q: Query, env: seq<Obs>, cached: Option<int>, t: nat, n: nat)
    requires WellFormed(env) && t <= |env|
    ensures Promise(q, env, cached, t, n, FetchFrom(q, env, cached, t, n))
    decreases |env| - t
  {
    var turn := TurnOf(q, env, cached, t, n);
    if turn.Ends? {
      EndKeepsPromise(q, env, cached, t, n);
    } else {
      LoopKeepsPromise(q, env, cached, turn.next, n + 1);
      TurnKeepsPromise(q, env, cached, t, n, turn, FetchFrom(q, env, cached, turn.next, n + 1));
    }
  }

  /** Every run keeps its promise. One that may not start fetches nothing and
      says why: a restore in progress, a fetch in flight, or no connection in the
      mode that needs one. */
  lemma RunKeepsPromise(q: Query, restoring: bool, dedup: bool, env: seq<Obs>, cached: Option<int>)
    requires WellFormed(env)
    ensures var run := RunOf(q, restoring, dedup, env, cached);
      if restoring then run == Run(Idle, [], [], 0)
      else if dedup then run == Run(Deduplicated, [], [], 0)
      else if env == [] then run == Run(Suspended, [], [], 0)
      else if q.mode.Online? && !env[0].online then run == Run(Error(Paused, cached), [], [], 1)
      else Promise(q, env, cached, 1, 0, run)
  {
    if env != [] { LoopKeepsPromise(q, env, cached, 1, 0); }
  }

  /** So once a look was cancelled, no attempt comes after it. */
  lemma NoAttemptAfterCancel(q: Query, env: seq<Obs>, cached: Option<int>, i: nat, j: nat)
    requires WellFormed(env) && env != [] && i < |env| && env[i].cancelled
    requires j < |FetchFrom(q, env, cached, 1, 0).at|
    ensures FetchFrom(q, env, cached, 1, 0).at[j] <= i
  {
    LoopKeepsPromise(q, env, cached, 1, 0);
  }

  // ----- a run does not look ahead -----

  lemma {:induction false} WaitingLonger(mode: NetworkMode, env: seq<Obs>, more: seq<Obs>, t: nat)
    ensures var w := Waiting(mode, env, t); w.Returned? ==> Waiting(mode, env + more, t) == w
    decreases |env| - t
  {
    if t < |env| {
      assert (env + more)[t] == env[t];
      WaitingLonger(mode, env, more, t + 1);
    }
  }

  lemma PauseLonger(mode: NetworkMode, env: seq<Obs>, more: seq<Obs>, t: nat)
    ensures var p := PauseFrom(mode, env, t); !p.Starved? ==> PauseFrom(mode, env + more, t) == p
  {
    WaitingLonger(mode, env, more, t + 1);
  }

  lemma TurnLonger(q: Query, env: seq<Obs>, more: seq<Obs>, cached: Option<int>, t: nat, n: nat)
    ensures var turn := TurnOf(q, env, cached, t, n);
      !(turn.Ends? && turn.state.Suspended?) ==> TurnOf(q, env + more, cached, t, n) == turn
    ensures var turn := TurnOf(q, env, cached, t, n);
      turn.Ends? && turn.made != [] ==>
        var longer := TurnOf(q, env + more, cached, t, n);
        (if longer.Ends? then longer.made else [longer.at]) == turn.made
  {
    PauseLonger(q.mode, env, more, t + 2);
  }

  /** A run that has ended is not changed by anything later in its script, and a
      suspended one has done the first part of what it will do. */
  lemma {:induction false} LongerScript(
      q: Query, env: seq<Obs>, more: seq<Obs>, cached: Option<int>, t: nat, n: nat)
    ensures var run, longer := FetchFrom(q, env, cached, t, n), FetchFrom(q, env + more, cached, t, n);
      && (!run.state.Suspended? ==> longer == run)
      && run.at <= longer.at && run.sleeps <= longer.sleeps
    decreases |env| - t
  {
    TurnLonger(q, env, more, cached, t, n);
    var turn := TurnOf(q, env, cached, t, n);
    if turn.Again? { LongerScript(q, env, more, cached, turn.next, n + 1); }
  }

  // ----- total backoff -----

  ghost function Slept(sleeps: seq<Sleep>): nat {
    if sleeps == [] then 0 else Slept(sleeps[..|sleeps| - 1]) + sleeps[|sleeps| - 1].delay
  }

  lemma {:induction false} SleptMatchesCurve(q: Query, sleeps: seq<Sleep>)
    requires forall j :: 0 <= j < |sleeps| ==> sleeps[j].delay == DelayFor(q.retry, j)
    ensures Slept(sleeps) == TotalSleep(q.retry, |sleeps|)
  {
    if sleeps != [] { SleptMatchesCurve(q, sleeps[..|sleeps| - 1]); }
  }

  /** With the default cap a run sleeps at most 30 s per allowed retry. */
  lemma RunSleepBound(q: Query, restoring: bool, dedup: bool, env: seq<Obs>, cached: Option<int>)
    requires WellFormed(env) && q.retry.maxDelay == MAX_RETRY_DELAY
    ensures Slept(RunOf(q, restoring, dedup, env, cached).sleeps) <= q.retry.maxRetries * MAX_RETRY_DELAY
  {
    var run := RunOf(q, restoring, dedup, env, cached);
    RunKeepsPromise(q, restoring, dedup, env, cached);
    if run.sleeps != [] {
      var last := |run.sleeps| - 1;
      assert FailedAgain(q, last, env[run.at[last]].fetch);
      SleptMatchesCurve(q, run.sleeps);
      TotalSleepBound(q.retry, |run.sleeps|);
      MulMonotone(MAX_RETRY_DELAY, |run.sleeps|, q.retry.maxRetries);
    }
  }
}
