/**
  What an execution comes to, read off the steps of the run alone: the replies
  its mutate function gave, the hook it passed the gate with, and the events the
  cache sent on the way.
 */
module ScopedOutcomes {
  import opened Wrappers
  import opened MutationCaches
  import opened ScopedMutations
  import opened ScopedEntries
  import MutationLifecycle

  // ----- outcomes -----

  /** The replies that execution `i` got, in order. */
  function Replies(steps: seq<Step>, i: nat): seq<Option<string>> {
    if steps == [] then []
    else (if steps[0].Reply? && steps[0].i == i then [steps[0].failure] else []) + Replies(steps[1..], i)
  }

  /** With this step execution `i` goes past its gate: unscoped, or its scope not
      marked as running. */
  predicate Passes(s: Sys, step: Step, i: nat)
    requires Enabled(s, step)
  {
    && (step.Submit? || step.Wake?) && step.i == i
    && (s.execs[i].scope.Some? ==> !s.cache.Running(s.execs[i].scope.value))
  }

  /** In the course of the run execution `i` goes past its gate and its
      `on_mutate` does `hook`. */
  ghost predicate Hooked(s: Sys, steps: seq<Step>, i: nat, hook: Hook)
    decreases |steps|
  {
    && steps != [] && Enabled(s, steps[0])
    && ((Passes(s, steps[0], i) && steps[0].hook == hook) || Hooked(Apply(s, steps[0]), steps[1..], i, hook))
  }

  /** What a step means to one execution. */
  datatype Act = Replied(failure: Option<string>) | Passed(hook: Hook) | Other

  ghost function ActOf(s: Sys, step: Step, i: nat): Act
    requires Enabled(s, step)
  {
    if step.Reply? && step.i == i then Replied(step.failure)
    else if Passes(s, step, i) then Passed(step.hook)
    else Other
  }

  /** What it does to it. */
  ghost predicate Moved(e: Exec, f: Exec, act: Act) {
    && f.retry == e.retry && f.used <= f.retry
    && match act
       case Replied(failure) =>
         && !e.Done() && f.rollback == e.rollback
         && (if failure.Some? && e.used < e.retry then f.phase == Sleeping && f.used == e.used + 1
             else f.phase == Settled(failure))
       case Passed(hook) =>
         && !e.Done() && f.used == e.used && f.rollback == (e.rollback || hook.HookOk?)
         && f.phase == (if hook.HookErr? then Settled(Some(hook.error)) else Calling)
       case Other =>
         && f.used == e.used && f.rollback == e.rollback
         && (e.Done() ==> f.phase == e.phase) && (f.phase.Settled? ==> f.phase == e.phase)
  }

  lemma StepMoves(s: Sys, step: Step, i: nat)
    requires Enabled(s, step) && i < |s.execs| && s.execs[i].used <= s.execs[i].retry
    ensures |Apply(s, step).execs| == |s.execs| && Moved(s.execs[i], Apply(s, step).execs[i], ActOf(s, step, i))
  {
  }

  ghost function Acts(s: Sys, steps: seq<Step>, i: nat): seq<Act>
    decreases |steps|
  {
    if steps == [] || !Enabled(s, steps[0]) then []
    else [ActOf(s, steps[0], i)] + Acts(Apply(s, steps[0]), steps[1..], i)
  }

  ghost function Answers(acts: seq<Act>): seq<Option<string>> {
    if acts == [] then []
    else (if acts[0].Replied? then [acts[0].failure] else []) + Answers(acts[1..])
  }

  /** From `e` to `f` with these replies; `hookFailed` if the hook failed with
      `error` on the way and `hookGave` if it gave a rollback. */
  ghost predicate CameTo(
      e: Exec, f: Exec, rs: seq<Option<string>>, hookFailed: bool, hookGave: bool, error: string)
    requires e.used <= e.retry
  {
    var left := e.retry - e.used;
    && f.retry == e.retry && f.used <= f.retry && (e.Done() ==> f.phase == e.phase)
    && |rs| <= left + 1 && (e.Done() ==> rs == [])
    && (forall k :: 0 <= k < |rs| - 1 ==> rs[k].Some?)
    && (f.phase == Settled(None) <==> e.phase == Settled(None) || None in rs)
    && (f.phase == Settled(Some(error)) <==>
        e.phase == Settled(Some(error)) || hookFailed || (|rs| == left + 1 && rs[left] == Some(error)))
    && (f.rollback <==> e.rollback || hookGave)
    && (f.Holds() ==> f.used == e.used + |rs|)
  }

  lemma AnswersCons(act: Act, acts: seq<Act>)
    ensures Answers([act] + acts) == (if act.Replied? then [act.failure] + Answers(acts) else Answers(acts))
  {
    assert ([act] + acts)[1..] == acts;
  }

  lemma ReplyThenCome(
      e: Exec, e1: Exec, f: Exec, failure: Option<string>, rs: seq<Option<string>>, hookFailed: bool, hookGave: bool, error: string)
    requires e.used <= e.retry && Moved(e, e1, Replied(failure)) && CameTo(e1, f, rs, hookFailed, hookGave, error)
    ensures CameTo(e, f, [failure] + rs, hookFailed, hookGave, error)
  {
    var all := [failure] + rs;
    assert forall k :: 0 < k < |all| ==> all[k] == rs[k - 1];
    if e1.phase.Settled? {
      assert rs == [] && all == [failure];
    } else {
      var left := e.retry - e.used;
      assert |all| == left + 1 ==> all[left] == rs[left - 1];
    }
  }

  lemma PassThenCome(
      e: Exec, e1: Exec, f: Exec, hook: Hook, rs: seq<Option<string>>, hookFailed: bool, hookGave: bool, error: string)
    requires e.used <= e.retry && Moved(e, e1, Passed(hook)) && CameTo(e1, f, rs, hookFailed, hookGave, error)
    ensures CameTo(e, f, rs, hookFailed || hook == HookErr(error), hookGave || hook == HookOk, error)
  {
  }

  lemma OtherThenCome(
      e: Exec, e1: Exec, f: Exec, rs: seq<Option<string>>, hookFailed: bool, hookGave: bool, error: string)
    requires e.used <= e.retry && Moved(e, e1, Other) && CameTo(e1, f, rs, hookFailed, hookGave, error)
    ensures CameTo(e, f, rs, hookFailed, hookGave, error)
  {
  }

  lemma InCons(x: Act, act: Act, acts: seq<Act>)
    ensures x in [act] + acts <==> x == act || x in acts
  {
  }

  lemma MoveThenCome(e: Exec, e1: Exec, f: Exec, act: Act, acts: seq<Act>, error: string)
    requires e.used <= e.retry && Moved(e, e1, act)
    requires CameTo(e1, f, Answers(acts), Passed(HookErr(error)) in acts, Passed(HookOk) in acts, error)
    ensures var all := [act] + acts;
      CameTo(e, f, Answers(all), Passed(HookErr(error)) in all, Passed(HookOk) in all, error)
  {
    var rs, failed, gave := Answers(acts), Passed(HookErr(error)) in acts, Passed(HookOk) in acts;
    AnswersCons(act, acts);
    InCons(Passed(HookErr(error)), act, acts);
    InCons(Passed(HookOk), act, acts);
    match act
    case Replied(failure) => ReplyThenCome(e, e1, f, failure, rs, failed, gave, error);
    case Passed(hook) => PassThenCome(e, e1, f, hook, rs, failed, gave, error);
    case Other => OtherThenCome(e, e1, f, rs, failed, gave, error);
  }

  lemma {:induction false} RunOutcome(s: Sys, steps: seq<Step>, i: nat, error: string)
    requires ValidRun(s, steps) && i < |s.execs| && s.execs[i].used <= s.execs[i].retry
    ensures i < |After(s, steps).execs|
    ensures var acts := Acts(s, steps, i);
      CameTo(s.execs[i], After(s, steps).execs[i], Answers(acts), Passed(HookErr(error)) in acts, Passed(HookOk) in acts, error)
    decreases |steps|
  {
    if steps != [] {
      var t := Apply(s, steps[0]);
      StepMoves(s, steps[0], i);
      RunOutcome(t, steps[1..], i, error);
      MoveThenCome(s.execs[i], t.execs[i], After(t, steps[1..]).execs[i], ActOf(s, steps[0], i), Acts(t, steps[1..], i), error);
    }
  }

  /** The acts are what the steps say. */
  lemma {:induction false} ActsFollowSteps(s: Sys, steps: seq<Step>, i: nat, hook: Hook)
    requires ValidRun(s, steps)
    ensures Answers(Acts(s, steps, i)) == Replies(steps, i)
    ensures Passed(hook) in Acts(s, steps, i) <==> Hooked(s, steps, i, hook)
    decreases |steps|
  {
    if steps != [] {
      var t := Apply(s, steps[0]);
      ActsFollowSteps(t, steps[1..], i, hook);
      AnswersCons(ActOf(s, steps[0], i), Acts(t, steps[1..], i));
    }
  }

  /** In every run, cleared caches and dropped executions included: an execution
      has succeeded exactly when its mutate function replied with success, and
      failed with an error exactly when its hook failed with it or its reply
      number `retry + 1` did; every reply but the last is a failure. */
  lemma SettlesAsReplied(s: Sys, steps: seq<Step>, i: nat, error: string)
    requires Start(s) && ValidRun(s, steps) && i < |s.execs|
    ensures var rs := Replies(steps, i);
      i < |After(s, steps).execs| && s.execs[i].retry == After(s, steps).execs[i].retry &&
      var e := After(s, steps).execs[i];
      && (e.phase == Settled(None) <==> Reply(i, None) in steps)
      && (e.phase == Settled(Some(error)) <==>
          Hooked(s, steps, i, HookErr(error)) || (|rs| == e.retry + 1 && rs[e.retry] == Some(error)))
      && |rs| <= e.retry + 1 && (forall k :: 0 <= k < |rs| - 1 ==> rs[k].Some?)
      && (e.rollback <==> Hooked(s, steps, i, HookOk))
      && (e.Holds() ==> e.used == |rs|)
  {
    RunOutcome(s, steps, i, error);
    ActsFollowSteps(s, steps, i, HookOk);
    ActsFollowSteps(s, steps, i, HookErr(error));
    RepliedIff(steps, i);
  }

  lemma {:induction false} RepliedIff(steps: seq<Step>, i: nat)
    ensures Reply(i, None) in steps <==> None in Replies(steps, i)
  {
    if steps != [] {
      RepliedIff(steps[1..], i);
      assert steps == [steps[0]] + steps[1..];
    }
  }

  /** And the cached entry, if any, shows it: success without an error, the very
      error of the failure, a context exactly when the hook gave one. */
  lemma EntryShowsOutcome(s: Sys, steps: seq<Step>, i: nat, error: string)
    requires Start(s) && ValidRun(s, steps) && i < |s.execs|
    requires var t := After(s, steps); i < |t.execs| && t.execs[i].Submitted() && Get(t.cache, t.execs[i].id).Some?
    ensures var t := After(s, steps); var entry := Get(t.cache, t.execs[i].id).value;
      && (entry.status.Success? <==> Reply(i, None) in steps)
      && (entry.status.Error? && entry.error == Some(error) <==>
          || Hooked(s, steps, i, HookErr(error))
          || (|Replies(steps, i)| == s.execs[i].retry + 1 && Replies(steps, i)[s.execs[i].retry] == Some(error)))
      && entry.hasResult == entry.status.Success? && (entry.error.Some? <==> entry.status.Error?)
      && (entry.hasContext <==> Hooked(s, steps, i, HookOk))
  {
    var t := After(s, steps);
    EntriesTellTheTruth(s, steps, i);
    assert Agrees(Get(t.cache, t.execs[i].id).value, t.execs[i]);
    SettlesAsReplied(s, steps, i, error);
  }

  /** A failure with budget left leads to a retry sleep, and the sleep to another
      call. */
  lemma FailureWithBudgetRetries(s: Sys, i: nat, error: string)
    requires Enabled(s, Reply(i, Some(error))) && s.execs[i].used < s.execs[i].retry
    ensures var t := Apply(s, Reply(i, Some(error)));
      && t.cache == s.cache && i < |t.execs| && t.execs[i].phase == Sleeping
      && t.execs[i].used == s.execs[i].used + 1
      && Enabled(t, Elapse(i)) && Apply(t, Elapse(i)).execs == s.execs[i := s.execs[i].(used := s.execs[i].used + 1)]
  {
  }

  // ----- the same outcome as one execution on its own -----

  function Failure(o: MutationLifecycle.Outcome): Option<string> {
    if o.Ok? then None else Some(o.error)
  }

  /** Whatever the schedule, an execution whose hook and replies are those of a
      lone execution settles with the lone execution's result. */
  lemma SettlesAsAlone(
      s: Sys, steps: seq<Step>, i: nat, cfg: MutationLifecycle.Config, reply: nat -> MutationLifecycle.Outcome,
      attempts: nat, result: MutationLifecycle.Outcome)
    requires Start(s) && ValidRun(s, steps) && i < |s.execs| && s.execs[i].retry == cfg.retry
    requires MutationLifecycle.Delivers(cfg, reply, attempts, result)
    requires Hooked(s, steps, i, cfg.onMutate)
    requires |Replies(steps, i)| == attempts && forall k :: 0 <= k < attempts ==> Replies(steps, i)[k] == Failure(reply(k))
    ensures i < |After(s, steps).execs| && After(s, steps).execs[i].phase == Settled(Failure(result))
  {
    var rs := Replies(steps, i);
    if result.Ok? {
      assert rs[attempts - 1] == None;
      RepliedIff(steps, i);
      SettlesAsReplied(s, steps, i, "");
    } else {
      assert !cfg.onMutate.HookErr? ==> rs[cfg.retry] == Some(result.error);
      SettlesAsReplied(s, steps, i, result.error);
    }
  }

  // ----- events -----

  /** What a listener who believed these ids cached believes after an event. */
  ghost function Hear(before: set<nat>, e: Event): set<nat> {
    if e.Added? then before + {e.id}
    else if e.Removed? then before - {e.id}
    else if e.Cleared? then {}
    else before
  }

  /** The ids a listener believes cached after these events. */
  ghost function Known(events: seq<Event>): set<nat> {
    if events == [] then {} else Hear(Known(events[..|events| - 1]), events[|events| - 1])
  }

  ghost function CachedIds(es: seq<Entry>): set<nat> {
    set e | e in es :: e.id
  }

  /** The listener is right. */
  ghost predicate Heard(c: CacheState) {
    Known(c.events) == CachedIds(c.entries)
  }

  lemma KnownSnoc(events: seq<Event>, e: Event)
    ensures Known(events + [e]) == Hear(Known(events), e)
  {
    assert (events + [e])[..|events|] == events;
  }

  lemma {:induction false} KnownThroughUpdates(events: seq<Event>, more: seq<Event>)
    requires forall i :: 0 <= i < |more| ==> more[i].Updated?
    ensures Known(events + more) == Known(events)
  {
    if more == [] {
      assert events + more == events;
    } else {
      var n := |more| - 1;
      KnownThroughUpdates(events, more[..n]);
      KnownSnoc(events + more[..n], more[n]);
      assert events + more == events + more[..n] + [more[n]];
    }
  }

  lemma {:induction false} ResumedAreUpdates(es: seq<Entry>)
    ensures forall i :: 0 <= i < |ResumedEvents(es)| ==> ResumedEvents(es)[i].Updated?
  {
    if es != [] { ResumedAreUpdates(es[..|es| - 1]); }
  }

  lemma SameIds(es: seq<Entry>, fs: seq<Entry>)
    requires |es| == |fs| && forall k :: 0 <= k < |es| ==> es[k].id == fs[k].id
    ensures CachedIds(es) == CachedIds(fs)
  {
    forall x: nat
      ensures x in CachedIds(es) <==> x in CachedIds(fs)
    {
      if x in CachedIds(es) {
        var k :| 0 <= k < |es| && es[k].id == x;
        assert fs[k] in fs;
      }
      if x in CachedIds(fs) {
        var k :| 0 <= k < |fs| && fs[k].id == x;
        assert es[k] in es;
      }
    }
  }

  lemma CachedIdsSnoc(es: seq<Entry>, e: Entry)
    ensures CachedIds(es + [e]) == CachedIds(es) + {e.id}
  {
    forall x: nat
      ensures x in CachedIds(es + [e]) <==> x in CachedIds(es) || x == e.id
    {
      assert forall y :: y in es + [e] <==> y in es || y == e;
    }
  }

  /** An added mutation is announced under its fresh id. */
  lemma AddAnnounces(c: CacheState, entry: Entry) returns (added: Entry)
    ensures Add(c, entry).entries == c.entries + [added] && added.id == c.nextId + 1 == Add(c, entry).nextId
    ensures Add(c, entry).events == c.events + [Added(added.id)]
  {
    AddQueuesIffBusy(c, entry, "");
    added := Add(c, entry).entries[|c.entries|];
  }

  lemma AddHeard(c: CacheState, entry: Entry)
    requires Heard(c)
    ensures Heard(Add(c, entry))
  {
    var added := AddAnnounces(c, entry);
    KnownSnoc(c.events, Added(added.id));
    CachedIdsSnoc(c.entries, added);
  }

  lemma UpdateHeard(c: CacheState, id: nat, f: Entry -> Entry)
    requires Heard(c) && forall e: Entry :: f(e).id == e.id
    ensures Heard(Update(c, id, f))
  {
    KnownSnoc(c.events, Updated(id));
    SameIds(c.entries, Update(c, id, f).entries);
  }

  lemma RemoveHeard(c: CacheState, id: nat)
    requires Heard(c) && DistinctIds(c)
    ensures Heard(Remove(c, id))
  {
    KnownSnoc(c.events, Removed(id));
    var i, r := IndexOf(c.entries, id), Remove(c, id);
    forall x: nat
      ensures x in CachedIds(r.entries) <==> x in CachedIds(c.entries) && x != id
    {
      RemoveKeepsOthers(c, id, x);
    }
  }

  lemma RemoveKeepsOthers(c: CacheState, id: nat, x: nat)
    requires DistinctIds(c)
    ensures x in CachedIds(Remove(c, id).entries) <==> x in CachedIds(c.entries) && x != id
  {
    var i, r := IndexOf(c.entries, id), Remove(c, id).entries;
    if i < |c.entries| {
      DropAt(c.entries, i);
      assert r == c.entries[..i] + c.entries[i + 1..];
      if x in CachedIds(c.entries) && x != id {
        var k :| 0 <= k < |c.entries| && c.entries[k].id == x;
        assert r[if k < i then k else k - 1] == c.entries[k];
      }
    }
  }

  lemma ReleaseHeard(c: CacheState, scope: Option<string>)
    requires Heard(c)
    ensures Heard(Release(c, scope))
  {
    if scope.Some? {
      ReleaseAnnounces(c, scope.value);
      ReleaseKeepsEntries(c, scope);
      ResumedIsNoNews(c.events, scope.value);
    }
  }

  lemma ResumedIsNoNews(events: seq<Event>, scope: string)
    ensures Known(events + [ScopeResumed(scope)]) == Known(events) == Known(events + [])
  {
    KnownSnoc(events, ScopeResumed(scope));
    assert events + [] == events;
  }

  lemma ClearHeard(c: CacheState)
    ensures Heard(Clear(c))
  {
    KnownSnoc(c.events + RemovedEvents(c.entries), Cleared);
  }

  lemma ResumeHeard(c: CacheState)
    requires Heard(c)
    ensures Heard(ResumePaused(c))
  {
    ResumedAreUpdates(c.entries);
    KnownThroughUpdates(c.events, ResumedEvents(c.entries));
    SameIds(c.entries, ResumePaused(c).entries);
  }

  lemma BeginHeard(c: CacheState, e: Exec, hook: Hook)
    requires Heard(c)
    ensures Heard(Begin(c, e, hook).0)
  {
    match hook
    case NoHook =>
    case HookOk => UpdateHeard(c, e.id, WithContext);
    case HookErr(error) =>
      UpdateHeard(c, e.id, Failed(error));
      ReleaseHeard(SettleError(c, e.id, error), e.scope);
  }

  lemma GateHeard(c: CacheState, e: Exec, hook: Hook)
    requires (e.scope.Some? ==> e.scope.value in c.release) && Heard(c)
    ensures Heard(Gate(c, e, hook).0)
  {
    match e.scope
    case None => BeginHeard(c, e, hook);
    case Some(sc) =>
      if CanRun(c, sc) {
        UpdateHeard(MarkRunning(c, sc), e.id, Unpaused);
        BeginHeard(Acquire(c, sc, e.id), e, hook);
      }
  }

  lemma ReplyHeard(c: CacheState, e: Exec, failure: Option<string>)
    requires Heard(c)
    ensures Heard(OnReply(c, e, failure).0)
  {
    match failure
    case None =>
      UpdateHeard(c, e.id, Succeeded);
      ReleaseHeard(SettleSuccess(c, e.id), e.scope);
    case Some(error) =>
      UpdateHeard(c, e.id, Failed(error));
      ReleaseHeard(SettleError(c, e.id, error), e.scope);
  }

  lemma EnterHeard(c: CacheState, scope: Option<string>)
    requires Heard(c)
    ensures Heard(Enter(c, scope))
  {
    AddHeard(c, FreshEntry(scope));
    SubscribeIsSilent(Add(c, FreshEntry(scope)), scope);
  }

  lemma SubscribeIsSilent(c: CacheState, scope: Option<string>)
    ensures scope.Some? ==> SubscribeScope(c, scope.value).events == c.events
    ensures scope.Some? ==> SubscribeScope(c, scope.value).entries == c.entries
  {
  }

  lemma SubmitCache(s: Sys, i: nat, hook: Hook, e: Exec)
    requires Enabled(s, Submit(i, hook)) && e == s.execs[i].(id := s.cache.nextId + 1)
    ensures Apply(s, Submit(i, hook)).cache == Gate(Enter(s.cache, e.scope), e, hook).0
  {
  }

  lemma SubmitHeard(s: Sys, i: nat, hook: Hook)
    requires Heard(s.cache) && Enabled(s, Submit(i, hook))
    ensures Heard(Apply(s, Submit(i, hook)).cache)
  {
    var e := s.execs[i].(id := s.cache.nextId + 1);
    EnterHeard(s.cache, e.scope);
    assert Heard(Gate(Enter(s.cache, e.scope), e, hook).0) by { GateHeard(Enter(s.cache, e.scope), e, hook); }
    SubmitCache(s, i, hook, e);
  }

  lemma StepHeard(s: Sys, step: Step)
    requires EntriesInv(s) && Heard(s.cache) && Enabled(s, step)
    ensures Heard(Apply(s, step).cache)
  {
    match step
    case Submit(i, hook) => SubmitHeard(s, i, hook);
    case Wake(i, hook) => GateHeard(s.cache, s.execs[i], hook);
    case Reply(i, failure) => ReplyHeard(s.cache, s.execs[i], failure);
    case Elapse(i) =>
    case RemoveEntry(id) => RemoveHeard(s.cache, id);
    case ResumeAll => ResumeHeard(s.cache);
    case ClearCache => ClearHeard(s.cache);
    case DropExec(i) =>
  }

  lemma {:induction false} RunHeard(s: Sys, steps: seq<Step>)
    requires EntriesInv(s) && Heard(s.cache) && ValidRun(s, steps)
    ensures Heard(After(s, steps).cache)
    decreases |steps|
  {
    if steps != [] {
      StepHeard(s, steps[0]);
      StepKeepsEntries(s, steps[0]);
      RunHeard(Apply(s, steps[0]), steps[1..]);
    }
  }

  /** In every run, whoever follows the cache's events knows exactly which
      mutations it holds. */
  lemma EventsTellWhatIsCached(s: Sys, steps: seq<Step>)
    requires Start(s) && ValidRun(s, steps)
    ensures Known(After(s, steps).cache.events) == CachedIds(After(s, steps).cache.entries)
  {
    RunHeard(s, steps);
  }

  /** A release announces its scope exactly when somebody was queued. */
  lemma ReleaseAnnounces(c: CacheState, scope: string)
    ensures Release(c, Some(scope)).events == c.events + (if c.Queue(scope) == [] then [] else [ScopeResumed(scope)])
  {
    assert c.events + [] == c.events;
  }

  /** A settled or otherwise changed entry is announced, and only it. */
  lemma UpdateAnnounces(c: CacheState, id: nat, f: Entry -> Entry)
    ensures var r := Update(c, id, f); var i := IndexOf(c.entries, id);
      && |r.entries| == |c.entries|
      && (forall k :: 0 <= k < |c.entries| ==> r.entries[k] == if k == i then f(c.entries[k]) else c.entries[k])
      && r.events == c.events + (if i < |c.entries| then [Updated(id)] else [])
  {
    assert c.events + [] == c.events;
  }

  /** A removal is announced, found or not. */
  lemma RemoveAnnounces(c: CacheState, id: nat)
    ensures Remove(c, id).events == c.events + [Removed(id)]
  {
  }

  /** Clearing announces every entry as removed, in order, and then itself. */
  lemma ClearAnnounces(c: CacheState, i: nat)
    requires i < |c.entries|
    ensures var r, n := Clear(c).events, |c.events|;
      && |r| == n + |c.entries| + 1 && c.events <= r
      && r[n + i] == Removed(c.entries[i].id) && r[|r| - 1] == Cleared
  {
  }

  /** Resuming announces exactly the entries that were paused. */
  lemma ResumingAnnounces(c: CacheState, id: nat)
    ensures var r := ResumePaused(c).events;
      && c.events <= r
      && (Updated(id) in r[|c.events|..] <==>
          exists k :: 0 <= k < |c.entries| && c.entries[k].isPaused && c.entries[k].id == id)
  {
    ResumeAnnounces(c.entries, id);
    assert ResumePaused(c).events[|c.events|..] == ResumedEvents(c.entries);
  }
}
