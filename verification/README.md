# rs-query, modelled and proved in Dafny

rs-query keeps query results in a shared cache, runs mutations against it and
moves snapshots between clients. This project models the parts of it whose
behaviour cannot be read off one function body and proves what they promise
over every input, every schedule and every reachable state.

| file | models | main theorems |
|---|---|---|
| `MutationCache.dfy` | the mutation cache and its scope table | each in-place method against its function |
| `ScopedMutations.dfy` | the scope scheduler, over any number of executions | `MutualExclusion`, `QueueIsCovered`, `SchedulesAreFinite`, `StuckMeansSettled` |
| `MutationSteps.dfy` | the same steps carried out in place on the cache | `TakeStep`, `TakeStepSafely` |
| `ScopedEntries.dfy` | what cache entries show while the scheduler runs | `EntriesTellTheTruth` |
| `ScopedOutcomes.dfy` | what executions come to, and the events sent | `SettlesAsReplied`, `EventsTellWhatIsCached` |
| `ScopedLimits.dfy` | clearing under a holder and the order of waiters | `ClearNeverOverlapsIff`, `NextHolderIsForcedIff` |
| `ScopedDrops.dfy` | dropped executions | `NeverLeaksIff`, `DropLetsOthersFinishIff`, `DroppedHolderBlocksItsScope` |
| `ScopeLocks.dfy` | the scope gate one lock acquisition at a time | `StepKeepsExclusionIff` |
| `MutationLifecycle.dfy` | one execution: retries, rollback, callbacks | `ExactlyOnce`, `InDocumentedOrder` |
| `Bus.dfy` | the bounded broadcast bus | `RefinesLog`, `PollAnswers`, `ParkedIff`, `OpenIff` |
| `KeyCodec.dfy` | query keys and their `::` codec | `RoundTripIff`, `PrefixStaysInBranchIff`, `FilterSeesExtensionsIff` |
| `QueryCache.dfy` | the query cache and its two invalidation paths | `PrefixSelectionExact`, `FilterSelectsIff` |
| `Dehydration.dfy` | snapshots of the cache | `SnapshotsEqualIff`, `StampsWithinPass` |
| `Hydration.dfy` | snapshots written back | `FreshnessBound`, `OrderDoesNotMatter`, `RoundTrip` |
| `Broadcast.dfy` | any number of clients exchanging snapshots | `NoInventedValues`, `RunMovesForward`, `OwnSnapshotIsNoOpIff` |
| `Backoff.dfy` | retry delays with their saturating arithmetic | `BackoffIsIdealIff`, `FastPathAgreesIff` |
| `QueryExecutor.dfy` | the query run | `Client.Execute`, `RunKeepsPromise`, `LongerScript` |
| `InfiniteWindow.dfy` | the page loop of infinite queries | `ServedNextIsKept`, `RunStaysContiguous` |
| `QueriesObserver.dfy` | the multi-query observer | `ResultsBelongToTheirSpecs`, `CompletionShowsIff` |
| `NotifyManager.dfy` | re-entrant notification batching | `RunsEveryCallbackOnce`, `RunsInSubmissionOrderIff` |

Objects the source changes in place are classes whose methods are proved
against functions on the object's value; protocols are transition systems over
those functions. Clocks, fetch outcomes, connectivity, hooks and replies are
arbitrary inputs.

Where the code falls short of what its documentation says, the model follows
the code and states exactly when the promise holds:

- `MutationCache::clear` forgets running flags. Executions of a scope can
  overlap afterwards exactly when a scope held at that moment has a newcomer or
  a waiter with an unseen version (`ClearNeverOverlapsIff`).
- A dropped execution future runs no release code. It never breaks exclusion
  (`DropsNeverOverlap`); it strands others exactly when it held a scope with
  another unfinished execution (`DropLetsOthersFinishIff`); a dropped waiter
  leaks the scope's entry unless the queue had spare room
  (`DroppedWaiterNeverLeaksIff`).
- The scope queue does not decide who runs next: a waiter is bound to be next
  exactly when it has no rival (`NextHolderIsForcedIff`).
- `can_run` and `mark_running` take the lock separately; exclusion at that
  granularity holds exactly while no check comes between another execution's
  check and mark (`StepKeepsExclusionIff`).
- `Receiver::clone` can close a live channel (`CloneMayCloseLiveChannel`); a
  channel is open exactly when handles outnumbered clones throughout
  (`OpenIff`).
- A client re-applying its own broadcast snapshot is documented as a no-op
  (src/broadcast.rs:160-164). It is one only within the same instant and for
  whole-millisecond ages (`OwnSnapshotIsNoOpIff`).
- `invalidate_queries` always reaches string-prefix siblings
  (`PrefixAlwaysOverreaches`), leaves the pattern's branch exactly for patterns
  that are not clean or end in `:` (`PrefixStaysInBranchIff`), and the filter
  path misses keys below just those (`FilterSeesExtensionsIff`).
- `set_specs` promises that kept specs keep their completion slot, yet an
  execution's completion shows exactly when the specs were not replaced since it
  started (`CompletionShowsIff`, `SameSpecsLoseCompletion`).
- Callbacks run in submission order exactly when, of those a batch drains, only
  the last submits anything (`RunsInSubmissionOrderIff`).
- `dehydrate_state` sorts for stable snapshots. Their entries and order are
  stable; their fetch times are so exactly when the clock readings of the walk
  stamp every entry alike (`SnapshotsEqualIff`, `WalkingOrderShows`).
- A payload whose age reaches back to the clock's origin only during the pass
  restores differently depending on its place (`TimesWithinPassIff`).
- An exact key filter selects nothing for a key whose segments do not survive the
  codec (`ExactSelectsIff`).
- The retry fast path ignores a custom `max_delay` (`FastPathAgreesIff`).
- A `max_pages` of zero empties the window (`ZeroPagesEmptiesWindow`).
- Of an age, exactly what the wall clock's reading can hold survives
  (`CapturedAge`); at the epoch every age is lost (`EarlyWallClockForgetsAge`).
- src/mutation_cache.rs:11-12 says that cache-level callbacks come before the
  option callbacks; the code, and src/mutation.rs:308-315, put them after.

## Model

| member | source | states |
|---|---|---|
| `ScopedMutations.MutualExclusion` | src/mutation.rs:379-425 | in every run from an empty cache that neither clears it under a holder nor drops a holder, whatever barging, removal, retry, hook failure or dropped waiter happens, a scope's running flag is set exactly when an execution is between acquire and release, and no two executions of one scope overlap |
| `ScopedMutations.QueueIsCovered` | src/mutation_cache.rs:444-507 | in every such run the scope queue is never longer than the parked executions, strictly shorter while the scope is idle with waiters, and the scope's entry is gone once all its executions are over, provided its waiters were dropped only with spare room in the queue |
| `ScopedMutations.StepMeasure` | src/mutation.rs:385-441 | every step of an execution lowers (remaining work, waiters with unseen versions) lexicographically; removal, resume, clear and drops never raise it |
| `ScopedMutations.RunMeasure` | src/mutation.rs:385-441 | the steps taken in a run plus what is left never exceed what was there at its start |
| `ScopedMutations.SchedulesAreFinite` | src/mutation.rs:379-473 | no schedule takes more steps than a budget computed from the executions' retry limits before anything runs |
| `ScopedMutations.Progress` | src/mutation.rs:379-400 | no deadlock and no lost wake-up: while any execution is not over, some execution can step |
| `ScopedMutations.StuckMeansSettled` | src/mutation.rs:379-473 | a schedule that can go no further has settled every execution it did not drop, and left no entry of a scope whose waiters were dropped tidily |
| `ScopedMutations.StartInv` | src/mutation_cache.rs:205-223 | an empty cache with nothing submitted meets the scheduler invariant |
| `ScopedMutations.AcquireKeepsInv` | src/mutation.rs:386-394 | acquiring an idle scope keeps the invariant, for a waiter and for a newcomer that barges in |
| `ScopedMutations.ParkKeepsInv` | src/mutation_cache.rs:255-282 | a newcomer to a busy scope is queued and parks without losing a wake-up |
| `ScopedMutations.SettleKeepsInv` | src/mutation.rs:562-567 | a holder releasing its scope leaves every waiter with an unseen version and the queue covered |
| `ScopedMutations.BeginKeepsInv` | src/mutation.rs:402-425 | all three ends of `on_mutate`, including the failing one that releases, keep the invariant |
| `ScopedMutations.SubmitKeepsInv` | src/mutation.rs:362-400 | submission, scoped or not, keeps the invariant |
| `ScopedMutations.WakeKeepsInv` | src/mutation.rs:385-399 | a woken waiter acquires or parks again, keeping the invariant |
| `ScopedMutations.ReplyKeepsInv` | src/mutation.rs:427-473 | success, retry and final failure all keep the invariant |
| `ScopedMutations.RemoveKeepsInv` | src/mutation_cache.rs:311-337 | removing any entry, queued or not, keeps the invariant |
| `ScopedMutations.ClearKeepsInvIff` | src/mutation_cache.rs:341-359 | after `clear` the system is live if and only if no execution held a scope, and then no scope is left behind |
| `ScopedMutations.DropKeepsLiveIff` | src/mutation.rs:379-400 | after dropping a started execution's future the system is live if and only if it held no scope |
| `ScopedMutations.DropKeepsCoverIff` | src/mutation_cache.rs:262-272 | a drop leaves a scope's queue covered if and only if it was not a waiter's, or the queue was shorter than its bound |
| `ScopedMutations.ReleaseEffect` | src/mutation_cache.rs:444-507 | releasing a held scope frees it, pops one id, bumps its version, drops its entry exactly when nothing was queued, and touches no other scope |
| `ScopedMutations.StepKeepsInv` | src/mutation.rs:379-473 | a live system stays live through a step if and only if the step neither clears under a holder nor drops one; every scope stays covered through all steps but drops |
| `ScopedMutations.RunKeepsLive` | src/mutation.rs:379-473 | every run of such steps stays live |
| `ScopedMutations.RunKeepsCover` | src/mutation_cache.rs:444-507 | and keeps a scope covered while its waiters are dropped only with spare room |
| `MutationSteps.SubmitExecution` | src/mutation.rs:362-425 | the code from the call to the first await, on the shared cache, is the scheduler's submit step |
| `MutationSteps.PassGate` | src/mutation.rs:385-425 | one turn of the gate loop, in place, is the scheduler's gate |
| `MutationSteps.TakeScope` | src/mutation.rs:387-392 | acquiring marks the scope running and shows the entry as no longer paused |
| `MutationSteps.BeginExecution` | src/mutation.rs:402-425 | `on_mutate`, in place, with its error path settling and releasing |
| `MutationSteps.HandleReply` | src/mutation.rs:427-473 | a reply, in place, retries while budget is left, else settles and releases |
| `MutationSteps.ReleaseScope` | src/mutation.rs:562-567 | an acquired scope is finished and its next id popped; one never acquired is left alone |
| `MutationSteps.TakeStep` | src/mutation.rs:346-473 | every step carried out in place is the scheduler's step |
| `MutationSteps.TakeStepSafely` | src/mutation.rs:346-473 | so the cache in place stays live exactly through careful steps and covers what it covered |
| `ScopedEntries.EntriesTellTheTruth` | src/mutation.rs:480-559 | in every run, cleared caches and dropped executions included, an entry still cached shows its execution's phase: the right terminal status exactly once settled, pending before and forever after a drop, paused only while waiting or dropped |
| `ScopedEntries.StepKeepsEntries` | src/mutation.rs:379-473 | every step keeps ids unique and entries in agreement with their executions |
| `ScopedEntries.RunKeepsEntries` | src/mutation.rs:379-473 | so does every run |
| `ScopedOutcomes.SettlesAsReplied` | src/mutation.rs:427-473 | in every run an execution has succeeded if and only if its mutate function replied with success, failed with an error if and only if its hook failed with it or its reply number `retry + 1` did, and holds a rollback if and only if its hook gave one; at most `retry + 1` replies, all but the last failures |
| `ScopedOutcomes.EntryShowsOutcome` | src/mutation.rs:480-559 | and its cached entry shows that: status, result mark, the very error text and the context mark |
| `ScopedOutcomes.FailureWithBudgetRetries` | src/mutation.rs:427-441 | a failure with budget left leads to a retry sleep, and that to another call, with the cache untouched |
| `ScopedOutcomes.SettlesAsAlone` | src/mutation.rs:346-473 | whatever the schedule, an execution with the hook and replies of a lone one settles with the lone one's result |
| `ScopedOutcomes.EventsTellWhatIsCached` | src/mutation_cache.rs:255-359 | in every run, whoever follows the cache's events knows exactly which mutations it holds |
| `ScopedOutcomes.AddAnnounces` | src/mutation_cache.rs:255-282 | an added mutation is announced under its fresh id |
| `ScopedOutcomes.UpdateAnnounces` | src/mutation_cache.rs:287-305 | an update changes the entry with the id and no other, and is announced exactly when there is one |
| `ScopedOutcomes.RemoveAnnounces` | src/mutation_cache.rs:311-337 | a removal is announced, found or not |
| `ScopedOutcomes.ClearAnnounces` | src/mutation_cache.rs:341-359 | clearing announces every entry as removed, in order, and then itself |
| `ScopedOutcomes.ReleaseAnnounces` | src/mutation_cache.rs:494-507 | a release announces its scope exactly when somebody was queued |
| `ScopedOutcomes.ResumingAnnounces` | src/mutation_cache.rs:511-530 | resuming announces exactly the entries that were paused |
| `ScopedLimits.ClearWhileHeldBreaksExclusion` | src/mutation_cache.rs:351-354 | a run in which `clear` under a holder lets two executions of one scope overlap |
| `ScopedLimits.ClearUnderHolderOverlaps` | src/mutation_cache.rs:351-354 | from every live state: once the cache is cleared under a holder, any newcomer to its scope and any waiter with an unseen release runs beside it at its next step |
| `ScopedLimits.NeverOverlapsIff` | src/mutation.rs:385-400 | from any state: no continuation without `clear`, whatever is dropped, ever has two holders of a scope, if and only if every scope has at most one holder and none that the flag does not show can be met by a newcomer or a waiter with an unseen version |
| `ScopedLimits.ClearNeverOverlapsIff` | src/mutation_cache.rs:341-359 | after `clear` no two executions of a scope ever overlap if and only if no scope held at that moment has an execution yet to be submitted or a waiter with an unseen version |
| `ScopedLimits.DropsNeverOverlap` | src/mutation.rs:379-425 | from an empty cache, without `clear`, no two executions of a scope ever overlap, dropped holders included |
| `ScopedLimits.WaitersMayOvertake` | src/mutation_cache.rs:494-507 | a run in which a later submission takes the scope before the one popped from the queue |
| `ScopedLimits.IdleScopeIsOpenToAll` | src/mutation.rs:385-394 | in every live state an idle scope can be taken by each of its waiters and by each newcomer with its next step |
| `ScopedLimits.NextHolderIsForcedIff` | src/mutation.rs:316-318 | a waiter on an idle scope is bound to be the next to pass its gate, over all runs in which nobody passed it before, if and only if no other execution waits for the scope or has yet to be submitted to it |
| `ScopedLimits.NewHolderTook` | src/mutation.rs:385-394 | whoever holds a scope after a step and did not before has just passed its gate |
| `ScopedDrops.NeverLeaksIff` | src/mutation_cache.rs:450-454 | from every live state: no tidy continuation that ends all of a scope's executions leaves its entry behind, if and only if its queue is covered |
| `ScopedDrops.DroppedWaiterNeverLeaksIff` | src/mutation_cache.rs:262-272 | dropping a waiter keeps the system live, and leaves the scope leak-free in all continuations if and only if its queue had spare room |
| `ScopedDrops.DroppedWaiterLeaks` | src/mutation_cache.rs:444-507 | a run in which one dropped waiter leaves the scope's entry behind after everything ended |
| `ScopedDrops.OrphanStep` | src/mutation.rs:385-399 | no step but `clear` frees or takes a scope marked running with no holder, or settles an execution of it |
| `ScopedDrops.DroppedHolderBlocksItsScope` | src/mutation.rs:379-400 | after a holder's future is dropped, in every continuation without `clear`, no execution runs in its scope again and none that had not settled ever settles |
| `ScopedDrops.DropLetsOthersFinishIff` | src/mutation.rs:379-400 | from every live state: after a drop all other executions can still come to their end, without clearing or dropping anything more, if and only if the dropped one did not hold a scope with another unfinished execution |
| `ScopedDrops.StepForgets` | src/mutation_cache.rs:422-507 | a scope whose executions are all over, whatever its entry says, changes nothing about any step |
| `ScopeLocks.StepKeepsExclusionIff` | src/mutation.rs:387-388 | at lock granularity a step keeps exclusion if and only if it is not a `can_run` that comes between another execution's `can_run` and its `mark_running` |
| `ScopeLocks.UndisturbedRunIsExclusive` | src/mutation.rs:387-388 | so every run without such a check is exclusive |
| `ScopeLocks.DisturbedCheckOverlaps` | src/mutation.rs:387-388 | and from every exclusive state such a check lets both executions in |
| `MutationCaches.AddQueuesIffBusy` | src/mutation_cache.rs:255-282 | an added mutation is paused and queued last exactly when its scope is running; no other scope is touched |
| `MutationCaches.RemoveSplices` | src/mutation_cache.rs:311-337 | removal takes out one entry and its id from its own scope's queue only |
| `MutationCaches.RemoveUndoesAdd` | src/mutation_cache.rs:255-337 | removing the entry just added restores entries, queues and running flags |
| `MutationCaches.ResumePausedIsIdempotent` | src/mutation_cache.rs:511-530 | resuming unpauses every entry, changes nothing else of it, and a second call finds nothing to do |
| `MutationCaches.MutationCache.AddEntry` | src/mutation_cache.rs:255-282 | the whole new cache and the fresh id |
| `MutationCaches.MutationCache.UpdateEntry` | src/mutation_cache.rs:287-305 | only the first entry with the id changes, and an event is sent only when there is one |
| `MutationCaches.MutationCache.RemoveEntry` | src/mutation_cache.rs:311-337 | the whole new cache; the event is sent even for an absent id |
| `MutationCaches.MutationCache.ClearAll` | src/mutation_cache.rs:341-359 | entries and scopes go, release versions and ids stay, one removal event per entry and then the clear event |
| `MutationCaches.MutationCache.CanRunScope` | src/mutation_cache.rs:422-429 | true exactly when the scope is not running |
| `MutationCaches.MutationCache.MarkScopeRunning` | src/mutation_cache.rs:432-439 | the scope is running, its queue kept |
| `MutationCaches.MutationCache.MarkScopeFinished` | src/mutation_cache.rs:444-458 | the scope is idle, dropped when its queue is empty, and its watchers notified |
| `MutationCaches.MutationCache.Subscribe` | src/mutation_cache.rs:463-474 | a fresh watcher has seen the current version |
| `MutationCaches.MutationCache.Notify` | src/mutation_cache.rs:476-488 | the version moves on for scopes that were ever subscribed to |
| `MutationCaches.MutationCache.RunNextQueued` | src/mutation_cache.rs:494-507 | the front id is popped, announced and returned, or nothing happens |
| `MutationCaches.MutationCache.ResumePausedMutations` | src/mutation_cache.rs:511-530 | every entry unpaused, one event per entry that was paused, in order, and their number |
| `MutationLifecycle.ExactlyOnce` | src/mutation.rs:308-318 | each configured callback runs exactly once and nothing unconfigured runs; one terminal status, rollback exactly when `on_mutate` succeeded and the result is an error, one release of an acquired scope |
| `MutationLifecycle.InDocumentedOrder` | src/mutation.rs:300-318 | all calls come in the documented order for every configuration, rollback before the error callbacks |
| `MutationLifecycle.ReleaseComesLast` | src/mutation.rs:317-318 | a scope is released once, after everything else |
| `MutationLifecycle.AttemptsAlternate` | src/mutation.rs:427-441 | attempts come in order with one sleep between any two |
| `MutationLifecycle.Execution.Execute` | src/mutation.rs:346-473 | for every stream of outcomes: at most `retry + 1` attempts, all but the last failed, the last one's result returned, none after a failed `on_mutate`; the calls made are those the three lemmas above are about, the entry possibly disappearing between any two lookups |
| `MutationLifecycle.Execution.CallMutateFn` | src/mutation.rs:427-441 | the loop stops at the first success or when the retries are spent |
| `MutationLifecycle.Execution.SettleSuccess` | src/mutation.rs:480-519 | the calls of the success path, cache-level ones silent once the entry is gone |
| `MutationLifecycle.Execution.SettleError` | src/mutation.rs:526-559 | the calls of the error path, likewise |
| `Bus.RefinesLog` | src/bus.rs:119-265 | in every run, what a receiver was told replays an append-only log from its subscription, visiting or skipping each position once and in order; its queue is the rest of the log, never over the capacity asked for (one at least) and exactly full whenever values were lost |
| `Bus.PollAnswers` | src/bus.rs:239-265 | in every run a poll's answer is decided by the log: how many values were lost when the receiver is more than the capacity behind, else the next value of the log, else nothing yet while the channel is open, else `Closed` |
| `Bus.ParkedIff` | src/bus.rs:145-265 | in every run a receiver is parked if and only if it polled with a waker, was answered that nothing is there, nothing was sent since and the channel is open |
| `Bus.ParkedMeansNothingToReceive` | src/bus.rs:153-264 | a stored waker means an empty queue, no lag and a sender that can still wake it |
| `Bus.ClosedComesLast` | src/bus.rs:244-264 | without `Receiver::clone`, whenever a receiver is told `Closed`, the first time or again, every value since its subscription was delivered to it or counted as lag and no sender is left |
| `Bus.FirstClosedComesLast` | src/bus.rs:244-264 | with clones, the same of the first `Closed` a receiver is told |
| `Bus.OpenIff` | src/bus.rs:185-222 | a channel is open if and only if at every moment so far live sender handles outnumbered `Receiver::clone` calls |
| `Bus.AliveIff` | src/bus.rs:185-222 | the same from any reachable open state |
| `Bus.OpenWhileHandlesLive` | src/bus.rs:185-222 | without `Receiver::clone` the channel is open exactly while a sender handle lives |
| `Bus.CloneMayCloseLiveChannel` | src/bus.rs:313-323 | a run in which one `Receiver::clone` closes a channel whose sender lives: a value sent later is never received, and `Closed` is reported again over it |
| `Bus.PushFollows` | src/bus.rs:145-170 | a send keeps every receiver on the log, evicting or not |
| `Bus.PollFollows` | src/bus.rs:239-265 | every outcome of a poll keeps the receiver on the log |
| `Bus.StepKeepsInv` | src/bus.rs:119-274 | every operation keeps the bus invariant |
| `Bus.RunKeepsInv` | src/bus.rs:119-274 | so does every run |
| `Bus.Channels.constructor` | src/bus.rs:81-114 | one sender, one receiver, capacity at least one |
| `Bus.Channels.NewReceiver` | src/bus.rs:119-138 | an empty receiver under a fresh id |
| `Bus.Channels.SendValue` | src/bus.rs:145-170 | every live receiver gets the value, the others nothing, and exactly the parked live ones are woken |
| `Bus.Channels.AddSender` | src/bus.rs:185-195 | one more counted sender |
| `Bus.Channels.RemoveSender` | src/bus.rs:198-222 | one fewer; at zero the channel closes, and exactly the parked receivers are woken |
| `Bus.Channels.PollState` | src/bus.rs:239-265 | lag first, then values, then closure, then parking |
| `Bus.Channels.RemoveReceiver` | src/bus.rs:268-274 | the receiver is gone, the others untouched |
| `Bus.Channels.DuplicateReceiver` | src/bus.rs:313-323 | a fresh subscription, and one sender fewer than were counted |
| `KeyCodec.JoinSplit` | src/client.rs:501-506 | splitting any string on `::` and joining gives the string back |
| `KeyCodec.RoundTripIff` | src/key.rs:26-40 | joining nonempty segments and splitting gives them back if and only if no segment contains `::` and only the last may end in `:` |
| `KeyCodec.SplitIsClean` | src/hydration.rs:309-311 | everything splitting produces is such a list |
| `KeyCodec.JoinIsInjectiveOnClean` | src/key.rs:26-40 | two such lists with the same cache key are equal |
| `KeyCodec.ExtendingKeepsValid` | src/key.rs:26-40 | both ways of extending a key keep its stored string right and extend its segments |
| `KeyCodec.WithAddsParameter` | src/key.rs:26-31 | a parameter is one more segment, name and value joined by `=`, behind a separator |
| `KeyCodec.FromSegments` | src/key.rs:67-80 | the fold keeps the segments and computes their joined string |
| `KeyCodec.SnapshotKeyIsFaithful` | src/client.rs:501-506 | a key rebuilt from a cache key string is stored under that string |
| `KeyCodec.KeyFromPayload` | src/hydration.rs:316-323 | whatever segments a payload carries, the key it is written under is its hash |
| `KeyCodec.PayloadRestoresSegmentsIff` | src/hydration.rs:309-323 | a dehydrated key gets its segments back if and only if they survive the codec |
| `KeyCodec.StringPrefixIff` | src/client.rs:399 | for a clean pattern not ending in `:`, string-prefix matching means agreeing on all but the last pattern segment and having that one as a string prefix |
| `KeyCodec.PrefixStaysInBranchIff` | src/client.rs:399 | string-prefix matching keeps to the keys that loosely extend the pattern if and only if the pattern is clean and does not end in `:` |
| `KeyCodec.PrefixAlwaysOverreaches` | src/client.rs:399 | for every pattern, string-prefix matching reaches a key whose segments do not extend it |
| `KeyCodec.SegmentPrefixIsStringPrefix` | src/key.rs:59-63 | a segment prefix is always a string prefix |
| `KeyCodec.FilterSeesExtensionsIff` | src/filters.rs:376-388 | the filter recognises a key built below a pattern if and only if the pattern is clean and does not end in `:` |
| `KeyCodec.StringPrefixOverreaches` | src/client.rs:399 | a sibling reached by a string prefix, and a key outside the branch of a pattern ending in `:` |
| `QueryCaches.PrefixSelectionExact` | src/client.rs:392-417 | exactly which keys `invalidate_queries` selects for a clean pattern not ending in `:` |
| `QueryCaches.FilterSelectionExact` | src/client.rs:531-545 | a key filter selects exactly the keys whose parsed segments extend it |
| `QueryCaches.FilterSelectsIff` | src/filters.rs:376-417 | which entries any filter selects, said of the entries: a predicate sees the whole snapshot and decides alone; otherwise key, exactness, activity, staleness by flag or age, fetch status and status |
| `QueryCaches.ExactSelectsIff` | src/filters.rs:376-388 | an exact key filter selects the key itself and nothing else, and nothing at all for a key that does not survive the codec |
| `QueryCaches.RefetchSelectsIff` | src/client.rs:706-719 | which of the selected entries each refetch type refetches |
| `QueryCaches.SnapshotTells` | src/client.rs:501-529 | what a snapshot says of its entry, staleness as flag or age |
| `QueryCaches.MarkedStaleExactly` | src/client.rs:701-705 | flagging changes the flag of the given entries and nothing else |
| `QueryCaches.FilterWithinPrefix` | src/client.rs:392-417 | for every pattern, the filter selects no more than the string prefix does |
| `QueryCaches.BothReachExtensions` | src/client.rs:695-721 | both paths reach a clean pattern's own key and, unless it ends in `:`, every key built below it |
| `QueryCaches.QueryClient.SetQueryData` | src/client.rs:266-309 | one fresh entry under the cache key, the others unchanged |
| `QueryCaches.QueryClient.InvalidateQueries` | src/client.rs:392-417 | every entry is as before but for the flag, set exactly for the keys with the pattern as a string prefix, and those are off flight |
| `QueryCaches.QueryClient.MatchingEntries` | src/client.rs:531-545 | exactly the filter's matches with their snapshots |
| `QueryCaches.QueryClient.TriggerRefetches` | src/client.rs:706-733 | in-flight work is cancelled for exactly the matches the refetch type asks for |
| `QueryCaches.QueryClient.InvalidateFiltered` | src/client.rs:695-721 | every entry is as before but for the flag, set exactly for the filter's matches, which are counted; those the refetch type asks for are off flight |
| `Dehydration.DehydrateState` | src/hydration.rs:407-464 | one payload per entry that the filter keeps, with its age in whole milliseconds at that entry's own clock reading against the wall time read before the walk, sorted by hash, and no other |
| `Dehydration.DefaultSnapshot` | src/hydration.rs:130-132 | with the default filter a snapshot has a payload for exactly the text entries, and a payload's segments join to its hash |
| `Dehydration.PrecedesIff` | src/hydration.rs:456 | the order of payloads is decided at the first difference of their hashes by code point, a proper prefix first |
| `Dehydration.SnapshotsDifferInStamps` | src/hydration.rs:445-464 | two snapshots of one cache at one wall time, however it was walked, hold the same entries in the same order and differ in nothing but fetch times |
| `Dehydration.SnapshotsEqualIff` | src/hydration.rs:414-417 | and are equal if and only if the readings stamp every kept entry alike |
| `Dehydration.StampsWithinPass` | src/hydration.rs:414-417 | those fetch times differ by at most the duration of the pass in milliseconds and one more |
| `Dehydration.StampIsStableIff` | src/hydration.rs:414-417 | an entry's fetch time does not depend on where in the pass it is read if and only if the first and the last reading stamp it alike |
| `Dehydration.WalkingOrderShows` | src/hydration.rs:447-454 | two entries read a nanosecond apart across a millisecond: the snapshots of the two walking orders differ |
| `Dehydration.SnapshotIsDeterministic` | src/hydration.rs:445-464 | with the same reading for every entry, within one instant in particular, the snapshot is determined by cache and filter |
| `Hydration.HydrateQuery` | src/hydration.rs:499-552 | lookup, write and back-dating all hit the payload's hash |
| `Hydration.RestoreStaleness` | src/hydration.rs:559-573 | the flag and the back-dated fetch time of one entry |
| `Hydration.HydrateState` | src/hydration.rs:579-602 | the pass over all payloads |
| `Hydration.HydrateExactly` | src/hydration.rs:398-552 | hydrating one payload for any options: refused, without data, or against an entry that may not be overwritten or is no older, it changes nothing; otherwise its data and flag are stored with the given options but for its stale and gc times and meta, back-dated by its age |
| `Hydration.HydrateIsMonotone` | src/hydration.rs:529-573 | hydrating never removes a key or moves its fetch time back, and any change moves it forward |
| `Hydration.HydrateAllIsMonotone` | src/hydration.rs:579-602 | nor does a whole snapshot |
| `Hydration.CapturedAge` | src/hydration.rs:414-417 | of an age, whole milliseconds survive, cut off at the wall time |
| `Hydration.FreshnessBound` | src/hydration.rs:372-393 | data fetched at tp, captured at t1, offered at t2 against data fetched at tl wins exactly when tl is older than the captured whole-millisecond age, hence only if tp + (t2 - t1) + 1 ms > tl |
| `Hydration.UndatedNeverOverwrites` | src/hydration.rs:372-377 | a payload without a fetch time never replaces an entry |
| `Hydration.EarlyWallClockForgetsAge` | src/hydration.rs:414-417 | with wall time zero a payload counts as just fetched and replaces newer data |
| `Hydration.OthersUntouched` | src/hydration.rs:499-552 | a key named by no payload is unchanged |
| `Hydration.EachPayloadAlone` | src/hydration.rs:579-602 | with distinct hashes each payload has the effect it would have alone |
| `Hydration.OrderDoesNotMatter` | src/hydration.rs:579-602 | within one instant the result does not depend on the order of the payloads, over any cache |
| `Hydration.OrderDecidesOnlyTimes` | src/hydration.rs:579-602 | on a running clock, into an empty client, the order does not change keys, data, flags or options |
| `Hydration.OrderMovesTimesWithinPass` | src/hydration.rs:559-573 | and moves a fetch time by at most the duration of the pass, for every payload whose age fits the pass as `TimesWithinPassIff` says |
| `Hydration.TimesWithinPassIff` | src/hydration.rs:559-573 | a restored payload's fetch time varies by at most the duration of the pass, wherever in it the clock is read, if and only if its age reaches the clock's origin at every reading or at none, or is no longer than the pass |
| `Hydration.EntryRoundTrip` | src/hydration.rs:407-573 | one entry keeps data, flag and meta, whole-millisecond times, and its age up to transit plus 1 ms |
| `Hydration.RoundTrip` | src/hydration.rs:407-602 | hydrating a dehydrated cache into an empty client restores exactly the text entries that the filter kept, each with the transit from its own reading |
| `Broadcast.NoInventedValues` | src/broadcast.rs:197-229 | over every interleaving, every cached value was written locally under that key by some client |
| `Broadcast.RunMovesForward` | src/broadcast.rs:197-229 | over every interleaving without eviction, no client's key gets an older fetch time |
| `Broadcast.ReceiveNext` | src/broadcast.rs:197-229 | one turn of the receive loop, in place: a snapshot taken from the bus is hydrated unless unsubscribed, lag is skipped, closure ends the loop; the bus loses only what this receiver took and gains nothing |
| `Broadcast.PublishState` | src/broadcast.rs:249-268 | a snapshot of the client reaches every receiver, nothing is sent without receivers, and the client is not touched |
| `Broadcast.OwnSnapshotIsNoOpIff` | src/broadcast.rs:160-164 | a client's own snapshot changes an entry not fetched again since, unless no time passed and the age was whole milliseconds; the change is a later fetch time, the data and flag at capture, and default options but for stale and gc times and meta |
| `Broadcast.StepKeepsInv` | src/broadcast.rs:182-268 | every write, publish, delivery, invalidation or eviction keeps all values authentic and no fetch time in the future |
| `Broadcast.RunKeepsInv` | src/broadcast.rs:182-268 | so does every run |
| `Backoff.BackoffIsMonotone` | src/options.rs:80-89 | delays never shrink and never pass `max_delay` |
| `Backoff.BackoffIsIdealBelow32` | src/options.rs:80-89 | below attempt 32 the delay is min(base * 2^n, max) despite saturation |
| `Backoff.BackoffIsIdealIff` | src/options.rs:80-89 | it is so for every attempt if and only if base is zero or base * (2^32 - 1) reaches max |
| `Backoff.RetryDelayIsCapped` | src/retryer.rs:76-81 | the fixed curve is min(1 s * 2^n, 30 s) for every n despite its saturating arithmetic |
| `Backoff.FastPathAgreesIff` | src/executor.rs:43-49 | the fast path agrees with the configured delays for every attempt if and only if `max_delay` is 30 s |
| `Backoff.DelayForIs` | src/executor.rs:43-49 | the delay in use for every configuration, the base delay cut off at the cap without exponential growth |
| `Backoff.TotalSleepBound` | src/executor.rs:43-49 | with that cap the first k retries sleep at most 30 s each |
| `QueryExecutor.WaitForOnline` | src/executor.rs:56-78 | it comes back with the look of the recursive specification that `WaitingLooks` is about |
| `QueryExecutor.WaitingLooks` | src/executor.rs:56-78 | the wait ends at its first look that is cancelled, allows a retry or finds the watch closed; every look before forbade a retry |
| `QueryExecutor.PauseForRetry` | src/executor.rs:239-250 | the check after a failure and the wait it may lead to, with the cancellation check that follows |
| `QueryExecutor.Client.Execute` | src/executor.rs:157-263 | the run is the one the script determines (`RunOf`); the cache holds exactly what a success returns and is otherwise untouched; loading is announced unless the run never starts, success exactly for a success, an error exactly for one that was fetched and is no cancellation |
| `QueryExecutor.Client.FetchLoop` | src/executor.rs:201-263 | the same for the loop after the gates |
| `QueryExecutor.Client.TakeTurn` | src/executor.rs:203-262 | one turn of the loop reads the script as its specification does, writes what it returns on success and nothing otherwise, and announces success or a final error |
| `QueryExecutor.RunKeepsPromise` | src/executor.rs:157-263 | for every script of outcomes, connectivity and cancellation: at most `max_retries + 1` attempts, only network and timeout errors retried, attempts and backoffs alternating in script order, each backoff of its length and begun at the first look after the failure that was online (any look in the always mode) or at a closed watch, success the selected data and errors the error of the last attempt, cancellation only when seen or answered, suspension only for want of the next observation; a run that may not start says why: restoring is idle, offline in the online mode is paused with the cached data |
| `QueryExecutor.NoAttemptAfterCancel` | src/executor.rs:204-209 | no attempt comes after a look that was cancelled |
| `QueryExecutor.LongerScript` | src/executor.rs:201-263 | a finished run does not depend on what it did not read, and a suspended one is the first part of every longer one |
| `QueryExecutor.SleptMatchesCurve` | src/executor.rs:251-253 | a run's total sleep is the sum of the configured delays |
| `QueryExecutor.RunSleepBound` | src/executor.rs:251-253 | with a 30 s cap a run sleeps at most 30 s per allowed retry |
| `InfiniteWindow.Append` | src/client.rs:325-355 | the newest `max_pages` of the pages with the new one last, parameters alike |
| `InfiniteWindow.Prepend` | src/client.rs:358-389 | the first `max_pages` of the pages with the new one first, parameters alike |
| `InfiniteWindow.RunLoop` | src/infinite_executor.rs:266-358 | from whatever the key already held, the loop over any first fetch, requests, fetches in flight, failures and pages computes the run and the fetched parameters that the lemmas below are about, pages and parameters always paired |
| `InfiniteWindow.RunStarts` | src/infinite_executor.rs:285-298 | a successful first fetch replaces whatever the key held by its one page; after a failed one that stays |
| `InfiniteWindow.ServedNextIsKept` | src/infinite_executor.rs:301-350 | in every run, a next-page request that finds data, nothing in flight and a parameter fetches it, and the page that arrives is put last with it, only the excess in front going |
| `InfiniteWindow.ServedPreviousIsKept` | src/infinite_executor.rs:316-350 | a previous-page request likewise at the front |
| `InfiniteWindow.UnservedChangesNothing` | src/infinite_executor.rs:301-358 | a failed fetch changes nothing; a request without data, with a fetch in flight or without a parameter does not even ask |
| `InfiniteWindow.WindowKeepsNewest` | src/client.rs:325-389 | a page added with room for one is kept at its end, the bound holds |
| `InfiniteWindow.RunStaysBounded` | src/infinite_executor.rs:285-358 | every run keeps a window, its own or one the key already held, nonempty and within a bound of at least one |
| `InfiniteWindow.ZeroPagesEmptiesWindow` | src/client.rs:340-350 | a bound of zero pages empties the window at the first added page |
| `InfiniteWindow.RunStaysContiguous` | src/infinite_executor.rs:301-358 | when next and previous are inverse steps of the boundary page's parameter, the kept parameters of every run form one unbroken chain, each page with its own parameter |
| `InfiniteWindow.AskedIsBeyondTheWindow` | src/infinite_executor.rs:301-334 | in such a run every parameter fetched after the first is one step beyond the end of the window that its request extends |
| `InfiniteWindow.AppendStaysContiguous` | src/client.rs:325-355 | growing and evicting forward keeps the chain |
| `InfiniteWindow.PrependStaysContiguous` | src/client.rs:358-389 | growing and evicting backward keeps it |
| `InfiniteWindow.ChainIsInterval` | src/infinite_executor.rs:301-334 | for counted pages the chain is an interval of numbers |
| `QueriesObservers.ResultsBelongToTheirSpecs` | src/queries_observer.rs:62-134 | through every sequence of spec changes, runs, late completions and syncs, results, specs and slots have equal length and each result and filled slot belongs to the key now at its index |
| `QueriesObservers.RunKeepsInv` | src/queries_observer.rs:62-200 | every such sequence keeps every buffer and pending execution consistent |
| `QueriesObservers.LateCompletionIsInvisible` | src/queries_observer.rs:167-200 | an execution started before the specs changed changes nothing shown now or after a sync |
| `QueriesObservers.KeptSpecIsDeaf` | src/queries_observer.rs:76-101 | after `set_specs` no execution, running or new, can reach the slot of a kept spec |
| `QueriesObservers.RunningSpecLosesItsCompletion` | src/queries_observer.rs:76-134 | so a kept spec that was running, with no filled slot, shows the same result through every run of completions, syncs and other executions until it is executed again or the specs change |
| `QueriesObservers.CompletionShowsIff` | src/queries_observer.rs:62-200 | for any execution and anything happening meanwhile, its completion shows with the next sync if and only if the specs were not replaced since it started, kept or not |
| `QueriesObservers.SameSpecsLoseCompletion` | src/queries_observer.rs:62-134 | one spec executed, set again unchanged, completed and synced: it is still loading |
| `QueriesObservers.CurrentCompletionShowsAfterSync` | src/queries_observer.rs:126-134 | a current execution shows at its own index with the next sync and nowhere else |
| `QueriesObservers.KeptSpecKeepsResult` | src/queries_observer.rs:76-88 | a kept spec keeps its slot, and its result if and only if no earlier new spec has its key; otherwise it shows idle |
| `QueriesObservers.RunOneExactly` | src/queries_observer.rs:167-200 | a disabled or missing spec is not started; an enabled one starts one execution of its key, and its result is marked as refetching its data, or loading when there is none |
| `QueriesObservers.RunStartsEnabled` | src/queries_observer.rs:167-200 | a list of specs starts exactly the enabled ones in range, in order |
| `QueriesObservers.NewSpecIsStarted` | src/queries_observer.rs:89-101 | a spec with a new key shows the client's view, marked when enabled, and is started exactly then |
| `QueriesObservers.DistinctKeysKeepResults` | src/queries_observer.rs:54-58 | with distinct keys a spec keeps its result wherever it moves |
| `QueriesObservers.Reconcile` | src/queries_observer.rs:62-96 | the reconciling loop gives every spec its result and slot, and lists exactly the new ones |
| `QueriesObservers.QueriesObserver.constructor` | src/queries_observer.rs:42-51 | initial results and empty slots |
| `QueriesObservers.QueriesObserver.SetSpecs` | src/queries_observer.rs:62-101 | the whole new observer: a new buffer, old ones left to their executions, new specs started |
| `QueriesObservers.QueriesObserver.RunSpecs` | src/queries_observer.rs:167-200 | enabled specs in range are marked and started in order |
| `QueriesObservers.QueriesObserver.SyncResults` | src/queries_observer.rs:126-134 | filled slots become results, the others stay |
| `NotifyManager.RunsEveryCallbackOnce` | src/notify_manager.rs:40-78 | for every finite program of nested batches, notifies and flushes, whose callbacks may do the same, each callback has run exactly as often as submitted when the outermost call returns, the queue is empty and the depth zero |
| `NotifyManager.RunsInOrder` | src/notify_manager.rs:40-78 | without explicit flushes the callbacks run, and the `notify` calls happen, in the orders of two recursive specifications without queue or depth |
| `NotifyManager.SubmissionOrder` | src/notify_manager.rs:57-78 | that order is submission order when no callback submits anything |
| `NotifyManager.RunsInSubmissionOrderIff` | src/notify_manager.rs:40-78 | when every callback is submitted at most once, callbacks run in the order of their `notify` calls if and only if, of the callbacks any batch drains, only the last submits anything, throughout |
| `NotifyManager.ReentrantCallbackOvertakes` | src/notify_manager.rs:67-78 | a batch of two whose first submits a third, which runs before the second |
| `NotifyManager.BatchOnlyQueues` | src/notify_manager.rs:57-64 | inside a batch nothing runs, everything is queued in order |
| `NotifyManager.FlushInBatch` | src/notify_manager.rs:67-78 | an explicit flush inside a batch runs everything queued so far once and in order; what that submits waits |
| `NotifyManager.DepthRestored` | src/notify_manager.rs:57-64 | every program restores the depth it found, and an idle manager is idle again |
| `NotifyManager.ExecConserves` | src/notify_manager.rs:40-78 | callbacks run plus callbacks waiting always equal callbacks submitted |
| `NotifyManager.Notifier.NotifyCallback` | src/notify_manager.rs:40-51 | `notify` in place, against its function |
| `NotifyManager.Notifier.RunBatch` | src/notify_manager.rs:57-64 | `batch` in place, flushing only at the outermost level |
| `NotifyManager.Notifier.FlushQueue` | src/notify_manager.rs:67-78 | `flush` in place: drain first, then run, with callbacks re-entering |

## Left out

- Locks: every scheduler step is the code between two awaits. Interleavings
  inside a step are modelled only at the gate (`ScopeLocks`), where they matter.
- Scope state created outside executions: entries added with `add` directly and
  outside calls of `mark_running`, `mark_finished` or `run_next`.
- Mutation entries: `mutation_key`, submission time, `find`, mutation filters
  and 64-bit wrap-around of ids.
- User callbacks that panic or call back into the cache.
- `Watch` and `Watcher` are a version counter; wakers are a flag.
- MutationLifecycle.Execution.Execute: waiting at the gate is one call, because
  the schedule around it is the subject of `ScopedMutations`.
- Dehydration.DehydrateState: cache entries carry no errors, so redaction has
  nothing to act on; JSON encoding and its serializer hook are left out with the
  `serde` feature. Other writers during the walk are left out.
- Hydration.TimesWithinPassIff: the monotonic clock has an origin below which
  `checked_sub` fails. Whether `Instant` has one within reach depends on the
  platform; this result, and the fetch time an undated payload gets in a client
  without the key, rest on it.
- Hydration.UndatedNeverOverwrites: assumes a monotonic clock below 2^64
  milliseconds.
- QueryCaches.QueryClient.SetQueryData: default options merged by a client and
  the identity kept by structural sharing; with it the subscriber notifications
  of the invalidation paths.
- Broadcast: its runs are over cache values with unconstrained deliveries; the
  channel registry and the stop and applying flags only decide which deliveries
  happen.
- QueryExecutor.Client.Execute: waiting for a deduplicated fetch is one outcome;
  a waiter may never resolve, so no liveness is claimed for it. Other writers
  to the same key during a run are left out.
- InfiniteWindow.RunLoop: the one-place request slot and writes from outside the
  loop.
- QueriesObservers.QueriesObserver.SetSpecs: the client's view of a new key is a
  function of the key; seeding `initial_data` into the cache is left out.
- Option getters, builders and `merge_options`.
- Hooks, devtools, runtimes, cancellation tokens, persisters, the garbage
  collection loop, the focus manager, tracing and wasm branches.
