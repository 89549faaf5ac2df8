/**
  The mutation cache of src/mutation_cache.rs: snapshot entries, per-scope run
  state and per-scope release versions.

  `CacheState` is the cache as a value and each operation is a function on it;
  class `MutationCache` holds the same fields and updates them in place, each
  method proved against its function. The scheduler proofs in
  `ScopedMutations` use the functions.
 */
module MutationCaches {
  import opened Wrappers

  datatype Status = Idle | Pending | Success | Error

  datatype Entry = Entry(
    id: nat,
    scope: Option<string>,
    status: Status,
    isPaused: bool,
    hasResult: bool,
    error: Option<string>,
    hasContext: bool)

  datatype Event =
    | Added(id: nat)
    | Removed(id: nat)
    | Updated(id: nat)
    | ScopeResumed(scope: string)
    | Cleared

  datatype ScopeState = ScopeState(running: bool, queue: seq<nat>)

  /** `release` maps a scope to the version of its watch cell; `events` is
      everything sent on the event bus, oldest first. */
  datatype CacheState = CacheState(
    entries: seq<Entry>,
    scopes: map<string, ScopeState>,
    nextId: nat,
    release: map<string, nat>,
    events: seq<Event>)
  {
    predicate Running(scope: string) {
      scope in scopes && scopes[scope].running
    }

    function Queue(scope: string): seq<nat> {
      if scope in scopes then scopes[scope].queue else []
    }
  }

  const EMPTY := CacheState([], map[], 0, map[], [])

  /** `or_default` on the scope table. */
  function ScopeOrDefault(c: CacheState, scope: string): ScopeState {
    if scope in c.scopes then c.scopes[scope] else ScopeState(false, [])
  }

  function Emit(c: CacheState, e: Event): CacheState {
    c.(events := c.events + [e])
  }

  /** Position of the first entry with this id, `|es|` when there is none. */
  function IndexOf(es: seq<Entry>, id: nat): (i: nat)
    ensures i <= |es|
    ensures forall j :: 0 <= j < i ==> es[j].id != id
    ensures i < |es| ==> es[i].id == id
  {
    if es == [] || es[0].id == id then 0 else 1 + IndexOf(es[1..], id)
  }

  /** `VecDeque::retain(|queued| queued != id)`. */
  function Without(q: seq<nat>, id: nat): (r: seq<nat>)
    ensures |r| <= |q|
    ensures id !in r
  {
    if q == [] then [] else
      var rest := Without(q[1..], id);
      if q[0] == id then rest else [q[0]] + rest
  }

  function Get(c: CacheState, id: nat): Option<Entry> {
    var i := IndexOf(c.entries, id);
    if i < |c.entries| then Some(c.entries[i]) else None
  }

  function Add(c: CacheState, entry: Entry): CacheState {
    var id := c.nextId + 1;
    var stamped := entry.(id := id);
    var c1 := c.(nextId := id);
    var c2 := match entry.scope
      case None => c1.(entries := c.entries + [stamped])
      case Some(sc) =>
        var st := ScopeOrDefault(c, sc);
        if st.running then
          c1.(scopes := c.scopes[sc := st.(queue := st.queue + [id])],
              entries := c.entries + [stamped.(isPaused := true)])
        else
          c1.(scopes := c.scopes[sc := st], entries := c.entries + [stamped]);
    Emit(c2, Added(id))
  }

  function Update(c: CacheState, id: nat, apply: Entry -> Entry): (r: CacheState)
    ensures r.scopes == c.scopes && r.release == c.release && r.nextId == c.nextId
  {
    var i := IndexOf(c.entries, id);
    if i < |c.entries|
    then Emit(c.(entries := c.entries[i := apply(c.entries[i])]), Updated(id))
    else c
  }

  function Remove(c: CacheState, id: nat): CacheState {
    var i := IndexOf(c.entries, id);
    if i < |c.entries| then
      var c1 := c.(entries := c.entries[..i] + c.entries[i + 1..]);
      var c2 := match c.entries[i].scope
        case None => c1
        case Some(sc) =>
          if sc in c.scopes
          then c1.(scopes := c.scopes[sc := c.scopes[sc].(queue := Without(c.scopes[sc].queue, id))])
          else c1;
      Emit(c2, Removed(id))
    else Emit(c, Removed(id))
  }

  function RemovedEvents(es: seq<Entry>): seq<Event> {
    seq(|es|, i requires 0 <= i < |es| => Removed(es[i].id))
  }

  function Clear(c: CacheState): CacheState {
    c.(entries := [], scopes := map[], events := c.events + RemovedEvents(c.entries) + [Cleared])
  }

  predicate CanRun(c: CacheState, scope: string) {
    !c.Running(scope)
  }

  function MarkRunning(c: CacheState, scope: string): CacheState {
    c.(scopes := c.scopes[scope := ScopeOrDefault(c, scope).(running := true)])
  }

  /** Bump the scope's release version, if anyone ever subscribed to it. */
  function NotifyScope(c: CacheState, scope: string): CacheState {
    if scope in c.release then c.(release := c.release[scope := c.release[scope] + 1]) else c
  }

  function MarkFinished(c: CacheState, scope: string): CacheState {
    var c1 :=
      if scope !in c.scopes then c
      else if c.scopes[scope].queue == [] then c.(scopes := c.scopes - {scope})
      else c.(scopes := c.scopes[scope := c.scopes[scope].(running := false)]);
    NotifyScope(c1, scope)
  }

  /** Create the scope's watch cell if needed; a fresh watcher has seen the
      version the cell holds now. */
  function SubscribeScope(c: CacheState, scope: string): CacheState {
    if scope in c.release then c else c.(release := c.release[scope := 0])
  }

  function RunNext(c: CacheState, scope: string): CacheState {
    if c.Queue(scope) == [] then c
    else
      var st := c.scopes[scope];
      var c1 := c.(scopes := c.scopes[scope := st.(queue := st.queue[1..])]);
      NotifyScope(Emit(c1, ScopeResumed(scope)), scope)
  }

  function Unpaused(e: Entry): Entry { e.(isPaused := false) }

  function UnpauseAll(es: seq<Entry>): seq<Entry> {
    seq(|es|, i requires 0 <= i < |es| => Unpaused(es[i]))
  }

  /** One `Updated` per paused entry, in entry order. */
  function ResumedEvents(es: seq<Entry>): (r: seq<Event>) {
    if es == [] then [] else
      ResumedEvents(es[..|es| - 1]) +
      (if es[|es| - 1].isPaused then [Updated(es[|es| - 1].id)] else [])
  }

  lemma ResumedStep(es: seq<Entry>, i: nat)
    requires i < |es|
    ensures ResumedEvents(es[..i + 1]) ==
      ResumedEvents(es[..i]) + (if es[i].isPaused then [Updated(es[i].id)] else [])
  {
    assert es[..i + 1][..i] == es[..i];
  }

  function ResumePaused(c: CacheState): CacheState {
    c.(entries := UnpauseAll(c.entries), events := c.events + ResumedEvents(c.entries))
  }

  /** Resuming leaves nothing paused, changes nothing else of an entry, and a
      second call finds nothing to do. */
  lemma {:induction false} ResumePausedIsIdempotent(c: CacheState)
    ensures forall i :: 0 <= i < |c.entries| ==>
      ResumePaused(c).entries[i] == c.entries[i].(isPaused := false)
    ensures ResumePaused(ResumePaused(c)) == ResumePaused(c)
  {
    var es := UnpauseAll(c.entries);
    assert UnpauseAll(es) == es;
    NothingToResume(es);
  }

  /** Resuming announces exactly the entries that were paused. */
  lemma {:induction false} ResumeAnnounces(es: seq<Entry>, id: nat)
    ensures Updated(id) in ResumedEvents(es) <==> exists k :: 0 <= k < |es| && es[k].isPaused && es[k].id == id
  {
    if es != [] {
      var n := |es| - 1;
      ResumeAnnounces(es[..n], id);
      if exists k :: 0 <= k < |es[..n]| && es[..n][k].isPaused && es[..n][k].id == id {
        var k :| 0 <= k < |es[..n]| && es[..n][k].isPaused && es[..n][k].id == id;
        assert es[k].isPaused && es[k].id == id;
      }
      if exists k :: 0 <= k < |es| && es[k].isPaused && es[k].id == id {
        var k :| 0 <= k < |es| && es[k].isPaused && es[k].id == id;
        if k < n { assert es[..n][k] == es[k]; }
      }
    }
  }

  lemma {:induction false} NothingToResume(es: seq<Entry>)
    requires forall i :: 0 <= i < |es| ==> !es[i].isPaused
    ensures ResumedEvents(es) == []
  {
    if es != [] { NothingToResume(es[..|es| - 1]); }
  }

  /** Ids are handed out in increasing order, so everything stored is older
      than the next one. */
  ghost predicate IdsInUse(c: CacheState) {
    && (forall k :: 0 <= k < |c.entries| ==> c.entries[k].id <= c.nextId)
    && (forall sc: string, k :: 0 <= k < |c.Queue(sc)| ==> c.Queue(sc)[k] <= c.nextId)
  }

  /** A mutation added to a busy scope is paused and queued last; any other is
      stored as given. No other scope is touched. */
  lemma AddQueuesIffBusy(c: CacheState, entry: Entry, scope: string)
    ensures var r := Add(c, entry); var id := c.nextId + 1;
      var busy := entry.scope.Some? && c.Running(entry.scope.value);
      && r.entries == c.entries + [entry.(id := id, isPaused := entry.isPaused || busy)]
      && r.Queue(scope) == c.Queue(scope) + (if busy && entry.scope == Some(scope) then [id] else [])
      && r.Running(scope) == c.Running(scope)
  {
  }

  lemma {:induction false} WithoutAbsent(q: seq<nat>, id: nat)
    requires id !in q
    ensures Without(q, id) == q
  {
    if q != [] {
      assert q == [q[0]] + q[1..];
      WithoutAbsent(q[1..], id);
    }
  }

  lemma {:induction false} WithoutLast(q: seq<nat>, id: nat)
    requires id !in q
    ensures Without(q + [id], id) == q
  {
    if q == [] {
      assert [id][1..] == [];
    } else {
      assert (q + [id])[1..] == q[1..] + [id];
      assert q == [q[0]] + q[1..];
      WithoutLast(q[1..], id);
    }
  }

  lemma {:induction false} IndexOfAppended(es: seq<Entry>, e: Entry)
    requires forall k :: 0 <= k < |es| ==> es[k].id != e.id
    ensures IndexOf(es + [e], e.id) == |es|
  {
    if es != [] {
      assert (es + [e])[1..] == es[1..] + [e];
      IndexOfAppended(es[1..], e);
    }
  }

  /** Removing an entry splices it out of its own scope's queue only. */
  lemma RemoveSplices(c: CacheState, id: nat, scope: string)
    ensures var i := IndexOf(c.entries, id); var r := Remove(c, id);
      && r.entries == (if i < |c.entries| then c.entries[..i] + c.entries[i + 1..] else c.entries)
      && r.Queue(scope) == (if i < |c.entries| && c.entries[i].scope == Some(scope)
                            then Without(c.Queue(scope), id) else c.Queue(scope))
      && r.Running(scope) == c.Running(scope)
  {
  }

  lemma RemoveLast(es: seq<Entry>, e: Entry)
    ensures (es + [e])[..|es|] + (es + [e])[|es| + 1..] == es
  {
  }

  lemma RemoveAppended(a: CacheState, es: seq<Entry>, last: Entry, scope: string)
    requires a.entries == es + [last] && forall k :: 0 <= k < |es| ==> es[k].id != last.id
    ensures var r := Remove(a, last.id);
      && r.entries == es && r.Running(scope) == a.Running(scope)
      && r.Queue(scope) == (if last.scope == Some(scope) then Without(a.Queue(scope), last.id) else a.Queue(scope))
  {
    RemoveSplices(a, last.id, scope);
    IndexOfAppended(es, last);
    RemoveLast(es, last);
  }

  /** Removing the entry just added takes it out of the entries and out of its
      scope's queue again. */
  lemma RemoveUndoesAdd(c: CacheState, entry: Entry, scope: string)
    requires IdsInUse(c)
    ensures var r := Remove(Add(c, entry), c.nextId + 1);
      r.entries == c.entries && r.Queue(scope) == c.Queue(scope) && r.Running(scope) == c.Running(scope)
  {
    var id := c.nextId + 1;
    AddQueuesIffBusy(c, entry, scope);
    var busy := entry.scope.Some? && c.Running(entry.scope.value);
    RemoveAppended(Add(c, entry), c.entries, entry.(id := id, isPaused := entry.isPaused || busy), scope);
    assert id !in c.Queue(scope);
    WithoutLast(c.Queue(scope), id);
    WithoutAbsent(c.Queue(scope), id);
    assert c.Queue(scope) + [] == c.Queue(scope);
  }

  /** The cache as the shared object it is, every field changed in place. */
  class MutationCache {
    var entries: seq<Entry>
    var scopes: map<string, ScopeState>
    var nextId: nat
    var release: map<string, nat>
    var events: seq<Event>

    ghost function State(): CacheState
      reads this
    {
      CacheState(entries, scopes, nextId, release, events)
    }

    constructor ()
      ensures State() == EMPTY
    {
      entries, scopes, nextId, release, events := [], map[], 0, map[], [];
    }

    method Find(id: nat) returns (i: nat)
      ensures i == IndexOf(entries, id)
    {
      i := 0;
      while i < |entries| && entries[i].id != id
        invariant 0 <= i <= |entries|
        invariant forall j :: 0 <= j < i ==> entries[j].id != id
      {
        i := i + 1;
      }
    }

    method AddEntry(entry: Entry) returns (id: nat)
      modifies this
      ensures State() == Add(old(State()), entry)
      ensures id == old(nextId) + 1 == nextId
    {
      nextId := nextId + 1;
      id := nextId;
      var stamped := entry.(id := id);
      if stamped.scope.Some? {
        var sc := stamped.scope.value;
        if sc !in scopes { scopes := scopes[sc := ScopeState(false, [])]; }
        if scopes[sc].running {
          stamped := stamped.(isPaused := true);
          scopes := scopes[sc := scopes[sc].(queue := scopes[sc].queue + [id])];
        }
      }
      entries := entries + [stamped];
      events := events + [Added(id)];
    }

    method UpdateEntry(id: nat, apply: Entry -> Entry) returns (found: bool)
      modifies this
      ensures State() == Update(old(State()), id, apply)
      ensures found == (IndexOf(old(entries), id) < |old(entries)|)
    {
      var i := Find(id);
      found := i < |entries|;
      if found {
        entries := entries[i := apply(entries[i])];
        events := events + [Updated(id)];
      }
    }

    method RemoveEntry(id: nat) returns (found: bool)
      modifies this
      ensures State() == Remove(old(State()), id)
      ensures found == (IndexOf(old(entries), id) < |old(entries)|)
    {
      var i := Find(id);
      found := i < |entries|;
      if found {
        var scope := entries[i].scope;
        entries := entries[..i] + entries[i + 1..];
        if scope.Some? && scope.value in scopes {
          var q := scopes[scope.value].queue;
          var kept := Retain(q, id);
          scopes := scopes[scope.value := scopes[scope.value].(queue := kept)];
        }
      }
      events := events + [Removed(id)];
    }

    method Retain(q: seq<nat>, id: nat) returns (kept: seq<nat>)
      ensures kept == Without(q, id)
    {
      kept := [];
      var i := |q|;
      while i > 0
        invariant 0 <= i <= |q|
        invariant kept == Without(q[i..], id)
      {
        i := i - 1;
        assert q[i..][1..] == q[i + 1..];
        if q[i] != id { kept := [q[i]] + kept; }
      }
      assert q[0..] == q;
    }

    method ClearAll()
      modifies this
      ensures State() == Clear(old(State()))
    {
      var es := entries;
      entries, scopes := [], map[];
      var i := 0;
      while i < |es|
        invariant 0 <= i <= |es|
        invariant entries == [] && scopes == map[]
        invariant nextId == old(nextId) && release == old(release)
        invariant events == old(events) + RemovedEvents(es)[..i]
      {
        events := events + [Removed(es[i].id)];
        i := i + 1;
      }
      assert RemovedEvents(es)[..|es|] == RemovedEvents(es);
      events := events + [Cleared];
    }

    method CanRunScope(scope: string) returns (ok: bool)
      ensures ok == CanRun(State(), scope)
    {
      ok := !(scope in scopes && scopes[scope].running);
    }

    method MarkScopeRunning(scope: string)
      modifies this
      ensures State() == MarkRunning(old(State()), scope)
    {
      var st := if scope in scopes then scopes[scope] else ScopeState(false, []);
      scopes := scopes[scope := st.(running := true)];
    }

    method Notify(scope: string)
      modifies this
      ensures State() == NotifyScope(old(State()), scope)
    {
      if scope in release {
        release := release[scope := release[scope] + 1];
      }
    }

    method MarkScopeFinished(scope: string)
      modifies this
      ensures State() == MarkFinished(old(State()), scope)
    {
      if scope in scopes {
        scopes := scopes[scope := scopes[scope].(running := false)];
        if scopes[scope].queue == [] {
          scopes := scopes - {scope};
        }
      }
      assert scope in old(scopes) && old(scopes)[scope].queue == [] ==>
        scopes == old(scopes) - {scope};
      Notify(scope);
    }

    method Subscribe(scope: string) returns (seen: nat)
      modifies this
      ensures State() == SubscribeScope(old(State()), scope)
      ensures scope in release && seen == release[scope]
    {
      if scope !in release {
        release := release[scope := 0];
      }
      seen := release[scope];
    }

    method RunNextQueued(scope: string) returns (next: Option<nat>)
      modifies this
      ensures State() == RunNext(old(State()), scope)
      ensures next == if old(State()).Queue(scope) == [] then None else Some(old(State()).Queue(scope)[0])
    {
      next := None;
      if scope in scopes && scopes[scope].queue != [] {
        var st := scopes[scope];
        next := Some(st.queue[0]);
        scopes := scopes[scope := st.(queue := st.queue[1..])];
        events := events + [ScopeResumed(scope)];
        Notify(scope);
      }
    }

    method ResumePausedMutations() returns (resumed: nat)
      modifies this
      ensures State() == ResumePaused(old(State()))
      ensures resumed == |ResumedEvents(old(entries))|
    {
      var was := entries;
      var ids: seq<Event> := [];
      var i := 0;
      while i < |was|
        invariant 0 <= i <= |was|
        invariant unchanged(`scopes) && unchanged(`nextId) && unchanged(`release) && unchanged(`events)
        invariant |entries| == |was|
        invariant forall j :: 0 <= j < i ==> entries[j] == Unpaused(was[j])
        invariant forall j :: i <= j < |was| ==> entries[j] == was[j]
        invariant ids == ResumedEvents(was[..i])
      {
        ResumedStep(was, i);
        if was[i].isPaused {
          ids := ids + [Updated(was[i].id)];
        }
        entries := entries[i := entries[i].(isPaused := false)];
        i := i + 1;
      }
      assert was[..|was|] == was && entries == UnpauseAll(was);
      events := events + ids;
      resumed := |ids|;
    }
  }
}
