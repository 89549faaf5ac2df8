/**
  The query cache of src/client.rs and its two invalidation paths: by string
  prefix of the cache key, and by filter over segments rebuilt from it
  (src/filters.rs). Times are nanoseconds on the monotonic clock.
 */
module QueryCaches {
  import opened Wrappers
  import opened KeyCodec

  /** Cached data is type-erased; only text can be taken out again by code
      that does not know the type. */
  datatype Data = Text(text: string) | Opaque(tag: int)

  /** The options the model looks at; `rest` stands for all the others. */
  datatype Options = Options(
    staleTime: nat,
    gcTime: nat,
    meta: map<string, string>,
    enabled: bool,
    rest: int)

  datatype Entry = Entry(data: Data, fetchedAt: nat, lastAccessed: nat, options: Options, isStale: bool)

  type Cache = map<string, Entry>

  /** `Instant::elapsed`, which never goes below zero. */
  function Elapsed(since: nat, now: nat): nat {
    if now >= since then now - since else 0
  }

  /** `entry_is_stale`: flagged, or older than a non-zero stale time. */
  predicate EntryIsStale(e: Entry, now: nat) {
    (e.options.staleTime != 0 && Elapsed(e.fetchedAt, now) > e.options.staleTime) || e.isStale
  }

  // ----- filters -----

  datatype QueryStatus = Pending | Error | Success
  datatype FetchStatus = Idle | Fetching | Paused
  datatype QueryType = All | Active | Inactive
  datatype RefetchType = RefetchAll | RefetchActive | RefetchInactive | RefetchNone

  datatype Snapshot = Snapshot(
    key: QueryKey,
    isActive: bool,
    isStale: bool,
    status: QueryStatus,
    fetchStatus: FetchStatus)

  datatype Filters = Filters(
    queryKey: Option<QueryKey>,
    exact: bool,
    queryType: QueryType,
    stale: bool,
    fetchStatus: Option<FetchStatus>,
    status: Option<QueryStatus>,
    predicate_: Option<Snapshot -> bool>)

  function WithKey(key: QueryKey): Filters {
    Filters(Some(key), false, All, false, None, None, None)
  }

  predicate KeyMatches(filter: Option<QueryKey>, candidate: QueryKey, exact: bool) {
    match filter
    case None => true
    case Some(f) => if exact then f == candidate else candidate.StartsWith(f)
  }

  predicate MatchQuery(s: Snapshot, f: Filters) {
    if f.predicate_.Some? then f.predicate_.value(s)
    else
      && KeyMatches(f.queryKey, s.key, f.exact)
      && (f.queryType.Active? ==> s.isActive)
      && (f.queryType.Inactive? ==> !s.isActive)
      && (f.stale ==> s.isStale)
      && (f.fetchStatus.Some? ==> s.fetchStatus == f.fetchStatus.value)
      && (f.status.Some? ==> s.status == f.status.value)
  }

  function EntrySnapshot(cacheKey: string, e: Entry, inFlight: bool, now: nat): Snapshot {
    Snapshot(
      FromSegments(Split(cacheKey)),
      inFlight && e.options.enabled,
      EntryIsStale(e, now),
      Success,
      if inFlight then Fetching else Idle)
  }

  predicate Matches(cache: Cache, inFlight: set<string>, f: Filters, now: nat, k: string)
    requires k in cache
  {
    MatchQuery(EntrySnapshot(k, cache[k], k in inFlight, now), f)
  }

  // ----- what the two paths select -----

  ghost function PrefixSelection(cache: Cache, pattern: QueryKey): set<string> {
    set k | k in cache && pattern.cacheKey <= k
  }

  ghost function FilterSelection(cache: Cache, inFlight: set<string>, f: Filters, now: nat): set<string> {
    set k | k in cache && Matches(cache, inFlight, f, now, k)
  }

  /** The cache with exactly these entries flagged stale. */
  ghost function MarkedStale(cache: Cache, keys: set<string>): Cache {
    map k | k in cache :: if k in keys then cache[k].(isStale := true) else cache[k]
  }

  ghost function Refetches(found: map<string, Snapshot>, refetch: RefetchType): set<string> {
    set k | k in found && Wanted(found[k].isActive, refetch)
  }

  /** The matches to refetch; "active" is an enabled entry with a fetch in
      flight. */
  ghost function RefetchSelection(
      cache: Cache, inFlight: set<string>, f: Filters, refetch: RefetchType, now: nat): set<string> {
    set k | k in FilterSelection(cache, inFlight, f, now)
      && Wanted(k in inFlight && cache[k].options.enabled, refetch)
  }

  lemma RefetchesAreSelected(
      cache: Cache, inFlight: set<string>, found: map<string, Snapshot>, f: Filters, refetch: RefetchType, now: nat)
    requires found.Keys == FilterSelection(cache, inFlight, f, now)
    requires forall k :: k in found ==> found[k] == EntrySnapshot(k, cache[k], k in inFlight, now)
    ensures Refetches(found, refetch) == RefetchSelection(cache, inFlight, f, refetch, now)
  {
  }

  /** For a clean pattern not ending in `:`, `invalidate_queries` selects the
      keys agreeing on all but the last pattern segment and carrying it as a
      string prefix there. */
  lemma PrefixSelectionExact(cache: Cache, pattern: QueryKey)
    requires pattern.Valid() && Clean(pattern.segments)
    requires pattern.segments != [] ==> !EndsInColon(pattern.segments[|pattern.segments| - 1])
    ensures PrefixSelection(cache, pattern) ==
      set k | k in cache && LooselyExtends(Split(k), pattern.segments)
  {
    forall k | k in cache
      ensures pattern.cacheKey <= k <==> LooselyExtends(Split(k), pattern.segments)
    {
      StringPrefixIff(pattern.segments, k);
    }
  }

  /** What any filter selects, said of the entries themselves. A predicate sees the
      whole snapshot and decides alone. Otherwise the key must be the very key
      parsed from the cache key or extend it, "active" means an enabled entry with
      a fetch in flight, "stale" flagged or older than a non-zero stale time, the
      fetch status tells whether a fetch is in flight, and every entry counts as a
      success. */
  lemma FilterSelectsIff(cache: Cache, inFlight: set<string>, f: Filters, now: nat, k: string)
    ensures k in FilterSelection(cache, inFlight, f, now) <==>
      k in cache &&
      (var e, flying := cache[k], k in inFlight;
       var active := flying && e.options.enabled;
       var stale := e.isStale || (e.options.staleTime != 0 && now - e.fetchedAt > e.options.staleTime);
       if f.predicate_.Some? then
         f.predicate_.value(Snapshot(QueryKey(Split(k), k), active, stale, Success, if flying then Fetching else Idle))
       else
         && (f.queryKey.Some? && f.exact ==> f.queryKey.value == QueryKey(Split(k), k))
         && (f.queryKey.Some? && !f.exact ==> f.queryKey.value.segments <= Split(k))
         && (f.queryType.Active? ==> active) && (f.queryType.Inactive? ==> !active)
         && (f.stale ==> stale)
         && (f.fetchStatus == Some(Fetching) ==> flying) && (f.fetchStatus == Some(Idle) ==> !flying)
         && f.fetchStatus != Some(Paused) && f.status != Some(Pending) && f.status != Some(Error))
  {
    if k in cache { SnapshotTells(k, cache[k], k in inFlight, now); }
  }

  /** What a snapshot says of its entry. */
  lemma SnapshotTells(k: string, e: Entry, flying: bool, now: nat)
    ensures EntrySnapshot(k, e, flying, now) == Snapshot(
      QueryKey(Split(k), k),
      flying && e.options.enabled,
      e.isStale || (e.options.staleTime != 0 && now - e.fetchedAt > e.options.staleTime),
      Success,
      if flying then Fetching else Idle)
  {
    SnapshotKeyIsFaithful(k);
    assert FromSegments(Split(k)) == QueryKey(Split(k), k);
  }

  /** An exact key filter selects the key itself and nothing else, and a key that
      does not survive the codec selects nothing at all. */
  lemma ExactSelectsIff(cache: Cache, inFlight: set<string>, key: QueryKey, now: nat)
    requires key.Valid() && key.segments != []
    ensures FilterSelection(cache, inFlight, WithKey(key).(exact := true), now) ==
      if Clean(key.segments) && key.cacheKey in cache then {key.cacheKey} else {}
  {
    RoundTripIff(key.segments);
    forall k: string
      ensures k in FilterSelection(cache, inFlight, WithKey(key).(exact := true), now) <==>
        k in cache && k == key.cacheKey && Clean(key.segments)
    {
      FilterSelectsIff(cache, inFlight, WithKey(key).(exact := true), now, k);
    }
  }

  /** Which of the selected entries are refetched. */
  lemma RefetchSelectsIff(cache: Cache, inFlight: set<string>, f: Filters, refetch: RefetchType, now: nat, k: string)
    ensures k in RefetchSelection(cache, inFlight, f, refetch, now) <==>
      && k in FilterSelection(cache, inFlight, f, now)
      && (refetch.RefetchActive? ==> k in inFlight && cache[k].options.enabled)
      && (refetch.RefetchInactive? ==> !(k in inFlight && cache[k].options.enabled))
      && !refetch.RefetchNone?
  {
  }

  /** Flagging changes the flag of the given entries and nothing else. */
  lemma MarkedStaleExactly(cache: Cache, keys: set<string>, k: string)
    ensures k in MarkedStale(cache, keys) <==> k in cache
    ensures k in cache && k in keys ==> MarkedStale(cache, keys)[k] == cache[k].(isStale := true)
    ensures k in cache && k !in keys ==> MarkedStale(cache, keys)[k] == cache[k]
  {
  }

  /** Filtering by a key selects the keys whose parsed segments extend it. */
  lemma FilterSelectionExact(cache: Cache, inFlight: set<string>, pattern: QueryKey, now: nat)
    ensures FilterSelection(cache, inFlight, WithKey(pattern), now) ==
      set k | k in cache && pattern.segments <= Split(k)
  {
  }

  /** Whatever the pattern, the filter never selects more than the string
      prefix does. */
  lemma FilterWithinPrefix(cache: Cache, inFlight: set<string>, pattern: QueryKey, now: nat)
    requires pattern.Valid()
    ensures FilterSelection(cache, inFlight, WithKey(pattern), now) <= PrefixSelection(cache, pattern)
  {
    forall k | k in FilterSelection(cache, inFlight, WithKey(pattern), now)
      ensures k in PrefixSelection(cache, pattern)
    {
      FilterSelectionExact(cache, inFlight, pattern, now);
      SegmentPrefixIsStringPrefix(pattern.segments, k);
    }
  }

  /** Both paths reach a clean pattern's own key and, unless the pattern ends
      in `:`, every key built below it. */
  lemma BothReachExtensions(cache: Cache, inFlight: set<string>, p: seq<string>, more: seq<string>, now: nat)
    requires p != [] && Clean(p) && (more != [] ==> !EndsInColon(p[|p| - 1]))
    requires Join(p + more) in cache
    ensures Join(p + more) in FilterSelection(cache, inFlight, WithKey(FromSegments(p)), now)
    ensures Join(p + more) in PrefixSelection(cache, FromSegments(p))
  {
    if more == [] {
      assert p + more == p;
      SplitJoinClean(p);
    } else {
      FilterSeesExtensionsIff(p, more);
    }
    FilterSelectionExact(cache, inFlight, FromSegments(p), now);
    FilterWithinPrefix(cache, inFlight, FromSegments(p), now);
  }

  // ----- the client -----

  class QueryClient {
    var cache: Cache
    var inFlight: set<string>

    constructor ()
      ensures cache == map[] && inFlight == {}
    {
      cache, inFlight := map[], {};
    }

    /** A client without default options; structural sharing only decides
        which of two equal values is kept. */
    method SetQueryData(key: QueryKey, data: Data, options: Options, now: nat)
      modifies `cache
      ensures cache == old(cache)[key.cacheKey := Entry(data, now, now, options, false)]
    {
      cache := cache[key.cacheKey := Entry(data, now, now, options, false)];
    }

    method InvalidateQueries(pattern: QueryKey)
      modifies this
      ensures cache == MarkedStale(old(cache), PrefixSelection(old(cache), pattern))
      ensures inFlight == old(inFlight) - PrefixSelection(old(cache), pattern)
      ensures cache.Keys == old(cache).Keys
      ensures forall k :: k in cache ==> cache[k] == old(cache)[k].(isStale := pattern.cacheKey <= k || old(cache)[k].isStale)
    {
      ghost var was, selected := cache, PrefixSelection(cache, pattern);
      var keys := set k | k in cache && (pattern.cacheKey <= k || k == pattern.cacheKey);
      var todo := keys;
      while todo != {}
        invariant todo <= keys == selected
        invariant inFlight == old(inFlight) - (keys - todo)
        invariant cache == MarkedStale(was, keys - todo)
        decreases todo
      {
        var k :| k in todo;
        todo := todo - {k};
        inFlight := inFlight - {k};
        cache := cache[k := cache[k].(isStale := true)];
        assert cache == MarkedStale(was, keys - todo);
      }
      assert keys - todo == selected;
    }

    /** `matching_entries`. */
    method MatchingEntries(f: Filters, now: nat) returns (found: map<string, Snapshot>)
      ensures found.Keys == FilterSelection(cache, inFlight, f, now)
      ensures forall k :: k in found ==> found[k] == EntrySnapshot(k, cache[k], k in inFlight, now)
    {
      found := map k | k in cache && Matches(cache, inFlight, f, now, k) ::
        EntrySnapshot(k, cache[k], k in inFlight, now);
      assert found.Keys == FilterSelection(cache, inFlight, f, now);
    }

    method MarkStale(keys: set<string>)
      requires keys <= cache.Keys
      modifies `cache
      ensures cache == MarkedStale(old(cache), keys)
    {
      var todo := keys;
      while todo != {}
        invariant todo <= keys
        invariant cache == MarkedStale(old(cache), keys - todo)
        decreases todo
      {
        var k :| k in todo;
        todo := todo - {k};
        cache := cache[k := cache[k].(isStale := true)];
        assert cache == MarkedStale(old(cache), keys - todo);
      }
      assert keys - todo == keys;
    }

    /** `trigger_refetch` for the matches the refetch type asks for. */
    method TriggerRefetches(found: map<string, Snapshot>, refetch: RefetchType)
      requires found.Keys <= cache.Keys && forall k :: k in found ==> cache[k].isStale
      modifies this
      ensures cache == old(cache)
      ensures inFlight == old(inFlight) - Refetches(found, refetch)
    {
      var todo := found.Keys;
      while todo != {}
        invariant todo <= found.Keys && cache == old(cache)
        invariant forall k :: k in inFlight <==> k in old(inFlight) && !(k in Refetches(found, refetch) && k !in todo)
        decreases todo
      {
        var k :| k in todo;
        todo := todo - {k};
        if Wanted(found[k].isActive, refetch) {
          inFlight := inFlight - {k};
          cache := cache[k := cache[k].(isStale := true)];
        }
      }
    }

    /** Flag every match stale, then cancel the in-flight fetch of those the
        refetch type asks for. */
    method InvalidateFiltered(f: Filters, refetch: RefetchType, now: nat) returns (count: nat)
      modifies this
      ensures cache == MarkedStale(old(cache), FilterSelection(old(cache), old(inFlight), f, now))
      ensures count == |FilterSelection(old(cache), old(inFlight), f, now)|
      ensures inFlight == old(inFlight) - RefetchSelection(old(cache), old(inFlight), f, refetch, now)
      ensures cache.Keys == old(cache).Keys
      ensures forall k :: k in cache ==>
        cache[k] == old(cache)[k].(isStale := k in FilterSelection(old(cache), old(inFlight), f, now) || old(cache)[k].isStale)
    {
      var found := MatchingEntries(f, now);
      RefetchesAreSelected(cache, inFlight, found, f, refetch, now);
      count := |found.Keys|;
      MarkStale(found.Keys);
      TriggerRefetches(found, refetch);
    }
  }

  /** Which matches a refetch type asks for. */
  predicate Wanted(active: bool, refetch: RefetchType) {
    match refetch
    case RefetchAll => true
    case RefetchActive => active
    case RefetchInactive => !active
    case RefetchNone => false
  }
}
