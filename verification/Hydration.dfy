/**
  Hydration of src/hydration.rs: payloads written into a cache, the younger data
  winning. Ages travel, not times: a payload is back-dated from the moment it is
  written.
 */
module Hydration {
  import opened Wrappers
  import opened KeyCodec
  import opened QueryCaches
  import opened Dehydration

  /** The default query options. */
  const DEFAULTS := Options(0, 300_000 * MS, map[], true, 0)

  datatype HydrateOptions = HydrateOptions(
    shouldOverwrite: bool,
    shouldHydrate: Option<string -> bool>,
    defaultOptions: Option<Options>)

  const HYDRATE_DEFAULTS := HydrateOptions(true, None, None)

  function AgeMs(atMs: nat, fetchedAtMs: Option<nat>): nat {
    match fetchedAtMs
    case Some(f) => SaturatingSub(atMs, f)
    case None => U64_MAX
  }

  /** The payload wins when the local entry is older now than the payload was
      when captured. */
  predicate IsNewer(existingFetchedAt: nat, now: nat, atMs: nat, fetchedAtMs: Option<nat>) {
    Elapsed(existingFetchedAt, now) > AgeMs(atMs, fetchedAtMs) * MS
  }

  function StoredOptions(q: Payload, o: HydrateOptions): Options {
    var base := if o.defaultOptions.Some? then o.defaultOptions.value else DEFAULTS;
    base.(staleTime := q.staleTimeMs * MS, gcTime := q.gcTimeMs * MS, meta := q.meta)
  }

  /** The clock is read three times: to decide, to write and to back-date. */
  datatype Times = Times(check: nat, set_: nat, restore: nat)
  {
    predicate Ordered() { check <= set_ <= restore }
  }

  /** `checked_sub` fails below the clock's origin; the entry then keeps the
      time it was written. */
  function BackDate(e: Entry, ageMs: nat, now: nat): Entry {
    if 0 < ageMs && ageMs * MS <= now then e.(fetchedAt := now - ageMs * MS) else e
  }

  predicate PayloadWins(existing: Option<Entry>, atMs: nat, q: Payload, o: HydrateOptions, now: nat) {
    && (o.shouldHydrate.Some? ==> o.shouldHydrate.value(q.hash))
    && q.data.Some?
    && (existing.Some? ==> o.shouldOverwrite && IsNewer(existing.value.fetchedAt, now, atMs, q.fetchedAtMs))
  }

  function Restored(atMs: nat, q: Payload, o: HydrateOptions, t: Times): Entry
    requires q.data.Some?
  {
    BackDate(Entry(Text(q.data.value), t.set_, t.set_, StoredOptions(q, o), q.isStale),
             AgeMs(atMs, q.fetchedAtMs), t.restore)
  }

  function Lookup(c: Cache, k: string): Option<Entry> {
    if k in c then Some(c[k]) else None
  }

  function HydrateOne(c: Cache, atMs: nat, q: Payload, o: HydrateOptions, t: Times): Cache {
    if PayloadWins(Lookup(c, q.hash), atMs, q, o, t.check)
    then c[q.hash := Restored(atMs, q, o, t)]
    else c
  }

  /** Readings `3i`, `3i + 1` and `3i + 2` of the clock belong to payload `i`. */
  function TimesAt(clock: nat -> nat, i: nat): Times {
    Times(clock(3 * i), clock(3 * i + 1), clock(3 * i + 2))
  }

  ghost predicate Monotone(clock: nat -> nat) {
    forall i: nat, j: nat :: i <= j ==> clock(i) <= clock(j)
  }

  function HydrateAll(c: Cache, atMs: nat, qs: seq<Payload>, o: HydrateOptions, clock: nat -> nat): Cache {
    if qs == [] then c
    else
      var n := |qs| - 1;
      HydrateOne(HydrateAll(c, atMs, qs[..n], o, clock), atMs, qs[n], o, TimesAt(clock, n))
  }

  /** `hydrate_query` with its writes in order: look up by hash, write under the
      rebuilt key, restore under the hash again. */
  method HydrateQuery(client: QueryClient, atMs: nat, q: Payload, o: HydrateOptions, t: Times)
    modifies client
    ensures client.cache == HydrateOne(old(client.cache), atMs, q, o, t)
    ensures client.inFlight == old(client.inFlight)
  {
    if o.shouldHydrate.Some? && !o.shouldHydrate.value(q.hash) { return; }
    if q.data.None? { return; }
    var key := KeyFromPayload(q.hash, q.segments);
    var wins := true;
    if q.hash in client.cache {
      wins := o.shouldOverwrite && IsNewer(client.cache[q.hash].fetchedAt, t.check, atMs, q.fetchedAtMs);
    }
    if !wins { return; }
    client.SetQueryData(key, Text(q.data.value), StoredOptions(q, o), t.set_);
    RestoreStaleness(client, q, AgeMs(atMs, q.fetchedAtMs), t.restore);
  }

  method RestoreStaleness(client: QueryClient, q: Payload, ageMs: nat, now: nat)
    modifies client
    ensures client.inFlight == old(client.inFlight)
    ensures client.cache ==
      if q.hash in old(client.cache)
      then old(client.cache)[q.hash := BackDate(old(client.cache)[q.hash].(isStale := q.isStale), ageMs, now)]
      else old(client.cache)
  {
    if q.hash in client.cache {
      var e := client.cache[q.hash].(isStale := q.isStale);
      if ageMs > 0 && ageMs * MS <= now {
        e := e.(fetchedAt := now - ageMs * MS);
      }
      client.cache := client.cache[q.hash := e];
    }
  }

  method HydrateState(client: QueryClient, st: Dehydrated, o: HydrateOptions, clock: nat -> nat)
    modifies client
    ensures client.cache == HydrateAll(old(client.cache), st.atMs, st.queries, o, clock)
    ensures client.inFlight == old(client.inFlight)
  {
    var i := 0;
    while i < |st.queries|
      invariant 0 <= i <= |st.queries|
      invariant client.cache == HydrateAll(old(client.cache), st.atMs, st.queries[..i], o, clock)
      invariant client.inFlight == old(client.inFlight)
    {
      HydrateQuery(client, st.atMs, st.queries[i], o, TimesAt(clock, i));
      assert st.queries[..i + 1][..i] == st.queries[..i];
      i := i + 1;
    }
    assert st.queries[..i] == st.queries;
  }

  // ----- who wins, and what is stored -----

  /** Hydrating one payload, for any options. A refused hash, a payload without
      data, and an existing entry that may not be overwritten or is no older than
      the payload was leave the cache alone. Otherwise the payload's data and flag
      are stored under its hash, with the given options but for the payload's stale
      and gc times and meta, fetched its age before the last reading if the clock
      reaches that far back. */
  lemma HydrateExactly(c: Cache, atMs: nat, q: Payload, o: HydrateOptions, t: Times)
    ensures var age := match q.fetchedAtMs case Some(f) => (if atMs >= f then atMs - f else 0) case None => U64_MAX;
      var base := if o.defaultOptions.Some? then o.defaultOptions.value else DEFAULTS;
      var r := HydrateOne(c, atMs, q, o, t);
      if (o.shouldHydrate.Some? && !o.shouldHydrate.value(q.hash)) || q.data.None?
         || (q.hash in c && (!o.shouldOverwrite || t.check - c[q.hash].fetchedAt <= age * MS))
      then r == c
      else r == c[q.hash := Entry(
        Text(q.data.value),
        if 0 < age && age * MS <= t.restore then t.restore - age * MS else t.set_,
        t.set_,
        base.(staleTime := q.staleTimeMs * MS, gcTime := q.gcTimeMs * MS, meta := q.meta),
        q.isStale)]
  {
  }

  // ----- hydration never goes back in time -----

  /** Hydrating a payload never moves an existing entry's fetch time back. */
  lemma HydrateIsMonotone(c: Cache, atMs: nat, q: Payload, o: HydrateOptions, t: Times, k: string)
    requires t.Ordered() && k in c
    ensures k in HydrateOne(c, atMs, q, o, t)
    ensures HydrateOne(c, atMs, q, o, t)[k].fetchedAt >= c[k].fetchedAt
    ensures HydrateOne(c, atMs, q, o, t)[k] != c[k] ==>
      HydrateOne(c, atMs, q, o, t)[k].fetchedAt > c[k].fetchedAt
  {
  }

  lemma {:induction false} HydrateAllIsMonotone(c: Cache, atMs: nat, qs: seq<Payload>, o: HydrateOptions, clock: nat -> nat, k: string)
    requires Monotone(clock) && k in c
    ensures k in HydrateAll(c, atMs, qs, o, clock)
    ensures HydrateAll(c, atMs, qs, o, clock)[k].fetchedAt >= c[k].fetchedAt
  {
    if qs != [] {
      var n := |qs| - 1;
      HydrateAllIsMonotone(c, atMs, qs[..n], o, clock, k);
      HydrateIsMonotone(HydrateAll(c, atMs, qs[..n], o, clock), atMs, qs[n], o, TimesAt(clock, n), k);
    }
  }

  // ----- the freshness bound -----

  /** Fetched before it was read, less than the wall time ago. */
  predicate AgeKnown(e: Entry, now: nat, wallMs: nat) {
    e.fetchedAt <= now && (now - e.fetchedAt) / MS <= wallMs && (now - e.fetchedAt) / MS <= U64_MAX
  }

  /** What survives of an age: whole milliseconds, at most the wall time. */
  lemma CapturedAge(e: Entry, k: string, t1: nat, wallMs: nat)
    ensures AgeMs(wallMs, DehydrateEntry(k, e, t1, wallMs).fetchedAtMs) ==
      (var age := WholeMs(Elapsed(e.fetchedAt, t1)); if age <= wallMs then age else wallMs)
  {
  }

  /** Data fetched at `tp`, captured at `t1` and offered at `t2` against local
      data fetched at `tl` wins exactly when the local data is older at `t2`
      than the payload's whole-millisecond age. With the age within wall time
      it can only win if it would have been newer after adding the transit and
      one millisecond. */
  lemma FreshnessBound(payload: Entry, k: string, t1: nat, wallMs: nat, local: Entry, t2: nat)
    requires AgeKnown(payload, t1, wallMs) && t1 <= t2 && local.fetchedAt <= t2
    ensures var q := DehydrateEntry(k, payload, t1, wallMs);
      && (IsNewer(local.fetchedAt, t2, wallMs, q.fetchedAtMs) <==>
          t2 - local.fetchedAt > (t1 - payload.fetchedAt) / MS * MS)
      && (IsNewer(local.fetchedAt, t2, wallMs, q.fetchedAtMs) ==>
          payload.fetchedAt + (t2 - t1) + MS > local.fetchedAt)
  {
    CapturedAge(payload, k, t1, wallMs);
  }

  /** A payload without a fetch time never replaces an entry, on any clock that
      has run less than 2^64 milliseconds. */
  lemma UndatedNeverOverwrites(c: Cache, atMs: nat, q: Payload, o: HydrateOptions, t: Times)
    requires q.fetchedAtMs.None? && q.hash in c && t.check <= U64_MAX * MS
    ensures HydrateOne(c, atMs, q, o, t) == c
  {
  }

  /** With a wall clock before the epoch every payload counts as just fetched
      and replaces local data that is really newer. */
  lemma EarlyWallClockForgetsAge()
    ensures
      var old_ := Entry(Text("old"), 0, 0, DEFAULTS, false);
      var new_ := Entry(Text("new"), 9 * MS, 9 * MS, DEFAULTS, false);
      var q := DehydrateEntry("k", old_, 10 * MS, 0);
      HydrateOne(map["k" := new_], 0, q, HYDRATE_DEFAULTS, Times(10 * MS, 10 * MS, 10 * MS))["k"].data == Text("old")
  {
    var old_ := Entry(Text("old"), 0, 0, DEFAULTS, false);
    CapturedAge(old_, "k", 10 * MS, 0);
  }

  // ----- one payload, one key -----

  /** A payload only touches its own hash. */
  lemma {:induction false} OthersUntouched(c: Cache, atMs: nat, qs: seq<Payload>, o: HydrateOptions, clock: nat -> nat, k: string)
    requires !HasHash(qs, k)
    ensures Lookup(HydrateAll(c, atMs, qs, o, clock), k) == Lookup(c, k)
  {
    if qs != [] {
      var n := |qs| - 1;
      assert qs[n].hash != k;
      forall j | 0 <= j < n
        ensures qs[..n][j].hash != k
      {
        assert qs[..n][j] == qs[j];
      }
      OthersUntouched(c, atMs, qs[..n], o, clock, k);
    }
  }

  /** With distinct hashes each payload meets the entry that was there before
      the whole pass. */
  lemma {:induction false} EachPayloadAlone(c: Cache, atMs: nat, qs: seq<Payload>, o: HydrateOptions, clock: nat -> nat, j: nat)
    requires DistinctHashes(qs) && j < |qs|
    ensures Lookup(HydrateAll(c, atMs, qs, o, clock), qs[j].hash) ==
      Lookup(HydrateOne(c, atMs, qs[j], o, TimesAt(clock, j)), qs[j].hash)
  {
    var n := |qs| - 1;
    var before := HydrateAll(c, atMs, qs[..n], o, clock);
    if j < n {
      EachPayloadAlone(c, atMs, qs[..n], o, clock, j);
      assert qs[..n][j] == qs[j];
    } else {
      OthersUntouched(c, atMs, qs[..n], o, clock, qs[n].hash);
    }
  }

  /** Within one instant the order of the payloads does not matter. */
  lemma OrderDoesNotMatter(c: Cache, atMs: nat, qs: seq<Payload>, rs: seq<Payload>, o: HydrateOptions, now: nat)
    requires DistinctHashes(qs) && DistinctHashes(rs)
    requires forall q :: q in qs <==> q in rs
    ensures HydrateAll(c, atMs, qs, o, (i: nat) => now) == HydrateAll(c, atMs, rs, o, (i: nat) => now)
  {
    var clock := (i: nat) => now;
    var a, b := HydrateAll(c, atMs, qs, o, clock), HydrateAll(c, atMs, rs, o, clock);
    forall k: string
      ensures Lookup(a, k) == Lookup(b, k)
    {
      if HasHash(qs, k) {
        var i :| 0 <= i < |qs| && qs[i].hash == k;
        assert qs[i] in rs;
        var j :| 0 <= j < |rs| && rs[j] == qs[i];
        EachPayloadAlone(c, atMs, qs, o, clock, i);
        EachPayloadAlone(c, atMs, rs, o, clock, j);
      } else {
        NoHash(qs, rs, k);
        OthersUntouched(c, atMs, qs, o, clock, k);
        OthersUntouched(c, atMs, rs, o, clock, k);
      }
    }
    assert a == b by { SameLookups(a, b); }
  }

  /** The clock's origin is within reach of `ageMs` at every reading of the pass
      or at none, or the pass is as long as the age itself. */
  predicate AgeFitsPass(ageMs: nat, first: nat, last: nat)
    requires first <= last
  {
    ageMs * MS <= first || last < ageMs * MS || ageMs * MS <= last - first + 1
  }

  /** Readings taken between `first` and `last`. */
  ghost predicate InPass(t: Times, first: nat, last: nat) {
    t.Ordered() && first <= t.check && t.restore <= last
  }

  /** Both absent, or the same entry but for its times. */
  ghost predicate SameButTimes(a: Option<Entry>, b: Option<Entry>) {
    && a.Some? == b.Some?
    && (a.Some? ==>
        && a.value.data == b.value.data && a.value.isStale == b.value.isStale
        && a.value.options == b.value.options)
  }

  /** Fetch times, if any, at most `pass` apart. */
  ghost predicate Within(a: Option<Entry>, b: Option<Entry>, pass: nat) {
    a.Some? && b.Some? ==>
      a.value.fetchedAt <= b.value.fetchedAt + pass && b.value.fetchedAt <= a.value.fetchedAt + pass
  }

  function HydratedAt(atMs: nat, q: Payload, o: HydrateOptions, t: Times): Option<Entry> {
    Lookup(HydrateOne(map[], atMs, q, o, t), q.hash)
  }

  lemma HydratedAtTwoTimes(atMs: nat, q: Payload, o: HydrateOptions, t: Times, u: Times, first: nat, last: nat)
    requires first <= last && InPass(t, first, last) && InPass(u, first, last)
    ensures var a, b := HydratedAt(atMs, q, o, t), HydratedAt(atMs, q, o, u);
      && SameButTimes(a, b)
      && (AgeFitsPass(AgeMs(atMs, q.fetchedAtMs), first, last) ==> Within(a, b, last - first))
  {
  }

  /** A restored payload's fetch time varies by at most the duration of the pass,
      wherever in the pass its readings fall, exactly when its age fits. */
  lemma TimesWithinPassIff(atMs: nat, q: Payload, o: HydrateOptions, first: nat, last: nat)
    requires first <= last && PayloadWins(None, atMs, q, o, first)
    ensures (forall t, u :: InPass(t, first, last) && InPass(u, first, last) ==>
               Within(HydratedAt(atMs, q, o, t), HydratedAt(atMs, q, o, u), last - first))
      <==> AgeFitsPass(AgeMs(atMs, q.fetchedAtMs), first, last)
  {
    var age := AgeMs(atMs, q.fetchedAtMs);
    if AgeFitsPass(age, first, last) {
      forall t, u | InPass(t, first, last) && InPass(u, first, last)
        ensures Within(HydratedAt(atMs, q, o, t), HydratedAt(atMs, q, o, u), last - first)
      {
        HydratedAtTwoTimes(atMs, q, o, t, u, first, last);
      }
    } else {
      var x := age * MS;
      var t, u := Times(x - 1, x - 1, x - 1), Times(x, x, x);
      assert InPass(t, first, last) && InPass(u, first, last);
      assert HydratedAt(atMs, q, o, t).value.fetchedAt == x - 1;
      assert HydratedAt(atMs, q, o, u).value.fetchedAt == 0;
      assert !Within(HydratedAt(atMs, q, o, t), HydratedAt(atMs, q, o, u), last - first);
    }
  }

  /** On a running clock the order of the payloads decides only times: hydrated
      into an empty client they give the same keys, data, flags and options. */
  lemma OrderDecidesOnlyTimes(
      atMs: nat, qs: seq<Payload>, rs: seq<Payload>, o: HydrateOptions, clock: nat -> nat, k: string)
    requires DistinctHashes(qs) && DistinctHashes(rs) && Monotone(clock)
    requires |qs| == |rs| && forall q :: q in qs <==> q in rs
    ensures SameButTimes(Lookup(HydrateAll(map[], atMs, qs, o, clock), k), Lookup(HydrateAll(map[], atMs, rs, o, clock), k))
  {
    if HasHash(qs, k) {
      var i :| 0 <= i < |qs| && qs[i].hash == k;
      OrderMovesTimesWithinPass(atMs, qs, rs, o, clock, i);
    } else {
      NoHash(qs, rs, k);
      OthersUntouched(map[], atMs, qs, o, clock, k);
      OthersUntouched(map[], atMs, rs, o, clock, k);
    }
  }

  /** And the fetch times are apart by at most the duration of the pass, for
      every payload whose age fits it. */
  lemma OrderMovesTimesWithinPass(
      atMs: nat, qs: seq<Payload>, rs: seq<Payload>, o: HydrateOptions, clock: nat -> nat, i: nat)
    requires DistinctHashes(qs) && DistinctHashes(rs) && Monotone(clock)
    requires |qs| == |rs| && i < |qs| && forall q :: q in qs <==> q in rs
    ensures clock(0) <= clock(3 * |qs|)
    ensures var k := qs[i].hash;
      var a, b := Lookup(HydrateAll(map[], atMs, qs, o, clock), k), Lookup(HydrateAll(map[], atMs, rs, o, clock), k);
      && SameButTimes(a, b)
      && (AgeFitsPass(AgeMs(atMs, qs[i].fetchedAtMs), clock(0), clock(3 * |qs|)) ==>
          Within(a, b, clock(3 * |qs|) - clock(0)))
  {
    assert qs[i] in rs;
    var j :| 0 <= j < |rs| && rs[j] == qs[i];
    EachPayloadAlone(map[], atMs, qs, o, clock, i);
    EachPayloadAlone(map[], atMs, rs, o, clock, j);
    PassReadings(clock, |qs|, i);
    PassReadings(clock, |qs|, j);
    HydratedAtTwoTimes(atMs, qs[i], o, TimesAt(clock, i), TimesAt(clock, j), clock(0), clock(3 * |qs|));
  }

  lemma PassReadings(clock: nat -> nat, n: nat, i: nat)
    requires Monotone(clock) && i < n
    ensures var t := TimesAt(clock, i); t.Ordered() && clock(0) <= t.check && t.restore <= clock(3 * n)
  {
    assert clock(0) <= clock(3 * i) <= clock(3 * i + 1) <= clock(3 * i + 2) <= clock(3 * n);
  }

  lemma SameLookups(a: Cache, b: Cache)
    requires forall k: string :: Lookup(a, k) == Lookup(b, k)
    ensures a == b
  {
    forall k: string
      ensures (k in a <==> k in b) && (k in a ==> a[k] == b[k])
    {
      assert Lookup(a, k) == Lookup(b, k);
    }
  }

  // ----- the round trip -----

  /** An entry after the trip: same data, flag and meta, stale and gc times cut
      to whole milliseconds, and an age that lost at most the transit time and
      less than a millisecond. */
  ghost predicate SameEntry(e: Entry, r: Entry, transit: nat) {
    && r.data == e.data && r.isStale == e.isStale
    && r.options == DEFAULTS.(staleTime := WholeMs(e.options.staleTime) * MS,
                              gcTime := WholeMs(e.options.gcTime) * MS,
                              meta := e.options.meta)
    && e.fetchedAt <= r.fetchedAt < e.fetchedAt + transit + MS
  }

  lemma EntryRoundTrip(e: Entry, k: string, t1: nat, wallMs: nat, t: Times)
    requires e.data.Text? && AgeKnown(e, t1, wallMs) && t1 <= t.check && t.Ordered()
    ensures var q := DehydrateEntry(k, e, t1, wallMs);
      && PayloadWins(None, wallMs, q, HYDRATE_DEFAULTS, t.check)
      && SameEntry(e, Restored(wallMs, q, HYDRATE_DEFAULTS, t), t.restore - t1)
  {
    CapturedAge(e, k, t1, wallMs);
  }

  ghost predicate AgesKnown(c: Cache, at: map<string, nat>, wallMs: nat)
    requires ReadsAll(c, at)
  {
    forall k :: k in c ==> AgeKnown(c[k], at[k], wallMs)
  }

  /** Hydrating a dehydrated cache into an empty client restores exactly the
      text entries that the filter kept, each the same up to milliseconds and the
      transit from its own reading; `clock` is read once more when the pass is
      over. */
  lemma RoundTrip(
      c: Cache, keep: Payload -> bool, at: map<string, nat>, wallMs: nat, st: Dehydrated, clock: nat -> nat)
    requires Captures(c, keep, at, wallMs, st) && AgesKnown(c, at, wallMs)
    requires Monotone(clock) && forall k :: k in c ==> at[k] <= clock(0)
    ensures var r := HydrateAll(map[], st.atMs, st.queries, HYDRATE_DEFAULTS, clock);
      forall k: string ::
        && (k in r <==> k in c && c[k].data.Text? && Kept(c, keep, at, wallMs, k))
        && (k in r ==> SameEntry(c[k], r[k], Elapsed(at[k], clock(3 * |st.queries|))))
  {
    var r := HydrateAll(map[], st.atMs, st.queries, HYDRATE_DEFAULTS, clock);
    forall k: string
      ensures k in r <==> k in c && c[k].data.Text? && Kept(c, keep, at, wallMs, k)
      ensures k in r ==> SameEntry(c[k], r[k], Elapsed(at[k], clock(3 * |st.queries|)))
    {
      if HasHash(st.queries, k) {
        var i :| 0 <= i < |st.queries| && st.queries[i].hash == k;
        assert Captured(c, keep, at, wallMs, st.queries[i]);
        PayloadRoundTrip(c, keep, at, wallMs, st, clock, i);
      } else {
        OthersUntouched(map[], st.atMs, st.queries, HYDRATE_DEFAULTS, clock, k);
        assert Lookup(r, k) == None;
      }
    }
  }

  lemma PayloadRoundTrip(
      c: Cache, keep: Payload -> bool, at: map<string, nat>, wallMs: nat, st: Dehydrated, clock: nat -> nat, i: nat)
    requires Captures(c, keep, at, wallMs, st) && AgesKnown(c, at, wallMs)
    requires Monotone(clock) && i < |st.queries|
    requires st.queries[i].hash in c && at[st.queries[i].hash] <= clock(0)
    ensures var k := st.queries[i].hash;
      var r := Lookup(HydrateAll(map[], st.atMs, st.queries, HYDRATE_DEFAULTS, clock), k);
      && (r.Some? <==> c[k].data.Text?)
      && (r.Some? ==> SameEntry(c[k], r.value, Elapsed(at[k], clock(3 * |st.queries|))))
  {
    var q := st.queries[i];
    assert Captured(c, keep, at, wallMs, q) && AgeKnown(c[q.hash], at[q.hash], wallMs);
    SortedIsDistinct(st.queries);
    EachPayloadAlone(map[], st.atMs, st.queries, HYDRATE_DEFAULTS, clock, i);
    PassReadings(clock, |st.queries|, i);
    if c[q.hash].data.Text? {
      EntryRoundTrip(c[q.hash], q.hash, at[q.hash], wallMs, TimesAt(clock, i));
    }
  }
}
