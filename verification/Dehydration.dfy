/**
  Dehydration of src/hydration.rs: a snapshot of the cache as payloads sorted by
  hash. A payload carries the age of its data, as a wall-clock fetch time
  relative to a wall-clock capture time. The wall clock is read once, before the
  walk; the monotonic clock, in nanoseconds here, once per entry during it.
 */
module Dehydration {
  import opened Wrappers
  import opened KeyCodec
  import opened QueryCaches

  const MS: nat := 1_000_000

  datatype Payload = Payload(
    hash: string,
    segments: seq<string>,
    data: Option<string>,
    fetchedAtMs: Option<nat>,
    isStale: bool,
    staleTimeMs: nat,
    gcTimeMs: nat,
    meta: map<string, string>)

  datatype Dehydrated = Dehydrated(atMs: nat, queries: seq<Payload>)

  /** `Duration::as_millis` squeezed into 64 bits. */
  function WholeMs(ns: nat): (ms: nat)
    ensures ms <= U64_MAX
    ensures ns / MS <= U64_MAX ==> ms * MS <= ns < (ms + 1) * MS
  {
    if ns / MS <= U64_MAX then ns / MS else U64_MAX
  }

  function SaturatingSub(a: nat, b: nat): nat {
    if a >= b then a - b else 0
  }

  /** The wall-clock fetch time written for an entry read at `now`. */
  function Stamp(e: Entry, now: nat, wallMs: nat): nat {
    SaturatingSub(wallMs, WholeMs(Elapsed(e.fetchedAt, now)))
  }

  function DehydrateEntry(cacheKey: string, e: Entry, now: nat, wallMs: nat): Payload {
    Payload(
      cacheKey,
      Split(cacheKey),
      if e.data.Text? then Some(e.data.text) else None,
      Some(Stamp(e, now, wallMs)),
      e.isStale,
      WholeMs(e.options.staleTime),
      WholeMs(e.options.gcTime),
      e.options.meta)
  }

  /** Code point order of strings, which is the byte order of their UTF-8. */
  predicate Precedes(a: string, b: string) {
    b != "" && (a == "" || a[0] < b[0] || (a[0] == b[0] && Precedes(a[1..], b[1..])))
  }

  ghost predicate SortedByHash(qs: seq<Payload>) {
    forall i, j :: 0 <= i < j < |qs| ==> Precedes(qs[i].hash, qs[j].hash)
  }

  /** `default_should_dehydrate_query`. */
  predicate HasData(q: Payload) { q.data.Some? }

  /** A time for each entry of the cache. */
  ghost predicate ReadsAll(c: Cache, at: map<string, nat>) {
    c.Keys <= at.Keys
  }

  ghost predicate ReadWithin(c: Cache, at: map<string, nat>, first: nat, last: nat) {
    ReadsAll(c, at) && forall k :: k in c ==> first <= at[k] <= last
  }

  /** `st` is a dehydration of `c` with entry `k` read at time `at[k]`: one
      payload per entry that the filter keeps, sorted by hash. */
  ghost predicate Captures(c: Cache, keep: Payload -> bool, at: map<string, nat>, wallMs: nat, st: Dehydrated) {
    && ReadsAll(c, at) && st.atMs == wallMs
    && (forall j :: 0 <= j < |st.queries| ==> Captured(c, keep, at, wallMs, st.queries[j]))
    && SortedByHash(st.queries)
    && (forall k :: Kept(c, keep, at, wallMs, k) ==> HasHash(st.queries, k))
  }

  ghost predicate Kept(c: Cache, keep: Payload -> bool, at: map<string, nat>, wallMs: nat, k: string)
    requires ReadsAll(c, at)
  {
    k in c && keep(DehydrateEntry(k, c[k], at[k], wallMs))
  }

  /** The payload of an entry that the filter keeps. */
  ghost predicate Captured(c: Cache, keep: Payload -> bool, at: map<string, nat>, wallMs: nat, q: Payload)
    requires ReadsAll(c, at)
  {
    Kept(c, keep, at, wallMs, q.hash) && q == DehydrateEntry(q.hash, c[q.hash], at[q.hash], wallMs)
  }

  ghost predicate DistinctHashes(qs: seq<Payload>) {
    forall i, j :: 0 <= i < j < |qs| ==> qs[i].hash != qs[j].hash
  }

  ghost predicate HasHash(qs: seq<Payload>, hash: string) {
    exists j :: 0 <= j < |qs| && qs[j].hash == hash
  }

  /** Every time is one of the clock's first `n` readings. */
  ghost predicate ReadBy(clock: nat -> nat, n: nat, at: map<string, nat>) {
    forall k :: k in at ==> exists i: nat :: i < n && at[k] == clock(i)
  }

  /** Map and filter over the cache in any order, then sort; `clock(i)` is the
      reading for the `i`th entry walked, and `at` tells which entry got which. */
  method DehydrateState(c: Cache, keep: Payload -> bool, clock: nat -> nat, wallMs: nat)
    returns (st: Dehydrated, at: map<string, nat>)
    ensures at.Keys == c.Keys && ReadBy(clock, |c|, at)
    ensures Captures(c, keep, at, wallMs, st)
  {
    var queries: seq<Payload> := [];
    var todo, i := c.Keys, 0;
    at := map[];
    while todo != {}
      invariant todo <= c.Keys && i + |todo| == |c.Keys| && at.Keys == c.Keys - todo
      invariant ReadBy(clock, i, at) && WalkedSoFar(c, keep, at, wallMs, queries)
      decreases todo
    {
      var k :| k in todo;
      var q := DehydrateEntry(k, c[k], clock(i), wallMs);
      WalkStep(c, keep, at, wallMs, queries, k, clock(i));
      ReadOneMore(clock, i, at, k);
      at := at[k := clock(i)];
      todo, i := todo - {k}, i + 1;
      if keep(q) { queries := queries + [q]; }
    }
    var sorted := SortByHash(queries);
    st := Dehydrated(wallMs, sorted);
    WalkDone(c, keep, at, queries, st);
  }

  lemma ReadOneMore(clock: nat -> nat, n: nat, at: map<string, nat>, k: string)
    requires ReadBy(clock, n, at)
    ensures ReadBy(clock, n + 1, at[k := clock(n)])
  {
  }

  /** A payload of an entry walked so far. */
  ghost predicate Walked(c: Cache, keep: Payload -> bool, at: map<string, nat>, wallMs: nat, q: Payload) {
    q.hash in c && q.hash in at && keep(q) && q == DehydrateEntry(q.hash, c[q.hash], at[q.hash], wallMs)
  }

  /** The payloads of the entries read so far that the filter keeps. */
  ghost predicate WalkedSoFar(c: Cache, keep: Payload -> bool, at: map<string, nat>, wallMs: nat, qs: seq<Payload>) {
    && at.Keys <= c.Keys && DistinctHashes(qs)
    && (forall j :: 0 <= j < |qs| ==> Walked(c, keep, at, wallMs, qs[j]))
    && (forall k :: Due(c, keep, at, wallMs, k) ==> HasHash(qs, k))
  }

  ghost predicate Due(c: Cache, keep: Payload -> bool, at: map<string, nat>, wallMs: nat, k: string) {
    k in at && k in c && keep(DehydrateEntry(k, c[k], at[k], wallMs))
  }

  lemma WalkStep(
      c: Cache, keep: Payload -> bool, at: map<string, nat>, wallMs: nat, qs: seq<Payload>, k: string, now: nat)
    requires WalkedSoFar(c, keep, at, wallMs, qs) && k in c && k !in at
    ensures var q := DehydrateEntry(k, c[k], now, wallMs);
      WalkedSoFar(c, keep, at[k := now], wallMs, if keep(q) then qs + [q] else qs)
  {
    var q := DehydrateEntry(k, c[k], now, wallMs);
    var bt, rs := at[k := now], if keep(q) then qs + [q] else qs;
    HasHashGrows(qs, q);
    forall j | 0 <= j < |rs|
      ensures Walked(c, keep, bt, wallMs, rs[j]) && (j < |qs| ==> rs[j].hash != k)
    {
      if j < |qs| { assert Walked(c, keep, at, wallMs, qs[j]); }
    }
    forall x | Due(c, keep, bt, wallMs, x)
      ensures HasHash(rs, x)
    {
      if x != k { assert Due(c, keep, at, wallMs, x); }
    }
  }

  lemma WalkDone(c: Cache, keep: Payload -> bool, at: map<string, nat>, qs: seq<Payload>, st: Dehydrated)
    requires WalkedSoFar(c, keep, at, st.atMs, qs) && at.Keys == c.Keys
    requires SortedByHash(st.queries) && forall q :: q in st.queries <==> q in qs
    ensures Captures(c, keep, at, st.atMs, st)
  {
    SamePayloads(qs, st.queries);
    forall j | 0 <= j < |st.queries|
      ensures Captured(c, keep, at, st.atMs, st.queries[j])
    {
      assert st.queries[j] in qs;
    }
    forall k | Kept(c, keep, at, st.atMs, k)
      ensures HasHash(st.queries, k)
    {
      assert Due(c, keep, at, st.atMs, k);
    }
  }

  lemma HasHashGrows(qs: seq<Payload>, q: Payload)
    ensures forall k :: HasHash(qs + [q], k) <==> HasHash(qs, k) || k == q.hash
  {
    forall k: string
      ensures HasHash(qs + [q], k) <==> HasHash(qs, k) || k == q.hash
    {
      if HasHash(qs, k) {
        var j :| 0 <= j < |qs| && qs[j].hash == k;
        assert (qs + [q])[j].hash == k;
      }
      assert (qs + [q])[|qs|] == q;
    }
  }

  /** The same payloads in another order. */
  lemma SamePayloads(qs: seq<Payload>, rs: seq<Payload>)
    requires forall q :: q in qs <==> q in rs
    ensures forall k :: HasHash(qs, k) <==> HasHash(rs, k)
    ensures forall j :: 0 <= j < |rs| ==> rs[j] in qs
  {
    forall k: string
      ensures HasHash(qs, k) <==> HasHash(rs, k)
    {
      if !HasHash(qs, k) { NoHash(qs, rs, k); }
      if !HasHash(rs, k) { NoHash(rs, qs, k); }
    }
    assert forall j :: 0 <= j < |rs| ==> rs[j] in rs;
  }

  lemma NoHash(qs: seq<Payload>, rs: seq<Payload>, k: string)
    requires !HasHash(qs, k) && forall q :: q in qs <==> q in rs
    ensures !HasHash(rs, k)
  {
    forall j | 0 <= j < |rs|
      ensures rs[j].hash != k
    {
      assert rs[j] in rs && rs[j] in qs;
    }
  }

  /** The sort, by insertion. */
  method SortByHash(qs: seq<Payload>) returns (rs: seq<Payload>)
    requires DistinctHashes(qs)
    ensures SortedByHash(rs) && |rs| == |qs| && forall q :: q in rs <==> q in qs
  {
    rs := [];
    var i := 0;
    while i < |qs|
      invariant 0 <= i <= |qs| && |rs| == i
      invariant SortedByHash(rs)
      invariant forall q :: q in rs <==> q in qs[..i]
    {
      assert forall j :: 0 <= j < |rs| ==> rs[j] in rs;
      rs := Insert(rs, qs[i]);
      assert qs[..i + 1] == qs[..i] + [qs[i]];
      i := i + 1;
    }
    assert qs[..i] == qs;
  }

  method Insert(qs: seq<Payload>, q: Payload) returns (rs: seq<Payload>)
    requires SortedByHash(qs) && forall j :: 0 <= j < |qs| ==> qs[j].hash != q.hash
    ensures SortedByHash(rs) && |rs| == |qs| + 1 && forall p :: p in rs <==> p in qs || p == q
  {
    var i := 0;
    while i < |qs| && Precedes(qs[i].hash, q.hash)
      invariant 0 <= i <= |qs|
      invariant forall j :: 0 <= j < i ==> Precedes(qs[j].hash, q.hash)
    {
      i := i + 1;
    }
    RestFollows(qs, q, i);
    InsertedIsSorted(qs, q, i);
    rs := qs[..i] + [q] + qs[i..];
    assert qs == qs[..i] + qs[i..];
  }

  /** Everything from the first payload that `q` does not follow comes after it. */
  lemma RestFollows(qs: seq<Payload>, q: Payload, i: nat)
    requires SortedByHash(qs) && i <= |qs| && forall j :: 0 <= j < |qs| ==> qs[j].hash != q.hash
    requires i < |qs| ==> !Precedes(qs[i].hash, q.hash)
    ensures forall j :: i <= j < |qs| ==> Precedes(q.hash, qs[j].hash)
  {
    forall j | i <= j < |qs|
      ensures Precedes(q.hash, qs[j].hash)
    {
      PrecedesIsTotal(q.hash, qs[i].hash);
      if i < j { PrecedesIsTransitive(q.hash, qs[i].hash, qs[j].hash); }
    }
  }

  lemma InsertedIsSorted(qs: seq<Payload>, q: Payload, i: nat)
    requires SortedByHash(qs) && i <= |qs|
    requires forall j :: 0 <= j < i ==> Precedes(qs[j].hash, q.hash)
    requires forall j :: i <= j < |qs| ==> Precedes(q.hash, qs[j].hash)
    ensures SortedByHash(qs[..i] + [q] + qs[i..])
  {
    var rs := qs[..i] + [q] + qs[i..];
    forall a, b | 0 <= a < b < |rs|
      ensures Precedes(rs[a].hash, rs[b].hash)
    {
      assert rs[a] == (if a < i then qs[a] else if a == i then q else qs[a - 1]);
      assert rs[b] == (if b < i then qs[b] else if b == i then q else qs[b - 1]);
    }
  }

  lemma {:induction false} PrecedesIsTotal(a: string, b: string)
    ensures a == b || Precedes(a, b) || Precedes(b, a)
    ensures !(Precedes(a, b) && Precedes(b, a))
  {
    if a != "" && b != "" && a[0] == b[0] {
      PrecedesIsTotal(a[1..], b[1..]);
      assert a == [a[0]] + a[1..] && b == [b[0]] + b[1..];
    }
  }

  lemma {:induction false} PrecedesIsTransitive(a: string, b: string, c: string)
    requires Precedes(a, b) && Precedes(b, c)
    ensures Precedes(a, c)
  {
    if a != "" && a[0] == b[0] == c[0] { PrecedesIsTransitive(a[1..], b[1..], c[1..]); }
  }

  /** The order is decided at the first difference, by code point; a proper prefix
      comes first. */
  lemma {:induction false} PrecedesIff(a: string, b: string)
    ensures Precedes(a, b) <==>
      (a < b || exists i: nat :: i < |a| && i < |b| && a[..i] == b[..i] && a[i] < b[i])
  {
    if a != "" && b != "" {
      PrecedesIff(a[1..], b[1..]);
      if a[0] == b[0] {
        FirstDifference(a, b);
        assert a < b <==> a[1..] < b[1..] by {
          assert a == [a[0]] + a[1..] && b == [b[0]] + b[1..];
        }
      } else if a[0] < b[0] {
        assert a[..0] == b[..0];
      } else {
        forall i: nat | 0 < i < |a| && i < |b|
          ensures a[..i] != b[..i]
        {
          assert a[..i][0] == a[0] && b[..i][0] == b[0];
        }
      }
    }
  }

  /** The first difference of two strings that begin alike is in their tails. */
  lemma FirstDifference(a: string, b: string)
    requires a != "" && b != "" && a[0] == b[0]
    ensures (exists i: nat :: i < |a| && i < |b| && a[..i] == b[..i] && a[i] < b[i]) <==>
      (exists i: nat :: i < |a[1..]| && i < |b[1..]| && a[1..][..i] == b[1..][..i] && a[1..][i] < b[1..][i])
  {
    if i: nat :| i < |a| && i < |b| && a[..i] == b[..i] && a[i] < b[i] {
      assert i > 0;
      assert a[1..][..i - 1] == a[..i][1..] && b[1..][..i - 1] == b[..i][1..];
      assert a[1..][i - 1] == a[i] && b[1..][i - 1] == b[i];
    }
    if i: nat :| i < |a[1..]| && i < |b[1..]| && a[1..][..i] == b[1..][..i] && a[1..][i] < b[1..][i] {
      assert a[..i + 1] == [a[0]] + a[1..][..i] && b[..i + 1] == [b[0]] + b[1..][..i];
      assert a[i + 1] < b[i + 1];
    }
  }

  lemma SortedIsDistinct(qs: seq<Payload>)
    requires SortedByHash(qs)
    ensures DistinctHashes(qs)
  {
    forall i, j | 0 <= i < j < |qs|
      ensures qs[i].hash != qs[j].hash
    {
      PrecedesIsTotal(qs[i].hash, qs[j].hash);
    }
  }

  // ----- what the walking order decides -----

  ghost function Hashes(qs: seq<Payload>): seq<string> {
    seq(|qs|, i requires 0 <= i < |qs| => qs[i].hash)
  }

  ghost predicate Sorted(a: seq<string>) {
    forall i, j :: 0 <= i < j < |a| ==> Precedes(a[i], a[j])
  }

  /** A sorted list is determined by its members. */
  lemma {:induction false} SortedIsUnique(a: seq<string>, b: seq<string>)
    requires Sorted(a) && Sorted(b) && forall x :: x in a <==> x in b
    ensures a == b
  {
    assert |a| > 0 ==> a[0] in b;
    assert |b| > 0 ==> b[0] in a;
    if |a| > 0 {
      var n, m := |a| - 1, |b| - 1;
      SameLast(a, b);
      forall x: string
        ensures x in a[..n] <==> x in b[..m]
      {
        InitMember(a, x);
        InitMember(b, x);
      }
      SortedIsUnique(a[..n], b[..m]);
      assert a == a[..n] + [a[n]] && b == b[..m] + [b[m]];
    }
  }

  lemma InitMember(a: seq<string>, x: string)
    requires Sorted(a) && a != []
    ensures x in a[..|a| - 1] <==> x in a && x != a[|a| - 1]
  {
    var n := |a| - 1;
    forall i | 0 <= i < n
      ensures a[i] != a[n]
    {
      PrecedesIsTotal(a[i], a[n]);
    }
    assert a == a[..n] + [a[n]];
  }

  lemma SameLast(a: seq<string>, b: seq<string>)
    requires Sorted(a) && Sorted(b) && a != [] && b != [] && forall x :: x in a <==> x in b
    ensures a[|a| - 1] == b[|b| - 1]
  {
    var n, m := |a| - 1, |b| - 1;
    assert a[n] in b && b[m] in a;
    var i :| 0 <= i < |b| && b[i] == a[n];
    var j :| 0 <= j < |a| && a[j] == b[m];
    PrecedesIsTotal(a[n], b[m]);
  }

  /** The filter does not look at the fetch time, as the default one does not. */
  ghost predicate IgnoresStamp(keep: Payload -> bool) {
    forall q: Payload, f: Option<nat> :: keep(q.(fetchedAtMs := f)) == keep(q)
  }

  lemma KeptEitherWay(
      c: Cache, keep: Payload -> bool, at: map<string, nat>, bt: map<string, nat>, wallMs: nat, k: string)
    requires ReadsAll(c, at) && ReadsAll(c, bt) && IgnoresStamp(keep)
    ensures Kept(c, keep, at, wallMs, k) <==> Kept(c, keep, bt, wallMs, k)
  {
    if k in c {
      var p, q := DehydrateEntry(k, c[k], at[k], wallMs), DehydrateEntry(k, c[k], bt[k], wallMs);
      assert q == p.(fetchedAtMs := q.fetchedAtMs);
    }
  }

  /** A captured snapshot has exactly the hashes of the kept entries. */
  lemma HashesAreKept(c: Cache, keep: Payload -> bool, at: map<string, nat>, wallMs: nat, st: Dehydrated, k: string)
    requires Captures(c, keep, at, wallMs, st)
    ensures k in Hashes(st.queries) <==> Kept(c, keep, at, wallMs, k)
  {
    if k in Hashes(st.queries) {
      var j :| 0 <= j < |st.queries| && st.queries[j].hash == k;
      assert Captured(c, keep, at, wallMs, st.queries[j]);
    }
    if Kept(c, keep, at, wallMs, k) {
      assert HasHash(st.queries, k);
      var j :| 0 <= j < |st.queries| && st.queries[j].hash == k;
      assert Hashes(st.queries)[j] == k;
    }
  }

  /** With the default filter a snapshot has a payload for exactly the text
      entries, and a payload's segments are those of its hash. */
  lemma DefaultSnapshot(c: Cache, at: map<string, nat>, wallMs: nat, st: Dehydrated, k: string)
    requires Captures(c, HasData, at, wallMs, st)
    ensures k in Hashes(st.queries) <==> k in c && c[k].data.Text?
    ensures forall j :: 0 <= j < |st.queries| ==>
      st.queries[j].segments == Split(st.queries[j].hash) && Join(st.queries[j].segments) == st.queries[j].hash
  {
    HashesAreKept(c, HasData, at, wallMs, st, k);
    forall j | 0 <= j < |st.queries|
      ensures st.queries[j].segments == Split(st.queries[j].hash)
      ensures Join(st.queries[j].segments) == st.queries[j].hash
    {
      assert Captured(c, HasData, at, wallMs, st.queries[j]);
      JoinSplit(st.queries[j].hash);
    }
  }

  /** Two snapshots of one cache, however it was walked, hold the same entries in
      the same order and differ in nothing but fetch times. */
  lemma SnapshotsDifferInStamps(
      c: Cache, keep: Payload -> bool, at: map<string, nat>, bt: map<string, nat>, wallMs: nat,
      a: Dehydrated, b: Dehydrated)
    requires Captures(c, keep, at, wallMs, a) && Captures(c, keep, bt, wallMs, b) && IgnoresStamp(keep)
    ensures a.atMs == b.atMs && |a.queries| == |b.queries|
    ensures forall i :: 0 <= i < |a.queries| ==>
      && a.queries[i].hash == b.queries[i].hash
      && a.queries[i] == b.queries[i].(fetchedAtMs := a.queries[i].fetchedAtMs)
  {
    forall k: string
      ensures k in Hashes(a.queries) <==> k in Hashes(b.queries)
    {
      HashesAreKept(c, keep, at, wallMs, a, k);
      HashesAreKept(c, keep, bt, wallMs, b, k);
      KeptEitherWay(c, keep, at, bt, wallMs, k);
    }
    SortedIsUnique(Hashes(a.queries), Hashes(b.queries));
    assert |Hashes(a.queries)| == |a.queries| && |Hashes(b.queries)| == |b.queries|;
    forall i | 0 <= i < |a.queries|
      ensures a.queries[i].hash == b.queries[i].hash
      ensures a.queries[i] == b.queries[i].(fetchedAtMs := a.queries[i].fetchedAtMs)
    {
      assert Hashes(a.queries)[i] == Hashes(b.queries)[i];
      assert Captured(c, keep, at, wallMs, a.queries[i]) && Captured(c, keep, bt, wallMs, b.queries[i]);
    }
  }

  /** They are equal exactly when the readings stamp every kept entry alike. */
  lemma SnapshotsEqualIff(
      c: Cache, keep: Payload -> bool, at: map<string, nat>, bt: map<string, nat>, wallMs: nat,
      a: Dehydrated, b: Dehydrated)
    requires Captures(c, keep, at, wallMs, a) && Captures(c, keep, bt, wallMs, b) && IgnoresStamp(keep)
    ensures a == b <==> forall k :: Kept(c, keep, at, wallMs, k) ==> Stamp(c[k], at[k], wallMs) == Stamp(c[k], bt[k], wallMs)
  {
    SnapshotsDifferInStamps(c, keep, at, bt, wallMs, a, b);
    forall i | 0 <= i < |a.queries|
      ensures Captured(c, keep, at, wallMs, a.queries[i]) && Captured(c, keep, bt, wallMs, b.queries[i])
    {
    }
    if a == b {
      forall k | Kept(c, keep, at, wallMs, k)
        ensures Stamp(c[k], at[k], wallMs) == Stamp(c[k], bt[k], wallMs)
      {
        assert HasHash(a.queries, k);
      }
    }
  }

  lemma StampFalls(e: Entry, t: nat, u: nat, wallMs: nat)
    requires t <= u
    ensures Stamp(e, u, wallMs) <= Stamp(e, t, wallMs) <= Stamp(e, u, wallMs) + (u - t) / MS + 1
  {
    var x, y := Elapsed(e.fetchedAt, t), Elapsed(e.fetchedAt, u);
    assert x <= y <= x + (u - t);
    assert x / MS <= y / MS <= x / MS + (u - t) / MS + 1;
  }

  /** Read within one pass, the fetch times of two snapshots differ by at most
      its duration and a millisecond. */
  lemma StampsWithinPass(
      c: Cache, keep: Payload -> bool, at: map<string, nat>, bt: map<string, nat>, wallMs: nat,
      a: Dehydrated, b: Dehydrated, first: nat, last: nat, i: nat)
    requires Captures(c, keep, at, wallMs, a) && Captures(c, keep, bt, wallMs, b) && IgnoresStamp(keep)
    requires first <= last && ReadWithin(c, at, first, last) && ReadWithin(c, bt, first, last)
    requires i < |a.queries|
    ensures |a.queries| == |b.queries| && a.queries[i].fetchedAtMs.Some? && b.queries[i].fetchedAtMs.Some?
    ensures var x, y := a.queries[i].fetchedAtMs.value, b.queries[i].fetchedAtMs.value;
      x <= y + (last - first) / MS + 1 && y <= x + (last - first) / MS + 1
  {
    SnapshotsDifferInStamps(c, keep, at, bt, wallMs, a, b);
    assert Captured(c, keep, at, wallMs, a.queries[i]) && Captured(c, keep, bt, wallMs, b.queries[i]);
    var k := a.queries[i].hash;
    var t, u := at[k], bt[k];
    if t <= u {
      StampFalls(c[k], t, u, wallMs);
      assert (u - t) / MS <= (last - first) / MS;
    } else {
      StampFalls(c[k], u, t, wallMs);
      assert (t - u) / MS <= (last - first) / MS;
    }
  }

  /** An entry's fetch time does not depend on where in the pass it is read
      exactly when the first and last reading stamp it alike. */
  lemma StampIsStableIff(e: Entry, first: nat, last: nat, wallMs: nat)
    requires first <= last
    ensures (forall t, u :: first <= t <= last && first <= u <= last ==> Stamp(e, t, wallMs) == Stamp(e, u, wallMs))
      <==> Stamp(e, first, wallMs) == Stamp(e, last, wallMs)
  {
    if Stamp(e, first, wallMs) == Stamp(e, last, wallMs) {
      forall t | first <= t <= last
        ensures Stamp(e, t, wallMs) == Stamp(e, first, wallMs)
      {
        StampFalls(e, first, t, wallMs);
        StampFalls(e, t, last, wallMs);
      }
    }
  }

  /** With the same reading for every entry the snapshot is determined, by any
      filter. */
  lemma SnapshotIsDeterministic(
      c: Cache, keep: Payload -> bool, at: map<string, nat>, wallMs: nat, a: Dehydrated, b: Dehydrated)
    requires Captures(c, keep, at, wallMs, a) && Captures(c, keep, at, wallMs, b)
    ensures a == b
  {
    forall k: string
      ensures k in Hashes(a.queries) <==> k in Hashes(b.queries)
    {
      HashesAreKept(c, keep, at, wallMs, a, k);
      HashesAreKept(c, keep, at, wallMs, b, k);
    }
    SortedIsUnique(Hashes(a.queries), Hashes(b.queries));
    assert |Hashes(a.queries)| == |a.queries| && |Hashes(b.queries)| == |b.queries|;
    forall i | 0 <= i < |a.queries|
      ensures a.queries[i] == b.queries[i]
    {
      assert Hashes(a.queries)[i] == Hashes(b.queries)[i];
      assert Captured(c, keep, at, wallMs, a.queries[i]) && Captured(c, keep, at, wallMs, b.queries[i]);
    }
  }

  /** Two entries read a nanosecond apart, across a millisecond: which is walked
      first shows in the snapshot. */
  lemma WalkingOrderShows(e: Entry, a: Dehydrated, b: Dehydrated)
    requires e.data.Text? && e.fetchedAt == 0
    requires Captures(map["x" := e, "y" := e], HasData, map["x" := 999_999, "y" := 1_000_000], 5, a)
    requires Captures(map["x" := e, "y" := e], HasData, map["x" := 1_000_000, "y" := 999_999], 5, b)
    ensures a != b
  {
    var c, at, bt := map["x" := e, "y" := e], map["x" := 999_999, "y" := 1_000_000], map["x" := 1_000_000, "y" := 999_999];
    SnapshotsEqualIff(c, HasData, at, bt, 5, a, b);
    assert Kept(c, HasData, at, 5, "x");
    assert Stamp(c["x"], at["x"], 5) == 5 && Stamp(c["x"], bt["x"], 5) == 4;
  }
}
