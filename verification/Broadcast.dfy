/**
  In-process cache broadcast of src/broadcast.rs: any number of clients write
  locally, publish dehydrated snapshots and hydrate the snapshots they receive.
  Delivery is left as free as possible: any published snapshot may reach any
  client at any later time, any number of times, in any order.
 */
module Broadcast {
  import Bus
  import opened QueryCaches
  import opened Dehydration
  import opened Hydration

  /** `channel` is every snapshot ever published, `written` every value some
      client wrote locally under a key. */
  datatype World = World(
    clients: seq<Cache>,
    channel: seq<Dehydrated>,
    now: nat,
    written: set<(string, Data)>)

  datatype Step =
    | Write(who: nat, key: string, data: Data, options: Options)
    | Invalidate(who: nat, keys: set<string>)
    | Forget(who: nat, key: string)
    | Publish(who: nat, wallMs: nat, snapshot: Dehydrated, at: map<string, nat>, until: nat)
    | Deliver(who: nat, msg: nat, clock: nat -> nat, until: nat)
    | Tick(until: nat)

  ghost predicate Enabled(w: World, step: Step) {
    match step
    case Write(who, _, _, _) => who < |w.clients|
    case Invalidate(who, _) => who < |w.clients|
    case Forget(who, _) => who < |w.clients|
    case Publish(who, wallMs, st, at, until) =>
      && who < |w.clients| && w.now <= until && ReadWithin(w.clients[who], at, w.now, until)
      && Captures(w.clients[who], HasData, at, wallMs, st)
    case Deliver(who, msg, clock, until) =>
      && who < |w.clients| && msg < |w.channel| && Monotone(clock)
      && w.now <= clock(0) && forall i: nat :: clock(i) <= until
    case Tick(until) => w.now <= until
  }

  /** The receive loop hydrates with the default options and publishes
      nothing. */
  ghost function Apply(w: World, step: Step): World
    requires Enabled(w, step)
  {
    match step
    case Write(who, key, data, options) =>
      w.(clients := w.clients[who := w.clients[who][key := Entry(data, w.now, w.now, options, false)]],
         written := w.written + {(key, data)})
    case Invalidate(who, keys) => w.(clients := w.clients[who := MarkedStale(w.clients[who], keys)])
    case Forget(who, key) => w.(clients := w.clients[who := w.clients[who] - {key}])
    case Publish(_, _, st, _, until) => w.(channel := w.channel + [st], now := until)
    case Deliver(who, msg, clock, until) =>
      var st := w.channel[msg];
      w.(clients := w.clients[who := HydrateAll(w.clients[who], st.atMs, st.queries, HYDRATE_DEFAULTS, clock)],
         now := until)
    case Tick(until) => w.(now := until)
  }

  ghost predicate ValidRun(w: World, steps: seq<Step>)
    decreases |steps|
  {
    steps == [] || (Enabled(w, steps[0]) && ValidRun(Apply(w, steps[0]), steps[1..]))
  }

  ghost function After(w: World, steps: seq<Step>): World
    requires ValidRun(w, steps)
    decreases |steps|
  {
    if steps == [] then w else After(Apply(w, steps[0]), steps[1..])
  }

  ghost predicate Start(w: World) {
    && w.channel == [] && w.written == {}
    && forall i :: 0 <= i < |w.clients| ==> w.clients[i] == map[]
  }

  // ----- no value out of thin air -----

  ghost predicate Authentic(c: Cache, written: set<(string, Data)>, now: nat) {
    forall k :: k in c ==> (k, c[k].data) in written && c[k].fetchedAt <= now
  }

  ghost predicate AuthenticPayloads(qs: seq<Payload>, written: set<(string, Data)>) {
    forall j :: 0 <= j < |qs| && qs[j].data.Some? ==> (qs[j].hash, Text(qs[j].data.value)) in written
  }

  ghost predicate Inv(w: World) {
    && (forall i :: 0 <= i < |w.clients| ==> Authentic(w.clients[i], w.written, w.now))
    && (forall m :: 0 <= m < |w.channel| ==> AuthenticPayloads(w.channel[m].queries, w.written))
  }

  lemma {:induction false} HydrationIsAuthentic(
      c: Cache, atMs: nat, qs: seq<Payload>, clock: nat -> nat, written: set<(string, Data)>, until: nat)
    requires Authentic(c, written, until) && AuthenticPayloads(qs, written)
    requires forall i: nat :: clock(i) <= until
    ensures Authentic(HydrateAll(c, atMs, qs, HYDRATE_DEFAULTS, clock), written, until)
  {
    if qs != [] {
      var n := |qs| - 1;
      HydrationIsAuthentic(c, atMs, qs[..n], clock, written, until);
      assert clock(3 * n + 1) <= until && clock(3 * n + 2) <= until;
    }
  }

  lemma StepKeepsInv(w: World, step: Step)
    requires Inv(w) && Enabled(w, step)
    ensures Inv(Apply(w, step))
  {
    match step
    case Publish(who, wallMs, st, at, until) =>
      assert Authentic(w.clients[who], w.written, w.now);
      forall j | 0 <= j < |st.queries| && st.queries[j].data.Some?
        ensures (st.queries[j].hash, Text(st.queries[j].data.value)) in w.written
      {
        assert Captured(w.clients[who], HasData, at, wallMs, st.queries[j]);
      }
      assert AuthenticPayloads(st.queries, w.written);
    case Deliver(who, msg, clock, until) =>
      assert clock(0) <= until;
      assert Authentic(w.clients[who], w.written, w.now) && AuthenticPayloads(w.channel[msg].queries, w.written);
      HydrationIsAuthentic(w.clients[who], w.channel[msg].atMs, w.channel[msg].queries, clock, w.written, until);
    case _ =>
  }

  lemma {:induction false} RunKeepsInv(w: World, steps: seq<Step>)
    requires Inv(w) && ValidRun(w, steps)
    ensures Inv(After(w, steps))
    decreases |steps|
  {
    if steps != [] {
      StepKeepsInv(w, steps[0]);
      RunKeepsInv(Apply(w, steps[0]), steps[1..]);
    }
  }

  /** In every run, every value any client holds was written locally, under
      that key, by some client. */
  lemma NoInventedValues(w: World, steps: seq<Step>, who: nat, k: string)
    requires Start(w) && ValidRun(w, steps)
    requires who < |After(w, steps).clients| && k in After(w, steps).clients[who]
    ensures (k, After(w, steps).clients[who][k].data) in After(w, steps).written
  {
    RunKeepsInv(w, steps);
    assert Authentic(After(w, steps).clients[who], After(w, steps).written, After(w, steps).now);
  }

  // ----- fetch times only move forward -----

  ghost predicate Forward(c: Cache, d: Cache) {
    forall k :: k in c ==> k in d && d[k].fetchedAt >= c[k].fetchedAt
  }

  lemma StepMovesForward(w: World, step: Step, who: nat)
    requires Inv(w) && Enabled(w, step) && !step.Forget? && who < |w.clients|
    ensures |Apply(w, step).clients| == |w.clients| && Forward(w.clients[who], Apply(w, step).clients[who])
  {
    assert Authentic(w.clients[who], w.written, w.now);
    if step.Deliver? {
      var st := w.channel[step.msg];
      forall k | k in w.clients[step.who]
        ensures k in HydrateAll(w.clients[step.who], st.atMs, st.queries, HYDRATE_DEFAULTS, step.clock)
        ensures HydrateAll(w.clients[step.who], st.atMs, st.queries, HYDRATE_DEFAULTS, step.clock)[k].fetchedAt
          >= w.clients[step.who][k].fetchedAt
      {
        HydrateAllIsMonotone(w.clients[step.who], st.atMs, st.queries, HYDRATE_DEFAULTS, step.clock, k);
      }
    }
  }

  /** Over every interleaving of writes, publishes and deliveries in which
      nothing is evicted, no client's copy of a key ever gets an older fetch
      time. */
  lemma {:induction false} RunMovesForward(w: World, steps: seq<Step>, who: nat)
    requires Inv(w) && ValidRun(w, steps) && who < |w.clients|
    requires forall i :: 0 <= i < |steps| ==> !steps[i].Forget?
    ensures who < |After(w, steps).clients| && Forward(w.clients[who], After(w, steps).clients[who])
    decreases |steps|
  {
    if steps != [] {
      StepMovesForward(w, steps[0], who);
      StepKeepsInv(w, steps[0]);
      RunMovesForward(Apply(w, steps[0]), steps[1..], who);
    }
  }

  // ----- the receive loop and the publisher -----

  /** One turn of the receive loop. Applying a snapshot writes to the client
      alone: the channel only loses what this receiver took from it, so no other
      receiver hears of it. */
  method ReceiveNext(
      channel: Bus.Channels<Dehydrated>, id: nat, client: QueryClient, unsubscribed: bool, clock: nat -> nat)
    returns (more: bool)
    modifies channel, client
    ensures channel.State() == Bus.Poll(old(channel.State()), id, true).0
    ensures forall other :: other in old(channel.receivers) && other != id ==>
      other in channel.receivers && channel.receivers[other] == old(channel.receivers)[other]
    ensures client.inFlight == old(client.inFlight)
    ensures match Bus.Poll(old(channel.State()), id, true).1
      case Value(st) =>
        && more == !unsubscribed
        && client.cache == (if unsubscribed then old(client.cache)
            else HydrateAll(old(client.cache), st.atMs, st.queries, HYDRATE_DEFAULTS, clock))
      case Lagged(_) => more && client.cache == old(client.cache)
      case Empty => more && client.cache == old(client.cache)
      case Closed => !more && client.cache == old(client.cache)
  {
    var message := channel.PollState(id, true);
    match message {
      case Value(st) =>
        if unsubscribed { return false; }
        HydrateState(client, st, HYDRATE_DEFAULTS, clock);
        more := true;
      case Lagged(_) => more := true;
      case Empty => more := true;
      case Closed => more := false;
    }
  }

  /** `publish_state`: a snapshot of the client reaches every receiver, the
      client itself is not touched, and without receivers nothing is sent. */
  method PublishState(channel: Bus.Channels<Dehydrated>, client: QueryClient, clock: nat -> nat, wallMs: nat)
    returns (st: Dehydrated, at: map<string, nat>)
    modifies channel
    ensures ReadBy(clock, |client.cache|, at)
    ensures Captures(client.cache, HasData, at, wallMs, st)
    ensures channel.State() ==
      if old(channel.receivers) == map[] then old(channel.State()) else Bus.Send(old(channel.State()), st)
  {
    st, at := DehydrateState(client.cache, HasData, clock, wallMs);
    if channel.receivers != map[] {
      var woken := channel.SendValue(st);
    }
  }

  // ----- a client's own snapshot coming back -----

  /** A client also receives its own snapshots. For an entry not fetched again
      since the capture, applying the echo changes nothing exactly when no time
      has passed and the captured age was whole milliseconds. Otherwise the
      entry gets a later fetch time, the data and flag it had at capture, so an
      invalidation made in between is lost, and the default options but for
      stale and gc times and meta. */
  lemma OwnSnapshotIsNoOpIff(captured: Entry, local: Entry, k: string, t1: nat, wallMs: nat, t: Times)
    requires captured.data.Text? && AgeKnown(captured, t1, wallMs)
    requires local.fetchedAt == captured.fetchedAt && t1 <= t.check && t.Ordered()
    ensures var q := DehydrateEntry(k, captured, t1, wallMs);
      var r := HydrateOne(map[k := local], wallMs, q, HYDRATE_DEFAULTS, t);
      && (r == map[k := local] <==> t.check == t1 && (t1 - captured.fetchedAt) % MS == 0)
      && (r != map[k := local] ==>
          && r[k].fetchedAt > local.fetchedAt
          && r[k].data == captured.data && r[k].isStale == captured.isStale
          && r[k].options == DEFAULTS.(staleTime := WholeMs(captured.options.staleTime) * MS,
                                       gcTime := WholeMs(captured.options.gcTime) * MS,
                                       meta := captured.options.meta))
  {
    var q := DehydrateEntry(k, captured, t1, wallMs);
    FreshnessBound(captured, k, t1, wallMs, local, t.check);
    var r := HydrateOne(map[k := local], wallMs, q, HYDRATE_DEFAULTS, t);
    if IsNewer(local.fetchedAt, t.check, wallMs, q.fetchedAtMs) {
      CapturedAge(captured, k, t1, wallMs);
      assert r[k].fetchedAt > local.fetchedAt;
    }
    WholeMilliseconds(t1 - captured.fetchedAt, t.check - captured.fetchedAt);
  }

  lemma WholeMilliseconds(age: nat, later: nat)
    requires age <= later
    ensures later > age / MS * MS <==> !(later == age && age % MS == 0)
  {
  }
}
