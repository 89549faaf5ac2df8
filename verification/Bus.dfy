/**
  The bounded broadcast bus of src/bus.rs. Every method runs under one mutex,
  so each is one atomic step. Receivers drop their oldest values when full and
  report how many they lost; the proofs show that each receiver still follows
  one append-only log.
 */
module Bus {

  datatype RecvState<T> = RecvState(queue: seq<T>, waker: bool, missed: nat, alive: bool)

  datatype Shared<T> = Shared(
    capacity: nat,
    nextId: nat,
    sendersAlive: bool,
    senderCount: nat,
    receivers: map<nat, RecvState<T>>)

  datatype Received<T> = Value(value: T) | Empty | Closed | Lagged(n: nat)

  function FreshReceiver<T>(): RecvState<T> { RecvState([], false, 0, true) }

  // ----- the operations -----

  function Channel<T>(capacity: nat): (sh: Shared<T>)
    ensures sh.capacity >= 1
  {
    Shared(if capacity >= 1 then capacity else 1, 1, true, 1, map[0 := FreshReceiver()])
  }

  function Subscribe<T>(sh: Shared<T>): Shared<T> {
    sh.(nextId := sh.nextId + 1, receivers := sh.receivers[sh.nextId := FreshReceiver()])
  }

  function Push<T>(r: RecvState<T>, capacity: nat, value: T): RecvState<T> {
    if !r.alive then r
    else if |r.queue| >= capacity && r.queue != [] then
      RecvState(r.queue[1..] + [value], false, r.missed + 1, true)
    else if |r.queue| >= capacity then
      RecvState(r.queue + [value], false, r.missed + 1, true)
    else
      RecvState(r.queue + [value], false, r.missed, true)
  }

  function Send<T>(sh: Shared<T>, value: T): Shared<T> {
    sh.(receivers := map id | id in sh.receivers :: Push(sh.receivers[id], sh.capacity, value))
  }

  function CloneSender<T>(sh: Shared<T>): Shared<T> {
    sh.(senderCount := sh.senderCount + 1)
  }

  function Asleep<T>(r: RecvState<T>): RecvState<T> { r.(waker := false) }

  function DropSender<T>(sh: Shared<T>): Shared<T> {
    var count := if sh.senderCount > 0 then sh.senderCount - 1 else 0;
    if count == 0 then
      sh.(senderCount := 0, sendersAlive := false,
          receivers := map id | id in sh.receivers :: Asleep(sh.receivers[id]))
    else sh.(senderCount := count)
  }

  /** `poll_state`; `park` is set when a waker is handed in. */
  function Poll<T>(sh: Shared<T>, id: nat, park: bool): (Shared<T>, Received<T>) {
    if id !in sh.receivers then (sh, Closed)
    else
      var r := sh.receivers[id];
      if r.missed > 0 then (Store(sh, id, r.(missed := 0)), Lagged(r.missed))
      else if r.queue != [] then (Store(sh, id, r.(queue := r.queue[1..])), Value(r.queue[0]))
      else if !sh.sendersAlive then (Store(sh, id, r.(alive := false)), Closed)
      else (Store(sh, id, r.(waker := r.waker || park)), Empty)
  }

  function Store<T>(sh: Shared<T>, id: nat, r: RecvState<T>): Shared<T> {
    sh.(receivers := sh.receivers[id := r])
  }

  function DropReceiver<T>(sh: Shared<T>, id: nat): Shared<T> {
    sh.(receivers := sh.receivers - {id})
  }

  /** `Receiver::clone` subscribes through a sender it never counted and then
      drops that sender. */
  function CloneReceiver<T>(sh: Shared<T>): Shared<T> {
    DropSender(Subscribe(sh))
  }

  /** The shared state behind the mutex, changed in place. */
  class Channels<T> {
    var capacity: nat
    var nextId: nat
    var sendersAlive: bool
    var senderCount: nat
    var receivers: map<nat, RecvState<T>>

    ghost function State(): Shared<T>
      reads this
    {
      Shared(capacity, nextId, sendersAlive, senderCount, receivers)
    }

    constructor (cap: nat)
      ensures State() == Channel(cap)
    {
      capacity := if cap >= 1 then cap else 1;
      nextId, sendersAlive, senderCount := 1, true, 1;
      receivers := map[0 := FreshReceiver()];
    }

    method NewReceiver() returns (id: nat)
      modifies this
      ensures State() == Subscribe(old(State())) && id == old(nextId)
    {
      id := nextId;
      nextId := nextId + 1;
      receivers := receivers[id := FreshReceiver()];
    }

    /** Visit every receiver once, in no particular order; `woken` are the
        receivers whose waker was taken. */
    method SendValue(value: T) returns (woken: set<nat>)
      modifies this
      ensures State() == Send(old(State()), value)
      ensures woken == set id | id in old(receivers) && old(receivers)[id].alive && old(receivers)[id].waker
    {
      ghost var was := receivers;
      var todo := receivers.Keys;
      woken := {};
      while todo != {}
        invariant todo <= was.Keys == receivers.Keys
        invariant forall id :: id in todo ==> receivers[id] == was[id]
        invariant forall id :: id in was && id !in todo ==> receivers[id] == Push(was[id], capacity, value)
        invariant forall id :: id in woken <==> id in was && id !in todo && was[id].alive && was[id].waker
        invariant unchanged(`capacity) && unchanged(`nextId) && unchanged(`sendersAlive) && unchanged(`senderCount)
        decreases todo
      {
        var id :| id in todo;
        todo := todo - {id};
        var r, w := PushOne(receivers[id], value);
        receivers := receivers[id := r];
        if w { woken := woken + {id}; }
      }
      assert receivers == Send(old(State()), value).receivers;
    }

    /** The loop body of `send` for one receiver. */
    method PushOne(r: RecvState<T>, value: T) returns (r': RecvState<T>, woken: bool)
      ensures r' == Push(r, capacity, value)
      ensures woken == (r.alive && r.waker)
    {
      r', woken := r, false;
      if r.alive {
        var q, missed := r.queue, r.missed;
        if |q| >= capacity {
          if q != [] { q := q[1..]; }
          missed := missed + 1;
        }
        woken := r.waker;
        r' := RecvState(q + [value], false, missed, true);
      }
    }

    method AddSender()
      modifies this
      ensures State() == CloneSender(old(State()))
    {
      senderCount := senderCount + 1;
    }

    /** `woken` are the receivers whose waker was taken because the channel
        closed. */
    method RemoveSender() returns (woken: set<nat>)
      modifies this
      ensures State() == DropSender(old(State()))
      ensures woken == if old(senderCount) <= 1 then set id | id in old(receivers) && old(receivers)[id].waker else {}
    {
      woken := {};
      if senderCount > 0 { senderCount := senderCount - 1; }
      if senderCount == 0 {
        sendersAlive := false;
        woken := set id | id in receivers && receivers[id].waker;
        receivers := map id | id in receivers :: Asleep(receivers[id]);
      }
    }

    method PollState(id: nat, park: bool) returns (out: Received<T>)
      modifies this
      ensures State() == Poll(old(State()), id, park).0 && out == Poll(old(State()), id, park).1
    {
      if id !in receivers { return Closed; }
      var r := receivers[id];
      if r.missed > 0 {
        out := Lagged(r.missed);
        receivers := receivers[id := r.(missed := 0)];
      } else if r.queue != [] {
        out := Value(r.queue[0]);
        receivers := receivers[id := r.(queue := r.queue[1..])];
      } else if !sendersAlive {
        out := Closed;
        receivers := receivers[id := r.(alive := false)];
      } else {
        out := Empty;
        receivers := receivers[id := if park then r.(waker := true) else r];
      }
    }

    /** `Receiver::clone`: the temporary sender is dropped uncounted. */
    method DuplicateReceiver() returns (id: nat)
      modifies this
      ensures State() == CloneReceiver(old(State())) && id == old(nextId)
    {
      id := NewReceiver();
      var woken := RemoveSender();
    }

    method RemoveReceiver(id: nat)
      modifies this
      ensures State() == DropReceiver(old(State()), id)
    {
      receivers := receivers - {id};
    }
  }

  // ----- runs of the bus beside its log -----

  datatype Step<T> =
    | DoSubscribe
    | DoSend(value: T)
    | DoCloneSender
    | DoDropSender
    | DoPoll(id: nat, park: bool)
    | DoDropReceiver(id: nat)
    | DoCloneReceiver

  /** What one receiver has been told: where in the log it subscribed and
      every outcome since (`Empty` left out). */
  datatype View<T> = View(start: nat, told: seq<Received<T>>)

  /** The bus beside what an observer of the whole run knows: everything ever
      sent, the live `Sender` handles, the `Receiver::clone` calls and each
      receiver's view. */
  datatype World<T> = World(
    bus: Shared<T>,
    log: seq<T>,
    handles: nat,
    clones: nat,
    views: map<nat, View<T>>)

  predicate Enabled<T>(w: World<T>, step: Step<T>) {
    match step
    case DoSubscribe => w.handles > 0
    case DoSend(_) => w.handles > 0
    case DoCloneSender => w.handles > 0
    case DoDropSender => w.handles > 0
    case DoPoll(id, _) => id in w.bus.receivers
    case DoDropReceiver(id) => id in w.bus.receivers
    case DoCloneReceiver => w.bus.receivers != map[]
  }

  function Tell<T>(v: View<T>, out: Received<T>): View<T> {
    if out.Empty? then v else v.(told := v.told + [out])
  }

  function Apply<T>(w: World<T>, step: Step<T>): World<T> {
    var b := w.bus;
    match step
    case DoSubscribe => w.(bus := Subscribe(b), views := w.views[b.nextId := View(|w.log|, [])])
    case DoSend(v) => w.(bus := Send(b, v), log := w.log + [v])
    case DoCloneSender => w.(bus := CloneSender(b), handles := w.handles + 1)
    case DoDropSender => w.(bus := DropSender(b), handles := if w.handles > 0 then w.handles - 1 else 0)
    case DoPoll(id, park) =>
      if id in w.views
      then w.(bus := Poll(b, id, park).0, views := w.views[id := Tell(w.views[id], Poll(b, id, park).1)])
      else w.(bus := Poll(b, id, park).0)
    case DoDropReceiver(id) => w.(bus := DropReceiver(b, id), views := w.views - {id})
    case DoCloneReceiver =>
      w.(bus := CloneReceiver(b), clones := w.clones + 1, views := w.views[b.nextId := View(|w.log|, [])])
  }

  function Begin<T>(capacity: nat): World<T> {
    World(Channel(capacity), [], 1, 0, map[0 := View(0, [])])
  }

  ghost predicate ValidRun<T(!new)>(w: World<T>, steps: seq<Step<T>>)
    decreases |steps|
  {
    steps == [] || (Enabled(w, steps[0]) && ValidRun(Apply(w, steps[0]), steps[1..]))
  }

  ghost function After<T>(w: World<T>, steps: seq<Step<T>>): World<T>
    decreases |steps|
  {
    if steps == [] then w else After(Apply(w, steps[0]), steps[1..])
  }

  // ----- the log a receiver follows -----

  /** Log position reached by these outcomes: a value is one position, a lag
      notice skips as many as it reports. */
  ghost function Position<T>(v: View<T>): nat
    decreases |v.told|
  {
    if v.told == [] then v.start else
      Position(View(v.start, v.told[..|v.told| - 1])) +
      match v.told[|v.told| - 1]
      case Value(_) => 1
      case Lagged(n) => n
      case _ => 0
  }

  /** Every delivered value is the log's value at the position it advances
      over, so the outcomes visit or skip each position once, in order. */
  ghost predicate Replays<T>(log: seq<T>, v: View<T>)
    decreases |v.told|
  {
    v.told == [] ||
    (var before := View(v.start, v.told[..|v.told| - 1]);
     var last := v.told[|v.told| - 1];
     && Replays(log, before)
     && Position(v) <= |log|
     && (last.Value? ==> Position(before) < |log| && last.value == log[Position(before)])
     && (last.Lagged? ==> last.n > 0)
     && !last.Empty?)
  }

  lemma {:induction false} LogMayGrow<T>(log: seq<T>, more: seq<T>, v: View<T>)
    requires Replays(log, v)
    ensures Replays(log + more, v)
    decreases |v.told|
  {
    if v.told != [] { LogMayGrow(log, more, View(v.start, v.told[..|v.told| - 1])); }
  }

  lemma TellOne<T>(log: seq<T>, v: View<T>, out: Received<T>)
    requires Replays(log, v) && Position(v) <= |log|
    requires match out
      case Value(x) => Position(v) < |log| && x == log[Position(v)]
      case Lagged(n) => n > 0 && Position(v) + n <= |log|
      case Closed => true
      case Empty => true
    ensures Replays(log, Tell(v, out))
    ensures Position(Tell(v, out)) == Position(v) + (if out.Value? then 1 else if out.Lagged? then out.n else 0)
  {
    var t := Tell(v, out);
    if !out.Empty? {
      assert t.told[..|t.told| - 1] == v.told;
      assert View(v.start, v.told) == v;
    }
  }

  /** A receiver's queue is the log from its cursor on; a full queue is the
      only one that lost anything; a stored waker means nothing to receive. */
  ghost predicate Follows<T>(log: seq<T>, capacity: nat, open: bool, r: RecvState<T>, v: View<T>) {
    var cursor := Position(v) + r.missed;
    && Replays(log, v)
    && cursor <= |log|
    && (r.alive ==> r.queue == log[cursor..] && Closed !in v.told)
    && (!r.alive ==> r.queue == [] && r.missed == 0 && !open)
    && |r.queue| <= capacity
    && (r.missed > 0 ==> |r.queue| == capacity)
    && (r.waker ==> r.alive && r.queue == [] && r.missed == 0 && open)
  }

  ghost predicate ReceiverInv<T>(w: World<T>, id: nat)
    requires id in w.bus.receivers && id in w.views
  {
    Follows(w.log, w.bus.capacity, w.bus.sendersAlive, w.bus.receivers[id], w.views[id])
  }

  ghost predicate Inv<T>(w: World<T>) {
    && w.bus.capacity >= 1
    && w.views.Keys == w.bus.receivers.Keys
    && (forall id :: id in w.bus.receivers ==> id < w.bus.nextId)
    && (forall id :: id in w.bus.receivers ==> ReceiverInv(w, id))
    && (w.bus.sendersAlive ==> w.bus.senderCount >= 1 && w.bus.senderCount + w.clones == w.handles)
  }

  lemma PushFollows<T>(log: seq<T>, capacity: nat, open: bool, r: RecvState<T>, v: View<T>, value: T)
    requires capacity >= 1 && Follows(log, capacity, open, r, v)
    ensures Follows(log + [value], capacity, open, Push(r, capacity, value), v)
  {
    LogMayGrow(log, [value], v);
    var cursor := Position(v) + r.missed;
    assert (log + [value])[cursor..] == log[cursor..] + [value];
    if r.alive && |r.queue| >= capacity {
      assert (log + [value])[cursor + 1..] == log[cursor..][1..] + [value];
    }
  }

  lemma PollFollows<T>(log: seq<T>, bus: Shared<T>, id: nat, v: View<T>, park: bool)
    requires id in bus.receivers && Follows(log, bus.capacity, bus.sendersAlive, bus.receivers[id], v)
    ensures var (b, out) := Poll(bus, id, park);
      id in b.receivers && Follows(log, bus.capacity, bus.sendersAlive, b.receivers[id], Tell(v, out))
  {
    var r := bus.receivers[id];
    var (b, out) := Poll(bus, id, park);
    var cursor := Position(v) + r.missed;
    if r.alive && r.missed == 0 && r.queue != [] {
      assert log[cursor..][1..] == log[cursor + 1..] && log[cursor..][0] == log[cursor];
    }
    TellOne(log, v, out);
  }

  lemma SendKeepsInv<T>(w: World<T>, value: T)
    requires Inv(w)
    ensures Inv(Apply(w, DoSend(value)))
  {
    var t := Apply(w, DoSend(value));
    forall id | id in t.bus.receivers
      ensures ReceiverInv(t, id)
    {
      assert ReceiverInv(w, id);
      PushFollows(w.log, w.bus.capacity, w.bus.sendersAlive, w.bus.receivers[id], w.views[id], value);
    }
  }

  lemma PollTouchesOne<T>(bus: Shared<T>, id: nat, park: bool)
    requires id in bus.receivers
    ensures var b := Poll(bus, id, park).0;
      id in b.receivers && b == Store(bus, id, b.receivers[id])
  {
  }

  lemma PollKeepsInv<T>(w: World<T>, id: nat, park: bool)
    requires Inv(w) && id in w.bus.receivers
    ensures Inv(Apply(w, DoPoll(id, park)))
  {
    var (b, out) := Poll(w.bus, id, park);
    assert ReceiverInv(w, id);
    PollFollows(w.log, w.bus, id, w.views[id], park);
    PollTouchesOne(w.bus, id, park);
    ReplaceOne(w, id, b.receivers[id], Tell(w.views[id], out));
  }

  lemma ReplaceOne<T>(w: World<T>, id: nat, r: RecvState<T>, v: View<T>)
    requires Inv(w) && id in w.bus.receivers
    requires Follows(w.log, w.bus.capacity, w.bus.sendersAlive, r, v)
    ensures Inv(w.(bus := Store(w.bus, id, r), views := w.views[id := v]))
  {
    var t := w.(bus := Store(w.bus, id, r), views := w.views[id := v]);
    forall other | other in t.bus.receivers
      ensures ReceiverInv(t, other)
    {
      if other != id { assert ReceiverInv(w, other); }
    }
  }

  lemma SubscribeKeepsInv<T>(w: World<T>)
    requires Inv(w)
    ensures Inv(Apply(w, DoSubscribe))
  {
    var t := Apply(w, DoSubscribe);
    forall id | id in t.bus.receivers
      ensures ReceiverInv(t, id)
    {
      if id != w.bus.nextId { assert ReceiverInv(w, id); }
    }
  }

  /** Fewer senders: the count drops, and at zero every waker is taken. */
  lemma CloseKeepsInv<T>(w: World<T>, t: World<T>)
    requires Inv(w) && t == w.(bus := DropSender(w.bus), handles := t.handles, clones := t.clones)
    requires t.handles - t.clones == w.handles - w.clones - 1 || (!w.bus.sendersAlive)
    ensures Inv(t)
  {
    forall id | id in t.bus.receivers
      ensures ReceiverInv(t, id)
    {
      assert ReceiverInv(w, id);
    }
  }

  lemma StepKeepsInv<T>(w: World<T>, step: Step<T>)
    requires Inv(w) && Enabled(w, step)
    ensures Inv(Apply(w, step))
  {
    match step
    case DoSubscribe => SubscribeKeepsInv(w);
    case DoSend(value) => SendKeepsInv(w, value);
    case DoCloneSender => SameReceiversInv(w, Apply(w, step));
    case DoDropSender => CloseKeepsInv(w, Apply(w, step));
    case DoPoll(id, park) => PollKeepsInv(w, id, park);
    case DoDropReceiver(id) => SameReceiversInv(w, Apply(w, step));
    case DoCloneReceiver =>
      SubscribeKeepsInv(w);
      CloseKeepsInv(Apply(w, DoSubscribe), Apply(w, step));
  }

  lemma SameReceiversInv<T>(w: World<T>, t: World<T>)
    requires Inv(w) && t.log == w.log && t.clones == w.clones && t.views.Keys == t.bus.receivers.Keys
    requires t.bus == w.bus.(senderCount := t.bus.senderCount, receivers := t.bus.receivers)
    requires t.bus.senderCount - t.handles == w.bus.senderCount - w.handles && t.handles >= w.handles
    requires forall id :: id in t.bus.receivers ==>
      id in w.bus.receivers && t.bus.receivers[id] == w.bus.receivers[id] && t.views[id] == w.views[id]
    ensures Inv(t)
  {
    forall id | id in t.bus.receivers
      ensures ReceiverInv(t, id)
    {
      assert ReceiverInv(w, id);
    }
  }

  lemma {:induction false} RunKeepsInv<T(!new)>(w: World<T>, steps: seq<Step<T>>)
    requires Inv(w) && ValidRun(w, steps)
    ensures Inv(After(w, steps))
    decreases |steps|
  {
    if steps != [] {
      StepKeepsInv(w, steps[0]);
      RunKeepsInv(Apply(w, steps[0]), steps[1..]);
    }
  }

  // ----- what holds in every run -----

  /** The room asked for, one at least. */
  function Room(capacity: nat): nat { if capacity >= 1 then capacity else 1 }

  lemma {:induction false} KeepsCapacity<T(!new)>(w: World<T>, steps: seq<Step<T>>)
    ensures After(w, steps).bus.capacity == w.bus.capacity
    decreases |steps|
  {
    if steps != [] { KeepsCapacity(Apply(w, steps[0]), steps[1..]); }
  }

  /** The bus refines an append-only log with a cursor per receiver: what a
      receiver was told replays the log from its subscription, the values
      still queued are the rest of it, and what it was told, lost and still
      holds adds up to everything sent since it subscribed. */
  lemma RefinesLog<T(!new)>(capacity: nat, steps: seq<Step<T>>, id: nat)
    requires ValidRun(Begin(capacity), steps)
    requires id in After(Begin(capacity), steps).bus.receivers
    ensures var w := After(Begin(capacity), steps);
      && id in w.views && Replays(w.log, w.views[id])
      && (w.bus.receivers[id].alive ==>
          && Position(w.views[id]) + w.bus.receivers[id].missed <= |w.log|
          && w.bus.receivers[id].queue == w.log[Position(w.views[id]) + w.bus.receivers[id].missed..])
      && |w.bus.receivers[id].queue| <= Room(capacity)
      && (w.bus.receivers[id].missed > 0 ==> |w.bus.receivers[id].queue| == Room(capacity))
  {
    KeepsCapacity(Begin<T>(capacity), steps);
    RunKeepsInv(Begin(capacity), steps);
    LogFacts(After(Begin(capacity), steps), id);
  }

  lemma LogFacts<T>(w: World<T>, id: nat)
    requires Inv(w) && id in w.bus.receivers
    ensures id in w.views && Replays(w.log, w.views[id])
    ensures var r := w.bus.receivers[id];
      && (r.alive ==> Position(w.views[id]) + r.missed <= |w.log|
                      && r.queue == w.log[Position(w.views[id]) + r.missed..])
      && |r.queue| <= w.bus.capacity && (r.missed > 0 ==> |r.queue| == w.bus.capacity)
  {
    assert ReceiverInv(w, id);
  }

  /** What a poll answers is decided by the log: a receiver more than the
      capacity behind is told how far it lost out, one behind gets the next value
      of the log, one that heard everything waits while the channel is open and is
      told `Closed` otherwise. */
  lemma PollAnswers<T(!new)>(capacity: nat, steps: seq<Step<T>>, w: World<T>, id: nat, park: bool)
    requires ValidRun(Begin(capacity), steps) && w == After(Begin(capacity), steps)
    requires id in w.bus.receivers && w.bus.receivers[id].alive
    ensures id in w.views && Position(w.views[id]) <= |w.log|
    ensures var p, out := Position(w.views[id]), Poll(w.bus, id, park).1;
      out == if |w.log| - p > Room(capacity) then Lagged(|w.log| - p - Room(capacity))
             else if p < |w.log| then Value(w.log[p])
             else if w.bus.sendersAlive then Empty
             else Closed
  {
    KeepsCapacity(Begin<T>(capacity), steps);
    RunKeepsInv(Begin(capacity), steps);
    AnswerFacts(w, id, park);
  }

  lemma AnswerFacts<T>(w: World<T>, id: nat, park: bool)
    requires Inv(w) && id in w.bus.receivers && w.bus.receivers[id].alive
    ensures Position(w.views[id]) <= |w.log|
    ensures var p, room, out := Position(w.views[id]), w.bus.capacity, Poll(w.bus, id, park).1;
      out == if |w.log| - p > room then Lagged(|w.log| - p - room)
             else if p < |w.log| then Value(w.log[p])
             else if w.bus.sendersAlive then Empty
             else Closed
  {
    assert ReceiverInv(w, id);
    var r, p := w.bus.receivers[id], Position(w.views[id]);
    assert |r.queue| == |w.log| - p - r.missed;
    assert r.missed == 0 && r.queue != [] ==> r.queue[0] == w.log[p];
  }

  // ----- who is parked -----

  ghost predicate NoSend<T>(steps: seq<Step<T>>) {
    forall k :: 0 <= k < |steps| ==> !steps[k].DoSend?
  }

  /** The run polled receiver `id` with a waker, was answered `Empty`, and sent
      nothing since. */
  ghost predicate Awaits<T(!new)>(w: World<T>, steps: seq<Step<T>>, id: nat)
    decreases |steps|
  {
    steps != [] &&
    (|| (steps[0] == DoPoll(id, true) && Poll(w.bus, id, true).1 == Empty && NoSend(steps[1..]))
     || Awaits(Apply(w, steps[0]), steps[1..], id))
  }

  ghost predicate Parked<T>(w: World<T>, id: nat) {
    id in w.bus.receivers && w.bus.receivers[id].waker
  }

  /** What one step does to the waker of a receiver that is there afterwards. */
  lemma StepParks<T>(w: World<T>, step: Step<T>, id: nat)
    requires Inv(w) && Enabled(w, step) && Apply(w, step).bus.sendersAlive && id in Apply(w, step).bus.receivers
    ensures Parked(Apply(w, step), id) <==>
      (step == DoPoll(id, true) && Poll(w.bus, id, true).1 == Empty) || (Parked(w, id) && !step.DoSend?)
  {
    if id in w.bus.receivers { assert ReceiverInv(w, id); }
  }

  lemma {:induction false} StaysGone<T(!new)>(w: World<T>, steps: seq<Step<T>>, id: nat)
    requires Inv(w) && ValidRun(w, steps) && id !in w.bus.receivers && id < w.bus.nextId
    ensures id !in After(w, steps).bus.receivers
    decreases |steps|
  {
    if steps != [] {
      StepKeepsInv(w, steps[0]);
      StaysGone(Apply(w, steps[0]), steps[1..], id);
    }
  }

  lemma NoSendTail<T>(steps: seq<Step<T>>)
    requires steps != []
    ensures NoSend(steps) <==> !steps[0].DoSend? && NoSend(steps[1..])
  {
    assert steps == [steps[0]] + steps[1..];
  }

  lemma {:induction false} RunParks<T(!new)>(w: World<T>, steps: seq<Step<T>>, id: nat)
    requires Inv(w) && ValidRun(w, steps) && After(w, steps).bus.sendersAlive && id in After(w, steps).bus.receivers
    ensures Parked(After(w, steps), id) <==> Awaits(w, steps, id) || (Parked(w, id) && NoSend(steps))
    decreases |steps|
  {
    if steps != [] {
      var t := Apply(w, steps[0]);
      StepKeepsInv(w, steps[0]);
      NoSendTail(steps);
      if !t.bus.sendersAlive { DeadStaysDead(t, steps[1..]); }
      RunParks(t, steps[1..], id);
      if id in t.bus.receivers {
        StepParks(w, steps[0], id);
      } else if id in w.bus.receivers {
        StaysGone(t, steps[1..], id);
      }
    }
  }

  /** No lost wake-up, both ways: in every run a receiver is parked exactly when
      it polled with a waker, was answered `Empty`, nothing was sent since and the
      channel is open. The next send wakes exactly the parked ones. */
  lemma ParkedIff<T(!new)>(capacity: nat, steps: seq<Step<T>>, w: World<T>, id: nat)
    requires ValidRun(Begin(capacity), steps) && w == After(Begin(capacity), steps) && id in w.bus.receivers
    ensures w.bus.receivers[id].waker <==> w.bus.sendersAlive && Awaits(Begin(capacity), steps, id)
  {
    RunKeepsInv(Begin(capacity), steps);
    assert ReceiverInv(w, id);
    if w.bus.sendersAlive { RunParks(Begin(capacity), steps, id); }
  }

  /** No lost wake-up: a parked receiver has nothing to receive, no lag to
      report, and a sender that can still wake it. */
  lemma ParkedMeansNothingToReceive<T(!new)>(capacity: nat, steps: seq<Step<T>>, id: nat)
    requires ValidRun(Begin(capacity), steps)
    requires var w := After(Begin(capacity), steps);
      id in w.bus.receivers && w.bus.receivers[id].waker
    ensures var w := After(Begin(capacity), steps);
      && w.bus.receivers[id].queue == [] && w.bus.receivers[id].missed == 0
      && w.bus.sendersAlive && Poll(w.bus, id, true).1 == Empty
  {
    RunKeepsInv(Begin(capacity), steps);
    assert ReceiverInv(After(Begin(capacity), steps), id);
  }

  /** Even with `Receiver::clone`, the first `Closed` a receiver is told comes
      only once every value sent so far was delivered to it or counted as lag. */
  lemma FirstClosedComesLast<T(!new)>(capacity: nat, steps: seq<Step<T>>, id: nat)
    requires ValidRun(Begin(capacity), steps)
    requires var w := After(Begin(capacity), steps);
      id in w.bus.receivers && w.bus.receivers[id].alive && Poll(w.bus, id, false).1 == Closed
    ensures var w := After(Begin(capacity), steps);
      id in w.views && Position(w.views[id]) == |w.log|
  {
    RunKeepsInv(Begin(capacity), steps);
    assert ReceiverInv(After(Begin(capacity), steps), id);
  }

  // ----- when a channel counts as closed -----

  /** At every moment of the run the live handles outnumbered the
      `Receiver::clone` calls made so far. */
  ghost predicate HandlesOutnumberClones<T(!new)>(w: World<T>, steps: seq<Step<T>>)
    decreases |steps|
  {
    w.handles > w.clones && (steps == [] || HandlesOutnumberClones(Apply(w, steps[0]), steps[1..]))
  }

  lemma {:induction false} DeadStaysDead<T(!new)>(w: World<T>, steps: seq<Step<T>>)
    requires !w.bus.sendersAlive
    ensures !After(w, steps).bus.sendersAlive
    decreases |steps|
  {
    if steps != [] { DeadStaysDead(Apply(w, steps[0]), steps[1..]); }
  }

  lemma {:induction false} AliveIff<T(!new)>(w: World<T>, steps: seq<Step<T>>)
    requires Inv(w) && w.bus.sendersAlive && ValidRun(w, steps)
    ensures After(w, steps).bus.sendersAlive <==> HandlesOutnumberClones(w, steps)
    decreases |steps|
  {
    if steps != [] {
      var t := Apply(w, steps[0]);
      StepKeepsInv(w, steps[0]);
      if t.bus.sendersAlive {
        AliveIff(t, steps[1..]);
      } else {
        assert t.handles <= t.clones;
        DeadStaysDead(t, steps[1..]);
      }
    }
  }

  /** The channel counts as open exactly when at every moment of the run there
      were more live `Sender` handles than `Receiver::clone` calls. */
  lemma OpenIff<T(!new)>(capacity: nat, steps: seq<Step<T>>)
    requires ValidRun(Begin(capacity), steps)
    ensures After(Begin(capacity), steps).bus.sendersAlive <==> HandlesOutnumberClones(Begin(capacity), steps)
  {
    AliveIff(Begin(capacity), steps);
  }

  /** Without `Receiver::clone` the channel is open exactly while a `Sender`
      handle lives. */
  lemma {:induction false} OpenWhileHandlesLive<T(!new)>(capacity: nat, steps: seq<Step<T>>)
    requires ValidRun(Begin(capacity), steps)
    requires forall k :: 0 <= k < |steps| ==> !steps[k].DoCloneReceiver?
    ensures var w := After(Begin(capacity), steps); w.bus.sendersAlive <==> w.handles > 0
  {
    HandlesExact(Begin(capacity), steps);
  }

  lemma {:induction false} HandlesExact<T(!new)>(w: World<T>, steps: seq<Step<T>>)
    requires ValidRun(w, steps) && forall k :: 0 <= k < |steps| ==> !steps[k].DoCloneReceiver?
    requires w.bus.senderCount == w.handles && (w.bus.sendersAlive <==> w.handles > 0)
    ensures var t := After(w, steps);
      t.bus.senderCount == t.handles && (t.bus.sendersAlive <==> t.handles > 0)
    decreases |steps|
  {
    if steps != [] { HandlesExact(Apply(w, steps[0]), steps[1..]); }
  }

  /** Without clones the count is exact, and a receiver that was told `Closed`
      has nothing left to hear. */
  ghost predicate Uncloned<T>(w: World<T>) {
    && Inv(w) && w.clones == 0
    && w.bus.senderCount == w.handles && (w.bus.sendersAlive <==> w.handles > 0)
    && (forall id :: id in w.bus.receivers && !w.bus.receivers[id].alive ==> HeardAll(w, id))
  }

  ghost predicate HeardAll<T>(w: World<T>, id: nat) {
    id in w.views && Position(w.views[id]) == |w.log|
  }

  lemma PollHearsAll<T>(w: World<T>, id: nat, park: bool)
    requires Uncloned(w) && id in w.bus.receivers
    ensures Uncloned(Apply(w, DoPoll(id, park)))
    ensures Poll(w.bus, id, park).1 == Closed ==> HeardAll(w, id)
  {
    var t := Apply(w, DoPoll(id, park));
    var out := Poll(w.bus, id, park).1;
    StepKeepsInv(w, DoPoll(id, park));
    assert ReceiverInv(w, id);
    forall other | other in t.bus.receivers && !t.bus.receivers[other].alive
      ensures HeardAll(t, other)
    {
      if other == id {
        assert HeardAll(w, id);
        if out == Closed { TellOne(w.log, w.views[id], out); }
      } else {
        assert HeardAll(w, other);
      }
    }
  }

  lemma StepKeepsUncloned<T>(w: World<T>, step: Step<T>)
    requires Uncloned(w) && Enabled(w, step) && !step.DoCloneReceiver?
    ensures Uncloned(Apply(w, step))
  {
    var t := Apply(w, step);
    StepKeepsInv(w, step);
    if step.DoPoll? {
      PollHearsAll(w, step.id, step.park);
    } else {
      forall id | id in t.bus.receivers && !t.bus.receivers[id].alive
        ensures HeardAll(t, id)
      {
        assert id in w.bus.receivers && !w.bus.receivers[id].alive;
        assert ReceiverInv(w, id) && HeardAll(w, id);
      }
    }
  }

  lemma {:induction false} RunKeepsUncloned<T(!new)>(w: World<T>, steps: seq<Step<T>>)
    requires Uncloned(w) && ValidRun(w, steps)
    requires forall k :: 0 <= k < |steps| ==> !steps[k].DoCloneReceiver?
    ensures Uncloned(After(w, steps))
    decreases |steps|
  {
    if steps != [] {
      StepKeepsUncloned(w, steps[0]);
      RunKeepsUncloned(Apply(w, steps[0]), steps[1..]);
    }
  }

  /** Without `Receiver::clone`, whenever a receiver is told `Closed`, the first
      time or again, every value ever sent since it subscribed was delivered to
      it or counted as lag, and no sender is left to send another. */
  lemma ClosedComesLast<T(!new)>(capacity: nat, steps: seq<Step<T>>, id: nat, park: bool)
    requires ValidRun(Begin(capacity), steps)
    requires forall k :: 0 <= k < |steps| ==> !steps[k].DoCloneReceiver?
    requires var w := After(Begin(capacity), steps);
      id in w.bus.receivers && Poll(w.bus, id, park).1 == Closed
    ensures var w := After(Begin(capacity), steps);
      id in w.views && Position(w.views[id]) == |w.log| && w.handles == 0
  {
    RunKeepsUncloned(Begin(capacity), steps);
    PollHearsAll(After(Begin(capacity), steps), id, park);
  }

  /** One `Receiver::clone` closes a channel whose only sender still lives. A
      value sent afterwards never reaches a receiver that noticed, which is told
      `Closed` again with that value neither delivered nor counted. */
  lemma CloneMayCloseLiveChannel()
    ensures var w := After(Begin<int>(4), [DoCloneReceiver, DoPoll(0, false), DoSend(7)]);
      && ValidRun(Begin<int>(4), [DoCloneReceiver, DoPoll(0, false), DoSend(7)])
      && w.handles == 1 && !w.bus.sendersAlive && w.log == [7]
      && 0 in w.bus.receivers && w.bus.receivers[0].queue == [] && Poll(w.bus, 0, false).1 == Closed
      && 0 in w.views && w.views[0].told == [Closed] && Position(w.views[0]) == 0
  {
    var a, b, c: Step<int> := DoCloneReceiver, DoPoll(0, false), DoSend(7);
    var w0 := Begin<int>(4);
    var w1 := Apply(w0, a);
    assert 0 in w1.bus.receivers && !w1.bus.sendersAlive;
    var w2 := Apply(w1, b);
    assert Apply(w2, c).views[0].told[..0] == [];
    RunCons(w2, c, []);
    RunCons(w1, b, [c]);
    RunCons(w0, a, [b, c]);
    assert [c] + [] == [c] && [b] + [c] == [b, c] && [a] + [b, c] == [a, b, c];
  }

  lemma RunCons<T(!new)>(w: World<T>, step: Step<T>, rest: seq<Step<T>>)
    requires Enabled(w, step) && ValidRun(Apply(w, step), rest)
    ensures ValidRun(w, [step] + rest) && After(w, [step] + rest) == After(Apply(w, step), rest)
  {
    assert ([step] + rest)[1..] == rest;
  }
}
