/**
  Notification batching of src/notify_manager.rs. A program is any nesting of
  `notify`, `batch` and `flush` calls; a callback is itself a program, so
  callbacks may notify, batch and flush again while a flush is running.
 */
module NotifyManager {
  import opened Wrappers

  datatype Callback = Callback(id: int, body: seq<Stmt>)
  datatype Stmt = Notify(cb: Callback) | Batch(body: seq<Stmt>) | Flush

  /** The manager, the callbacks run so far and the `notify` calls made so far,
      by callback, each in order. */
  datatype Manager = Manager(queue: seq<Callback>, depth: nat, log: seq<int>, calls: seq<int>)

  const IDLE := Manager([], 0, [], [])

  // ----- sizes, for termination -----

  function Size(p: seq<Stmt>): nat
    decreases p, 1
  {
    if p == [] then 0 else StmtSize(p[0]) + Size(p[1..])
  }

  function StmtSize(s: Stmt): (n: nat)
    ensures n > 0
    decreases s, 0
  {
    match s
    case Notify(cb) => 2 + Size(cb.body)
    case Batch(body) => 1 + Size(body)
    case Flush => 1
  }

  function QueueSize(q: seq<Callback>): nat {
    if q == [] then 0 else QueueSize(q[..|q| - 1]) + 1 + Size(q[|q| - 1].body)
  }

  lemma {:induction false} QueueSizeSplit(q: seq<Callback>, i: nat)
    requires i < |q|
    ensures QueueSize(q[i..]) == 1 + Size(q[i].body) + QueueSize(q[i + 1..])
    decreases |q| - i
  {
    if i + 1 == |q| {
      assert q[i..] == [q[i]] && q[i + 1..] == [];
      assert [q[i]][..0] == [];
    } else {
      var n := |q| - 1;
      var init := q[..n];
      assert q[i..][..n - i] == init[i..] && q[i + 1..][..n - i - 1] == init[i + 1..];
      QueueSizeSplit(init, i);
    }
  }

  // ----- the operations as functions -----

  /** Run a program. The size clause says that calls only move work from the
      program to the queue. */
  function Exec(p: seq<Stmt>, m: Manager): (r: Manager)
    ensures QueueSize(r.queue) <= QueueSize(m.queue) + Size(p)
    decreases Size(p) + QueueSize(m.queue), 3
  {
    if p == [] then m else Exec(p[1..], ExecStmt(p[0], m))
  }

  function ExecStmt(s: Stmt, m: Manager): (r: Manager)
    ensures QueueSize(r.queue) < QueueSize(m.queue) + StmtSize(s)
    decreases StmtSize(s) + QueueSize(m.queue), 2
  {
    match s
    case Notify(cb) =>
      assert (m.queue + [cb])[..|m.queue|] == m.queue;
      var pushed := m.(queue := m.queue + [cb], calls := m.calls + [cb.id]);
      if m.depth == 0 then FlushAll(pushed) else pushed
    case Batch(body) =>
      var inside := Exec(body, m.(depth := m.depth + 1));
      var closed := inside.(depth := m.depth);
      if m.depth == 0 then FlushAll(closed) else closed
    case Flush => FlushAll(m)
  }

  /** Drain the queue, then run what was drained. */
  function FlushAll(m: Manager): (r: Manager)
    ensures QueueSize(r.queue) <= QueueSize(m.queue)
    decreases QueueSize(m.queue), 1
  {
    RunAll(m.queue, m.(queue := []))
  }

  function RunAll(cbs: seq<Callback>, m: Manager): (r: Manager)
    ensures QueueSize(r.queue) <= QueueSize(cbs) + QueueSize(m.queue)
    decreases QueueSize(cbs) + QueueSize(m.queue), 0
  {
    if cbs == [] then m
    else
      var n := |cbs| - 1;
      var before := RunAll(cbs[..n], m);
      Exec(cbs[n].body, before.(log := before.log + [cbs[n].id]))
  }

  // ----- the manager itself -----

  class Notifier {
    var queue: seq<Callback>
    var batchDepth: nat
    var log: seq<int>
    var calls: seq<int>

    ghost function State(): Manager
      reads this
    {
      Manager(queue, batchDepth, log, calls)
    }

    constructor ()
      ensures State() == IDLE
    {
      queue, batchDepth, log, calls := [], 0, [], [];
    }

    method NotifyCallback(cb: Callback)
      modifies this
      ensures State() == ExecStmt(Notify(cb), old(State()))
      decreases StmtSize(Notify(cb)) + QueueSize(queue), 2
    {
      assert (queue + [cb])[..|queue|] == queue;
      queue, calls := queue + [cb], calls + [cb.id];
      if batchDepth == 0 {
        FlushQueue();
      }
    }

    method RunBatch(body: seq<Stmt>)
      modifies this
      ensures State() == ExecStmt(Batch(body), old(State()))
      decreases StmtSize(Batch(body)) + QueueSize(queue), 2
    {
      batchDepth := batchDepth + 1;
      Run(body);
      DepthRestored(body, old(State()).(depth := old(batchDepth) + 1));
      var previous := batchDepth;
      batchDepth := batchDepth - 1;
      if previous == 1 {
        FlushQueue();
      }
    }

    method FlushQueue()
      modifies this
      ensures State() == FlushAll(old(State()))
      decreases QueueSize(queue), 1
    {
      var pending := queue;
      queue := [];
      ghost var drained := State();
      var i := 0;
      while i < |pending|
        invariant 0 <= i <= |pending|
        invariant State() == RunAll(pending[..i], drained)
        invariant QueueSize(queue) + QueueSize(pending[i..]) <= QueueSize(pending)
        decreases |pending| - i
      {
        QueueSizeSplit(pending, i);
        assert pending[..i + 1][..i] == pending[..i];
        log := log + [pending[i].id];
        Run(pending[i].body);
        i := i + 1;
      }
      assert pending[..i] == pending;
    }

    method Run(p: seq<Stmt>)
      modifies this
      ensures State() == Exec(p, old(State()))
      decreases Size(p) + QueueSize(queue), 3
    {
      if p != [] {
        match p[0] {
          case Notify(cb) => NotifyCallback(cb);
          case Batch(body) => RunBatch(body);
          case Flush => FlushQueue();
        }
        Run(p[1..]);
      }
    }
  }

  // ----- depth and emptiness -----

  lemma {:induction false} DepthRestored(p: seq<Stmt>, m: Manager)
    ensures Exec(p, m).depth == m.depth
    ensures m.depth == 0 && m.queue == [] ==> Exec(p, m).queue == []
    decreases Size(p) + QueueSize(m.queue), 3
  {
    if p != [] {
      DepthRestoredStmt(p[0], m);
      DepthRestored(p[1..], ExecStmt(p[0], m));
    }
  }

  lemma {:induction false} DepthRestoredStmt(s: Stmt, m: Manager)
    ensures ExecStmt(s, m).depth == m.depth
    ensures m.depth == 0 && m.queue == [] ==> ExecStmt(s, m).queue == []
    decreases StmtSize(s) + QueueSize(m.queue), 2
  {
    match s
    case Notify(cb) =>
      assert (m.queue + [cb])[..|m.queue|] == m.queue;
      if m.depth == 0 { DepthRestoredFlush(m.(queue := m.queue + [cb], calls := m.calls + [cb.id])); }
    case Batch(body) =>
      var entered := m.(depth := m.depth + 1);
      DepthRestored(body, entered);
      if m.depth == 0 { DepthRestoredFlush(Exec(body, entered).(depth := 0)); }
    case Flush => DepthRestoredFlush(m);
  }

  lemma {:induction false} DepthRestoredFlush(m: Manager)
    ensures FlushAll(m).depth == m.depth
    ensures m.depth == 0 ==> FlushAll(m).queue == []
    decreases QueueSize(m.queue), 1
  {
    DepthRestoredAll(m.queue, m.(queue := []));
  }

  lemma {:induction false} DepthRestoredAll(cbs: seq<Callback>, m: Manager)
    ensures RunAll(cbs, m).depth == m.depth
    ensures m.depth == 0 && m.queue == [] ==> RunAll(cbs, m).queue == []
    decreases QueueSize(cbs) + QueueSize(m.queue), 0
  {
    if cbs != [] {
      var n := |cbs| - 1;
      DepthRestoredAll(cbs[..n], m);
      var before := RunAll(cbs[..n], m);
      DepthRestored(cbs[n].body, before.(log := before.log + [cbs[n].id]));
    }
  }

  // ----- every callback exactly once -----

  /** How often a program submits callback `x`, counting submissions nested in
      callbacks. */
  ghost function Submissions(p: seq<Stmt>, x: int): nat
    decreases p, 1
  {
    if p == [] then 0 else SubmissionsStmt(p[0], x) + Submissions(p[1..], x)
  }

  ghost function SubmissionsStmt(s: Stmt, x: int): nat
    decreases s, 0
  {
    match s
    case Notify(cb) => (if cb.id == x then 1 else 0) + Submissions(cb.body, x)
    case Batch(body) => Submissions(body, x)
    case Flush => 0
  }

  /** The same for callbacks waiting in the queue. */
  ghost function Waiting(q: seq<Callback>, x: int): nat {
    if q == [] then 0
    else
      var last := q[|q| - 1];
      Waiting(q[..|q| - 1], x) + (if last.id == x then 1 else 0) + Submissions(last.body, x)
  }

  ghost function Runs(log: seq<int>, x: int): nat { multiset(log)[x] }

  lemma RunsAppend(log: seq<int>, id: int, x: int)
    ensures Runs(log + [id], x) == Runs(log, x) + (if id == x then 1 else 0)
  {
  }

  /** Run so far plus still waiting. */
  ghost function Account(m: Manager, x: int): nat { Runs(m.log, x) + Waiting(m.queue, x) }

  lemma {:induction false} ExecConserves(p: seq<Stmt>, m: Manager, x: int)
    ensures Account(Exec(p, m), x) == Account(m, x) + Submissions(p, x)
    decreases Size(p) + QueueSize(m.queue), 4
  {
    if p != [] {
      StmtConserves(p[0], m, x);
      ExecConserves(p[1..], ExecStmt(p[0], m), x);
    }
  }

  lemma {:induction false} StmtConserves(s: Stmt, m: Manager, x: int)
    ensures Account(ExecStmt(s, m), x) == Account(m, x) + SubmissionsStmt(s, x)
    decreases StmtSize(s) + QueueSize(m.queue), 3
  {
    match s
    case Notify(cb) => NotifyConserves(cb, m, x);
    case Batch(body) => BatchConserves(body, m, x);
    case Flush => FlushConserves(m, x);
  }

  lemma {:induction false} NotifyConserves(cb: Callback, m: Manager, x: int)
    ensures Account(ExecStmt(Notify(cb), m), x) == Account(m, x) + SubmissionsStmt(Notify(cb), x)
    decreases StmtSize(Notify(cb)) + QueueSize(m.queue), 2
  {
    PushConserves(m, cb, x);
    if m.depth == 0 { FlushConserves(m.(queue := m.queue + [cb], calls := m.calls + [cb.id]), x); }
  }

  lemma {:induction false} BatchConserves(body: seq<Stmt>, m: Manager, x: int)
    ensures Account(ExecStmt(Batch(body), m), x) == Account(m, x) + Submissions(body, x)
    decreases StmtSize(Batch(body)) + QueueSize(m.queue), 2
  {
    var entered := m.(depth := m.depth + 1);
    ExecConserves(body, entered, x);
    if m.depth == 0 { FlushConserves(Exec(body, entered).(depth := 0), x); }
  }

  lemma PushConserves(m: Manager, cb: Callback, x: int)
    ensures QueueSize(m.queue + [cb]) == QueueSize(m.queue) + 1 + Size(cb.body)
    ensures Account(m.(queue := m.queue + [cb], calls := m.calls + [cb.id]), x) ==
      Account(m, x) + SubmissionsStmt(Notify(cb), x)
  {
    assert (m.queue + [cb])[..|m.queue|] == m.queue;
  }

  lemma {:induction false} FlushConserves(m: Manager, x: int)
    ensures Account(FlushAll(m), x) == Account(m, x)
    decreases QueueSize(m.queue), 1
  {
    RunAllConserves(m.queue, m.(queue := []), x);
  }

  lemma {:induction false} RunAllConserves(cbs: seq<Callback>, m: Manager, x: int)
    ensures Account(RunAll(cbs, m), x) == Account(m, x) + Waiting(cbs, x)
    decreases QueueSize(cbs) + QueueSize(m.queue), 0
  {
    if cbs != [] {
      var n := |cbs| - 1;
      RunAllConserves(cbs[..n], m, x);
      var before := RunAll(cbs[..n], m);
      RunsAppend(before.log, cbs[n].id, x);
      ExecConserves(cbs[n].body, before.(log := before.log + [cbs[n].id]), x);
    }
  }

  /** When the outermost call of any program returns, every callback has run
      exactly as often as it was submitted on the way, nested submissions
      included; nothing is left queued and the depth is back at zero. */
  lemma RunsEveryCallbackOnce(p: seq<Stmt>)
    ensures var r := Exec(p, IDLE);
      && (forall x: int :: multiset(r.log)[x] == Submissions(p, x))
      && r.queue == [] && r.depth == 0
  {
    var r := Exec(p, IDLE);
    DepthRestored(p, IDLE);
    forall x: int
      ensures multiset(r.log)[x] == Submissions(p, x)
    {
      ExecConserves(p, IDLE, x);
      assert Runs(r.log, x) == Submissions(p, x);
    }
  }

  // ----- the order -----

  ghost predicate NoFlush(p: seq<Stmt>)
    decreases p, 1
  {
    p == [] || (NoFlushStmt(p[0]) && NoFlush(p[1..]))
  }

  ghost predicate NoFlushStmt(s: Stmt)
    decreases s, 0
  {
    match s
    case Notify(cb) => NoFlush(cb.body)
    case Batch(body) => NoFlush(body)
    case Flush => false
  }

  /** The callbacks a batch body hands to its flush, in submission order. */
  ghost function Queued(p: seq<Stmt>): seq<Callback>
    decreases p, 1
  {
    if p == [] then [] else QueuedStmt(p[0]) + Queued(p[1..])
  }

  ghost function QueuedStmt(s: Stmt): seq<Callback>
    decreases s, 0
  {
    match s
    case Notify(cb) => [cb]
    case Batch(body) => Queued(body)
    case Flush => []
  }

  /** The order callbacks run in outside any batch: a notify runs its callback
      and what that submits before going on; a batch runs what it queued when
      it closes. */
  ghost function Order(p: seq<Stmt>): seq<int>
    decreases Size(p), 2
  {
    if p == [] then [] else OrderStmt(p[0]) + Order(p[1..])
  }

  ghost function OrderStmt(s: Stmt): seq<int>
    decreases StmtSize(s), 1
  {
    match s
    case Notify(cb) => [cb.id] + Order(cb.body)
    case Batch(body) => QueuedSize(body); OrderAll(Queued(body))
    case Flush => []
  }

  ghost function OrderAll(cbs: seq<Callback>): seq<int>
    decreases QueueSize(cbs), 0
  {
    if cbs == [] then []
    else
      var n := |cbs| - 1;
      OrderAll(cbs[..n]) + ([cbs[n].id] + Order(cbs[n].body))
  }

  lemma {:induction false} QueueSizeAppend(a: seq<Callback>, b: seq<Callback>)
    ensures QueueSize(a + b) == QueueSize(a) + QueueSize(b)
  {
    if b == [] {
      assert a + b == a;
    } else {
      var n := |b| - 1;
      assert (a + b)[..|a + b| - 1] == a + b[..n];
      QueueSizeAppend(a, b[..n]);
    }
  }

  lemma {:induction false} QueuedSize(p: seq<Stmt>)
    ensures QueueSize(Queued(p)) <= Size(p)
    decreases p, 1
  {
    if p != [] {
      QueuedSizeStmt(p[0]);
      QueuedSize(p[1..]);
      QueueSizeAppend(QueuedStmt(p[0]), Queued(p[1..]));
    }
  }

  lemma {:induction false} QueuedSizeStmt(s: Stmt)
    ensures QueueSize(QueuedStmt(s)) <= StmtSize(s)
    decreases s, 0
  {
    match s
    case Notify(cb) => assert [cb][..0] == [];
    case Batch(body) => QueuedSize(body);
    case Flush =>
  }

  ghost predicate NoFlushAll(q: seq<Callback>) {
    forall i :: 0 <= i < |q| ==> NoFlush(q[i].body)
  }

  lemma {:induction false} QueuedWithoutFlush(p: seq<Stmt>)
    requires NoFlush(p)
    ensures NoFlushAll(Queued(p))
    decreases p, 1
  {
    if p != [] {
      if p[0].Batch? { QueuedWithoutFlush(p[0].body); }
      assert NoFlushAll(QueuedStmt(p[0]));
      QueuedWithoutFlush(p[1..]);
    }
  }

  ghost function Ids(q: seq<Callback>): seq<int> {
    seq(|q|, i requires 0 <= i < |q| => q[i].id)
  }

  lemma IdsAppend(a: seq<Callback>, b: seq<Callback>)
    ensures Ids(a + b) == Ids(a) + Ids(b)
  {
  }

  /** Inside a batch nothing runs; everything is queued in order. */
  lemma {:induction false} BatchOnlyQueues(p: seq<Stmt>, m: Manager)
    requires m.depth > 0 && NoFlush(p)
    ensures Exec(p, m) == m.(queue := m.queue + Queued(p), calls := m.calls + Ids(Queued(p)))
    decreases p, 1
  {
    if p == [] {
      assert m.queue + [] == m.queue && m.calls + Ids([]) == m.calls;
    } else {
      BatchOnlyQueuesStmt(p[0], m);
      BatchOnlyQueues(p[1..], ExecStmt(p[0], m));
      Regroup(m.queue, QueuedStmt(p[0]), Queued(p[1..]));
      IdsAppend(QueuedStmt(p[0]), Queued(p[1..]));
      Regroup(m.calls, Ids(QueuedStmt(p[0])), Ids(Queued(p[1..])));
    }
  }

  lemma {:induction false} BatchOnlyQueuesStmt(s: Stmt, m: Manager)
    requires m.depth > 0 && NoFlushStmt(s)
    ensures ExecStmt(s, m) == m.(queue := m.queue + QueuedStmt(s), calls := m.calls + Ids(QueuedStmt(s)))
    decreases s, 0
  {
    match s
    case Notify(cb) => assert Ids([cb]) == [cb.id];
    case Batch(body) => BatchOnlyQueues(body, m.(depth := m.depth + 1));
  }

  /** The callbacks that these callbacks submit, in order. */
  ghost function QueuedByAll(cbs: seq<Callback>): seq<Callback> {
    if cbs == [] then [] else QueuedByAll(cbs[..|cbs| - 1]) + Queued(cbs[|cbs| - 1].body)
  }

  lemma {:induction false} RunAllInBatch(cbs: seq<Callback>, m: Manager)
    requires m.depth > 0 && NoFlushAll(cbs)
    ensures RunAll(cbs, m) == Manager(
      m.queue + QueuedByAll(cbs), m.depth, m.log + Ids(cbs), m.calls + Ids(QueuedByAll(cbs)))
  {
    if cbs == [] {
      assert m.queue + [] == m.queue && m.log + Ids([]) == m.log && m.calls + Ids([]) == m.calls;
    } else {
      var n := |cbs| - 1;
      var init, last := cbs[..n], cbs[n];
      RunAllInBatch(init, m);
      var before := RunAll(init, m);
      BatchOnlyQueues(last.body, before.(log := before.log + [last.id]));
      assert cbs == init + [last];
      IdsAppend(init, [last]);
      assert Ids([last]) == [last.id];
      Regroup(m.log, Ids(init), [last.id]);
      Regroup(m.queue, QueuedByAll(init), Queued(last.body));
      IdsAppend(QueuedByAll(init), Queued(last.body));
      Regroup(m.calls, Ids(QueuedByAll(init)), Ids(Queued(last.body)));
    }
  }

  /** An explicit flush inside a batch runs everything queued so far, once and in
      order; what those callbacks submit waits for the next flush. */
  lemma FlushInBatch(m: Manager)
    requires m.depth > 0 && NoFlushAll(m.queue)
    ensures ExecStmt(Flush, m) == Manager(
      QueuedByAll(m.queue), m.depth, m.log + Ids(m.queue), m.calls + Ids(QueuedByAll(m.queue)))
  {
    RunAllInBatch(m.queue, m.(queue := []));
    assert [] + QueuedByAll(m.queue) == QueuedByAll(m.queue);
  }

  /** The order the `notify` calls are made in outside any batch: a batch makes
      its own before any of its callbacks runs. */
  ghost function CallOrder(p: seq<Stmt>): seq<int>
    decreases Size(p), 2
  {
    if p == [] then [] else CallOrderStmt(p[0]) + CallOrder(p[1..])
  }

  ghost function CallOrderStmt(s: Stmt): seq<int>
    decreases StmtSize(s), 1
  {
    match s
    case Notify(cb) => [cb.id] + CallOrder(cb.body)
    case Batch(body) => QueuedSize(body); Ids(Queued(body)) + CallsOfAll(Queued(body))
    case Flush => []
  }

  /** The calls made while these callbacks run. */
  ghost function CallsOfAll(cbs: seq<Callback>): seq<int>
    decreases QueueSize(cbs), 0
  {
    if cbs == [] then []
    else
      var n := |cbs| - 1;
      CallsOfAll(cbs[..n]) + CallOrder(cbs[n].body)
  }

  lemma {:induction false} OutsideBatchOrder(p: seq<Stmt>, log: seq<int>, calls: seq<int>)
    requires NoFlush(p)
    ensures Exec(p, Manager([], 0, log, calls)) == Manager([], 0, log + Order(p), calls + CallOrder(p))
    decreases Size(p), 2
  {
    if p == [] {
      assert log + [] == log && calls + [] == calls;
    } else {
      OutsideBatchOrderStmt(p[0], log, calls);
      OutsideBatchOrder(p[1..], log + OrderStmt(p[0]), calls + CallOrderStmt(p[0]));
      Regroup(log, OrderStmt(p[0]), Order(p[1..]));
      Regroup(calls, CallOrderStmt(p[0]), CallOrder(p[1..]));
    }
  }

  lemma {:induction false} OutsideBatchOrderStmt(s: Stmt, log: seq<int>, calls: seq<int>)
    requires NoFlushStmt(s)
    ensures ExecStmt(s, Manager([], 0, log, calls)) == Manager([], 0, log + OrderStmt(s), calls + CallOrderStmt(s))
    decreases StmtSize(s), 1
  {
    match s
    case Notify(cb) =>
      assert [] + [cb] == [cb];
      FlushOrderOne(cb, log, calls);
    case Batch(body) =>
      var entered := Manager([], 1, log, calls);
      BatchOnlyQueues(body, entered);
      assert [] + Queued(body) == Queued(body);
      QueuedSize(body);
      QueuedWithoutFlush(body);
      FlushOrder(Queued(body), log, calls + Ids(Queued(body)));
      Regroup(calls, Ids(Queued(body)), CallsOfAll(Queued(body)));
  }

  lemma {:induction false} FlushOrderOne(cb: Callback, log: seq<int>, calls: seq<int>)
    requires NoFlush(cb.body)
    ensures FlushAll(Manager([cb], 0, log, calls + [cb.id])) ==
      Manager([], 0, log + ([cb.id] + Order(cb.body)), calls + ([cb.id] + CallOrder(cb.body)))
    decreases Size(cb.body), 3
  {
    var m := Manager([], 0, log, calls + [cb.id]);
    assert [cb][..0] == [];
    assert RunAll([], m) == m;
    assert RunAll([cb], m) == Exec(cb.body, m.(log := log + [cb.id]));
    OutsideBatchOrder(cb.body, log + [cb.id], calls + [cb.id]);
    Regroup(log, [cb.id], Order(cb.body));
    Regroup(calls, [cb.id], CallOrder(cb.body));
  }

  lemma {:induction false} FlushOrder(cbs: seq<Callback>, log: seq<int>, calls: seq<int>)
    requires NoFlushAll(cbs)
    ensures RunAll(cbs, Manager([], 0, log, calls)) == Manager([], 0, log + OrderAll(cbs), calls + CallsOfAll(cbs))
    decreases QueueSize(cbs), 0
  {
    if cbs == [] {
      assert log + [] == log && calls + [] == calls;
    } else {
      var n := |cbs| - 1;
      FlushOrder(cbs[..n], log, calls);
      var before, called := log + OrderAll(cbs[..n]), calls + CallsOfAll(cbs[..n]);
      OutsideBatchOrder(cbs[n].body, before + [cbs[n].id], called);
      Regroup(before, [cbs[n].id], Order(cbs[n].body));
      Regroup(log, OrderAll(cbs[..n]), [cbs[n].id] + Order(cbs[n].body));
      Regroup(calls, CallsOfAll(cbs[..n]), CallOrder(cbs[n].body));
    }
  }

  /** Without explicit flushes, a whole program runs its callbacks in `Order` and
      makes its calls in `CallOrder`. */
  lemma RunsInOrder(p: seq<Stmt>)
    requires NoFlush(p)
    ensures Exec(p, IDLE).log == Order(p) && Exec(p, IDLE).calls == CallOrder(p)
  {
    OutsideBatchOrder(p, [], []);
    NothingBefore(Order(p));
    NothingBefore(CallOrder(p));
  }

  lemma NothingBefore(s: seq<int>)
    ensures [] + s == s
  {
  }

  // ----- submission order -----

  lemma {:induction false} OrderOfPlain(q: seq<Callback>)
    requires forall i :: 0 <= i < |q| ==> q[i].body == []
    ensures OrderAll(q) == Ids(q)
  {
    if q != [] {
      var n := |q| - 1;
      OrderOfPlain(q[..n]);
      assert Ids(q) == Ids(q[..n]) + [q[n].id];
    }
  }

  lemma SubmissionOrderStmt(s: Stmt)
    requires forall cb :: cb in QueuedStmt(s) ==> cb.body == []
    ensures OrderStmt(s) == Ids(QueuedStmt(s))
  {
    match s
    case Notify(cb) =>
      assert cb in QueuedStmt(s);
      assert OrderStmt(s) == [cb.id];
    case Batch(body) => OrderOfPlain(Queued(body));
    case Flush =>
  }

  /** If no callback submits anything, callbacks run in submission order,
      batched or not. */
  lemma {:induction false} SubmissionOrder(p: seq<Stmt>)
    requires forall cb :: cb in Queued(p) ==> cb.body == []
    ensures Order(p) == Ids(Queued(p))
    decreases p
  {
    if p != [] {
      var a, b := QueuedStmt(p[0]), Queued(p[1..]);
      assert forall cb :: cb in a || cb in b ==> cb in a + b;
      SubmissionOrder(p[1..]);
      SubmissionOrderStmt(p[0]);
      IdsAppend(a, b);
    }
  }

  // ----- exactly when -----

  /** A program whose callbacks run in the order they are submitted in: of the
      callbacks that a batch drains, only the last may submit anything. */
  ghost predicate Orderly(p: seq<Stmt>)
    decreases Size(p), 2
  {
    p == [] || (OrderlyStmt(p[0]) && Orderly(p[1..]))
  }

  ghost predicate OrderlyStmt(s: Stmt)
    decreases StmtSize(s), 1
  {
    match s
    case Notify(cb) => Orderly(cb.body)
    case Batch(body) => QueuedSize(body); OrderlyAll(Queued(body))
    case Flush => true
  }

  ghost predicate OrderlyAll(cbs: seq<Callback>)
    decreases QueueSize(cbs), 0
  {
    if cbs == [] then true
    else
      QueueSizeFront(cbs);
      if |cbs| == 1 then Orderly(cbs[0].body)
      else Queued(cbs[0].body) == [] && OrderlyAll(cbs[1..])
  }

  lemma QueueSizeFront(q: seq<Callback>)
    requires q != []
    ensures QueueSize(q) == 1 + Size(q[0].body) + QueueSize(q[1..])
  {
    QueueSizeSplit(q, 0);
    assert q[0..] == q;
  }

  lemma {:induction false} OrderAllFront(cbs: seq<Callback>)
    requires cbs != []
    ensures OrderAll(cbs) == [cbs[0].id] + Order(cbs[0].body) + OrderAll(cbs[1..])
  {
    var n := |cbs| - 1;
    if n == 0 {
      assert cbs[..0] == [] && cbs[1..] == [];
    } else {
      OrderAllFront(cbs[..n]);
      assert cbs[..n][1..] == cbs[1..][..n - 1] && cbs[1..][n - 1] == cbs[n];
      Regroup([cbs[0].id] + Order(cbs[0].body), OrderAll(cbs[1..][..n - 1]), [cbs[n].id] + Order(cbs[n].body));
    }
  }

  lemma {:induction false} CallsOfAllFront(cbs: seq<Callback>)
    requires cbs != []
    ensures CallsOfAll(cbs) == CallOrder(cbs[0].body) + CallsOfAll(cbs[1..])
  {
    var n := |cbs| - 1;
    if n == 0 {
      assert cbs[..0] == [] && cbs[1..] == [];
    } else {
      CallsOfAllFront(cbs[..n]);
      assert cbs[..n][1..] == cbs[1..][..n - 1] && cbs[1..][n - 1] == cbs[n];
      Regroup(CallOrder(cbs[0].body), CallsOfAll(cbs[1..][..n - 1]), CallOrder(cbs[n].body));
    }
  }

  /** As many callbacks run as calls are made. */
  lemma {:induction false} SameLength(p: seq<Stmt>)
    ensures |Order(p)| == |CallOrder(p)|
    decreases Size(p), 2
  {
    if p != [] {
      SameLengthStmt(p[0]);
      SameLength(p[1..]);
    }
  }

  lemma {:induction false} SameLengthStmt(s: Stmt)
    ensures |OrderStmt(s)| == |CallOrderStmt(s)|
    decreases StmtSize(s), 1
  {
    match s
    case Notify(cb) => SameLength(cb.body);
    case Batch(body) =>
      QueuedSize(body);
      SameLengthAll(Queued(body));
    case Flush =>
  }

  lemma {:induction false} SameLengthAll(cbs: seq<Callback>)
    ensures |OrderAll(cbs)| == |cbs| + |CallsOfAll(cbs)|
    decreases QueueSize(cbs), 0
  {
    if cbs != [] {
      var n := |cbs| - 1;
      SameLengthAll(cbs[..n]);
      SameLength(cbs[n].body);
    }
  }

  /** A program that queues nothing runs nothing. */
  lemma {:induction false} SilentIff(p: seq<Stmt>)
    ensures Order(p) == [] <==> Queued(p) == []
    decreases p
  {
    if p != [] {
      SilentStmtIff(p[0]);
      SilentIff(p[1..]);
      assert |Order(p)| == |OrderStmt(p[0])| + |Order(p[1..])|;
      assert |Queued(p)| == |QueuedStmt(p[0])| + |Queued(p[1..])|;
    }
  }

  lemma SilentStmtIff(s: Stmt)
    ensures |OrderStmt(s)| == 0 <==> |QueuedStmt(s)| == 0
  {
    if s.Batch? && Queued(s.body) != [] { OrderAllFront(Queued(s.body)); }
  }

  ghost predicate Distinct(s: seq<int>) {
    forall i, j :: 0 <= i < j < |s| ==> s[i] != s[j]
  }

  lemma DistinctParts(a: seq<int>, b: seq<int>)
    requires Distinct(a + b)
    ensures Distinct(a) && Distinct(b) && forall i, j :: 0 <= i < |a| && 0 <= j < |b| ==> a[i] != b[j]
  {
    forall i, j | 0 <= i < j < |a|
      ensures a[i] != a[j]
    {
      assert (a + b)[i] == a[i] && (a + b)[j] == a[j];
    }
    forall i, j | 0 <= i < j < |b|
      ensures b[i] != b[j]
    {
      assert (a + b)[|a| + i] == b[i] && (a + b)[|a| + j] == b[j];
    }
    forall i, j | 0 <= i < |a| && 0 <= j < |b|
      ensures a[i] != b[j]
    {
      assert (a + b)[i] == a[i] && (a + b)[|a| + j] == b[j];
    }
  }

  lemma SplitEqual(a: seq<int>, b: seq<int>, c: seq<int>, d: seq<int>)
    requires |a| == |c|
    ensures a + b == c + d <==> a == c && b == d
  {
    if a + b == c + d {
      assert a == (a + b)[..|a|] && c == (c + d)[..|a|];
      assert b == (a + b)[|a|..] && d == (c + d)[|a|..];
    }
  }

  lemma {:induction false} OrderlyIff(p: seq<Stmt>)
    requires Distinct(Order(p))
    ensures Order(p) == CallOrder(p) <==> Orderly(p)
    decreases Size(p), 2
  {
    if p != [] {
      DistinctParts(OrderStmt(p[0]), Order(p[1..]));
      OrderlyStmtIff(p[0]);
      OrderlyIff(p[1..]);
      SameLengthStmt(p[0]);
      SplitEqual(OrderStmt(p[0]), Order(p[1..]), CallOrderStmt(p[0]), CallOrder(p[1..]));
    }
  }

  lemma {:induction false} OrderlyStmtIff(s: Stmt)
    requires Distinct(OrderStmt(s))
    ensures OrderStmt(s) == CallOrderStmt(s) <==> OrderlyStmt(s)
    decreases StmtSize(s), 1
  {
    match s
    case Notify(cb) =>
      DistinctParts([cb.id], Order(cb.body));
      OrderlyIff(cb.body);
      SplitEqual([cb.id], Order(cb.body), [cb.id], CallOrder(cb.body));
    case Batch(body) =>
      QueuedSize(body);
      OrderlyAllIff(Queued(body));
    case Flush =>
  }

  lemma {:induction false} OrderlyAllIff(cbs: seq<Callback>)
    requires Distinct(OrderAll(cbs))
    ensures OrderAll(cbs) == Ids(cbs) + CallsOfAll(cbs) <==> OrderlyAll(cbs)
    decreases QueueSize(cbs), 0
  {
    if cbs != [] {
      QueueSizeFront(cbs);
      OrderAllFront(cbs);
      CallsOfAllFront(cbs);
      var head, body, tail := cbs[0].id, cbs[0].body, cbs[1..];
      assert Ids(cbs) == [head] + Ids(tail);
      DistinctParts([head] + Order(body), OrderAll(tail));
      DistinctParts([head], Order(body));
      if |cbs| == 1 {
        OrderlyIff(body);
        assert tail == [];
        LastDrained(head, Order(body), CallOrder(body));
      } else if Queued(body) == [] {
        SilentIff(body);
        SameLength(body);
        OrderlyAllIff(tail);
        SilentDrained(head, OrderAll(tail), Ids(tail), CallsOfAll(tail));
      } else {
        SilentIff(body);
        OrderAllFront(tail);
        NextIsOvertaken(head, Order(body), OrderAll(tail), tail[0].id, Ids(tail), CallOrder(body) + CallsOfAll(tail));
      }
    }
  }

  lemma LastDrained(head: int, ran: seq<int>, called: seq<int>)
    ensures [head] + ran + [] == [head] + [] + (called + []) <==> ran == called
  {
    assert [head] + ran + [] == [head] + ran && [head] + [] + (called + []) == [head] + called;
    SplitEqual([head], ran, [head], called);
  }

  lemma SilentDrained(head: int, ran: seq<int>, ids: seq<int>, called: seq<int>)
    ensures [head] + [] + ran == [head] + ids + ([] + called) <==> ran == ids + called
  {
    assert [head] + [] + ran == [head] + ran && [head] + ids + ([] + called) == [head] + (ids + called);
    SplitEqual([head], ran, [head], ids + called);
  }

  /** What a callback submits runs before the next one drained, which was
      submitted first. */
  lemma NextIsOvertaken(head: int, inner: seq<int>, later: seq<int>, next: int, ids: seq<int>, called: seq<int>)
    requires inner != [] && |later| > 0 && later[0] == next && |ids| > 0 && ids[0] == next
    requires forall i, j :: 0 <= i < |[head] + inner| && 0 <= j < |later| ==> ([head] + inner)[i] != later[j]
    ensures [head] + inner + later != [head] + ids + called
  {
    assert ([head] + inner)[1] == inner[0] != later[0];
    assert ([head] + inner + later)[1] == inner[0] && ([head] + ids + called)[1] == next;
  }

  /** When every callback is submitted at most once, a program without explicit
      flushes runs its callbacks in the order of their `notify` calls if and only
      if it is orderly. */
  lemma RunsInSubmissionOrderIff(p: seq<Stmt>)
    requires NoFlush(p) && forall x: int :: Submissions(p, x) <= 1
    ensures Exec(p, IDLE).log == Exec(p, IDLE).calls <==> Orderly(p)
  {
    RunsInOrder(p);
    RunsEveryCallbackOnce(p);
    OnceIsDistinct(Order(p));
    OrderlyIff(p);
  }

  lemma OnceIsDistinct(s: seq<int>)
    requires forall x: int :: multiset(s)[x] <= 1
    ensures Distinct(s)
  {
    forall i, j | 0 <= i < j < |s|
      ensures s[i] != s[j]
    {
      assert s == s[..j] + s[j..] && s[..j][i] == s[i] && s[j..][0] == s[j];
      TwiceIfInBoth(s[..j], s[j..], s[j]);
    }
  }

  lemma TwiceIfInBoth(a: seq<int>, b: seq<int>, x: int)
    ensures x in a && x in b ==> multiset(a + b)[x] >= 2
  {
    if x in a && x in b { assert x in multiset(a) && x in multiset(b); }
  }

  /** What a batch of two callbacks runs and calls. */
  lemma BatchOfTwo(a: Callback, b: Callback)
    ensures var p := [Batch([Notify(a), Notify(b)])];
      && Order(p) == [a.id] + Order(a.body) + ([b.id] + Order(b.body))
      && CallOrder(p) == [a.id, b.id] + (CallOrder(a.body) + CallOrder(b.body))
  {
    var body := [Notify(a), Notify(b)];
    var p := [Batch(body)];
    assert body[1..] == [Notify(b)] && [Notify(b)][1..] == [] && p[1..] == [];
    assert Queued([Notify(b)]) == [b];
    assert Queued(body) == [a, b] && [a, b][1..] == [b] && [b][1..] == [];
    OrderAllFront([a, b]);
    OrderAllFront([b]);
    CallsOfAllFront([a, b]);
    CallsOfAllFront([b]);
    assert Ids([a, b]) == [a.id, b.id];
  }

  /** A batch of two callbacks, the first of which submits a third: the third
      runs before the second. */
  lemma ReentrantCallbackOvertakes()
    ensures var p := [Batch([Notify(Callback(1, [Notify(Callback(3, []))])), Notify(Callback(2, []))])];
      Order(p) == [1, 3, 2] && CallOrder(p) == [1, 2, 3]
  {
    var inner := [Notify(Callback(3, []))];
    assert inner[1..] == [] && Order([]) == [] && CallOrder([]) == [];
    assert Order(inner) == [3] && CallOrder(inner) == [3];
    BatchOfTwo(Callback(1, inner), Callback(2, []));
  }
}
