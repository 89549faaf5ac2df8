/**
  Infinite queries of src/infinite.rs, the page methods of src/client.rs and
  the page loop of src/infinite_executor.rs: a window of pages growing at
  either end and evicting at the opposite one.
 */
module InfiniteWindow {
  import opened Wrappers

  /** Pages and the parameter each was fetched with. */
  datatype InfiniteData<T, P> = InfiniteData(pages: seq<T>, params: seq<P>)
  {
    ghost predicate Valid() { |pages| == |params| }
  }

  datatype Request = Next | Previous

  /** What a request meets: a fetch of the key already in flight, or the answer
      of its own fetch. */
  datatype Reply<T> = Busy | Failed | Page(page: T)
  {
    function Arrived(): Option<T> { if Page? then Some(page) else None }
  }

  // ----- the page methods -----

  /** The last `max` elements, and the first `max`. */
  ghost function Newest<X>(s: seq<X>, max: Option<nat>): (r: seq<X>)
    ensures max.Some? ==> |r| <= max.value
  {
    if max.Some? && |s| > max.value then s[|s| - max.value..] else s
  }

  ghost function Oldest<X>(s: seq<X>, max: Option<nat>): (r: seq<X>)
    ensures max.Some? ==> |r| <= max.value
  {
    if max.Some? && |s| > max.value then s[..max.value] else s
  }

  /** `append_infinite_page`: push at the end, drop from the front. */
  method Append<T, P>(d: InfiniteData<T, P>, page: T, param: P, max: Option<nat>) returns (r: InfiniteData<T, P>)
    requires d.Valid()
    ensures r.Valid()
    ensures r.pages == Newest(d.pages + [page], max) && r.params == Newest(d.params + [param], max)
  {
    var pages, params := d.pages + [page], d.params + [param];
    if max.Some? {
      ghost var n := |pages|;
      while |pages| > max.value
        invariant |pages| == |params| <= n
        invariant |pages| >= max.value || |pages| == n
        invariant pages == (d.pages + [page])[n - |pages|..]
        invariant params == (d.params + [param])[n - |params|..]
        decreases |pages|
      {
        pages := pages[1..];
        params := params[1..];
      }
    }
    r := InfiniteData(pages, params);
  }

  /** `prepend_infinite_page`: insert at the front, drop from the end. */
  method Prepend<T, P>(d: InfiniteData<T, P>, page: T, param: P, max: Option<nat>) returns (r: InfiniteData<T, P>)
    requires d.Valid()
    ensures r.Valid()
    ensures r.pages == Oldest([page] + d.pages, max) && r.params == Oldest([param] + d.params, max)
  {
    var pages, params := [page] + d.pages, [param] + d.params;
    if max.Some? {
      ghost var n := |pages|;
      while |pages| > max.value
        invariant |pages| == |params| <= n
        invariant |pages| >= max.value || |pages| == n
        invariant pages == ([page] + d.pages)[..|pages|]
        invariant params == ([param] + d.params)[..|params|]
        decreases |pages|
      {
        pages := pages[..|pages| - 1];
        params := params[..|params| - 1];
      }
    }
    r := InfiniteData(pages, params);
  }

  // ----- the page loop -----

  /** An infinite query; the page parameter functions see the boundary page
      and all pages. */
  datatype Query<!T, !P> = Query(
    initial: P,
    getNext: Option<(T, seq<T>) -> Option<P>>,
    getPrevious: Option<(T, seq<T>) -> Option<P>>,
    maxPages: Option<nat>)

  /** The parameter the next request would fetch, from the boundary page. */
  function NextParam<T, P>(q: Query<T, P>, d: InfiniteData<T, P>): Option<P> {
    if q.getNext.Some? && d.pages != [] then q.getNext.value(d.pages[|d.pages| - 1], d.pages) else None
  }

  function PreviousParam<T, P>(q: Query<T, P>, d: InfiniteData<T, P>): Option<P> {
    if q.getPrevious.Some? && d.pages != [] then q.getPrevious.value(d.pages[0], d.pages) else None
  }

  function ParamFor<T, P>(q: Query<T, P>, d: InfiniteData<T, P>, request: Request): Option<P> {
    if request.Next? then NextParam(q, d) else PreviousParam(q, d)
  }

  /** One served request: the fetch of the wanted parameter succeeds with a
      page or fails. */
  ghost function Serve<T, P>(q: Query<T, P>, d: InfiniteData<T, P>, request: Request, page: Option<T>): InfiniteData<T, P> {
    var param := ParamFor(q, d, request);
    if param.None? || page.None? then d
    else if request.Next? then
      InfiniteData(Newest(d.pages + [page.value], q.maxPages), Newest(d.params + [param.value], q.maxPages))
    else
      InfiniteData(Oldest([page.value] + d.pages, q.maxPages), Oldest([param.value] + d.params, q.maxPages))
  }

  /** The cache after the first fetch and the first `n` requests; `held` is what
      the key held before, which stays when the first fetch fails. */
  ghost function After<T, P>(q: Query<T, P>, held: Option<InfiniteData<T, P>>, first: Option<T>, requests: seq<Request>, replies: nat -> Reply<T>, n: nat)
    : Option<InfiniteData<T, P>>
    requires n <= |requests|
  {
    if n == 0 then
      if first.Some? then Some(InfiniteData([first.value], [q.initial])) else held
    else
      var before := After(q, held, first, requests, replies, n - 1);
      if before.Some? then Some(Serve(q, before.value, requests[n - 1], replies(n - 1).Arrived())) else None
  }

  /** The parameters fetched: the initial one, then one per request that finds
      data, nothing in flight and a page to ask for. */
  ghost function Asked<T, P>(q: Query<T, P>, held: Option<InfiniteData<T, P>>, first: Option<T>, requests: seq<Request>, replies: nat -> Reply<T>, n: nat)
    : seq<P>
    requires n <= |requests|
  {
    if n == 0 then [q.initial]
    else
      var before := After(q, held, first, requests, replies, n - 1);
      var asked := Asked(q, held, first, requests, replies, n - 1);
      if before.Some? && !replies(n - 1).Busy? && ParamFor(q, before.value, requests[n - 1]).Some?
      then asked + [ParamFor(q, before.value, requests[n - 1]).value]
      else asked
  }

  /** `run_infinite_query_loop` over a finite stream of requests; `replies(i)`
      is what request `i` meets if it gets that far. */
  method RunLoop<T, P>(q: Query<T, P>, held: Option<InfiniteData<T, P>>, first: Option<T>, requests: seq<Request>, replies: nat -> Reply<T>)
    returns (cached: Option<InfiniteData<T, P>>, asked: seq<P>)
    requires held.Some? ==> held.value.Valid()
    ensures cached == After(q, held, first, requests, replies, |requests|)
    ensures asked == Asked(q, held, first, requests, replies, |requests|)
    ensures cached.Some? ==> cached.value.Valid()
  {
    cached, asked := held, [q.initial];
    if first.Some? { cached := Some(InfiniteData([first.value], [q.initial])); }
    var i := 0;
    while i < |requests|
      invariant 0 <= i <= |requests|
      invariant cached == After(q, held, first, requests, replies, i)
      invariant asked == Asked(q, held, first, requests, replies, i)
      invariant cached.Some? ==> cached.value.Valid()
    {
      var request, reply := requests[i], replies(i);
      i := i + 1;
      if cached.None? { continue; }
      if reply.Busy? { continue; }
      var param := ParamFor(q, cached.value, request);
      if param.None? { continue; }
      asked := asked + [param.value];
      if reply.Page? {
        var d;
        if request.Next? {
          d := Append(cached.value, reply.page, param.value, q.maxPages);
        } else {
          d := Prepend(cached.value, reply.page, param.value, q.maxPages);
        }
        cached := Some(d);
      }
    }
  }

  // ----- what holds in every run -----

  /** The window never exceeds its bound after a page was added, and with room
      for one page the newest one is kept at its end. */
  lemma WindowKeepsNewest<T, P>(q: Query<T, P>, d: InfiniteData<T, P>, request: Request, page: T)
    requires d.Valid() && ParamFor(q, d, request).Some?
    ensures var r := Serve(q, d, request, Some(page));
      && r.Valid()
      && (q.maxPages.Some? ==> |r.pages| <= q.maxPages.value)
      && (q.maxPages.None? || q.maxPages.value >= 1 ==>
          && |r.pages| > 0
          && (if request.Next? then r.pages[|r.pages| - 1] else r.pages[0]) == page
          && (if request.Next? then r.params[|r.params| - 1] else r.params[0]) == ParamFor(q, d, request).value)
  {
  }

  /** The first fetch, when it succeeds, replaces whatever the key held by its one
      page; when it fails, that stays. */
  lemma RunStarts<T, P>(q: Query<T, P>, held: Option<InfiniteData<T, P>>, first: Option<T>, requests: seq<Request>, replies: nat -> Reply<T>)
    ensures After(q, held, first, requests, replies, 0) ==
      if first.Some? then Some(InfiniteData([first.value], [q.initial])) else held
    ensures Asked(q, held, first, requests, replies, 0) == [q.initial]
  {
  }

  /** The parameter beyond the end of a window that a request wants to extend, as
      the query's own function gives it. */
  ghost predicate Wants<T, P>(q: Query<T, P>, d: InfiniteData<T, P>, request: Request, p: P) {
    if request.Next?
    then q.getNext.Some? && d.pages != [] && q.getNext.value(d.pages[|d.pages| - 1], d.pages) == Some(p)
    else q.getPrevious.Some? && d.pages != [] && q.getPrevious.value(d.pages[0], d.pages) == Some(p)
  }

  /** A next-page request that finds data, nothing in flight and a parameter
      fetches that parameter; the page that arrives is put last with it, and only
      what is too much in front goes. */
  lemma ServedNextIsKept<T, P>(
      q: Query<T, P>, held: Option<InfiniteData<T, P>>, first: Option<T>, requests: seq<Request>, replies: nat -> Reply<T>, n: nat, p: P)
    requires n < |requests| && requests[n].Next? && replies(n).Page? && (held.Some? ==> held.value.Valid())
    requires var c := After(q, held, first, requests, replies, n); c.Some? && Wants(q, c.value, Next, p)
    ensures var d := After(q, held, first, requests, replies, n).value;
      var pages, params := d.pages + [replies(n).page], d.params + [p];
      var excess := if q.maxPages.Some? && |pages| > q.maxPages.value then |pages| - q.maxPages.value else 0;
      && |pages| == |params|
      && After(q, held, first, requests, replies, n + 1) == Some(InfiniteData(pages[excess..], params[excess..]))
      && Asked(q, held, first, requests, replies, n + 1) == Asked(q, held, first, requests, replies, n) + [p]
  {
    RunStaysValid(q, held, first, requests, replies, n);
    var d := After(q, held, first, requests, replies, n).value;
    assert After(q, held, first, requests, replies, n + 1) == Some(Serve(q, d, Next, Some(replies(n).page)));
    KeptSlices(d.pages + [replies(n).page], q.maxPages);
    KeptSlices(d.params + [p], q.maxPages);
  }

  /** A previous-page request likewise, at the front. */
  lemma ServedPreviousIsKept<T, P>(
      q: Query<T, P>, held: Option<InfiniteData<T, P>>, first: Option<T>, requests: seq<Request>, replies: nat -> Reply<T>, n: nat, p: P)
    requires n < |requests| && requests[n].Previous? && replies(n).Page? && (held.Some? ==> held.value.Valid())
    requires var c := After(q, held, first, requests, replies, n); c.Some? && Wants(q, c.value, Previous, p)
    ensures var d := After(q, held, first, requests, replies, n).value;
      var pages, params := [replies(n).page] + d.pages, [p] + d.params;
      var kept := if q.maxPages.Some? && |pages| > q.maxPages.value then q.maxPages.value else |pages|;
      && |pages| == |params|
      && After(q, held, first, requests, replies, n + 1) == Some(InfiniteData(pages[..kept], params[..kept]))
      && Asked(q, held, first, requests, replies, n + 1) == Asked(q, held, first, requests, replies, n) + [p]
  {
    RunStaysValid(q, held, first, requests, replies, n);
    var d := After(q, held, first, requests, replies, n).value;
    assert After(q, held, first, requests, replies, n + 1) == Some(Serve(q, d, Previous, Some(replies(n).page)));
    KeptSlices([replies(n).page] + d.pages, q.maxPages);
    KeptSlices([p] + d.params, q.maxPages);
  }

  /** What is kept is everything but the excess at one end. */
  lemma KeptSlices<X>(s: seq<X>, max: Option<nat>)
    ensures var excess := if max.Some? && |s| > max.value then |s| - max.value else 0; Newest(s, max) == s[excess..]
    ensures var kept := if max.Some? && |s| > max.value then max.value else |s|; Oldest(s, max) == s[..kept]
  {
    assert s[0..] == s && s[..|s|] == s;
  }

  /** A failed fetch asks and changes nothing; a request that finds no data, a
      fetch in flight or no parameter does not even ask. */
  lemma UnservedChangesNothing<T, P>(
      q: Query<T, P>, held: Option<InfiniteData<T, P>>, first: Option<T>, requests: seq<Request>, replies: nat -> Reply<T>, n: nat)
    requires n < |requests|
    ensures var c := After(q, held, first, requests, replies, n);
      var asks := c.Some? && !replies(n).Busy? && exists p :: Wants(q, c.value, requests[n], p);
      && (!asks || replies(n).Failed? ==> After(q, held, first, requests, replies, n + 1) == c)
      && (!asks ==> Asked(q, held, first, requests, replies, n + 1) == Asked(q, held, first, requests, replies, n))
      && |Asked(q, held, first, requests, replies, n + 1)| ==
           |Asked(q, held, first, requests, replies, n)| + (if asks then 1 else 0)
  {
    var c := After(q, held, first, requests, replies, n);
    if c.Some? {
      var param := ParamFor(q, c.value, requests[n]);
      assert param.Some? ==> Wants(q, c.value, requests[n], param.value);
    }
  }

  lemma {:induction false} RunStaysValid<T, P>(
      q: Query<T, P>, held: Option<InfiniteData<T, P>>, first: Option<T>, requests: seq<Request>, replies: nat -> Reply<T>, n: nat)
    requires n <= |requests| && (held.Some? ==> held.value.Valid())
    ensures var c := After(q, held, first, requests, replies, n); c.Some? ==> c.value.Valid()
  {
    if n > 0 { RunStaysValid(q, held, first, requests, replies, n - 1); }
  }

  /** Pages and parameters pair up; the window is not empty, and within its
      bound, unless the bound is zero. */
  ghost predicate InBounds<T, P>(q: Query<T, P>, d: InfiniteData<T, P>) {
    && d.Valid()
    && (q.maxPages.Some? && q.maxPages.value >= 1 ==> 1 <= |d.pages| <= q.maxPages.value)
    && (q.maxPages.None? ==> |d.pages| >= 1)
  }

  /** Every run keeps a window in bounds, its own or one the key already held. */
  lemma {:induction false} RunStaysBounded<T, P>(q: Query<T, P>, held: Option<InfiniteData<T, P>>, first: Option<T>, requests: seq<Request>, replies: nat -> Reply<T>, n: nat)
    requires n <= |requests| && (held.Some? ==> InBounds(q, held.value))
    ensures var c := After(q, held, first, requests, replies, n);
      c.Some? ==> InBounds(q, c.value)
  {
    if n > 0 {
      RunStaysBounded(q, held, first, requests, replies, n - 1);
      var before := After(q, held, first, requests, replies, n - 1);
      if before.Some? && replies(n - 1).Page? && ParamFor(q, before.value, requests[n - 1]).Some? {
        WindowKeepsNewest(q, before.value, requests[n - 1], replies(n - 1).page);
      }
    }
  }

  /** A bound of zero pages empties the window at the first added page. */
  lemma ZeroPagesEmptiesWindow<T, P>(q: Query<T, P>, d: InfiniteData<T, P>, request: Request, page: T)
    requires q.maxPages == Some(0) && d.Valid() && ParamFor(q, d, request).Some?
    ensures Serve(q, d, request, Some(page)) == InfiniteData([], [])
  {
  }

  // ----- contiguous parameters -----

  /** `next` and `previous` are inverse partial steps on parameters. */
  ghost predicate InverseSteps<P(!new)>(next: P -> Option<P>, previous: P -> Option<P>) {
    && (forall p, r :: next(p) == Some(r) ==> previous(r) == Some(p))
    && (forall p, r :: previous(p) == Some(r) ==> next(r) == Some(p))
  }

  /** A page fetched for `p` yields the steps of `p`, whatever the other pages
      are. */
  ghost predicate PageOf<T(!new), P(!new)>(q: Query<T, P>, next: P -> Option<P>, previous: P -> Option<P>, page: T, p: P) {
    && (q.getNext.Some? ==> forall all :: q.getNext.value(page, all) == next(p))
    && (q.getPrevious.Some? ==> forall all :: q.getPrevious.value(page, all) == previous(p))
  }

  /** Each kept parameter is the step after the one before it, and each page
      belongs to its parameter. */
  ghost predicate Contiguous<T(!new), P(!new)>(
      q: Query<T, P>, next: P -> Option<P>, previous: P -> Option<P>, d: InfiniteData<T, P>)
  {
    && d.Valid()
    && (forall i :: 0 <= i < |d.params| - 1 ==> Linked(next, d.params, i))
    && (forall i :: 0 <= i < |d.params| ==> PageOf(q, next, previous, d.pages[i], d.params[i]))
  }

  ghost predicate Linked<P(!new)>(next: P -> Option<P>, params: seq<P>, i: nat)
    requires i + 1 < |params|
  {
    next(params[i]) == Some(params[i + 1])
  }

  /** Evicting from the front keeps the chain. */
  lemma SuffixStaysContiguous<T(!new), P(!new)>(
      q: Query<T, P>, next: P -> Option<P>, previous: P -> Option<P>, d: InfiniteData<T, P>, k: nat)
    requires Contiguous(q, next, previous, d) && k <= |d.params|
    ensures Contiguous(q, next, previous, InfiniteData(d.pages[k..], d.params[k..]))
  {
    var params := d.params[k..];
    forall i | 0 <= i < |params| - 1
      ensures Linked(next, params, i)
    {
      assert Linked(next, d.params, i + k);
    }
    forall i | 0 <= i < |params|
      ensures PageOf(q, next, previous, d.pages[k..][i], params[i])
    {
      assert PageOf(q, next, previous, d.pages[i + k], d.params[i + k]);
    }
  }

  /** Growing at the end keeps the chain. */
  lemma GrownStaysContiguous<T(!new), P(!new)>(
      q: Query<T, P>, next: P -> Option<P>, previous: P -> Option<P>, d: InfiniteData<T, P>, page: T, p: P)
    requires Contiguous(q, next, previous, d) && PageOf(q, next, previous, page, p)
    requires d.params != [] && next(d.params[|d.params| - 1]) == Some(p)
    ensures Contiguous(q, next, previous, InfiniteData(d.pages + [page], d.params + [p]))
  {
    var params := d.params + [p];
    forall i | 0 <= i < |params| - 1
      ensures Linked(next, params, i)
    {
      if i < |d.params| - 1 { assert Linked(next, d.params, i); }
    }
  }

  lemma AppendStaysContiguous<T(!new), P(!new)>(
      q: Query<T, P>, next: P -> Option<P>, previous: P -> Option<P>, d: InfiniteData<T, P>, page: T)
    requires Contiguous(q, next, previous, d)
    requires NextParam(q, d).Some? && PageOf(q, next, previous, page, NextParam(q, d).value)
    ensures Contiguous(q, next, previous, Serve(q, d, Next, Some(page)))
  {
    var p := NextParam(q, d).value;
    assert PageOf(q, next, previous, d.pages[|d.pages| - 1], d.params[|d.params| - 1]);
    GrownStaysContiguous(q, next, previous, d, page, p);
    var grown := InfiniteData(d.pages + [page], d.params + [p]);
    var n := |grown.params|;
    var k := if q.maxPages.Some? && n > q.maxPages.value then n - q.maxPages.value else 0;
    SuffixStaysContiguous(q, next, previous, grown, k);
    assert grown.pages[0..] == grown.pages && grown.params[0..] == grown.params;
  }

  lemma PrependStaysContiguous<T(!new), P(!new)>(
      q: Query<T, P>, next: P -> Option<P>, previous: P -> Option<P>, d: InfiniteData<T, P>, page: T)
    requires InverseSteps(next, previous) && Contiguous(q, next, previous, d)
    requires PreviousParam(q, d).Some? && PageOf(q, next, previous, page, PreviousParam(q, d).value)
    ensures Contiguous(q, next, previous, Serve(q, d, Previous, Some(page)))
  {
    var p := PreviousParam(q, d).value;
    var pages, params := [page] + d.pages, [p] + d.params;
    assert PageOf(q, next, previous, d.pages[0], d.params[0]);
    assert previous(d.params[0]) == Some(p);
    forall i | 0 <= i < |params| - 1
      ensures Linked(next, params, i)
    {
      if i > 0 { assert Linked(next, d.params, i - 1); }
    }
    var r := Serve(q, d, Previous, Some(page));
    assert r.params == params[..|r.params|] && r.pages == pages[..|r.params|];
    forall i | 0 <= i < |r.params| - 1
      ensures Linked(next, r.params, i)
    {
      assert Linked(next, params, i);
    }
  }

  /** Every page a run receives is a page of the parameter it asked for, and what
      the key already held is a chain. */
  ghost predicate HonestReplies<T(!new), P(!new)>(
      q: Query<T, P>, next: P -> Option<P>, previous: P -> Option<P>,
      held: Option<InfiniteData<T, P>>, first: Option<T>, requests: seq<Request>, replies: nat -> Reply<T>)
  {
    && (held.Some? ==> Contiguous(q, next, previous, held.value))
    && (first.Some? ==> PageOf(q, next, previous, first.value, q.initial))
    && (forall n: nat :: n < |requests| ==> HonestReply(q, next, previous, held, first, requests, replies, n))
  }

  ghost predicate HonestReply<T(!new), P(!new)>(
      q: Query<T, P>, next: P -> Option<P>, previous: P -> Option<P>,
      held: Option<InfiniteData<T, P>>, first: Option<T>, requests: seq<Request>, replies: nat -> Reply<T>, n: nat)
    requires n < |requests|
  {
    var before := After(q, held, first, requests, replies, n);
    before.Some? && ParamFor(q, before.value, requests[n]).Some? && replies(n).Page? ==>
      PageOf(q, next, previous, replies(n).page, ParamFor(q, before.value, requests[n]).value)
  }

  /** However requests in both directions, failures and evictions mix, the kept
      parameters stay one unbroken chain. */
  lemma {:induction false} RunStaysContiguous<T(!new), P(!new)>(
      q: Query<T, P>, next: P -> Option<P>, previous: P -> Option<P>,
      held: Option<InfiniteData<T, P>>, first: Option<T>, requests: seq<Request>, replies: nat -> Reply<T>, n: nat)
    requires InverseSteps(next, previous) && HonestReplies(q, next, previous, held, first, requests, replies)
    requires n <= |requests|
    ensures var c := After(q, held, first, requests, replies, n);
      c.Some? ==> Contiguous(q, next, previous, c.value)
  {
    if n > 0 {
      RunStaysContiguous(q, next, previous, held, first, requests, replies, n - 1);
      var before := After(q, held, first, requests, replies, n - 1);
      assert HonestReply(q, next, previous, held, first, requests, replies, n - 1);
      if before.Some? && ParamFor(q, before.value, requests[n - 1]).Some? && replies(n - 1).Page? {
        if requests[n - 1].Next? {
          AppendStaysContiguous(q, next, previous, before.value, replies(n - 1).page);
        } else {
          PrependStaysContiguous(q, next, previous, before.value, replies(n - 1).page);
        }
      }
    }
  }

  /** And every parameter fetched after the initial one is one step beyond the
      end of the window that its request asks to extend. */
  lemma AskedIsBeyondTheWindow<T(!new), P(!new)>(
      q: Query<T, P>, next: P -> Option<P>, previous: P -> Option<P>,
      held: Option<InfiniteData<T, P>>, first: Option<T>, requests: seq<Request>, replies: nat -> Reply<T>, n: nat)
    requires InverseSteps(next, previous) && HonestReplies(q, next, previous, held, first, requests, replies)
    requires n < |requests| && Asked(q, held, first, requests, replies, n + 1) != Asked(q, held, first, requests, replies, n)
    ensures var c, asked := After(q, held, first, requests, replies, n), Asked(q, held, first, requests, replies, n + 1);
      && c.Some? && c.value.params != [] && asked != []
      && Some(asked[|asked| - 1]) ==
           (if requests[n].Next? then next(c.value.params[|c.value.params| - 1]) else previous(c.value.params[0]))
  {
    RunStaysContiguous(q, next, previous, held, first, requests, replies, n);
    AskedGrows(q, held, first, requests, replies, n);
    ParamIsBeyond(q, next, previous, After(q, held, first, requests, replies, n).value, requests[n]);
  }

  /** A request that asks at all asks for the parameter it wants. */
  lemma AskedGrows<T, P>(
      q: Query<T, P>, held: Option<InfiniteData<T, P>>, first: Option<T>, requests: seq<Request>, replies: nat -> Reply<T>, n: nat)
    requires n < |requests|
    ensures var before, asked := Asked(q, held, first, requests, replies, n), Asked(q, held, first, requests, replies, n + 1);
      var c := After(q, held, first, requests, replies, n);
      asked != before ==>
        && c.Some? && ParamFor(q, c.value, requests[n]).Some?
        && asked == before + [ParamFor(q, c.value, requests[n]).value]
  {
  }

  /** What a request asks for is one step beyond the end that it extends. */
  lemma ParamIsBeyond<T(!new), P(!new)>(
      q: Query<T, P>, next: P -> Option<P>, previous: P -> Option<P>, d: InfiniteData<T, P>, request: Request)
    requires Contiguous(q, next, previous, d) && ParamFor(q, d, request).Some?
    ensures d.params != []
    ensures ParamFor(q, d, request) ==
      if request.Next? then next(d.params[|d.params| - 1]) else previous(d.params[0])
  {
    var i := if request.Next? then |d.params| - 1 else 0;
    assert PageOf(q, next, previous, d.pages[i], d.params[i]);
  }

  /** For counted pages the chain is an interval of numbers. */
  lemma {:induction false} ChainIsInterval(next: int -> Option<int>, params: seq<int>, i: nat)
    requires forall p :: next(p).Some? ==> next(p).value == p + 1
    requires forall j :: 0 <= j < |params| - 1 ==> Linked(next, params, j)
    requires i < |params|
    ensures params[i] == params[0] + i
  {
    if i > 0 {
      ChainIsInterval(next, params, i - 1);
      assert Linked(next, params, i - 1);
    }
  }
}
