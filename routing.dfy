/** `Router` and `Router.prototype.route`: the session-hook barrier, then the
    walk along the match set through `nextResource`, with the root gate and
    the 401 and 404 end responses.

    The closure state of one `route` call is a `Dispatch` object. Its chain
    part is also given as a value, `Chain`, with one pure step per closure
    call (`Advance` for `nextResource`, `Tick` for a deferred
    `resource.handle`), so that what a whole walk does can be stated and
    proved on values and every method is tied to exactly one step. */
module Routing {
  import opened Options
  import opened Resources
  import opened MatchSet
  import B = Barrier

  /** `server.options.env` value under which internal resources are open. */
  const Development: string := "development"
  /** The header whose presence asks for root access. */
  const DsshKey: string := "x-dssh-key"
  const NotFoundBody: string := "Not Found"
  const NotAllowedBody: string := "Not Allowed"

  /** The request as the router reads it: the URL and the names of the
      headers (`req.headers` may be missing). */
  datatype Request = Request(url: string, headers: Option<set<string>>)

  predicate HasDsshKey(req: Request) {
    req.headers.Some? && DsshKey in req.headers.value
  }

  /** The session of the request, shared by reference with every context. */
  class Session {
    var isRoot: bool

    constructor (isRoot: bool)
      ensures this.isRoot == isRoot
    {
      this.isRoot := isRoot;
    }
  }

  /** A context built for one resource: the resource and `ctx.router`, which
      only chain contexts have. The request, response, server and session are
      the same for every context of a request and are not repeated here. */
  datatype Context = Context(resource: Resource, router: Router?)

  /** `process.nextTick(() => resource.handle(ctx, nextResource))` for the
      `k`-th resource of the match set. */
  datatype Task = Handle(k: nat, ctx: Context)

  /** What a resource's `handle` does when it runs: end the response, call
      `next` before returning, or return and keep `next` for later (or for
      never). */
  datatype HandlerAction = Respond(status: int, body: string) | CallNext | Hold

  /** What one `route` call works with: the match set, the request,
      `server.options.env` and the router. */
  datatype Setup = Setup(matched: seq<Resource>, req: Request, env: string, router: Router?)

  /** The gate turns the `k`-th resource away: it is internal or the request
      carries the key header, and the server is not in development. */
  predicate Denied(s: Setup, k: nat) {
    k < |s.matched| && (s.matched[k].internal || HasDsshKey(s.req)) && s.env != Development
  }

  /** What `nextResource` does with the index it takes. */
  datatype Decision = Offer(k: nat, elevate: bool) | Deny | NotFound

  /** The gate of `nextResource`: past the end of the match set the answer
      is 404; a resource that needs root is refused outside development and
      offered with the session made root in development; any other resource
      is offered with the session not root. */
  function Decide(s: Setup, i: nat): (d: Decision)
    ensures d.NotFound? <==> i >= |s.matched|
    ensures d.Deny? <==> Denied(s, i)
    ensures d.Offer? ==> d.k == i && !Denied(s, i)
    ensures d.Offer? ==> (d.elevate <==> s.matched[i].internal || HasDsshKey(s.req))
    ensures d.Offer? && d.elevate ==> s.env == Development
  {
    if i >= |s.matched| then NotFound
    else if s.matched[i].internal || HasDsshKey(s.req) then
      if s.env == Development then Offer(i, true) else Deny
    else Offer(i, false)
  }

  /** The chain part of a `route` call: the index `i`, `res.statusCode`, the
      bodies passed to `res.end` in order, the queued deferred handles, the
      indices offered so far, the indices whose `handle` has run, and the
      session's `isRoot` (None without a session). */
  datatype Chain = Chain(
    i: nat, statusCode: int, ends: seq<string>, queue: seq<Task>,
    offered: seq<nat>, handled: seq<nat>, root: Option<bool>)

  ghost predicate Increasing(s: seq<nat>) {
    forall a, b :: 0 <= a < b < |s| ==> s[a] < s[b]
  }

  /** Indices are offered in match-set order, each once and only below
      `i`, and only resources the gate lets through are offered. */
  ghost predicate OfferedOk(c: Chain, s: Setup) {
    Increasing(c.offered) &&
    forall n :: 0 <= n < |c.offered| ==>
      c.offered[n] < c.i && c.offered[n] < |s.matched| && !Denied(s, c.offered[n])
  }

  /** The handles run in the order they were queued, and every queued
      handle carries a context for its resource with the router set. */
  ghost predicate QueueOk(c: Chain, s: Setup) {
    |c.handled| + |c.queue| == |c.offered| &&
    c.handled == c.offered[..|c.handled|] &&
    forall n :: 0 <= n < |c.queue| ==> Queued(c, s, n)
  }

  /** The `n`-th queued handle is for the `n`-th offered index not yet
      handled, with a context for that resource and the router set. */
  ghost predicate Queued(c: Chain, s: Setup, n: nat) {
    n < |c.queue| && |c.handled| + n < |c.offered| &&
    c.offered[|c.handled| + n] < |s.matched| &&
    c.queue[n] == Handle(c.offered[|c.handled| + n],
                         Context(s.matched[c.offered[|c.handled| + n]], s.router))
  }

  /** What every walk keeps. */
  ghost predicate ChainInv(c: Chain, s: Setup) {
    OfferedOk(c, s) && QueueOk(c, s)
  }

  /** Every queued handle is for a resource of the match set. */
  ghost predicate InRange(c: Chain, s: Setup) {
    forall n :: 0 <= n < |c.queue| ==> c.queue[n].k < |s.matched|
  }

  /** One call of `nextResource`: take index `i` and move past it; then end
      with 404, or (after setting `isRoot` to false) end with 401, or set
      `isRoot` as the gate says and queue the resource's `handle`. */
  function Advance(c: Chain, s: Setup): Chain {
    match Decide(s, c.i)
    case NotFound =>
      c.(i := c.i + 1, statusCode := 404, ends := c.ends + [NotFoundBody])
    case Deny =>
      c.(i := c.i + 1, statusCode := 401, ends := c.ends + [NotAllowedBody],
         root := if c.root.Some? then Some(false) else None)
    case Offer(k, elevate) =>
      c.(i := c.i + 1, queue := c.queue + [Handle(k, Context(s.matched[k], s.router))],
         offered := c.offered + [k], root := if c.root.Some? then Some(elevate) else None)
  }

  /** `n` calls of `nextResource`. */
  function AdvanceN(c: Chain, n: nat, s: Setup): Chain
    decreases n
  {
    if n == 0 then c else Advance(AdvanceN(c, n - 1, s), s)
  }

  /** `f` calls of `nextResource` and then `g` more are `f + g` calls. */
  lemma {:induction false} AdvanceNAdd(c: Chain, f: nat, g: nat, s: Setup)
    ensures AdvanceN(AdvanceN(c, f, s), g, s) == AdvanceN(c, f + g, s)
    decreases g
  {
    if g > 0 {
      AdvanceNAdd(c, f, g - 1, s);
    }
  }

  /** `nextResource` keeps the invariant of the walk. */
  lemma {:induction false} AdvanceKeepsInv(c: Chain, s: Setup)
    requires ChainInv(c, s)
    ensures ChainInv(Advance(c, s), s)
  {
    var r := Advance(c, s);
    if Decide(s, c.i).Offer? {
      OfferKeepsOffered(c, r, s);
      OfferKeepsQueue(c, r, s);
    } else {
      QueueOkFrame(c, r, s);
    }
  }

  /** The queue invariant looks only at the queue and the offered and
      handled indices. */
  lemma {:induction false} QueueOkFrame(c: Chain, r: Chain, s: Setup)
    requires QueueOk(c, s)
    requires r.queue == c.queue && r.offered == c.offered && r.handled == c.handled
    ensures QueueOk(r, s)
  {
    forall n | 0 <= n < |r.queue| ensures Queued(r, s, n) {
      assert Queued(c, s, n);
    }
  }

  /** Offering index `i` keeps the offered indices in order and allowed. */
  lemma {:induction false} OfferKeepsOffered(c: Chain, r: Chain, s: Setup)
    requires OfferedOk(c, s) && c.i < |s.matched| && !Denied(s, c.i)
    requires r.i == c.i + 1 && r.offered == c.offered + [c.i]
    ensures OfferedOk(r, s)
  {
    forall a, b | 0 <= a < b < |r.offered| ensures r.offered[a] < r.offered[b] {
      if b < |c.offered| {
        assert r.offered[a] == c.offered[a] && r.offered[b] == c.offered[b];
      }
    }
  }

  /** Offering index `i` queues its handle behind the others. */
  lemma {:induction false} OfferKeepsQueue(c: Chain, r: Chain, s: Setup)
    requires QueueOk(c, s) && c.i < |s.matched|
    requires r.offered == c.offered + [c.i] && r.handled == c.handled
    requires r.queue == c.queue + [Handle(c.i, Context(s.matched[c.i], s.router))]
    ensures QueueOk(r, s)
  {
    assert r.handled == r.offered[..|r.handled|];
    forall n | 0 <= n < |r.queue| ensures Queued(r, s, n) {
      if n < |c.queue| {
        assert Queued(c, s, n);
        assert r.queue[n] == c.queue[n] && r.offered[|r.handled| + n] == c.offered[|c.handled| + n];
      } else {
        assert r.offered[|r.handled| + n] == c.i;
      }
    }
  }

  /** `nextResource` queues only resources of the match set. */
  lemma {:induction false} AdvanceInRange(c: Chain, s: Setup)
    requires InRange(c, s)
    ensures InRange(Advance(c, s), s)
  {
  }

  /** Any number of `nextResource` calls keep the invariant of the walk. */
  lemma {:induction false} AdvanceNKeepsInv(c: Chain, n: nat, s: Setup)
    requires ChainInv(c, s)
    ensures ChainInv(AdvanceN(c, n, s), s)
    decreases n
  {
    if n > 0 {
      AdvanceNKeepsInv(c, n - 1, s);
      AdvanceKeepsInv(AdvanceN(c, n - 1, s), s);
    }
  }

  /** A release that opens the barrier calls `nextResource` once more. */
  lemma {:induction false} ReleaseAdvances(c: Chain, mid: Chain, now: Chain, b: B.Barrier, s: Setup)
    requires mid == AdvanceN(c, b.firings, s)
    requires now == if b.globals - 1 == 0 then Advance(mid, s) else mid
    ensures now == AdvanceN(c, B.Release(b).firings, s)
  {
  }

  /** The event loop takes the first deferred `handle` off the queue and
      runs it. */
  function Pop(c: Chain): Chain
    requires c.queue != []
  {
    c.(queue := c.queue[1..], handled := c.handled + [c.queue[0].k])
  }

  /** Running the first queued handle keeps the invariant of the walk: it
      is the next offered index not yet handled. */
  lemma {:induction false} PopKeepsInv(c: Chain, s: Setup)
    requires c.queue != [] && ChainInv(c, s)
    ensures ChainInv(Pop(c), s)
  {
    var p := Pop(c);
    assert Queued(c, s, 0);
    assert p.handled == c.offered[..|p.handled|];
    forall n | 0 <= n < |p.queue| ensures Queued(p, s, n) {
      assert Queued(c, s, n + 1);
      assert p.queue[n] == c.queue[n + 1] && p.offered[|p.handled| + n] == c.offered[|c.handled| + n + 1];
    }
  }

  /** What is left in the queue after a pop was already in it. */
  lemma {:induction false} PopInRange(c: Chain, s: Setup)
    requires c.queue != [] && InRange(c, s)
    ensures InRange(Pop(c), s)
  {
    var p := Pop(c);
    forall n | 0 <= n < |p.queue| ensures p.queue[n].k < |s.matched| {
      assert p.queue[n] == c.queue[n + 1];
    }
  }

  /** The event loop runs the first deferred `handle`, which does `a`: end
      the response, call `next` at once, or keep `next` for later. */
  function Tick(c: Chain, a: HandlerAction, s: Setup): Chain
    requires c.queue != []
  {
    var popped := Pop(c);
    match a
    case Respond(status, body) => popped.(statusCode := status, ends := popped.ends + [body])
    case CallNext => Advance(popped, s)
    case Hold => popped
  }

  /** A tick keeps the invariant of the walk. */
  lemma {:induction false} TickKeepsInv(c: Chain, a: HandlerAction, s: Setup)
    requires c.queue != [] && ChainInv(c, s)
    ensures ChainInv(Tick(c, a, s), s)
  {
    PopKeepsInv(c, s);
    if a.CallNext? {
      AdvanceKeepsInv(Pop(c), s);
    } else {
      QueueOkFrame(Pop(c), Tick(c, a, s), s);
    }
  }

  /** A tick queues only resources of the match set. */
  lemma {:induction false} TickInRange(c: Chain, a: HandlerAction, s: Setup)
    requires c.queue != [] && InRange(c, s)
    ensures InRange(Tick(c, a, s), s)
  {
    PopInRange(c, s);
    if a.CallNext? {
      AdvanceInRange(Pop(c), s);
    }
  }

  /** What is left of the match set, counted so that every tick lowers it. */
  function Pending(c: Chain, s: Setup): nat {
    2 * (if c.i < |s.matched| then |s.matched| - c.i else 0) + |c.queue|
  }

  /** Runs the queued handles until none is left, the `k`-th resource's
      handle doing `acts[k]`, with no other event in between. */
  function Walk(c: Chain, s: Setup, acts: seq<HandlerAction>): (r: Chain)
    requires InRange(c, s) && |acts| == |s.matched|
    ensures r.queue == []
    decreases Pending(c, s)
  {
    if c.queue == [] then c
    else
      TickInRange(c, acts[c.queue[0].k], s);
      Walk(Tick(c, acts[c.queue[0].k], s), s, acts)
  }

  /** How the chain of responsibility ends, read off the match set alone. */
  datatype Outcome = Responded(k: nat, status: int, body: string) | Unauthorized(k: nat) | Held(k: nat) | Exhausted

  /** The reference reading of the walk from index `j`: past the end it is
      exhausted; a resource the gate refuses ends it with 401; otherwise the
      resource's handler decides, and calling `next` moves to `j + 1`. */
  function ChainResult(s: Setup, acts: seq<HandlerAction>, j: nat): (o: Outcome)
    requires |acts| == |s.matched|
    ensures o.Exhausted? <==> forall k :: j <= k < |s.matched| ==> acts[k] == CallNext && !Denied(s, k)
    ensures !o.Exhausted? ==> j <= o.k < |s.matched|
    decreases |s.matched| - j
  {
    if j >= |s.matched| then Exhausted
    else if Denied(s, j) then Unauthorized(j)
    else match acts[j]
      case Respond(status, body) => Responded(j, status, body)
      case Hold => Held(j)
      case CallNext => ChainResult(s, acts, j + 1)
  }

  /** The indices `a`, `a + 1`, ..., `b - 1`. */
  function Range(a: nat, b: nat): (r: seq<nat>)
    ensures |r| == if a < b then b - a else 0
    decreases b - a
  {
    if a >= b then [] else [a] + Range(a + 1, b)
  }

  /** A finished walk `f`, started from `c` at index `c.i` with nothing
      queued, ended the way outcome `o` says: 404 "Not Found" when the match
      set (of `m` resources) is exhausted, 401 "Not Allowed" at a refused
      resource, the handler's own response, or nothing yet when a handler
      keeps `next`; and the handles that ran are exactly those of the
      resources from `c.i` up to where it ended, in match-set order. */
  ghost predicate EndsAs(c: Chain, f: Chain, o: Outcome, m: nat) {
    match o
    case Exhausted =>
      f.statusCode == 404 && f.ends == c.ends + [NotFoundBody] &&
      f.handled == c.handled + Range(c.i, m)
    case Unauthorized(k) =>
      f.statusCode == 401 && f.ends == c.ends + [NotAllowedBody] &&
      f.handled == c.handled + Range(c.i, k)
    case Responded(k, status, body) =>
      f.statusCode == status && f.ends == c.ends + [body] &&
      f.handled == c.handled + Range(c.i, k + 1)
    case Held(k) =>
      f.statusCode == c.statusCode && f.ends == c.ends &&
      f.handled == c.handled + Range(c.i, k + 1)
  }

  /** Starting the chain at index `c.i` (nothing queued) and running its
      handles to the end gives what the reference reading predicts. */
  ghost predicate WalkAgrees(c: Chain, s: Setup, acts: seq<HandlerAction>)
    requires c.queue == [] && |acts| == |s.matched|
  {
    EndsAs(c, Walk(Advance(c, s), s, acts), ChainResult(s, acts, c.i), |s.matched|)
  }

  /** Every walk agrees with the reference reading. */
  lemma {:induction false} WalkFollowsChain(c: Chain, s: Setup, acts: seq<HandlerAction>)
    requires c.queue == [] && |acts| == |s.matched|
    ensures WalkAgrees(c, s, acts)
    decreases |s.matched| - c.i, 1
  {
    if c.i >= |s.matched| || Denied(s, c.i) {
      WalkStops(c, s, acts);
    } else if !acts[c.i].CallNext? {
      WalkAnswers(c, s, acts);
    } else {
      WalkFollowsPass(c, s, acts);
    }
  }

  /** The case of a resource that is let through and calls `next`: the walk
      agrees with the reference reading from the next index on. */
  lemma {:induction false} WalkFollowsPass(c: Chain, s: Setup, acts: seq<HandlerAction>)
    requires c.queue == [] && |acts| == |s.matched|
    requires c.i < |s.matched| && !Denied(s, c.i) && acts[c.i] == CallNext
    ensures WalkAgrees(c, s, acts)
    decreases |s.matched| - c.i, 0
  {
    var a := Advance(c, s);
    var popped := a.(queue := [], handled := c.handled + [c.i]);
    WalkPasses(c, s, acts);
    WalkFollowsChain(popped, s, acts);
    var o := ChainResult(s, acts, c.i + 1);
    assert ChainResult(s, acts, c.i) == o;
    EndsAsShift(c, popped, Walk(a, s, acts), o, |s.matched|);
  }

  /** An ending reached from index `i + 1` after the handle of `i` ran is
      the same ending reached from `i`. */
  lemma {:induction false} EndsAsShift(c: Chain, p: Chain, f: Chain, o: Outcome, m: nat)
    requires p.i == c.i + 1 && p.statusCode == c.statusCode && p.ends == c.ends
    requires p.handled == c.handled + [c.i] && c.i < m
    requires !o.Exhausted? ==> c.i < o.k
    requires EndsAs(p, f, o, m)
    ensures EndsAs(c, f, o, m)
  {
    match o
    case Exhausted => HandledJoin(c.handled, c.i, m);
    case Unauthorized(k) => HandledJoin(c.handled, c.i, k);
    case Responded(k, _, _) => HandledJoin(c.handled, c.i, k + 1);
    case Held(k) => HandledJoin(c.handled, c.i, k + 1);
  }

  /** At the end of the match set, or at a refused resource, the walk ends
      with the 404 or 401 answer and runs no handle. */
  lemma {:induction false} WalkStops(c: Chain, s: Setup, acts: seq<HandlerAction>)
    requires c.queue == [] && |acts| == |s.matched|
    requires c.i >= |s.matched| || Denied(s, c.i)
    ensures var f := Walk(Advance(c, s), s, acts);
      f.handled == c.handled &&
      (c.i >= |s.matched| ==> f.statusCode == 404 && f.ends == c.ends + [NotFoundBody]) &&
      (c.i < |s.matched| ==> f.statusCode == 401 && f.ends == c.ends + [NotAllowedBody])
  {
    assert Advance(c, s).queue == [];
  }

  /** A resource that is let through and answers, or keeps `next`, ends the
      walk after its own handle. */
  lemma {:induction false} WalkAnswers(c: Chain, s: Setup, acts: seq<HandlerAction>)
    requires c.queue == [] && |acts| == |s.matched|
    requires c.i < |s.matched| && !Denied(s, c.i) && !acts[c.i].CallNext?
    ensures var f := Walk(Advance(c, s), s, acts);
      f.handled == c.handled + [c.i] &&
      (acts[c.i].Respond? ==> f.statusCode == acts[c.i].status && f.ends == c.ends + [acts[c.i].body]) &&
      (acts[c.i].Hold? ==> f.statusCode == c.statusCode && f.ends == c.ends)
  {
    var a := Advance(c, s);
    assert a.queue == [Handle(c.i, Context(s.matched[c.i], s.router))];
    WalkTick(a, s, acts);
    var t := Tick(a, acts[c.i], s);
    assert t.queue == [];
  }

  /** A resource that is let through and calls `next` hands the walk on to
      the next index, with its own handle counted as run. */
  lemma {:induction false} WalkPasses(c: Chain, s: Setup, acts: seq<HandlerAction>)
    requires c.queue == [] && |acts| == |s.matched|
    requires c.i < |s.matched| && !Denied(s, c.i) && acts[c.i] == CallNext
    ensures var a := Advance(c, s);
      Walk(a, s, acts) == Walk(Advance(a.(queue := [], handled := c.handled + [c.i]), s), s, acts)
  {
    var a := Advance(c, s);
    assert a.queue == [Handle(c.i, Context(s.matched[c.i], s.router))];
    WalkTick(a, s, acts);
  }

  /** One tick of a walk with a handle queued. */
  lemma {:induction false} WalkTick(c: Chain, s: Setup, acts: seq<HandlerAction>)
    requires InRange(c, s) && c.queue != [] && |acts| == |s.matched|
    ensures Walk(c, s, acts) == Walk(Tick(c, acts[c.queue[0].k], s), s, acts)
  {
  }

  /** Handles that ran before `a`, then `a`, then those up to `b`. */
  lemma {:induction false} HandledJoin(h: seq<nat>, a: nat, b: nat)
    requires a < b
    ensures h + [a] + Range(a + 1, b) == h + Range(a, b)
  {
    RangeFrom(a, b);
  }

  /** Ranges join: `a :: a+1 .. b` is `a .. b`. */
  lemma {:induction false} RangeFrom(a: nat, b: nat)
    requires a < b
    ensures Range(a, b) == [a] + Range(a + 1, b)
  {
  }

  /** If no matched resource from `j` on is refused and every one of them
      calls `next`, the chain is exhausted. */
  lemma {:induction false} AllNextExhausts(s: Setup, acts: seq<HandlerAction>, j: nat)
    requires |acts| == |s.matched|
    requires forall k :: j <= k < |s.matched| ==> acts[k] == CallNext && !Denied(s, k)
    ensures ChainResult(s, acts, j) == Exhausted
    decreases |s.matched| - j
  {
    if j < |s.matched| {
      AllNextExhausts(s, acts, j + 1);
    }
  }

  /** The chain answers 404 "Not Found" when nothing matched, or when every
      matched resource is let through and calls `next`; every handle then
      ran once, in match-set order. */
  lemma {:induction false} NotFoundWhenAllCallNext(c: Chain, s: Setup, acts: seq<HandlerAction>)
    requires c.queue == [] && c.i == 0 && |acts| == |s.matched|
    requires forall k :: 0 <= k < |s.matched| ==> acts[k] == CallNext && !Denied(s, k)
    ensures Walk(Advance(c, s), s, acts).statusCode == 404
    ensures Walk(Advance(c, s), s, acts).ends == c.ends + [NotFoundBody]
    ensures Walk(Advance(c, s), s, acts).handled == c.handled + Range(0, |s.matched|)
  {
    AllNextExhausts(s, acts, 0);
    WalkFollowsChain(c, s, acts);
  }

  /** The first resource whose handler answers wins: the resources after it
      never run. */
  lemma {:induction false} FirstResponderWins(s: Setup, acts: seq<HandlerAction>, j: nat, k: nat)
    requires |acts| == |s.matched| && j <= k < |s.matched|
    requires forall n :: j <= n < k ==> acts[n] == CallNext && !Denied(s, n)
    requires !Denied(s, k) && acts[k].Respond?
    ensures ChainResult(s, acts, j) == Responded(k, acts[k].status, acts[k].body)
    decreases k - j
  {
    if j < k {
      FirstResponderWins(s, acts, j + 1, k);
    }
  }

  /** `nextResource` sets `isRoot` of an existing session to what the gate
      decides: true exactly when the resource needs root and the server is
      in development (false also when it refuses); past the end of the
      match set it leaves `isRoot` alone. */
  lemma {:induction false} AdvanceSetsRoot(c: Chain, s: Setup)
    requires c.root.Some?
    ensures c.i < |s.matched| ==>
      Advance(c, s).root == Some((s.matched[c.i].internal || HasDsshKey(s.req)) && s.env == Development)
    ensures c.i >= |s.matched| ==> Advance(c, s).root == c.root
  {
  }

  /** Nothing stops a second `nextResource` call while a handle is still
      queued (a barrier that opens twice, or a handler that calls `next`
      twice): two resources the gate lets through are then both queued, and
      the second runs whatever the first one does. */
  lemma {:induction false} SecondStartQueuesBoth(c: Chain, s: Setup)
    requires c.i + 1 < |s.matched| && !Denied(s, c.i) && !Denied(s, c.i + 1)
    ensures Advance(Advance(c, s), s).queue == c.queue +
      [Handle(c.i, Context(s.matched[c.i], s.router)), Handle(c.i + 1, Context(s.matched[c.i + 1], s.router))]
  {
  }

  /** Without session hooks, `route` calls `nextResource` exactly once,
      and the walk that follows ends as the reference reading says. */
  lemma {:induction false} NoHooksFollowChain(rs: seq<Resource>, sync: seq<nat>, c: Chain, s: Setup, acts: seq<HandlerAction>)
    requires |sync| == |rs| && B.Hooks(rs) == 0
    requires c.queue == [] && |acts| == |s.matched|
    ensures AdvanceN(c, B.ChainStarts(B.HookPhase(rs, sync)), s) == Advance(c, s)
    ensures EndsAs(c, Walk(Advance(c, s), s, acts), ChainResult(s, acts, c.i), |s.matched|)
  {
    B.NoHooksNoBarrier(rs, sync);
    assert AdvanceN(c, 1, s) == Advance(AdvanceN(c, 0, s), s);
    WalkFollowsChain(c, s, acts);
  }

  /** A hook started on top of the forEach so far counts its own openings
      from zero; the chain then takes one step per opening of either. */
  lemma {:induction false} HookAdds(c0: Chain, before: B.Barrier, n: nat, s: Setup)
    ensures var hook := B.ReleaseTimes(B.Start(before.(firings := 0)), n);
      var after := B.ReleaseTimes(B.Start(before), n);
      after == hook.(firings := before.firings + hook.firings) &&
      AdvanceN(AdvanceN(c0, before.firings, s), hook.firings, s) == AdvanceN(c0, after.firings, s)
  {
    assert B.Start(before.(firings := 0)) == B.Start(before).(firings := 0);
    B.ReleaseTimesSplit(B.Start(before), n);
    AdvanceNAdd(c0, before.firings, B.ReleaseTimes(B.Start(before.(firings := 0)), n).firings, s);
  }

  /** What `route` ends with. */
  datatype RouteResult = Threw | Started(d: Dispatch)

  /** `new Router(resources, server)`: the registered resources (`[]` when
      none are given) and the server's `options.env`. */
  class Router {
    const resources: seq<Resource>
    const env: string

    constructor (resources: Option<seq<Resource>>, env: string)
      ensures this.resources == if resources.Some? then resources.value else []
      ensures this.env == env
    {
      this.resources := if resources.Some? then resources.value else [];
      this.env := env;
    }

    /** `route(req, res)`: build the match set (which throws when a base
        path does not make a pattern), start every registered resource's
        session hook, the `k`-th of which releases `sync[k]` times before it
        returns, and call `nextResource` whenever a release brings the
        counter to zero and once more at the end if it is zero then. */
    method Route(req: Request, session: Session?, sync: seq<nat>) returns (r: RouteResult)
      requires |sync| == |resources|
      modifies session
      ensures MatchResources(resources, req.url).None? ==>
        r == Threw && (session != null ==> session.isRoot == old(session.isRoot))
      ensures MatchResources(resources, req.url).Some? ==>
        r.Started? && fresh(r.d) && r.d.Valid() &&
        r.d.router == this && r.d.req == req && r.d.session == session &&
        r.d.matched == MatchResources(resources, req.url).value &&
        var b := B.HookPhase(resources, sync);
        r.d.globals == b.globals && r.d.started == b.started && r.d.released == b.released &&
        r.d.State() == AdvanceN(
          Chain(0, 200, [], [], [], [], if session == null then None else Some(old(session.isRoot))),
          B.ChainStarts(b), r.d.Config())
    {
      var m := MatchResources(resources, req.url);
      if m.None? {
        r := Threw;
      } else {
        var d := new Dispatch(this, req, session, m.value);
        d.Begin(resources, sync);
        r := Started(d);
      }
    }
  }

  /** The closure state of one `route` call. */
  class Dispatch {
    const router: Router
    const req: Request
    const session: Session?
    /** The match set, `resources` in `route`. */
    const matched: seq<Resource>
    var i: nat
    var globals: int
    var statusCode: int
    var ends: seq<string>
    var queue: seq<Task>
    var handled: seq<nat>
    ghost var offered: seq<nat>
    ghost var started: nat
    ghost var released: nat

    ghost function Config(): Setup {
      Setup(matched, req, router.env, router)
    }

    ghost function State(): Chain
      reads this, session
    {
      Chain(i, statusCode, ends, queue, offered, handled,
            if session == null then None else Some(session.isRoot))
    }

    /** The counters are those of barrier `b`, and the chain has taken one
        `nextResource` step from `c0` per opening of `b`. */
    ghost predicate At(b: B.Barrier, c0: Chain)
      reads this, session
    {
      globals == b.globals && started == b.started && released == b.released &&
      State() == AdvanceN(c0, b.firings, Config())
    }

    /** The chain invariant, and `globals` as hooks started minus releases. */
    ghost predicate Valid()
      reads this, session
    {
      ChainInv(State(), Config()) && globals == started - released
    }

    constructor (router: Router, req: Request, session: Session?, matched: seq<Resource>)
      ensures this.router == router && this.req == req && this.session == session
      ensures this.matched == matched
      ensures i == 0 && globals == 0 && statusCode == 200 && ends == [] && queue == []
      ensures handled == [] && offered == [] && started == 0 && released == 0
      ensures Valid()
    {
      this.router := router;
      this.req := req;
      this.session := session;
      this.matched := matched;
      i, globals, statusCode, ends, queue, handled := 0, 0, 200, [], [], [];
      offered, started, released := [], 0, 0;
    }

    /** `next()`: count one more started hook (and hand it the release
        callback, which is `Release`). */
    method Next()
      requires Valid()
      modifies this
      ensures Valid()
      ensures globals == old(globals) + 1 && started == old(started) + 1 && released == old(released)
      ensures State() == old(State())
    {
      globals := globals + 1;
      started := started + 1;
    }

    /** `this.resources.forEach(...)` in `route`: every registered resource
        with `handleSession` runs its hook, the `k`-th releasing `sync[k]`
        times before it returns. */
    method RunHooks(rs: seq<Resource>, sync: seq<nat>)
      requires Valid() && |sync| == |rs|
      requires globals == 0 && started == 0 && released == 0
      modifies this, session
      ensures Valid()
      ensures At(B.HookPhase(rs, sync), old(State()))
    {
      ghost var c0 := State();
      var k := 0;
      assert rs[..0] == [] && sync[..0] == [];
      assert B.HookPhase(rs[..0], sync[..0]) == B.Barrier(0, 0, 0, 0);
      while k < |rs|
        invariant 0 <= k <= |rs|
        invariant Valid() && At(B.HookPhase(rs[..k], sync[..k]), c0)
      {
        ForEachStep(rs, sync, k, c0);
        k := k + 1;
      }
      assert rs[..k] == rs && sync[..k] == sync;
    }

    /** What `route` does once the match set is built: the forEach over
        the registered resources, then `nextResource` if no hook is left
        pending. */
    method Begin(rs: seq<Resource>, sync: seq<nat>)
      requires Valid() && |sync| == |rs|
      requires globals == 0 && started == 0 && released == 0
      modifies this, session
      ensures Valid()
      ensures var b := B.HookPhase(rs, sync);
        globals == b.globals && started == b.started && released == b.released &&
        State() == AdvanceN(old(State()), B.ChainStarts(b), Config())
    {
      ghost var c0 := State();
      RunHooks(rs, sync);
      ghost var b := B.HookPhase(rs, sync);
      if globals == 0 {
        NextResource();
        assert State() == AdvanceN(c0, b.firings + 1, Config());
      }
    }

    /** The forEach callback for the `k`-th registered resource: it runs
        the resource's session hook when there is one. */
    method ForEachStep(rs: seq<Resource>, sync: seq<nat>, k: nat, ghost c0: Chain)
      requires |sync| == |rs| && k < |rs|
      requires Valid() && At(B.HookPhase(rs[..k], sync[..k]), c0)
      modifies this, session
      ensures Valid() && At(B.HookPhase(rs[..k + 1], sync[..k + 1]), c0)
    {
      ghost var before := B.HookPhase(rs[..k], sync[..k]);
      B.HookPhaseStep(rs, sync, k);
      if rs[k].hasSessionHook {
        ghost var mid := State();
        ghost var hook := B.ReleaseTimes(B.Start(before.(firings := 0)), sync[k]);
        assert B.Barrier(started, released, globals, 0) == before.(firings := 0);
        RunSessionHook(sync[k]);
        assert At(hook, mid);
        HookAdds(c0, before, sync[k], Config());
      }
    }

    /** One hook of the forEach: `next()` starts it, and the hook calls the
        release callback it was given `n` times before it returns. */
    method RunSessionHook(n: nat)
      requires Valid()
      modifies this, session
      ensures Valid()
      ensures At(B.ReleaseTimes(B.Start(B.Barrier(old(started), old(released), old(globals), 0)), n), old(State()))
    {
      ghost var c := State();
      Next();
      ghost var begun := B.Barrier(started, released, globals, 0);
      assert begun == B.Start(B.Barrier(old(started), old(released), old(globals), 0));
      var k := 0;
      while k < n
        invariant 0 <= k <= n && Valid() && At(B.ReleaseTimes(begun, k), c)
      {
        ghost var before := B.ReleaseTimes(begun, k);
        ghost var mid := State();
        Release();
        ReleaseAdvances(c, mid, State(), before, Config());
        k := k + 1;
      }
    }

    /** A hook calls its release callback: `globals--`, and `nextResource()`
        if the counter is then zero. Nothing stops a hook from calling it
        more than once. */
    method Release()
      requires Valid()
      modifies this, session
      ensures Valid()
      ensures globals == old(globals) - 1 && started == old(started) && released == old(released) + 1
      ensures State() == if globals == 0 then Advance(old(State()), Config()) else old(State())
    {
      globals := globals - 1;
      released := released + 1;
      if globals == 0 {
        NextResource();
      }
    }

    /** `nextResource()`, called by `route`, by the barrier, and by a
        handler through its `next` at any later time, any number of times:
        one step of the chain, which keeps the invariants. */
    method NextResource()
      requires Valid()
      modifies this, session
      ensures Valid()
      ensures globals == old(globals) && started == old(started) && released == old(released)
      ensures State() == Advance(old(State()), Config())
    {
      AdvanceKeepsInv(State(), Config());
      TakeNext();
    }

    /** The body of `nextResource`: take index `i` and move past it; past
        the end of the match set answer 404; otherwise make the session
        not root, then refuse with 401 or make it root as the gate says,
        and unless refused queue the resource's `handle` with a context
        of its own that has the router set. */
    method TakeNext()
      modifies this, session
      ensures globals == old(globals) && started == old(started) && released == old(released)
      ensures State() == Advance(old(State()), Config())
    {
      var k := i;
      i := i + 1;
      if k < |matched| {
        var resource := matched[k];
        var ctx := Context(resource, router);
        SetRoot(false);
        // The early `return` of the refusal, as a flag.
        var refused := false;
        if resource.internal || HasDsshKey(req) {
          if router.env == Development {
            SetRoot(true);
          } else {
            statusCode := 401;
            ends := ends + [NotAllowedBody];
            refused := true;
          }
        }
        if !refused {
          queue := queue + [Handle(k, ctx)];
          offered := offered + [k];
        }
      } else {
        statusCode := 404;
        ends := ends + [NotFoundBody];
      }
    }

    /** `if (ctx.session) ctx.session.isRoot = v`. */
    method SetRoot(v: bool)
      modifies session
      ensures State() == old(State()).(root := if session == null then None else Some(v))
    {
      if session != null {
        session.isRoot := v;
      }
    }

    /** The event loop runs the first deferred `resource.handle(ctx,
        nextResource)`, and the handler does `action`. */
    method RunTick(action: HandlerAction)
      requires Valid() && queue != []
      modifies this, session
      ensures Valid()
      ensures globals == old(globals) && started == old(started) && released == old(released)
      ensures State() == Tick(old(State()), action, Config())
    {
      ghost var c := State();
      handled := handled + [queue[0].k];
      queue := queue[1..];
      assert State() == Pop(c);
      PopKeepsInv(c, Config());
      match action
      case Respond(status, body) =>
        statusCode := status;
        ends := ends + [body];
        assert State() == Tick(c, action, Config());
        TickKeepsInv(c, action, Config());
      case CallNext =>
        NextResource();
      case Hold =>
    }
  }
}
