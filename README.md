# deployd request router, in Dafny

This project models the request router of deployd (`lib/router.js`). The
router takes an incoming request, finds the registered resources whose base
path matches its URL, and ranks them so that deeper paths come first. It
runs every resource's session hook behind a counter barrier. It then walks
the match set, letting each resource handle the request or pass it on with
`next`. Internal resources, and requests carrying the `x-dssh-key` header,
are refused with 401 outside development; an exhausted match set gets 404.

Modules:

- `Options`: an option type; `None` stands for `undefined`.
- `Resources`: the resource record (base path, `internal`, whether it has
  `handleSession`) and base-path normalisation.
- `Pattern`: `generateRegex` and `url.match`. The escape class of line 3 is
  applied, the escaped text is read into literal and starred items the way
  the RegExp constructor reads it, and a small anchored matcher gives it
  meaning. A `*` with nothing to repeat makes the constructor throw.
- `Ranking`: `specificness`, through `split('/')` and `join`.
- `MatchSet`: `matchResources`, as a filter followed by an insertion sort.
- `Barrier`: the session-hook counter `globals` with `next()` and its
  release callback, as values.
- `Routing`: the classes `Router`, `Dispatch` and `Session`.
  - `Dispatch` holds the closure state of one `route` call.
  - Each closure is one method: `Next`, `Release`, `NextResource`, and
    `RunTick` for a deferred `resource.handle`.
  - Each method is tied to one pure step on the value `Chain`: `Advance`
    for `nextResource`, `Tick` for a handle that runs.
  - Whole walks are proved on those values against the reference reading
    `ChainResult`.

Handlers and hooks are inputs, not code. A handler's behaviour is a
`HandlerAction`: respond, call `next` at once, or keep `next`. A hook's
behaviour is the number of times it releases before it returns. The event
loop of `process.nextTick` is a FIFO queue of `Handle` tasks.

## Model

| member | source | states |
|---|---|---|
| Resources.Normalize | deployd/node_modules/deployd/lib/router.js:129 | a missing, "" or "/" base path becomes the empty prefix; any other path is kept as it is |
| Pattern.IsEscaped | deployd/node_modules/deployd/lib/router.js:3 | the escape class `[-[\]{}()+?.,\\^$\|#\s]`, without `*`; used by `Escape`, specified through ParseEscape and StarPathItems |
| Pattern.Escape | deployd/node_modules/deployd/lib/router.js:130 | `path.replace(escapeRegExp, '\\$&')`: a backslash before every character of the class; ParseEscape gives its meaning |
| Pattern.Parse | deployd/node_modules/deployd/lib/router.js:131 | how the RegExp constructor reads the escaped path into literal and starred items, failing on a `*` with nothing to repeat; see ParseEscape, ParseStarPath and LeadingStarThrows |
| Pattern.TailMatches | deployd/node_modules/deployd/lib/router.js:131 | the suffix `(?:[/?].*)?$`, with `.` refusing line terminators; see TailAfter |
| Pattern.ItemsMatch | deployd/node_modules/deployd/lib/router.js:131 | the anchored pattern `^ items (?:[/?].*)?$` against the whole URL; see LitsMatch, StarRepeatsNone and StarRepeatsTwice |
| Pattern.GenerateRegex | deployd/node_modules/deployd/lib/router.js:128-132 | normalise, escape and read the base path; see ParseEscape and StarPathItems |
| Pattern.UrlMatches | deployd/node_modules/deployd/lib/router.js:113 | `url.match(generateRegex(path))` as a boolean, None when the pattern throws; see MatchesLiteralPath |
| Pattern.ParseEscape | deployd/node_modules/deployd/lib/router.js:3 | for a path without `*`, escaping and reading the pattern gives back every character of the path as a literal, escape-class characters included |
| Pattern.LitsMatch | deployd/node_modules/deployd/lib/router.js:131 | an anchored literal pattern matches exactly the strings that start with it and go on with a tail that `(?:[/?].*)?$` accepts |
| Pattern.MatchesLiteralPath | deployd/node_modules/deployd/lib/router.js:128-132 | for a path P without `*`, the URL matches exactly when it is P, or starts with P and continues with `/` or `?` and then no line terminator |
| Pattern.TailAfter | deployd/node_modules/deployd/lib/router.js:131 | after a prefix `p` of the URL, `(?:[/?].*)?$` accepts the rest exactly when the URL is `p` or goes on with `/` or `?` and no line terminator |
| Pattern.MatchesPrefix | deployd/node_modules/deployd/lib/router.js:128-132 | with no `*` in P and no line terminator in the URL: it matches exactly when URL == P, or URL starts with P and the next character is `/` or `?` |
| Pattern.RootPathMatches | deployd/node_modules/deployd/lib/router.js:129-131 | a missing, "" or "/" path matches the empty URL and every URL whose first character is `/` or `?` |
| Pattern.LeadingStarThrows | deployd/node_modules/deployd/lib/router.js:130-131 | a path starting with `*` leaves `*` with nothing to repeat, so building the pattern throws |
| Pattern.StarPathItems | deployd/node_modules/deployd/lib/router.js:3 | `*` is not in the escape class: the base path "/a*" compiles to `/` followed by `a` repeated |
| Pattern.StarRepeatsNone | deployd/node_modules/deployd/lib/router.js:130-131 | "/a*" matches "/", so the literal-match property fails for paths with `*` |
| Pattern.StarRepeatsTwice | deployd/node_modules/deployd/lib/router.js:130-131 | "/a*" matches "/aa" |
| Ranking.Specificness | deployd/node_modules/deployd/lib/router.js:134-138 | the number of pieces of `split('/')` of the normalised path; see SpecificnessCountsSlashes and AppendSegment |
| Ranking.Split | deployd/node_modules/deployd/lib/router.js:137 | `split` gives one piece more than there are separators, and no piece contains the separator |
| Ranking.JoinSplit | deployd/node_modules/deployd/lib/router.js:137 | joining the pieces of `split` with the separator gives the string back |
| Ranking.SpecificnessCountsSlashes | deployd/node_modules/deployd/lib/router.js:134-138 | the score is the number of `/` in the normalised path plus one; a missing, "" or "/" path scores 1 |
| Ranking.CountAppend | deployd/node_modules/deployd/lib/router.js:137 | the slash count of a concatenation is the sum of the counts |
| Ranking.AppendSegment | deployd/node_modules/deployd/lib/router.js:98-99 | appending a segment `/q` to a base path raises its score by one plus the slashes in `q`, so a deeper path ranks higher |
| Ranking.SpecificnessExamples | deployd/node_modules/deployd/lib/router.js:134-138 | "/" scores 1 and "/foo" scores 2 |
| Ranking.DeeperExample | deployd/node_modules/deployd/lib/router.js:98-99 | "/foo/bar" scores 3 |
| MatchSet.Matches | deployd/node_modules/deployd/lib/router.js:113 | the filter's test for one resource; see Filter and MatchSetMembers |
| MatchSet.Filter | deployd/node_modules/deployd/lib/router.js:112-113 | the filter throws exactly when some base path does not compile; otherwise it keeps every matching resource as often as registered and drops all others |
| MatchSet.Insert | deployd/node_modules/deployd/lib/router.js:114-116 | inserting into an ordered sequence keeps it ordered by non-increasing specificness and adds exactly the one element |
| MatchSet.InsertedFrom | deployd/node_modules/deployd/lib/router.js:114-116 | every element of an insertion's result is the inserted one or came from the sequence |
| MatchSet.HeadFirst | deployd/node_modules/deployd/lib/router.js:114-116 | the head of an ordered sequence is at least as specific as every element |
| MatchSet.ConsNonIncreasing | deployd/node_modules/deployd/lib/router.js:114-116 | an element at least as specific as all of an ordered sequence can head it |
| MatchSet.Sort | deployd/node_modules/deployd/lib/router.js:114-116 | the sort returns a permutation of its input, ordered by non-increasing specificness |
| MatchSet.MatchResources | deployd/node_modules/deployd/lib/router.js:106-118 | [] without resources; throws exactly when a base path does not compile; otherwise a permutation of the matching resources, ordered by non-increasing specificness |
| MatchSet.MatchSetMembers | deployd/node_modules/deployd/lib/router.js:110-117 | a resource is in the match set exactly when it is registered and matches the URL |
| MatchSet.DeeperFirst | deployd/node_modules/deployd/lib/router.js:98-99 | a more specific resource stands before every less specific one in the match set |
| MatchSet.NoStarNoThrow | deployd/node_modules/deployd/lib/router.js:112-113 | when no base path holds `*`, `matchResources` does not throw |
| Barrier.ReleaseTimes | deployd/node_modules/deployd/lib/router.js:41-44 | `n` release callbacks in a row; see ReleaseTimesEffect and OpensAtLastRelease |
| Barrier.HookPhase | deployd/node_modules/deployd/lib/router.js:48-52 | the barrier after the forEach, with the `k`-th hook releasing `sync[k]` times before it returns; see HookPhaseCounts and DeferredHooks |
| Barrier.ChainStarts | deployd/node_modules/deployd/lib/router.js:42-43 | how many times `route` calls `nextResource` itself (line 43 during the forEach, lines 91-93 after it); see DeferredHooks and Route |
| Barrier.Start | deployd/node_modules/deployd/lib/router.js:39-40 | `next()` keeps `globals` equal to hooks started minus releases received |
| Barrier.Release | deployd/node_modules/deployd/lib/router.js:41-44 | the release callback keeps `globals` equal to hooks started minus releases received |
| Barrier.ReleaseTimesEffect | deployd/node_modules/deployd/lib/router.js:41-44 | `n` releases lower the counter by `n` and open the barrier exactly once when the counter passes from positive through zero, otherwise never |
| Barrier.ReleaseTimesSplit | deployd/node_modules/deployd/lib/router.js:41-44 | releases open the barrier the same number of times whatever openings came before |
| Barrier.HookPhaseStep | deployd/node_modules/deployd/lib/router.js:48-52 | unfolds `HookPhase` one resource further, the step `RunHooks` takes per loop turn: the barrier changes only when the resource has `handleSession` |
| Barrier.HookPhaseCounts | deployd/node_modules/deployd/lib/router.js:37-52 | after the forEach, `globals` is the hooks started (one per resource with `handleSession`) minus the releases received |
| Barrier.NoHooksNoBarrier | deployd/node_modules/deployd/lib/router.js:48-52 | without session hooks the counter never moves |
| Barrier.DeferredHooks | deployd/node_modules/deployd/lib/router.js:90-93 | when no hook releases before returning, the barrier never opens in the forEach, and `route` starts the chain exactly when no resource has a hook |
| Barrier.OpensAtLastRelease | deployd/node_modules/deployd/lib/router.js:42-43 | with `n` hooks pending, releases open the barrier exactly at the `n`-th release, and only once |
| Barrier.EarlyStart | deployd/node_modules/deployd/lib/router.js:42-43 | with two hooked resources, a first hook that releases synchronously starts the chain before the second hook begins, and the second release starts it again |
| Routing.HasDsshKey | deployd/node_modules/deployd/lib/router.js:68 | `req.headers && 'x-dssh-key' in req.headers`; used by Decide |
| Routing.Denied | deployd/node_modules/deployd/lib/router.js:68-77 | the gate's refusal: internal or key-carrying request outside development; see Decide |
| Routing.Advance | deployd/node_modules/deployd/lib/router.js:55-88 | one `nextResource` call on the chain value; specified by Decide, AdvanceKeepsInv, AdvanceSetsRoot and WalkFollowsChain |
| Routing.Pop | deployd/node_modules/deployd/lib/router.js:80-82 | the event loop takes the first deferred handle; see PopKeepsInv |
| Routing.Tick | deployd/node_modules/deployd/lib/router.js:80-82 | the first deferred handle runs and its handler responds, calls `next` or keeps it; see TickKeepsInv and WalkFollowsChain |
| Routing.Decide | deployd/node_modules/deployd/lib/router.js:64-78 | 404 exactly past the end of the match set; 401 exactly for internal or key-carrying requests outside development; otherwise the resource is offered, as root exactly when it needs root |
| Routing.AdvanceNAdd | deployd/node_modules/deployd/lib/router.js:55-88 | `f` calls of `nextResource` followed by `g` more are `f + g` calls |
| Routing.AdvanceKeepsInv | deployd/node_modules/deployd/lib/router.js:55-82 | `nextResource` keeps the walk invariant: indices offered in match-set order, each once, only allowed ones, and each queued with its own context with `ctx.router` set |
| Routing.OfferKeepsOffered | deployd/node_modules/deployd/lib/router.js:56 | offering index `i` and moving past it keeps the offered indices increasing and allowed |
| Routing.OfferKeepsQueue | deployd/node_modules/deployd/lib/router.js:80-82 | offering index `i` queues its handle behind the earlier ones |
| Routing.QueueOkFrame | deployd/node_modules/deployd/lib/router.js:74-75 | ending the response (status and body) leaves the queue invariant intact |
| Routing.AdvanceInRange | deployd/node_modules/deployd/lib/router.js:56-59 | `nextResource` queues only resources of the match set |
| Routing.AdvanceNKeepsInv | deployd/node_modules/deployd/lib/router.js:55-88 | any number of `nextResource` calls keep the walk invariant |
| Routing.ReleaseAdvances | deployd/node_modules/deployd/lib/router.js:42-43 | a release that brings the counter to zero calls `nextResource` once more, and one that does not calls nothing |
| Routing.HookAdds | deployd/node_modules/deployd/lib/router.js:48-51 | a hook started after earlier openings adds its own openings to theirs, and the chain takes one step per opening of either |
| Routing.PopKeepsInv | deployd/node_modules/deployd/lib/router.js:80-82 | running the first deferred handle keeps the walk invariant: handles run in the order they were queued |
| Routing.PopInRange | deployd/node_modules/deployd/lib/router.js:80-82 | what is left queued after a handle runs was queued before |
| Routing.TickKeepsInv | deployd/node_modules/deployd/lib/router.js:80-82 | a deferred handle that responds, calls `next` or keeps it keeps the walk invariant |
| Routing.TickInRange | deployd/node_modules/deployd/lib/router.js:80-82 | a deferred handle queues only resources of the match set |
| Routing.Walk | deployd/node_modules/deployd/lib/router.js:80-82 | running the deferred handles one by one ends with nothing queued |
| Routing.ChainResult | deployd/node_modules/deployd/lib/router.js:22-24 | the chain is exhausted exactly when every remaining resource is allowed and calls `next`; otherwise it ends at a resource of the match set |
| Routing.Range | deployd/node_modules/deployd/lib/router.js:56 | the indices from `a` below `b` number `b - a`, or none when `a >= b` |
| Routing.WalkFollowsChain | deployd/node_modules/deployd/lib/router.js:55-88 | every walk started with nothing queued ends as the reference reading says: 404, 401, the handler's response, or nothing while a handler keeps `next`; the handles of the resources up to that point ran, in match-set order |
| Routing.WalkFollowsPass | deployd/node_modules/deployd/lib/router.js:80-82 | a resource that calls `next` hands the walk on, and the walk still ends as the reference reading says |
| Routing.EndsAsShift | deployd/node_modules/deployd/lib/router.js:56 | an ending reached from index `i + 1` after the handle of `i` ran is the same ending reached from `i` |
| Routing.WalkStops | deployd/node_modules/deployd/lib/router.js:73-76 | at the end of the match set the walk answers 404 "Not Found", at a refused resource 401 "Not Allowed", and no handle runs |
| Routing.WalkAnswers | deployd/node_modules/deployd/lib/router.js:80-82 | an allowed resource whose handler responds or keeps `next` ends the walk after its own handle |
| Routing.WalkPasses | deployd/node_modules/deployd/lib/router.js:80-82 | an allowed resource whose handler calls `next` hands the walk to the next index, with its own handle run |
| Routing.WalkTick | deployd/node_modules/deployd/lib/router.js:80-82 | a walk with a handle queued runs that handle first |
| Routing.HandledJoin | deployd/node_modules/deployd/lib/router.js:56 | the handles run before `a`, then `a`, then those up to `b` are the handles up to `b` |
| Routing.RangeFrom | deployd/node_modules/deployd/lib/router.js:56 | the indices from `a` below `b` are `a` followed by those from `a + 1` |
| Routing.AllNextExhausts | deployd/node_modules/deployd/lib/router.js:22-24 | when every remaining resource is allowed and calls `next`, the chain is exhausted |
| Routing.NotFoundWhenAllCallNext | deployd/node_modules/deployd/lib/router.js:83-87 | when nothing matched, or every matched resource is allowed and calls `next`, the response is 404 "Not Found" after every handle ran once in order |
| Routing.FirstResponderWins | deployd/node_modules/deployd/lib/router.js:22-23 | the first allowed resource that responds ends the chain; the resources after it never run |
| Routing.AdvanceSetsRoot | deployd/node_modules/deployd/lib/router.js:64-78 | with a session, `isRoot` becomes true exactly when the resource needs root and the server is in development, and false otherwise, refusals included; past the end it is untouched |
| Routing.SecondStartQueuesBoth | deployd/node_modules/deployd/lib/router.js:54 | nothing guards a second `nextResource` call while a handle is pending: two allowed resources are then both queued |
| Routing.NoHooksFollowChain | deployd/node_modules/deployd/lib/router.js:31-94 | without session hooks, `route` calls `nextResource` exactly once, and the walk ends as the reference reading says |
| Routing.Session.constructor | deployd/node_modules/deployd/lib/router.js:65 | a session with the given `isRoot` |
| Routing.Router.constructor | deployd/node_modules/deployd/lib/router.js:14-17 | the registered resources (`[]` when none are given) and the server's environment |
| Routing.Router.Route | deployd/node_modules/deployd/lib/router.js:31-94 | throws, leaving the session alone, exactly when the match set cannot be built. Otherwise `globals` is the hooks started minus the synchronous releases, and the chain has taken one `nextResource` step per barrier opening, plus one if the counter is zero at the end |
| Routing.Dispatch.constructor | deployd/node_modules/deployd/lib/router.js:31-37 | `i` and `globals` start at 0, status 200, nothing queued or handled |
| Routing.Dispatch.Next | deployd/node_modules/deployd/lib/router.js:39-41 | `next()` raises `globals` and the hooks started by one and leaves the chain alone |
| Routing.Dispatch.Release | deployd/node_modules/deployd/lib/router.js:41-44 | the release callback lowers `globals` by one and calls `nextResource` exactly when it reaches zero, keeping the invariants |
| Routing.Dispatch.RunSessionHook | deployd/node_modules/deployd/lib/router.js:51 | a hook started with `next()` that releases `n` times moves the counter and the chain as `n` barrier releases do |
| Routing.Dispatch.RunHooks | deployd/node_modules/deployd/lib/router.js:47-52 | the forEach leaves the counter as the hook phase says, and the chain one `nextResource` step further per barrier opening |
| Routing.Dispatch.ForEachStep | deployd/node_modules/deployd/lib/router.js:48-52 | the forEach callback for one resource moves the counter and the chain from the barrier after `k` resources to the barrier after `k + 1` |
| Routing.Dispatch.Begin | deployd/node_modules/deployd/lib/router.js:47-52 | after the forEach and the final `if (!globals) nextResource()`, the counter is the hook phase's and the chain has taken `ChainStarts` steps |
| Routing.Dispatch.NextResource | deployd/node_modules/deployd/lib/router.js:55-88 | one `nextResource` call: the new state is `Advance` of the old one, and the walk invariant and the hook counters are kept |
| Routing.Dispatch.TakeNext | deployd/node_modules/deployd/lib/router.js:55-88 | the statements of `nextResource` (take index `i`; 404 past the end; `isRoot` false, then 401 or root as the gate says; otherwise queue the deferred handle) change the state exactly as `Advance` says |
| Routing.Dispatch.SetRoot | deployd/node_modules/deployd/lib/router.js:65 | `if (ctx.session) ctx.session.isRoot = v` changes only the root flag of the state, and only when there is a session |
| Routing.Dispatch.RunTick | deployd/node_modules/deployd/lib/router.js:80-82 | runs the first deferred handle, whose handler responds, calls `next` or keeps it, keeping the walk invariant |

## Left out

- The `Context` constructor (`./context`) is not part of this model. A context is the resource and `ctx.router`. The session is one `Session` object per request, shared by reference by every context.
- The JavaScript RegExp engine is replaced by the item matcher in `Pattern`. It covers only what the escaped base path can contain: literal characters and `*`. A `\s` class character is escaped like the others. Characters are Unicode scalar values, not UTF-16 code units: for a base path whose last character before `*` lies outside the Basic Multilingual Plane the model repeats the whole character, while JavaScript repeats only its low surrogate, so `UrlMatches("/😀😀", Some("/😀*"))` is true in the model and the source does not match that URL.
- MatchSet.Sort: the tie order of `Array.prototype.sort` depends on the engine, so only the permutation and the non-increasing order by specificness are promised. The insertion sort keeps ties in registration order.
- `debug` logging, the unused `db` import, and the response stream are left out. Only `res.statusCode` and the bodies given to `res.end` are kept.
- `process.nextTick` and real asynchrony are modelled as a FIFO queue of deferred handles that `RunTick` runs one at a time. Hook releases that come after `route` returns are calls of `Dispatch.Release` made by the caller.
- Handlers and hooks are inputs: what a handler does beyond setting the status and ending the response is not modelled.
- Routing.Router.Route: each hook's synchronous releases come in as `sync`, one count per registered resource, so the method requires `|sync|` to equal the number of resources.
- `deployd/node_modules/deployd/test/resources.unit.js` needs a live database and the resource loader, which is not part of this model.
