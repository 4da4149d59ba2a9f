/** The session-hook counter of one `route` call (`globals` with `next()`
    and the release callback it returns), as values. */
module Barrier {
  import opened Resources

  /** Hooks started, releases received, the counter `globals`, and how many
      times a release brought the counter to zero (each of which called
      `nextResource`). */
  datatype Barrier = Barrier(started: nat, released: nat, globals: int, firings: nat)

  /** The counter is the number of hooks started minus the releases received. */
  predicate Counts(b: Barrier) {
    b.globals == b.started - b.released
  }

  /** `next()`: one more hook has started. */
  function Start(b: Barrier): (r: Barrier)
    ensures Counts(b) ==> Counts(r)
  {
    b.(started := b.started + 1, globals := b.globals + 1)
  }

  /** The release callback: `globals--; if (!globals) nextResource()`. There
      is no guard, so a release that takes the counter below zero and a
      later one that brings it back to zero both count. */
  function Release(b: Barrier): (r: Barrier)
    ensures Counts(b) ==> Counts(r)
  {
    var g := b.globals - 1;
    b.(released := b.released + 1, globals := g, firings := b.firings + if g == 0 then 1 else 0)
  }

  /** `n` releases in a row. */
  function ReleaseTimes(b: Barrier, n: nat): Barrier
    decreases n
  {
    if n == 0 then b else Release(ReleaseTimes(b, n - 1))
  }

  /** `this.resources.forEach(...)`: every registered resource that has
      `handleSession` starts its hook, which calls its release `sync[k]`
      times before returning (0 when it releases later). */
  function HookPhase(rs: seq<Resource>, sync: seq<nat>): Barrier
    requires |sync| == |rs|
    decreases |rs|
  {
    if rs == [] then Barrier(0, 0, 0, 0)
    else
      var b := HookPhase(rs[..|rs| - 1], sync[..|rs| - 1]);
      if rs[|rs| - 1].hasSessionHook then ReleaseTimes(Start(b), sync[|rs| - 1]) else b
  }

  /** The forEach one resource further. */
  lemma HookPhaseStep(rs: seq<Resource>, sync: seq<nat>, k: nat)
    requires |sync| == |rs| && k < |rs|
    ensures HookPhase(rs[..k + 1], sync[..k + 1]) ==
      if rs[k].hasSessionHook then ReleaseTimes(Start(HookPhase(rs[..k], sync[..k])), sync[k])
      else HookPhase(rs[..k], sync[..k])
  {
    assert rs[..k + 1][..k] == rs[..k] && sync[..k + 1][..k] == sync[..k];
  }

  /** How many registered resources have `handleSession`. */
  function Hooks(rs: seq<Resource>): nat
    decreases |rs|
  {
    if rs == [] then 0 else Hooks(rs[..|rs| - 1]) + if rs[|rs| - 1].hasSessionHook then 1 else 0
  }

  /** How many synchronous releases the hooks make. */
  function SyncReleases(rs: seq<Resource>, sync: seq<nat>): nat
    requires |sync| == |rs|
    decreases |rs|
  {
    if rs == [] then 0
    else SyncReleases(rs[..|rs| - 1], sync[..|rs| - 1]) + if rs[|rs| - 1].hasSessionHook then sync[|rs| - 1] else 0
  }

  /** How many times `route` itself calls `nextResource`: once per release
      that brought the counter to zero during the forEach, and once more if
      the counter is zero after it. */
  function ChainStarts(b: Barrier): nat {
    b.firings + if b.globals == 0 then 1 else 0
  }

  /** `n` releases lower the counter by `n` and open the barrier once if the
      counter passes through zero on the way (from a positive value), and
      never otherwise. */
  lemma {:induction false} ReleaseTimesEffect(b: Barrier, n: nat)
    ensures var r := ReleaseTimes(b, n);
      r.started == b.started && r.released == b.released + n && r.globals == b.globals - n &&
      r.firings == b.firings + (if 1 <= b.globals <= n then 1 else 0)
    decreases n
  {
    if n > 0 {
      ReleaseTimesEffect(b, n - 1);
    }
  }

  /** Releases do not look at the openings counted before them: `n`
      releases count the same openings on top of any earlier ones. */
  lemma ReleaseTimesSplit(b: Barrier, n: nat)
    ensures ReleaseTimes(b, n) ==
      ReleaseTimes(b.(firings := 0), n).(firings := b.firings + ReleaseTimes(b.(firings := 0), n).firings)
  {
    ReleaseTimesEffect(b, n);
    ReleaseTimesEffect(b.(firings := 0), n);
  }

  /** After the forEach the counter equals the hooks started minus the
      releases received, the hooks started being one per resource with
      `handleSession`. */
  lemma {:induction false} HookPhaseCounts(rs: seq<Resource>, sync: seq<nat>)
    requires |sync| == |rs|
    ensures var b := HookPhase(rs, sync);
      Counts(b) && b.started == Hooks(rs) && b.released == SyncReleases(rs, sync)
    decreases |rs|
  {
    if rs != [] {
      var b := HookPhase(rs[..|rs| - 1], sync[..|rs| - 1]);
      HookPhaseCounts(rs[..|rs| - 1], sync[..|rs| - 1]);
      if rs[|rs| - 1].hasSessionHook {
        ReleaseTimesEffect(Start(b), sync[|rs| - 1]);
      }
    }
  }

  /** Without session hooks the counter never moves. */
  lemma {:induction false} NoHooksNoBarrier(rs: seq<Resource>, sync: seq<nat>)
    requires |sync| == |rs| && Hooks(rs) == 0
    ensures HookPhase(rs, sync) == Barrier(0, 0, 0, 0)
    decreases |rs|
  {
    if rs != [] {
      NoHooksNoBarrier(rs[..|rs| - 1], sync[..|rs| - 1]);
    }
  }

  /** When every hook releases later, the forEach never opens the barrier;
      the counter is the number of hooks, so `route` starts the chain
      itself exactly when no resource has `handleSession`. */
  lemma {:induction false} DeferredHooks(rs: seq<Resource>, sync: seq<nat>)
    requires |sync| == |rs|
    requires forall k :: 0 <= k < |sync| ==> sync[k] == 0
    ensures HookPhase(rs, sync).firings == 0
    ensures HookPhase(rs, sync).globals == Hooks(rs)
    ensures ChainStarts(HookPhase(rs, sync)) == if Hooks(rs) == 0 then 1 else 0
    decreases |rs|
  {
    if rs != [] {
      DeferredHooks(rs[..|rs| - 1], sync[..|rs| - 1]);
    }
  }

  /** With `n` hooks pending and the barrier not yet opened, releases open
      it exactly at the `n`-th release, and only once however they arrive. */
  lemma OpensAtLastRelease(b: Barrier, releases: nat)
    requires b.globals > 0 && b.firings == 0
    ensures ReleaseTimes(b, releases).firings == if releases >= b.globals then 1 else 0
    ensures ReleaseTimes(b, releases).globals == 0 <==> releases == b.globals
  {
    ReleaseTimesEffect(b, releases);
  }

  /** The single guard is not enough: with two hooked resources, a first
      hook that releases before returning opens the barrier while the second
      has not started; the second hook's later release opens it again. */
  lemma EarlyStart(first: Resource, second: Resource)
    requires first.hasSessionHook && second.hasSessionHook
    ensures HookPhase([first, second], [1, 0]).firings == 1
    ensures HookPhase([first, second], [1, 0]).globals == 1
    ensures Release(HookPhase([first, second], [1, 0])).firings == 2
  {
    var rs: seq<Resource>, sync: seq<nat> := [first, second], [1, 0];
    var rs1: seq<Resource>, sync1: seq<nat> := [first], [1];
    assert rs[..1] == rs1 && sync[..1] == sync1;
    var empty: seq<Resource>, none: seq<nat> := [], [];
    assert HookPhase(empty, none) == Barrier(0, 0, 0, 0);
    assert rs1[..0] == empty && sync1[..0] == none;
    var b1 := HookPhase(rs1, sync1);
    assert b1 == ReleaseTimes(Start(Barrier(0, 0, 0, 0)), 1);
    assert b1 == Barrier(1, 1, 0, 1);
    assert HookPhase(rs, sync) == ReleaseTimes(Start(b1), 0);
  }
}
