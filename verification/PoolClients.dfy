/** Other goroutines at work on the scheduler while one client waits for an answer or holds a lease. */
module PoolClients {
  import opened Basics
  import opened KeyOrder
  import opened PoolModel
  import opened PoolConservation
  import opened PoolScan
  import opened KeyPool

  /** A call that some other goroutine makes. */
  datatype Call =
    | CallAcquire(r: Request, capacity: int, ctxDone: bool)
    | CallReceive(w: nat)
    | CallAbandon(w: nat)
    | CallFinishAbandon(w: nat)
    | CallRelease(l: nat)
    | CallShutdown
    | CallSetModelEnabled(model: int, enabled: bool)
    | CallSetKeyEnabled(id: int, enabled: bool)
    | CallApplySuccess(id: int)
    | CallApplyFailure(id: int, model: int, blockModel: bool, authInvalid: bool, cooldownUntil: Option<int>)
    | CallSetModelBlock(id: int, model: int, blocked: bool)
    | CallUpsertKey(key: Key)
    | CallRemoveKey(id: int)
    | CallLoadSnapshot(snaps: seq<Key>, blocks: seq<(int, int)>)

  /** What others leave alone: the waiters and leases of client `c`. They create no waiter for it, and the only
      leases they cut for it are answers to its waiters. */
  ghost predicate Spares(p: Pool, q: Pool, c: nat) {
    && |p.asked| == |p.phases| && |q.asked| == |q.phases| && p.asked <= q.asked && |p.leases| <= |q.leases|
    && (forall x :: |p.asked| <= x < |q.asked| ==> q.asked[x].client != c)
    && (forall x :: 0 <= x < |p.asked| && p.asked[x].client == c ==> q.phases[x] == p.phases[x])
    && (forall k :: 0 <= k < |p.leases| ==>
          q.leases[k].client == p.leases[k].client && (p.leases[k].client == c ==> q.leases[k] == p.leases[k]))
    && (forall k :: |p.leases| <= k < |q.leases| && q.leases[k].client == c ==> q.leases[k].custody.InChannel?)
  }

  lemma SparesTrans(p: Pool, q: Pool, s: Pool, c: nat)
    requires Spares(p, q, c) && Spares(q, s, c)
    ensures Spares(p, s, c)
  {
    forall k | |p.leases| <= k < |s.leases| && s.leases[k].client == c ensures s.leases[k].custody.InChannel? {
      if k < |q.leases| {
        assert q.leases[k].client == s.leases[k].client;
      }
    }
  }

  /** A dispatch answers waiters and cuts leases for them, and changes no lease or phase that there was. */
  lemma RestedSpares(p: Pool, mid: Pool, q: Pool, now: int, cancelled: set<nat>, c: nat)
    requires |p.asked| == |p.phases|
    requires mid.leases == p.leases && mid.phases == p.phases && mid.asked == p.asked
    requires Rested(mid, q, now, cancelled)
    ensures Spares(p, q, c)
  {}

  /** At most the waiter `w` of client `c` is not done. Every lease of `c` is released, except `l` and one that is
      on its way to `w`. */
  ghost predicate Owns(p: Pool, c: nat, w: Option<nat>, l: Option<nat>) {
    && |p.asked| == |p.phases|
    && (forall x :: 0 <= x < |p.phases| && p.asked[x].client == c && p.phases[x] != Done ==> w == Some(x))
    && (forall k :: 0 <= k < |p.leases| && p.leases[k].client == c && !p.leases[k].released ==>
          l == Some(k) || (p.leases[k].custody.InChannel? && w == Some(p.leases[k].custody.waiter)))
  }

  /** In a run of the pool it is enough to look at the leases outside the channels. */
  lemma OwnsOutside(start: int, es: seq<Event>, p: Pool, c: nat, w: Option<nat>, l: Option<nat>)
    requires Ran(start, es, p)
    requires |p.asked| == |p.phases|
    requires forall x :: 0 <= x < |p.phases| && p.asked[x].client == c && p.phases[x] != Done ==> w == Some(x)
    requires forall k :: 0 <= k < |p.leases| && p.leases[k].client == c && !p.leases[k].released ==>
               l == Some(k) || p.leases[k].custody.InChannel?
    ensures Owns(p, c, w, l)
  {
    forall k | 0 <= k < |p.leases| && p.leases[k].client == c && !p.leases[k].released && l != Some(k)
      ensures p.leases[k].custody.InChannel? && w == Some(p.leases[k].custody.waiter)
    {
      OwnerKnown(start, es, p, k);
    }
  }

  /** What is at stake for client `c`. */
  ghost predicate AtStake(p: Pool, c: nat, w: Option<nat>, l: Option<nat>) {
    && Owns(p, c, w, l)
    && (w.Some? ==> w.value < |p.phases| && p.phases[w.value] != Done && p.asked[w.value].client == c)
    && (l.Some? ==>
          && l.value < |p.leases| && p.leases[l.value].client == c && !p.leases[l.value].released
          && !p.leases[l.value].custody.InChannel?)
  }

  lemma SparesStake(start: int, es: seq<Event>, p: Pool, q: Pool, c: nat, w: Option<nat>, l: Option<nat>)
    requires Ran(start, es, q) && AtStake(p, c, w, l) && Spares(p, q, c)
    ensures AtStake(q, c, w, l)
  {
    OwnsOutside(start, es, q, c, w, l);
  }

  // ---------------------------------------------------------------- one call

  /** Calls that change configuration or key state. */
  method Configure(d: Scheduler, call: Call, now: int, cancelled: set<nat>, ghost c: nat)
    requires d.Valid() && d.clock <= now
    modifies d
    ensures d.Valid() && old(d.trace) <= d.trace && d.clock <= now && Spares(old(d.State()), d.State(), c)
  {
    ghost var p := d.State();
    AskedKnown(d.start, d.trace, p);
    ghost var mid := p;
    if call.CallSetModelEnabled? {
      d.SetModelEnabled(call.model, call.enabled, now, cancelled);
      mid := p.(models := p.models[call.model := call.enabled]);
    } else if call.CallSetKeyEnabled? {
      mid := d.SetKeyEnabled(call.id, call.enabled, now, cancelled);
    } else if call.CallApplySuccess? {
      mid := d.ApplySuccess(call.id, now, cancelled);
    } else if call.CallApplyFailure? {
      mid := d.ApplyFailure(call.id, call.model, call.blockModel, call.authInvalid, call.cooldownUntil, now,
        cancelled);
    } else if call.CallSetModelBlock? {
      mid := d.SetModelBlock(call.id, call.model, call.blocked, now, cancelled);
    } else {
      return;
    }
    RestedSpares(p, mid, d.State(), now, cancelled, c);
  }

  /** Calls that change the set of keys. */
  method ChangeKeys(d: Scheduler, call: Call, now: int, cancelled: set<nat>, ghost c: nat)
    requires d.Valid() && d.clock <= now
    modifies d
    ensures d.Valid() && old(d.trace) <= d.trace && d.clock <= now && Spares(old(d.State()), d.State(), c)
  {
    ghost var p := d.State();
    AskedKnown(d.start, d.trace, p);
    ghost var mid := p;
    if call.CallUpsertKey? && Idle(call.key) && call.key.blocks == {} {
      mid := d.UpsertKey(call.key, now, cancelled);
    } else if call.CallRemoveKey? {
      mid := d.RemoveKey(call.id, now, cancelled);
    } else if call.CallLoadSnapshot? && Distinct(Ids(call.snaps)) && forall i :: 0 <= i < |call.snaps| ==>
      Idle(call.snaps[i]) {
      mid := d.LoadSnapshot(call.snaps, call.blocks, now, cancelled);
    } else {
      return;
    }
    RestedSpares(p, mid, d.State(), now, cancelled, c);
  }

  /** Another waiter takes its answer. */
  method OtherReceives(d: Scheduler, x: nat, ghost c: nat)
    requires d.Valid() && x < |d.phases| && d.phases[x] == Waiting && x in d.results
    requires |d.asked| == |d.phases| && d.asked[x].client != c
    modifies d
    ensures d.Valid() && old(d.trace) <= d.trace && d.clock == old(d.clock) && Spares(old(d.State()), d.State(), c)
  {
    var out := d.Receive(x);
  }

  /** Another waiter gives up. */
  method OtherAbandons(d: Scheduler, x: nat, now: int, cancelled: set<nat>, ghost c: nat)
    requires d.Valid() && d.clock <= now && x < |d.phases| && d.phases[x] == Waiting
    requires |d.asked| == |d.phases| && d.asked[x].client != c
    modifies d
    ensures d.Valid() && old(d.trace) <= d.trace && d.clock <= now && Spares(old(d.State()), d.State(), c)
  {
    var left := d.Abandon(x, now, cancelled);
  }

  method OtherFinishes(d: Scheduler, x: nat, now: int, cancelled: set<nat>, ghost c: nat)
    requires d.Valid() && d.clock <= now && x < |d.phases| && d.phases[x] == Draining
    requires |d.asked| == |d.phases| && d.asked[x].client != c
    modifies d
    ensures d.Valid() && old(d.trace) <= d.trace && d.clock <= now && Spares(old(d.State()), d.State(), c)
  {
    ghost var p := d.State();
    forall k | 0 <= k < |p.leases| && p.leases[k].client == c ensures p.leases[k].custody != InChannel(x) {
      if p.leases[k].custody.InChannel? {
        OwnerKnown(d.start, d.trace, p, k);
      }
    }
    d.FinishAbandon(x, now, cancelled);
  }

  method OtherReleases(d: Scheduler, x: nat, now: int, cancelled: set<nat>, ghost c: nat)
    requires d.Valid() && d.clock <= now && x < |d.leases| && !d.leases[x].custody.InChannel?
    requires d.leases[x].client != c && |d.asked| == |d.phases|
    modifies d
    ensures d.Valid() && old(d.trace) <= d.trace && d.clock <= now && Spares(old(d.State()), d.State(), c)
  {
    ghost var was := d.leases;
    d.Release(x, now, cancelled);
    assert forall k :: 0 <= k < |was| ==> d.leases[k] == was[x := was[x].(released := true)][k];
  }

  method OtherAcquires(d: Scheduler, r: Request, capacity: int, ctxDone: bool, now: int, cancelled: set<nat>,
                       ghost c: nat)
    requires d.Valid() && d.clock <= now && r.client != c
    modifies d
    ensures d.Valid() && old(d.trace) <= d.trace && d.clock <= now && Spares(old(d.State()), d.State(), c)
  {
    AskedKnown(d.start, d.trace, d.State());
    var a := d.Acquire(r, capacity, ctxDone, now, cancelled);
  }

  method OtherShutsDown(d: Scheduler, now: int, ghost c: nat)
    requires d.Valid() && d.clock <= now
    modifies d
    ensures d.Valid() && old(d.trace) <= d.trace && d.clock <= now && Spares(old(d.State()), d.State(), c)
  {
    AskedKnown(d.start, d.trace, d.State());
    d.Shutdown(now);
  }

  /** One call by another goroutine. A call that is not possible now, or that would ask for a key in the name of
      client `c`, read the channel of its waiter or release a lease of it, is not made. */
  method Perform(d: Scheduler, call: Call, now: int, cancelled: set<nat>, c: nat, w: Option<nat>,
                 ghost l: Option<nat>)
    requires d.Valid() && d.clock <= now && AtStake(d.State(), c, w, l)
    modifies d
    ensures d.Valid() && old(d.trace) <= d.trace && d.clock <= now && Spares(old(d.State()), d.State(), c)
  {
    match call
    case CallAcquire(r, capacity, ctxDone) =>
      if r.client != c {
        OtherAcquires(d, r, capacity, ctxDone, now, cancelled, c);
      }
    case CallReceive(x) =>
      if x < |d.phases| && d.phases[x] == Waiting && x in d.results && w != Some(x) {
        OtherReceives(d, x, c);
      }
    case CallAbandon(x) =>
      if x < |d.phases| && d.phases[x] == Waiting && w != Some(x) {
        OtherAbandons(d, x, now, cancelled, c);
      }
    case CallFinishAbandon(x) =>
      if x < |d.phases| && d.phases[x] == Draining && w != Some(x) {
        OtherFinishes(d, x, now, cancelled, c);
      }
    case CallRelease(x) =>
      if x < |d.leases| && !d.leases[x].custody.InChannel? && d.leases[x].client != c {
        OtherReleases(d, x, now, cancelled, c);
      }
    case CallShutdown => OtherShutsDown(d, now, c);
    case CallUpsertKey(_) => ChangeKeys(d, call, now, cancelled, c);
    case CallRemoveKey(_) => ChangeKeys(d, call, now, cancelled, c);
    case CallLoadSnapshot(_, _) => ChangeKeys(d, call, now, cancelled, c);
    case _ => Configure(d, call, now, cancelled, c);
  }

  /** Any calls by other goroutines, one after the other. */
  method PerformAll(d: Scheduler, calls: seq<Call>, now: int, cancelled: set<nat>, c: nat, w: Option<nat>,
                    ghost l: Option<nat>)
    requires d.Valid() && d.clock <= now && AtStake(d.State(), c, w, l)
    modifies d
    ensures d.Valid() && old(d.trace) <= d.trace && d.clock <= now
    ensures Spares(old(d.State()), d.State(), c) && AtStake(d.State(), c, w, l)
  {
    ghost var first := d.State();
    for i := 0 to |calls|
      invariant d.Valid() && old(d.trace) <= d.trace && d.clock <= now
      invariant Spares(first, d.State(), c) && AtStake(d.State(), c, w, l)
    {
      ghost var before := d.State();
      Perform(d, calls[i], now, cancelled, c, w, l);
      SparesTrans(first, before, d.State(), c);
      SparesStake(d.start, d.trace, before, d.State(), c, w, l);
    }
  }
}
