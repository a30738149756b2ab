/** internal/pool as it is written: an object whose locked sections change its fields step by
    step. Every method is proved to perform only steps of PoolModel, which `trace` records, so the
    theorems about all legal runs hold of it. Parameters `now` and `cancelled` stand for the
    clock reading of the locked section and for the waiters whose context has ended. */
module KeyPool {
  import opened Basics
  import opened RequestWindow
  import opened KeyOrder
  import opened PoolModel
  import opened PoolConservation
  import opened PoolRuns
  import opened PoolScan

  /** What acquire tells its caller once the lock is released. */
  datatype Answer = Immediate(lease: nat) | Rejected(failure: Failure) | Parked(waiter: nat)

  /** No queued waiter could be served by a key it has not tried, and each has a key to wait for. */
  ghost predicate Settled(p: Pool, now: int)
    requires Wf(p)
  {
    Stalled(p, p.queue, now)
  }

  /** What one dispatch does: it answers some waiters, each once, and leaves the others in their
      original order; besides that only capacity is used up and the cursor moves. */
  ghost predicate Dispatched(p: Pool, q: Pool, now: int, cancelled: set<nat>) {
    && Confined(p, q, now)
    && q.queue == Survivors(p.queue, q.results)
    && Answered(p, q.results, |p.queue|, cancelled)
    && NoneCancelled(q.queue, cancelled)
  }

  /** weightedSelect: some candidate, chosen by chance. */
  method WeightedSelect(candidates: seq<nat>) returns (chosen: nat)
    requires candidates != []
    ensures chosen in candidates
  {
    var i: nat :| i < |candidates|;
    chosen := candidates[i];
  }

  class Scheduler {
    var objs: seq<Key>
    var keys: map<int, nat>
    var models: map<int, bool>
    var order: seq<int>
    var cursor: nat
    var queue: seq<Waiter>
    var closed: bool
    var leases: seq<Lease>
    var results: map<nat, Outcome>
    var phases: seq<Phase>
    /** What each waiter asked for; its goroutine keeps it. */
    ghost var asked: seq<Request>
    ghost var clock: int
    ghost var trace: seq<Event>
    ghost const start: int

    ghost function State(): Pool
      reads this
    {
      Pool(objs, keys, models, order, cursor, queue, closed, leases, results, phases, asked, clock)
    }

    /** The state is the outcome of the recorded run. */
    ghost predicate Valid()
      reads this
    {
      Wf(State()) && Ran(start, trace, State())
    }

    constructor (now: int)
      ensures Valid() && State() == Fresh(now) && trace == []
    {
      objs, keys, models, order, cursor := [], map[], map[], [], 0;
      queue, closed, leases, results, phases := [], false, [], map[], [];
      start, asked, clock, trace := now, [], now, [];
      new;
      StartRun(now);
    }

    /** Records the step that led from `before` to the present state. */
    ghost method Log(before: Pool, e: Event)
      requires Ran(start, trace, before) && Wf(before)
      requires Fires(before, e) && State() == Next(before, e)
      modifies this`trace
      ensures Valid() && trace == old(trace) + [e]
    {
      GrowRun(start, trace, before, e);
      trace := trace + [e];
    }

    // -------------------------------------------------------------- single steps

    /** Takes the slot, advances the cursor and cuts the lease; a queued head gets it in its channel. */
    method Hand(offset: nat, r: Request, relaxed: bool, target: Target, now: int) returns (lease: nat)
      requires Valid() && clock <= now && CanGrant(State(), offset, r, relaxed, target, now)
      modifies this
      ensures Valid() && trace == old(trace) + [Grant(offset, r, relaxed, target, now)]
      ensures State() == GrantTo(old(State()), offset, r, target, now)
      ensures lease == |old(leases)|
    {
      ghost var before := State();
      lease := TakeSlot(offset, r, target, now);
      Log(before, Grant(offset, r, relaxed, target, now));
    }

    /** The key `offset` steps after the cursor: its position and its object. */
    method Locate(offset: nat) returns (index: nat, o: nat)
      requires Wf(State()) && offset < |order|
      ensures index == Pos(State(), offset) && o == ObjAt(State(), index)
    {
      index := if cursor + offset < |order| then cursor + offset else cursor + offset - |order|;
      assert index == Pos(State(), offset);
      o := keys[order[index]];
    }

    method TakeSlot(offset: nat, r: Request, target: Target, now: int) returns (lease: nat)
      requires Wf(State()) && offset < |order|
      requires target.ToHead? ==> queue != []
      modifies this`objs, this`cursor, this`leases, this`results, this`queue, this`clock
      ensures State() == GrantTo(old(State()), offset, r, target, now)
      ensures lease == |old(leases)|
    {
      var index, o := Locate(offset);
      lease := |leases|;
      objs := objs[o := Occupy(objs[o], r.stream, now)];
      cursor := if index + 1 == |order| then 0 else index + 1;
      leases := leases + [Lease(o, order[index], r.stream, if target.ToHead? then InChannel(queue[0].id)
        else WithCaller, false, r.client)];
      if target.ToHead? {
        results := results[queue[0].id := Granted(lease)];
        queue := queue[1..];
      }
      clock := now;
    }

    method RefuseHead(failure: Failure, relaxed: bool, now: int)
      requires Valid() && Fires(State(), Refuse(failure, relaxed, now))
      modifies this
      ensures Valid() && trace == old(trace) + [Refuse(failure, relaxed, now)]
      ensures State() == Next(old(State()), Refuse(failure, relaxed, now))
    {
      ghost var before := State();
      results := results[queue[0].id := Refused(failure)];
      queue := queue[1..];
      clock := now;
      Log(before, Refuse(failure, relaxed, now));
    }

    method RotateHead(now: int)
      requires Valid() && Fires(State(), Rotate(now))
      modifies this
      ensures Valid() && trace == old(trace) + [Rotate(now)]
      ensures State() == Next(old(State()), Rotate(now))
    {
      ghost var before := State();
      queue := queue[1..] + [queue[0]];
      clock := now;
      Log(before, Rotate(now));
    }

    // -------------------------------------------------------------- tryAcquireLocked

    /** requestRetryAfter of one key object: prunes it and reports its wait. */
    method RequestRetryAfter(o: nat, now: int) returns (wait: int)
      requires o < |objs|
      modifies this`objs
      ensures wait == RetryAfter(old(objs)[o].times, now)
      ensures objs == old(objs)[o := old(objs)[o].(times := Kept(old(objs)[o].times, now))]
    {
      var kept;
      kept, wait := PruneTimes(objs[o].times, now);
      objs := objs[o := objs[o].(times := kept)];
    }

    /** The checks of the scan on one key, in the source's order. */
    method Inspect(o: nat, r: Request, relaxed: bool, now: int) returns (c: Class)
      requires o < |objs|
      modifies this`objs
      ensures c == Classify(old(objs)[o], r, now, relaxed)
      ensures objs == old(objs) || objs == old(objs)[o := old(objs)[o].(times := Kept(old(objs)[o].times, now))]
    {
      var k := objs[o];
      if !k.enabled || k.authInvalid {
        return Off;
      }
      if r.model in k.blocks {
        return Blocked;
      }
      if k.cooldownUntil.Some? && now < k.cooldownUntil.value {
        return Cooling(k.cooldownUntil.value - now);
      }
      if !relaxed && k.id in r.attempted {
        return Tried;
      }
      var wait := RequestRetryAfter(o, now);
      if wait > 0 {
        return Limited(wait);
      }
      if r.stream {
        if k.streaming >= r.maxStreaming {
          return Taken;
        }
      } else {
        if k.busy {
          return Taken;
        }
      }
      return Open;
    }

    /** One turn of the scan: the class of the key `offset` steps after the cursor. */
    method InspectAt(ghost first: Pool, offset: nat, r: Request, relaxed: bool, now: int) returns (c: Class)
      requires Wf(first) && offset < |order|
      requires first.keys == keys && first.order == order && first.cursor == cursor
      requires AllPruned(first.objs, objs, now)
      modifies this`objs
      ensures AllPruned(first.objs, objs, now)
      ensures c == ClassAt(first, r, now, relaxed, offset)
    {
      var index := if cursor + offset < |order| then cursor + offset else cursor + offset - |order|;
      assert index == Pos(first, offset) && order[index] in keys && keys[order[index]] == ObjAt(first, index);
      var o := keys[order[index]];
      PrunedClass(first.objs[o], objs[o], r, now, relaxed);
      PruneAgain(first.objs, objs, o, now);
      c := Inspect(o, r, relaxed, now);
    }

    /** The scan from the cursor on. It finds the key to grant: the first open one, or with latency
        routing any open one; or else the refusal that is owed. It changes nothing but pruning. */
    method Scan(ghost first: Pool, ghost cs: seq<Class>, r: Request, relaxed: bool, now: int)
      returns (found: Option<nat>, d: Denial)
      requires Wf(first) && cs == Classes(first, r, now, relaxed)
      requires first.keys == keys && first.order == order && first.cursor == cursor && first.objs == objs
      modifies this`objs
      ensures AllPruned(first.objs, objs, now)
      ensures found.Some? <==> SomeOpen(cs)
      ensures found.Some? ==>
                found.value < |order| && cs[found.value] == Open && (r.latency || !SomeOpen(cs[..found.value]))
      ensures found.None? ==> Refusal(cs, d)
    {
      found, d := None, Denial(Busy, 0);
      var tally := Tally(false, false, false, false, false, None, None);
      var candidates: seq<nat> := [];
      assert cs[..0] == [];
      for offset := 0 to |order|
        invariant AllPruned(first.objs, objs, now) && Scanning(cs, tally, candidates, offset, r.latency)
      {
        ScanNext(cs, tally, candidates, offset, r.latency);
        var c := InspectAt(first, offset, r, relaxed, now);
        tally := Count(tally, c);
        if c.Open? {
          if !r.latency {
            return Some(offset), d;
          }
          candidates := candidates + [offset];
        }
      }
      ScanDone(cs, tally, candidates, r.latency);
      if candidates == [] {
        d := DenialOf(tally);
        return;
      }
      var selected := WeightedSelect(candidates);
      found := Some(selected);
    }

    /** The scan as one recorded step. */
    method Survey(r: Request, relaxed: bool, now: int) returns (found: Option<nat>, d: Denial)
      requires Valid() && clock <= now
      modifies this
      ensures Valid() && trace == old(trace) + [Sweep(objs, now)]
      ensures State() == old(State()).(objs := objs, clock := now) && AllPruned(old(objs), objs, now)
      ensures var cs := Classes(old(State()), r, now, relaxed);
              && Classes(State(), r, now, relaxed) == cs
              && Classes(State(), r, now, false) == Classes(old(State()), r, now, false)
              && (found.Some? <==> SomeOpen(cs))
              && (found.Some? ==>
                    found.value < |order| && cs[found.value] == Open && (r.latency || !SomeOpen(cs[..found.value])))
              && (found.None? ==> Refusal(cs, d))
    {
      ghost var first := State();
      found, d := Scan(first, Classes(first, r, now, relaxed), r, relaxed, now);
      SweepClasses(first, objs, r, now, relaxed);
      SweepClasses(first, objs, r, now, false);
      clock := now;
      Log(first, Sweep(objs, now));
    }

    /** Grants if and only if some key is open, otherwise gives the refusal that is owed. `mid` is
        the pool after pruning, from which the grant at offset `at` was made. */
    method TryAcquire(r: Request, relaxed: bool, target: Target, now: int)
      returns (lease: Option<nat>, d: Denial, ghost mid: Pool, ghost at: nat)
      requires Valid() && clock <= now && !closed
      requires target.ToHead? ==> queue != [] && queue[0].req == r
      requires relaxed ==> target.ToHead? && !r.noRelax && !SomeOpen(Classes(State(), r, now, false))
      modifies this
      ensures Valid() && old(trace) <= trace
      ensures Wf(mid) && mid == old(State()).(objs := mid.objs, clock := mid.clock)
      ensures old(clock) <= mid.clock <= now && AllPruned(old(objs), mid.objs, now)
      ensures lease.Some? <==> Servable(old(State()), r, now, relaxed)
      ensures lease.None? ==>
              State() == mid && Denied(old(State()), r, now, relaxed, d) && Denied(State(), r, now, relaxed, d)
      ensures lease.Some? ==>
                && CanGrant(mid, at, r, relaxed, target, now)
                && State() == GrantTo(mid, at, r, target, now)
                && lease.value == |old(leases)|
    {
      if r.model in models && !models[r.model] {
        mid, at, lease, d := State(), 0, None, Denial(ModelBlocked, 0);
      } else {
        lease, d, mid, at := TryKeys(r, relaxed, target, now);
      }
    }

    /** The scan and the grant, for a model that is not switched off. */
    method TryKeys(r: Request, relaxed: bool, target: Target, now: int)
      returns (lease: Option<nat>, d: Denial, ghost mid: Pool, ghost at: nat)
      requires Valid() && clock <= now && !closed && !ModelOff(State(), r.model)
      requires target.ToHead? ==> queue != [] && queue[0].req == r
      requires relaxed ==> target.ToHead? && !r.noRelax && !SomeOpen(Classes(State(), r, now, false))
      modifies this
      ensures Valid() && old(trace) <= trace
      ensures Wf(mid) && mid == old(State()).(objs := mid.objs, clock := mid.clock)
      ensures old(clock) <= mid.clock <= now && AllPruned(old(objs), mid.objs, now)
      ensures lease.Some? <==> Servable(old(State()), r, now, relaxed)
      ensures lease.None? ==>
              State() == mid && Denied(old(State()), r, now, relaxed, d) && Denied(State(), r, now, relaxed, d)
      ensures lease.Some? ==>
                && CanGrant(mid, at, r, relaxed, target, now)
                && State() == GrantTo(mid, at, r, target, now)
                && lease.value == |old(leases)|
    {
      ghost var first := State();
      var found;
      found, d := Survey(r, relaxed, now);
      mid, at, lease := State(), 0, None;
      if found.Some? {
        at := found.value;
        GrantReady(first, mid, r, relaxed, target, now, found.value);
        var l := Hand(found.value, r, relaxed, target, now);
        lease := Some(l);
      }
    }

    // -------------------------------------------------------------- the three has...Locked scans

    /** The checks of hasNonAttemptedReadyLocked on one key; it prunes before it looks at `attempted`. */
    method Assignable(o: nat, r: Request, now: int) returns (yes: bool)
      requires o < |objs|
      modifies this`objs
      ensures yes <==> Classify(old(objs)[o], r, now, false) == Open
      ensures objs == old(objs) || objs == old(objs)[o := old(objs)[o].(times := Kept(old(objs)[o].times, now))]
    {
      var k := objs[o];
      if !k.enabled || k.authInvalid || r.model in k.blocks {
        return false;
      }
      if k.cooldownUntil.Some? && now < k.cooldownUntil.value {
        return false;
      }
      var wait := RequestRetryAfter(o, now);
      if wait > 0 || k.id in r.attempted {
        return false;
      }
      return if r.stream then k.streaming < r.maxStreaming else !k.busy;
    }

    method FindAssignable(ghost first: Pool, r: Request, now: int) returns (found: bool)
      requires Wf(first)
      requires first.keys == keys && first.order == order && first.cursor == cursor && first.objs == objs
      modifies this`objs
      ensures AllPruned(first.objs, objs, now)
      ensures found <==> SomeOpen(Classes(first, r, now, false))
    {
      ghost var cs := Classes(first, r, now, false);
      for offset := 0 to |order|
        invariant AllPruned(first.objs, objs, now)
        invariant forall j :: 0 <= j < offset ==> cs[j] != Open
      {
        var index := if cursor + offset < |order| then cursor + offset else cursor + offset - |order|;
        assert index == Pos(first, offset) && order[index] in keys && keys[order[index]] == ObjAt(first, index);
        var o := keys[order[index]];
        PrunedClass(first.objs[o], objs[o], r, now, false);
        PruneAgain(first.objs, objs, o, now);
        var yes := Assignable(o, r, now);
        assert yes <==> cs[offset] == Open;
        if yes {
          return true;
        }
      }
      return false;
    }

    /** hasNonAttemptedReadyLocked as one recorded step. */
    method HasNonAttemptedReady(r: Request, now: int) returns (found: bool)
      requires Valid() && clock <= now
      modifies this
      ensures Valid() && trace == old(trace) + [Sweep(objs, now)]
      ensures State() == old(State()).(objs := objs, clock := now) && AllPruned(old(objs), objs, now)
      ensures found <==> SomeOpen(Classes(State(), r, now, false))
    {
      ghost var first := State();
      found := FindAssignable(first, r, now);
      SweepClasses(first, objs, r, now, false);
      clock := now;
      Log(first, Sweep(objs, now));
    }

    /** Some enabled, unblocked, non-cooling key is outside `attempted`, busy or not. */
    method HasUnattemptedEligible(r: Request, now: int) returns (found: bool)
      requires Wf(State())
      ensures found <==> SomeUntried(State(), r, now)
    {
      for i := 0 to |order|
        invariant forall j :: 0 <= j < i ==> !Untried(objs[ObjAt(State(), j)], r, now)
      {
        var k := objs[keys[order[i]]];
        assert keys[order[i]] == ObjAt(State(), i);
        if !k.enabled || k.authInvalid || r.model in k.blocks { continue; }
        if k.cooldownUntil.Some? && now < k.cooldownUntil.value { continue; }
        if k.id in r.attempted { continue; }
        return true;
      }
      return false;
    }

    /** Some enabled, unblocked, non-cooling key inside `attempted` has no free slot. */
    method HasBusyAttemptedEligible(r: Request, now: int) returns (found: bool)
      requires Wf(State())
      ensures found <==> SomeTriedAndTaken(State(), r, now)
    {
      for i := 0 to |order|
        invariant forall j :: 0 <= j < i ==> !TriedAndTaken(objs[ObjAt(State(), j)], r, now)
      {
        var k := objs[keys[order[i]]];
        assert keys[order[i]] == ObjAt(State(), i);
        if !k.enabled || k.authInvalid || r.model in k.blocks { continue; }
        if k.cooldownUntil.Some? && now < k.cooldownUntil.value { continue; }
        if k.id !in r.attempted { continue; }
        if r.stream {
          if k.streaming >= r.maxStreaming { return true; }
        } else if k.busy {
          return true;
        }
      }
      return false;
    }

    // -------------------------------------------------------------- dispatchWaitersLocked

    /** One turn of the strict pass: the head is answered or, when only busy, moved to the tail. */
    method DispatchHead(ghost first: Pool, ghost n: nat, now: int, cancelled: set<nat>)
      requires Valid() && !closed && clock <= now
      requires Progress(first, State(), n, now, cancelled) && n < |first.queue| && DistinctWaiters(first.queue)
      modifies this
      ensures Valid() && old(trace) <= trace && !closed
      ensures Progress(first, State(), n + 1, now, cancelled)
      ensures Wf(old(State())) && old(queue) != [] && Turn(old(State()), State(), now, cancelled)
    {
      ghost var before := State();
      var head := queue[0];
      assert head == first.queue[n];
      HeadUnanswered(start, trace, before);
      if head.id in cancelled {
        RefuseHead(Canceled, false, now);
        QueueShrunk(before, State(), now);
        ProgressAnswer(first, before, State(), n, now, cancelled, Refused(Canceled));
        return;
      }
      var lease, d;
      ghost var mid, at;
      lease, d, mid, at := TryAcquire(head.req, false, ToHead, now);
      PrunedConfined(before, mid, now);
      ProgressIdle(first, before, mid, n, now, cancelled);
      if lease.Some? {
        GrantConfined(mid, at, head.req, false, ToHead, now);
        ProgressAnswer(first, mid, State(), n, now, cancelled, Granted(lease.value));
        AttendGranted(before, mid, at, State(), false, now);
      } else {
        TurnAway(first, n, head, d, now, cancelled);
        DeniedSwept(before, mid, State(), false, now, d);
        AttendDenied(before, State(), false, now, d);
      }
    }

    /** A head that cannot be served goes to the tail when it is only busy, and is refused otherwise. */
    method TurnAway(ghost first: Pool, ghost n: nat, head: Waiter, d: Denial, now: int, cancelled: set<nat>)
      requires Valid() && !closed && clock <= now && queue != [] && head == queue[0] && head.id !in cancelled
      requires Progress(first, State(), n, now, cancelled) && n < |first.queue| && DistinctWaiters(first.queue)
      requires head == first.queue[n] && Denied(State(), head.req, now, false, d)
      modifies this
      ensures Valid() && old(trace) <= trace && !closed
      ensures Progress(first, State(), n + 1, now, cancelled)
      ensures HeadDenied(old(State()), State(), d, false, now)
    {
      ghost var mid := State();
      HeadUnanswered(start, trace, mid);
      if d.reason == Busy {
        BusyIsBare(mid, head.req, now, false, d);
        RotateHead(now);
        ProgressRotate(first, mid, State(), n, now, cancelled);
      } else {
        RefuseHead(Unavailable(d), false, now);
        QueueShrunk(mid, State(), now);
        ProgressAnswer(first, mid, State(), n, now, cancelled, Refused(Unavailable(d)));
      }
    }

    /** The relaxed pass over the head that the strict pass left behind. */
    method RelaxHead(ghost first: Pool, now: int, cancelled: set<nat>)
      requires Valid() && !closed && clock <= now && queue != []
      requires Dispatched(first, State(), now, cancelled) && Settled(State(), now) && DistinctWaiters(first.queue)
      modifies this
      ensures Valid() && old(trace) <= trace && !closed
      ensures Dispatched(first, State(), now, cancelled) && Settled(State(), now)
      ensures Wf(old(State())) && SecondLook(old(State()), State(), now)
    {
      ghost var before := State();
      var head := queue[0];
      HeadUnanswered(start, trace, before);
      if head.req.noRelax {
        return;
      }
      var ready := HasNonAttemptedReady(head.req, now);
      ghost var swept := State();
      PrunedConfined(before, swept, now);
      SweptClasses(before, swept, head.req, now, false);
      DispatchedIdle(first, before, swept, now, cancelled);
      if !ready {
        RetryHead(first, now, cancelled);
        AttendSwept(before, swept, State(), true, now);
      }
    }

    /** One try for the head with the keys that it has tried. */
    method RetryHead(ghost first: Pool, now: int, cancelled: set<nat>)
      requires Valid() && !closed && clock <= now && queue != [] && !queue[0].req.noRelax
      requires !SomeOpen(Classes(State(), queue[0].req, now, false))
      requires Dispatched(first, State(), now, cancelled) && Settled(State(), now) && DistinctWaiters(first.queue)
      modifies this
      ensures Valid() && old(trace) <= trace && !closed
      ensures Dispatched(first, State(), now, cancelled) && Settled(State(), now)
      ensures Wf(old(State())) && old(queue) != [] && Attended(old(State()), State(), true, now)
    {
      ghost var before := State();
      var head := queue[0];
      HeadUnanswered(start, trace, before);
      var lease, d;
      ghost var mid, at;
      lease, d, mid, at := TryAcquire(head.req, true, ToHead, now);
      PrunedConfined(before, mid, now);
      DispatchedIdle(first, before, mid, now, cancelled);
      if lease.Some? {
        GrantConfined(mid, at, head.req, true, ToHead, now);
        DispatchedAnswer(first, mid, State(), now, cancelled, Granted(lease.value));
        AttendGranted(before, mid, at, State(), true, now);
      } else {
        if d.reason != Busy {
          RefuseHead(Unavailable(d), true, now);
          QueueShrunk(mid, State(), now);
          DispatchedAnswer(first, mid, State(), now, cancelled, Refused(Unavailable(d)));
        }
        DeniedSwept(before, mid, State(), true, now, d);
        AttendDenied(before, State(), true, now, d);
      }
    }

    /** Gives every queued waiter one strict turn in order, then the head one relaxed turn. It
        terminates, answers each waiter at most once and only waiters that it dequeues, keeps the
        rest in order, and leaves no queued waiter that an untried key could serve. */
    method Dispatch(now: int, cancelled: set<nat>)
      requires Valid() && clock <= now
      modifies this
      ensures Valid() && old(trace) <= trace && clock <= now
      ensures closed ==> State() == old(State())
      ensures !closed ==> Dispatched(old(State()), State(), now, cancelled) && Settled(State(), now)
      ensures !closed ==> Passes(old(State()), State(), now, cancelled)
    {
      if closed {
        return;
      }
      ghost var first := State();
      QueueDistinct(start, trace, first);
      StrictPass(first, now, cancelled);
      ghost var mid := State();
      if |queue| > 0 {
        RelaxHead(first, now, cancelled);
      }
      SealPasses(first, mid, State(), now, cancelled);
    }

    method NextTurn(ghost first: Pool, ghost n: nat, now: int, cancelled: set<nat>)
      requires Valid() && !closed && clock <= now && n < |first.queue| && Underway(first, State(), n, now, cancelled)
      modifies this
      ensures Valid() && old(trace) <= trace && !closed && clock <= now
      ensures Underway(first, State(), n + 1, now, cancelled)
    {
      ghost var before := State();
      OpenUnderway(first, before, n, now, cancelled);
      DispatchHead(first, n, now, cancelled);
      MoreTurns(first, before, State(), n, now, cancelled);
      SealUnderway(first, State(), n + 1, now, cancelled);
    }

    /** One strict turn for each waiter that is queued now. */
    method StrictPass(ghost first: Pool, now: int, cancelled: set<nat>)
      requires Valid() && !closed && clock <= now && first == State() && DistinctWaiters(queue)
      modifies this
      ensures Valid() && old(trace) <= trace && !closed && clock <= now
      ensures Dispatched(first, State(), now, cancelled) && Settled(State(), now)
      ensures Passing(first, State(), |first.queue|, now, cancelled)
    {
      StartUnderway(first, now, cancelled);
      ghost var done: nat := 0;
      var remaining := |queue|;
      while remaining > 0 && |queue| > 0
        invariant Valid() && old(trace) <= trace && !closed && clock <= now
        invariant remaining >= 0 && done + remaining == |first.queue|
        invariant Underway(first, State(), done, now, cancelled)
      {
        NextTurn(first, done, now, cancelled);
        remaining, done := remaining - 1, done + 1;
      }
      UnderwayDone(first, State(), done, now, cancelled);
    }

    // -------------------------------------------------------------- acquire and its waiters

    /** The locked part of acquire. */
    method Acquire(r: Request, capacity: int, ctxDone: bool, now: int, cancelled: set<nat>) returns (a: Answer)
      requires Valid() && clock <= now
      modifies this
      ensures Valid() && old(trace) <= trace && clock <= now
      ensures ctxDone || old(closed) ==>
              State() == old(State()) && a == Rejected(if ctxDone then Canceled else ShuttingDown)
      ensures !ctxDone && !old(closed) ==> Acquired(old(State()), State(), r, capacity, now, cancelled, a)
      ensures !ctxDone && !old(closed) ==> !closed && Settled(State(), now)
      ensures a.Immediate? ==>
                && |old(leases)| <= a.lease < |leases| && !leases[a.lease].released
                && leases[a.lease].custody == WithCaller && leases[a.lease].key !in r.attempted
                && leases[a.lease].client == r.client
      ensures old(leases) <= leases
      ensures forall l :: |old(leases)| <= l < |leases| && !leases[l].custody.InChannel? ==> a == Immediate(l)
      ensures a.Parked? ==>
              a.waiter == |old(phases)| == |old(asked)| && phases == old(phases) + [Waiting]
              && asked == old(asked) + [r]
      ensures !a.Parked? ==> phases == old(phases) && asked == old(asked)
      ensures !ctxDone && !old(closed) && a.Rejected? ==> AcquireRefused(State(), r, capacity, now, a.failure)
    {
      if ctxDone {
        return Rejected(Canceled);
      }
      if closed {
        return Rejected(ShuttingDown);
      }
      ghost var before := State();
      Dispatch(now, cancelled);
      ghost var first := State();
      a := Admit(r, capacity, now, cancelled);
      SealAcquired(before, first, State(), r, capacity, now, cancelled, a);
    }

    /** The rest of it, once the waiters have been dispatched. */
    method Admit(r: Request, capacity: int, now: int, cancelled: set<nat>) returns (a: Answer)
      requires Valid() && clock <= now && !closed && Settled(State(), now)
      modifies this
      ensures Valid() && old(trace) <= trace && clock <= now && !closed && Settled(State(), now)
      ensures Wf(old(State())) && Admitted(old(State()), State(), r, capacity, now, cancelled, a)
      ensures a.Immediate? ==>
                && |old(leases)| <= a.lease < |leases| && !leases[a.lease].released
                && leases[a.lease].custody == WithCaller && leases[a.lease].key !in r.attempted
                && leases[a.lease].client == r.client
      ensures old(leases) <= leases
      ensures forall l :: |old(leases)| <= l < |leases| && !leases[l].custody.InChannel? ==> a == Immediate(l)
      ensures a.Parked? ==>
              a.waiter == |old(phases)| == |old(asked)| && phases == old(phases) + [Waiting]
              && asked == old(asked) + [r]
      ensures !a.Parked? ==> phases == old(phases) && asked == old(asked)
      ensures a.Rejected? ==> AcquireRefused(State(), r, capacity, now, a.failure)
    {
      ghost var first := State();
      if |queue| == 0 {
        var quick := AcquireIdle(r, now);
        if quick.Some? {
          return quick.value;
        }
      }
      a := Park(first, r, capacity, now, cancelled);
    }

    /** The caller joins the queue, unless it is full. */
    method Park(ghost first: Pool, r: Request, capacity: int, now: int, cancelled: set<nat>) returns (a: Answer)
      requires Valid() && clock <= now && !closed && (|queue| >= capacity ==> Settled(State(), now))
      requires Wf(first) && Swept(first, State(), now) && (queue == [] ==> Worthwhile(first, r, now))
      modifies this
      ensures Valid() && old(trace) <= trace && clock <= now && !closed && Settled(State(), now)
      ensures Admitted(first, State(), r, capacity, now, cancelled, a)
      ensures a.Parked? ==>
              a.waiter == |old(phases)| == |old(asked)| && phases == old(phases) + [Waiting]
              && asked == old(asked) + [r]
      ensures old(leases) <= leases && OnlySent(old(leases), leases)
      ensures !a.Parked? ==> State() == old(State()) && AcquireRefused(State(), r, capacity, now, QueueFull)
      ensures a.Parked? || a == Rejected(QueueFull)
    {
      ghost var mid := State();
      if |queue| >= capacity {
        WorthwhileSwept(first, mid, r, now);
        return Rejected(QueueFull);
      }
      var w := Push(r, capacity);
      Dispatch(now, cancelled);
      a := Parked(w);
      assert Swept(first, mid, now) && Rested(Joined(mid, r), State(), now, cancelled);
    }

    method AcquireIdle(r: Request, now: int) returns (quick: Option<Answer>)
      requires Valid() && clock <= now && !closed && queue == []
      modifies this
      ensures Valid() && old(trace) <= trace && clock <= now && !closed
      ensures queue == [] && phases == old(phases) && asked == old(asked)
      ensures Wf(old(State())) && (quick.None? <==> Worthwhile(old(State()), r, now))
      ensures quick.None? ==> Swept(old(State()), State(), now)
      ensures quick.Some? ==> AnsweredAtOnce(old(State()), State(), r, now, quick.value)
      ensures HandedOver(old(leases), leases, r, quick)
      ensures quick.Some? && quick.value.Rejected? ==> AcquireRefused(State(), r, 0, now, quick.value.failure)
    {
      ghost var first := State();
      var lease, d;
      ghost var mid, at;
      lease, d, mid, at := TryAcquire(r, false, ToCaller, now);
      if lease.Some? {
        GrantedAtOnce(first, mid, at, r, now);
        return Some(Immediate(lease.value));
      }
      quick := Linger(first, r, now, d);
    }

    /** The caller was denied a key: it waits if that is worthwhile, and fails fast otherwise. */
    method Linger(ghost first: Pool, r: Request, now: int, d: Denial) returns (quick: Option<Answer>)
      requires Valid() && Wf(first) && Swept(first, State(), now) && queue == [] && Denied(first, r, now, false, d)
      ensures quick.None? <==> Worthwhile(first, r, now)
      ensures quick.Some? ==>
                && AnsweredAtOnce(first, State(), r, now, quick.value) && quick.value.Rejected?
                && AcquireRefused(State(), r, 0, now, quick.value.failure)
    {
      var untried, taken := false, false;
      if d.reason == Busy {
        untried := HasUnattemptedEligible(r, now);
        taken := HasBusyAttemptedEligible(r, now);
      }
      TurnedDown(first, State(), r, now, d, untried || taken);
      if d.reason != Busy {
        return Some(Rejected(Unavailable(d)));
      }
      if !untried && !taken {
        return Some(Rejected(Unavailable(Denial(Disabled, 0))));
      }
      return None;
    }

    method Push(r: Request, ghost capacity: int) returns (w: nat)
      requires Valid() && !closed && |queue| < capacity
      modifies this
      ensures Valid() && trace == old(trace) + [Enqueue(r, capacity)]
      ensures State() == Joined(old(State()), r)
      ensures w == |old(phases)| == |old(asked)|
    {
      ghost var before := State();
      AskedKnown(start, trace, before);
      w := |phases|;
      queue := queue + [Waiter(w, r)];
      phases := phases + [Waiting];
      asked := asked + [r];
      Log(before, Enqueue(r, capacity));
    }

    /** waitForResult when the channel is ready: the caller gets the outcome, a lease with it. */
    method Receive(w: nat) returns (out: Outcome)
      requires Valid() && w < |phases| && phases[w] == Waiting && w in results
      modifies this
      ensures Valid() && trace == old(trace) + [PoolModel.Deliver(w)]
              && State() == Next(old(State()), PoolModel.Deliver(w))
      ensures out == old(results)[w]
      ensures out.Granted? ==>
                && out.lease < |leases| && leases[out.lease].custody == WithCaller && !leases[out.lease].released
                && old(leases)[out.lease].custody == InChannel(w)
                && w < |asked| && KeepsPromise(asked[w], leases[out.lease].key)
                && leases[out.lease].client == asked[w].client
    {
      ghost var before := State();
      AnswerKnown(start, trace, before, w);
      out := Take(w, WithCaller);
      Log(before, PoolModel.Deliver(w));
    }

    method Take(w: nat, custody: Custody) returns (out: Outcome)
      requires w < |phases| && w in results
      requires results[w].Granted? ==> results[w].lease < |leases|
      modifies this`results, this`phases, this`leases
      ensures State() == Collect(old(State()), w, custody) && out == old(results)[w]
    {
      out := results[w];
      results := results - {w};
      phases := phases[w := Done];
      if out.Granted? {
        leases := leases[out.lease := leases[out.lease].(custody := custody)];
      }
    }

    /** The locked half of abandonWaiter, after a timeout or a cancellation: a queued waiter leaves;
        one that has already been answered must still read its channel. */
    method Abandon(w: nat, now: int, cancelled: set<nat>) returns (left: bool)
      requires Valid() && clock <= now && w < |phases| && phases[w] == Waiting
      modifies this
      ensures Valid() && old(trace) <= trace && clock <= now
      ensures left <==> Queued(old(State()), w)
      ensures |old(trace)| < |trace| && trace[|old(trace)|] == if left then Withdraw(w) else GiveUp(w)
      ensures left ==>
              && phases == old(phases)[w := Done] && asked == old(asked)
              && old(leases) <= leases && OnlySent(old(leases), leases)
      ensures left ==> Rested(Withdrawn(old(State()), w), State(), now, cancelled)
      ensures !left ==> State() == Next(old(State()), GiveUp(w)) && w in results
    {
      WaiterKnown(start, trace, State(), w);
      left := exists i :: 0 <= i < |queue| && queue[i].id == w;
      if left {
        Leave(w, now, cancelled);
      } else {
        ghost var before := State();
        phases := phases[w := Draining];
        Log(before, GiveUp(w));
      }
    }

    /** A waiter that is still queued leaves, and the queue is dispatched again. */
    method Leave(w: nat, now: int, cancelled: set<nat>)
      requires Valid() && clock <= now && w < |phases| && phases[w] == Waiting && Queued(State(), w)
      modifies this
      ensures Valid() && old(trace) + [Withdraw(w)] <= trace && clock <= now
      ensures phases == old(phases)[w := Done] && asked == old(asked)
      ensures old(leases) <= leases && OnlySent(old(leases), leases)
      ensures Rested(Withdrawn(old(State()), w), State(), now, cancelled)
    {
      ghost var before := State();
      queue := Remove(queue, w);
      phases := phases[w := Done];
      Log(before, Withdraw(w));
      Dispatch(now, cancelled);
    }

    /** The unlocked half: reads the channel. A lease found there is the abandoner's to release. */
    method Drain(w: nat) returns (out: Outcome)
      requires Valid() && w < |phases| && phases[w] == Draining
      modifies this
      ensures Valid() && old(trace) <= trace && clock == old(clock)
      ensures w in old(results) && out == old(results)[w] && phases == old(phases)[w := Done] && asked == old(asked)
      ensures out.Refused? ==> leases == old(leases)
      ensures out.Granted? ==>
                && out.lease < |old(leases)| && old(leases)[out.lease].custody == InChannel(w)
                && !old(leases)[out.lease].released && w < |asked| && old(leases)[out.lease].client == asked[w].client
                && leases == old(leases)[out.lease := old(leases)[out.lease].(custody := WithAbandoner)]
    {
      ghost var before := State();
      WaiterKnown(start, trace, before, w);
      AnswerKnown(start, trace, before, w);
      out := Take(w, WithAbandoner);
      Log(before, PoolModel.Drain(w));
    }

    /** abandonWaiter once the waiter has left the queue: a lease found in the channel is released. */
    method FinishAbandon(w: nat, now: int, cancelled: set<nat>)
      requires Valid() && clock <= now && w < |phases| && phases[w] == Draining
      modifies this
      ensures Valid() && old(trace) <= trace && clock <= now
      ensures phases == old(phases)[w := Done] && asked == old(asked) && w in old(results)
      ensures OnlySent(old(leases), leases)
      ensures forall l :: 0 <= l < |old(leases)| && old(leases)[l].custody != InChannel(w) ==>
              leases[l] == old(leases)[l]
      ensures forall l :: 0 <= l < |old(leases)| ==>
              && leases[l].key == old(leases)[l].key && leases[l].client == old(leases)[l].client
              && (old(leases)[l].released ==> leases[l].released)
      ensures old(results)[w].Granted? ==>
                old(results)[w].lease < |leases| && leases[old(results)[w].lease].released
    {
      var out := Drain(w);
      if out.Granted? {
        Release(out.lease, now, cancelled);
      }
    }

    /** lease.Release: the first call frees the slot and dispatches, later ones do nothing. */
    method Release(l: nat, now: int, cancelled: set<nat>)
      requires Valid() && clock <= now && l < |leases| && !leases[l].custody.InChannel?
      modifies this
      ensures Valid() && old(trace) <= trace && clock <= now
      ensures l < |leases| && leases[l].released && phases == old(phases) && asked == old(asked)
      ensures old(leases)[l := old(leases)[l].(released := true)] <= leases && OnlySent(old(leases), leases)
      ensures old(leases[l].released) ==> State() == old(State())
      ensures old(leases)[l].obj < |old(objs)|
      ensures !old(leases[l].released) ==> Rested(Returned(old(State()), l), State(), now, cancelled)
      ensures !old(leases[l].released) && !closed ==> Settled(State(), now)
    {
      LeaseKnown(start, trace, State(), l);
      if leases[l].released {
        return;
      }
      FreeSlot(l);
      Dispatch(now, cancelled);
    }

    method FreeSlot(l: nat)
      requires Valid() && l < |leases| && !leases[l].released && !leases[l].custody.InChannel?
      modifies this
      ensures Valid() && trace == old(trace) + [PoolModel.Release(l)]
      ensures old(leases)[l].obj < |old(objs)| && State() == Returned(old(State()), l)
      ensures leases == old(leases)[l := old(leases)[l].(released := true)] && clock == old(clock)
      ensures phases == old(phases) && asked == old(asked) && closed == old(closed)
    {
      ghost var before := State();
      LeaseKnown(start, trace, before, l);
      var lease := leases[l];
      leases := leases[l := lease.(released := true)];
      objs := objs[lease.obj := Vacate(objs[lease.obj], lease.stream)];
      Log(before, PoolModel.Release(l));
    }

    /** Refuses every waiter and all later acquires. */
    method Shutdown(now: int)
      requires Valid() && clock <= now
      modifies this
      ensures Valid() && old(trace) <= trace && clock <= now
      ensures closed && (old(closed) ==> State() == old(State()))
      ensures !old(closed) ==> queue == [] && leases == old(leases) && objs == old(objs) && phases == old(phases)
      ensures asked == old(asked)
      ensures !old(closed) ==> forall i :: 0 <= i < |old(queue)| ==>
                old(queue)[i].id in results && results[old(queue)[i].id] == Refused(ShuttingDown)
    {
      if closed {
        return;
      }
      ghost var before := State();
      closed := true;
      Log(before, Close);
      ghost var n := 0;
      QueueDistinct(start, trace, State());
      while |queue| > 0
        invariant Valid() && old(trace) <= trace && closed && clock <= now
        invariant n <= |before.queue| && queue == before.queue[n..]
        invariant leases == before.leases && objs == before.objs && phases == before.phases && asked == before.asked
        invariant forall i :: 0 <= i < n ==>
                before.queue[i].id in results && results[before.queue[i].id] == Refused(ShuttingDown)
      {
        assert queue[0] == before.queue[n];
        RefuseHead(ShuttingDown, false, now);
        n := n + 1;
      }
    }

    // -------------------------------------------------------------- configuration and fault handling

    /** One key object gets new configuration, then waiters are dispatched. */
    method Edited(o: nat, k: Key, now: int, cancelled: set<nat>) returns (ghost mid: Pool)
      requires Valid() && clock <= now && Fires(State(), Edit(o, k))
      modifies this
      ensures Valid() && old(trace) + [Edit(o, k)] <= trace && clock <= now
      ensures mid == old(State()).(objs := old(objs)[o := k])
      ensures Rested(mid, State(), now, cancelled)
    {
      ghost var before := State();
      objs := objs[o := k];
      Log(before, Edit(o, k));
      mid := State();
      Dispatch(now, cancelled);
    }

    method SetModelEnabled(model: int, enabled: bool, now: int, cancelled: set<nat>)
      requires Valid() && clock <= now
      modifies this
      ensures Valid() && old(trace) <= trace && clock <= now
      ensures Rested(old(State()).(models := old(models)[model := enabled]), State(), now, cancelled)
    {
      ghost var before := State();
      models := models[model := enabled];
      Log(before, SetModel(model, enabled));
      Dispatch(now, cancelled);
    }

    method SetKeyEnabled(id: int, enabled: bool, now: int, cancelled: set<nat>) returns (ghost mid: Pool)
      requires Valid() && clock <= now
      modifies this
      ensures Valid() && old(trace) <= trace && clock <= now && Rested(mid, State(), now, cancelled)
      ensures mid == Reconfigured(old(State()), id, (k: Key) => k.(enabled := enabled))
    {
      mid := State();
      KeyKnown(start, trace, mid, id);
      if id !in keys {
        Dispatch(now, cancelled);
      } else {
        mid := Edited(keys[id], objs[keys[id]].(enabled := enabled), now, cancelled);
      }
    }

    method ApplySuccess(id: int, now: int, cancelled: set<nat>) returns (ghost mid: Pool)
      requires Valid() && clock <= now
      modifies this
      ensures Valid() && old(trace) <= trace && clock <= now && Rested(mid, State(), now, cancelled)
      ensures mid == Reconfigured(old(State()), id, (k: Key) => k.(authInvalid := false, cooldownUntil := None))
      ensures id in old(keys) ==>
                && old(keys)[id] < |old(objs)| && |old(trace)| < |trace|
                && trace[|old(trace)|] == Edit(old(keys)[id],
                  old(objs)[old(keys)[id]].(authInvalid := false, cooldownUntil := None))
    {
      mid := State();
      KeyKnown(start, trace, mid, id);
      if id !in keys {
        Dispatch(now, cancelled);
      } else {
        mid := Edited(keys[id], objs[keys[id]].(authInvalid := false, cooldownUntil := None), now, cancelled);
      }
    }

    /** Takes over the fields owned by the failure path and no others. */
    method ApplyFailure(id: int, model: int, blockModel: bool, authInvalid: bool, cooldownUntil: Option<int>, now: int,
                        cancelled: set<nat>)
      returns (ghost mid: Pool)
      requires Valid() && clock <= now
      modifies this
      ensures Valid() && old(trace) <= trace && clock <= now && Rested(mid, State(), now, cancelled)
      ensures mid == Reconfigured(old(State()), id, (k: Key) =>
                k.(authInvalid := authInvalid, cooldownUntil := cooldownUntil, blocks := if blockModel
                  then k.blocks + {model} else k.blocks))
      ensures id in old(keys) ==>
                && old(keys)[id] < |old(objs)| && |old(trace)| < |trace|
                && var k := old(objs)[old(keys)[id]];
                   trace[|old(trace)|] == Edit(old(keys)[id], k.(authInvalid := authInvalid,
                     cooldownUntil := cooldownUntil, blocks := if blockModel then k.blocks + {model} else k.blocks))
    {
      mid := State();
      KeyKnown(start, trace, mid, id);
      if id !in keys {
        Dispatch(now, cancelled);
      } else {
        var k := objs[keys[id]].(authInvalid := authInvalid, cooldownUntil := cooldownUntil);
        if blockModel {
          k := k.(blocks := k.blocks + {model});
        }
        mid := Edited(keys[id], k, now, cancelled);
      }
    }

    method SetModelBlock(id: int, model: int, blocked: bool, now: int, cancelled: set<nat>) returns (ghost mid: Pool)
      requires Valid() && clock <= now
      modifies this
      ensures Valid() && old(trace) <= trace && clock <= now && Rested(mid, State(), now, cancelled)
      ensures mid == Reconfigured(old(State()), id, (k: Key) =>
                k.(blocks := if blocked then k.blocks + {model} else k.blocks - {model}))
    {
      mid := State();
      KeyKnown(start, trace, mid, id);
      if id !in keys {
        Dispatch(now, cancelled);
      } else {
        var k := objs[keys[id]];
        mid := Edited(keys[id], k.(blocks := if blocked then k.blocks + {model} else k.blocks - {model}), now,
          cancelled);
      }
    }

    /** A known id keeps its object and its work; a new one gets an idle object and its place in the
        order, and the cursor keeps pointing at the key it pointed at. */
    method UpsertKey(key: Key, now: int, cancelled: set<nat>) returns (ghost mid: Pool)
      requires Valid() && clock <= now && Idle(key) && key.blocks == {}
      modifies this
      ensures Valid() && old(trace) <= trace && clock <= now && Rested(mid, State(), now, cancelled)
      ensures key.id in old(keys) ==>
                mid == Reconfigured(old(State()), key.id, (k: Key) =>
                  k.(enabled := key.enabled, authInvalid := key.authInvalid, cooldownUntil := key.cooldownUntil))
      ensures key.id !in old(keys) ==>
                && mid == Added(old(State()), key)
                && Without(Rotation(mid.order, mid.cursor), key.id) == Rotation(old(order), old(cursor))
    {
      mid := State();
      KeyKnown(start, trace, mid, key.id);
      if key.id in keys {
        var k := objs[keys[key.id]].(enabled := key.enabled, authInvalid := key.authInvalid,
          cooldownUntil := key.cooldownUntil);
        mid := Edited(keys[key.id], k, now, cancelled);
      } else {
        mid := AddNewKey(key, now, cancelled);
      }
    }

    method AddNewKey(key: Key, now: int, cancelled: set<nat>) returns (ghost mid: Pool)
      requires Valid() && clock <= now && Idle(key) && key.id !in keys
      modifies this
      ensures Valid() && old(trace) <= trace && clock <= now && Rested(mid, State(), now, cancelled)
      ensures mid == Added(old(State()), key)
      ensures Without(Rotation(mid.order, mid.cursor), key.id) == Rotation(old(order), old(cursor))
    {
      ghost var before := State();
      KeyKnown(start, trace, before, key.id);
      OrderKnown(start, trace, before);
      InsertRotation(order, cursor, key.id);
      InsertKey(key);
      Log(before, AddKey(key));
      mid := State();
      Dispatch(now, cancelled);
    }

    method InsertKey(key: Key)
      requires Ascending(order) && CursorInRange(order, cursor) && key.id !in order
      modifies this`keys, this`objs, this`order, this`cursor
      ensures State() == Added(old(State()), key)
    {
      keys := keys[key.id := |objs|];
      objs := objs + [key];
      order, cursor := InsertIntoOrder(order, cursor, key.id);
    }

    /** Forgets the key; leases cut from its object stay valid and release that object. */
    method RemoveKey(id: int, now: int, cancelled: set<nat>) returns (ghost mid: Pool)
      requires Valid() && clock <= now
      modifies this
      ensures Valid() && old(trace) <= trace && clock <= now && Rested(mid, State(), now, cancelled)
      ensures id !in old(keys) ==> mid == old(State())
      ensures id in old(keys) ==>
                && id in old(order) && mid == Dropped(old(State()), id)
                && Rotation(mid.order, mid.cursor) == Without(Rotation(old(order), old(cursor)), id)
    {
      mid := State();
      if id !in keys {
        Dispatch(now, cancelled);
        return;
      }
      ghost var before := State();
      OrderKnown(start, trace, before);
      DeleteKey(id);
      Log(before, DropKey(id));
      mid := State();
      DroppedRotation(before, id);
      Dispatch(now, cancelled);
    }

    method DeleteKey(id: int)
      requires id in order
      modifies this`keys, this`order, this`cursor
      ensures State() == Dropped(old(State()), id)
    {
      var at := Find(order, id);
      keys := keys - {id};
      order := order[..at] + order[at + 1..];
      if at < cursor {
        cursor := cursor - 1;
      }
      if cursor >= |order| {
        cursor := 0;
      }
    }

    method Install(loaded: seq<Key>)
      requires Distinct(Ids(loaded))
      modifies this`keys, this`objs, this`order, this`cursor
      ensures State() == Loaded(old(State()), loaded)
    {
      keys := BuildTable(loaded, |objs|);
      objs := objs + loaded;
      order := SortIds(Ids(loaded));
      cursor := 0;
    }

    /** Replaces all keys by new objects; outstanding leases keep the old ones. */
    method LoadSnapshot(snaps: seq<Key>, blocks: seq<(int, int)>, now: int, cancelled: set<nat>)
      returns (ghost mid: Pool)
      requires Valid() && clock <= now && Distinct(Ids(snaps))
      requires forall i :: 0 <= i < |snaps| ==> Idle(snaps[i])
      modifies this
      ensures Valid() && old(trace) <= trace && clock <= now && Rested(mid, State(), now, cancelled)
      ensures mid == Loaded(old(State()), AllBlocked(snaps, blocks))
    {
      ghost var before := State();
      var loaded := AddBlocks(snaps, blocks);
      assert Ids(loaded) == Ids(snaps);
      assert forall i :: 0 <= i < |loaded| ==> Idle(loaded[i]);
      Install(loaded);
      Log(before, Load(loaded));
      mid := State();
      Dispatch(now, cancelled);
    }
  }

  ghost predicate SomeUntried(p: Pool, r: Request, now: int)
    requires Wf(p)
  {
    exists i :: 0 <= i < |p.order| && Untried(p.objs[ObjAt(p, i)], r, now)
  }

  ghost predicate SomeTriedAndTaken(p: Pool, r: Request, now: int)
    requires Wf(p)
  {
    exists i :: 0 <= i < |p.order| && TriedAndTaken(p.objs[ObjAt(p, i)], r, now)
  }

  /** The only key of the pool is leased, and a lone waiter has tried it and may be given it again. */
  ghost predicate WaitsForOnlyKey(p: Pool, l: nat, now: int)
    requires Wf(p)
  {
    && |p.order| == 1 && |p.queue| == 1 && !p.closed && !p.queue[0].req.noRelax && !ModelOff(p, p.queue[0].req.model)
    && p.order[0] in p.queue[0].req.attempted
    && l < |p.leases| && !p.leases[l].released && !p.leases[l].custody.InChannel?
    && p.leases[l].obj == ObjAt(p, 0)
    && var k := Vacate(p.objs[ObjAt(p, 0)], p.leases[l].stream);
       Classify(k, p.queue[0].req, now, true) == Open
  }

  lemma OnlyKeyOwed(p: Pool, l: nat, now: int)
    requires Wf(p) && WaitsForOnlyKey(p, l, now) && p.leases[l].obj < |p.objs|
    ensures var q := Returned(p, l);
            && Wf(q) && Denied(q, p.queue[0].req, now, false, Denial(Busy, 0))
            && Servable(q, p.queue[0].req, now, true)
  {
    var q, r := Returned(p, l), p.queue[0].req;
    SameTablesWf(p, q);
    assert Classes(q, r, now, false) == [Tried] && Classes(q, r, now, true) == [Open];
    assert Classes(q, r, now, true)[0] == Open;
    assert Classes(q, r, now, false)[0] == Tried;
  }

  lemma OnlyKeyServed(p: Pool, l: nat, q: Pool, now: int, cancelled: set<nat>)
    requires Wf(p) && WaitsForOnlyKey(p, l, now) && p.clock <= now && p.queue[0].id !in cancelled
    requires p.leases[l].obj < |p.objs| && Passes(Returned(p, l), q, now, cancelled)
    ensures q.queue == [] && p.queue[0].id in q.results && q.results[p.queue[0].id] == Granted(|p.leases|)
    ensures |p.leases| < |q.leases| && q.leases[|p.leases|].key == p.order[0]
  {
    OnlyKeyOwed(p, l, now);
    LoneWaiterServed(Returned(p, l), q, now, cancelled);
  }

  /** Releasing the only key hands it to the waiter that has tried it and waits for it. */
  method OnlyKeyComesBack(d: Scheduler, l: nat, now: int, cancelled: set<nat>)
    requires d.Valid() && d.clock <= now && WaitsForOnlyKey(d.State(), l, now) && d.queue[0].id !in cancelled
    modifies d
    ensures d.Valid() && d.queue == []
    ensures var w, lease := old(d.queue)[0], |old(d.leases)|;
            && w.id in d.results && d.results[w.id] == Granted(lease)
            && lease < |d.leases| && d.leases[lease].key == old(d.order)[0] && !d.leases[lease].released
            && d.leases[lease].custody == InChannel(w.id)
  {
    ghost var p := d.State();
    LeaseKnown(d.start, d.trace, p, l);
    d.Release(l, now, cancelled);
    OnlyKeyServed(p, l, d.State(), now, cancelled);
    AnswerKnown(d.start, d.trace, d.State(), p.queue[0].id);
  }

  /** No key can be had at once, but one that was not tried or is in use may become free: worth waiting for. */
  ghost predicate Worthwhile(p: Pool, r: Request, now: int)
    requires Wf(p)
  {
    Denied(p, r, now, false, Denial(Busy, 0)) && (SomeUntried(p, r, now) || SomeTriedAndTaken(p, r, now))
  }

  /** What an empty queue's caller is told when there is no key for it and waiting is pointless. */
  ghost predicate Hopeless(p: Pool, r: Request, now: int, d: Denial)
    requires Wf(p)
  {
    exists e :: Denied(p, r, now, false, e) && d == if e.reason == Busy then Denial(Disabled, 0) else e
  }

  /** The refusals of acquire: a full queue, or an empty one in which waiting is pointless. */
  ghost predicate AcquireRefused(p: Pool, r: Request, capacity: int, now: int, failure: Failure)
    requires Wf(p)
  {
    match failure
    case QueueFull => |p.queue| >= capacity && (p.queue == [] ==> Worthwhile(p, r, now))
    case Unavailable(d) => p.queue == [] && !Worthwhile(p, r, now) && Hopeless(p, r, now, d)
    case _ => false
  }

  /** The caller got a key that was open for it. */
  ghost predicate CallerGranted(p: Pool, q: Pool, r: Request, now: int) {
    exists mid: Pool, at: nat {:trigger CanGrant(mid, at, r, false, ToCaller, now)} ::
      && Swept(p, mid, now) && Wf(mid)
      && CanGrant(mid, at, r, false, ToCaller, now) && q == GrantTo(mid, at, r, ToCaller, now)
  }

  /** The answer to a caller that does not join the queue `p.queue == []`. */
  ghost predicate AnsweredAtOnce(p: Pool, q: Pool, r: Request, now: int, a: Answer)
    requires Wf(p)
  {
    if Servable(p, r, now, false) then a == Immediate(|p.leases|) && CallerGranted(p, q, r, now)
    else a.Rejected? && a.failure.Unavailable? && Hopeless(p, r, now, a.failure.denial) && Swept(p, q, now)
  }

  /** What acquire does once the waiters have been dispatched, in the state `p`: with nobody waiting it answers at
      once unless waiting is worthwhile; otherwise the caller joins the queue, if and only if that has room, and the
      waiters are dispatched again. */
  ghost predicate Admitted(p: Pool, q: Pool, r: Request, capacity: int, now: int, cancelled: set<nat>, a: Answer)
    requires Wf(p)
  {
    if p.queue == [] && !Worthwhile(p, r, now) then AnsweredAtOnce(p, q, r, now, a)
    else if |p.queue| >= capacity then a == Rejected(QueueFull) && Swept(p, q, now)
    else
      && a == Parked(|p.phases|)
      && exists mid: Pool {:trigger Joined(mid, r)} ::
           Swept(p, mid, now) && Rested(Joined(mid, r), q, now, cancelled)
  }

  predicate UnsealAnswer(u: int) { true }

  /** The whole of acquire: the waiters are dispatched first. Sealed, like the runs. */
  ghost predicate Acquired(p: Pool, q: Pool, r: Request, capacity: int, now: int, cancelled: set<nat>, a: Answer) {
    forall u {:trigger UnsealAnswer(u)} :: UnsealAnswer(u) ==>
      exists first: Pool {:trigger Rested(p, first, now, cancelled)} ::
        Rested(p, first, now, cancelled) && Admitted(first, q, r, capacity, now, cancelled, a)
  }

  lemma SealAcquired(p: Pool, first: Pool, q: Pool, r: Request, capacity: int, now: int, cancelled: set<nat>,
                     a: Answer)
    requires Rested(p, first, now, cancelled) && Admitted(first, q, r, capacity, now, cancelled, a)
    ensures Acquired(p, q, r, capacity, now, cancelled, a)
  {}

  lemma OpenAcquired(p: Pool, q: Pool, r: Request, capacity: int, now: int, cancelled: set<nat>, a: Answer)
    returns (first: Pool)
    requires Acquired(p, q, r, capacity, now, cancelled, a)
    ensures Rested(p, first, now, cancelled) && Admitted(first, q, r, capacity, now, cancelled, a)
  {
    assert UnsealAnswer(0);
    first :| Rested(p, first, now, cancelled) && Admitted(first, q, r, capacity, now, cancelled, a);
  }

  /** A caller is parked only in a queue with room, and a full queue with waiters in it refuses it. */
  lemma QueueDecides(p: Pool, q: Pool, r: Request, capacity: int, now: int, cancelled: set<nat>, a: Answer)
    returns (first: Pool)
    requires Acquired(p, q, r, capacity, now, cancelled, a) && !p.closed
    ensures Dispatched(p, first, now, cancelled)
    ensures a.Parked? ==> |first.queue| < capacity
    ensures first.queue != [] ==> (a == Rejected(QueueFull) <==> |first.queue| >= capacity)
  {
    first := OpenAcquired(p, q, r, capacity, now, cancelled, a);
  }

  lemma SomeSwept(p: Pool, q: Pool, r: Request, now: int)
    requires Wf(p) && Wf(q) && Swept(p, q, now)
    ensures SomeUntried(p, r, now) <==> SomeUntried(q, r, now)
    ensures SomeTriedAndTaken(p, r, now) <==> SomeTriedAndTaken(q, r, now)
  {
    forall i | 0 <= i < |p.order|
      ensures Untried(q.objs[ObjAt(q, i)], r, now) <==> Untried(p.objs[ObjAt(p, i)], r, now)
      ensures TriedAndTaken(q.objs[ObjAt(q, i)], r, now) <==> TriedAndTaken(p.objs[ObjAt(p, i)], r, now)
    {
      PrunedClass(p.objs[ObjAt(p, i)], q.objs[ObjAt(q, i)], r, now, false);
    }
  }

  /** Sweeping does not change whether waiting is worthwhile, nor what a caller is told. */
  lemma WorthwhileSwept(p: Pool, q: Pool, r: Request, now: int)
    requires Wf(p) && Swept(p, q, now)
    ensures Wf(q) && (Worthwhile(p, r, now) <==> Worthwhile(q, r, now))
    ensures forall d :: Hopeless(p, r, now, d) <==> Hopeless(q, r, now, d)
  {
    SweptClasses(p, q, r, now, false);
    SomeSwept(p, q, r, now);
    forall d ensures Hopeless(p, r, now, d) <==> Hopeless(q, r, now, d) {
      assert forall e :: Denied(q, r, now, false, e) <==> Denied(p, r, now, false, e);
    }
  }

  /** After the change `p` the waiters were dispatched, unless the pool is closed. */
  ghost predicate Rested(p: Pool, q: Pool, now: int, cancelled: set<nat>) {
    && Wf(q)
    && if p.closed then q == p
       else Dispatched(p, q, now, cancelled) && Settled(q, now) && Passes(p, q, now, cancelled)
  }

  /** The pool with one known key changed by `change`. */
  ghost function Reconfigured(p: Pool, id: int, change: Key -> Key): Pool {
    if id in p.keys && p.keys[id] < |p.objs| then
      p.(objs := p.objs[p.keys[id] := change(p.objs[p.keys[id]])])
    else p
  }

  lemma KeyKnown(start: int, es: seq<Event>, p: Pool, id: int)
    requires Ran(start, es, p)
    ensures id in p.keys ==> p.keys[id] < |p.objs| && p.objs[p.keys[id]].id == id
  {
    OpenRun(start, es, p);
  }

  lemma OrderKnown(start: int, es: seq<Event>, p: Pool)
    requires Ran(start, es, p)
    ensures Ascending(p.order) && CursorInRange(p.order, p.cursor) && forall id :: id in p.order <==> id in p.keys
  {
    OpenRun(start, es, p);
  }

  lemma DroppedRotation(p: Pool, id: int)
    requires Ascending(p.order) && CursorInRange(p.order, p.cursor) && id in p.order
    ensures var q := Dropped(p, id); Rotation(q.order, q.cursor) == Without(Rotation(p.order, p.cursor), id)
  {
    DropRotation(p.order, p.cursor, IndexOf(p.order, id));
  }

  lemma LeaseKnown(start: int, es: seq<Event>, p: Pool, l: nat)
    requires Ran(start, es, p) && l < |p.leases|
    ensures p.leases[l].obj < |p.objs|
  {
    OpenRun(start, es, p);
  }

  lemma AskedKnown(start: int, es: seq<Event>, p: Pool)
    requires Ran(start, es, p)
    ensures |p.asked| == |p.phases|
  {
    OpenRun(start, es, p);
  }

  lemma AnswerKnown(start: int, es: seq<Event>, p: Pool, w: nat)
    requires Ran(start, es, p) && w in p.results
    ensures w < |p.phases| && |p.asked| == |p.phases|
    ensures p.results[w].Granted? ==>
              && p.results[w].lease < |p.leases| && !p.leases[p.results[w].lease].released
              && p.leases[p.results[w].lease].custody == InChannel(w)
              && KeepsPromise(p.asked[w], p.leases[p.results[w].lease].key)
              && p.leases[p.results[w].lease].client == p.asked[w].client
  {
    OpenRun(start, es, p);
  }

  /** A lease in a channel belongs to the client whose waiter reads that channel, and that waiter is not done. */
  lemma OwnerKnown(start: int, es: seq<Event>, p: Pool, l: nat)
    requires Ran(start, es, p) && l < |p.leases| && p.leases[l].custody.InChannel?
    ensures var w := p.leases[l].custody.waiter;
            && w < |p.phases| == |p.asked| && p.phases[w] != Done && p.leases[l].client == p.asked[w].client
            && w in p.results && p.results[w] == Granted(l)
  {
    OpenRun(start, es, p);
  }

  lemma WaiterKnown(start: int, es: seq<Event>, p: Pool, w: nat)
    requires Ran(start, es, p) && w < |p.phases| && p.phases[w] != Done
    ensures !Queued(p, w) || p.phases[w] == Draining ==> w in p.results
  {
    OpenRun(start, es, p);
  }

  lemma UntriedGranted(p: Pool, offset: nat, r: Request, now: int)
    requires Wf(p) && CanGrant(p, offset, r, false, ToCaller, now)
    ensures var q := GrantTo(p, offset, r, ToCaller, now);
            && |q.leases| == |p.leases| + 1 && !q.leases[|p.leases|].released
            && q.leases[|p.leases|].custody == WithCaller && q.leases[|p.leases|].key !in r.attempted
            && q.leases[|p.leases|].client == r.client
  {
    OpenMeans(p.objs[ObjAt(p, Pos(p, offset))], r, now, false);
  }

  /** insertSorted followed by the search for the key the cursor pointed at. */
  method InsertIntoOrder(ids: seq<int>, cursor: nat, id: int) returns (grown: seq<int>, next: nat)
    requires Ascending(ids) && CursorInRange(ids, cursor)
    ensures grown == Insert(ids, id) && next == CursorAfterInsert(ids, cursor, id)
  {
    grown := InsertSorted(ids, id);
    next := 0;
    if ids != [] {
      InsertMembers(ids, id);
      next := Find(grown, ids[cursor]);
    }
  }

  method Find(ids: seq<int>, id: int) returns (at: nat)
    requires id in ids
    ensures at == IndexOf(ids, id)
  {
    ghost var first := IndexOf(ids, id);
    at := 0;
    while ids[at] != id
      invariant at <= first
      decreases first - at
    {
      at := at + 1;
    }
    assert id !in ids[..first];
  }

  function WithBlocks(k: Key, blocks: seq<(int, int)>): Key {
    k.(blocks := k.blocks + set b | b in blocks && b.0 == k.id :: b.1)
  }

  function AllBlocked(ks: seq<Key>, blocks: seq<(int, int)>): (r: seq<Key>)
    ensures |r| == |ks| && forall i :: 0 <= i < |ks| ==> r[i] == WithBlocks(ks[i], blocks)
  {
    seq(|ks|, i requires 0 <= i < |ks| => WithBlocks(ks[i], blocks))
  }

  method AddBlocks(ks: seq<Key>, blocks: seq<(int, int)>) returns (r: seq<Key>)
    requires Distinct(Ids(ks))
    ensures r == AllBlocked(ks, blocks)
  {
    r := ks;
    assert forall i :: 0 <= i < |ks| ==> WithBlocks(ks[i], blocks[..0]).blocks == ks[i].blocks;
    assert AllBlocked(ks, blocks[..0]) == ks;
    for n := 0 to |blocks|
      invariant r == AllBlocked(ks, blocks[..n])
    {
      var b := blocks[n];
      assert blocks[..n + 1] == blocks[..n] + [b];
      for i := 0 to |ks|
        invariant |r| == |ks|
        invariant forall j :: 0 <= j < i ==> r[j] == WithBlocks(ks[j], blocks[..n + 1])
        invariant forall j :: i <= j < |ks| ==> r[j] == WithBlocks(ks[j], blocks[..n])
      {
        if ks[i].id == b.0 {
          r := r[i := r[i].(blocks := r[i].blocks + {b.1})];
        }
        assert r[i].blocks == WithBlocks(ks[i], blocks[..n + 1]).blocks;
      }
    }
    assert blocks[..|blocks|] == blocks;
  }

  method BuildTable(ks: seq<Key>, base: nat) returns (t: map<int, nat>)
    ensures t == Table(ks, base)
  {
    t := map[];
    for n := 0 to |ks|
      invariant t == Table(ks[..n], base)
    {
      assert ks[..n + 1][..n] == ks[..n];
      t := t[ks[n].id := base + n];
    }
    assert ks[..|ks|] == ks;
  }

  method SortIds(ids: seq<int>) returns (sorted: seq<int>)
    requires Distinct(ids)
    ensures sorted == Sort(ids)
  {
    sorted := [];
    for n := 0 to |ids|
      invariant sorted == Sort(ids[..n])
    {
      assert ids[..n + 1][..n] == ids[..n];
      assert Distinct(ids[..n]);
      SortAscending(ids[..n]);
      sorted := InsertSorted(sorted, ids[n]);
    }
    assert ids[..|ids|] == ids;
  }

  /** The key is no obstacle by itself and has not been tried; it may be busy or at its rate limit. */
  predicate Untried(k: Key, r: Request, now: int) {
    var c := Classify(k, r, now, false);
    c.Limited? || c.Taken? || c.Open?
  }

  /** The key has been tried, is no obstacle otherwise, and has no free slot. */
  predicate TriedAndTaken(k: Key, r: Request, now: int) {
    Classify(k, r, now, false).Tried? && Full(k, r)
  }

  lemma QueueDistinct(start: int, es: seq<Event>, p: Pool)
    requires Ran(start, es, p)
    ensures DistinctWaiters(p.queue)
  {
    OpenRun(start, es, p);
  }

  lemma HeadUnanswered(start: int, es: seq<Event>, p: Pool)
    requires Ran(start, es, p) && p.queue != []
    ensures p.queue[0].id !in p.results
  {
    OpenRun(start, es, p);
  }

  /** Two refusals owed to one request are the same, so one that is not Busy rules out waiting. */
  lemma RefusalKnown(p: Pool, r: Request, now: int, d: Denial)
    requires Wf(p) && Denied(p, r, now, false, d)
    ensures !Servable(p, r, now, false) && (Worthwhile(p, r, now) ==> d == Denial(Busy, 0))
    ensures Hopeless(p, r, now, if d.reason == Busy then Denial(Disabled, 0) else d)
  {
    if Worthwhile(p, r, now) && !ModelOff(p, r.model) {
      RefusalUnique(Classes(p, r, now, false), d, Denial(Busy, 0));
    }
  }

  /** No lease is cut but the one that is the answer, and that one is the caller's, for a key it has not tried. */
  ghost predicate HandedOver(before: seq<Lease>, after: seq<Lease>, r: Request, quick: Option<Answer>) {
    if quick.Some? && quick.value.Immediate? then
      && quick.value.lease == |before| && |after| == |before| + 1 && before <= after
      && var lease := after[|before|];
         !lease.released && lease.custody == WithCaller && lease.key !in r.attempted && lease.client == r.client
    else after == before
  }

  lemma GrantedAtOnce(p: Pool, mid: Pool, at: nat, r: Request, now: int)
    requires Wf(p) && Servable(p, r, now, false)
    requires Swept(p, mid, now) && Wf(mid) && CanGrant(mid, at, r, false, ToCaller, now)
    ensures !Worthwhile(p, r, now)
    ensures var q := GrantTo(mid, at, r, ToCaller, now);
            && AnsweredAtOnce(p, q, r, now, Immediate(|p.leases|))
            && q.queue == mid.queue && q.phases == mid.phases && q.asked == mid.asked
            && HandedOver(p.leases, q.leases, r, Some(Immediate(|p.leases|)))
  {
    UntriedGranted(mid, at, r, now);
  }

  /** What a denial comes to, if `more` says whether some key is untried or in use. */
  lemma TurnedDown(p: Pool, q: Pool, r: Request, now: int, d: Denial, more: bool)
    requires Wf(p) && Wf(q) && Swept(p, q, now) && p.queue == [] && Denied(p, r, now, false, d)
    requires d.reason == Busy ==> (more <==> SomeUntried(q, r, now) || SomeTriedAndTaken(q, r, now))
    ensures d.reason == Busy && more <==> Worthwhile(p, r, now)
    ensures var failure := Unavailable(if d.reason == Busy then Denial(Disabled, 0) else d);
            !Worthwhile(p, r, now) ==>
              AnsweredAtOnce(p, q, r, now, Rejected(failure)) && AcquireRefused(q, r, 0, now, failure)
  {
    RefusalKnown(p, r, now, d);
    WorthwhileSwept(p, q, r, now);
    SweptClasses(p, q, r, now, false);
    if d.reason == Busy {
      BusyIsBare(p, r, now, false, d);
    }
  }

  lemma BusyIsBare(p: Pool, r: Request, now: int, relaxed: bool, d: Denial)
    requires Wf(p) && Denied(p, r, now, relaxed, d) && d.reason == Busy
    ensures d == Denial(Busy, 0) && !Servable(p, r, now, relaxed) && Hopeful(p, r, now)
  {
    var cs := Classes(p, r, now, relaxed);
    var j :| 0 <= j < |cs| && !cs[j].Off? && !cs[j].Blocked? && !cs[j].Cooling?;
    assert ReadyKey(p.objs[ObjAt(p, Pos(p, j))], r.model, now);
  }

  lemma PrunedConfined(p: Pool, q: Pool, now: int)
    requires Wf(p) && q == p.(objs := q.objs, clock := q.clock) && p.clock <= q.clock <= now
    requires AllPruned(p.objs, q.objs, now)
    ensures Confined(p, q, now)
  {
    SweepShrunk(p, q.objs, now);
  }

  lemma GrantConfined(p: Pool, offset: nat, r: Request, relaxed: bool, target: Target, now: int)
    requires Wf(p) && p.clock <= now && CanGrant(p, offset, r, relaxed, target, now) && target.ToHead?
    ensures Confined(p, GrantTo(p, offset, r, target, now), now)
  {
    GrantShrunk(p, Grant(offset, r, relaxed, target, now));
  }

  lemma ProgressDone(p: Pool, q: Pool, n: nat, now: int, cancelled: set<nat>)
    requires Wf(q) && Progress(p, q, n, now, cancelled) && (n == |p.queue| || q.queue == [])
    ensures n == |p.queue| && Dispatched(p, q, now, cancelled) && Settled(q, now)
  {
    assert p.queue[..n] == p.queue && p.queue[n..] == [];
    assert q.queue == Survivors(p.queue, q.results);
  }

  predicate UnsealPass(u: int) { true }

  /** The strict pass has handled the first `n` waiters. Sealed, like the runs. */
  ghost predicate Underway(p: Pool, q: Pool, n: nat, now: int, cancelled: set<nat>) {
    forall u {:trigger UnsealPass(u)} :: UnsealPass(u) ==>
      Wf(q) && DistinctWaiters(p.queue) && Progress(p, q, n, now, cancelled) && Passing(p, q, n, now, cancelled)
  }

  lemma OpenUnderway(p: Pool, q: Pool, n: nat, now: int, cancelled: set<nat>)
    requires Underway(p, q, n, now, cancelled)
    ensures Wf(q) && DistinctWaiters(p.queue) && Progress(p, q, n, now, cancelled)
    ensures Passing(p, q, n, now, cancelled)
  {
    assert UnsealPass(0);
  }

  lemma SealUnderway(p: Pool, q: Pool, n: nat, now: int, cancelled: set<nat>)
    requires Wf(q) && DistinctWaiters(p.queue) && Progress(p, q, n, now, cancelled)
    requires Passing(p, q, n, now, cancelled)
    ensures Underway(p, q, n, now, cancelled)
  {}

  lemma StartUnderway(p: Pool, now: int, cancelled: set<nat>)
    requires Wf(p) && p.clock <= now && DistinctWaiters(p.queue)
    ensures Underway(p, p, 0, now, cancelled)
  {
    ProgressStart(p, now, cancelled);
    NoTurns(p, now, cancelled);
    SealUnderway(p, p, 0, now, cancelled);
  }

  lemma UnderwayDone(p: Pool, q: Pool, n: nat, now: int, cancelled: set<nat>)
    requires Wf(q) && Underway(p, q, n, now, cancelled) && (n == |p.queue| || q.queue == [])
    ensures Dispatched(p, q, now, cancelled) && Settled(q, now) && Passing(p, q, |p.queue|, now, cancelled)
  {
    OpenUnderway(p, q, n, now, cancelled);
    ProgressDone(p, q, n, now, cancelled);
  }

  lemma DispatchedIdle(p: Pool, q: Pool, s: Pool, now: int, cancelled: set<nat>)
    requires Wf(q) && Wf(s) && Dispatched(p, q, now, cancelled) && Settled(q, now)
    requires Confined(q, s, now) && s.queue == q.queue && s.results == q.results
    ensures Dispatched(p, s, now, cancelled) && Settled(s, now)
  {
    ConfinedTrans(p, q, s, now);
    StalledStays(q, s, q.queue, now);
  }

  lemma DispatchedAnswer(p: Pool, q: Pool, s: Pool, now: int, cancelled: set<nat>, out: Outcome)
    requires Wf(q) && Wf(s) && Dispatched(p, q, now, cancelled) && Settled(q, now)
    requires DistinctWaiters(p.queue) && q.queue != [] && q.queue[0].id !in q.results && out != Refused(Canceled)
    requires Confined(q, s, now)
    requires s.queue == q.queue[1..] && s.results == q.results[q.queue[0].id := out]
    ensures Dispatched(p, s, now, cancelled) && Settled(s, now)
  {
    ConfinedTrans(p, q, s, now);
    StalledStays(q, s, q.queue, now);
    SurvivorsHead(p.queue, q.results, out);
    AnsweredSurvivor(p, q.results, cancelled, out);
  }

  lemma AnsweredSurvivor(p: Pool, results: map<nat, Outcome>, cancelled: set<nat>, out: Outcome)
    requires Answered(p, results, |p.queue|, cancelled) && Survivors(p.queue, results) != []
            && out != Refused(Canceled)
    ensures Answered(p, results[Survivors(p.queue, results)[0].id := out], |p.queue|, cancelled)
  {
    var head := Survivors(p.queue, results)[0];
    SurvivorsMembers(p.queue, results);
    assert head in p.queue && head.id !in results;
    var k :| 0 <= k < |p.queue| && p.queue[k] == head;
    AnsweredAlso(p, results, k, cancelled, out);
  }

  lemma AnsweredAlso(p: Pool, results: map<nat, Outcome>, k: nat, cancelled: set<nat>, out: Outcome)
    requires k < |p.queue| && p.queue[k].id !in results && out != Refused(Canceled)
    requires Answered(p, results, |p.queue|, cancelled)
    ensures Answered(p, results[p.queue[k].id := out], |p.queue|, cancelled)
  {
    var after := results[p.queue[k].id := out];
    forall w | w in after && w !in p.results ensures exists j ::
      0 <= j < |p.queue| && j < |p.queue| && p.queue[j].id == w {
      if w == p.queue[k].id {
        assert p.queue[k].id == w;
      } else {
        assert w in results;
      }
    }
  }

  /** The candidates are open keys seen so far, and there are some as soon as an open key was seen. */
  ghost predicate Gathered(cs: seq<Class>, candidates: seq<nat>, seen: nat)
    requires seen <= |cs|
  {
    && (forall i :: 0 <= i < |candidates| ==> candidates[i] < seen && cs[candidates[i]] == Open)
    && (candidates != [] <==> SomeOpen(cs[..seen]))
  }

  /** The scan under way: what has been counted and gathered. Without latency routing the first open key ends it. */
  ghost predicate Scanning(cs: seq<Class>, tally: Tally, candidates: seq<nat>, seen: nat, latency: bool)
    requires seen <= |cs|
  {
    tally == TallyUp(cs[..seen]) && Gathered(cs, candidates, seen) && (!latency ==> candidates == [])
  }

  lemma ScanNext(cs: seq<Class>, tally: Tally, candidates: seq<nat>, seen: nat, latency: bool)
    requires seen < |cs| && Scanning(cs, tally, candidates, seen, latency)
    ensures if cs[seen].Open? then
              && SomeOpen(cs)
              && if latency then Scanning(cs, Count(tally, cs[seen]), candidates + [seen], seen + 1, latency)
                 else !SomeOpen(cs[..seen])
            else Scanning(cs, Count(tally, cs[seen]), candidates, seen + 1, latency)
  {
    TallyNext(cs, seen);
    GatheredNext(cs, candidates, seen);
  }

  lemma ScanDone(cs: seq<Class>, tally: Tally, candidates: seq<nat>, latency: bool)
    requires Scanning(cs, tally, candidates, |cs|, latency)
    ensures candidates == [] <==> !SomeOpen(cs)
    ensures candidates == [] ==> Refusal(cs, DenialOf(tally))
    ensures candidates != [] ==> latency && forall c :: c in candidates ==> c < |cs| && cs[c] == Open
  {
    assert cs[..|cs|] == cs;
    if candidates == [] {
      TallyDecides(cs);
    }
  }

  lemma GatheredNext(cs: seq<Class>, candidates: seq<nat>, seen: nat)
    requires seen < |cs| && Gathered(cs, candidates, seen)
    ensures if cs[seen].Open? then Gathered(cs, candidates + [seen], seen + 1) && SomeOpen(cs)
            else Gathered(cs, candidates, seen + 1)
  {
    if cs[seen].Open? {
      assert cs[..seen + 1][seen] == Open;
    } else {
      assert cs[..seen + 1] == cs[..seen] + [cs[seen]];
    }
  }

  /** A key found open by the scan may be granted after the pruning that the scan did. */
  lemma GrantReady(first: Pool, mid: Pool, r: Request, relaxed: bool, target: Target, now: int, offset: nat)
    requires Wf(first) && Wf(mid) && mid == first.(objs := mid.objs, clock := now)
    requires Classes(mid, r, now, relaxed) == Classes(first, r, now, relaxed)
    requires Classes(mid, r, now, false) == Classes(first, r, now, false)
    requires !first.closed && !ModelOff(first, r.model) && offset < |first.order|
    requires Classes(first, r, now, relaxed)[offset] == Open
    requires r.latency || !SomeOpen(Classes(first, r, now, relaxed)[..offset])
    requires target.ToHead? ==> first.queue != [] && first.queue[0].req == r
    requires relaxed ==> target.ToHead? && !r.noRelax && !SomeOpen(Classes(first, r, now, false))
    ensures CanGrant(mid, offset, r, relaxed, target, now)
  {
    var cs := Classes(mid, r, now, relaxed);
    if !r.latency {
      forall j | 0 <= j < offset ensures cs[j] != Open {
        assert cs[..offset][j] == cs[j];
      }
    }
  }
}
