/** What one scan over the keys computes and how little it changes: the facts that the methods of
    KeyPool use. */
module PoolScan {
  import opened Basics
  import opened RequestWindow
  import opened KeyOrder
  import opened PoolModel
  import opened PoolConservation

  // ---------------------------------------------------------------- the scan's accumulators

  datatype Tally = Tally(
    enabled: bool, unblocked: bool, ready: bool, busy: bool, limited: bool,
    cooldown: Option<int>, limit: Option<int>)

  function Earliest(best: Option<int>, left: int): Option<int> {
    if best.None? || left < best.value then Some(left) else best
  }

  function Count(t: Tally, c: Class): Tally {
    match c
    case Off => t
    case Blocked => t.(enabled := true)
    case Cooling(left) => t.(enabled := true, unblocked := true, cooldown := Earliest(t.cooldown, left))
    case Tried => t.(enabled := true, unblocked := true, ready := true)
    case Limited(left) =>
      t.(enabled := true, unblocked := true, ready := true, limited := true, limit := Earliest(t.limit, left))
    case Taken => t.(enabled := true, unblocked := true, ready := true, busy := true)
    case Open => t.(enabled := true, unblocked := true, ready := true)
  }

  function TallyUp(cs: seq<Class>): Tally {
    if cs == [] then Tally(false, false, false, false, false, None, None)
    else Count(TallyUp(cs[..|cs| - 1]), cs[|cs| - 1])
  }

  function DenialOf(t: Tally): Denial {
    if !t.enabled then Denial(Disabled, 0)
    else if !t.unblocked then Denial(ModelBlocked, 0)
    else if !t.ready then Denial(CoolingDown, if t.cooldown.Some? then t.cooldown.value else 0)
    else if t.limited && !t.busy then Denial(RateLimited, if t.limit.Some? then t.limit.value else 0)
    else Denial(Busy, 0)
  }

  ghost predicate Flags(cs: seq<Class>, t: Tally) {
    && (t.enabled <==> exists i :: 0 <= i < |cs| && !cs[i].Off?)
    && (t.unblocked <==> exists i :: 0 <= i < |cs| && !cs[i].Off? && !cs[i].Blocked?)
    && (t.ready <==> exists i :: 0 <= i < |cs| && !cs[i].Off? && !cs[i].Blocked? && !cs[i].Cooling?)
    && (t.busy <==> exists i :: 0 <= i < |cs| && cs[i].Taken?)
    && (t.limited <==> exists i :: 0 <= i < |cs| && cs[i].Limited?)
  }

  ghost predicate Minima(cs: seq<Class>, t: Tally) {
    && (t.cooldown.None? ==> forall i :: 0 <= i < |cs| ==> !cs[i].Cooling?)
    && (t.cooldown.Some? ==> Least(cs, true, t.cooldown.value))
    && (t.limit.None? ==> forall i :: 0 <= i < |cs| ==> !cs[i].Limited?)
    && (t.limit.Some? ==> Least(cs, false, t.limit.value))
  }

  lemma FlagsStep(cs: seq<Class>, t: Tally, c: Class)
    requires Flags(cs, t)
    ensures Flags(cs + [c], Count(t, c))
  {
    var all := cs + [c];
    assert all[|cs|] == c;
    assert forall i :: 0 <= i < |cs| ==> all[i] == cs[i];
  }

  lemma LeastStep(cs: seq<Class>, cooling: bool, best: int, c: Class)
    requires Least(cs, cooling, best)
    ensures c.Cooling? && cooling ==> Least(cs + [c], true, if c.left < best then c.left else best)
    ensures c.Limited? && !cooling ==> Least(cs + [c], false, if c.left < best then c.left else best)
    ensures (cooling && !c.Cooling?) || (!cooling && !c.Limited?) ==> Least(cs + [c], cooling, best)
  {
    var all := cs + [c];
    assert all[|cs|] == c;
    assert forall i :: 0 <= i < |cs| ==> all[i] == cs[i];
    var i :| 0 <= i < |cs| && cs[i] == if cooling then Cooling(best) else Limited(best);
    assert all[i] == cs[i];
  }

  lemma MinimaStep(cs: seq<Class>, t: Tally, c: Class)
    requires Minima(cs, t)
    ensures Minima(cs + [c], Count(t, c))
  {
    var all := cs + [c];
    assert all[|cs|] == c;
    assert forall i :: 0 <= i < |cs| ==> all[i] == cs[i];
    if t.cooldown.Some? { LeastStep(cs, true, t.cooldown.value, c); }
    if t.limit.Some? { LeastStep(cs, false, t.limit.value, c); }
  }

  lemma {:induction false} TallyMeans(cs: seq<Class>)
    ensures Flags(cs, TallyUp(cs)) && Minima(cs, TallyUp(cs))
  {
    if cs != [] {
      var front, last := cs[..|cs| - 1], cs[|cs| - 1];
      TallyMeans(front);
      FlagsStep(front, TallyUp(front), last);
      MinimaStep(front, TallyUp(front), last);
      assert front + [last] == cs;
    }
  }

  /** The accumulators yield exactly the refusal that is owed. */
  lemma TallyDecides(cs: seq<Class>)
    requires !SomeOpen(cs)
    ensures Refusal(cs, DenialOf(TallyUp(cs)))
  {
    TallyMeans(cs);
  }

  lemma TallyNext(cs: seq<Class>, n: nat)
    requires n < |cs|
    ensures TallyUp(cs[..n + 1]) == Count(TallyUp(cs[..n]), cs[n])
    ensures SomeOpen(cs[..n + 1]) <==> SomeOpen(cs[..n]) || cs[n] == Open
  {
    assert cs[..n + 1][..n] == cs[..n];
    if cs[n] == Open {
      assert cs[..n + 1][n] == Open;
    }
    if SomeOpen(cs[..n]) {
      var i :| 0 <= i < n && cs[..n][i] == Open;
      assert cs[..n + 1][i] == Open;
    }
  }

  // ---------------------------------------------------------------- what retry-after promises

  lemma StillCooling(k: Key, r: Request, now: int, relaxed: bool, t: int)
    requires now <= t
    ensures var c, later := Classify(k, r, now, relaxed), Classify(k, r, t, relaxed);
            && (c.Off? ==> later.Off?) && (c.Blocked? ==> later.Blocked?)
            && (c.Cooling? && t < now + c.left ==> later == Cooling(now + c.left - t))
            && (c.Cooling? && t >= now + c.left ==> !later.Off? && !later.Blocked? && !later.Cooling?)
  {}

  /** Some key is not kept off by its configuration or its cooldown. */
  ghost predicate SomeWarm(cs: seq<Class>) {
    exists i :: 0 <= i < |cs| && !cs[i].Off? && !cs[i].Blocked? && !cs[i].Cooling?
  }

  lemma Warm(cs: seq<Class>, i: nat)
    requires i < |cs| && !cs[i].Off? && !cs[i].Blocked? && !cs[i].Cooling?
    ensures SomeWarm(cs)
  {}

  /** The classes of the same keys at the two instants. */
  lemma LaterClasses(p: Pool, r: Request, now: int, relaxed: bool, t: int)
    requires Wf(p) && now <= t
    ensures var cs, later := Classes(p, r, now, relaxed), Classes(p, r, t, relaxed);
            forall i :: 0 <= i < |cs| ==>
              && (cs[i].Off? ==> later[i].Off?) && (cs[i].Blocked? ==> later[i].Blocked?)
              && (cs[i].Cooling? && t < now + cs[i].left ==> later[i] == Cooling(now + cs[i].left - t))
              && (cs[i].Cooling? && t >= now + cs[i].left ==>
                    !later[i].Off? && !later[i].Blocked? && !later[i].Cooling?)
  {
    forall i | 0 <= i < |p.order| {
      StillCooling(p.objs[ObjAt(p, Pos(p, i))], r, now, relaxed, t);
    }
  }

  lemma CoolingLater(cs: seq<Class>, later: seq<Class>, d: Denial, gone: int)
    requires Refusal(cs, d) && d.reason == CoolingDown && |later| == |cs| && gone < d.retryAfter
    requires forall i :: 0 <= i < |cs| ==>
               && (cs[i].Off? ==> later[i].Off?) && (cs[i].Blocked? ==> later[i].Blocked?)
               && (cs[i].Cooling? && gone < cs[i].left ==> later[i] == Cooling(cs[i].left - gone))
    ensures Refusal(later, Denial(CoolingDown, d.retryAfter - gone))
  {
    var i :| 0 <= i < |cs| && cs[i] == Cooling(d.retryAfter);
    assert later[i] == Cooling(d.retryAfter - gone);
  }

  lemma CoolingOver(cs: seq<Class>, later: seq<Class>, d: Denial)
    requires Refusal(cs, d) && d.reason == CoolingDown && |later| == |cs|
    requires forall i :: 0 <= i < |cs| && cs[i] == Cooling(d.retryAfter) ==>
               !later[i].Off? && !later[i].Blocked? && !later[i].Cooling?
    ensures SomeWarm(later)
  {
    var i :| 0 <= i < |cs| && cs[i] == Cooling(d.retryAfter);
    Warm(later, i);
  }

  /** A cooldown refusal names a wait, and the wait is exact: until then the pool is refused for cooling, with what
      is left of that wait, and then some key is cooling no longer. */
  lemma CoolingExact(p: Pool, r: Request, now: int, relaxed: bool, d: Denial, t: int)
    requires Wf(p) && Denied(p, r, now, relaxed, d) && d.reason == CoolingDown && now <= t
    ensures d.retryAfter > 0
    ensures t < now + d.retryAfter ==> Denied(p, r, t, relaxed, Denial(CoolingDown, now + d.retryAfter - t))
    ensures t == now + d.retryAfter ==> SomeWarm(Classes(p, r, t, relaxed))
  {
    var cs, later := Classes(p, r, now, relaxed), Classes(p, r, t, relaxed);
    LaterClasses(p, r, now, relaxed, t);
    CoolingIsPositive(p, r, now, relaxed, d);
    if t < now + d.retryAfter {
      CoolingLater(cs, later, d, t - now);
    } else if t == now + d.retryAfter {
      CoolingOver(cs, later, d);
    }
  }

  lemma CoolingIsPositive(p: Pool, r: Request, now: int, relaxed: bool, d: Denial)
    requires Wf(p) && Refusal(Classes(p, r, now, relaxed), d) && d.reason == CoolingDown
    ensures d.retryAfter > 0
  {
    var i :| 0 <= i < |p.order| && Classes(p, r, now, relaxed)[i] == Cooling(d.retryAfter);
    assert ClassAt(p, r, now, relaxed, i) == Cooling(d.retryAfter);
  }

  // ---------------------------------------------------------------- pruning is invisible

  ghost predicate AllPruned(a: seq<Key>, b: seq<Key>, now: int) {
    |b| == |a| && forall o {:trigger b[o]} :: 0 <= o < |b| ==> Pruned(a[o], b[o], now)
  }

  lemma PrunedClass(a: Key, b: Key, r: Request, now: int, relaxed: bool)
    requires Pruned(a, b, now)
    ensures Classify(b, r, now, relaxed) == Classify(a, r, now, relaxed)
  {
    PrunedRetryAfter(a.times, now, now);
  }

  lemma PruneAgain(a: seq<Key>, b: seq<Key>, o: nat, now: int)
    requires AllPruned(a, b, now) && o < |b|
    ensures AllPruned(a, b[o := b[o].(times := Kept(b[o].times, now))], now)
  {
    KeptTwice(a[o].times, now, now);
    assert Pruned(a[o], b[o], now);
  }

  lemma SweepClasses(p: Pool, objs: seq<Key>, r: Request, now: int, relaxed: bool)
    requires Wf(p) && p.clock <= now && AllPruned(p.objs, objs, now)
    ensures Fires(p, Sweep(objs, now)) && Wf(Next(p, Sweep(objs, now)))
    ensures Classes(Next(p, Sweep(objs, now)), r, now, relaxed) == Classes(p, r, now, relaxed)
  {
    SweptClasses(p, Next(p, Sweep(objs, now)), r, now, relaxed);
  }

  /** Grant times outside the window may have gone, and time has passed; nothing else has happened. */
  ghost predicate Swept(p: Pool, q: Pool, now: int) {
    q == p.(objs := q.objs, clock := q.clock) && p.clock <= q.clock <= now && AllPruned(p.objs, q.objs, now)
  }

  lemma PrunedTrans(a: Key, b: Key, c: Key, now: int)
    requires Pruned(a, b, now) && Pruned(b, c, now)
    ensures Pruned(a, c, now)
  {
    KeptTwice(a.times, now, now);
  }

  lemma SweptTrans(p: Pool, q: Pool, s: Pool, now: int)
    requires Swept(p, q, now) && Swept(q, s, now)
    ensures Swept(p, s, now)
  {
    forall o {:trigger s.objs[o]} | 0 <= o < |s.objs| ensures Pruned(p.objs[o], s.objs[o], now) {
      PrunedTrans(p.objs[o], q.objs[o], s.objs[o], now);
    }
  }

  lemma SweptClasses(p: Pool, q: Pool, r: Request, now: int, relaxed: bool)
    requires Wf(p) && Swept(p, q, now)
    ensures Wf(q) && Classes(q, r, now, relaxed) == Classes(p, r, now, relaxed)
  {
    SameTablesWf(p, q);
    forall i | 0 <= i < |p.order| ensures ClassAt(q, r, now, relaxed, i) == ClassAt(p, r, now, relaxed, i) {
      var o := ObjAt(p, Pos(p, i));
      PrunedClass(p.objs[o], q.objs[o], r, now, relaxed);
    }
  }

  // ---------------------------------------------------------------- what the head of the queue is owed

  /** The head got a key that was open for its request. */
  ghost predicate HeadGranted(p: Pool, q: Pool, relaxed: bool, now: int)
    requires p.queue != []
  {
    exists mid: Pool, at: nat {:trigger CanGrant(mid, at, p.queue[0].req, relaxed, ToHead, now)} ::
      && Swept(p, mid, now) && Wf(mid)
      && CanGrant(mid, at, p.queue[0].req, relaxed, ToHead, now)
      && q == GrantTo(mid, at, p.queue[0].req, ToHead, now)
  }

  /** The head left the queue with that refusal. */
  ghost predicate HeadRefused(p: Pool, q: Pool, failure: Failure, now: int)
    requires p.queue != []
  {
    && q == p.(objs := q.objs, clock := now, queue := p.queue[1..],
               results := p.results[p.queue[0].id := Refused(failure)])
    && AllPruned(p.objs, q.objs, now)
  }

  /** The head waits on; in the strict pass at the tail. */
  ghost predicate HeadWaits(p: Pool, q: Pool, relaxed: bool, now: int)
    requires p.queue != []
  {
    if relaxed then Swept(p, q, now)
    else
      && q == p.(objs := q.objs, clock := now, queue := p.queue[1..] + [p.queue[0]])
      && AllPruned(p.objs, q.objs, now)
  }

  ghost predicate HeadDenied(p: Pool, q: Pool, d: Denial, relaxed: bool, now: int)
    requires p.queue != []
  {
    if d.reason != Busy then HeadRefused(p, q, Unavailable(d), now) else HeadWaits(p, q, relaxed, now)
  }

  /** What a try for the head comes to: a key if and only if there is one for it; otherwise the refusal that is owed,
      unless keys are only busy. */
  ghost predicate Attended(p: Pool, q: Pool, relaxed: bool, now: int)
    requires Wf(p) && p.queue != []
  {
    var r := p.queue[0].req;
    if Servable(p, r, now, relaxed) then HeadGranted(p, q, relaxed, now)
    else exists d :: Denied(p, r, now, relaxed, d) && HeadDenied(p, q, d, relaxed, now)
  }

  /** One turn of the strict pass. */
  ghost predicate Turn(p: Pool, q: Pool, now: int, cancelled: set<nat>)
    requires Wf(p) && p.queue != []
  {
    if p.queue[0].id in cancelled then
      q == p.(queue := p.queue[1..], results := p.results[p.queue[0].id := Refused(Canceled)], clock := now)
    else Attended(p, q, false, now)
  }

  /** `n` turns of the strict pass. */
  ghost predicate Turns(p: Pool, q: Pool, n: nat, now: int, cancelled: set<nat>)
    decreases n
  {
    if n == 0 then q == p
    else exists mid: Pool {:trigger Turn(mid, q, now, cancelled)} ::
      Wf(mid) && mid.queue != [] && Turns(p, mid, n - 1, now, cancelled) && Turn(mid, q, now, cancelled)
  }

  /** The relaxed pass: the head, unless its request forbids it or an untried key could be assigned, is tried
      again with the keys that it has tried. */
  ghost predicate SecondLook(p: Pool, q: Pool, now: int)
    requires Wf(p)
  {
    if p.queue == [] || p.queue[0].req.noRelax then q == p
    else if SomeOpen(Classes(p, p.queue[0].req, now, false)) then Swept(p, q, now)
    else Attended(p, q, true, now)
  }

  predicate UnsealTurns(u: int) { true }
  predicate UnsealPasses(u: int) { true }

  /** A whole dispatch: one strict turn for each waiter, then the relaxed pass. Sealed, like the runs. */
  ghost predicate Passes(p: Pool, q: Pool, now: int, cancelled: set<nat>) {
    forall u {:trigger UnsealPasses(u)} :: UnsealPasses(u) ==>
      exists mid :: Wf(mid) && Turns(p, mid, |p.queue|, now, cancelled) && SecondLook(mid, q, now)
  }

  /** The strict pass under way, sealed too. */
  ghost predicate Passing(p: Pool, q: Pool, n: nat, now: int, cancelled: set<nat>) {
    forall u {:trigger UnsealTurns(u)} :: UnsealTurns(u) ==> Turns(p, q, n, now, cancelled)
  }

  lemma OpenPasses(p: Pool, q: Pool, now: int, cancelled: set<nat>) returns (mid: Pool)
    requires Passes(p, q, now, cancelled)
    ensures Wf(mid) && Turns(p, mid, |p.queue|, now, cancelled) && SecondLook(mid, q, now)
  {
    assert UnsealPasses(0);
    mid :| Wf(mid) && Turns(p, mid, |p.queue|, now, cancelled) && SecondLook(mid, q, now);
  }

  lemma SealPasses(p: Pool, mid: Pool, q: Pool, now: int, cancelled: set<nat>)
    requires Wf(mid) && Passing(p, mid, |p.queue|, now, cancelled) && SecondLook(mid, q, now)
    ensures Passes(p, q, now, cancelled)
  {
    assert UnsealTurns(0);
  }

  lemma NoTurns(p: Pool, now: int, cancelled: set<nat>)
    ensures Passing(p, p, 0, now, cancelled)
  {}

  lemma MoreTurns(p: Pool, mid: Pool, q: Pool, n: nat, now: int, cancelled: set<nat>)
    requires Wf(mid) && mid.queue != [] && Passing(p, mid, n, now, cancelled) && Turn(mid, q, now, cancelled)
    ensures Passing(p, q, n + 1, now, cancelled)
  {
    assert UnsealTurns(0);
  }

  /** One turn for a lone waiter whose untried keys are all busy: it stays at the head. */
  lemma LoneTurn(p: Pool, q: Pool, now: int, cancelled: set<nat>)
    requires Wf(p) && |p.queue| == 1 && p.queue[0].id !in cancelled && p.clock <= now
    requires Denied(p, p.queue[0].req, now, false, Denial(Busy, 0)) && Turns(p, q, 1, now, cancelled)
    ensures Swept(p, q, now)
  {
    var first: Pool :| Wf(first) && first.queue != [] && Turns(p, first, 0, now, cancelled)
      && Turn(first, q, now, cancelled);
    var r := p.queue[0].req;
    var d :| Denied(p, r, now, false, d) && HeadDenied(p, q, d, false, now);
    RefusalUnique(Classes(p, r, now, false), d, Denial(Busy, 0));
    assert p.queue[1..] + [p.queue[0]] == p.queue;
  }

  /** The lease is for a key of the pool that is open for the request if tried keys count. */
  ghost predicate OnTriedKey(p: Pool, r: Request, now: int, lease: Lease)
    requires Wf(p)
  {
    && lease.client == r.client
    && exists i :: 0 <= i < |p.order| && p.order[i] == lease.key &&
         Classify(p.objs[ObjAt(p, i)], r, now, true) == Open
  }

  lemma GrantOnTriedKey(p: Pool, mid: Pool, at: nat, r: Request, now: int)
    requires Wf(p) && Swept(p, mid, now) && Wf(mid) && p.queue != []
    requires at < |p.order| && ClassAt(p, r, now, true, at) == Open
    ensures var q := GrantTo(mid, at, r, ToHead, now);
            && q.queue == p.queue[1..] && q.results == p.results[p.queue[0].id := Granted(|p.leases|)]
            && |q.leases| == |p.leases| + 1 && OnTriedKey(p, r, now, q.leases[|p.leases|])
  {
    var i := Pos(p, at);
    assert p.order[i] == p.order[i] && Classify(p.objs[ObjAt(p, i)], r, now, true) == Open;
  }

  lemma GrantedOnTriedKey(p: Pool, q: Pool, now: int)
    requires Wf(p) && p.queue != [] && HeadGranted(p, q, true, now)
    ensures q.queue == p.queue[1..] && q.results == p.results[p.queue[0].id := Granted(|p.leases|)]
    ensures |q.leases| == |p.leases| + 1 && OnTriedKey(p, p.queue[0].req, now, q.leases[|p.leases|])
  {
    var r := p.queue[0].req;
    var mid: Pool, at: nat :| Swept(p, mid, now) && Wf(mid) && CanGrant(mid, at, r, true, ToHead, now)
      && q == GrantTo(mid, at, r, ToHead, now);
    SweptClasses(p, mid, r, now, true);
    assert Classes(p, r, now, true)[at] == Open;
    GrantOnTriedKey(p, mid, at, r, now);
  }

  /** A lone waiter that may be given a tried key is served by the next dispatch as soon as one of its tried keys is
      free: a key that its user gave back does not lie idle beside it. */
  lemma LoneWaiterServed(p: Pool, q: Pool, now: int, cancelled: set<nat>)
    requires Wf(p) && |p.queue| == 1 && p.queue[0].id !in cancelled && !p.queue[0].req.noRelax && p.clock <= now
    requires Denied(p, p.queue[0].req, now, false, Denial(Busy, 0)) && Servable(p, p.queue[0].req, now, true)
    requires Passes(p, q, now, cancelled)
    ensures q.queue == [] && q.results == p.results[p.queue[0].id := Granted(|p.leases|)]
    ensures |q.leases| == |p.leases| + 1 && OnTriedKey(p, p.queue[0].req, now, q.leases[|p.leases|])
  {
    var r := p.queue[0].req;
    var mid := OpenPasses(p, q, now, cancelled);
    LoneTurn(p, mid, now, cancelled);
    SweptClasses(p, mid, r, now, false);
    AttendSwept(p, mid, q, true, now);
    GrantedOnTriedKey(p, q, now);
  }

  lemma AttendGranted(p: Pool, mid: Pool, at: nat, q: Pool, relaxed: bool, now: int)
    requires Wf(p) && p.queue != [] && Servable(p, p.queue[0].req, now, relaxed)
    requires Swept(p, mid, now) && Wf(mid) && CanGrant(mid, at, p.queue[0].req, relaxed, ToHead, now)
    requires q == GrantTo(mid, at, p.queue[0].req, ToHead, now)
    ensures Attended(p, q, relaxed, now)
  {}

  lemma AttendDenied(p: Pool, q: Pool, relaxed: bool, now: int, d: Denial)
    requires Wf(p) && p.queue != [] && Denied(p, p.queue[0].req, now, relaxed, d)
    requires HeadDenied(p, q, d, relaxed, now)
    ensures Attended(p, q, relaxed, now)
  {}

  /** Sweeping first changes nothing of it. */
  lemma AttendSwept(p: Pool, mid: Pool, q: Pool, relaxed: bool, now: int)
    requires Wf(p) && Wf(mid) && p.queue != [] && Swept(p, mid, now) && Attended(mid, q, relaxed, now)
    ensures Attended(p, q, relaxed, now)
  {
    var r := p.queue[0].req;
    SweptClasses(p, mid, r, now, relaxed);
    if Servable(mid, r, now, relaxed) {
      GrantedSwept(p, mid, q, relaxed, now);
    } else {
      var d :| Denied(mid, r, now, relaxed, d) && HeadDenied(mid, q, d, relaxed, now);
      DeniedSwept(p, mid, q, relaxed, now, d);
      AttendDenied(p, q, relaxed, now, d);
    }
  }

  lemma GrantedSwept(p: Pool, mid: Pool, q: Pool, relaxed: bool, now: int)
    requires p.queue != [] && Swept(p, mid, now) && HeadGranted(mid, q, relaxed, now)
    ensures HeadGranted(p, q, relaxed, now)
  {
    var m: Pool, at: nat :| Swept(mid, m, now) && Wf(m)
      && CanGrant(m, at, mid.queue[0].req, relaxed, ToHead, now)
      && q == GrantTo(m, at, mid.queue[0].req, ToHead, now);
    SweptTrans(p, mid, m, now);
  }

  lemma DeniedSwept(p: Pool, mid: Pool, q: Pool, relaxed: bool, now: int, d: Denial)
    requires p.queue != [] && Swept(p, mid, now) && HeadDenied(mid, q, d, relaxed, now)
    ensures HeadDenied(p, q, d, relaxed, now)
  {
    if d.reason == Busy && relaxed {
      SweptTrans(p, mid, q, now);
    } else {
      SweptTrans(p, mid, mid.(objs := q.objs), now);
    }
  }

  // ---------------------------------------------------------------- capacity only shrinks

  predicate Tighter(a: Key, b: Key, now: int) {
    && a.id == b.id && a.enabled == b.enabled && a.authInvalid == b.authInvalid
    && a.cooldownUntil == b.cooldownUntil && a.blocks == b.blocks
    && |Kept(a.times, now)| <= |Kept(b.times, now)|
    && a.streaming <= b.streaming && (a.busy ==> b.busy)
  }

  /** Same keys and models; no key of `q` is easier to get at `now` than in `p`. */
  ghost predicate Shrunk(p: Pool, q: Pool, now: int) {
    && q.keys == p.keys && q.order == p.order && q.models == p.models
    && |q.objs| == |p.objs|
    && forall o {:trigger q.objs[o]} :: 0 <= o < |q.objs| ==> Tighter(p.objs[o], q.objs[o], now)
  }

  lemma ShrunkTrans(p: Pool, q: Pool, s: Pool, now: int)
    requires Shrunk(p, q, now) && Shrunk(q, s, now)
    ensures Shrunk(p, s, now)
  {
    forall o {:trigger s.objs[o]} | 0 <= o < |s.objs| ensures Tighter(p.objs[o], s.objs[o], now) {
      assert Tighter(p.objs[o], q.objs[o], now);
    }
  }

  lemma SweepShrunk(p: Pool, objs: seq<Key>, now: int)
    requires Wf(p) && p.clock <= now && AllPruned(p.objs, objs, now)
    ensures Shrunk(p, p.(objs := objs, clock := now), now)
  {
    forall o {:trigger objs[o]} | 0 <= o < |objs| ensures Tighter(p.objs[o], objs[o], now) {
      KeptTwice(p.objs[o].times, now, now);
      assert Pruned(p.objs[o], objs[o], now);
    }
  }

  lemma OccupyTighter(k: Key, stream: bool, now: int)
    ensures Tighter(k, Occupy(k, stream, now), now)
  {
    KeptAppend(Kept(k.times, now), [now], now);
    KeptTwice(k.times, now, now);
  }

  lemma GrantShrunk(p: Pool, e: Event)
    requires Wf(p) && Fires(p, e) && e.Grant?
    ensures Shrunk(p, Next(p, e), e.now)
  {
    var q := Next(p, e);
    var g := ObjAt(p, Pos(p, e.offset));
    OccupyTighter(p.objs[g], e.req.stream, e.now);
    forall o {:trigger q.objs[o]} | 0 <= o < |q.objs| ensures Tighter(p.objs[o], q.objs[o], e.now) {
      if o != g {
        assert q.objs[o] == p.objs[o];
      }
    }
  }

  lemma QueueShrunk(p: Pool, q: Pool, now: int)
    requires q == p.(queue := q.queue, results := q.results, phases := q.phases, clock := q.clock)
    ensures Shrunk(p, q, now)
  {}

  /** Some key of the pool is open, wherever the cursor stands. */
  lemma SomeOpenAnywhere(p: Pool, r: Request, now: int, relaxed: bool)
    requires Wf(p)
    ensures SomeOpen(Classes(p, r, now, relaxed)) <==>
              exists i :: 0 <= i < |p.order| && Classify(p.objs[ObjAt(p, i)], r, now, relaxed) == Open
  {
    if SomeOpen(Classes(p, r, now, relaxed)) {
      var j :| 0 <= j < |p.order| && Classes(p, r, now, relaxed)[j] == Open;
      assert Classify(p.objs[ObjAt(p, Pos(p, j))], r, now, relaxed) == Open;
    }
    if i :| 0 <= i < |p.order| && Classify(p.objs[ObjAt(p, i)], r, now, relaxed) == Open {
      assert Classes(p, r, now, relaxed)[Distance(p, i)] == Open;
    }
  }

  /** What nobody could serve stays unserved while capacity only shrinks. */
  lemma ShrunkServable(p: Pool, q: Pool, r: Request, now: int)
    requires Wf(p) && Wf(q) && Shrunk(p, q, now)
    requires Servable(q, r, now, false)
    ensures Servable(p, r, now, false)
  {
    SomeOpenAnywhere(p, r, now, false);
    SomeOpenAnywhere(q, r, now, false);
    var i :| 0 <= i < |q.order| && Classify(q.objs[ObjAt(q, i)], r, now, false) == Open;
    var o := ObjAt(q, i);
    assert ObjAt(p, i) == o;
    assert Tighter(p.objs[o], q.objs[o], now);
    OpenMeans(p.objs[o], r, now, false);
    OpenMeans(q.objs[o], r, now, false);
  }

  // ---------------------------------------------------------------- the queue after a dispatch

  ghost predicate DistinctWaiters(q: seq<Waiter>) {
    forall i, j :: 0 <= i < j < |q| ==> q[i].id != q[j].id
  }

  /** The waiters of `q` without a result, in order. */
  function Survivors(q: seq<Waiter>, results: map<nat, Outcome>): seq<Waiter> {
    if q == [] then []
    else Survivors(q[..|q| - 1], results) + if q[|q| - 1].id in results then [] else [q[|q| - 1]]
  }

  lemma SurvivorsNext(q: seq<Waiter>, n: nat, results: map<nat, Outcome>)
    requires n < |q|
    ensures Survivors(q[..n + 1], results) == Survivors(q[..n], results) + if q[n].id in results then [] else [q[n]]
  {
    assert q[..n + 1][..n] == q[..n];
  }

  /** Results for other waiters do not matter. */
  lemma {:induction false} SurvivorsOther(q: seq<Waiter>, results: map<nat, Outcome>, w: nat, out: Outcome)
    requires forall i :: 0 <= i < |q| ==> q[i].id != w
    ensures Survivors(q, results[w := out]) == Survivors(q, results)
  {
    if q != [] {
      SurvivorsOther(q[..|q| - 1], results, w, out);
    }
  }

  lemma {:induction false} SurvivorsAll(q: seq<Waiter>, results: map<nat, Outcome>)
    requires forall i :: 0 <= i < |q| ==> q[i].id !in results
    ensures Survivors(q, results) == q
  {
    if q != [] {
      SurvivorsAll(q[..|q| - 1], results);
    }
  }

  lemma {:induction false} SurvivorsMembers(q: seq<Waiter>, results: map<nat, Outcome>)
    ensures forall w :: w in Survivors(q, results) <==> w in q && w.id !in results
  {
    if q != [] {
      SurvivorsMembers(q[..|q| - 1], results);
      assert q == q[..|q| - 1] + [q[|q| - 1]];
    }
  }

  lemma SurvivorsSnoc(q: seq<Waiter>, results: map<nat, Outcome>)
    requires q != []
    ensures var s := Survivors(q[..|q| - 1], results);
            Survivors(q, results) == if q[|q| - 1].id in results then s else s + [q[|q| - 1]]
  {}

  /** Giving the first survivor a result removes it and keeps the rest in place. */
  lemma SurvivorsHead(q: seq<Waiter>, results: map<nat, Outcome>, out: Outcome)
    requires DistinctWaiters(q) && Survivors(q, results) != []
    ensures Survivors(q, results[Survivors(q, results)[0].id := out]) == Survivors(q, results)[1..]
  {
    var head := Survivors(q, results)[0];
    SurvivorsLose(q, results, results[head.id := out], head);
  }

  lemma {:induction false} SurvivorsSame(q: seq<Waiter>, results: map<nat, Outcome>, after: map<nat, Outcome>)
    requires forall i :: 0 <= i < |q| ==> (q[i].id in after <==> q[i].id in results)
    ensures Survivors(q, after) == Survivors(q, results)
  {
    if q != [] {
      SurvivorsSame(q[..|q| - 1], results, after);
    }
  }

  lemma {:induction false} SurvivorsLose(q: seq<Waiter>, results: map<nat, Outcome>, after: map<nat, Outcome>,
                                         head: Waiter)
    requires DistinctWaiters(q) && Survivors(q, results) != [] && head == Survivors(q, results)[0]
    requires forall w :: w in after <==> w in results || w == head.id
    ensures Survivors(q, after) == Survivors(q, results)[1..]
  {
    var front, last := q[..|q| - 1], q[|q| - 1];
    var s := Survivors(front, results);
    SurvivorsSnoc(q, results);
    SurvivorsSnoc(q, after);
    assert q == front + [last];
    FrontDiffers(front, last);
    if s == [] {
      SurvivorsSame(front, results, after);
    } else {
      SurvivorsMembers(front, results);
      assert s[0] in front;
      SurvivorsLose(front, results, after, head);
    }
  }

  lemma FrontDiffers(front: seq<Waiter>, last: Waiter)
    requires DistinctWaiters(front + [last])
    ensures DistinctWaiters(front)
    ensures forall i :: 0 <= i < |front| ==> front[i].id != last.id
  {
    var q := front + [last];
    assert forall i :: 0 <= i < |front| ==> q[i] == front[i];
    assert q[|front|] == last;
  }

  // ---------------------------------------------------------------- progress of a dispatch

  /** Results only grow, and only by answers to the first `n` waiters of the original queue; a
      cancellation answer goes to a cancelled waiter. */
  ghost predicate Answered(p: Pool, results: map<nat, Outcome>, n: nat, cancelled: set<nat>) {
    && (forall w :: w in p.results ==> w in results && results[w] == p.results[w])
    && (forall w :: w in results && w !in p.results ==> exists j :: 0 <= j < n && j < |p.queue| && p.queue[j].id == w)
    && (forall w :: w in results && w !in p.results && results[w] == Refused(Canceled) ==> w in cancelled)
  }

  /** Every new lease is on its way to a waiter. */
  ghost predicate OnlySent(before: seq<Lease>, after: seq<Lease>) {
    |before| <= |after| && forall l :: |before| <= l < |after| ==> after[l].custody.InChannel?
  }

  /** Nothing but capacity, cursor, queue and results has changed, and new leases are on their way to waiters. */
  ghost predicate Confined(p: Pool, q: Pool, now: int) {
    && Shrunk(p, q, now)
    && q.closed == p.closed && q.phases == p.phases && q.asked == p.asked && p.leases <= q.leases
    && p.clock <= q.clock <= now
    && OnlySent(p.leases, q.leases)
  }

  predicate ReadyKey(k: Key, model: int, now: int) {
    && k.enabled && !k.authInvalid && model !in k.blocks
    && (k.cooldownUntil.Some? ==> k.cooldownUntil.value <= now)
  }

  /** Waiting can help: some key is enabled, unblocked for the model and not cooling down. */
  ghost predicate Hopeful(p: Pool, r: Request, now: int)
    requires Wf(p)
  {
    !ModelOff(p, r.model) && exists i :: 0 <= i < |p.order| && ReadyKey(p.objs[ObjAt(p, i)], r.model, now)
  }

  /** Each of the waiters has something to wait for, but no untried key can serve it now. */
  ghost predicate Stalled(p: Pool, waiters: seq<Waiter>, now: int)
    requires Wf(p)
  {
    forall i :: 0 <= i < |waiters| ==>
      !Servable(p, waiters[i].req, now, false) && Hopeful(p, waiters[i].req, now)
  }

  ghost predicate NoneCancelled(waiters: seq<Waiter>, cancelled: set<nat>) {
    forall i :: 0 <= i < |waiters| ==> waiters[i].id !in cancelled
  }

  lemma ShrunkHopeful(p: Pool, q: Pool, r: Request, now: int)
    requires Wf(p) && Wf(q) && Shrunk(p, q, now) && Hopeful(p, r, now)
    ensures Hopeful(q, r, now)
  {
    var i :| 0 <= i < |p.order| && ReadyKey(p.objs[ObjAt(p, i)], r.model, now);
    var o := ObjAt(p, i);
    assert ObjAt(q, i) == o;
    assert Tighter(p.objs[o], q.objs[o], now);
    assert ReadyKey(q.objs[ObjAt(q, i)], r.model, now);
  }

  /** `q` is reached from `p` when the strict pass has handled the first `n` waiters. */
  ghost predicate Progress(p: Pool, q: Pool, n: nat, now: int, cancelled: set<nat>)
    requires Wf(q)
  {
    && n <= |p.queue|
    && Confined(p, q, now)
    && q.queue == p.queue[n..] + Survivors(p.queue[..n], q.results)
    && Answered(p, q.results, n, cancelled)
    && Stalled(q, Survivors(p.queue[..n], q.results), now)
    && NoneCancelled(Survivors(p.queue[..n], q.results), cancelled)
  }

  lemma ConfinedTrans(p: Pool, q: Pool, s: Pool, now: int)
    requires Confined(p, q, now) && Confined(q, s, now)
    ensures Confined(p, s, now)
  {
    ShrunkTrans(p, q, s, now);
  }

  lemma StalledStays(q: Pool, s: Pool, waiters: seq<Waiter>, now: int)
    requires Wf(q) && Wf(s) && Shrunk(q, s, now) && Stalled(q, waiters, now)
    ensures Stalled(s, waiters, now)
  {
    forall i | 0 <= i < |waiters| ensures !Servable(s, waiters[i].req, now, false) && Hopeful(s, waiters[i].req, now) {
      ShrunkHopeful(q, s, waiters[i].req, now);
      if Servable(s, waiters[i].req, now, false) {
        ShrunkServable(q, s, waiters[i].req, now);
      }
    }
  }

  lemma ProgressStart(p: Pool, now: int, cancelled: set<nat>)
    requires Wf(p) && p.clock <= now
    ensures Progress(p, p, 0, now, cancelled)
  {
    assert p.queue[..0] == [] && p.queue[0..] + [] == p.queue;
  }

  /** Capacity shrinking under a waiting queue. */
  lemma ProgressIdle(p: Pool, q: Pool, s: Pool, n: nat, now: int, cancelled: set<nat>)
    requires Wf(q) && Wf(s) && Progress(p, q, n, now, cancelled)
    requires Confined(q, s, now) && s.queue == q.queue && s.results == q.results
    ensures Progress(p, s, n, now, cancelled)
  {
    ConfinedTrans(p, q, s, now);
    StalledStays(q, s, Survivors(p.queue[..n], q.results), now);
  }

  lemma AnsweredNext(p: Pool, results: map<nat, Outcome>, n: nat, cancelled: set<nat>, out: Outcome)
    requires n < |p.queue| && Answered(p, results, n, cancelled) && p.queue[n].id !in results
    requires out == Refused(Canceled) ==> p.queue[n].id in cancelled
    ensures Answered(p, results[p.queue[n].id := out], n + 1, cancelled)
  {
    var after := results[p.queue[n].id := out];
    forall w | w in after && w !in p.results ensures exists j ::
      0 <= j < n + 1 && j < |p.queue| && p.queue[j].id == w {
      if w == p.queue[n].id {
        assert p.queue[n].id == w;
      } else {
        var j :| 0 <= j < n && j < |p.queue| && p.queue[j].id == w;
        assert p.queue[j].id == w;
      }
    }
  }

  lemma AnsweredMore(p: Pool, results: map<nat, Outcome>, n: nat, cancelled: set<nat>)
    requires Answered(p, results, n, cancelled)
    ensures Answered(p, results, n + 1, cancelled)
  {
    forall w | w in results && w !in p.results ensures exists j ::
      0 <= j < n + 1 && j < |p.queue| && p.queue[j].id == w {
      var j :| 0 <= j < n && j < |p.queue| && p.queue[j].id == w;
      assert p.queue[j].id == w;
    }
  }

  /** The head leaves the queue with an answer. */
  lemma ProgressAnswer(p: Pool, q: Pool, s: Pool, n: nat, now: int, cancelled: set<nat>, out: Outcome)
    requires Wf(q) && Wf(s) && Progress(p, q, n, now, cancelled) && n < |p.queue|
    requires DistinctWaiters(p.queue) && p.queue[n].id !in q.results
    requires Confined(q, s, now)
    requires s.queue == q.queue[1..] && s.results == q.results[q.queue[0].id := out]
    requires out == Refused(Canceled) ==> p.queue[n].id in cancelled
    ensures Progress(p, s, n + 1, now, cancelled)
  {
    var head := p.queue[n];
    assert q.queue[0] == head;
    ConfinedTrans(p, q, s, now);
    AnsweredNext(p, q.results, n, cancelled, out);
    QueueAnswered(p.queue, q.results, n, out);
    StalledStays(q, s, Survivors(p.queue[..n], q.results), now);
  }

  /** The answered head is no survivor, and the others stay in order. */
  lemma QueueAnswered(queue: seq<Waiter>, results: map<nat, Outcome>, n: nat, out: Outcome)
    requires n < |queue| && DistinctWaiters(queue) && queue[n].id !in results
    ensures var after := results[queue[n].id := out];
            && Survivors(queue[..n + 1], after) == Survivors(queue[..n], results)
            && (queue[n..] + Survivors(queue[..n], results))[1..] == queue[n + 1..] + Survivors(queue[..n + 1], after)
  {
    var after := results[queue[n].id := out];
    SurvivorsOther(queue[..n], results, queue[n].id, out);
    SurvivorsNext(queue, n, after);
    assert queue[n..] == [queue[n]] + queue[n + 1..];
  }

  /** The rotated head joins the survivors at their end. */
  lemma QueueRotated(queue: seq<Waiter>, results: map<nat, Outcome>, n: nat)
    requires n < |queue| && queue[n].id !in results
    ensures var before, after := Survivors(queue[..n], results), Survivors(queue[..n + 1], results);
            && after == before + [queue[n]]
            && (queue[n..] + before)[0] == queue[n]
            && (queue[n..] + before)[1..] + [queue[n]] == queue[n + 1..] + after
  {
    SurvivorsNext(queue, n, results);
    assert queue[n..] == [queue[n]] + queue[n + 1..];
  }

  /** The head is busy and goes to the tail. */
  lemma ProgressRotate(p: Pool, q: Pool, s: Pool, n: nat, now: int, cancelled: set<nat>)
    requires Wf(q) && Wf(s) && Progress(p, q, n, now, cancelled) && n < |p.queue|
    requires p.queue[n].id !in q.results
    requires !Servable(q, p.queue[n].req, now, false) && Hopeful(q, p.queue[n].req, now)
    requires p.queue[n].id !in cancelled
    requires s == q.(queue := q.queue[1..] + [q.queue[0]], clock := s.clock) && q.clock <= s.clock <= now
    ensures Progress(p, s, n + 1, now, cancelled)
  {
    QueueShrunk(q, s, now);
    ConfinedTrans(p, q, s, now);
    AnsweredMore(p, q.results, n, cancelled);
    QueueRotated(p.queue, q.results, n);
    StalledStays(q, s, Survivors(p.queue[..n + 1], s.results), now);
  }
}
