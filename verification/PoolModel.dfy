/** The scheduler of internal/pool as a step machine.

    keyState objects live in an append-only table `objs` and are named by their allocation
    number, so that a lease keeps pointing at the object it was cut from when the key id is later
    bound to a new object. Every locked section of the source is a sequence of the events below;
    `now` is the clock reading of that section and never decreases. */
module PoolModel {
  import opened Basics
  import opened RequestWindow
  import opened KeyOrder

  datatype Key = Key(
    id: int,
    enabled: bool,
    authInvalid: bool,
    cooldownUntil: Option<int>,
    blocks: set<int>,
    busy: bool,
    streaming: int,
    times: seq<int>)

  /** What one acquire call asks for. `noRelax` is the mark of WithNoAttemptedRelaxation; `client` names the
      goroutine that asks, so that the lease cut for it can be told from others. */
  datatype Request = Request(
    model: int,
    attempted: set<int>,
    stream: bool,
    maxStreaming: int,
    latency: bool,
    noRelax: bool,
    client: nat)

  datatype Reason = Busy | CoolingDown | Disabled | ModelBlocked | RateLimited
  datatype Denial = Denial(reason: Reason, retryAfter: int)

  datatype Failure = Canceled | Unavailable(denial: Denial) | ShuttingDown | QueueFull | QueueTimeout
  datatype Outcome = Granted(lease: nat) | Refused(failure: Failure)

  datatype Waiter = Waiter(id: nat, req: Request)

  /** Where the goroutine of a waiter stands: selecting on its channel, past the locked part of
      abandonWaiter and about to read the channel, or returned. */
  datatype Phase = Waiting | Draining | Done

  datatype Custody = InChannel(waiter: nat) | WithCaller | WithAbandoner
  datatype Lease = Lease(obj: nat, key: int, stream: bool, custody: Custody, released: bool, client: nat)

  /** `asked` keeps what each waiter asked for, as its own goroutine does, also after it left the queue. */
  datatype Pool = Pool(
    objs: seq<Key>,
    keys: map<int, nat>,
    models: map<int, bool>,
    order: seq<int>,
    cursor: nat,
    queue: seq<Waiter>,
    closed: bool,
    leases: seq<Lease>,
    results: map<nat, Outcome>,
    phases: seq<Phase>,
    asked: seq<Request>,
    clock: int)

  /** What failover relies on: a request that forbids relaxation, or has tried nothing yet, gets a key that
      it has not tried. */
  predicate KeepsPromise(req: Request, key: int) {
    req.noRelax || req.attempted == {} ==> key !in req.attempted
  }

  // ---------------------------------------------------------------- eligibility of one key

  /** How the allocator's scan sees one key; the first obstacle met in the source's order wins. */
  datatype Class =
    | Off                    // disabled or credential rejected
    | Blocked                // blocked for this model
    | Cooling(left: int)     // inside its cooldown for `left` more nanoseconds
    | Tried                  // in the attempted set
    | Limited(left: int)     // rate limited for `left` more nanoseconds
    | Taken                  // no free slot of the wanted kind
    | Open

  /** No free slot of the kind that the request wants. */
  predicate Full(k: Key, r: Request) {
    if r.stream then k.streaming >= r.maxStreaming else k.busy
  }

  function Classify(k: Key, r: Request, now: int, relaxed: bool): Class {
    if !k.enabled || k.authInvalid then Off
    else if r.model in k.blocks then Blocked
    else if k.cooldownUntil.Some? && now < k.cooldownUntil.value then Cooling(k.cooldownUntil.value - now)
    else if !relaxed && k.id in r.attempted then Tried
    else if RetryAfter(k.times, now) > 0 then Limited(RetryAfter(k.times, now))
    else if Full(k, r) then Taken
    else Open
  }

  /** The declarative reading of Open. */
  lemma OpenMeans(k: Key, r: Request, now: int, relaxed: bool)
    ensures Classify(k, r, now, relaxed) == Open <==>
              && k.enabled && !k.authInvalid && r.model !in k.blocks
              && (k.cooldownUntil.Some? ==> k.cooldownUntil.value <= now)
              && (relaxed || k.id !in r.attempted)
              && |Kept(k.times, now)| < LIMIT
              && (if r.stream then k.streaming < r.maxStreaming else !k.busy)
  {}

  /** Which obstacle is met first: configuration before blocks, blocks before cooldowns, cooldowns before keys that were
      tried, these before the rate limit, and that before slots. */
  lemma ClassMeans(k: Key, r: Request, now: int, relaxed: bool)
    ensures var c := Classify(k, r, now, relaxed);
            && (c.Off? <==> !k.enabled || k.authInvalid)
            && (c.Off? || c.Blocked? <==> !k.enabled || k.authInvalid || r.model in k.blocks)
            && (c.Cooling? ==> k.cooldownUntil == Some(now + c.left) && c.left > 0)
            && (c.Tried? || c.Limited? || c.Taken? || c.Open? <==>
                  && k.enabled && !k.authInvalid && r.model !in k.blocks
                  && (k.cooldownUntil.Some? ==> k.cooldownUntil.value <= now))
            && (c.Tried? ==> !relaxed && k.id in r.attempted)
            && (c.Limited? ==> |Kept(k.times, now)| >= LIMIT && c.left == RetryAfter(k.times, now))
            && (c.Taken? ==> |Kept(k.times, now)| < LIMIT && Full(k, r))
  {}

  predicate Least(cs: seq<Class>, cooling: bool, left: int) {
    && (exists i :: 0 <= i < |cs| && cs[i] == if cooling then Cooling(left) else Limited(left))
    && (forall i :: 0 <= i < |cs| && cooling && cs[i].Cooling? ==> left <= cs[i].left)
    && (forall i :: 0 <= i < |cs| && !cooling && cs[i].Limited? ==> left <= cs[i].left)
  }

  predicate SomeOpen(cs: seq<Class>) {
    exists i :: 0 <= i < |cs| && cs[i] == Open
  }

  /** The refusal the allocator owes to a list of keys none of which is open. */
  predicate Refusal(cs: seq<Class>, d: Denial) {
    && !SomeOpen(cs)
    && if forall i :: 0 <= i < |cs| ==> cs[i].Off? then
         d == Denial(Disabled, 0)
       else if forall i :: 0 <= i < |cs| ==> cs[i].Off? || cs[i].Blocked? then
         d == Denial(ModelBlocked, 0)
       else if forall i :: 0 <= i < |cs| ==> cs[i].Off? || cs[i].Blocked? || cs[i].Cooling? then
         d.reason == CoolingDown && Least(cs, true, d.retryAfter)
       else if (exists i :: 0 <= i < |cs| && cs[i].Limited?) && !(exists i :: 0 <= i < |cs| && cs[i].Taken?) then
         d.reason == RateLimited && Least(cs, false, d.retryAfter)
       else
         d == Denial(Busy, 0)
  }

  /** The refusal is fully determined by the classes. */
  lemma RefusalUnique(cs: seq<Class>, d: Denial, e: Denial)
    requires Refusal(cs, d) && Refusal(cs, e)
    ensures d == e
  {
    if d.reason == CoolingDown {
      var i :| 0 <= i < |cs| && cs[i] == Cooling(d.retryAfter);
      var j :| 0 <= j < |cs| && cs[j] == Cooling(e.retryAfter);
    } else if d.reason == RateLimited {
      var i :| 0 <= i < |cs| && cs[i] == Limited(d.retryAfter);
      var j :| 0 <= j < |cs| && cs[j] == Limited(e.retryAfter);
    }
  }

  // ---------------------------------------------------------------- the pool as a whole

  /** Every id of the order leads to an object of that id. */
  ghost predicate Wf(p: Pool) {
    && CursorInRange(p.order, p.cursor)
    && forall i {:trigger p.order[i]} :: 0 <= i < |p.order| ==>
         p.order[i] in p.keys && p.keys[p.order[i]] < |p.objs| && p.objs[p.keys[p.order[i]]].id == p.order[i]
  }

  predicate ModelOff(p: Pool, model: int) {
    model in p.models && !p.models[model]
  }

  /** The object behind the i-th id of the order. */
  function ObjAt(p: Pool, i: nat): (o: nat)
    requires Wf(p) && i < |p.order|
    ensures o < |p.objs| && p.objs[o].id == p.order[i]
  {
    p.keys[p.order[i]]
  }

  /** The position in `order` that lies `offset` steps after the cursor. */
  function Pos(p: Pool, offset: nat): (i: nat)
    requires p.cursor < |p.order| && offset < |p.order|
    ensures i < |p.order|
  {
    if p.cursor + offset < |p.order| then p.cursor + offset else p.cursor + offset - |p.order|
  }

  /** How many steps the cursor takes to reach position `i`. */
  function Distance(p: Pool, i: nat): (d: nat)
    requires p.cursor < |p.order| && i < |p.order|
    ensures d < |p.order| && Pos(p, d) == i
  {
    if p.cursor <= i then i - p.cursor else i + |p.order| - p.cursor
  }

  /** How the scan sees the key `offset` steps after the cursor. */
  function ClassAt(p: Pool, r: Request, now: int, relaxed: bool, offset: nat): Class
    requires Wf(p) && offset < |p.order|
  {
    Classify(p.objs[ObjAt(p, Pos(p, offset))], r, now, relaxed)
  }

  /** The classes of all keys, in the order of the scan. */
  ghost function Classes(p: Pool, r: Request, now: int, relaxed: bool): (cs: seq<Class>)
    requires Wf(p)
    ensures |cs| == |p.order|
    ensures forall i :: 0 <= i < |cs| ==> cs[i] == ClassAt(p, r, now, relaxed, i)
  {
    seq(|p.order|, i requires 0 <= i < |p.order| => ClassAt(p, r, now, relaxed, i))
  }

  /** Some key could serve the request right now. */
  ghost predicate Servable(p: Pool, r: Request, now: int, relaxed: bool)
    requires Wf(p)
  {
    !ModelOff(p, r.model) && SomeOpen(Classes(p, r, now, relaxed))
  }

  ghost predicate Denied(p: Pool, r: Request, now: int, relaxed: bool, d: Denial)
    requires Wf(p)
  {
    if ModelOff(p, r.model) then d == Denial(ModelBlocked, 0)
    else Refusal(Classes(p, r, now, relaxed), d)
  }

  /** Round robin: the key at `offset` is the first open one met from the cursor on. */
  ghost predicate FirstOpen(p: Pool, r: Request, now: int, relaxed: bool, offset: nat)
    requires Wf(p) && offset < |p.order|
  {
    forall j :: 0 <= j < offset ==> Classes(p, r, now, relaxed)[j] != Open
  }

  function Occupy(k: Key, stream: bool, now: int): Key {
    k.(times := Kept(k.times, now) + [now],
       streaming := if stream then k.streaming + 1 else k.streaming,
       busy := if stream then k.busy else true)
  }

  function Vacate(k: Key, stream: bool): Key {
    if stream then k.(streaming := k.streaming - 1) else k.(busy := false)
  }

  /** At most grant times outside the window at `now` have gone. */
  predicate Pruned(a: Key, b: Key, now: int) {
    b == a || b == a.(times := Kept(a.times, now))
  }

  /** Only fields owned by configuration and fault handling differ. */
  predicate SameWork(a: Key, b: Key) {
    a.id == b.id && a.busy == b.busy && a.streaming == b.streaming && a.times == b.times
  }

  predicate Idle(k: Key) {
    !k.busy && k.streaming == 0 && k.times == []
  }

  function Advance(p: Pool, i: nat): nat
    requires i < |p.order|
  {
    if i + 1 == |p.order| then 0 else i + 1
  }

  // ---------------------------------------------------------------- events

  datatype Target = ToCaller | ToHead

  datatype Event =
    | Sweep(objs: seq<Key>, now: int)
    | Grant(offset: nat, req: Request, relaxed: bool, target: Target, now: int)
    | Refuse(failure: Failure, relaxed: bool, now: int)
    | Rotate(now: int)
    | Enqueue(req: Request, capacity: int)
    | Close
    | Deliver(waiter: nat)
    | Withdraw(waiter: nat)
    | GiveUp(waiter: nat)
    | Drain(waiter: nat)
    | Release(lease: nat)
    | Edit(obj: nat, key: Key)
    | SetModel(model: int, enabled: bool)
    | AddKey(key: Key)
    | DropKey(id: int)
    | Load(keys: seq<Key>)

  predicate Timed(e: Event) {
    e.Sweep? || e.Grant? || e.Refuse? || e.Rotate?
  }

  predicate Queued(p: Pool, w: nat) {
    exists i :: 0 <= i < |p.queue| && p.queue[i].id == w
  }

  function Remove(q: seq<Waiter>, w: nat): seq<Waiter> {
    if q == [] then []
    else if q[0].id == w then Remove(q[1..], w)
    else [q[0]] + Remove(q[1..], w)
  }

  function Ids(ks: seq<Key>): (ids: seq<int>)
    ensures |ids| == |ks| && forall i :: 0 <= i < |ks| ==> ids[i] == ks[i].id
  {
    seq(|ks|, i requires 0 <= i < |ks| => ks[i].id)
  }

  /** The key table that LoadSnapshot builds for objects allocated from `base` on. */
  function Table(ks: seq<Key>, base: nat): map<int, nat> {
    if ks == [] then map[]
    else Table(ks[..|ks| - 1], base)[ks[|ks| - 1].id := base + |ks| - 1]
  }

  /** When the key `offset` steps after the cursor may be granted to the request. */
  ghost predicate CanGrant(p: Pool, offset: nat, r: Request, relaxed: bool, target: Target, now: int)
    requires Wf(p)
  {
    && !p.closed && !ModelOff(p, r.model)
    && offset < |p.order|
    && Classes(p, r, now, relaxed)[offset] == Open
    && (!r.latency ==> FirstOpen(p, r, now, relaxed, offset))
    && (target.ToHead? ==> p.queue != [] && p.queue[0].req == r)
    && (relaxed ==> target.ToHead? && !r.noRelax && !SomeOpen(Classes(p, r, now, false)))
  }

  function GrantTo(p: Pool, offset: nat, r: Request, target: Target, now: int): Pool
    requires Wf(p) && offset < |p.order|
    requires target.ToHead? ==> p.queue != []
  {
    var i := Pos(p, offset);
    var o := ObjAt(p, i);
    var custody := if target.ToHead? then InChannel(p.queue[0].id) else WithCaller;
    p.(objs := p.objs[o := Occupy(p.objs[o], r.stream, now)],
       cursor := Advance(p, i),
       leases := p.leases + [Lease(o, p.order[i], r.stream, custody, false, r.client)],
       queue := if target.ToHead? then p.queue[1..] else p.queue,
       results := if target.ToHead? then p.results[p.queue[0].id := Granted(|p.leases|)] else p.results,
       clock := now)
  }

  /** The pool with one more waiter at the end of the queue. */
  function Joined(p: Pool, r: Request): Pool {
    p.(queue := p.queue + [Waiter(|p.phases|, r)], phases := p.phases + [Waiting], asked := p.asked + [r])
  }

  /** The pool without that waiter, which gave up while it was queued. */
  function Withdrawn(p: Pool, w: nat): Pool
    requires w < |p.phases|
  {
    p.(queue := Remove(p.queue, w), phases := p.phases[w := Done])
  }

  /** The pool after the first release of a lease. */
  function Returned(p: Pool, l: nat): Pool
    requires l < |p.leases| && p.leases[l].obj < |p.objs|
  {
    var lease := p.leases[l];
    p.(leases := p.leases[l := lease.(released := true)],
       objs := p.objs[lease.obj := Vacate(p.objs[lease.obj], lease.stream)])
  }

  function Added(p: Pool, k: Key): Pool
    requires CursorInRange(p.order, p.cursor)
  {
    p.(objs := p.objs + [k],
       keys := p.keys[k.id := |p.objs|],
       order := Insert(p.order, k.id),
       cursor := CursorAfterInsert(p.order, p.cursor, k.id))
  }

  function Dropped(p: Pool, id: int): Pool
    requires id in p.order
  {
    var at := IndexOf(p.order, id);
    p.(keys := p.keys - {id}, order := Drop(p.order, at), cursor := CursorAfterDrop(p.order, p.cursor, at))
  }

  function Loaded(p: Pool, ks: seq<Key>): Pool {
    p.(objs := p.objs + ks, keys := Table(ks, |p.objs|), order := Sort(Ids(ks)), cursor := 0)
  }

  /** When an event can happen. */
  ghost predicate Fires(p: Pool, e: Event)
    requires Wf(p)
  {
    && (Timed(e) ==> p.clock <= e.now)
    && match e
       case Sweep(objs, now) =>
         |objs| == |p.objs| && forall o {:trigger objs[o]} :: 0 <= o < |objs| ==> Pruned(p.objs[o], objs[o], now)
       case Grant(offset, r, relaxed, target, now) => CanGrant(p, offset, r, relaxed, target, now)
       case Refuse(failure, relaxed, now) =>
         && p.queue != []
         && (failure.ShuttingDown? <==> p.closed)
         && (failure.Unavailable? ==>
               && !p.closed
               && failure.denial.reason != Busy
               && Denied(p, p.queue[0].req, now, relaxed, failure.denial)
               && (relaxed ==> !p.queue[0].req.noRelax))
         && !failure.QueueFull? && !failure.QueueTimeout?
       case Rotate(now) =>
         p.queue != [] && Denied(p, p.queue[0].req, now, false, Denial(Busy, 0))
       case Enqueue(r, capacity) => !p.closed && |p.queue| < capacity
       case Close => !p.closed
       case Deliver(w) => w < |p.phases| && p.phases[w] == Waiting && w in p.results
       case Withdraw(w) => w < |p.phases| && p.phases[w] == Waiting && Queued(p, w)
       case GiveUp(w) => w < |p.phases| && p.phases[w] == Waiting && !Queued(p, w)
       case Drain(w) => w < |p.phases| && p.phases[w] == Draining && w in p.results
       case Release(l) => l < |p.leases| && p.leases[l].obj < |p.objs| && !p.leases[l].released
         && !p.leases[l].custody.InChannel?
       case Edit(o, k) => k.id in p.keys && p.keys[k.id] == o && o < |p.objs| && SameWork(p.objs[o], k)
       case SetModel(m, enabled) => true
       case AddKey(k) => k.id !in p.keys && Idle(k)
       case DropKey(id) => id in p.keys && id in p.order
       case Load(ks) => Distinct(Ids(ks)) && forall i :: 0 <= i < |ks| ==> Idle(ks[i])
  }

  function Collect(p: Pool, w: nat, custody: Custody): Pool
    requires w in p.results && w < |p.phases|
  {
    var rest := p.(results := p.results - {w}, phases := p.phases[w := Done]);
    match p.results[w]
    case Refused(_) => rest
    case Granted(l) =>
      if l < |p.leases| then rest.(leases := p.leases[l := p.leases[l].(custody := custody)]) else rest
  }

  /** The pool after an event. */
  ghost function Next(p: Pool, e: Event): Pool
    requires Wf(p) && Fires(p, e)
  {
    match e
    case Sweep(objs, now) => p.(objs := objs, clock := now)
    case Grant(offset, r, relaxed, target, now) => GrantTo(p, offset, r, target, now)
    case Refuse(failure, relaxed, now) =>
      p.(queue := p.queue[1..], results := p.results[p.queue[0].id := Refused(failure)], clock := now)
    case Rotate(now) => p.(queue := p.queue[1..] + [p.queue[0]], clock := now)
    case Enqueue(r, _) => Joined(p, r)
    case Close => p.(closed := true)
    case Deliver(w) => Collect(p, w, WithCaller)
    case Withdraw(w) => Withdrawn(p, w)
    case GiveUp(w) => p.(phases := p.phases[w := Draining])
    case Drain(w) => Collect(p, w, WithAbandoner)
    case Release(l) => Returned(p, l)
    case Edit(o, k) => p.(objs := p.objs[o := k])
    case SetModel(m, enabled) => p.(models := p.models[m := enabled])
    case AddKey(k) => Added(p, k)
    case DropKey(id) => Dropped(p, id)
    case Load(ks) => Loaded(p, ks)
  }

  ghost predicate Legal(p: Pool, es: seq<Event>)
    decreases |es|
  {
    Wf(p) && (es == [] || (Fires(p, es[0]) && Legal(Next(p, es[0]), es[1..])))
  }

  ghost function After(p: Pool, es: seq<Event>): Pool
    requires Legal(p, es)
    ensures Wf(After(p, es))
    decreases |es|
  {
    if es == [] then p else After(Next(p, es[0]), es[1..])
  }

  function Fresh(start: int): Pool {
    Pool([], map[], map[], [], 0, [], false, [], map[], [], [], start)
  }
}
