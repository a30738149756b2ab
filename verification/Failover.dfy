/** The attempt loop of internal/router/attempt.go on the scheduler itself. Other goroutines use the
    scheduler whenever the request waits for a key, for the upstream or between two locked sections; what
    they do, what the upstream and the database answer, how contexts end and how time passes is given by a
    World that can be anything. */
module Failover {
  import opened Basics
  import opened PoolModel
  import opened PoolConservation
  import opened KeyPool
  import opened PoolClients
  import M = FaultMatcher

  datatype Fault = Fault(status: int, retryable: bool, firstByteTimeout: bool, retryAfter: int)

  /** How acquire fails: the queue limits, a client that went away, no key left, anything else. */
  datatype AcquireError = QueueLimit | ClientGone | NoKeyLeft | OtherError

  /** Persisting the key state after an attempt: done, failed, or failed because the request ended. */
  datatype Mark = Persisted | NotPersisted | RequestEnded(ended: Fault)

  /** What a persisted failure leaves in the key's state. */
  datatype Verdict = Verdict(blockModel: bool, authInvalid: bool, cooldownUntil: Option<int>)

  /** What the secret store, the proxy layer and the upstream do with one attempt. */
  datatype Upstream =
    | SecretUnavailable
    | NoHealthyProxy
    | ProxyTransportFailed
    | ProxyRejected
    | Answered2xx(mark: Mark)
    | Failure(fault: Fault, mark: Mark, verdict: Verdict)

  /** Whether the context of the request was cancelled or ran into its deadline. */
  datatype CtxEnd = Cancelled | DeadlineExceeded

  /** Everything outside the loop. The first functions are indexed by the attempt, the last ones by the
      turns that other goroutines have had. */
  datatype World = World(
    upstream: nat -> Upstream,
    committed: nat -> bool,
    expired: nat -> bool,
    expiredInQueue: nat -> bool,
    pastRetryDeadline: nat -> bool,
    backoffCut: nat -> bool,
    ctxDone: nat -> bool,
    ctxEnd: nat -> CtxEnd,
    timerFires: nat -> bool,
    patience: nat -> nat,
    capacity: int,
    others: nat -> seq<Call>,
    cancelled: nat -> set<nat>,
    elapsed: nat -> nat)

  datatype LeaseOutcome = Served | Faulted(fault: Fault) | Broken

  datatype RunResult =
    | Success(lease: nat, key: int, attempts: nat)
    | FaultError(fault: Fault)
    | AcquireFailed(error: AcquireError)
    | InternalError

  datatype Reply = Leased(lease: nat, key: int) | NotLeased(error: AcquireError)

  const DEFAULT_MAX_ATTEMPTS: nat := 5

  function MaxAttempts(setting: int): (n: nat)
    ensures n > 0 && (setting <= 0 ==> n == 5) && (setting > 0 ==> n == setting)
  {
    if setting <= 0 then DEFAULT_MAX_ATTEMPTS else setting
  }

  // ---------------------------------------------------------------- declarative reading

  /** What an attempt comes to. */
  function Judge(u: Upstream): LeaseOutcome {
    match u
    case SecretUnavailable => Broken
    case NoHealthyProxy => Faulted(Fault(503, true, false, 0))
    case ProxyTransportFailed => Faulted(Fault(502, true, false, 0))
    case ProxyRejected => Broken
    case Answered2xx(mark) => if mark.RequestEnded? then Faulted(mark.ended) else Served
    case Failure(fault, mark, _) => if mark == NotPersisted then Broken else Faulted(fault)
  }

  /** The codes 429, 500, 502, 503, 504 and 529. */
  const DEFAULT_SPEC: M.Spec :=
    M.Tokens([M.Code(429), M.Code(500), M.Code(502), M.Code(503), M.Code(504), M.Code(529)])

  lemma DefaultCodes(status: int)
    ensures M.Means(DEFAULT_SPEC, status) <==> status in {429, 500, 502, 503, 504, 529}
  {
    forall t | t in DEFAULT_SPEC.tokens ensures M.Acceptable(t) && t.Code? {}
    assert forall c :: c in {429, 500, 502, 503, 504, 529} ==> M.Code(c) in DEFAULT_SPEC.tokens;
  }

  /** A blank or unreadable spec stands for the default one. */
  function Effective(spec: M.Spec): M.Spec {
    if spec.Blank? || !M.Valid(spec) then DEFAULT_SPEC else spec
  }

  predicate ShouldRetry(f: Fault, spec: M.Spec) {
    !f.firstByteTimeout && (f.retryable || (f.status > 0 && M.Means(Effective(spec), f.status)))
  }

  /** The delay before the next key; none before the second attempt unless the upstream named one. */
  predicate Pauses(attempts: nat, f: Fault) {
    attempts > 1 || f.retryAfter > 0
  }

  /** Attempt `i` failed in a way that lets the request go on to another key. */
  ghost predicate GoesOn(w: World, spec: M.Spec, max: nat, i: nat) {
    var out := Judge(w.upstream(i));
    && out.Faulted?
    && ShouldRetry(out.fault, spec)
    && !w.committed(i) && !w.expired(i)
    && i + 1 < max
    && !w.pastRetryDeadline(i)
    && !(Pauses(i + 1, out.fault) && w.backoffCut(i))
  }

  function KeySet(tried: seq<int>): set<int> {
    if tried == [] then {} else KeySet(tried[..|tried| - 1]) + {tried[|tried| - 1]}
  }

  /** The acquire request after the keys in `tried`; from the second on it forbids relaxation. */
  function NextRequest(base: Request, tried: seq<int>): Request {
    base.(attempted := KeySet(tried), noRelax := tried != [])
  }

  /** How the pool's refusals and the end of the wait reach the loop. */
  function ErrorOf(failure: PoolModel.Failure, end: CtxEnd): AcquireError {
    match failure
    case Canceled => if end.Cancelled? then ClientGone else QueueLimit
    case QueueFull => QueueLimit
    case QueueTimeout => QueueLimit
    case ShuttingDown => OtherError
    case Unavailable(d) => if d.reason.ModelBlocked? || d.reason.RateLimited? then OtherError else NoKeyLeft
  }

  /** What `error` says about the pool's refusal or the end of the wait: a queue limit is a full queue or a wait that
      ran out, whether by the queue's timer or by the deadline of the request; a client is gone when its context was
      cancelled; no key is left when keys are off, cooling down or in use, but not when the model is blocked or the
      rate limit reached. */
  predicate ReadAs(failure: PoolModel.Failure, end: CtxEnd, error: AcquireError) {
    && (error.QueueLimit? <==>
          failure.QueueFull? || failure.QueueTimeout? || (failure.Canceled? && end.DeadlineExceeded?))
    && (error.ClientGone? <==> failure.Canceled? && end.Cancelled?)
    && (error.NoKeyLeft? <==> failure.Unavailable? && failure.denial.reason in {Busy, CoolingDown, Disabled})
  }

  /** How a request ends that got no further key: a queue limit is always reported as such; the fault of the last
      attempt is reported instead of any other error exactly when there is one and the budget has expired or no key
      is left; and otherwise the error itself is. */
  predicate Reported(error: AcquireError, last: Option<Fault>, expired: bool, result: RunResult) {
    && (error.QueueLimit? ==> result == AcquireFailed(QueueLimit))
    && (result.FaultError? <==> last.Some? && !error.QueueLimit? && (expired || error.NoKeyLeft?))
    && (result.FaultError? ==> result.fault == last.value)
    && (!result.FaultError? ==> result == AcquireFailed(error))
  }

  function LastFault(w: World, n: nat): Option<Fault> {
    if n > 0 && Judge(w.upstream(n - 1)).Faulted? then Some(Judge(w.upstream(n - 1)).fault) else None
  }

  /** How a request ends that has executed on `tried`: by the last attempt if that one may not be
      repeated elsewhere, otherwise by the pool's refusal `error` to lease another key. */
  ghost predicate EndsWith(w: World, spec: M.Spec, max: nat, tried: seq<int>, error: Option<AcquireError>,
                           result: RunResult) {
    var n := |tried|;
    if n > 0 && !GoesOn(w, spec, max, n - 1) then
      match Judge(w.upstream(n - 1))
      case Served => result.Success? && result.key == tried[n - 1] && result.attempts == n
      case Faulted(f) => result == FaultError(f)
      case Broken => result == InternalError
    else
      error.Some? && Reported(error.value, LastFault(w, n), w.expiredInQueue(n), result)
  }

  /** Each of the first `n` attempts justified another one. */
  ghost predicate Justified(w: World, spec: M.Spec, max: nat, n: int) {
    n <= 0 || (GoesOn(w, spec, max, n - 1) && Justified(w, spec, max, n - 1))
  }

  /** Between two attempts. */
  ghost predicate OnCourse(w: World, spec: M.Spec, max: nat, tried: seq<int>, attempted: set<int>) {
    |tried| < max && attempted == KeySet(tried) && AllDifferent(tried) && Justified(w, spec, max, |tried|)
  }

  /** The request is over: it executed on different keys, at most `max` times, every attempt but the last
      justified another one, and the result is the one owed. */
  ghost predicate Over(w: World, spec: M.Spec, max: nat, tried: seq<int>, error: Option<AcquireError>,
                       result: RunResult) {
    && |tried| <= max && AllDifferent(tried) && Justified(w, spec, max, |tried| - 1)
    && EndsWith(w, spec, max, tried, error, result)
  }

  // ---------------------------------------------------------------- different keys

  /** No key occurs twice. */
  ghost predicate AllDifferent(tried: seq<int>) {
    tried == [] || (AllDifferent(tried[..|tried| - 1]) && tried[|tried| - 1] !in KeySet(tried[..|tried| - 1]))
  }

  lemma {:induction false} DifferentCount(tried: seq<int>)
    requires AllDifferent(tried)
    ensures |KeySet(tried)| == |tried|
  {
    if tried != [] {
      DifferentCount(tried[..|tried| - 1]);
    }
  }

  lemma {:induction false} KeySetMembers(tried: seq<int>)
    ensures forall k :: k in KeySet(tried) <==> k in tried
  {
    if tried != [] {
      var front := tried[..|tried| - 1];
      KeySetMembers(front);
      assert tried == front + [tried[|tried| - 1]];
    }
  }

  /** What AllDifferent says about any two attempts. */
  lemma {:induction false} DifferentMeans(tried: seq<int>, i: nat, j: nat)
    requires AllDifferent(tried) && i < j < |tried|
    ensures tried[i] != tried[j]
  {
    var front := tried[..|tried| - 1];
    if j < |front| {
      DifferentMeans(front, i, j);
    } else {
      KeySetMembers(front);
      assert front[i] == tried[i];
    }
  }

  lemma SnocFront(tried: seq<int>, key: int)
    ensures var all := tried + [key]; all[..|all| - 1] == tried && all[|all| - 1] == key && all != []
  {}

  lemma Extend(tried: seq<int>, key: int)
    requires AllDifferent(tried) && key !in KeySet(tried)
    ensures AllDifferent(tried + [key]) && KeySet(tried + [key]) == KeySet(tried) + {key}
    ensures |KeySet(tried) + {key}| == |tried| + 1
  {
    DifferentCount(tried);
    SnocFront(tried, key);
  }

  lemma MarkIsSet(tried: seq<int>)
    ensures KeySet(tried) != {} <==> tried != []
  {
    if tried != [] {
      assert tried[|tried| - 1] in KeySet(tried);
    }
  }

  // ---------------------------------------------------------------- the request in the pool

  /** The lease of a key is in the hands of client `c`, who has nothing else in the pool. */
  ghost predicate Holds(p: Pool, c: nat, lease: nat, key: int) {
    AtStake(p, c, None, Some(lease)) && p.leases[lease].key == key && p.leases[lease].custody == WithCaller
  }

  /** How the pool turned a request away after `at` steps, in state `p`: acquire refused it at time `now`, its
      waiter took a refusal, or its waiter gave up. */
  datatype Evidence =
    | AtOnce(at: nat, p: Pool, now: int, failure: PoolModel.Failure)
    | ByAnswer(at: nat, p: Pool, w: nat)
    | ByGivingUp(at: nat, p: Pool, w: nat)

  /** The evidence means `error` for attempt `n` with the request `r`. */
  ghost predicate Tells(ev: Evidence, world: World, n: nat, r: Request, error: AcquireError) {
    match ev
    case AtOnce(_, p, now, failure) =>
      && Wf(p) && p.clock <= now
      && ReadAs(failure, world.ctxEnd(n), error)
      && (if world.ctxDone(n) then failure == Canceled
          else if p.closed then failure == ShuttingDown
          else AcquireRefused(p, r, world.capacity, now, failure))
    case ByAnswer(_, p, w) =>
      && w < |p.asked| && p.asked[w] == r
      && w in p.results && p.results[w].Refused?
      && ReadAs(p.results[w].failure, world.ctxEnd(n), error)
    case ByGivingUp(_, p, w) =>
      && w < |p.asked| && p.asked[w] == r
      && ReadAs(if world.timerFires(n) then QueueTimeout else Canceled, world.ctxEnd(n), error)
  }

  /** The run `trace` of the pool shows that evidence from step `from` on and up to time `until`. */
  ghost predicate Shows(ev: Evidence, start: int, trace: seq<Event>, from: int, until: int, world: World, n: nat,
                        r: Request, error: AcquireError) {
    && from <= ev.at <= |trace| && Ran(start, trace[..ev.at], ev.p)
    && (ev.AtOnce? ==> ev.now <= until)
    && (ev.ByAnswer? ==> ev.at < |trace| && trace[ev.at] == PoolModel.Deliver(ev.w))
    && (ev.ByGivingUp? ==> ev.at < |trace| && trace[ev.at] in {PoolModel.Withdraw(ev.w), PoolModel.GiveUp(ev.w)})
    && Tells(ev, world, n, r, error)
  }

  /** Since step `from` the waiter took the answer out of its channel. */
  ghost predicate Took(trace: seq<Event>, from: nat, w: nat) {
    exists i :: from <= i < |trace| && trace[i] == PoolModel.Deliver(w)
  }

  predicate UnsealReason(u: int) { true }

  /** There is such evidence; sealed like the runs. */
  ghost predicate Witnessed(start: int, trace: seq<Event>, from: int, until: int, world: World, n: nat, r: Request,
                            error: AcquireError) {
    forall u {:trigger UnsealReason(u)} :: UnsealReason(u) ==>
      exists ev: Evidence :: Shows(ev, start, trace, from, until, world, n, r, error)
  }

  lemma Testify(ev: Evidence, start: int, trace: seq<Event>, from: int, until: int, world: World, n: nat, r: Request,
                error: AcquireError)
    requires Shows(ev, start, trace, from, until, world, n, r, error)
    ensures Witnessed(start, trace, from, until, world, n, r, error)
  {}

  lemma Evident(start: int, trace: seq<Event>, from: int, until: int, world: World, n: nat, r: Request,
                error: AcquireError) returns (ev: Evidence)
    requires Witnessed(start, trace, from, until, world, n, r, error)
    ensures Shows(ev, start, trace, from, until, world, n, r, error)
  {
    assert UnsealReason(0);
    ev :| Shows(ev, start, trace, from, until, world, n, r, error);
  }

  /** A reason that the run gave stays one while the run goes on. */
  lemma ReasonStays(start: int, trace: seq<Event>, from: int, until: int, world: World, n: nat, r: Request,
                    error: AcquireError, longer: seq<Event>, later: int)
    requires Witnessed(start, trace, from, until, world, n, r, error)
    requires trace <= longer && until <= later
    ensures Witnessed(start, longer, from, later, world, n, r, error)
  {
    var ev := Evident(start, trace, from, until, world, n, r, error);
    assert longer[..ev.at] == trace[..ev.at];
    Testify(ev, start, longer, from, later, world, n, r, error);
  }

  // ---------------------------------------------------------------- what the pool is told

  /** What an attempt on `key` makes the loop tell the pool: nothing unless the new key state was persisted. */
  function News(u: Upstream, key: int, model: int): seq<Call> {
    match u
    case Answered2xx(mark) => if mark.Persisted? then [CallApplySuccess(key)] else []
    case Failure(_, mark, v) =>
      if mark.Persisted? then [CallApplyFailure(key, model, v.blockModel, v.authInvalid, v.cooldownUntil)] else []
    case _ => []
  }

  /** The news of all attempts, in order. */
  function AllNews(w: World, model: int, tried: seq<int>): seq<Call> {
    if tried == [] then []
    else
      var n := |tried| - 1;
      AllNews(w, model, tried[..n]) + News(w.upstream(n), tried[n], model)
  }

  /** What such news does to the key. */
  function Informed(k: Key, call: Call): Key
    requires call.CallApplySuccess? || call.CallApplyFailure?
  {
    if call.CallApplySuccess? then k.(authInvalid := false, cooldownUntil := None)
    else k.(authInvalid := call.authInvalid, cooldownUntil := call.cooldownUntil,
            blocks := if call.blockModel then k.blocks + {call.model} else k.blocks)
  }

  /** At that place of the run the key was changed as told, if the pool knew it. */
  ghost predicate HeardAt(start: int, trace: seq<Event>, at: nat, p: Pool, call: Call)
    requires call.CallApplySuccess? || call.CallApplyFailure?
  {
    && at <= |trace| && Ran(start, trace[..at], p)
    && (call.id in p.keys ==>
          && p.keys[call.id] < |p.objs| && at < |trace|
          && trace[at] == Edit(p.keys[call.id], Informed(p.objs[p.keys[call.id]], call)))
  }

  predicate UnsealNews(u: int) { true }

  /** The pool has been told since step `from`; sealed like the runs. */
  ghost predicate Heard(start: int, trace: seq<Event>, from: int, call: Call)
    requires call.CallApplySuccess? || call.CallApplyFailure?
  {
    forall u {:trigger UnsealNews(u)} :: UnsealNews(u) ==>
      exists at: nat, p: Pool :: from <= at && HeardAt(start, trace, at, p, call)
  }

  lemma HearNow(start: int, before: seq<Event>, p: Pool, trace: seq<Event>, from: nat, call: Call)
    requires call.CallApplySuccess? || call.CallApplyFailure?
    requires Ran(start, before, p) && before <= trace && from <= |before|
    requires call.id in p.keys ==>
               && p.keys[call.id] < |p.objs| && |before| < |trace|
               && trace[|before|] == Edit(p.keys[call.id], Informed(p.objs[p.keys[call.id]], call))
    ensures Heard(start, trace, from, call)
  {
    assert trace[..|before|] == before;
    assert HeardAt(start, trace, |before|, p, call);
  }

  // ---------------------------------------------------------------- the code

  method BuildMatcher(spec: M.Spec) returns (ranges: seq<M.Range>)
    ensures M.Separated(ranges) && M.NonEmpty(ranges)
    ensures forall status :: M.Covers(ranges, status) <==> M.Means(Effective(spec), status)
  {
    var ok;
    if !spec.Blank? {
      ok, ranges := M.NewMatcher(spec);
      if ok {
        return;
      }
    }
    ok, ranges := M.NewMatcher(DEFAULT_SPEC);
  }

  method Retry(f: Fault, ranges: seq<M.Range>, ghost spec: M.Spec) returns (yes: bool)
    requires M.Separated(ranges) && M.NonEmpty(ranges)
    requires forall status :: M.Covers(ranges, status) <==> M.Means(Effective(spec), status)
    ensures yes <==> ShouldRetry(f, spec)
  {
    if f.firstByteTimeout {
      return false;
    }
    if f.retryable {
      return true;
    }
    yes := M.Match(ranges, f.status);
  }

  class Attempt {
    const pool: Scheduler
    const world: World
    const client: nat
    /** Turns of the other goroutines, and the clock. */
    var turns: nat
    var now: int
    /** The keys on which the request has been executed, and what the pool was told about them. */
    ghost var executed: seq<int>
    ghost var told: seq<Call>
    /** How often a waiter of this request has looked into its channel and found nothing. */
    ghost var missed: nat

    ghost predicate Valid()
      reads this, pool
    {
      pool.Valid() && pool.clock <= now
    }

    /** What the request has in the pool: the waiter `w`, the lease `l`, and nothing else. */
    ghost predicate Has(w: Option<nat>, l: Option<nat>)
      reads this, pool
    {
      AtStake(pool.State(), client, w, l)
    }

    constructor (pool: Scheduler, world: World, client: nat, now: int)
      requires pool.Valid() && pool.clock <= now
      ensures Valid() && this.pool == pool && this.world == world && this.client == client
      ensures executed == [] && told == [] && missed == 0
    {
      this.pool, this.world, this.client, this.turns, this.now := pool, world, client, 0, now;
      this.executed, this.told, this.missed := [], [], 0;
    }

    /** Time passes and other goroutines use the pool; they leave what this request has alone. */
    method Others(w: Option<nat>, ghost l: Option<nat>)
      requires Valid() && Has(w, l)
      modifies this`turns, this`now, pool
      ensures Moved() && Has(w, l) && Spares(old(pool.State()), pool.State(), client)
    {
      turns := turns + 1;
      now := now + world.elapsed(turns);
      PerformAll(pool, world.others(turns), now, world.cancelled(turns), client, w, l);
    }

    /** Time and the run of the pool go on. */
    twostate predicate Moved()
      reads this, pool
    {
      Valid() && old(pool.trace) <= pool.trace && old(now) <= now
    }

    // -------------------------------------------------------------- acquire

    /** Since step `from` the pool turned the request away in a way that means `error`. */
    ghost predicate TurnedAway(from: int, r: Request, n: nat, error: AcquireError)
      reads this, pool
    {
      Witnessed(pool.start, pool.trace, from, now, world, n, r, error)
    }

    /** A reply is a lease in hand that keeps the promise, or a reason and nothing left in the pool. */
    ghost predicate Means(reply: Reply, from: int, r: Request, n: nat)
      reads this, pool
    {
      match reply
      case Leased(lease, key) => Holds(pool.State(), client, lease, key) && KeepsPromise(r, key)
      case NotLeased(error) => Has(None, None) && TurnedAway(from, r, n, error)
    }

    /** The request waits in the pool, and that is all it has there. */
    ghost predicate Waits(w: nat, r: Request)
      reads this, pool
    {
      Has(Some(w), None) && pool.phases[w] == Waiting && pool.asked[w] == r && r.client == client
    }

    /** A key for the request, or why there is none. */
    method Acquire(r: Request, n: nat, ghost since: nat) returns (reply: Reply)
      requires Valid() && Has(None, None) && r.client == client && since <= |pool.trace|
      modifies this`turns, this`now, this`missed, pool
      ensures Moved() && Means(reply, since, r, n)
    {
      Others(None, None);
      var a := Ask(r, n, since);
      match a
      case Immediate(lease) =>
        reply := Leased(lease, pool.leases[lease].key);
      case Rejected(failure) =>
        reply := NotLeased(ErrorOf(failure, world.ctxEnd(n)));
      case Parked(w) =>
        ghost var patient;
        reply, patient := Await(w, r, n, since);
    }

    /** The call of acquire. */
    method Ask(r: Request, n: nat, ghost since: nat) returns (a: Answer)
      requires Valid() && Has(None, None) && r.client == client && since <= |pool.trace|
      modifies pool
      ensures Moved()
      ensures match a
              case Immediate(lease) =>
                Has(None, Some(lease)) && Holds(pool.State(), client, lease, pool.leases[lease].key)
                && KeepsPromise(r, pool.leases[lease].key)
              case Rejected(failure) =>
                Has(None, None) && TurnedAway(since, r, n, ErrorOf(failure, world.ctxEnd(n)))
              case Parked(w) => Waits(w, r)
    {
      a := pool.Acquire(r, world.capacity, world.ctxDone(n), now, world.cancelled(turns));
      AskedKnown(pool.start, pool.trace, pool.State());
      OwnsOutside(pool.start, pool.trace, pool.State(), client,
        if a.Parked? then Some(a.waiter) else None, if a.Immediate? then Some(a.lease) else None);
      if a.Rejected? {
        assert pool.trace[..|pool.trace|] == pool.trace;
        Testify(AtOnce(|pool.trace|, pool.State(), now, a.failure), pool.start, pool.trace, since, now, world, n, r,
          ErrorOf(a.failure, world.ctxEnd(n)));
      }
    }

    /** waitForResult: the waiter takes its answer, or gives up when the timer fires or the context ends, having
        looked into its channel all the time (`patient`) and found nothing. */
    method Await(w: nat, r: Request, n: nat, ghost since: nat) returns (reply: Reply, ghost patient: bool)
      requires Valid() && Waits(w, r) && since <= |pool.trace|
      modifies this`turns, this`now, this`missed, pool
      ensures Moved() && Means(reply, since, r, n)
      ensures if patient then missed == old(missed) + world.patience(n) else Took(pool.trace, |old(pool.trace)|, w)
    {
      for k := 0 to world.patience(n)
        invariant Moved() && Waits(w, r) && missed == old(missed) + k
      {
        var answered;
        answered, reply := Listen(w, r, n, since);
        if answered {
          return reply, false;
        }
      }
      var error := GiveUp(w, r, n, since);
      reply, patient := NotLeased(error), true;
    }

    /** Others go on, and the answer may have come. */
    method Listen(w: nat, r: Request, n: nat, ghost since: nat) returns (answered: bool, reply: Reply)
      requires Valid() && Waits(w, r) && since <= |pool.trace|
      modifies this`turns, this`now, this`missed, pool
      ensures Moved() && missed == old(missed) + if answered then 0 else 1
      ensures if answered then Means(reply, since, r, n) && Took(pool.trace, |old(pool.trace)|, w)
              else Waits(w, r) && w !in pool.results
    {
      Others(Some(w), None);
      answered, reply := w in pool.results, NotLeased(OtherError);
      if answered {
        reply := Collect(w, r, n, since);
        assert pool.trace[|pool.trace| - 1] == PoolModel.Deliver(w);
      } else {
        missed := missed + 1;
      }
    }

    /** The answer is there. */
    method Collect(w: nat, r: Request, n: nat, ghost since: nat) returns (reply: Reply)
      requires Valid() && Waits(w, r) && w in pool.results && since <= |pool.trace|
      modifies pool
      ensures Moved() && Means(reply, since, r, n)
      ensures pool.trace == old(pool.trace) + [PoolModel.Deliver(w)]
    {
      ghost var p := pool.State();
      var out := pool.Receive(w);
      OwnsOutside(pool.start, pool.trace, pool.State(), client, None,
        if out.Granted? then Some(out.lease) else None);
      match out
      case Granted(lease) => reply := Leased(lease, pool.leases[lease].key);
      case Refused(failure) =>
        reply := NotLeased(ErrorOf(failure, world.ctxEnd(n)));
        assert pool.trace[..|old(pool.trace)|] == old(pool.trace);
        Testify(ByAnswer(|old(pool.trace)|, p, w), pool.start, pool.trace, since, now, world, n, r, reply.error);
    }

    /** abandonWaiter: the waiter leaves the queue, or else reads its channel and releases what it finds. */
    method GiveUp(w: nat, r: Request, n: nat, ghost since: nat) returns (error: AcquireError)
      requires Valid() && Waits(w, r) && since <= |pool.trace|
      modifies this`turns, this`now, pool
      ensures Moved() && Has(None, None) && TurnedAway(since, r, n, error)
    {
      Others(Some(w), None);
      var left;
      left, error := Leave(w, r, n, since);
      if !left {
        ReadChannel(w, r, n, since, error);
      }
    }

    /** The locked half. */
    method Leave(w: nat, r: Request, n: nat, ghost since: nat) returns (left: bool, error: AcquireError)
      requires Valid() && Waits(w, r) && since <= |pool.trace|
      modifies pool
      ensures Moved() && TurnedAway(since, r, n, error)
      ensures if left then Has(None, None) else Has(Some(w), None) && pool.phases[w] == Draining
    {
      ghost var p := pool.State();
      left := pool.Abandon(w, now, world.cancelled(turns));
      OwnsOutside(pool.start, pool.trace, pool.State(), client, if left then None else Some(w), None);
      error := if world.timerFires(n) then QueueLimit else ErrorOf(Canceled, world.ctxEnd(n));
      assert pool.trace[..|old(pool.trace)|] == old(pool.trace);
      Testify(ByGivingUp(|old(pool.trace)|, p, w), pool.start, pool.trace, since, now, world, n, r, error);
    }

    /** The unlocked half. */
    method ReadChannel(w: nat, ghost r: Request, ghost n: nat, ghost since: nat, ghost error: AcquireError)
      requires Valid() && Has(Some(w), None) && pool.phases[w] == Draining && TurnedAway(since, r, n, error)
      modifies this`turns, this`now, pool
      ensures Moved() && Has(None, None) && TurnedAway(since, r, n, error)
    {
      Others(Some(w), None);
      var out := Drain(w);
      if out.Granted? {
        GiveBack(out.lease);
      }
      ReasonStays(pool.start, old(pool.trace), since, old(now), world, n, r, error, pool.trace, now);
    }

    method Drain(w: nat) returns (out: Outcome)
      requires Valid() && Has(Some(w), None) && pool.phases[w] == Draining
      modifies pool
      ensures Moved() && Has(None, if out.Granted? then Some(out.lease) else None)
    {
      out := pool.Drain(w);
      OwnsOutside(pool.start, pool.trace, pool.State(), client, None,
        if out.Granted? then Some(out.lease) else None);
    }

    /** Others may come first, then the lease is released. */
    method GiveBack(lease: nat)
      requires Valid() && Has(None, Some(lease))
      modifies this`turns, this`now, pool
      ensures Moved() && Has(None, None) && lease < |pool.leases| && pool.leases[lease].released
    {
      Others(None, Some(lease));
      LetGo(lease);
    }

    method LetGo(lease: nat)
      requires Valid() && Has(None, Some(lease))
      modifies pool
      ensures Moved() && Has(None, None) && lease < |pool.leases| && pool.leases[lease].released
    {
      ghost var was := pool.leases;
      pool.Release(lease, now, world.cancelled(turns));
      assert forall k :: 0 <= k < |was| ==> pool.leases[k] == was[lease := was[lease].(released := true)][k];
      OwnsOutside(pool.start, pool.trace, pool.State(), client, None, None);
    }

    // -------------------------------------------------------------- executeLease

    /** Uses the lease for one upstream call. When the response keeps it, the lease is still held afterwards;
        in every other case it has been released. Its key is told of the outcome in between. */
    method ExecuteLease(lease: nat, key: int, model: int, n: nat) returns (out: LeaseOutcome)
      requires Valid() && Holds(pool.State(), client, lease, key)
      modifies this, pool
      ensures Moved() && out == Judge(world.upstream(n)) && executed == old(executed) + [key]
      ensures told == old(told) + News(world.upstream(n), key, model)
      ensures if out.Served? then Holds(pool.State(), client, lease, key)
              else Has(None, None) && lease < |pool.leases| && pool.leases[lease].released
    {
      Others(None, Some(lease));
      var keepLease;
      out, keepLease := CallUpstream(lease, key, model, n);
      if !keepLease {
        GiveBack(lease);
      }
    }

    /** One upstream call and what the key is told about it; a response that was served keeps the lease. */
    method CallUpstream(lease: nat, key: int, model: int, n: nat) returns (out: LeaseOutcome, keepLease: bool)
      requires Valid() && Holds(pool.State(), client, lease, key)
      modifies this, pool
      ensures Moved() && Holds(pool.State(), client, lease, key) && executed == old(executed) + [key]
      ensures out == Judge(world.upstream(n)) && (keepLease <==> out.Served?)
      ensures told == old(told) + News(world.upstream(n), key, model)
    {
      executed := executed + [key];
      keepLease := false;
      match world.upstream(n) {
        case SecretUnavailable => out := Broken;
        case NoHealthyProxy => out := Faulted(Fault(503, true, false, 0));
        case ProxyTransportFailed => out := Faulted(Fault(502, true, false, 0));
        case ProxyRejected => out := Broken;
        case Answered2xx(mark) =>
          if mark.RequestEnded? {
            out := Faulted(mark.ended);
          } else {
            if mark.Persisted? {
              Tell(lease, key, CallApplySuccess(key));
            }
            keepLease := true;
            out := Served;
          }
        case Failure(fault, mark, verdict) =>
          if mark.NotPersisted? {
            out := Broken;
          } else {
            if mark.Persisted? {
              Tell(lease, key, CallApplyFailure(key, model, verdict.blockModel, verdict.authInvalid,
                verdict.cooldownUntil));
            }
            out := Faulted(fault);
          }
      }
    }

    /** stateSync: the pool hears how the key did, while the lease is still held. */
    method Tell(lease: nat, key: int, call: Call)
      requires Valid() && Holds(pool.State(), client, lease, key)
      requires call.CallApplySuccess? || call.CallApplyFailure?
      modifies this`turns, this`now, this`told, pool
      ensures Moved() && Holds(pool.State(), client, lease, key)
      ensures told == old(told) + [call] && Heard(pool.start, pool.trace, |old(pool.trace)|, call)
    {
      Others(None, Some(lease));
      told := told + [call];
      Deliver(lease, call);
    }

    method Deliver(lease: nat, call: Call)
      requires Valid() && Has(None, Some(lease)) && (call.CallApplySuccess? || call.CallApplyFailure?)
      modifies pool
      ensures Moved() && Has(None, Some(lease)) && pool.leases[lease] == old(pool.leases)[lease]
      ensures forall from :: 0 <= from <= |old(pool.trace)| ==> Heard(pool.start, pool.trace, from, call)
    {
      ghost var before := pool.State();
      ghost var t := pool.trace;
      AskedKnown(pool.start, t, before);
      ghost var mid;
      if call.CallApplySuccess? {
        mid := pool.ApplySuccess(call.id, now, world.cancelled(turns));
      } else {
        mid := pool.ApplyFailure(call.id, call.model, call.blockModel, call.authInvalid, call.cooldownUntil, now,
          world.cancelled(turns));
      }
      RestedSpares(before, mid, pool.State(), now, world.cancelled(turns), client);
      SparesStake(pool.start, pool.trace, before, pool.State(), client, None, Some(lease));
      forall from | 0 <= from <= |t| ensures Heard(pool.start, pool.trace, from, call) {
        HearNow(pool.start, t, before, pool.trace, from, call);
      }
    }

    // -------------------------------------------------------------- Run

    /** The stop conditions after an attempt, in the order of the code. */
    method MayGoOn(ranges: seq<M.Range>, ghost spec: M.Spec, max: nat, n: nat, out: LeaseOutcome) returns (go: bool)
      requires M.Separated(ranges) && M.NonEmpty(ranges) && out == Judge(world.upstream(n))
      requires forall status :: M.Covers(ranges, status) <==> M.Means(Effective(spec), status)
      ensures go <==> GoesOn(world, spec, max, n)
      ensures go ==> n + 1 < max && out.Faulted? && LastFault(world, n + 1) == Some(out.fault)
    {
      if !out.Faulted? {
        return false;
      }
      var retry := Retry(out.fault, ranges, spec);
      if !retry || world.committed(n) || world.expired(n) {
        return false;
      }
      if n + 1 >= max {
        return false;
      }
      if world.pastRetryDeadline(n) {
        return false;
      }
      if (n + 1 > 1 || out.fault.retryAfter > 0) && world.backoffCut(n) {
        return false;
      }
      return true;
    }

    /** One execution with the lease in hand, and what it means for the loop. */
    method Execute(ranges: seq<M.Range>, ghost spec: M.Spec, max: nat, model: int, lease: nat, key: int,
                   tried: seq<int>, attempted: set<int>)
      returns (go: bool, fault: Fault, result: RunResult)
      requires M.Separated(ranges) && M.NonEmpty(ranges)
      requires forall status :: M.Covers(ranges, status) <==> M.Means(Effective(spec), status)
      requires Valid() && Holds(pool.State(), client, lease, key) && key !in attempted
      requires OnCourse(world, spec, max, tried, attempted)
      modifies this, pool
      ensures Moved() && executed == old(executed) + [key]
      ensures told == old(told) + News(world.upstream(|tried|), key, model)
      ensures go ==>
              && OnCourse(world, spec, max, tried + [key], attempted + {key})
              && LastFault(world, |tried| + 1) == Some(fault) && Has(None, None)
      ensures !go ==> Over(world, spec, max, tried + [key], None, result) && Left(result)
    {
      Extend(tried, key);
      var out := ExecuteLease(lease, key, model, |tried|);
      go := MayGoOn(ranges, spec, max, |tried|, out);
      fault := if out.Faulted? then out.fault else Fault(0, false, false, 0);
      result := match out
        case Served => Success(lease, key, |attempted + {key}|)
        case Faulted(f) => FaultError(f)
        case Broken => InternalError;
    }

    /** What is left of the request in the pool: the lease of the last attempt after a success, otherwise
        nothing. */
    ghost predicate Left(result: RunResult)
      reads this, pool
    {
      if result.Success? then Holds(pool.State(), client, result.lease, result.key) else Has(None, None)
    }

    /** A lease of a key that the request has not tried. */
    method NextKey(base: Request, tried: seq<int>, attempted: set<int>, ghost since: nat) returns (reply: Reply)
      requires Valid() && Has(None, None) && base.client == client && attempted == KeySet(tried)
      requires since <= |pool.trace|
      modifies this`turns, this`now, this`missed, pool
      ensures Moved() && Means(reply, since, NextRequest(base, tried), |tried|)
      ensures reply.Leased? ==> reply.key !in attempted
    {
      MarkIsSet(tried);
      reply := Acquire(base.(attempted := attempted, noRelax := attempted != {}), |tried|, since);
    }

    /** There is no key for another attempt. */
    method Stop(ghost spec: M.Spec, ghost max: nat, tried: seq<int>, ghost attempted: set<int>,
                lastFault: Option<Fault>, error: AcquireError) returns (result: RunResult)
      requires Valid() && Has(None, None)
      requires OnCourse(world, spec, max, tried, attempted) && lastFault == LastFault(world, |tried|)
      ensures Over(world, spec, max, tried, Some(error), result) && Left(result)
    {
      if error.QueueLimit? {
        result := AcquireFailed(QueueLimit);
      } else if lastFault.Some? && world.expiredInQueue(|tried|) {
        result := FaultError(lastFault.value);
      } else if error.ClientGone? {
        result := AcquireFailed(ClientGone);
      } else if lastFault.Some? && error.NoKeyLeft? {
        result := FaultError(lastFault.value);
      } else {
        result := AcquireFailed(error);
      }
      EndByPool(world, spec, max, tried, attempted, error, result);
    }

    /** One turn of the loop: a key that was not tried yet and an execution on it, or the reason that there is
        none. */
    method Turn(ranges: seq<M.Range>, ghost spec: M.Spec, max: nat, base: Request, tried: seq<int>,
                attempted: set<int>, lastFault: Option<Fault>, ghost since: nat, ghost earlier: seq<int>,
                ghost heard: seq<Call>)
      returns (go: bool, used: seq<int>, marked: set<int>, fault: Fault, result: RunResult,
               ghost error: Option<AcquireError>)
      requires M.Separated(ranges) && M.NonEmpty(ranges)
      requires forall status :: M.Covers(ranges, status) <==> M.Means(Effective(spec), status)
      requires Valid() && Has(None, None) && base.client == client && since <= |pool.trace|
      requires OnCourse(world, spec, max, tried, attempted) && lastFault == LastFault(world, |tried|)
      requires executed == earlier + tried && told == heard + AllNews(world, base.model, tried)
      modifies this, pool
      ensures Moved() && executed == earlier + used && told == heard + AllNews(world, base.model, used)
      ensures go ==>
              && OnCourse(world, spec, max, used, marked) && Some(fault) == LastFault(world, |used|)
              && Has(None, None) && |used| == |tried| + 1
      ensures !go ==> Over(world, spec, max, used, error, result) && Left(result)
      ensures !go && error.Some? ==> TurnedAway(since, NextRequest(base, used), |used|, error.value)
    {
      var reply := NextKey(base, tried, attempted, since);
      if reply.NotLeased? {
        result := Stop(spec, max, tried, attempted, lastFault, reply.error);
        return false, tried, attempted, Fault(0, false, false, 0), result, Some(reply.error);
      }
      error, used, marked := None, tried + [reply.key], attempted + {reply.key};
      Appended(earlier, tried, reply.key);
      NewsAppended(heard, world, base.model, tried, reply.key);
      go, fault, result := Execute(ranges, spec, max, base.model, reply.lease, reply.key, tried, attempted);
    }

    /** Run. It terminates; it executes on the pairwise different keys `tried` and on no others, at most `max`
        times, each time with a lease of that key in its hands; each further attempt is justified and the result
        is the one owed. The pool is told how each attempt went. An `error` is one that the pool gave to the request
        for the next key. In the end every lease of this client is released and every waiter of it is done, except
        that a successful request still holds exactly the lease of its last attempt. */
    method Run(spec: M.Spec, setting: int, base: Request)
      returns (result: RunResult, tried: seq<int>, ghost error: Option<AcquireError>)
      requires Valid() && Has(None, None) && base.client == client
      modifies this, pool
      ensures Moved() && executed == old(executed) + tried
      ensures told == old(told) + AllNews(world, base.model, tried)
      ensures Over(world, spec, MaxAttempts(setting), tried, error, result)
      ensures error.Some? ==> TurnedAway(|old(pool.trace)|, NextRequest(base, tried), |tried|, error.value)
      ensures Left(result)
    {
      var max: nat := if setting > 0 then setting else DEFAULT_MAX_ATTEMPTS;
      var ranges := BuildMatcher(spec);
      var attempted: set<int> := {};
      var lastFault: Option<Fault> := None;
      tried, result, error := [], InternalError, None;
      var go := true;
      while go
        invariant Moved() && executed == old(executed) + tried
        invariant told == old(told) + AllNews(world, base.model, tried)
        invariant go ==>
          OnCourse(world, spec, max, tried, attempted) && lastFault == LastFault(world, |tried|) && Has(None, None)
        invariant !go ==> Over(world, spec, max, tried, error, result) && Left(result)
        invariant !go && error.Some? ==>
          TurnedAway(|old(pool.trace)|, NextRequest(base, tried), |tried|, error.value)
        decreases if go then max - |tried| + 1 else 0
      {
        var fault;
        go, tried, attempted, fault, result, error :=
          Turn(ranges, spec, max, base, tried, attempted, lastFault, |old(pool.trace)|, old(executed),
            old(told));
        lastFault := Some(fault);
      }
    }
  }

  lemma NewsAppended(heard: seq<Call>, w: World, model: int, tried: seq<int>, key: int)
    ensures heard + AllNews(w, model, tried + [key])
            == heard + AllNews(w, model, tried) + News(w.upstream(|tried|), key, model)
  {
    assert (tried + [key])[..|tried|] == tried;
  }

  lemma Appended(a: seq<int>, b: seq<int>, k: int)
    ensures a + b + [k] == a + (b + [k]) && |b + [k]| == |b| + 1
  {}

  lemma EndByPool(w: World, spec: M.Spec, max: nat, tried: seq<int>, attempted: set<int>, e: AcquireError,
                  result: RunResult)
    requires OnCourse(w, spec, max, tried, attempted)
    requires Reported(e, LastFault(w, |tried|), w.expiredInQueue(|tried|), result)
    ensures Over(w, spec, max, tried, Some(e), result) && !result.Success?
  {}
}
