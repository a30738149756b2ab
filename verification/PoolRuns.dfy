/** Properties of whole runs of the scheduler: the rate limit, round-robin fairness and the
    promise that failover relies on. */
module PoolRuns {
  import opened Basics
  import opened RequestWindow
  import opened KeyOrder
  import opened PoolModel
  import opened PoolConservation

  // ---------------------------------------------------------------- rate limit over runs

  ghost function GrantedObj(p: Pool, e: Event): nat
    requires Wf(p) && Fires(p, e) && e.Grant?
  {
    ObjAt(p, Pos(p, e.offset))
  }

  /** The times at which the event grants object `o`. */
  ghost function GrantNow(p: Pool, e: Event, o: nat): seq<int>
    requires Wf(p) && Fires(p, e)
  {
    if e.Grant? && GrantedObj(p, e) == o then [e.now] else []
  }

  /** The full grant history of object `o` in a run. */
  ghost function GrantTimes(p: Pool, es: seq<Event>, o: nat): seq<int>
    requires Legal(p, es)
    decreases |es|
  {
    if es == [] then [] else GrantNow(p, es[0], o) + GrantTimes(Next(p, es[0]), es[1..], o)
  }

  /** `hist` holds, for every object, the grants made so far. */
  ghost predicate AllTrack(p: Pool, hist: seq<seq<int>>) {
    && |hist| == |p.objs|
    && forall o {:trigger hist[o]} {:trigger p.objs[o]} :: 0 <= o < |p.objs| ==>
      Tracks(p.objs[o].times, hist[o], p.clock)
  }

  ghost function Past(hist: seq<seq<int>>, o: nat): seq<int> {
    if o < |hist| then hist[o] else []
  }

  ghost function Extend(p: Pool, e: Event, hist: seq<seq<int>>): (h: seq<seq<int>>)
    requires Wf(p) && Fires(p, e) && |hist| == |p.objs|
    ensures |h| == |Next(p, e).objs|
    ensures forall o :: 0 <= o < |h| ==> h[o] == Past(hist, o) + GrantNow(p, e, o)
  {
    seq(|Next(p, e).objs|, o requires o >= 0 => Past(hist, o) + GrantNow(p, e, o))
  }

  lemma PastExtend(p: Pool, e: Event, hist: seq<seq<int>>, o: nat)
    requires Wf(p) && Fires(p, e) && |hist| == |p.objs|
    ensures Past(Extend(p, e, hist), o) == Past(hist, o) + GrantNow(p, e, o)
  {
    ClockMoves(p, e);
  }

  lemma ClockMoves(p: Pool, e: Event)
    requires Wf(p) && Fires(p, e)
    ensures Next(p, e).clock == if Timed(e) then e.now else p.clock
    ensures p.clock <= Next(p, e).clock
    ensures |p.objs| <= |Next(p, e).objs|
  {}

  lemma TimesAfterGrant(p: Pool, e: Event, o: nat)
    requires Wf(p) && Fires(p, e) && o < |p.objs| && e.Grant?
    ensures var was, left := p.objs[o].times, Next(p, e).objs[o].times;
            if GrantedObj(p, e) == o then left == Kept(was, e.now) + [e.now] && RetryAfter(was, e.now) == 0
              else left == was
  {}

  lemma TimesAside(p: Pool, e: Event, o: nat)
    requires Wf(p) && Fires(p, e) && o < |p.objs| && !e.Sweep? && !e.Grant?
    ensures Next(p, e).objs[o].times == p.objs[o].times
  {}

  /** What an event does to the grant times of one object. */
  lemma TimesAfter(p: Pool, e: Event, o: nat)
    requires Wf(p) && Fires(p, e) && o < |p.objs|
    ensures var was, left := p.objs[o].times, Next(p, e).objs[o].times;
            if e.Sweep? then left == was || left == Kept(was, e.now)
            else if e.Grant? && GrantedObj(p, e) == o
              then left == Kept(was, e.now) + [e.now] && RetryAfter(was, e.now) == 0
            else left == was
  {
    if e.Grant? {
      TimesAfterGrant(p, e, o);
    } else if !e.Sweep? {
      TimesAside(p, e, o);
    }
  }

  lemma OldObjects(p: Pool, e: Event)
    requires Wf(p) && Fires(p, e) && !e.AddKey? && !e.Load?
    ensures |Next(p, e).objs| == |p.objs|
  {}

  lemma NewObjectIsIdle(p: Pool, e: Event, o: nat)
    requires Wf(p) && Fires(p, e) && |p.objs| <= o < |Next(p, e).objs|
    ensures Idle(Next(p, e).objs[o]) && !e.Grant?
  {
    if !e.AddKey? && !e.Load? {
      OldObjects(p, e);
    }
  }

  lemma TracksAfter(p: Pool, e: Event, hist: seq<seq<int>>)
    requires Wf(p) && Fires(p, e) && AllTrack(p, hist)
    ensures AllTrack(Next(p, e), Extend(p, e, hist))
  {
    var q, h := Next(p, e), Extend(p, e, hist);
    ClockMoves(p, e);
    forall o {:trigger h[o]} {:trigger q.objs[o]} | 0 <= o < |q.objs| ensures Tracks(q.objs[o].times, h[o], q.clock) {
      if o < |p.objs| {
        assert Tracks(p.objs[o].times, hist[o], p.clock);
        TimesAfter(p, e, o);
        if e.Sweep? {
          PruneTracks(p.objs[o].times, hist[o], p.clock, e.now);
          TracksLater(p.objs[o].times, hist[o], p.clock, e.now);
          assert hist[o] + [] == hist[o];
        } else if e.Grant? && GrantedObj(p, e) == o {
          GrantTracks(p.objs[o].times, hist[o], p.clock, e.now);
        } else {
          TracksLater(p.objs[o].times, hist[o], p.clock, q.clock);
          assert hist[o] + [] == hist[o];
        }
      } else {
        NewObjectIsIdle(p, e, o);
        assert h[o] == [];
      }
    }
  }

  lemma {:induction false} RunTracksFrom(p: Pool, es: seq<Event>, hist: seq<seq<int>>, o: nat)
    requires Legal(p, es) && AllTrack(p, hist) && o < |After(p, es).objs|
    ensures Tracks(After(p, es).objs[o].times, Past(hist, o) + GrantTimes(p, es, o), After(p, es).clock)
    decreases |es|
  {
    if es == [] {
      assert hist[o] + [] == hist[o];
    } else {
      var e, rest := es[0], es[1..];
      TracksAfter(p, e, hist);
      RunTracksFrom(Next(p, e), rest, Extend(p, e, hist), o);
      PastExtend(p, e, hist, o);
      Regroup(Past(hist, o), GrantNow(p, e, o), GrantTimes(Next(p, e), rest, o));
    }
  }

  lemma Regroup(a: seq<int>, b: seq<int>, c: seq<int>)
    ensures (a + b) + c == a + (b + c)
  {}

  /** Sliding-window refinement over every run: for every key object ever created, the pruned list
      answers each question at any time `t` from the run's clock on exactly as its full grant
      history does, and no window of one minute, anywhere, holds more than LIMIT of its grants. */
  lemma RateLimitHolds(start: int, es: seq<Event>, o: nat, t: int)
    requires Legal(Fresh(start), es) && o < |After(Fresh(start), es).objs|
    ensures var p, grants := After(Fresh(start), es), GrantTimes(Fresh(start), es, o);
            && |InWindow(grants, t)| <= LIMIT
            && (p.clock <= t ==> Kept(p.objs[o].times, t) == Kept(grants, t))
            && (p.clock <= t ==> RetryAfter(p.objs[o].times, t) == RetryAfter(grants, t))
  {
    var p, grants := After(Fresh(start), es), GrantTimes(Fresh(start), es, o);
    RunTracksFrom(Fresh(start), es, [], o);
    assert [] + grants == grants;
    WindowBound(grants, t);
    if p.clock <= t {
      TracksAnswers(p.objs[o].times, grants, p.clock, t);
    }
  }

  // ---------------------------------------------------------------- round robin

  /** No key comes or goes and every grant is a round-robin one. */
  predicate Steady(es: seq<Event>) {
    forall i :: 0 <= i < |es| ==>
      && !es[i].AddKey? && !es[i].DropKey? && !es[i].Load?
      && (es[i].Grant? ==> !es[i].req.latency)
  }

  /** At every grant of the run the key at position `k` was open for that request. */
  ghost predicate AlwaysOpen(p: Pool, es: seq<Event>, k: nat)
    requires Legal(p, es) && Steady(es) && k < |p.order|
    decreases |es|
  {
    es == [] || (
      var e := es[0];
      && (e.Grant? ==> Classes(p, e.req, e.now, e.relaxed)[Distance(p, k)] == Open)
      && (SteadyStep(p, es); AlwaysOpen(Next(p, e), es[1..], k)))
  }

  ghost predicate NeverGranted(p: Pool, es: seq<Event>, k: nat)
    requires Legal(p, es)
    decreases |es|
  {
    es == [] || (
      && (es[0].Grant? ==> Pos(p, es[0].offset) != k)
      && NeverGranted(Next(p, es[0]), es[1..], k))
  }

  function Grants(es: seq<Event>): nat {
    if es == [] then 0 else (if es[0].Grant? then 1 else 0) + Grants(es[1..])
  }

  lemma SteadyStep(p: Pool, es: seq<Event>)
    requires Legal(p, es) && Steady(es) && es != []
    ensures Next(p, es[0]).order == p.order && Steady(es[1..])
    ensures !es[0].Grant? ==> Next(p, es[0]).cursor == p.cursor
    ensures es[0].Grant? ==> Next(p, es[0]).cursor == Advance(p, Pos(p, es[0].offset))
  {
    SteadyEvent(p, es[0]);
  }

  lemma SteadyEvent(p: Pool, e: Event)
    requires Wf(p) && Fires(p, e) && !e.AddKey? && !e.DropKey? && !e.Load?
    ensures Next(p, e).order == p.order
    ensures Next(p, e).cursor == if e.Grant? then Advance(p, Pos(p, e.offset)) else p.cursor
  {
    if ObjectsStay(e) {
      QuietTables(p, e);
    }
  }

  /** A grant that passes over nobody open moves the cursor towards `k` but not past it. */
  lemma DistanceShrinks(p: Pool, q: Pool, d: nat, k: nat)
    requires p.cursor < |p.order| && q.order == p.order && q.cursor < |q.order|
    requires k < |p.order| && d < Distance(p, k)
    requires q.cursor == Advance(p, Pos(p, d))
    ensures Distance(q, k) == Distance(p, k) - d - 1
  {}

  /** Bounded overtaking: a key that is open at every grant waits for at most as many grants as
      the cursor has steps to go to it, hence for at most n - 1. */
  lemma {:induction false} BoundedOvertaking(p: Pool, es: seq<Event>, k: nat)
    requires Legal(p, es) && Steady(es) && k < |p.order|
    requires AlwaysOpen(p, es, k) && NeverGranted(p, es, k)
    ensures Grants(es) <= Distance(p, k) <= |p.order| - 1
    decreases |es|
  {
    if es != [] {
      var e, q := es[0], Next(p, es[0]);
      SteadyStep(p, es);
      assert Wf(q);
      BoundedOvertaking(q, es[1..], k);
      if e.Grant? {
        OpenNotPassed(p, e, k);
        DistanceShrinks(p, q, e.offset, k);
      }
    }
  }

  lemma OpenNotPassed(p: Pool, e: Event, k: nat)
    requires Wf(p) && Fires(p, e) && e.Grant? && !e.req.latency && k < |p.order|
    requires Classes(p, e.req, e.now, e.relaxed)[Distance(p, k)] == Open
    ensures e.offset <= Distance(p, k)
    ensures Pos(p, e.offset) != k ==> e.offset < Distance(p, k)
  {
    assert FirstOpen(p, e.req, e.now, e.relaxed, e.offset);
  }

  /** Along a run that never grants an always-open `k`, the cursor stays on the near side of `k`,
      so a position `j` beyond `k` stays beyond it. */
  lemma {:induction false} StaysBeyond(p: Pool, es: seq<Event>, j: nat, k: nat)
    requires Legal(p, es) && Steady(es) && k < |p.order| && j < |p.order|
    requires AlwaysOpen(p, es, k) && NeverGranted(p, es, k)
    requires Distance(p, k) < Distance(p, j)
    ensures After(p, es).order == p.order
    ensures Distance(After(p, es), k) < Distance(After(p, es), j)
    decreases |es|
  {
    if es != [] {
      var e, q := es[0], Next(p, es[0]);
      SteadyStep(p, es);
      assert Wf(q);
      if e.Grant? {
        OpenNotPassed(p, e, k);
        DistanceShrinks(p, q, e.offset, k);
        DistanceShrinks(p, q, e.offset, j);
      }
      StaysBeyond(q, es[1..], j, k);
    }
  }

  /** Between two grants to position `j`, every other key that was open at each grant after the
      first one is granted too: in such a run it cannot have been passed over. */
  lemma NoDoubleTurn(p: Pool, first: Event, mid: seq<Event>, last: Event, k: nat)
    requires Wf(p) && Fires(p, first) && first.Grant?
    requires Legal(Next(p, first), mid) && Steady(mid) && Next(p, first).order == p.order
    requires var q := After(Next(p, first), mid); Fires(q, last) && last.Grant? && !last.req.latency
    requires k < |p.order| && k != Pos(p, first.offset)
    requires AlwaysOpen(Next(p, first), mid, k)
    requires var q := After(Next(p, first), mid);
             q.order == p.order && Pos(q, last.offset) == Pos(p, first.offset)
             && Classes(q, last.req, last.now, last.relaxed)[Distance(q, k)] == Open
    ensures !NeverGranted(Next(p, first), mid, k)
  {
    var j := Pos(p, first.offset);
    var after := Next(p, first);
    if NeverGranted(after, mid, k) {
      assert after.cursor == Advance(p, j);
      StaysBeyond(after, mid, j, k);
      var q := After(after, mid);
      OpenNotPassed(q, last, k);
      assert false;
    }
  }

  // ---------------------------------------------------------------- the failover promise

  /** A pool with one key. */
  function OneKey(key: Key, queue: seq<Waiter>, leases: seq<Lease>, asked: seq<Request>): Pool {
    Pool([key], map[1 := 0], map[], [1], 0, queue, false, leases, map[], seq(|asked|, _ => Waiting), asked, 0)
  }

  lemma OneKeyClasses(p: Pool, r: Request, relaxed: bool)
    requires |p.objs| == 1 && p.objs[0].id == 1 && p.order == [1] && p.cursor == 0 && p.keys == map[1 := 0]
    ensures Wf(p) && Classes(p, r, 0, relaxed) == [Classify(p.objs[0], r, 0, relaxed)]
  {}

  const KEY: Key := Key(1, true, false, None, {}, false, 0, [])
  const FIRST: Request := Request(7, {}, false, 2, false, false, 0)
  const RETRY: Request := FIRST.(attempted := {1})
  const LEASE: Lease := Lease(0, 1, false, WithCaller, false, 0)

  function Leased(): Pool { OneKey(Occupy(KEY, false, 0), [], [LEASE], []) }
  function Waiting1(): Pool { OneKey(Occupy(KEY, false, 0), [Waiter(0, RETRY)], [LEASE], [RETRY]) }
  function Freed(): Pool { OneKey(Occupy(KEY, false, 0).(busy := false), [Waiter(0, RETRY)],
                 [LEASE.(released := true)], [RETRY]) }

  lemma KeyIsAdded(p: Pool)
    requires p == Fresh(0)
    ensures Fires(p, AddKey(KEY)) && Next(p, AddKey(KEY)) == OneKey(KEY, [], [], [])
  {
    assert Insert([], 1) == [1];
  }

  lemma KeyIsLeased(p: Pool, e: Event)
    requires p == OneKey(KEY, [], [], []) && e == Grant(0, FIRST, false, ToCaller, 0)
    ensures Wf(p) && Fires(p, e) && Next(p, e) == Leased()
  {
    OneKeyClasses(p, FIRST, false);
  }

  lemma RetryWaits(p: Pool)
    requires p == Leased()
    ensures Wf(p) && Fires(p, Enqueue(RETRY, 1)) && Next(p, Enqueue(RETRY, 1)) == Waiting1()
  {
    OneKeyClasses(p, RETRY, false);
  }

  lemma KeyIsFreed(p: Pool)
    requires p == Waiting1()
    ensures Wf(p) && Fires(p, Release(0)) && Next(p, Release(0)) == Freed()
  {
    OneKeyClasses(p, RETRY, false);
  }

  lemma KeyIsReused(p: Pool, e: Event)
    requires p == Freed() && e == Grant(0, RETRY, true, ToHead, 0)
    ensures Wf(p) && Fires(p, e) && p.order[Pos(p, 0)] in RETRY.attempted
  {
    OneKeyClasses(p, RETRY, false);
    OneKeyClasses(p, RETRY, true);
    assert p.objs[0].times == [0] && [0][1..] == [];
    assert Kept([0], 0) == [0];
    assert Classify(p.objs[0], RETRY, 0, true) == Open && Classify(p.objs[0], RETRY, 0, false) == Tried;
  }

  /** Without the mark a key that was tried can come back, as the relaxed pass intends: the only key is leased,
      its user retries and waits, and when the lease is released the waiting retry gets the same key again. */
  lemma RelaxedPassReusesKey() returns (es: seq<Event>, e: Event)
    ensures Legal(Fresh(0), es)
    ensures Fires(After(Fresh(0), es), e) && e.Grant? && !e.req.noRelax
    ensures var p := After(Fresh(0), es); p.order[Pos(p, e.offset)] in e.req.attempted
  {
    StartRun(0);
    KeyIsAdded(Fresh(0));
    GrowRun(0, [], Fresh(0), AddKey(KEY));
    es := [] + [AddKey(KEY)];
    var first := Grant(0, FIRST, false, ToCaller, 0);
    KeyIsLeased(OneKey(KEY, [], [], []), first);
    GrowRun(0, es, OneKey(KEY, [], [], []), first);
    es := es + [first];
    RetryWaits(Leased());
    GrowRun(0, es, Leased(), Enqueue(RETRY, 1));
    es := es + [Enqueue(RETRY, 1)];
    KeyIsFreed(Waiting1());
    GrowRun(0, es, Waiting1(), Release(0));
    es := es + [Release(0)];
    e := Grant(0, RETRY, true, ToHead, 0);
    KeyIsReused(Freed(), e);
    OpenRun(0, es, Freed());
  }
}
