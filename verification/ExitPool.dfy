/** The exit pool of internal/xkproxy/pool.go: a growable array of exits that every operation edits
    in place, and the quarantine map. Each method is proved to make the step of ExitRuns. */
module ExitPool {
  import opened Basics
  import opened ExitModel
  import R = ExitRuns

  datatype Outcome = Counted | Ejected | Removed

  const BLANK: Exit := Exit("", "", "", "", None, None, 0, 0, None, 0, 0, None, None, 0)

  /** Slots `from` up to `to` hold the exits of `ts` at the same positions. */
  ghost predicate Holds(buf: array<Exit>, ts: seq<Tracked>, from: int, to: int)
    requires 0 <= from && to <= buf.Length
    reads buf
  {
    to <= |ts| && forall i :: from <= i < to ==> buf[i] == ts[i].e
  }

  /** How many exits of `after` expire later than those of `before` in the same place. */
  ghost function Extensions(before: seq<Tracked>, after: seq<Tracked>): nat
    requires |before| == |after|
  {
    if before == [] then 0
    else
      var n := |before| - 1;
      Extensions(before[..n], after[..n]) + if after[n].e.expiresAt > before[n].e.expiresAt then 1 else 0
  }

  lemma ExtensionsStep(before: seq<Tracked>, after: seq<Tracked>, i: nat)
    requires i < |before| == |after|
    ensures Extensions(before[..i + 1], after[..i + 1])
            == Extensions(before[..i], after[..i]) + if after[i].e.expiresAt > before[i].e.expiresAt then 1 else 0
  {
    assert before[..i + 1][..i] == before[..i] && after[..i + 1][..i] == after[..i];
  }

  method ExtendOne(e: Exit, ghost h: seq<Mark>, now: int, grace: int, maxLifetime: int) returns (out: Exit)
    ensures GraceOne(Tracked(e, h), now, grace, maxLifetime) == Tracked(out, h)
  {
    if !LiveAt(e, now) || e.validatedAt.None? { return e; }
    var candidate := e.expiresAt + grace;
    if candidate > e.validatedAt.value + maxLifetime { candidate := e.validatedAt.value + maxLifetime; }
    out := if candidate > e.expiresAt then e.(expiresAt := candidate) else e;
  }

  /** Some matching exit is removed by the report, or else some is isolated. */
  ghost function Verdict(ts: seq<Tracked>, identity: string, report: Report, now: int, policy: Policy,
                         canEject: bool): Outcome {
    if exists i :: 0 <= i < |ts| && Matches(ts[i].e, identity) && Treat(ts[i], report, now, policy, canEject).Leaves?
      then Removed
    else if exists i ::
      0 <= i < |ts| && Matches(ts[i].e, identity) && Treat(ts[i], report, now, policy, canEject).isolated then Ejected
    else Counted
  }

  /** What the outcome of a report says about the exits `left` of the exits `found`: some are gone; or some matching
      one is isolated now; or all are there, with their isolations as they were. */
  ghost predicate OutcomeTells(found: seq<Tracked>, left: seq<Tracked>, identity: string, now: int, outcome: Outcome) {
    && (outcome.Removed? <==> |left| < |found|)
    && (outcome.Ejected? ==> exists i :: 0 <= i < |left| && Matches(left[i].e, identity) && EjectedAt(left[i].e, now))
    && (outcome.Counted? ==>
          |left| == |found| && forall i :: 0 <= i < |left| ==> left[i].e.ejectedUntil == found[i].e.ejectedUntil)
  }

  /** No exit counts less than zero isolations, as none does in a run. */
  ghost predicate NoDebt(ts: seq<Tracked>) {
    forall i :: 0 <= i < |ts| ==> ts[i].e.ejections >= 0
  }

  lemma VerdictTold(ts: seq<Tracked>, identity: string, report: Report, now: int, policy: Policy, canEject: bool)
    requires Normal(policy)
    ensures NoDebt(ts) ==> OutcomeTells(ts, Sieve(ts, identity, report, now, policy, canEject), identity, now,
              Verdict(ts, identity, report, now, policy, canEject))
  {
    if NoDebt(ts) {
      VerdictTells(ts, identity, report, now, policy, canEject);
    }
  }

  lemma OutcomeSnoc(found: seq<Tracked>, left: seq<Tracked>, t: Tracked, identity: string, report: Report, now: int,
                    policy: Policy, canEject: bool, before: Outcome)
    requires OutcomeTells(found, left, identity, now, before) && |left| <= |found|
    requires Normal(policy) && t.e.ejections >= 0
    ensures OutcomeTells(found + [t], Sifted(left, t, identity, report, now, policy, canEject), identity, now,
              Worst(before, t, identity, report, now, policy, canEject))
    ensures |Sifted(left, t, identity, report, now, policy, canEject)| <= |found| + 1
  {
    var after := Sifted(left, t, identity, report, now, policy, canEject);
    if before.Ejected? {
      var i :| 0 <= i < |left| && Matches(left[i].e, identity) && EjectedAt(left[i].e, now);
      assert after[i] == left[i];
    }
    if Matches(t.e, identity) {
      var fate := Treat(t, report, now, policy, canEject);
      if fate.Stays? {
        assert after[|left|] == fate.t;
        if fate.isolated {
          IsolatedNow(t, report, now, policy, canEject);
        }
      }
    }
  }

  lemma IsolatedNow(t: Tracked, report: Report, now: int, policy: Policy, canEject: bool)
    requires Normal(policy) && t.e.ejections >= 0
    requires var fate := Treat(t, report, now, policy, canEject); fate.Stays? && fate.isolated
    ensures var u := Treat(t, report, now, policy, canEject).t;
            EjectedAt(u.e, now) && u.e.address == t.e.address && KeyOf(u.e) == KeyOf(t.e)
  {
    var n := t.e.ejections + 1;
    assert policy.baseDuration * n >= policy.baseDuration by {
      assert policy.baseDuration * n == policy.baseDuration * (n - 1) + policy.baseDuration;
    }
  }

  lemma SieveSnoc(ts: seq<Tracked>, identity: string, report: Report, now: int, policy: Policy, canEject: bool)
    requires ts != []
    ensures Sieve(ts, identity, report, now, policy, canEject)
            == Sifted(Sieve(ts[..|ts| - 1], identity, report, now, policy, canEject), ts[|ts| - 1], identity, report,
              now, policy, canEject)
  {}

  lemma {:induction false} VerdictTells(ts: seq<Tracked>, identity: string, report: Report, now: int, policy: Policy,
                                        canEject: bool)
    requires Normal(policy) && NoDebt(ts)
    ensures var left := Sieve(ts, identity, report, now, policy, canEject);
            && |left| <= |ts|
            && OutcomeTells(ts, left, identity, now, Verdict(ts, identity, report, now, policy, canEject))
  {
    if ts != [] {
      var front, last := ts[..|ts| - 1], ts[|ts| - 1];
      VerdictTells(front, identity, report, now, policy, canEject);
      VerdictSnoc(front, last, identity, report, now, policy, canEject);
      OutcomeSnoc(front, Sieve(front, identity, report, now, policy, canEject), last, identity, report, now, policy,
        canEject, Verdict(front, identity, report, now, policy, canEject));
      SieveSnoc(ts, identity, report, now, policy, canEject);
      assert ts == front + [last];
    }
  }

  ghost function Sifted(done: seq<Tracked>, t: Tracked, identity: string, report: Report, now: int, policy: Policy,
                        canEject: bool): seq<Tracked> {
    if !Matches(t.e, identity) then done + [t]
    else match Treat(t, report, now, policy, canEject) case Stays(u, _) => done + [u] case Leaves => done
  }

  ghost function Barring(removed: map<string, int>, t: Tracked, identity: string, report: Report, now: int,
                         policy: Policy, canEject: bool): map<string, int> {
    if Matches(t.e, identity) && Treat(t, report, now, policy, canEject).Leaves?
      then removed[KeyOf(t.e) := now + REMOVAL_COOLDOWN] else removed
  }

  ghost function Worst(before: Outcome, t: Tracked, identity: string, report: Report, now: int, policy: Policy,
                       canEject: bool): Outcome {
    if !Matches(t.e, identity) then before
    else match Treat(t, report, now, policy, canEject)
      case Leaves => Removed
      case Stays(_, isolated) => if isolated && !before.Removed? then Ejected else before
  }

  lemma VerdictSnoc(ts: seq<Tracked>, t: Tracked, identity: string, report: Report, now: int, policy: Policy,
                    canEject: bool)
    ensures Verdict(ts + [t], identity, report, now, policy, canEject)
            == Worst(Verdict(ts, identity, report, now, policy, canEject), t, identity, report, now, policy, canEject)
  {
    var all := ts + [t];
    assert all[|ts|] == t;
    assert forall i :: 0 <= i < |ts| ==> all[i] == ts[i];
  }

  lemma LiveStep(ts: seq<Tracked>, i: nat, now: int)
    requires i < |ts|
    ensures Live(ts[..i + 1], now) == if LiveAt(ts[i].e, now) then Live(ts[..i], now) + [ts[i]] else Live(ts[..i], now)
  {
    assert ts[..i + 1][..i] == ts[..i];
  }

  ghost function Spared(done: seq<Tracked>, t: Tracked, identity: string): seq<Tracked> {
    if Matches(t.e, identity) then done else done + [t]
  }

  lemma WithoutStep(ts: seq<Tracked>, i: nat, identity: string)
    requires i < |ts|
    ensures R.Without(ts[..i + 1], identity) == Spared(R.Without(ts[..i], identity), ts[i], identity)
  {
    assert ts[..i + 1][..i] == ts[..i];
  }

  /** One transport failure on one exit: the new exit, and whether it is isolated or must leave. */
  method CountTransport(e: Exit, now: int, policy: Policy) returns (out: Exit, what: Outcome)
    ensures KeyOf(out) == KeyOf(e)
    ensures forall h, canEject :: var fate := Treat(Tracked(e, h), Transport, now, policy, canEject);
              && (what.Removed? <==> fate.Leaves?)
              && (!what.Removed? ==> fate == Stays(Tracked(out, h), what.Ejected?))
  {
    out := e.(healthFails := e.healthFails + 1);
    if out.healthFails < policy.failureLimit { return out, Counted; }
    out := out.(ejections := out.ejections + 1);
    if out.ejections > policy.maxEjections { return out, Removed; }
    out := out.(healthFails := 0, ejectedUntil := Some(now + EjectionWindow(policy, out.ejections)));
    what := Ejected;
  }

  /** One HTTP failure on one exit. */
  method CountHttp(e: Exit, now: int, policy: Policy, canEject: bool) returns (out: Exit, what: Outcome)
    ensures KeyOf(out) == KeyOf(e)
    ensures forall h :: var fate := Treat(Tracked(e, h), Http, now, policy, canEject);
              && (what.Removed? <==> fate.Leaves?)
              && (!what.Removed? ==> fate.Stays? && fate.t.e == out && fate.isolated == what.Ejected?)
  {
    var previous := e.lastHttpFailureAt;
    out := e.(lastHttpFailureAt := Some(now));
    if out.httpFails < policy.httpFailureLimit { out := out.(httpFails := out.httpFails + 1); }
    if previous.Some? && now - previous.value > HTTP_WINDOW { out := out.(httpFails := 1); }
    if !canEject || out.httpFails < policy.httpFailureLimit { return out, Counted; }
    out := out.(ejections := out.ejections + 1);
    if out.ejections > policy.maxEjections { return out, Removed; }
    out := out.(httpFails := 0, ejectedUntil := Some(now + EjectionWindow(policy, out.ejections)));
    what := Ejected;
  }

  method CountFailureOf(e: Exit, ghost h: seq<Mark>, report: Report, now: int, policy: Policy, canEject: bool)
    returns (out: Exit, what: Outcome)
    ensures var fate := Treat(Tracked(e, h), report, now, policy, canEject);
            && KeyOf(out) == KeyOf(e)
            && (what.Removed? <==> fate.Leaves?)
            && (!what.Removed? ==> fate.Stays? && fate.t.e == out && fate.isolated == what.Ejected?)
  {
    match report
    case Transport => out, what := CountTransport(e, now, policy);
    case Http => out, what := CountHttp(e, now, policy, canEject);
  }

  /** One more exit sifted. */
  lemma SieveStep(ts: seq<Tracked>, i: nat, removed: map<string, int>, identity: string, report: Report, now: int,
                  policy: Policy, canEject: bool)
    requires i < |ts|
    ensures Sieve(ts[..i + 1], identity, report, now, policy, canEject)
            == Sifted(Sieve(ts[..i], identity, report, now, policy, canEject), ts[i], identity, report, now, policy,
              canEject)
    ensures Quarantined(ts[..i + 1], removed, identity, report, now, policy, canEject)
            == Barring(Quarantined(ts[..i], removed, identity, report, now, policy, canEject), ts[i], identity, report,
              now, policy, canEject)
    ensures Verdict(ts[..i + 1], identity, report, now, policy, canEject)
            == Worst(Verdict(ts[..i], identity, report, now, policy, canEject), ts[i], identity, report, now, policy,
              canEject)
  {
    assert ts[..i + 1][..i] == ts[..i];
    assert ts[..i + 1] == ts[..i] + [ts[i]];
    VerdictSnoc(ts[..i], ts[i], identity, report, now, policy, canEject);
  }

  /** The report has been applied to the first `i` exits. */
  ghost predicate SiftedTo(ts: seq<Tracked>, i: nat, before: map<string, int>, identity: string, report: Report,
                           now: int, policy: Policy, canEject: bool, left: seq<Tracked>, removed: map<string, int>,
                           outcome: Outcome)
    requires i <= |ts|
  {
    && left == Sieve(ts[..i], identity, report, now, policy, canEject)
    && removed == Quarantined(ts[..i], before, identity, report, now, policy, canEject)
    && outcome == Verdict(ts[..i], identity, report, now, policy, canEject)
  }

  lemma SiftNext(ts: seq<Tracked>, i: nat, before: map<string, int>, identity: string, report: Report, now: int,
                 policy: Policy, canEject: bool, left: seq<Tracked>, removed: map<string, int>, outcome: Outcome)
    requires i < |ts|
    requires SiftedTo(ts, i, before, identity, report, now, policy, canEject, left, removed, outcome)
    ensures SiftedTo(ts, i + 1, before, identity, report, now, policy, canEject,
              Sifted(left, ts[i], identity, report, now, policy, canEject),
              Barring(removed, ts[i], identity, report, now, policy, canEject),
              Worst(outcome, ts[i], identity, report, now, policy, canEject))
  {
    SieveStep(ts, i, before, identity, report, now, policy, canEject);
  }

  lemma SiftDone(ts: seq<Tracked>, before: map<string, int>, identity: string, report: Report, now: int,
                 policy: Policy, canEject: bool, left: seq<Tracked>, removed: map<string, int>, outcome: Outcome)
    requires SiftedTo(ts, |ts|, before, identity, report, now, policy, canEject, left, removed, outcome)
    ensures left == Sieve(ts, identity, report, now, policy, canEject)
    ensures removed == Quarantined(ts, before, identity, report, now, policy, canEject)
    ensures outcome == Verdict(ts, identity, report, now, policy, canEject)
  {
    assert ts[..|ts|] == ts;
  }

  lemma {:induction false} IndexInRange(ts: seq<Tracked>)
    ensures forall k :: k in IndexOf(ts) ==> IndexOf(ts)[k] < |ts|
  {
    if ts != [] {
      IndexInRange(ts[..|ts| - 1]);
    }
  }

  class Pool {
    var buf: array<Exit>
    var size: nat
    var removed: map<string, int>
    var lastOverloadAt: Option<int>
    /** The exits together with the histories behind their counters. */
    ghost var tracked: seq<Tracked>

    ghost predicate Valid()
      reads this, buf
    {
      size == |tracked| <= buf.Length && Holds(buf, tracked, 0, size)
    }

    /** The step-machine state at a clock reading. */
    ghost function At(clock: int): R.Pool
      reads this
    {
      R.Pool(tracked, removed, clock)
    }

    constructor ()
      ensures Valid() && fresh(buf) && tracked == [] && removed == map[] && lastOverloadAt.None?
      ensures forall cfg: R.Config, now: int :: Normal(cfg.policy) ==> R.Good(At(now), cfg)
    {
      buf := new Exit[0];
      size := 0;
      removed := map[];
      lastOverloadAt := None;
      tracked := [];
    }

    /** Drops the tail of the slice, blanking what it held. */
    method Truncate(kept: nat, ghost ts: seq<Tracked>)
      requires size <= buf.Length && kept == |ts| <= size && Holds(buf, ts, 0, kept)
      modifies this`size, this`tracked, buf
      ensures Valid() && tracked == ts
    {
      var i := kept;
      while i < size
        invariant kept <= i <= size && Holds(buf, ts, 0, kept)
        modifies buf
      {
        buf[i] := BLANK;
        i := i + 1;
      }
      size := kept;
      tracked := ts;
    }

    method PruneRemoved(now: int)
      modifies this`removed
      ensures removed == LiveRemovals(old(removed), now)
    {
      var todo := removed.Keys;
      while todo != {}
        invariant todo <= old(removed).Keys
        invariant removed == map k | k in old(removed) && (k in todo || now < old(removed)[k]) :: old(removed)[k]
        decreases |todo|
      {
        var k :| k in todo;
        todo := todo - {k};
        if !(now < removed[k]) {
          removed := removed - {k};
        }
      }
    }

    /** In-place compaction under way: `done` fills the first `kept` slots, exits from `i` on are untouched. */
    ghost predicate Compacting(done: seq<Tracked>, kept: nat, i: nat)
      requires kept <= i <= size == |tracked| <= buf.Length
      reads this, buf
    {
      |done| == kept && Holds(buf, done, 0, kept) && Holds(buf, tracked, i, size)
    }

    method Put(k: nat, i: nat, e: Exit, ghost done: seq<Tracked>, ghost t: Tracked)
      returns (kept: nat, ghost left: seq<Tracked>)
      requires k <= i < size == |tracked| <= buf.Length && Compacting(done, k, i) && t.e == e
      modifies buf
      ensures kept == k + 1 && left == done + [t] && Compacting(left, kept, i + 1)
    {
      buf[k] := e;
      kept, left := k + 1, done + [t];
    }

    /** The live exits move to the front. */
    method CompactLive(now: int) returns (kept: nat, ghost live: seq<Tracked>)
      requires Valid()
      modifies buf
      ensures kept <= size && Compacting(live, kept, size) && live == Live(tracked, now)
    {
      kept, live := 0, [];
      var i := 0;
      while i < size
        invariant 0 <= kept <= i <= size && Compacting(live, kept, i) && live == Live(tracked[..i], now)
      {
        LiveStep(tracked, i, now);
        if LiveAt(buf[i], now) {
          kept, live := Put(kept, i, buf[i], live, tracked[i]);
        }
        i := i + 1;
      }
      assert tracked[..i] == tracked;
    }

    method PruneLocked(now: int)
      requires Valid()
      modifies this`size, this`tracked, this`removed, buf
      ensures Valid() && At(now) == R.Pruned(old(At(now)), now)
    {
      var kept: nat;
      ghost var live: seq<Tracked>;
      kept, live := CompactLive(now);
      Truncate(kept, live);
      PruneRemoved(now);
    }

    method Prune(now: int) returns (dropped: int)
      requires Valid()
      modifies this`size, this`tracked, this`removed, buf
      ensures Valid() && forall cfg :: At(now) == R.Next(old(At(now)), R.Prune(now), cfg)
      ensures dropped == |old(tracked)| - |tracked|
    {
      var before := size;
      PruneLocked(now);
      dropped := before - size;
    }

    /** One exit of a failure report: kept, kept with marks, or quarantined. */
    method SiftOne(i: nat, k: nat, before: Outcome, ghost done: seq<Tracked>, identity: string, report: Report,
                   now: int, policy: Policy, canEject: bool)
      returns (kept: nat, outcome: Outcome, ghost left: seq<Tracked>)
      requires size == |tracked| <= buf.Length && k <= i < size && Compacting(done, k, i)
      modifies buf, this`removed
      ensures kept <= i + 1 && Compacting(left, kept, i + 1)
      ensures left == Sifted(done, tracked[i], identity, report, now, policy, canEject)
      ensures removed == Barring(old(removed), tracked[i], identity, report, now, policy, canEject)
      ensures outcome == Worst(before, tracked[i], identity, report, now, policy, canEject)
    {
      outcome := before;
      if !Matches(buf[i], identity) {
        kept, left := Put(k, i, buf[i], done, tracked[i]);
        return;
      }
      var hit, what := CountFailureOf(buf[i], tracked[i].h, report, now, policy, canEject);
      if what.Removed? {
        outcome := Removed;
        removed := removed[KeyOf(hit) := now + REMOVAL_COOLDOWN];
        kept, left := k, done;
      } else {
        if what.Ejected? && !outcome.Removed? { outcome := Ejected; }
        kept, left := Put(k, i, hit, done, Treat(tracked[i], report, now, policy, canEject).t);
      }
    }

    method SiftAt(i: nat, k: nat, worst: Outcome, ghost before: map<string, int>, ghost done: seq<Tracked>,
                  identity: string, report: Report, now: int, policy: Policy, canEject: bool)
      returns (kept: nat, outcome: Outcome, ghost left: seq<Tracked>)
      requires size == |tracked| <= buf.Length && k <= i < size && Compacting(done, k, i)
      requires SiftedTo(tracked, i, before, identity, report, now, policy, canEject, done, removed, worst)
      modifies buf, this`removed
      ensures kept <= i + 1 && Compacting(left, kept, i + 1)
      ensures SiftedTo(tracked, i + 1, before, identity, report, now, policy, canEject, left, removed, outcome)
    {
      SiftNext(tracked, i, before, identity, report, now, policy, canEject, done, removed, worst);
      kept, outcome, left := SiftOne(i, k, worst, done, identity, report, now, policy, canEject);
    }

    /** In-place compaction to the survivors of a failure report. */
    method Sift(identity: string, report: Report, now: int, policy: Policy, canEject: bool)
      returns (kept: nat, outcome: Outcome, ghost left: seq<Tracked>)
      requires Valid()
      modifies buf, this`removed
      ensures kept <= size && Compacting(left, kept, size)
      ensures left == Sieve(tracked, identity, report, now, policy, canEject)
      ensures removed == Quarantined(tracked, old(removed), identity, report, now, policy, canEject)
      ensures outcome == Verdict(tracked, identity, report, now, policy, canEject)
    {
      kept, outcome, left := 0, Counted, [];
      var i := 0;
      while i < size
        invariant 0 <= kept <= i <= size && Compacting(left, kept, i)
        invariant SiftedTo(tracked, i, old(removed), identity, report, now, policy, canEject, left, removed, outcome)
      {
        kept, outcome, left := SiftAt(i, kept, outcome, old(removed), left, identity, report, now, policy, canEject);
        i := i + 1;
      }
      SiftDone(tracked, old(removed), identity, report, now, policy, canEject, left, removed, outcome);
    }

    method ReportFailure(identity: string, now: int, configured: Policy) returns (outcome: Outcome)
      requires Valid()
      modifies this`size, this`tracked, this`removed, buf
      ensures Valid()
      ensures forall cfg: R.Config :: cfg.policy == Normalized(configured) ==>
                At(now) == R.Next(old(At(now)), R.Fail(identity, Transport, now), cfg)
      ensures var live := Live(old(tracked), now);
              && outcome == Verdict(live, identity, Transport, now, Normalized(configured),
                R.Evidence(live, Transport, now))
              && (NoDebt(live) ==>
                    OutcomeTells(live, tracked, identity, now, outcome))
    {
      var policy := Normalized(configured);
      PruneLocked(now);
      var kept: nat;
      ghost var left: seq<Tracked>;
      kept, outcome, left := Sift(identity, Transport, now, policy, true);
      VerdictTold(tracked, identity, Transport, now, policy, true);
      Truncate(kept, left);
    }

    method HasRecentRequestSuccess(now: int) returns (found: bool)
      requires Valid()
      ensures found == RecentSuccess(tracked, now)
    {
      var i := 0;
      while i < size
        invariant i <= size && !RecentSuccess(tracked[..i], now)
      {
        assert forall j :: 0 <= j < i ==> tracked[..i + 1][j] == tracked[..i][j];
        if buf[i].lastRequestSuccessAt.Some? && now - buf[i].lastRequestSuccessAt.value <= HTTP_WINDOW {
          assert tracked[i].e == buf[i];
          return true;
        }
        i := i + 1;
      }
      assert tracked[..i] == tracked;
      found := false;
    }

    /** 529 is noted for the whole pool and blames no exit. */
    method ReportHTTPFailure(identity: string, now: int, status: int, configured: Policy) returns (outcome: Outcome)
      requires Valid()
      modifies this`size, this`tracked, this`removed, this`lastOverloadAt, buf
      ensures Valid()
      ensures lastOverloadAt == if status == OVERLOADED then Some(now) else old(lastOverloadAt)
      ensures forall cfg: R.Config :: cfg.policy == Normalized(configured) ==>
                At(now) == R.Next(old(At(now)), if status == OVERLOADED then R.Overload(now)
                  else R.Fail(identity, Http, now), cfg)
      ensures var live := Live(old(tracked), now);
              outcome == if status == OVERLOADED then Counted
                         else Verdict(live, identity, Http, now, Normalized(configured), R.Evidence(live, Http, now))
      ensures var live := Live(old(tracked), now);
              NoDebt(live) ==>
                OutcomeTells(live, tracked, identity, now, outcome)
    {
      var policy := Normalized(configured);
      PruneLocked(now);
      if status == OVERLOADED {
        lastOverloadAt := Some(now);
        return Counted;
      }
      var canEject := HasRecentRequestSuccess(now);
      var kept: nat;
      ghost var left: seq<Tracked>;
      kept, outcome, left := Sift(identity, Http, now, policy, canEject);
      VerdictTold(tracked, identity, Http, now, policy, canEject);
      Truncate(kept, left);
    }

    method ReportSuccess(identity: string, now: int, sample: int, configured: Policy, blend: (int, int) -> int)
      requires Valid()
      modifies this`size, this`tracked, this`removed, buf
      ensures Valid()
      ensures forall cfg: R.Config :: cfg.blend == blend ==>
              At(now) == R.Next(old(At(now)), R.Succeed(identity, now, sample), cfg)
    {
      PruneLocked(now);
      Praise(identity, now, sample, blend);
      tracked := R.SucceedAll(tracked, identity, now, sample, blend);
    }

    method Praise(identity: string, now: int, sample: int, blend: (int, int) -> int)
      requires Valid()
      modifies buf
      ensures Holds(buf, R.SucceedAll(tracked, identity, now, sample, blend), 0, size)
    {
      ghost var goal := R.SucceedAll(tracked, identity, now, sample, blend);
      var i := 0;
      while i < size
        invariant i <= size && Holds(buf, goal, 0, i) && Holds(buf, tracked, i, size)
      {
        var e := buf[i];
        assert goal[i] == R.Praised(tracked[i], identity, now, sample, blend);
        if Matches(e, identity) {
          var health := if e.healthFails > 0 then e.healthFails - 1 else e.healthFails;
          var ejections := if e.ejections > 0 then e.ejections - 1 else e.ejections;
          buf[i] := e.(httpFails := 0, lastRequestSuccessAt := Some(now), healthFails := health,
            ejections := ejections, ejectedUntil := None);
          if sample > 0 {
            buf[i] := buf[i].(latency := blend(e.latency, sample));
          }
        }
        i := i + 1;
      }
    }

    /** Extends live, validated exits; the cap hangs on the validation time and not on `now`. */
    method Grace(now: int, grace: int, maxLifetime: int) returns (extended: nat)
      requires Valid()
      modifies this`tracked, buf
      ensures Valid()
      ensures tracked == if grace <= 0 || maxLifetime <= 0 then old(tracked)
              else R.GraceAll(old(tracked), now, grace, maxLifetime)
      ensures extended == if grace <= 0 || maxLifetime <= 0 then 0 else Extensions(old(tracked), tracked)
      ensures forall cfg: R.Config :: grace == cfg.ttl / 2 && maxLifetime == cfg.ttl * 2 ==>
                At(now) == R.Next(old(At(now)), R.Grace(now), cfg)
    {
      if grace <= 0 || maxLifetime <= 0 { return 0; }
      ghost var goal := R.GraceAll(tracked, now, grace, maxLifetime);
      extended := Extend(now, grace, maxLifetime, goal);
      tracked := goal;
    }

    method ExtendAt(i: nat, now: int, grace: int, maxLifetime: int, ghost goal: seq<Tracked>) returns (more: bool)
      requires i < size == |goal| == |tracked| <= buf.Length
              && goal[i] == GraceOne(tracked[i], now, grace, maxLifetime)
      requires Holds(buf, goal, 0, i) && Holds(buf, tracked, i, size)
      modifies buf
      ensures Holds(buf, goal, 0, i + 1) && Holds(buf, tracked, i + 1, size)
      ensures more == (goal[i].e.expiresAt > tracked[i].e.expiresAt)
    {
      var e := ExtendOne(buf[i], tracked[i].h, now, grace, maxLifetime);
      more := e.expiresAt > buf[i].expiresAt;
      buf[i] := e;
    }

    method Extend(now: int, grace: int, maxLifetime: int, ghost goal: seq<Tracked>) returns (extended: nat)
      requires Valid() && |goal| == |tracked|
      requires forall i :: 0 <= i < |tracked| ==> goal[i] == GraceOne(tracked[i], now, grace, maxLifetime)
      modifies buf
      ensures Holds(buf, goal, 0, size) && extended == Extensions(tracked, goal)
    {
      extended := 0;
      var i := 0;
      while i < size
        invariant i <= size && Holds(buf, goal, 0, i) && Holds(buf, tracked, i, size)
        invariant extended == Extensions(tracked[..i], goal[..i])
      {
        ExtensionsStep(tracked, goal, i);
        var more := ExtendAt(i, now, grace, maxLifetime, goal);
        if more { extended := extended + 1; }
        i := i + 1;
      }
      assert tracked[..i] == tracked && goal[..i] == goal;
    }

    method SpareOne(i: nat, k: nat, ghost done: seq<Tracked>, identity: string)
      returns (kept: nat, ghost left: seq<Tracked>)
      requires size == |tracked| <= buf.Length && k <= i < size && Compacting(done, k, i)
      modifies buf
      ensures kept <= i + 1 && Compacting(left, kept, i + 1) && left == Spared(done, tracked[i], identity)
    {
      if Matches(buf[i], identity) {
        kept, left := k, done;
      } else {
        kept, left := Put(k, i, buf[i], done, tracked[i]);
      }
    }

    method CompactOthers(identity: string) returns (kept: nat, ghost left: seq<Tracked>)
      requires Valid()
      modifies buf
      ensures kept <= size && Compacting(left, kept, size) && left == R.Without(tracked, identity)
    {
      kept, left := 0, [];
      var i := 0;
      while i < size
        invariant 0 <= kept <= i <= size && Compacting(left, kept, i) && left == R.Without(tracked[..i], identity)
      {
        WithoutStep(tracked, i, identity);
        kept, left := SpareOne(i, kept, left, identity);
        i := i + 1;
      }
      assert tracked[..i] == tracked;
    }

    /** Manual removal; it leaves no quarantine behind. */
    method Remove(identity: string) returns (found: bool)
      requires Valid()
      modifies this`size, this`tracked, buf
      ensures Valid() && tracked == R.Without(old(tracked), identity) && (found <==> |tracked| < |old(tracked)|)
    {
      var kept: nat;
      ghost var left: seq<Tracked>;
      kept, left := CompactOthers(identity);
      found := kept < size;
      Truncate(kept, left);
    }

    /** Appends, moving to a larger array when this one is full. */
    method Append(e: Exit)
      requires Valid()
      modifies this`buf, this`size, this`tracked, buf
      ensures Valid() && tracked == old(tracked) + [Tracked(e, [])]
      ensures buf == old(buf) || fresh(buf)
    {
      if size == buf.Length {
        var larger := new Exit[2 * buf.Length + 1](_ => BLANK);
        var i := 0;
        while i < size
          invariant i <= size && Holds(larger, tracked, 0, i)
          modifies larger
        {
          larger[i] := buf[i];
          i := i + 1;
        }
        buf := larger;
      }
      buf[size] := e;
      size := size + 1;
      tracked := tracked + [Tracked(e, [])];
    }

    method BuildIndex() returns (index: map<string, nat>)
      requires Valid()
      ensures index == IndexOf(tracked)
    {
      index := map[];
      var i := 0;
      while i < size
        invariant i <= size && index == IndexOf(tracked[..i])
      {
        assert tracked[..i + 1][..i] == tracked[..i];
        index := index[KeyOf(buf[i]) := i];
        i := i + 1;
      }
      assert tracked[..i] == tracked;
    }

    /** A validated candidate refreshes the exit at `position`. */
    method Renew(position: nat, c: Exit, policy: Policy, blend: (int, int) -> int)
      requires Valid() && position < size
      modifies this`tracked, buf
      ensures Valid()
      ensures var t := old(tracked)[position];
              var latency := if c.latency > 0 then blend(t.e.latency, c.latency) else t.e.latency;
              tracked == if t.e.ejections > policy.maxEjections then old(tracked)
                else old(tracked)[position := Refresh(t, c, latency)]
    {
      var current := buf[position].(validatedAt := c.validatedAt, scheme := c.scheme, user := c.user,
        password := c.password);
      if c.latency > 0 {
        current := current.(latency := blend(current.latency, c.latency));
      }
      if c.fetchedAt.Some? && (current.fetchedAt.None? || c.fetchedAt.value < current.fetchedAt.value) {
        current := current.(fetchedAt := c.fetchedAt);
      }
      current := current.(expiresAt := c.expiresAt);
      if current.healthFails > 0 {
        current := current.(healthFails := current.healthFails - 1);
      }
      if current.ejections > policy.maxEjections { return; }
      buf[position] := current;
      tracked := tracked[position := Tracked(current, tracked[position].h)];
    }

    method MergeCandidate(now: int, c: Exit, index: map<string, nat>, policy: Policy, blend: (int, int) -> int)
      returns (known: map<string, nat>)
      requires Valid() && forall k :: k in index ==> index[k] < size
      modifies this`buf, this`size, this`tracked, buf
      ensures Valid() && (buf == old(buf) || fresh(buf)) && forall k :: k in known ==> known[k] < size
      ensures Merging(tracked, known) == MergeOne(Merging(old(tracked), index), removed, now, c, policy, blend)
    {
      known := index;
      if !LiveAt(c, now) { return; }
      if KeyOf(c) in removed && now < removed[KeyOf(c)] { return; }
      if KeyOf(c) !in index {
        known := known[KeyOf(c) := size];
        Append(c);
      } else {
        Renew(index[KeyOf(c)], c, policy, blend);
      }
    }

    method Merge(now: int, incoming: seq<Exit>, configured: Policy, blend: (int, int) -> int)
      requires Valid()
      modifies this`buf, this`size, this`tracked, this`removed, buf
      ensures Valid() && (buf == old(buf) || fresh(buf))
      ensures forall cfg: R.Config :: cfg.policy == Normalized(configured) && cfg.blend == blend ==>
                At(now) == R.Next(old(At(now)), R.Merge(now, incoming), cfg)
    {
      var policy := Normalized(configured);
      PruneLocked(now);
      MergeLive(now, incoming, policy, blend);
    }

    method MergeLive(now: int, incoming: seq<Exit>, policy: Policy, blend: (int, int) -> int)
      requires Valid()
      modifies this`buf, this`size, this`tracked, buf
      ensures Valid() && (buf == old(buf) || fresh(buf))
      ensures tracked == MergeAll(old(tracked), removed, now, incoming, policy, blend).ts
    {
      var index: map<string, nat> := BuildIndex();
      IndexInRange(tracked);
      for i := 0 to |incoming|
        invariant Valid() && (buf == old(buf) || fresh(buf)) && forall k :: k in index ==> index[k] < size
        invariant Merging(tracked, index) == MergeAll(old(tracked), removed, now, incoming[..i], policy, blend)
      {
        assert incoming[..i + 1][..i] == incoming[..i];
        index := MergeCandidate(now, incoming[i], index, policy, blend);
      }
      assert incoming[..|incoming|] == incoming;
    }

    /** A manual override: the given exits as they are, with no deduplication, and an empty quarantine. */
    method Replace(exits: seq<Exit>)
      modifies this`buf, this`size, this`tracked, this`removed
      ensures Valid() && fresh(buf) && removed == map[]
      ensures |tracked| == |exits| && forall i :: 0 <= i < |exits| ==> tracked[i] == Tracked(exits[i], [])
    {
      buf := new Exit[|exits|](i requires 0 <= i < |exits| => exits[i]);
      size := |exits|;
      removed := map[];
      tracked := seq(|exits|, i requires 0 <= i < |exits| => Tracked(exits[i], []));
    }
  }
}
