/** Invariants of the exit pool over every run of collector merges, reports, grace and pruning. */
module ExitRuns {
  import opened Basics
  import opened ExitModel

  /** What stays fixed during a run: a normalised policy, the collector's TTL and the latency average. */
  datatype Config = Config(policy: Policy, ttl: int, blend: (int, int) -> int)

  datatype Pool = Pool(ts: seq<Tracked>, removed: map<string, int>, clock: int)

  datatype Event =
    | Merge(now: int, incoming: seq<Exit>)
    | Fail(identity: string, report: Report, now: int)
    | Overload(now: int)
    | Succeed(identity: string, now: int, sample: int)
    | Grace(now: int)
    | Prune(now: int)
    | Remove(identity: string, now: int)

  /** A candidate as validateBatch stamps it: fetched, then validated, then merged, with no history. */
  predicate Stamped(c: Exit, ttl: int, now: int) {
    && Clean(c)
    && c.healthFails == 0 && c.ejections == 0 && c.ejectedUntil.None?
    && c.httpFails == 0 && c.lastHttpFailureAt.None?
    && c.fetchedAt.Some? && c.validatedAt.Some?
    && c.fetchedAt.value <= c.validatedAt.value <= now
    && c.expiresAt == c.fetchedAt.value + ttl
  }

  predicate Fires(s: Pool, e: Event, cfg: Config) {
    && s.clock <= e.now
    && (e.Merge? ==> forall i :: 0 <= i < |e.incoming| ==> Stamped(e.incoming[i], cfg.ttl, e.now))
  }

  /** What a success does to one exit of the list. */
  function Praised(t: Tracked, identity: string, now: int, sample: int, blend: (int, int) -> int): Tracked {
    if !Matches(t.e, identity) then t
    else SucceedOne(t, now, if sample > 0 then blend(t.e.latency, sample) else t.e.latency)
  }

  function SucceedAll(ts: seq<Tracked>, identity: string, now: int, sample: int,
                      blend: (int, int) -> int): (r: seq<Tracked>)
    ensures |r| == |ts| && forall i :: 0 <= i < |ts| ==> r[i] == Praised(ts[i], identity, now, sample, blend)
  {
    seq(|ts|, i requires 0 <= i < |ts| => Praised(ts[i], identity, now, sample, blend))
  }

  function GraceAll(ts: seq<Tracked>, now: int, grace: int, maxLifetime: int): (r: seq<Tracked>)
    ensures |r| == |ts| && forall i :: 0 <= i < |ts| ==> r[i] == GraceOne(ts[i], now, grace, maxLifetime)
  {
    seq(|ts|, i requires 0 <= i < |ts| => GraceOne(ts[i], now, grace, maxLifetime))
  }

  function Without(ts: seq<Tracked>, identity: string): seq<Tracked> {
    if ts == [] then []
    else Without(ts[..|ts| - 1], identity) + if Matches(ts[|ts| - 1].e, identity) then [] else [ts[|ts| - 1]]
  }

  function Pruned(s: Pool, now: int): Pool {
    Pool(Live(s.ts, now), LiveRemovals(s.removed, now), now)
  }

  /** Transport failures speak for themselves; HTTP failures count only while some exit works. */
  predicate Evidence(ts: seq<Tracked>, report: Report, now: int) {
    report.Transport? || RecentSuccess(ts, now)
  }

  ghost function Next(s: Pool, e: Event, cfg: Config): Pool {
    match e
    case Merge(now, incoming) =>
      var p := Pruned(s, now);
      p.(ts := MergeAll(p.ts, p.removed, now, incoming, cfg.policy, cfg.blend).ts)
    case Fail(identity, report, now) =>
      var p := Pruned(s, now);
      var canEject := Evidence(p.ts, report, now);
      p.(ts := Sieve(p.ts, identity, report, now, cfg.policy, canEject),
         removed := Quarantined(p.ts, p.removed, identity, report, now, cfg.policy, canEject))
    case Overload(now) => Pruned(s, now)
    case Succeed(identity, now, sample) =>
      var p := Pruned(s, now);
      p.(ts := SucceedAll(p.ts, identity, now, sample, cfg.blend))
    case Grace(now) =>
      if cfg.ttl / 2 <= 0 || cfg.ttl * 2 <= 0 then s.(clock := now)
      else s.(ts := GraceAll(s.ts, now, cfg.ttl / 2, cfg.ttl * 2), clock := now)
    case Prune(now) => Pruned(s, now)
    case Remove(identity, now) => s.(ts := Without(s.ts, identity), clock := now)
  }

  ghost predicate Legal(s: Pool, es: seq<Event>, cfg: Config)
    decreases |es|
  {
    es == [] || (Fires(s, es[0], cfg) && Legal(Next(s, es[0], cfg), es[1..], cfg))
  }

  ghost function After(s: Pool, es: seq<Event>, cfg: Config): Pool
    decreases |es|
  {
    if es == [] then s else After(Next(s, es[0], cfg), es[1..], cfg)
  }

  // ---------------------------------------------------------------- the invariant

  predicate ExitOk(t: Tracked, cfg: Config) {
    && Clean(t.e)
    && 0 <= t.e.healthFails < cfg.policy.failureLimit
    && 0 <= t.e.ejections <= cfg.policy.maxEjections
    && CounterRefines(t, cfg.policy)
    && t.e.validatedAt.Some? && t.e.expiresAt <= t.e.validatedAt.value + 2 * cfg.ttl
  }

  predicate HasKey(ts: seq<Tracked>, key: string) {
    exists i :: 0 <= i < |ts| && KeyOf(ts[i].e) == key
  }

  predicate Unique(ts: seq<Tracked>) {
    ts == [] || (Unique(ts[..|ts| - 1]) && !HasKey(ts[..|ts| - 1], KeyOf(ts[|ts| - 1].e)))
  }

  ghost predicate AllOk(ts: seq<Tracked>, cfg: Config) {
    forall i :: 0 <= i < |ts| ==> ExitOk(ts[i], cfg)
  }

  /** A quarantined key is not in the pool. */
  ghost predicate Barred(s: Pool) {
    forall k :: k in s.removed && s.clock < s.removed[k] ==> !HasKey(s.ts, k)
  }

  ghost predicate Good(s: Pool, cfg: Config) {
    Normal(cfg.policy) && Unique(s.ts) && AllOk(s.ts, cfg) && Barred(s)
  }

  // ---------------------------------------------------------------- lists

  lemma HasKeySnoc(ts: seq<Tracked>, t: Tracked, key: string)
    ensures HasKey(ts + [t], key) <==> HasKey(ts, key) || KeyOf(t.e) == key
  {
    var all := ts + [t];
    assert all[|ts|] == t;
    if HasKey(ts, key) {
      var i :| 0 <= i < |ts| && KeyOf(ts[i].e) == key;
      assert all[i] == ts[i];
    }
  }

  lemma UniqueSnoc(ts: seq<Tracked>, t: Tracked)
    requires Unique(ts) && !HasKey(ts, KeyOf(t.e))
    ensures Unique(ts + [t])
  {
    assert (ts + [t])[..|ts|] == ts;
  }

  lemma AllOkSnoc(ts: seq<Tracked>, t: Tracked, cfg: Config)
    requires AllOk(ts, cfg) && ExitOk(t, cfg)
    ensures AllOk(ts + [t], cfg)
  {}

  lemma Split(ts: seq<Tracked>, key: string)
    requires ts != []
    ensures HasKey(ts, key) <==> HasKey(ts[..|ts| - 1], key) || KeyOf(ts[|ts| - 1].e) == key
  {
    HasKeySnoc(ts[..|ts| - 1], ts[|ts| - 1], key);
    assert ts[..|ts| - 1] + [ts[|ts| - 1]] == ts;
  }

  /** Position by position the same keys. */
  ghost predicate SameKeys(a: seq<Tracked>, b: seq<Tracked>) {
    |a| == |b| && forall i :: 0 <= i < |a| ==> KeyOf(a[i].e) == KeyOf(b[i].e)
  }

  lemma SameKeysHave(a: seq<Tracked>, b: seq<Tracked>, key: string)
    requires SameKeys(a, b) && HasKey(b, key)
    ensures HasKey(a, key)
  {
    var i :| 0 <= i < |b| && KeyOf(b[i].e) == key;
    assert KeyOf(a[i].e) == key;
  }

  lemma {:induction false} SameKeysUnique(a: seq<Tracked>, b: seq<Tracked>)
    requires SameKeys(a, b) && Unique(a)
    ensures Unique(b)
  {
    if b != [] {
      var fa, fb := a[..|a| - 1], b[..|b| - 1];
      assert SameKeys(fa, fb);
      SameKeysUnique(fa, fb);
      var key := KeyOf(b[|b| - 1].e);
      if HasKey(fb, key) {
        SameKeysHave(fa, fb, key);
      }
    }
  }

  /** What it takes for `part` to be cut out of `ts`: in order, same keys or fewer, all in good shape. */
  ghost predicate CutFrom(part: seq<Tracked>, ts: seq<Tracked>, cfg: Config) {
    Unique(part) && AllOk(part, cfg) && forall k :: HasKey(part, k) ==> HasKey(ts, k)
  }

  lemma CutSkips(part: seq<Tracked>, ts: seq<Tracked>, cfg: Config)
    requires ts != [] && CutFrom(part, ts[..|ts| - 1], cfg)
    ensures CutFrom(part, ts, cfg)
  {
    forall k | HasKey(part, k) ensures HasKey(ts, k) { Split(ts, k); }
  }

  lemma CutTakes(part: seq<Tracked>, ts: seq<Tracked>, t: Tracked, cfg: Config)
    requires ts != [] && Unique(ts) && CutFrom(part, ts[..|ts| - 1], cfg)
    requires ExitOk(t, cfg) && KeyOf(t.e) == KeyOf(ts[|ts| - 1].e)
    ensures CutFrom(part + [t], ts, cfg)
  {
    UniqueSnoc(part, t);
    AllOkSnoc(part, t, cfg);
    forall k | HasKey(part + [t], k) ensures HasKey(ts, k) {
      HasKeySnoc(part, t, k);
      Split(ts, k);
    }
  }

  lemma {:induction false} LiveKeeps(ts: seq<Tracked>, now: int, cfg: Config)
    requires Unique(ts) && AllOk(ts, cfg)
    ensures CutFrom(Live(ts, now), ts, cfg)
  {
    if ts != [] {
      var front, last := ts[..|ts| - 1], ts[|ts| - 1];
      LiveKeeps(front, now, cfg);
      if LiveAt(last.e, now) {
        CutTakes(Live(front, now), ts, last, cfg);
      } else {
        assert Live(ts, now) == Live(front, now);
        CutSkips(Live(front, now), ts, cfg);
      }
    }
  }

  lemma {:induction false} WithoutKeeps(ts: seq<Tracked>, identity: string, cfg: Config)
    requires Unique(ts) && AllOk(ts, cfg)
    ensures CutFrom(Without(ts, identity), ts, cfg)
  {
    if ts != [] {
      var front, last := ts[..|ts| - 1], ts[|ts| - 1];
      WithoutKeeps(front, identity, cfg);
      if Matches(last.e, identity) {
        assert Without(ts, identity) == Without(front, identity);
        CutSkips(Without(front, identity), ts, cfg);
      } else {
        CutTakes(Without(front, identity), ts, last, cfg);
      }
    }
  }

  // ---------------------------------------------------------------- the counter and its history

  lemma RunAfterFailure(h: seq<Mark>, now: int)
    ensures RunLength(h + [Failed(now)]) ==
            if h != [] && h[|h| - 1].Failed? && now - h[|h| - 1].at <= HTTP_WINDOW then 1 + RunLength(h) else 1
    ensures LastFailure(h + [Failed(now)]) == Some(now)
  {
    assert (h + [Failed(now)])[..|h|] == h;
  }

  lemma AfterReset(h: seq<Mark>)
    ensures RunLength(h + [Reset]) == 0 && LastFailure(h + [Reset]) == LastFailure(h)
  {
    assert (h + [Reset])[..|h|] == h;
  }

  lemma NotedRefines(t: Tracked, now: int, policy: Policy)
    requires CounterRefines(t, policy) && policy.httpFailureLimit > 0
    ensures CounterRefines(Noted(t, now, policy), policy)
  {
    RunAfterFailure(t.h, now);
  }

  /** Counter refines history: the HTTP path isolates or removes an exit exactly when some retained
      exit has served a 2xx within the last minute and this failure completes a run of full length. */
  lemma IsolationExact(t: Tracked, now: int, policy: Policy, canEject: bool)
    requires CounterRefines(t, policy) && Normal(policy)
    ensures var fate := Treat(t, Http, now, policy, canEject);
            (fate.Leaves? || fate.isolated) <==> canEject && RunLength(t.h + [Failed(now)]) >= policy.httpFailureLimit
  {
    NotedRefines(t, now, policy);
  }

  /** Every report leaves a retained exit within the policy and its counter in step. */
  lemma TreatKeeps(t: Tracked, report: Report, now: int, canEject: bool, cfg: Config)
    requires ExitOk(t, cfg) && Normal(cfg.policy)
    ensures var fate := Treat(t, report, now, cfg.policy, canEject);
            fate.Stays? ==> ExitOk(fate.t, cfg) && KeyOf(fate.t.e) == KeyOf(t.e)
  {
    NotedRefines(t, now, cfg.policy);
    AfterReset(t.h + [Failed(now)]);
  }

  // ---------------------------------------------------------------- failure reports

  lemma {:induction false} SieveKeeps(ts: seq<Tracked>, identity: string, report: Report, now: int, canEject: bool,
                                      cfg: Config)
    requires Unique(ts) && AllOk(ts, cfg) && Normal(cfg.policy)
    ensures CutFrom(Sieve(ts, identity, report, now, cfg.policy, canEject), ts, cfg)
  {
    if ts != [] {
      var front, last := ts[..|ts| - 1], ts[|ts| - 1];
      SieveKeeps(front, identity, report, now, canEject, cfg);
      TreatKeeps(last, report, now, canEject, cfg);
      var rest := Sieve(front, identity, report, now, cfg.policy, canEject);
      var fate := Treat(last, report, now, cfg.policy, canEject);
      if !Matches(last.e, identity) {
        CutTakes(rest, ts, last, cfg);
      } else if fate.Stays? {
        CutTakes(rest, ts, fate.t, cfg);
      } else {
        assert Sieve(ts, identity, report, now, cfg.policy, canEject) == rest;
        CutSkips(rest, ts, cfg);
      }
    }
  }

  /** A report quarantines only keys that it takes out of the pool. */
  lemma {:induction false} QuarantineIsExpulsion(ts: seq<Tracked>, removed: map<string, int>, identity: string,
                                                 report: Report, now: int, canEject: bool, cfg: Config, k: string)
    requires Unique(ts) && AllOk(ts, cfg) && Normal(cfg.policy)
    requires k in Quarantined(ts, removed, identity, report, now, cfg.policy, canEject)
    ensures HasKey(Sieve(ts, identity, report, now, cfg.policy, canEject), k) ==>
              k in removed && Quarantined(ts, removed, identity, report, now, cfg.policy, canEject)[k] == removed[k]
    ensures !HasKey(ts, k) ==>
              k in removed && Quarantined(ts, removed, identity, report, now, cfg.policy, canEject)[k] == removed[k]
  {
    if ts != [] {
      var front, last := ts[..|ts| - 1], ts[|ts| - 1];
      assert AllOk(front, cfg);
      TreatKeeps(last, report, now, canEject, cfg);
      SieveKeeps(front, identity, report, now, canEject, cfg);
      Split(ts, k);
      var rest := Sieve(front, identity, report, now, cfg.policy, canEject);
      var fate := Treat(last, report, now, cfg.policy, canEject);
      if Matches(last.e, identity) && fate.Leaves? {
        assert Sieve(ts, identity, report, now, cfg.policy, canEject) == rest;
        if KeyOf(last.e) != k {
          QuarantineIsExpulsion(front, removed, identity, report, now, canEject, cfg, k);
        }
      } else {
        QuarantineIsExpulsion(front, removed, identity, report, now, canEject, cfg, k);
        HasKeySnoc(rest, if Matches(last.e, identity) then fate.t else last, k);
      }
    }
  }

  /** A key that a report takes out of the pool is quarantined for REMOVAL_COOLDOWN from then on. */
  lemma {:induction false} ExpulsionIsQuarantine(ts: seq<Tracked>, removed: map<string, int>, identity: string,
                                                 report: Report, now: int, canEject: bool, cfg: Config, k: string)
    requires Unique(ts) && AllOk(ts, cfg) && Normal(cfg.policy)
    requires HasKey(ts, k) && !HasKey(Sieve(ts, identity, report, now, cfg.policy, canEject), k)
    ensures k in Quarantined(ts, removed, identity, report, now, cfg.policy, canEject)
    ensures Quarantined(ts, removed, identity, report, now, cfg.policy, canEject)[k] == now + REMOVAL_COOLDOWN
  {
    var front, last := ts[..|ts| - 1], ts[|ts| - 1];
    assert AllOk(front, cfg);
    TreatKeeps(last, report, now, canEject, cfg);
    Split(ts, k);
    var rest := Sieve(front, identity, report, now, cfg.policy, canEject);
    var fate := Treat(last, report, now, cfg.policy, canEject);
    if Matches(last.e, identity) && fate.Leaves? {
      assert Sieve(ts, identity, report, now, cfg.policy, canEject) == rest;
      if KeyOf(last.e) != k {
        ExpulsionIsQuarantine(front, removed, identity, report, now, canEject, cfg, k);
      }
    } else {
      HasKeySnoc(rest, if Matches(last.e, identity) then fate.t else last, k);
      ExpulsionIsQuarantine(front, removed, identity, report, now, canEject, cfg, k);
    }
  }

  // ---------------------------------------------------------------- merging

  /** The index knows exactly the keys of the list and where they are. */
  ghost predicate Indexed(m: Merging) {
    && (forall k :: k in m.index ==> m.index[k] < |m.ts| && KeyOf(m.ts[m.index[k]].e) == k)
    && (forall i :: 0 <= i < |m.ts| ==> KeyOf(m.ts[i].e) in m.index)
  }

  lemma {:induction false} IndexOfIndexed(ts: seq<Tracked>)
    ensures Indexed(Merging(ts, IndexOf(ts)))
  {
    if ts != [] {
      IndexOfIndexed(ts[..|ts| - 1]);
    }
  }

  lemma RefreshKeeps(t: Tracked, c: Exit, latency: int, now: int, cfg: Config)
    requires ExitOk(t, cfg) && Stamped(c, cfg.ttl, now) && LiveAt(c, now) && KeyOf(c) == KeyOf(t.e)
    ensures ExitOk(Refresh(t, c, latency), cfg) && KeyOf(Refresh(t, c, latency).e) == KeyOf(t.e)
  {
    KeyInjective(t.e, c);
    RefreshKeepsKey(t, c, latency);
  }

  /** What a merge keeps: no quarantined key comes in. */
  ghost predicate Admitted(m: Merging, ts: seq<Tracked>, removed: map<string, int>, now: int, cfg: Config) {
    && Unique(m.ts) && AllOk(m.ts, cfg) && Indexed(m)
    && forall k :: HasKey(m.ts, k) ==> HasKey(ts, k) || !(k in removed && now < removed[k])
  }

  lemma AppendIndexed(m: Merging, t: Tracked)
    requires Indexed(m) && KeyOf(t.e) !in m.index
    ensures Indexed(Merging(m.ts + [t], m.index[KeyOf(t.e) := |m.ts|]))
    ensures !HasKey(m.ts, KeyOf(t.e))
  {}

  lemma AppendKeeps(m: Merging, ts: seq<Tracked>, removed: map<string, int>, now: int, c: Exit, cfg: Config)
    requires Normal(cfg.policy) && Stamped(c, cfg.ttl, now) && Admitted(m, ts, removed, now, cfg)
    requires !Refused(removed, c, now) && KeyOf(c) !in m.index
    ensures Admitted(Merging(m.ts + [Tracked(c, [])], m.index[KeyOf(c) := |m.ts|]), ts, removed, now, cfg)
  {
    var t := Tracked(c, []);
    NewExitOk(c, now, cfg);
    AppendIndexed(m, t);
    UniqueSnoc(m.ts, t);
    AllOkSnoc(m.ts, t, cfg);
    forall k | HasKey(m.ts + [t], k) ensures HasKey(ts, k) || !(k in removed && now < removed[k]) {
      HasKeySnoc(m.ts, t, k);
    }
  }

  lemma NewExitOk(c: Exit, now: int, cfg: Config)
    requires Normal(cfg.policy) && Stamped(c, cfg.ttl, now) && LiveAt(c, now)
    ensures ExitOk(Tracked(c, []), cfg)
  {}

  lemma UpdateKeeps(m: Merging, ts: seq<Tracked>, removed: map<string, int>, now: int, at: nat, t: Tracked,
                    cfg: Config)
    requires Admitted(m, ts, removed, now, cfg)
    requires at < |m.ts| && ExitOk(t, cfg) && KeyOf(t.e) == KeyOf(m.ts[at].e)
    ensures Admitted(m.(ts := m.ts[at := t]), ts, removed, now, cfg)
  {
    var r := m.ts[at := t];
    assert SameKeys(m.ts, r);
    SameKeysUnique(m.ts, r);
    forall k | HasKey(r, k) ensures HasKey(m.ts, k) {
      SameKeysHave(m.ts, r, k);
    }
  }

  /** Merging one stamped candidate keeps the list good and admits no quarantined key. */
  lemma MergeOneKeeps(m: Merging, ts: seq<Tracked>, removed: map<string, int>, now: int, c: Exit, cfg: Config)
    requires Normal(cfg.policy) && Stamped(c, cfg.ttl, now) && Admitted(m, ts, removed, now, cfg)
    ensures Admitted(MergeOne(m, removed, now, c, cfg.policy, cfg.blend), ts, removed, now, cfg)
  {
    if !Refused(removed, c, now) {
      if KeyOf(c) !in m.index {
        AppendKeeps(m, ts, removed, now, c, cfg);
      } else {
        var at := m.index[KeyOf(c)];
        var latency := if c.latency > 0 then cfg.blend(m.ts[at].e.latency, c.latency) else m.ts[at].e.latency;
        RefreshKeeps(m.ts[at], c, latency, now, cfg);
        UpdateKeeps(m, ts, removed, now, at, Refresh(m.ts[at], c, latency), cfg);
      }
    }
  }

  lemma {:induction false} MergeAllKeeps(ts: seq<Tracked>, removed: map<string, int>, now: int, cs: seq<Exit>,
                                         cfg: Config)
    requires Normal(cfg.policy) && Unique(ts) && AllOk(ts, cfg)
    requires forall i :: 0 <= i < |cs| ==> Stamped(cs[i], cfg.ttl, now)
    ensures Admitted(MergeAll(ts, removed, now, cs, cfg.policy, cfg.blend), ts, removed, now, cfg)
  {
    if cs == [] {
      IndexOfIndexed(ts);
    } else {
      MergeAllKeeps(ts, removed, now, cs[..|cs| - 1], cfg);
      MergeOneKeeps(MergeAll(ts, removed, now, cs[..|cs| - 1], cfg.policy, cfg.blend), ts, removed, now, cs[|cs| - 1],
        cfg);
    }
  }

  // ---------------------------------------------------------------- success and grace

  lemma SucceedKeeps(ts: seq<Tracked>, identity: string, now: int, sample: int, cfg: Config)
    requires Unique(ts) && AllOk(ts, cfg) && Normal(cfg.policy)
    ensures var r := SucceedAll(ts, identity, now, sample, cfg.blend); Unique(r) && AllOk(r, cfg) && SameKeys(ts, r)
  {
    var r := SucceedAll(ts, identity, now, sample, cfg.blend);
    forall i | 0 <= i < |ts| ensures ExitOk(r[i], cfg) && KeyOf(r[i].e) == KeyOf(ts[i].e) {
      assert ExitOk(ts[i], cfg);
      AfterReset(ts[i].h);
    }
    SameKeysUnique(ts, r);
  }

  /** However often it is called, grace never extends an exit past two TTLs after its validation. */
  lemma GraceKeeps(ts: seq<Tracked>, now: int, cfg: Config)
    requires Unique(ts) && AllOk(ts, cfg)
    ensures var r := GraceAll(ts, now, cfg.ttl / 2, cfg.ttl * 2); Unique(r) && AllOk(r, cfg) && SameKeys(ts, r)
  {
    var r := GraceAll(ts, now, cfg.ttl / 2, cfg.ttl * 2);
    forall i | 0 <= i < |ts| ensures ExitOk(r[i], cfg) && KeyOf(r[i].e) == KeyOf(ts[i].e) {
      assert ExitOk(ts[i], cfg);
    }
    SameKeysUnique(ts, r);
  }

  // ---------------------------------------------------------------- every run

  lemma PrunedGood(s: Pool, now: int, cfg: Config)
    requires Good(s, cfg) && s.clock <= now
    ensures Good(Pruned(s, now), cfg)
    ensures forall k :: HasKey(Pruned(s, now).ts, k) ==> HasKey(s.ts, k)
  {
    LiveKeeps(s.ts, now, cfg);
  }

  lemma FailGood(s: Pool, e: Event, cfg: Config)
    requires Good(s, cfg) && Fires(s, e, cfg) && e.Fail?
    ensures Good(Next(s, e, cfg), cfg)
  {
    PrunedGood(s, e.now, cfg);
    var p := Pruned(s, e.now);
    var canEject := Evidence(p.ts, e.report, e.now);
    SieveKeeps(p.ts, e.identity, e.report, e.now, canEject, cfg);
    var q := Next(s, e, cfg);
    forall k | k in q.removed && q.clock < q.removed[k] ensures !HasKey(q.ts, k) {
      QuarantineIsExpulsion(p.ts, p.removed, e.identity, e.report, e.now, canEject, cfg, k);
    }
  }

  lemma SameKeysBarred(s: Pool, q: Pool)
    requires Barred(s) && q.removed == s.removed && s.clock <= q.clock
    requires forall k :: HasKey(q.ts, k) ==> HasKey(s.ts, k)
    ensures Barred(q)
  {}

  lemma SameKeysGood(s: Pool, q: Pool, cfg: Config)
    requires Good(s, cfg) && q.removed == s.removed && s.clock <= q.clock
    requires SameKeys(s.ts, q.ts) && AllOk(q.ts, cfg)
    ensures Good(q, cfg)
  {
    SameKeysUnique(s.ts, q.ts);
    forall k | HasKey(q.ts, k) ensures HasKey(s.ts, k) { SameKeysHave(s.ts, q.ts, k); }
    SameKeysBarred(s, q);
  }

  lemma MergeGood(p: Pool, cs: seq<Exit>, cfg: Config)
    requires Good(p, cfg) && forall i :: 0 <= i < |cs| ==> Stamped(cs[i], cfg.ttl, p.clock)
    ensures Good(p.(ts := MergeAll(p.ts, p.removed, p.clock, cs, cfg.policy, cfg.blend).ts), cfg)
  {
    MergeAllKeeps(p.ts, p.removed, p.clock, cs, cfg);
  }

  lemma SucceedGood(p: Pool, identity: string, sample: int, cfg: Config)
    requires Good(p, cfg)
    ensures Good(p.(ts := SucceedAll(p.ts, identity, p.clock, sample, cfg.blend)), cfg)
  {
    SucceedKeeps(p.ts, identity, p.clock, sample, cfg);
    SameKeysGood(p, p.(ts := SucceedAll(p.ts, identity, p.clock, sample, cfg.blend)), cfg);
  }

  lemma GracedGood(s: Pool, ts: seq<Tracked>, now: int, cfg: Config)
    requires Good(s, cfg) && s.clock <= now && ts == GraceAll(s.ts, now, cfg.ttl / 2, cfg.ttl * 2)
    ensures Good(s.(ts := ts, clock := now), cfg)
  {
    GraceKeeps(s.ts, now, cfg);
    SameKeysGood(s, s.(ts := ts, clock := now), cfg);
  }

  lemma GraceGood(s: Pool, now: int, cfg: Config)
    requires Good(s, cfg) && s.clock <= now
    ensures Good(Next(s, Grace(now), cfg), cfg)
  {
    SameKeysGood(s, s.(clock := now), cfg);
    GracedGood(s, GraceAll(s.ts, now, cfg.ttl / 2, cfg.ttl * 2), now, cfg);
  }

  lemma RemoveGood(s: Pool, identity: string, now: int, cfg: Config)
    requires Good(s, cfg) && s.clock <= now
    ensures Good(s.(ts := Without(s.ts, identity), clock := now), cfg)
  {
    WithoutKeeps(s.ts, identity, cfg);
    SameKeysBarred(s, s.(ts := Without(s.ts, identity), clock := now));
  }

  /** One event keeps keys unique, every retained exit within the policy and the staleness bound,
      its counter in step with its history, and quarantined keys out. */
  lemma NextGood(s: Pool, e: Event, cfg: Config)
    requires Good(s, cfg) && Fires(s, e, cfg)
    ensures Good(Next(s, e, cfg), cfg)
  {
    PrunedGood(s, e.now, cfg);
    var p := Pruned(s, e.now);
    match e
    case Merge(now, incoming) => MergeGood(p, incoming, cfg);
    case Fail(_, _, _) => FailGood(s, e, cfg);
    case Overload(_) =>
    case Prune(_) =>
    case Succeed(identity, now, sample) => SucceedGood(p, identity, sample, cfg);
    case Grace(now) => GraceGood(s, now, cfg);
    case Remove(identity, now) => RemoveGood(s, identity, now, cfg);
  }

  lemma {:induction false} RunGood(s: Pool, es: seq<Event>, cfg: Config)
    requires Good(s, cfg) && Legal(s, es, cfg)
    ensures Good(After(s, es, cfg), cfg)
    decreases |es|
  {
    if es != [] {
      NextGood(s, es[0], cfg);
      RunGood(Next(s, es[0], cfg), es[1..], cfg);
    }
  }

  /** Staleness bound over every run: whatever the run, an exit that the pool still regards as live
      was validated less than two TTLs ago. */
  lemma LiveExitsAreFresh(s: Pool, es: seq<Event>, cfg: Config, i: nat, now: int)
    requires Good(s, cfg) && Legal(s, es, cfg)
    requires i < |After(s, es, cfg).ts| && LiveAt(After(s, es, cfg).ts[i].e, now)
    ensures var e := After(s, es, cfg).ts[i].e; e.validatedAt.Some? && now < e.validatedAt.value + 2 * cfg.ttl
  {
    RunGood(s, es, cfg);
  }

  // ---------------------------------------------------------------- quarantine

  lemma ClockAdvances(s: Pool, e: Event, cfg: Config)
    requires Fires(s, e, cfg)
    ensures Next(s, e, cfg).clock == e.now
  {}

  /** A quarantine entry is kept as long as it is in force. */
  lemma RemovalStays(s: Pool, e: Event, cfg: Config, k: string)
    requires Good(s, cfg) && Fires(s, e, cfg) && k in s.removed && e.now < s.removed[k]
    ensures k in Next(s, e, cfg).removed && Next(s, e, cfg).removed[k] == s.removed[k]
  {
    if e.Fail? {
      PrunedGood(s, e.now, cfg);
      var p := Pruned(s, e.now);
      var canEject := Evidence(p.ts, e.report, e.now);
      QuarantinedGrows(p.ts, p.removed, e.identity, e.report, e.now, canEject, cfg, k);
      QuarantineIsExpulsion(p.ts, p.removed, e.identity, e.report, e.now, canEject, cfg, k);
    }
  }

  lemma {:induction false} QuarantinedGrows(ts: seq<Tracked>, removed: map<string, int>, identity: string,
                                            report: Report, now: int, canEject: bool, cfg: Config, k: string)
    requires k in removed
    ensures k in Quarantined(ts, removed, identity, report, now, cfg.policy, canEject)
  {
    if ts != [] {
      QuarantinedGrows(ts[..|ts| - 1], removed, identity, report, now, canEject, cfg, k);
    }
  }

  lemma {:induction false} StaysOut(s: Pool, es: seq<Event>, cfg: Config, k: string)
    requires Good(s, cfg) && Legal(s, es, cfg) && k in s.removed
    ensures After(s, es, cfg).clock < s.removed[k] ==> !HasKey(After(s, es, cfg).ts, k)
    ensures s.clock <= After(s, es, cfg).clock
    decreases |es|
  {
    if es != [] {
      var q := Next(s, es[0], cfg);
      NextGood(s, es[0], cfg);
      ClockAdvances(s, es[0], cfg);
      if es[0].now < s.removed[k] {
        RemovalStays(s, es[0], cfg, k);
        StaysOut(q, es[1..], cfg, k);
      } else {
        LaterClock(q, es[1..], cfg);
      }
    }
  }

  lemma {:induction false} LaterClock(s: Pool, es: seq<Event>, cfg: Config)
    requires Legal(s, es, cfg)
    ensures s.clock <= After(s, es, cfg).clock
    decreases |es|
  {
    if es != [] {
      ClockAdvances(s, es[0], cfg);
      LaterClock(Next(s, es[0], cfg), es[1..], cfg);
    }
  }

  /** Quarantine over whole runs: once a failure report at time t has taken a key out of the pool, no
      later sequence of merges, reports, grace, pruning and removals puts it back before
      t + REMOVAL_COOLDOWN. */
  lemma RemovedStaysOut(s: Pool, e: Event, es: seq<Event>, cfg: Config, k: string)
    requires Good(s, cfg) && Fires(s, e, cfg) && e.Fail? && Legal(Next(s, e, cfg), es, cfg)
    requires HasKey(Live(s.ts, e.now), k) && !HasKey(Next(s, e, cfg).ts, k)
    requires After(Next(s, e, cfg), es, cfg).clock < e.now + REMOVAL_COOLDOWN
    ensures !HasKey(After(Next(s, e, cfg), es, cfg).ts, k)
  {
    PrunedGood(s, e.now, cfg);
    var p := Pruned(s, e.now);
    ExpulsionIsQuarantine(p.ts, p.removed, e.identity, e.report, e.now, Evidence(p.ts, e.report, e.now), cfg, k);
    FailGood(s, e, cfg);
    StaysOut(Next(s, e, cfg), es, cfg, k);
  }
}
