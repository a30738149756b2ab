/** When an exit is out of service: its standing, told by the reports and merges of a run, and what a transport
    failure or a success then comes to. */
module ExitIsolation {
  import opened Basics
  import opened ExitModel
  import opened ExitRuns
  import opened ExitHistory

  /** Transport failures that count, isolations that count, and the end of the last isolation. */
  datatype Standing = Standing(fails: int, ejections: int, until: Option<int>)

  const CLEAN: Standing := Standing(0, 0, None)

  function StandingOf(t: Tracked): Standing {
    Standing(t.e.healthFails, t.e.ejections, t.e.ejectedUntil)
  }

  function Less(n: int): int {
    if n > 0 then n - 1 else n
  }

  /** One more isolation: each is longer than the last by the base duration, up to the longest one. */
  function Punished(st: Standing, now: int, policy: Policy): Standing {
    var n := st.ejections + 1;
    var length := if policy.baseDuration * n < policy.maxDuration then policy.baseDuration * n else policy.maxDuration;
    st.(ejections := n, until := Some(now + length))
  }

  /** A failure: the transport failure that reaches the limit isolates and starts the count again; an HTTP failure
      isolates when it completes a `full` run. */
  function Blamed(st: Standing, report: Report, full: bool, now: int, policy: Policy): Standing {
    if report.Http? then if full then Punished(st, now, policy) else st
    else if st.fails + 1 < policy.failureLimit then st.(fails := st.fails + 1)
    else Punished(st, now, policy).(fails := 0)
  }

  /** A success takes one failure and one isolation off, and ends the isolation. */
  function Forgiven(st: Standing): Standing {
    Standing(Less(st.fails), Less(st.ejections), None)
  }

  /** Each candidate of that key that a merge lets in takes one failure off, and nothing else. */
  function Relief(cs: seq<Exit>, removed: map<string, int>, now: int, key: string, fails: int): int {
    if cs == [] then fails
    else
      var last, before := cs[|cs| - 1], Relief(cs[..|cs| - 1], removed, now, key, fails);
      if KeyOf(last) == key && !Refused(removed, last, now) then Less(before) else before
  }

  /** The standing after one event of the exit known by `key`; an exit that was not there before has a clean one. */
  ghost function StandingNext(s: Pool, e: Event, cfg: Config, key: string, h: seq<Mark>, st: Standing): Standing {
    match At(Found(s, e), key)
    case None => CLEAN
    case Some(t) =>
      match e
      case Fail(identity, report, now) =>
        var full := RecentSuccess(Found(s, e), now)
          && RunLength(h + [Failed(now)]) >= cfg.policy.httpFailureLimit;
        if Matches(t.e, identity) then Blamed(st, report, full, now, cfg.policy) else st
      case Succeed(identity, _, _) => if Matches(t.e, identity) then Forgiven(st) else st
      case Merge(now, incoming) =>
        st.(fails := Relief(incoming, LiveRemovals(s.removed, now), now, key, st.fails))
      case _ => st
  }

  /** The standing at the end of a run that started with the history `h` and the standing `st`. */
  ghost function StandingAfter(s: Pool, es: seq<Event>, cfg: Config, key: string, h: seq<Mark>,
                               st: Standing): Standing
    decreases |es|
  {
    if es == [] then st
    else StandingAfter(Next(s, es[0], cfg), es[1..], cfg, key, HistoryNext(s, es[0], cfg, key, h),
      StandingNext(s, es[0], cfg, key, h, st))
  }

  /** The exit of that key, if it is there, has that standing. */
  ghost predicate Stands(s: Pool, key: string, st: Standing) {
    At(s.ts, key).Some? ==> StandingOf(At(s.ts, key).value) == st
  }

  // ---------------------------------------------------------------- failures

  lemma FateStands(t: Tracked, report: Report, now: int, canEject: bool, cfg: Config)
    requires ExitOk(t, cfg) && Normal(cfg.policy) && (report.Transport? ==> canEject)
    ensures var full := canEject && RunLength(t.h + [Failed(now)]) >= cfg.policy.httpFailureLimit;
            var after := Blamed(StandingOf(t), report, full, now, cfg.policy);
            match Treat(t, report, now, cfg.policy, canEject)
            case Stays(u, _) => StandingOf(u) == after && after.ejections <= cfg.policy.maxEjections
            case Leaves => after.ejections > cfg.policy.maxEjections
  {
    if report.Http? {
      IsolationExact(t, now, cfg.policy, canEject);
    }
  }

  /** What a failure report makes of the standing of an exit that it leaves. */
  lemma SiftedStands(t: Tracked, identity: string, report: Report, now: int, canEject: bool, cfg: Config)
    requires ExitOk(t, cfg) && Normal(cfg.policy) && (report.Transport? ==> canEject)
    ensures var after := Sifted(Some(t), identity, report, now, cfg.policy, canEject);
            var full := canEject && RunLength(t.h + [Failed(now)]) >= cfg.policy.httpFailureLimit;
            var due := if Matches(t.e, identity) then Blamed(StandingOf(t), report, full, now, cfg.policy)
              else StandingOf(t);
            after.Some? ==> StandingOf(after.value) == due
  {
    FateStands(t, report, now, canEject, cfg);
  }

  lemma FailFound(s: Pool, e: Event, cfg: Config, key: string)
    requires Good(s, cfg) && Fires(s, e, cfg) && e.Fail?
    ensures var live := Live(s.ts, e.now);
            && At(Next(s, e, cfg).ts, key)
               == Sifted(At(live, key), e.identity, e.report, e.now, cfg.policy, Evidence(live, e.report, e.now))
            && (At(live, key).Some? ==> ExitOk(At(live, key).value, cfg) && At(s.ts, key) == At(live, key))
  {
    PrunedGood(s, e.now, cfg);
    AtLive(s.ts, e.now, key);
    var live := Live(s.ts, e.now);
    AtSieve(live, e.identity, e.report, e.now, Evidence(live, e.report, e.now), cfg, key);
    AtMeans(live, key);
  }

  lemma FailStands(s: Pool, e: Event, cfg: Config, key: string, h: seq<Mark>, st: Standing)
    requires Good(s, cfg) && Fires(s, e, cfg) && e.Fail? && Tells(s, key, h) && Stands(s, key, st)
    ensures Stands(Next(s, e, cfg), key, StandingNext(s, e, cfg, key, h, st))
  {
    FailFound(s, e, cfg, key);
    var live := Live(s.ts, e.now);
    if At(live, key).Some? {
      SiftedStands(At(live, key).value, e.identity, e.report, e.now, Evidence(live, e.report, e.now), cfg);
    }
  }

  // ---------------------------------------------------------------- successes and grace

  lemma SucceedStands(s: Pool, e: Event, cfg: Config, key: string, h: seq<Mark>, st: Standing)
    requires Good(s, cfg) && Fires(s, e, cfg) && e.Succeed? && Stands(s, key, st)
    ensures Stands(Next(s, e, cfg), key, StandingNext(s, e, cfg, key, h, st))
  {
    AtLive(s.ts, e.now, key);
    var live := Live(s.ts, e.now);
    AtSucceed(live, e.identity, e.now, e.sample, cfg, key);
    if At(live, key).Some? {
      PraisedStands(At(live, key).value, e.identity, e.now, e.sample, cfg.blend);
    }
  }

  lemma PraisedStands(t: Tracked, identity: string, now: int, sample: int, blend: (int, int) -> int)
    ensures StandingOf(Praised(t, identity, now, sample, blend))
            == if Matches(t.e, identity) then Forgiven(StandingOf(t)) else StandingOf(t)
  {}

  lemma GraceStands(s: Pool, e: Event, cfg: Config, key: string, h: seq<Mark>, st: Standing)
    requires Good(s, cfg) && Fires(s, e, cfg) && e.Grace? && Stands(s, key, st)
    ensures Stands(Next(s, e, cfg), key, StandingNext(s, e, cfg, key, h, st))
  {
    AtGrace(s.ts, e.now, cfg.ttl / 2, cfg.ttl * 2, key);
  }

  // ---------------------------------------------------------------- merges

  /** The standing of the exit of that key; a clean one if there is none. */
  function Known(ts: seq<Tracked>, key: string): Standing {
    match At(ts, key) case None => CLEAN case Some(t) => StandingOf(t)
  }

  /** What merging the candidate makes of the standing. */
  function Eased(st: Standing, c: Exit, removed: map<string, int>, now: int, key: string): Standing {
    if KeyOf(c) == key && !Refused(removed, c, now) then st.(fails := Less(st.fails)) else st
  }

  lemma AppendKnown(m: Merging, c: Exit, ttl: int, now: int, key: string)
    requires Indexed(m) && KeyOf(c) !in m.index && Stamped(c, ttl, now)
    ensures Known(m.ts + [Tracked(c, [])], key) == Known(m.ts, key)
    ensures KeyOf(c) == key ==> Known(m.ts, key) == CLEAN
  {
    AppendIndexed(m, Tracked(c, []));
    AtSnoc(m.ts, Tracked(c, []), key);
    AtMeans(m.ts, key);
  }

  /** A refresh takes a failure off and leaves the isolation alone. */
  lemma RefreshKnown(ts: seq<Tracked>, at: nat, c: Exit, latency: int, key: string)
    requires at < |ts| && Unique(ts) && KeyOf(Refresh(ts[at], c, latency).e) == KeyOf(ts[at].e)
    ensures var before := Known(ts, key);
            Known(ts[at := Refresh(ts[at], c, latency)], key)
            == if KeyOf(ts[at].e) == key then before.(fails := Less(before.fails)) else before
  {
    AtUpdate(ts, at, Refresh(ts[at], c, latency), key);
  }

  lemma MergeOneKnown(m: Merging, ts: seq<Tracked>, removed: map<string, int>, now: int, c: Exit, cfg: Config,
                      key: string)
    requires Normal(cfg.policy) && Stamped(c, cfg.ttl, now) && Admitted(m, ts, removed, now, cfg)
    ensures Known(MergeOne(m, removed, now, c, cfg.policy, cfg.blend).ts, key)
            == Eased(Known(m.ts, key), c, removed, now, key)
  {
    if !Refused(removed, c, now) {
      if KeyOf(c) !in m.index {
        AppendKnown(m, c, cfg.ttl, now, key);
      } else {
        var at := m.index[KeyOf(c)];
        var latency := if c.latency > 0 then cfg.blend(m.ts[at].e.latency, c.latency) else m.ts[at].e.latency;
        RefreshKeeps(m.ts[at], c, latency, now, cfg);
        RefreshKnown(m.ts, at, c, latency, key);
      }
    }
  }

  /** A merge takes failures off and leaves isolations alone. */
  lemma {:induction false} MergeAllKnown(ts: seq<Tracked>, removed: map<string, int>, now: int, cs: seq<Exit>,
                                         cfg: Config, key: string)
    requires Normal(cfg.policy) && Unique(ts) && AllOk(ts, cfg)
    requires forall i :: 0 <= i < |cs| ==> Stamped(cs[i], cfg.ttl, now)
    ensures var before := Known(ts, key);
            Known(MergeAll(ts, removed, now, cs, cfg.policy, cfg.blend).ts, key)
            == before.(fails := Relief(cs, removed, now, key, before.fails))
  {
    if cs != [] {
      MergeAllKnown(ts, removed, now, cs[..|cs| - 1], cfg, key);
      MergeAllKeeps(ts, removed, now, cs[..|cs| - 1], cfg);
      MergeOneKnown(MergeAll(ts, removed, now, cs[..|cs| - 1], cfg.policy, cfg.blend), ts, removed, now, cs[|cs| - 1],
        cfg, key);
    }
  }

  lemma {:induction false} NoRelief(cs: seq<Exit>, removed: map<string, int>, now: int, key: string)
    ensures Relief(cs, removed, now, key, 0) == 0
  {
    if cs != [] {
      NoRelief(cs[..|cs| - 1], removed, now, key);
    }
  }

  lemma MergeStands(s: Pool, e: Event, cfg: Config, key: string, h: seq<Mark>, st: Standing)
    requires Good(s, cfg) && Fires(s, e, cfg) && e.Merge? && Stands(s, key, st)
    ensures Stands(Next(s, e, cfg), key, StandingNext(s, e, cfg, key, h, st))
  {
    PrunedGood(s, e.now, cfg);
    AtLive(s.ts, e.now, key);
    var p := Pruned(s, e.now);
    MergeAllKnown(p.ts, p.removed, e.now, e.incoming, cfg, key);
    NoRelief(e.incoming, p.removed, e.now, key);
  }

  // ---------------------------------------------------------------- runs

  lemma NextStands(s: Pool, e: Event, cfg: Config, key: string, h: seq<Mark>, st: Standing)
    requires Good(s, cfg) && Fires(s, e, cfg) && Tells(s, key, h) && Stands(s, key, st)
    ensures Stands(Next(s, e, cfg), key, StandingNext(s, e, cfg, key, h, st))
  {
    match e
    case Merge(_, _) => MergeStands(s, e, cfg, key, h, st);
    case Fail(_, _, _) => FailStands(s, e, cfg, key, h, st);
    case Succeed(_, _, _) => SucceedStands(s, e, cfg, key, h, st);
    case Grace(_) => GraceStands(s, e, cfg, key, h, st);
    case Remove(identity, _) => AtWithout(s.ts, identity, key);
    case Overload(now) => AtLive(s.ts, now, key);
    case Prune(now) => AtLive(s.ts, now, key);
  }

  /** Over every run the failure count, the isolation count and the end of the isolation of an exit are what the
      reports and merges of the run make them. */
  lemma {:induction false} StandingTellsRun(s: Pool, es: seq<Event>, cfg: Config, key: string, h: seq<Mark>,
                                            st: Standing)
    requires Good(s, cfg) && Legal(s, es, cfg) && Tells(s, key, h) && Stands(s, key, st)
    ensures Stands(After(s, es, cfg), key, StandingAfter(s, es, cfg, key, h, st))
    decreases |es|
  {
    if es != [] {
      NextStands(s, es[0], cfg, key, h, st);
      NextTells(s, es[0], cfg, key, h);
      NextGood(s, es[0], cfg);
      StandingTellsRun(Next(s, es[0], cfg), es[1..], cfg, key, HistoryNext(s, es[0], cfg, key, h),
        StandingNext(s, es[0], cfg, key, h, st));
    }
  }

  /** What a transport failure makes of an exit of standing `st`: below the limit it is counted and nothing else; at
      the limit the exit is gone if that is one isolation too many, and otherwise out of service, until the base
      duration times the number of its isolations or the longest duration is over, with its count at zero. */
  ghost predicate StruckBy(st: Standing, after: Option<Tracked>, now: int, policy: Policy) {
    if st.fails + 1 < policy.failureLimit then
      after.Some? && StandingOf(after.value) == st.(fails := st.fails + 1)
    else if st.ejections + 1 > policy.maxEjections then after.None?
    else
      && after.Some? && after.value.e.healthFails == 0 && after.value.e.ejections == st.ejections + 1
      && OutFor(after.value.e, now, policy)
  }

  /** Isolation by transport failures over whole runs: after any run, what a transport failure does to a live exit is
      decided by the failures that the run has left it with. */
  lemma TransportOnRuns(s: Pool, es: seq<Event>, cfg: Config, identity: string, now: int, t: Tracked, h: seq<Mark>,
                        st: Standing)
    requires Good(s, cfg) && Legal(s, es, cfg) && Tells(s, KeyOf(t.e), h) && Stands(s, KeyOf(t.e), st)
    requires After(s, es, cfg).clock <= now
    requires At(Live(After(s, es, cfg).ts, now), KeyOf(t.e)) == Some(t)
    requires t.e.address == identity || KeyOf(t.e) == identity
    ensures var p := After(s, es, cfg);
            StruckBy(StandingAfter(s, es, cfg, KeyOf(t.e), h, st),
              At(Next(p, Fail(identity, Transport, now), cfg).ts, KeyOf(t.e)), now, cfg.policy)
  {
    var p := After(s, es, cfg);
    RunGood(s, es, cfg);
    StandingTellsRun(s, es, cfg, KeyOf(t.e), h, st);
    TransportFrom(p, cfg, identity, now, t);
  }

  lemma TransportStrikes(t: Tracked, identity: string, now: int, cfg: Config)
    requires ExitOk(t, cfg) && Normal(cfg.policy) && Matches(t.e, identity)
    ensures StruckBy(StandingOf(t), Sifted(Some(t), identity, Transport, now, cfg.policy, true), now, cfg.policy)
  {
    FateStands(t, Transport, now, true, cfg);
  }

  lemma TransportFrom(p: Pool, cfg: Config, identity: string, now: int, t: Tracked)
    requires Good(p, cfg) && p.clock <= now
    requires At(Live(p.ts, now), KeyOf(t.e)) == Some(t) && Matches(t.e, identity)
    ensures At(p.ts, KeyOf(t.e)) == Some(t)
    ensures StruckBy(StandingOf(t), At(Next(p, Fail(identity, Transport, now), cfg).ts, KeyOf(t.e)), now, cfg.policy)
  {
    FailFound(p, Fail(identity, Transport, now), cfg, KeyOf(t.e));
    TransportStrikes(t, identity, now, cfg);
  }

  /** A success puts an isolated exit back into service at once. */
  lemma SuccessFrees(s: Pool, cfg: Config, identity: string, now: int, sample: int, t: Tracked)
    requires Good(s, cfg) && s.clock <= now
    requires At(Live(s.ts, now), KeyOf(t.e)) == Some(t)
    requires t.e.address == identity || KeyOf(t.e) == identity
    ensures var after := At(Next(s, Succeed(identity, now, sample), cfg).ts, KeyOf(t.e));
            && after.Some? && AvailableAt(after.value.e, now)
            && after.value.e.httpFails == 0 && after.value.e.lastRequestSuccessAt == Some(now)
            && (forall x :: AvailableAt(after.value.e, x) <==> LiveAt(t.e, x))
  {
    AtLive(s.ts, now, KeyOf(t.e));
    AtSucceed(Live(s.ts, now), identity, now, sample, cfg, KeyOf(t.e));
    LiveOnly(s.ts, now, KeyOf(t.e));
  }

  lemma LiveOnly(ts: seq<Tracked>, now: int, key: string)
    requires Unique(ts)
    ensures At(Live(ts, now), key).Some? ==> LiveAt(At(Live(ts, now), key).value.e, now)
  {
    AtLive(ts, now, key);
  }

  /** The candidate has not expired and its key is not in quarantine. */
  predicate Welcome(removed: map<string, int>, c: Exit, now: int) {
    LiveAt(c, now) && (KeyOf(c) in removed ==> removed[KeyOf(c)] <= now)
  }

  /** A merge lets every live candidate in that is not quarantined, and the exits that were there stay. */
  lemma {:induction false} MergeAdmits(ts: seq<Tracked>, removed: map<string, int>, now: int, cs: seq<Exit>,
                                       cfg: Config, key: string)
    requires Normal(cfg.policy) && Unique(ts) && AllOk(ts, cfg)
    requires forall i :: 0 <= i < |cs| ==> Stamped(cs[i], cfg.ttl, now)
    ensures HasKey(MergeAll(ts, removed, now, cs, cfg.policy, cfg.blend).ts, key) <==>
              HasKey(ts, key) || exists i :: 0 <= i < |cs| && KeyOf(cs[i]) == key && Welcome(removed, cs[i], now)
  {
    if cs != [] {
      var front := cs[..|cs| - 1];
      MergeAdmits(ts, removed, now, front, cfg, key);
      MergeAllKeeps(ts, removed, now, front, cfg);
      var m := MergeAll(ts, removed, now, front, cfg.policy, cfg.blend);
      MergeOneAdmits(m, ts, removed, now, cs[|cs| - 1], cfg, key);
      if i :| 0 <= i < |front| && KeyOf(front[i]) == key && Welcome(removed, front[i], now) {
        assert cs[i] == front[i];
      }
      if i :| 0 <= i < |cs| && KeyOf(cs[i]) == key && Welcome(removed, cs[i], now) {
        if i < |front| {
          assert front[i] == cs[i];
        }
      }
    }
  }

  lemma MergeOneAdmits(m: Merging, ts: seq<Tracked>, removed: map<string, int>, now: int, c: Exit, cfg: Config,
                       key: string)
    requires Normal(cfg.policy) && Stamped(c, cfg.ttl, now) && Admitted(m, ts, removed, now, cfg)
    ensures HasKey(MergeOne(m, removed, now, c, cfg.policy, cfg.blend).ts, key) <==>
              HasKey(m.ts, key) || (KeyOf(c) == key && Welcome(removed, c, now))
  {
    if !Refused(removed, c, now) {
      if KeyOf(c) !in m.index {
        HasKeySnoc(m.ts, Tracked(c, []), key);
      } else {
        var at := m.index[KeyOf(c)];
        var latency := if c.latency > 0 then cfg.blend(m.ts[at].e.latency, c.latency) else m.ts[at].e.latency;
        RefreshKeeps(m.ts[at], c, latency, now, cfg);
        RefreshedHas(m.ts, at, Refresh(m.ts[at], c, latency), key);
      }
    }
  }

  /** The last candidate of that key that a merge lets in. */
  function LastWelcome(cs: seq<Exit>, removed: map<string, int>, now: int, key: string): Option<Exit> {
    if cs == [] then None
    else if KeyOf(cs[|cs| - 1]) == key && Welcome(removed, cs[|cs| - 1], now) then Some(cs[|cs| - 1])
    else LastWelcome(cs[..|cs| - 1], removed, now, key)
  }

  /** The exit is as the candidate says, validated and to expire when it is. */
  ghost predicate AsValidated(t: Option<Tracked>, c: Exit) {
    && t.Some? && t.value.e.validatedAt == c.validatedAt && t.value.e.expiresAt == c.expiresAt
    && t.value.e.address == c.address && t.value.e.user == c.user && t.value.e.password == c.password
  }

  /** A merge renews an exit by the last candidate of its key that it lets in, so that the exit lives as long as that
      one; without such a candidate the exit stays as it is. */
  lemma {:induction false} MergeRenews(ts: seq<Tracked>, removed: map<string, int>, now: int, cs: seq<Exit>,
                                       cfg: Config, key: string)
    requires Normal(cfg.policy) && Unique(ts) && AllOk(ts, cfg)
    requires forall i :: 0 <= i < |cs| ==> Stamped(cs[i], cfg.ttl, now)
    ensures var after := At(MergeAll(ts, removed, now, cs, cfg.policy, cfg.blend).ts, key);
            match LastWelcome(cs, removed, now, key) case None => after == At(ts, key) case Some(c) =>
              AsValidated(after, c)
  {
    if cs != [] {
      var front := cs[..|cs| - 1];
      MergeRenews(ts, removed, now, front, cfg, key);
      MergeAllKeeps(ts, removed, now, front, cfg);
      MergeOneRenews(MergeAll(ts, removed, now, front, cfg.policy, cfg.blend), ts, removed, now, cs[|cs| - 1], cfg,
        key);
    }
  }

  lemma MergeOneRenews(m: Merging, ts: seq<Tracked>, removed: map<string, int>, now: int, c: Exit, cfg: Config,
                       key: string)
    requires Normal(cfg.policy) && Stamped(c, cfg.ttl, now) && Admitted(m, ts, removed, now, cfg)
    ensures var after := At(MergeOne(m, removed, now, c, cfg.policy, cfg.blend).ts, key);
            if KeyOf(c) == key && Welcome(removed, c, now) then AsValidated(after, c) else after == At(m.ts, key)
  {
    if !Refused(removed, c, now) {
      if KeyOf(c) !in m.index {
        AtSnoc(m.ts, Tracked(c, []), key);
      } else {
        var at := m.index[KeyOf(c)];
        var latency := if c.latency > 0 then cfg.blend(m.ts[at].e.latency, c.latency) else m.ts[at].e.latency;
        RefreshKeeps(m.ts[at], c, latency, now, cfg);
        KeyInjective(m.ts[at].e, c);
        AtUpdate(m.ts, at, Refresh(m.ts[at], c, latency), key);
      }
    }
  }

  lemma RefreshedHas(ts: seq<Tracked>, at: nat, u: Tracked, key: string)
    requires at < |ts| && KeyOf(u.e) == KeyOf(ts[at].e)
    ensures HasKey(ts[at := u], key) <==> HasKey(ts, key)
    ensures HasKey(ts, KeyOf(ts[at].e))
  {
    var r := ts[at := u];
    if HasKey(ts, key) {
      var i :| 0 <= i < |ts| && KeyOf(ts[i].e) == key;
      assert KeyOf(r[i].e) == key;
    }
    if HasKey(r, key) {
      var i :| 0 <= i < |r| && KeyOf(r[i].e) == key;
      assert KeyOf(ts[i].e) == key;
    }
  }

  /** Grace extends a live, validated exit by its length or to the cap, whichever is less, never shortens a life and
      touches nothing else. */
  lemma GraceMeans(t: Tracked, now: int, grace: int, maxLifetime: int)
    requires LiveAt(t.e, now) && t.e.validatedAt.Some?
    ensures var u := GraceOne(t, now, grace, maxLifetime);
            && u == t.(e := t.e.(expiresAt := u.e.expiresAt))
            && (forall x :: LiveAt(u.e, x) <==>
                  || x < t.e.expiresAt
                  || (x < t.e.expiresAt + grace && x < t.e.validatedAt.value + maxLifetime))
  {}
}
