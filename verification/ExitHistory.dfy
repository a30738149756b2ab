/** The history behind an exit's HTTP failure counter, told by the reports of a run, and what that says about
    isolation. */
module ExitHistory {
  import opened Basics
  import opened ExitModel
  import opened ExitRuns

  /** The exit of that key. */
  function At(ts: seq<Tracked>, key: string): Option<Tracked> {
    if ts == [] then None
    else if KeyOf(ts[|ts| - 1].e) == key then Some(ts[|ts| - 1])
    else At(ts[..|ts| - 1], key)
  }

  /** The exits that an event finds: most events prune first. */
  function Found(s: Pool, e: Event): seq<Tracked> {
    if e.Grace? || e.Remove? then s.ts else Live(s.ts, e.now)
  }

  /** What a report adds to the history `h` of an exit: a counted failure; with it an isolation, when some exit
      served a 2xx in the last minute and the run of failures has full length; or a success. */
  ghost function Marked(h: seq<Mark>, exit: Exit, found: seq<Tracked>, e: Event, cfg: Config): seq<Mark> {
    if e.Fail? && e.report.Http? && Matches(exit, e.identity) then
      var seen := h + [Failed(e.now)];
      if RecentSuccess(found, e.now) && RunLength(seen) >= cfg.policy.httpFailureLimit then seen + [Reset] else seen
    else if e.Succeed? && Matches(exit, e.identity) then h + [Reset]
    else h
  }

  /** The history after one event of the exit known by `key`; an exit that was not there before has none. */
  ghost function HistoryNext(s: Pool, e: Event, cfg: Config, key: string, h: seq<Mark>): seq<Mark> {
    match At(Found(s, e), key)
    case None => []
    case Some(t) => Marked(h, t.e, Found(s, e), e, cfg)
  }

  /** The history of the exit known by `key` at the end of a run that started with the history `h`: it is told by
      the events and by which exits there are, never by the stored histories. */
  ghost function History(s: Pool, es: seq<Event>, cfg: Config, key: string, h: seq<Mark>): seq<Mark>
    decreases |es|
  {
    if es == [] then h else History(Next(s, es[0], cfg), es[1..], cfg, key, HistoryNext(s, es[0], cfg, key, h))
  }

  function Stored(ts: seq<Tracked>, key: string): seq<Mark> {
    match At(ts, key) case None => [] case Some(t) => t.h
  }

  // ---------------------------------------------------------------- looking up by key

  lemma {:induction false} AtMeans(ts: seq<Tracked>, key: string)
    ensures At(ts, key).Some? <==> HasKey(ts, key)
    ensures At(ts, key).Some? ==> At(ts, key).value in ts && KeyOf(At(ts, key).value.e) == key
  {
    if ts != [] {
      Split(ts, key);
      AtMeans(ts[..|ts| - 1], key);
    }
  }

  lemma AtSnoc(ts: seq<Tracked>, t: Tracked, key: string)
    ensures At(ts + [t], key) == if KeyOf(t.e) == key then Some(t) else At(ts, key)
  {
    assert (ts + [t])[..|ts|] == ts;
  }

  lemma {:induction false} AtLive(ts: seq<Tracked>, now: int, key: string)
    requires Unique(ts)
    ensures At(Live(ts, now), key) == match At(ts, key) case None => None case Some(t) => if LiveAt(t.e, now)
            then Some(t) else None
  {
    if ts != [] {
      var front, last := ts[..|ts| - 1], ts[|ts| - 1];
      AtLive(front, now, key);
      AtMeans(front, key);
      if LiveAt(last.e, now) {
        AtSnoc(Live(front, now), last, key);
      } else {
        assert Live(ts, now) == Live(front, now);
      }
    }
  }

  lemma {:induction false} AtWithout(ts: seq<Tracked>, identity: string, key: string)
    requires Unique(ts)
    ensures At(Without(ts, identity), key) ==
            match At(ts, key) case None => None case Some(t) => if Matches(t.e, identity) then None else Some(t)
  {
    if ts != [] {
      var front, last := ts[..|ts| - 1], ts[|ts| - 1];
      AtWithout(front, identity, key);
      AtMeans(front, key);
      if Matches(last.e, identity) {
        assert Without(ts, identity) == Without(front, identity);
      } else {
        AtSnoc(Without(front, identity), last, key);
      }
    }
  }

  /** What a failure report makes of the exit of that key. */
  function Sifted(t: Option<Tracked>, identity: string, report: Report, now: int, policy: Policy,
                  canEject: bool): Option<Tracked> {
    match t
    case None => None
    case Some(t) =>
      if !Matches(t.e, identity) then Some(t)
      else match Treat(t, report, now, policy, canEject) case Stays(u, _) => Some(u) case Leaves => None
  }

  lemma {:induction false} AtSieve(ts: seq<Tracked>, identity: string, report: Report, now: int, canEject: bool,
                                   cfg: Config, key: string)
    requires Unique(ts) && AllOk(ts, cfg) && Normal(cfg.policy)
    ensures At(Sieve(ts, identity, report, now, cfg.policy, canEject), key)
            == Sifted(At(ts, key), identity, report, now, cfg.policy, canEject)
  {
    if ts != [] {
      var front, last := ts[..|ts| - 1], ts[|ts| - 1];
      AtSieve(front, identity, report, now, canEject, cfg, key);
      AtMeans(front, key);
      TreatKeeps(last, report, now, canEject, cfg);
      var rest := Sieve(front, identity, report, now, cfg.policy, canEject);
      var fate := Treat(last, report, now, cfg.policy, canEject);
      if !Matches(last.e, identity) {
        AtSnoc(rest, last, key);
      } else if fate.Stays? {
        AtSnoc(rest, fate.t, key);
      } else {
        assert Sieve(ts, identity, report, now, cfg.policy, canEject) == rest;
      }
    }
  }

  /** Position by position the same keys, and histories that `change` relates. */
  lemma {:induction false} AtChanged(ts: seq<Tracked>, r: seq<Tracked>, change: Tracked -> Tracked, key: string)
    requires |r| == |ts| && forall i :: 0 <= i < |ts| ==> r[i] == change(ts[i]) && KeyOf(r[i].e) == KeyOf(ts[i].e)
    ensures At(r, key) == match At(ts, key) case None => None case Some(t) => Some(change(t))
  {
    if ts != [] {
      AtChanged(ts[..|ts| - 1], r[..|r| - 1], change, key);
    }
  }

  lemma {:induction false} AtUpdate(ts: seq<Tracked>, at: nat, u: Tracked, key: string)
    requires at < |ts| && Unique(ts) && KeyOf(u.e) == KeyOf(ts[at].e)
    ensures At(ts[at := u], key) == if KeyOf(ts[at].e) == key then Some(u) else At(ts, key)
    ensures KeyOf(ts[at].e) == key ==> At(ts, key) == Some(ts[at])
  {
    var n := |ts| - 1;
    if at < n {
      assert ts[at := u][..n] == ts[..n][at := u];
      AtUpdate(ts[..n], at, u, key);
      AtMeans(ts[..n], key);
      assert KeyOf(ts[at].e) == key ==> HasKey(ts[..n], key) by { assert ts[..n][at] == ts[at]; }
    } else {
      assert ts[at := u][..n] == ts[..n];
    }
  }

  // ---------------------------------------------------------------- merging keeps histories

  lemma AppendStored(m: Merging, c: Exit, key: string)
    requires Indexed(m) && KeyOf(c) !in m.index
    ensures Stored(m.ts + [Tracked(c, [])], key) == Stored(m.ts, key)
  {
    AppendIndexed(m, Tracked(c, []));
    AtSnoc(m.ts, Tracked(c, []), key);
    AtMeans(m.ts, key);
  }

  lemma UpdateStored(ts: seq<Tracked>, at: nat, u: Tracked, key: string)
    requires at < |ts| && Unique(ts) && KeyOf(u.e) == KeyOf(ts[at].e) && u.h == ts[at].h
    ensures Stored(ts[at := u], key) == Stored(ts, key)
  {
    AtUpdate(ts, at, u, key);
  }

  lemma MergeOneStored(m: Merging, ts: seq<Tracked>, removed: map<string, int>, now: int, c: Exit, cfg: Config,
                       key: string)
    requires Normal(cfg.policy) && Stamped(c, cfg.ttl, now) && Admitted(m, ts, removed, now, cfg)
    ensures Stored(MergeOne(m, removed, now, c, cfg.policy, cfg.blend).ts, key) == Stored(m.ts, key)
  {
    if !Refused(removed, c, now) {
      if KeyOf(c) !in m.index {
        AppendStored(m, c, key);
      } else {
        var at := m.index[KeyOf(c)];
        var latency := if c.latency > 0 then cfg.blend(m.ts[at].e.latency, c.latency) else m.ts[at].e.latency;
        RefreshKeeps(m.ts[at], c, latency, now, cfg);
        UpdateStored(m.ts, at, Refresh(m.ts[at], c, latency), key);
      }
    }
  }

  lemma {:induction false} MergeAllStored(ts: seq<Tracked>, removed: map<string, int>, now: int, cs: seq<Exit>,
                                          cfg: Config, key: string)
    requires Normal(cfg.policy) && Unique(ts) && AllOk(ts, cfg)
    requires forall i :: 0 <= i < |cs| ==> Stamped(cs[i], cfg.ttl, now)
    ensures Stored(MergeAll(ts, removed, now, cs, cfg.policy, cfg.blend).ts, key) == Stored(ts, key)
  {
    if cs != [] {
      MergeAllStored(ts, removed, now, cs[..|cs| - 1], cfg, key);
      MergeAllKeeps(ts, removed, now, cs[..|cs| - 1], cfg);
      MergeOneStored(MergeAll(ts, removed, now, cs[..|cs| - 1], cfg.policy, cfg.blend), ts, removed, now, cs[|cs| - 1],
        cfg, key);
    }
  }

  // ---------------------------------------------------------------- stored histories are told by the run

  /** The stored history of a pool's exits is `h` for the key, if the exit is there. */
  ghost predicate Tells(s: Pool, key: string, h: seq<Mark>) {
    At(s.ts, key).Some? ==> Stored(s.ts, key) == h
  }

  /** The fate of one exit under an HTTP failure report, and what it leaves in the history. */
  lemma HttpFate(t: Tracked, now: int, canEject: bool, cfg: Config)
    requires ExitOk(t, cfg) && Normal(cfg.policy)
    ensures var seen := t.h + [Failed(now)];
            var full := canEject && RunLength(seen) >= cfg.policy.httpFailureLimit;
            match Treat(t, Http, now, cfg.policy, canEject)
            case Leaves => full && t.e.ejections + 1 > cfg.policy.maxEjections
            case Stays(u, _) =>
              if full then
                && u.h == seen + [Reset] && u.e.ejections == t.e.ejections + 1 <= cfg.policy.maxEjections
                && OutFor(u.e, now, cfg.policy)
              else u.h == seen && u.e.ejections == t.e.ejections && u.e.ejectedUntil == t.e.ejectedUntil
  {
    IsolationExact(t, now, cfg.policy, canEject);
  }

  lemma TransportFate(t: Tracked, now: int, canEject: bool, cfg: Config)
    ensures match Treat(t, Transport, now, cfg.policy, canEject) case Leaves => true case Stays(u, _) => u.h == t.h
  {}

  lemma FateTells(t: Tracked, found: seq<Tracked>, e: Event, cfg: Config)
    requires ExitOk(t, cfg) && Normal(cfg.policy) && e.Fail?
    ensures var after := Sifted(Some(t), e.identity, e.report, e.now, cfg.policy, Evidence(found, e.report, e.now));
            after.Some? ==> after.value.h == Marked(t.h, t.e, found, e, cfg)
  {
    match e.report
    case Http => HttpFate(t, e.now, Evidence(found, Http, e.now), cfg);
    case Transport => TransportFate(t, e.now, Evidence(found, Transport, e.now), cfg);
  }

  lemma FailTells(s: Pool, e: Event, cfg: Config, key: string, h: seq<Mark>)
    requires Good(s, cfg) && Fires(s, e, cfg) && e.Fail? && Tells(s, key, h)
    ensures Tells(Next(s, e, cfg), key, HistoryNext(s, e, cfg, key, h))
  {
    PrunedGood(s, e.now, cfg);
    AtLive(s.ts, e.now, key);
    var live := Live(s.ts, e.now);
    AtSieve(live, e.identity, e.report, e.now, Evidence(live, e.report, e.now), cfg, key);
    if At(live, key).Some? {
      AtMeans(live, key);
      FateTells(At(live, key).value, live, e, cfg);
    }
  }

  lemma AtSucceed(ts: seq<Tracked>, identity: string, now: int, sample: int, cfg: Config, key: string)
    ensures At(SucceedAll(ts, identity, now, sample, cfg.blend), key)
            == match At(ts, key) case None => None case Some(t) => Some(Praised(t, identity, now, sample, cfg.blend))
  {
    AtChanged(ts, SucceedAll(ts, identity, now, sample, cfg.blend),
      (t: Tracked) => Praised(t, identity, now, sample, cfg.blend), key);
  }

  lemma SucceedTells(s: Pool, e: Event, cfg: Config, key: string, h: seq<Mark>)
    requires Good(s, cfg) && Fires(s, e, cfg) && e.Succeed? && Tells(s, key, h)
    ensures Tells(Next(s, e, cfg), key, HistoryNext(s, e, cfg, key, h))
  {
    AtLive(s.ts, e.now, key);
    AtSucceed(Live(s.ts, e.now), e.identity, e.now, e.sample, cfg, key);
  }

  lemma AtGrace(ts: seq<Tracked>, now: int, grace: int, maxLifetime: int, key: string)
    ensures At(GraceAll(ts, now, grace, maxLifetime), key)
            == match At(ts, key) case None => None case Some(t) => Some(GraceOne(t, now, grace, maxLifetime))
  {
    AtChanged(ts, GraceAll(ts, now, grace, maxLifetime), (t: Tracked) => GraceOne(t, now, grace, maxLifetime), key);
  }

  lemma GraceTells(s: Pool, e: Event, cfg: Config, key: string, h: seq<Mark>)
    requires Good(s, cfg) && Fires(s, e, cfg) && e.Grace? && Tells(s, key, h)
    ensures Tells(Next(s, e, cfg), key, HistoryNext(s, e, cfg, key, h))
  {
    AtGrace(s.ts, e.now, cfg.ttl / 2, cfg.ttl * 2, key);
  }

  lemma MergeTells(s: Pool, e: Event, cfg: Config, key: string, h: seq<Mark>)
    requires Good(s, cfg) && Fires(s, e, cfg) && e.Merge? && Tells(s, key, h)
    ensures Tells(Next(s, e, cfg), key, HistoryNext(s, e, cfg, key, h))
  {
    PrunedGood(s, e.now, cfg);
    MergeStored(s, e, cfg, key);
    MergeHistory(s, e, cfg, key, h);
  }

  lemma MergeHistory(s: Pool, e: Event, cfg: Config, key: string, h: seq<Mark>)
    requires Unique(s.ts) && e.Merge? && Tells(s, key, h)
    ensures HistoryNext(s, e, cfg, key, h) == Stored(Live(s.ts, e.now), key)
  {
    AtLive(s.ts, e.now, key);
  }

  lemma MergeStored(s: Pool, e: Event, cfg: Config, key: string)
    requires Good(Pruned(s, e.now), cfg) && Fires(s, e, cfg) && e.Merge?
    ensures Stored(Next(s, e, cfg).ts, key) == Stored(Live(s.ts, e.now), key)
  {
    var p := Pruned(s, e.now);
    MergeAllStored(p.ts, p.removed, e.now, e.incoming, cfg, key);
  }

  lemma NextTells(s: Pool, e: Event, cfg: Config, key: string, h: seq<Mark>)
    requires Good(s, cfg) && Fires(s, e, cfg) && Tells(s, key, h)
    ensures Tells(Next(s, e, cfg), key, HistoryNext(s, e, cfg, key, h))
  {
    match e
    case Merge(_, _) => MergeTells(s, e, cfg, key, h);
    case Fail(_, _, _) => FailTells(s, e, cfg, key, h);
    case Succeed(_, _, _) => SucceedTells(s, e, cfg, key, h);
    case Grace(_) => GraceTells(s, e, cfg, key, h);
    case Remove(identity, _) => AtWithout(s.ts, identity, key);
    case Overload(now) => AtLive(s.ts, now, key);
    case Prune(now) => AtLive(s.ts, now, key);
  }

  /** Counter refines history over whole runs: the stored history of an exit is exactly what the reports of the
      run make it, so its counter is the length, capped at the limit, of the current run of failures with gaps of
      at most a minute since its last success or isolation. */
  lemma {:induction false} CounterTellsRun(s: Pool, es: seq<Event>, cfg: Config, key: string, h: seq<Mark>)
    requires Good(s, cfg) && Legal(s, es, cfg) && Tells(s, key, h)
    ensures Tells(After(s, es, cfg), key, History(s, es, cfg, key, h))
    ensures At(After(s, es, cfg).ts, key).Some? ==>
              var t := At(After(s, es, cfg).ts, key).value;
              && t.e.httpFails == ExitModel.Min(cfg.policy.httpFailureLimit, RunLength(History(s, es, cfg, key, h)))
              && t.e.lastHttpFailureAt == LastFailure(History(s, es, cfg, key, h))
    decreases |es|
  {
    if es == [] {
      AtMeans(s.ts, key);
      assert At(s.ts, key).Some? ==> ExitOk(At(s.ts, key).value, cfg);
    } else {
      NextTells(s, es[0], cfg, key, h);
      NextGood(s, es[0], cfg);
      CounterTellsRun(Next(s, es[0], cfg), es[1..], cfg, key, HistoryNext(s, es[0], cfg, key, h));
    }
  }

  /** What an HTTP failure report makes of a matching exit `t`: with a `full` run it is gone when that is one ejection
      too many, and isolated otherwise; without one its isolation is left alone. */
  ghost predicate Judged(t: Tracked, after: Option<Tracked>, full: bool, now: int, policy: Policy) {
    match after
    case None => full && t.e.ejections + 1 > policy.maxEjections
    case Some(u) =>
      if full then
        && u.e.ejections == t.e.ejections + 1 <= policy.maxEjections
        && OutFor(u.e, now, policy)
      else u.e.ejections == t.e.ejections && u.e.ejectedUntil == t.e.ejectedUntil
  }

  /** Isolation over whole runs. After any run, an HTTP failure report on a live exit isolates or removes it exactly
      when some retained exit served a 2xx within the last minute and this failure completes a full run of failures
      as the reports of the run tell it. */
  lemma IsolationOnRuns(s: Pool, es: seq<Event>, cfg: Config, identity: string, now: int, t: Tracked, h: seq<Mark>)
    requires Good(s, cfg) && Legal(s, es, cfg) && Tells(s, KeyOf(t.e), h)
    requires After(s, es, cfg).clock <= now
    requires At(Live(After(s, es, cfg).ts, now), KeyOf(t.e)) == Some(t)
    requires t.e.address == identity || KeyOf(t.e) == identity
    ensures var p := After(s, es, cfg);
            var run := RunLength(History(s, es, cfg, KeyOf(t.e), h) + [Failed(now)]);
            var full := RecentSuccess(Live(p.ts, now), now) && run >= cfg.policy.httpFailureLimit;
            Judged(t, At(Next(p, Fail(identity, Http, now), cfg).ts, KeyOf(t.e)), full, now, cfg.policy)
  {
    var p := After(s, es, cfg);
    RunGood(s, es, cfg);
    CounterTellsRun(s, es, cfg, KeyOf(t.e), h);
    LiveStored(p, now, t);
    IsolationFrom(p, cfg, identity, now, t);
  }

  lemma LiveStored(p: Pool, now: int, t: Tracked)
    requires Unique(p.ts) && At(Live(p.ts, now), KeyOf(t.e)) == Some(t)
    ensures At(p.ts, KeyOf(t.e)) == Some(t)
  {
    AtLive(p.ts, now, KeyOf(t.e));
  }

  lemma IsolationFrom(p: Pool, cfg: Config, identity: string, now: int, t: Tracked)
    requires Good(p, cfg) && p.clock <= now
    requires At(Live(p.ts, now), KeyOf(t.e)) == Some(t) && Matches(t.e, identity)
    ensures var full := RecentSuccess(Live(p.ts, now), now)
            && RunLength(t.h + [Failed(now)]) >= cfg.policy.httpFailureLimit;
            Judged(t, At(Next(p, Fail(identity, Http, now), cfg).ts, KeyOf(t.e)), full, now, cfg.policy)
  {
    FailAt(p, cfg, identity, now, t);
    HttpFate(t, now, RecentSuccess(Live(p.ts, now), now), cfg);
  }

  lemma FailAt(p: Pool, cfg: Config, identity: string, now: int, t: Tracked)
    requires Good(p, cfg) && p.clock <= now
    requires At(Live(p.ts, now), KeyOf(t.e)) == Some(t) && Matches(t.e, identity)
    ensures ExitOk(t, cfg)
    ensures At(Next(p, Fail(identity, Http, now), cfg).ts, KeyOf(t.e))
            == match Treat(t, Http, now, cfg.policy, RecentSuccess(Live(p.ts, now), now))
               case Stays(u, _) => Some(u) case Leaves => None
  {
    var live := Live(p.ts, now);
    PrunedGood(p, now, cfg);
    AtMeans(live, KeyOf(t.e));
    AtSieve(live, identity, Http, now, Evidence(live, Http, now), cfg, KeyOf(t.e));
  }
}
