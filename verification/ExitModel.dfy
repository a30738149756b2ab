/** The proxy exits of internal/xkproxy: value predicates of model.go and the effect that each
    operation of pool.go has on the list of exits and on the quarantine map.

    Each exit is tracked together with the history that its HTTP failure counter abbreviates. */
module ExitModel {
  import opened Basics

  const SECOND: int := 1_000_000_000
  const REMOVAL_COOLDOWN: int := 300 * SECOND
  const HTTP_WINDOW: int := 60 * SECOND
  const OVERLOADED: int := 529
  const NUL: char := '\0'

  datatype Exit = Exit(
    scheme: string, address: string, user: string, password: string,
    fetchedAt: Option<int>,
    validatedAt: Option<int>,
    expiresAt: int,
    healthFails: int,
    ejectedUntil: Option<int>,
    ejections: int,
    httpFails: int,
    lastHttpFailureAt: Option<int>,
    lastRequestSuccessAt: Option<int>,
    latency: int)

  datatype Policy = Policy(failureLimit: int, baseDuration: int, maxDuration: int, maxEjections: int,
    httpFailureLimit: int)

  function Normalized(p: Policy): (n: Policy)
    ensures n.failureLimit > 0 && n.maxEjections > 0 && n.httpFailureLimit > 0
    ensures 0 < n.baseDuration <= n.maxDuration
  {
    var base := if p.baseDuration <= 0 then 10 * SECOND else p.baseDuration;
    Policy(
      if p.failureLimit <= 0 then 3 else p.failureLimit,
      base,
      if p.maxDuration < base then base else p.maxDuration,
      if p.maxEjections <= 0 then 3 else p.maxEjections,
      if p.httpFailureLimit <= 0 then 6 else p.httpFailureLimit)
  }

  /** A policy that normalization leaves alone. */
  predicate Normal(p: Policy) {
    Normalized(p) == p
  }

  // ---------------------------------------------------------------- one exit

  predicate LiveAt(e: Exit, now: int) {
    e.address != "" && now < e.expiresAt
  }

  predicate EjectedAt(e: Exit, now: int) {
    e.ejectedUntil.Some? && now < e.ejectedUntil.value
  }

  predicate AvailableAt(e: Exit, now: int) {
    LiveAt(e, now) && !EjectedAt(e, now)
  }

  /** Isolated from `now` on for the base duration times the number of isolations, but no longer than the longest
      duration. */
  ghost predicate OutFor(e: Exit, now: int, policy: Policy) {
    forall x :: EjectedAt(e, x) <==> x < now + policy.baseDuration * e.ejections && x < now + policy.maxDuration
  }

  function RemainingLife(e: Exit, now: int): int {
    if e.expiresAt - now > 0 then e.expiresAt - now else 0
  }

  function Join(a: string, rest: string): string {
    a + [NUL] + rest
  }

  function KeyOf(e: Exit): string {
    Join(e.scheme, Join(e.address, Join(e.user, e.password)))
  }

  predicate Matches(e: Exit, identity: string) {
    e.address == identity || KeyOf(e) == identity
  }

  /** How ParseProxy builds an address from a host and a port. */
  function JoinHostPort(host: string, port: string): string {
    if ':' in host then "[" + host + "]:" + port else host + ":" + port
  }

  /** An address with a port: nothing that follows its first colon is a separator. */
  predicate HostPort(address: string) {
    ':' in address && forall i, j :: 0 <= i < j < |address| && address[i] == ':' ==> address[j] != NUL
  }

  /** What ParseProxy guarantees of every exit: its scheme is http or https and its address has a port. User
      and password can hold anything. */
  predicate Clean(e: Exit) {
    NUL !in e.scheme && HostPort(e.address)
  }

  /** A host with a colon in it is accepted only when it is an IP address, and a port only when it is a number;
      neither holds a separator then, and the address is one with a port. */
  lemma ParsedAddress(host: string, port: string)
    requires NUL !in port && (':' in host ==> NUL !in host)
    ensures HostPort(JoinHostPort(host, port))
  {
    var address := JoinHostPort(host, port);
    if ':' in host {
      assert NUL !in address;
      assert address[|host| + 2] == ':';
    } else {
      assert address[|host|] == ':';
      assert forall j :: |host| < j < |address| ==> address[j] == port[j - |host| - 1] && address[j] in port;
      assert forall i :: 0 <= i < |host| ==> address[i] == host[i] && address[i] in host;
    }
  }

  lemma JoinInjective(a: string, b: string, x: string, y: string)
    requires NUL !in a && NUL !in b && Join(a, x) == Join(b, y)
    ensures a == b && x == y
  {
    var s := Join(a, x);
    assert s[|a|] == NUL && s[|b|] == NUL;
    assert forall i :: 0 <= i < |a| ==> s[i] == a[i];
    assert forall i :: 0 <= i < |b| ==> s[i] == b[i];
    assert |a| == |b|;
    assert a == s[..|a|] == b;
    assert x == s[|a| + 1..] == y;
  }

  lemma NotLonger(a: string, b: string, x: string, y: string)
    requires HostPort(a) && HostPort(b) && Join(a, x) == Join(b, y)
    ensures |a| >= |b|
  {
    var s := Join(a, x);
    assert forall k :: 0 <= k < |a| ==> s[k] == a[k];
    assert forall k :: 0 <= k < |b| ==> s[k] == b[k];
    assert s[|a|] == NUL;
    var i :| 0 <= i < |a| && a[i] == ':';
  }

  /** An address ends where the first separator after its port stands, whatever follows. */
  lemma AddressInjective(a: string, b: string, x: string, y: string)
    requires HostPort(a) && HostPort(b) && Join(a, x) == Join(b, y)
    ensures a == b && x == y
  {
    NotLonger(a, b, x, y);
    NotLonger(b, a, y, x);
    var s := Join(a, x);
    assert a == s[..|a|] == b;
    assert x == s[|a| + 1..] == y;
  }

  /** The key of an exit determines its scheme and address, and once the length of the user name is known also
      user and password. */
  lemma KeyInjective(a: Exit, b: Exit)
    requires Clean(a) && Clean(b) && KeyOf(a) == KeyOf(b)
    ensures a.scheme == b.scheme && a.address == b.address && Join(a.user, a.password) == Join(b.user, b.password)
    ensures |a.user| == |b.user| ==> a.user == b.user && a.password == b.password
  {
    JoinInjective(a.scheme, b.scheme, Join(a.address, Join(a.user, a.password)),
      Join(b.address, Join(b.user, b.password)));
    AddressInjective(a.address, b.address, Join(a.user, a.password), Join(b.user, b.password));
    if |a.user| == |b.user| {
      var s := Join(a.user, a.password);
      assert a.user == s[..|a.user|] == b.user;
      assert a.password == s[|a.user| + 1..] == b.password;
    }
  }

  /** The credentials are not determined: `1.2.3.4:80:u\0v:w` and `1.2.3.4:80:u:v\0w` are two exits with one key. */
  lemma CredentialsCollide(a: Exit, address: string)
    requires HostPort(address)
    requires a.scheme == "http" && a.address == address && a.user == ['u', NUL, 'v'] && a.password == "w"
    ensures var b := a.(user := "u", password := ['v', NUL, 'w']);
            Clean(a) && Clean(b) && KeyOf(a) == KeyOf(b) && a.user != b.user && a.password != b.password
  {
    var b := a.(user := "u", password := ['v', NUL, 'w']);
    assert Join(a.user, a.password) == Join(b.user, b.password);
    assert |a.user| != |b.user|;
  }

  // ---------------------------------------------------------------- the history behind the counter

  /** What the HTTP failure counter has seen: a counted failure, or a success or isolation. */
  datatype Mark = Failed(at: int) | Reset

  /** Length of the run of failures that ends the history, with gaps of at most HTTP_WINDOW. */
  function RunLength(h: seq<Mark>): nat {
    if h == [] || h[|h| - 1].Reset? then 0
    else if |h| > 1 && h[|h| - 2].Failed? && h[|h| - 1].at - h[|h| - 2].at <= HTTP_WINDOW then
      1 + RunLength(h[..|h| - 1])
    else 1
  }

  /** The last failure of the history, whenever it was. */
  function LastFailure(h: seq<Mark>): Option<int> {
    if h == [] then None
    else if h[|h| - 1].Failed? then Some(h[|h| - 1].at)
    else LastFailure(h[..|h| - 1])
  }

  datatype Tracked = Tracked(e: Exit, h: seq<Mark>)

  function Min(a: int, b: int): int {
    if a < b then a else b
  }

  /** The counter is the run length, capped at the limit. */
  predicate CounterRefines(t: Tracked, policy: Policy) {
    t.e.httpFails == Min(policy.httpFailureLimit, RunLength(t.h)) && t.e.lastHttpFailureAt == LastFailure(t.h)
  }

  // ---------------------------------------------------------------- failure reports on one exit

  datatype Report = Transport | Http
  datatype Fate = Stays(t: Tracked, isolated: bool) | Leaves

  function EjectionWindow(policy: Policy, ejections: int): int {
    Min(policy.baseDuration * ejections, policy.maxDuration)
  }

  function Eject(t: Tracked, report: Report, now: int, policy: Policy): Fate {
    var e := t.e.(ejections := t.e.ejections + 1);
    if e.ejections > policy.maxEjections then Leaves
    else
      var out := e.(ejectedUntil := Some(now + EjectionWindow(policy, e.ejections)));
      if report.Transport? then Stays(Tracked(out.(healthFails := 0), t.h), true)
      else Stays(Tracked(out.(httpFails := 0), t.h + [Reset]), true)
  }

  /** The counter after one more HTTP failure at `now`. */
  function CountFailure(e: Exit, now: int, policy: Policy): int {
    if e.lastHttpFailureAt.Some? && now - e.lastHttpFailureAt.value > HTTP_WINDOW then 1
    else if e.httpFails < policy.httpFailureLimit then e.httpFails + 1
    else e.httpFails
  }

  function Noted(t: Tracked, now: int, policy: Policy): Tracked {
    Tracked(t.e.(httpFails := CountFailure(t.e, now, policy), lastHttpFailureAt := Some(now)), t.h + [Failed(now)])
  }

  function Treat(t: Tracked, report: Report, now: int, policy: Policy, canEject: bool): Fate {
    if report.Transport? then
      var hit := t.(e := t.e.(healthFails := t.e.healthFails + 1));
      if hit.e.healthFails < policy.failureLimit then Stays(hit, false) else Eject(hit, Transport, now, policy)
    else
      var hit := Noted(t, now, policy);
      if !canEject || hit.e.httpFails < policy.httpFailureLimit then Stays(hit, false)
        else Eject(hit, Http, now, policy)
  }

  // ---------------------------------------------------------------- the whole list

  function Live(ts: seq<Tracked>, now: int): seq<Tracked> {
    if ts == [] then []
    else Live(ts[..|ts| - 1], now) + if LiveAt(ts[|ts| - 1].e, now) then [ts[|ts| - 1]] else []
  }

  function LiveRemovals(removed: map<string, int>, now: int): map<string, int> {
    map k | k in removed && now < removed[k] :: removed[k]
  }

  /** The survivors of a failure report. */
  function Sieve(ts: seq<Tracked>, identity: string, report: Report, now: int, policy: Policy,
                 canEject: bool): seq<Tracked> {
    if ts == [] then []
    else
      var last := ts[|ts| - 1];
      Sieve(ts[..|ts| - 1], identity, report, now, policy, canEject)
      + if !Matches(last.e, identity) then [last]
        else match Treat(last, report, now, policy, canEject) case Stays(t, _) => [t] case Leaves => []
  }

  /** The quarantine map after a failure report. */
  function Quarantined(ts: seq<Tracked>, removed: map<string, int>, identity: string, report: Report, now: int,
                       policy: Policy, canEject: bool): map<string, int> {
    if ts == [] then removed
    else
      var last := ts[|ts| - 1];
      var before := Quarantined(ts[..|ts| - 1], removed, identity, report, now, policy, canEject);
      if Matches(last.e, identity) && Treat(last, report, now, policy, canEject).Leaves?
      then before[KeyOf(last.e) := now + REMOVAL_COOLDOWN] else before
  }

  /** Some retained exit served a 2xx within the last minute. */
  predicate RecentSuccess(ts: seq<Tracked>, now: int) {
    exists i :: 0 <= i < |ts|
      && ts[i].e.lastRequestSuccessAt.Some? && now - ts[i].e.lastRequestSuccessAt.value <= HTTP_WINDOW
  }

  function SucceedOne(t: Tracked, now: int, latency: int): Tracked {
    Tracked(
      t.e.(httpFails := 0, lastRequestSuccessAt := Some(now),
           healthFails := if t.e.healthFails > 0 then t.e.healthFails - 1 else t.e.healthFails,
           ejections := if t.e.ejections > 0 then t.e.ejections - 1 else t.e.ejections,
           ejectedUntil := None,
           latency := latency),
      t.h + [Reset])
  }

  function GraceOne(t: Tracked, now: int, grace: int, maxLifetime: int): Tracked {
    if !LiveAt(t.e, now) || t.e.validatedAt.None? then t
    else
      var candidate := Min(t.e.expiresAt + grace, t.e.validatedAt.value + maxLifetime);
      if candidate > t.e.expiresAt then t.(e := t.e.(expiresAt := candidate)) else t
  }

  /** The positions that a merge looks up by key. */
  function IndexOf(ts: seq<Tracked>): map<string, nat> {
    if ts == [] then map[]
    else IndexOf(ts[..|ts| - 1])[KeyOf(ts[|ts| - 1].e) := |ts| - 1]
  }

  /** A known exit refreshed by a newly validated candidate. */
  function Refresh(t: Tracked, c: Exit, latency: int): Tracked {
    t.(e := t.e.(
      validatedAt := c.validatedAt, scheme := c.scheme, user := c.user, password := c.password,
      latency := latency,
      fetchedAt := if c.fetchedAt.Some? && (t.e.fetchedAt.None? || c.fetchedAt.value < t.e.fetchedAt.value)
        then c.fetchedAt else t.e.fetchedAt,
      expiresAt := c.expiresAt,
      healthFails := if t.e.healthFails > 0 then t.e.healthFails - 1 else t.e.healthFails))
  }

  /** Refreshing an exit by a candidate of the same key keeps the key exactly when it keeps the address. */
  lemma RefreshKeepsKey(t: Tracked, c: Exit, latency: int)
    requires KeyOf(c) == KeyOf(t.e)
    ensures KeyOf(Refresh(t, c, latency).e) == KeyOf(t.e) <==> c.address == t.e.address
  {
    var rest := Join(c.user, c.password);
    if KeyOf(Refresh(t, c, latency).e) == KeyOf(c) {
      var s := Join(c.scheme, Join(c.address, rest));
      assert s == Join(c.scheme, Join(t.e.address, rest));
      assert |c.address| == |t.e.address|;
      assert c.address == s[|c.scheme| + 1..][..|c.address|];
      assert t.e.address == s[|c.scheme| + 1..][..|c.address|];
    }
  }

  predicate Refused(removed: map<string, int>, c: Exit, now: int) {
    !LiveAt(c, now) || (KeyOf(c) in removed && now < removed[KeyOf(c)])
  }

  /** A merge under way: the exits so far and where their keys were when they were indexed. */
  datatype Merging = Merging(ts: seq<Tracked>, index: map<string, nat>)

  /** `blend` stands for the latency average. */
  function MergeOne(m: Merging, removed: map<string, int>, now: int, c: Exit, policy: Policy,
                    blend: (int, int) -> int): Merging {
    if Refused(removed, c, now) then m
    else if KeyOf(c) !in m.index then Merging(m.ts + [Tracked(c, [])], m.index[KeyOf(c) := |m.ts|])
    else
      var at := m.index[KeyOf(c)];
      if at >= |m.ts| || m.ts[at].e.ejections > policy.maxEjections then m
      else
        var latency := if c.latency > 0 then blend(m.ts[at].e.latency, c.latency) else m.ts[at].e.latency;
        m.(ts := m.ts[at := Refresh(m.ts[at], c, latency)])
  }

  function MergeAll(ts: seq<Tracked>, removed: map<string, int>, now: int, cs: seq<Exit>, policy: Policy,
                    blend: (int, int) -> int): Merging {
    if cs == [] then Merging(ts, IndexOf(ts))
    else MergeOne(MergeAll(ts, removed, now, cs[..|cs| - 1], policy, blend), removed, now, cs[|cs| - 1], policy, blend)
  }
}
