/** How internal/xkproxy/pool.go chooses exits for a request: the selection window, its rotation
    and the demotion of slow exits. */
module ExitSelection {
  import opened Basics
  import opened ExitModel
  import R = ExitRuns

  const SLOW_FACTOR: int := 3

  function Filter(es: seq<Exit>, keep: Exit -> bool): seq<Exit> {
    if es == [] then []
    else Filter(es[..|es| - 1], keep) + if keep(es[|es| - 1]) then [es[|es| - 1]] else []
  }

  function Reversed(es: seq<Exit>): (r: seq<Exit>)
    ensures |r| == |es|
    ensures forall k :: 0 <= k < |es| ==> r[k] == es[|es| - 1 - k]
  {
    if es == [] then [] else [es[|es| - 1]] + Reversed(es[..|es| - 1])
  }

  // ---------------------------------------------------------------- the window

  /** Live and with enough life left. */
  predicate Lasting(e: Exit, now: int, floor: int) {
    LiveAt(e, now) && RemainingLife(e, now) >= floor
  }

  /** The definition of the window, with no case for an absent floor: available exits that last long
      enough, or else, in panic mode, any live ones that do. */
  function Window(es: seq<Exit>, now: int, floor: int): (r: (seq<Exit>, bool)) {
    var preferred := Filter(es, (e: Exit) => Lasting(e, now, floor) && !EjectedAt(e, now));
    var lasting := Filter(es, (e: Exit) => Lasting(e, now, floor));
    if preferred != [] then (preferred, false) else (lasting, lasting != [])
  }

  lemma {:induction false} FilterMeans(es: seq<Exit>, keep: Exit -> bool, e: Exit)
    ensures e in Filter(es, keep) <==> e in es && keep(e)
  {
    if es != [] {
      FilterMeans(es[..|es| - 1], keep, e);
      assert es == es[..|es| - 1] + [es[|es| - 1]];
    }
  }

  lemma {:induction false} FilterAgrees(es: seq<Exit>, p: Exit -> bool, q: Exit -> bool)
    requires forall e :: e in es ==> p(e) == q(e)
    ensures Filter(es, p) == Filter(es, q)
  {
    if es != [] {
      assert es == es[..|es| - 1] + [es[|es| - 1]];
      FilterAgrees(es[..|es| - 1], p, q);
    }
  }

  /** Exactly what the window holds: only live exits with enough life, an ejected one only in panic
      mode, panic mode only when no available exit lasts, and nothing only when nothing lasts. */
  lemma WindowMeans(es: seq<Exit>, now: int, floor: int, e: Exit)
    ensures var (window, panic) := Window(es, now, floor);
            && (e in window ==> e in es && Lasting(e, now, floor) && (EjectedAt(e, now) ==> panic))
            && (panic ==> (e in es && Lasting(e, now, floor) ==> EjectedAt(e, now)))
            && (e in es && Lasting(e, now, floor) && (panic || !EjectedAt(e, now)) ==> e in window)
            && (window == [] ==> !panic && !(e in es && Lasting(e, now, floor)))
  {
    var open := (e: Exit) => Lasting(e, now, floor) && !EjectedAt(e, now);
    FilterMeans(es, open, e);
    FilterMeans(es, (e: Exit) => Lasting(e, now, floor), e);
    if Filter(es, open) == [] && e in es && Lasting(e, now, floor) {
      assert e !in Filter(es, open);
    }
  }

  lemma FilterStep(es: seq<Exit>, i: nat, keep: Exit -> bool)
    requires i < |es|
    ensures Filter(es[..i + 1], keep) == if keep(es[i]) then Filter(es[..i], keep) + [es[i]] else Filter(es[..i], keep)
  {
    assert es[..i + 1][..i] == es[..i];
  }

  /** The path without a floor on the remaining life. */
  method FastWindow(es: seq<Exit>, now: int) returns (available: seq<Exit>, live: seq<Exit>)
    ensures available == Filter(es, (e: Exit) => AvailableAt(e, now))
    ensures live == Filter(es, (e: Exit) => LiveAt(e, now))
  {
    available, live := [], [];
    for i := 0 to |es|
      invariant available == Filter(es[..i], (e: Exit) => AvailableAt(e, now))
      invariant live == Filter(es[..i], (e: Exit) => LiveAt(e, now))
    {
      FilterStep(es, i, (e: Exit) => AvailableAt(e, now));
      FilterStep(es, i, (e: Exit) => LiveAt(e, now));
      if LiveAt(es[i], now) {
        live := live + [es[i]];
        if AvailableAt(es[i], now) {
          available := available + [es[i]];
        }
      }
    }
    assert es[..|es|] == es;
  }

  method SlowWindow(es: seq<Exit>, now: int, floor: int) returns (preferred: seq<Exit>, live: seq<Exit>)
    ensures preferred == Filter(es, (e: Exit) => Lasting(e, now, floor) && !EjectedAt(e, now))
    ensures live == Filter(es, (e: Exit) => LiveAt(e, now))
  {
    preferred, live := [], [];
    for i := 0 to |es|
      invariant preferred == Filter(es[..i], (e: Exit) => Lasting(e, now, floor) && !EjectedAt(e, now))
      invariant live == Filter(es[..i], (e: Exit) => LiveAt(e, now))
    {
      FilterStep(es, i, (e: Exit) => Lasting(e, now, floor) && !EjectedAt(e, now));
      FilterStep(es, i, (e: Exit) => LiveAt(e, now));
      if LiveAt(es[i], now) {
        live := live + [es[i]];
        if AvailableAt(es[i], now) && RemainingLife(es[i], now) >= floor {
          preferred := preferred + [es[i]];
        }
      }
    }
    assert es[..|es|] == es;
  }

  lemma {:induction false} FilterTwice(es: seq<Exit>, p: Exit -> bool, q: Exit -> bool)
    ensures Filter(Filter(es, p), q) == Filter(es, (e: Exit) => p(e) && q(e))
  {
    if es != [] {
      var front, last := es[..|es| - 1], es[|es| - 1];
      FilterTwice(front, p, q);
      var once := Filter(front, p);
      if p(last) {
        assert (once + [last])[..|once|] == once;
      } else {
        assert Filter(es, p) == once;
      }
    }
  }

  method Sufficient(live: seq<Exit>, now: int, floor: int) returns (r: seq<Exit>)
    ensures r == Filter(live, (e: Exit) => RemainingLife(e, now) >= floor)
  {
    r := [];
    for i := 0 to |live|
      invariant r == Filter(live[..i], (e: Exit) => RemainingLife(e, now) >= floor)
    {
      FilterStep(live, i, (e: Exit) => RemainingLife(e, now) >= floor);
      if RemainingLife(live[i], now) >= floor {
        r := r + [live[i]];
      }
    }
    assert live[..|live|] == live;
  }

  /** Both paths compute the same window: the fast one is the general one for floors up to zero. */
  method Choose(es: seq<Exit>, now: int, floor: int) returns (window: seq<Exit>, panic: bool)
    ensures (window, panic) == Window(es, now, floor)
  {
    if floor <= 0 {
      var available, live := FastWindow(es, now);
      FilterAgrees(es, (e: Exit) => AvailableAt(e, now), (e: Exit) => Lasting(e, now, floor) && !EjectedAt(e, now));
      FilterAgrees(es, (e: Exit) => LiveAt(e, now), (e: Exit) => Lasting(e, now, floor));
      if |available| > 0 { return available, false; }
      if |live| > 0 { return live, true; }
      return [], false;
    }
    var preferred, live := SlowWindow(es, now, floor);
    if |preferred| > 0 { return preferred, false; }
    window := Sufficient(live, now, floor);
    FilterTwice(es, (e: Exit) => LiveAt(e, now), (e: Exit) => RemainingLife(e, now) >= floor);
    FilterAgrees(es, (e: Exit) => ((e: Exit) => LiveAt(e, now))(e)
      && ((e: Exit) => RemainingLife(e, now) >= floor)(e), (e: Exit) => Lasting(e, now, floor));
    panic := |window| > 0;
  }

  // ---------------------------------------------------------------- rotation

  function Start(n: nat, cursor: nat): (r: nat)
    requires n > 0
    ensures r < n
  {
    n - 1 - cursor % n
  }

  /** The window read backwards from the start position, around the end. */
  function Rotated(es: seq<Exit>, cursor: nat): (r: seq<Exit>)
    requires es != []
    ensures |r| == |es|
  {
    var start := Start(|es|, cursor);
    Reversed(es[..start + 1]) + Reversed(es[start + 1..])
  }

  lemma {:induction false} ReversedKeeps(es: seq<Exit>)
    ensures multiset(Reversed(es)) == multiset(es)
  {
    if es != [] {
      var front, last := es[..|es| - 1], es[|es| - 1];
      ReversedKeeps(front);
      assert es == front + [last];
      assert Reversed(es) == [last] + Reversed(front);
    }
  }

  lemma RotatedKeeps(es: seq<Exit>, cursor: nat)
    requires es != []
    ensures multiset(Rotated(es, cursor)) == multiset(es)
  {
    var start := Start(|es|, cursor);
    ReversedKeeps(es[..start + 1]);
    ReversedKeeps(es[start + 1..]);
    assert es == es[..start + 1] + es[start + 1..];
  }

  /** Rotation is fair: whichever exit one looks at, exactly one of any n consecutive cursor values
      puts its position first. */
  lemma RotationFair(n: nat, cursor: nat, at: nat)
    requires at < n
    ensures exists c :: cursor <= c < cursor + n && Start(n, c) == at
    ensures forall c, d ::
            cursor <= c < cursor + n && cursor <= d < cursor + n && Start(n, c) == at && Start(n, d) == at ==> c == d
  {
    var want, first := n - 1 - at, n - 1 - Start(n, cursor);
    var c := cursor + if want >= first then want - first else want - first + n;
    StartMoves(n, cursor, c);
    assert Start(n, c) == at;
    forall c, d | cursor <= c < cursor + n && cursor <= d < cursor + n && Start(n, c) == at
      && Start(n, d) == at ensures c == d {
      StartMoves(n, cursor, c);
      StartMoves(n, cursor, d);
    }
  }

  /** The start moves down by one for each step of the cursor, around the end. */
  lemma StartMoves(n: nat, cursor: nat, c: nat)
    requires cursor <= c < cursor + n
    ensures var s := Start(n, cursor);
            Start(n, c) == if c - cursor <= s then s - (c - cursor) else s - (c - cursor) + n
  {
    AddMod(cursor, c - cursor, n);
  }

  lemma AddMod(a: nat, d: nat, n: nat)
    requires d < n
    ensures (a + d) % n == if a % n + d < n then a % n + d else a % n + d - n
  {
    var q, r := a / n, a % n;
    assert a == q * n + r;
    if r + d < n {
      DivUnique(a + d, n, q, r + d);
    } else {
      assert (q + 1) * n == q * n + n;
      DivUnique(a + d, n, q + 1, r + d - n);
    }
  }

  lemma MulGrows(p: nat, q: nat, n: nat)
    requires p > q
    ensures p * n >= q * n + n
  {
    assert p * n == (p - 1) * n + n;
    if p - 1 > q {
      MulGrows(p - 1, q, n);
    }
  }

  lemma DivUnique(a: nat, n: nat, q: nat, r: nat)
    requires r < n && a == q * n + r
    ensures a % n == r
  {
    var p, s := a / n, a % n;
    assert a == p * n + s;
    if p > q {
      MulGrows(p, q, n);
    } else if p < q {
      MulGrows(q, p, n);
    }
  }

  /** The position that the source computes for each offset. */
  lemma RotatedAt(es: seq<Exit>, cursor: nat, offset: nat)
    requires offset < |es|
    ensures var index := (Start(|es|, cursor) - offset + |es|) % |es|; Rotated(es, cursor)[offset] == es[index]
  {
    var n, start := |es|, Start(|es|, cursor);
    if offset <= start {
      DivUnique(start - offset + n, n, 1, start - offset);
    } else {
      DivUnique(start - offset + n, n, 0, start - offset + n);
    }
  }

  method Rotate(es: seq<Exit>, cursor: nat) returns (r: seq<Exit>)
    requires es != []
    ensures r == Demoted(Rotated(es, cursor))
  {
    var n := |es|;
    var start := Start(n, cursor);
    var out := [];
    for offset := 0 to n
      invariant out == Rotated(es, cursor)[..offset]
    {
      RotatedAt(es, cursor, offset);
      out := out + [es[(start - offset + n) % n]];
    }
    assert out == Rotated(es, cursor);
    r := DemoteSlow(out);
  }

  // ---------------------------------------------------------------- demotion

  /** The smallest positive latency, or 0. */
  function Fastest(es: seq<Exit>): int {
    if es == [] then 0
    else
      var before, l := Fastest(es[..|es| - 1]), es[|es| - 1].latency;
      if l > 0 && (before == 0 || l < before) then l else before
  }

  lemma {:induction false} FastestMeans(es: seq<Exit>)
    ensures Fastest(es) >= 0
    ensures forall e :: e in es && e.latency > 0 ==> 0 < Fastest(es) <= e.latency
    ensures Fastest(es) > 0 ==> exists i :: 0 <= i < |es| && es[i].latency == Fastest(es)
  {
    if es != [] {
      FastestMeans(es[..|es| - 1]);
      assert es == es[..|es| - 1] + [es[|es| - 1]];
      if Fastest(es) == Fastest(es[..|es| - 1]) > 0 {
        var i :| 0 <= i < |es| - 1 && es[..|es| - 1][i].latency == Fastest(es);
        assert es[i].latency == Fastest(es);
      }
    }
  }

  predicate Slow(e: Exit, fastest: int) {
    fastest > 0 && e.latency > fastest * SLOW_FACTOR
  }

  /** The stable partition: quick exits in their order, then the slow ones in theirs. */
  function Demoted(es: seq<Exit>): seq<Exit> {
    var f := Fastest(es);
    Filter(es, (e: Exit) => !Slow(e, f)) + Filter(es, (e: Exit) => Slow(e, f))
  }

  lemma MultisetSnoc(es: seq<Exit>, e: Exit)
    ensures multiset(es + [e]) == multiset(es) + multiset{e}
  {}

  lemma {:induction false} PartitionKeeps(es: seq<Exit>, p: Exit -> bool, q: Exit -> bool)
    requires forall e :: e in es ==> q(e) == !p(e)
    ensures multiset(Filter(es, q)) + multiset(Filter(es, p)) == multiset(es)
  {
    if es != [] {
      var front, last := es[..|es| - 1], es[|es| - 1];
      assert es == front + [last];
      PartitionKeeps(front, p, q);
      MultisetSnoc(front, last);
      if p(last) {
        assert Filter(es, q) == Filter(front, q) && Filter(es, p) == Filter(front, p) + [last];
        MultisetSnoc(Filter(front, p), last);
      } else {
        assert Filter(es, p) == Filter(front, p) && Filter(es, q) == Filter(front, q) + [last];
        MultisetSnoc(Filter(front, q), last);
      }
    }
  }

  lemma {:induction false} FilterAll(es: seq<Exit>, keep: Exit -> bool)
    ensures (forall e :: e in es ==> keep(e)) <==> Filter(es, keep) == es
    ensures (forall e :: e in es ==> !keep(e)) <==> Filter(es, keep) == []
    ensures |Filter(es, keep)| <= |es|
  {
    if es != [] {
      var front, last := es[..|es| - 1], es[|es| - 1];
      FilterAll(front, keep);
      assert es == front + [last];
      if !keep(last) {
        assert |Filter(es, keep)| < |es|;
        assert last in es;
      } else {
        assert Filter(es, keep) == Filter(front, keep) + [last];
        if Filter(es, keep) == es { assert Filter(front, keep) == es[..|es| - 1]; }
      }
    }
  }

  method FindFastest(es: seq<Exit>) returns (fastest: int)
    ensures fastest == Fastest(es) >= 0
  {
    fastest := 0;
    for i := 0 to |es|
      invariant fastest == Fastest(es[..i])
    {
      assert es[..i + 1][..i] == es[..i];
      if es[i].latency > 0 && (fastest == 0 || es[i].latency < fastest) {
        fastest := es[i].latency;
      }
    }
    assert es[..|es|] == es;
    FastestMeans(es);
  }

  method Partition(es: seq<Exit>, fastest: int) returns (fast: seq<Exit>, slow: seq<Exit>)
    requires fastest > 0
    ensures fast == Filter(es, (e: Exit) => !Slow(e, fastest)) && slow == Filter(es, (e: Exit) => Slow(e, fastest))
  {
    var threshold := fastest * SLOW_FACTOR;
    fast, slow := [], [];
    for i := 0 to |es|
      invariant fast == Filter(es[..i], (e: Exit) => !Slow(e, fastest))
      invariant slow == Filter(es[..i], (e: Exit) => Slow(e, fastest))
    {
      FilterStep(es, i, (e: Exit) => !Slow(e, fastest));
      FilterStep(es, i, (e: Exit) => Slow(e, fastest));
      if es[i].latency > threshold {
        slow := slow + [es[i]];
      } else {
        fast := fast + [es[i]];
      }
    }
    assert es[..|es|] == es;
  }

  /** With nothing slow, demotion changes nothing. */
  lemma NothingSlow(es: seq<Exit>)
    requires Fastest(es) == 0 || Filter(es, (e: Exit) => Slow(e, Fastest(es))) == []
    ensures Demoted(es) == es
  {
    var f := Fastest(es);
    FilterAll(es, (e: Exit) => !Slow(e, f));
    FilterAll(es, (e: Exit) => Slow(e, f));
  }

  method DemoteSlow(es: seq<Exit>) returns (r: seq<Exit>)
    ensures r == Demoted(es)
  {
    var fastest := FindFastest(es);
    if fastest == 0 {
      NothingSlow(es);
      return es;
    }
    var fast, slow := Partition(es, fastest);
    if |slow| == 0 {
      NothingSlow(es);
      return es;
    }
    r := fast + slow;
  }

  // ---------------------------------------------------------------- selection

  /** Demotion reorders and never loses an exit, and a slow exit never comes first. */
  lemma DemotedMeans(es: seq<Exit>)
    ensures multiset(Demoted(es)) == multiset(es)
    ensures es != [] ==> Demoted(es) != [] && !Slow(Demoted(es)[0], Fastest(es))
  {
    var f := Fastest(es);
    var quick := (e: Exit) => !Slow(e, f);
    PartitionKeeps(es, (e: Exit) => Slow(e, f), quick);
    if es != [] {
      FastestMeans(es);
      if f > 0 {
        var i :| 0 <= i < |es| && es[i].latency == f;
        FilterMeans(es, quick, es[i]);
      } else {
        FilterMeans(es, quick, es[0]);
      }
      assert Filter(es, quick) != [];
      var first := Filter(es, quick)[0];
      FilterMeans(es, quick, first);
    }
  }

  // ---------------------------------------------------------------- latency first

  /** Faster, where unmeasured exits are slower than all measured ones. */
  predicate Before(a: Exit, b: Exit) {
    a.latency > 0 && (b.latency <= 0 || a.latency < b.latency)
  }

  predicate SameRank(a: Exit, b: Exit) {
    !Before(a, b) && !Before(b, a)
  }

  /** Insertion behind everything that is not slower. */
  function InsertByLatency(sorted: seq<Exit>, e: Exit): seq<Exit> {
    if sorted == [] || !Before(e, sorted[|sorted| - 1]) then sorted + [e]
    else InsertByLatency(sorted[..|sorted| - 1], e) + [sorted[|sorted| - 1]]
  }

  /** The stable sort by latency. */
  function ByLatency(es: seq<Exit>): seq<Exit> {
    if es == [] then [] else InsertByLatency(ByLatency(es[..|es| - 1]), es[|es| - 1])
  }

  /** No exit stands behind a slower one. */
  predicate Ranked(es: seq<Exit>) {
    forall i, j :: 0 <= i < j < |es| ==> !Before(es[j], es[i])
  }

  lemma RankedSnoc(es: seq<Exit>, e: Exit)
    requires Ranked(es) && (es == [] || !Before(e, es[|es| - 1]))
    ensures Ranked(es + [e])
  {
    forall i | 0 <= i < |es| ensures !Before(e, es[i]) {
      assert i < |es| - 1 ==> !Before(es[|es| - 1], es[i]);
    }
  }

  lemma {:induction false} InsertRanked(sorted: seq<Exit>, e: Exit)
    requires Ranked(sorted)
    ensures Ranked(InsertByLatency(sorted, e))
  {
    if sorted == [] || !Before(e, sorted[|sorted| - 1]) {
      RankedSnoc(sorted, e);
    } else {
      var front, last := sorted[..|sorted| - 1], sorted[|sorted| - 1];
      InsertRanked(front, e);
      var r := InsertByLatency(front, e);
      assert r[|r| - 1] == e || (front != [] && r[|r| - 1] == front[|front| - 1]);
      RankedSnoc(r, last);
    }
  }

  lemma {:induction false} InsertKeeps(sorted: seq<Exit>, e: Exit)
    ensures multiset(InsertByLatency(sorted, e)) == multiset(sorted) + multiset{e}
  {
    if sorted != [] && Before(e, sorted[|sorted| - 1]) {
      var front, last := sorted[..|sorted| - 1], sorted[|sorted| - 1];
      InsertKeeps(front, e);
      assert sorted == front + [last];
      MultisetSnoc(front, last);
      MultisetSnoc(InsertByLatency(front, e), last);
    } else {
      MultisetSnoc(sorted, e);
    }
  }

  lemma FilterSnoc(es: seq<Exit>, e: Exit, keep: Exit -> bool)
    ensures Filter(es + [e], keep) == if keep(e) then Filter(es, keep) + [e] else Filter(es, keep)
  {
    assert (es + [e])[..|es|] == es;
  }

  /** Exits among which none comes before another keep their order. */
  lemma {:induction false} InsertStable(sorted: seq<Exit>, e: Exit, keep: Exit -> bool)
    requires forall x :: keep(e) && keep(x) ==> !Before(e, x)
    ensures Filter(InsertByLatency(sorted, e), keep) == if keep(e) then Filter(sorted, keep) + [e]
              else Filter(sorted, keep)
  {
    if sorted != [] && Before(e, sorted[|sorted| - 1]) {
      var front, last := sorted[..|sorted| - 1], sorted[|sorted| - 1];
      InsertStable(front, e, keep);
      assert sorted == front + [last];
      FilterSnoc(front, last, keep);
      FilterSnoc(InsertByLatency(front, e), last, keep);
    } else {
      FilterSnoc(sorted, e, keep);
    }
  }

  /** A permutation in ascending order of latency, unmeasured exits last, that keeps the order of exits of one rank. */
  lemma ByLatencyMeans(es: seq<Exit>, v: Exit)
    ensures Ranked(ByLatency(es)) && multiset(ByLatency(es)) == multiset(es)
    ensures Filter(ByLatency(es), (x: Exit) => SameRank(x, v)) == Filter(es, (x: Exit) => SameRank(x, v))
  {
    ByLatencyKeeps(es);
    ByLatencyStable(es, v);
  }

  lemma LastApart(es: seq<Exit>)
    requires es != []
    ensures multiset(es) == multiset(es[..|es| - 1]) + multiset{es[|es| - 1]}
  {
    assert es == es[..|es| - 1] + [es[|es| - 1]];
  }

  lemma {:induction false} ByLatencyKeeps(es: seq<Exit>)
    ensures Ranked(ByLatency(es)) && multiset(ByLatency(es)) == multiset(es)
  {
    if es != [] {
      var front, last := es[..|es| - 1], es[|es| - 1];
      ByLatencyKeeps(front);
      InsertRanked(ByLatency(front), last);
      InsertKeeps(ByLatency(front), last);
      LastApart(es);
    }
  }

  lemma {:induction false} ByLatencyStable(es: seq<Exit>, v: Exit)
    ensures Filter(ByLatency(es), (x: Exit) => SameRank(x, v)) == Filter(es, (x: Exit) => SameRank(x, v))
  {
    if es != [] {
      ByLatencyStable(es[..|es| - 1], v);
      InsertStable(ByLatency(es[..|es| - 1]), es[|es| - 1], (x: Exit) => SameRank(x, v));
    }
  }

  /** The exits by latency, read from the cursor on and around the end. */
  function RotatedByLatency(es: seq<Exit>, cursor: nat): (r: seq<Exit>)
    requires es != []
  {
    var sorted := ByLatency(es);
    var start := Min(cursor % |es|, |sorted|);
    sorted[start..] + sorted[..start]
  }

  lemma RotatedByLatencyKeeps(es: seq<Exit>, cursor: nat)
    requires es != []
    ensures multiset(RotatedByLatency(es, cursor)) == multiset(es) && |ByLatency(es)| == |es|
  {
    var sorted := ByLatency(es);
    ByLatencyKeeps(es);
    CutKeeps(sorted, Min(cursor % |es|, |sorted|));
    SameSize(sorted, es);
  }

  lemma CutKeeps(s: seq<Exit>, k: nat)
    requires k <= |s|
    ensures multiset(s[k..] + s[..k]) == multiset(s)
  {
    assert s == s[..k] + s[k..];
  }

  lemma SameSize(a: seq<Exit>, b: seq<Exit>)
    requires multiset(a) == multiset(b)
    ensures |a| == |b|
  {
    assert |multiset(a)| == |a| && |multiset(b)| == |b|;
  }

  /** The exit offered `offset` places from the front stands as many places after the cursor in the order of
      latency, around the end. */
  lemma RotatedByLatencyAt(es: seq<Exit>, cursor: nat, offset: nat)
    requires offset < |es|
    ensures |RotatedByLatency(es, cursor)| == |ByLatency(es)| == |es|
    ensures RotatedByLatency(es, cursor)[offset] == ByLatency(es)[(cursor + offset) % |es|]
  {
    RotatedByLatencyKeeps(es, cursor);
    AddMod(cursor, offset, |es|);
  }

  /** rotateLatency, where the sorting is the library's. */
  method RotateLatency(es: seq<Exit>, cursor: nat) returns (r: seq<Exit>)
    requires es != []
    ensures r == RotatedByLatency(es, cursor)
    ensures multiset(r) == multiset(es) && |r| == |es| == |ByLatency(es)|
    ensures forall offset :: 0 <= offset < |es| ==> r[offset] == ByLatency(es)[(cursor + offset) % |es|]
  {
    RotatedByLatencyKeeps(es, cursor);
    var ordered := ByLatency(es);
    var start := cursor % |es|;
    r := ordered[start..];
    r := r + ordered[..start];
    forall offset | 0 <= offset < |es| ensures r[offset] == ByLatency(es)[(cursor + offset) % |es|] {
      RotatedByLatencyAt(es, cursor, offset);
    }
  }

  /** The order in which a window is offered. */
  function Offered(window: seq<Exit>, cursor: nat, preferLatency: bool): seq<Exit> {
    if window == [] then []
    else if preferLatency then RotatedByLatency(window, cursor)
    else Demoted(Rotated(window, cursor))
  }

  /** The candidates for a request. */
  method Ordered(es: seq<Exit>, now: int, floor: int, cursor: nat, preferLatency: bool)
    returns (ordered: seq<Exit>, panic: bool)
    ensures panic == Window(es, now, floor).1
    ensures ordered == Offered(Window(es, now, floor).0, cursor, preferLatency)
    ensures multiset(ordered) == multiset(Window(es, now, floor).0)
  {
    var window;
    window, panic := Choose(es, now, floor);
    if |window| == 0 { return [], panic; }
    if preferLatency {
      ordered := RotateLatency(window, cursor);
      RotatedByLatencyKeeps(window, cursor);
    } else {
      ordered := Rotate(window, cursor);
      RotatedKeeps(window, cursor);
      DemotedMeans(Rotated(window, cursor));
    }
  }

  /** Staleness over whole runs: however often grace was called, no request is offered an exit whose
      last validation lies two TTLs or more back. */
  lemma SelectionIsFresh(s: R.Pool, run: seq<R.Event>, cfg: R.Config, es: seq<Exit>, now: int, floor: int, e: Exit)
    requires R.Good(s, cfg) && R.Legal(s, run, cfg)
    requires |es| == |R.After(s, run, cfg).ts| && forall i :: 0 <= i < |es| ==> es[i] == R.After(s, run, cfg).ts[i].e
    requires e in Window(es, now, floor).0
    ensures e.validatedAt.Some? && now < e.validatedAt.value + 2 * cfg.ttl
  {
    WindowMeans(es, now, floor, e);
    var i :| 0 <= i < |es| && es[i] == e;
    R.LiveExitsAreFresh(s, run, cfg, i, now);
  }
}
