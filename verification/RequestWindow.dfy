/** The per-key sliding window of internal/pool/state.go: at most LIMIT grants in any
    WINDOW nanoseconds, kept as a list of grant times that is pruned in place. */
module RequestWindow {

  const LIMIT: nat := 30
  const WINDOW: int := 60_000_000_000

  ghost predicate Sorted(ts: seq<int>) {
    forall i, j :: 0 <= i < j < |ts| ==> ts[i] <= ts[j]
  }

  /** The times that survive pruning at `now`: those strictly after `now - WINDOW`. */
  function Kept(ts: seq<int>, now: int): seq<int> {
    if ts == [] then []
    else if ts[0] > now - WINDOW then [ts[0]] + Kept(ts[1..], now)
    else Kept(ts[1..], now)
  }

  /** How long a key must wait at `now`; 0 means that it may be granted. */
  function RetryAfter(ts: seq<int>, now: int): int {
    var kept := Kept(ts, now);
    if |kept| < LIMIT then 0
    else
      var left := WINDOW - (now - kept[0]);
      if left <= 0 then 1 else left
  }

  lemma {:induction false} KeptAppend(a: seq<int>, b: seq<int>, now: int)
    ensures Kept(a + b, now) == Kept(a, now) + Kept(b, now)
  {
    if a == [] {
      assert a + b == b;
    } else {
      assert (a + b)[1..] == a[1..] + b;
      KeptAppend(a[1..], b, now);
    }
  }

  /** One more time filtered. */
  lemma KeptSnoc(ts: seq<int>, i: nat, now: int)
    requires i < |ts|
    ensures Kept(ts[..i + 1], now) == if ts[i] > now - WINDOW then Kept(ts[..i], now) + [ts[i]] else Kept(ts[..i], now)
  {
    assert ts[..i + 1] == ts[..i] + [ts[i]];
    KeptAppend(ts[..i], [ts[i]], now);
    assert [ts[i]][1..] == [];
  }

  lemma {:induction false} KeptAll(ts: seq<int>, now: int)
    requires forall i :: 0 <= i < |ts| ==> ts[i] > now - WINDOW
    ensures Kept(ts, now) == ts
  {
    if ts != [] {
      KeptAll(ts[1..], now);
    }
  }

  lemma {:induction false} KeptNone(ts: seq<int>, now: int)
    requires forall i :: 0 <= i < |ts| ==> ts[i] <= now - WINDOW
    ensures Kept(ts, now) == []
  {
    if ts != [] {
      KeptNone(ts[1..], now);
    }
  }

  lemma {:induction false} KeptMembers(ts: seq<int>, now: int)
    ensures |Kept(ts, now)| <= |ts|
    ensures forall t :: t in Kept(ts, now) <==> t in ts && t > now - WINDOW
  {
    if ts != [] {
      KeptMembers(ts[1..], now);
      assert forall t :: t in ts <==> t == ts[0] || t in ts[1..];
    }
  }

  /** Pruning early never changes what a later prune leaves. */
  lemma {:induction false} KeptTwice(ts: seq<int>, now: int, later: int)
    requires now <= later
    ensures Kept(Kept(ts, now), later) == Kept(ts, later)
  {
    if ts != [] {
      KeptTwice(ts[1..], now, later);
      if ts[0] > now - WINDOW {
        KeptAppend([ts[0]], Kept(ts[1..], now), later);
        KeptAppend([ts[0]], ts[1..], later);
        assert [ts[0]] + ts[1..] == ts;
      }
    }
  }

  /** On a sorted list pruning is cutting off a prefix. */
  lemma {:induction false} KeptIsSuffix(ts: seq<int>, now: int) returns (cut: nat)
    requires Sorted(ts)
    ensures cut <= |ts| && Kept(ts, now) == ts[cut..]
    ensures forall i :: 0 <= i < cut ==> ts[i] <= now - WINDOW
    ensures forall i :: cut <= i < |ts| ==> ts[i] > now - WINDOW
  {
    if ts == [] {
      cut := 0;
    } else if ts[0] > now - WINDOW {
      cut := 0;
      KeptAll(ts, now);
    } else {
      var rest := KeptIsSuffix(ts[1..], now);
      cut := rest + 1;
      assert ts[1..][rest..] == ts[cut..];
      assert forall i :: 1 <= i < |ts| ==> ts[i] == ts[1..][i - 1];
    }
  }

  lemma PrunedRetryAfter(ts: seq<int>, now: int, later: int)
    requires now <= later
    ensures RetryAfter(Kept(ts, now), later) == RetryAfter(ts, later)
  {
    KeptTwice(ts, now, later);
  }

  /** The wait is positive and exact: while nothing new is granted the key stays denied at
      every instant before `now + wait` and is admitted at that instant. */
  lemma RetryAfterExact(ts: seq<int>, now: int)
    requires Sorted(ts) && |ts| <= LIMIT
    requires RetryAfter(ts, now) != 0
    ensures 0 < RetryAfter(ts, now)
    ensures (forall i :: 0 <= i < |ts| ==> ts[i] <= now) ==> RetryAfter(ts, now) <= WINDOW
    ensures forall t :: now <= t < now + RetryAfter(ts, now) ==> RetryAfter(ts, t) > 0
    ensures forall t :: now + RetryAfter(ts, now) <= t ==> RetryAfter(ts, t) == 0
  {
    var wait := RetryAfter(ts, now);
    var cut := KeptIsSuffix(ts, now);
    assert cut == 0;
    assert wait == ts[0] + WINDOW - now;
    forall t | now <= t < now + wait ensures RetryAfter(ts, t) > 0 {
      var c := KeptIsSuffix(ts, t);
      assert c == 0;
    }
    forall t | now + wait <= t ensures RetryAfter(ts, t) == 0 {
      var c := KeptIsSuffix(ts, t);
      assert c > 0;
    }
  }

  // ---------------------------------------------------------------- whole histories

  /** Any LIMIT + 1 consecutive grants span at least WINDOW. */
  ghost predicate Spaced(grants: seq<int>) {
    forall i, j :: 0 <= i && i + LIMIT <= j < |grants| ==> grants[j] - grants[i] >= WINDOW
  }

  /** `times` is what is left of the full grant history after pruning up to `last`. */
  ghost predicate Tracks(times: seq<int>, grants: seq<int>, last: int) {
    && Sorted(grants)
    && (forall i :: 0 <= i < |grants| ==> grants[i] <= last)
    && |times| <= LIMIT && |times| <= |grants|
    && times == grants[|grants| - |times|..]
    && (forall i :: 0 <= i < |grants| - |times| ==> grants[i] <= last - WINDOW)
    && Spaced(grants)
  }

  lemma TracksLater(times: seq<int>, grants: seq<int>, last: int, now: int)
    requires Tracks(times, grants, last) && last <= now
    ensures Tracks(times, grants, now)
  {}

  lemma PruneTracks(times: seq<int>, grants: seq<int>, last: int, now: int)
    requires Tracks(times, grants, last) && last <= now
    ensures Tracks(Kept(times, now), grants, now)
  {
    var cut := KeptIsSuffix(times, now);
    var kept := Kept(times, now);
    assert kept == grants[|grants| - |kept|..];
    forall i | 0 <= i < |grants| - |kept| ensures grants[i] <= now - WINDOW {
      if i >= |grants| - |times| {
        assert grants[i] == times[i - (|grants| - |times|)];
      }
    }
  }

  /** A grant at `now`, admitted by RetryAfter, keeps the history spaced. */
  lemma GrantTracks(times: seq<int>, grants: seq<int>, last: int, now: int)
    requires Tracks(times, grants, last) && last <= now
    requires RetryAfter(times, now) == 0
    ensures Tracks(Kept(times, now) + [now], grants + [now], now)
  {
    PruneTracks(times, grants, last, now);
    var kept := Kept(times, now);
    assert |kept| < LIMIT;
    var after := grants + [now];
    assert kept + [now] == after[|after| - |kept| - 1..];
    forall i, j | 0 <= i && i + LIMIT <= j < |after| ensures after[j] - after[i] >= WINDOW {
      if j == |grants| {
        assert i < |grants| - |kept|;
        assert grants[i] <= now - WINDOW;
      }
    }
  }

  /** A tracked list answers every later question as the full history would. */
  lemma TracksAnswers(times: seq<int>, grants: seq<int>, last: int, now: int)
    requires Tracks(times, grants, last) && last <= now
    ensures Kept(times, now) == Kept(grants, now)
    ensures RetryAfter(times, now) == RetryAfter(grants, now)
  {
    var old_ := grants[..|grants| - |times|];
    assert grants == old_ + times;
    KeptAppend(old_, times, now);
    KeptNone(old_, now);
  }

  /** The grants inside the window (t - WINDOW, t]. */
  ghost function InWindow(grants: seq<int>, t: int): set<nat> {
    set i: nat | i < |grants| && t - WINDOW < grants[i] <= t
  }

  /** The n numbers from lo on. */
  ghost function Span(lo: nat, n: nat): (s: set<nat>)
    ensures |s| == n
    ensures forall i :: i in s <==> lo <= i < lo + n
  {
    if n == 0 then {} else Span(lo, n - 1) + {lo + n - 1}
  }

  /** No window of length WINDOW, wherever it lies, holds more than LIMIT grants. */
  lemma WindowBound(grants: seq<int>, t: int)
    requires Spaced(grants)
    ensures |InWindow(grants, t)| <= LIMIT
  {
    var inside := InWindow(grants, t);
    if inside != {} {
      var first := LeastMember(inside);
      var range := Span(first, LIMIT);
      assert inside <= range;
      SubsetSize(inside, range);
    }
  }

  lemma {:induction false} LeastMember(s: set<nat>) returns (least: nat)
    requires s != {}
    ensures least in s && forall i :: i in s ==> least <= i
    decreases |s|
  {
    var x :| x in s;
    var rest := s - {x};
    assert s == rest + {x};
    if rest == {} {
      return x;
    }
    least := LeastMember(rest);
    if x < least {
      least := x;
    }
  }

  lemma {:induction false} SubsetSize<T>(a: set<T>, b: set<T>)
    requires a <= b
    ensures |a| <= |b|
    decreases |a|
  {
    if a != {} {
      var x :| x in a;
      SubsetSize(a - {x}, b - {x});
    }
  }

  /** requestRetryAfter on a list of times: what is left of it, and the wait. */
  method PruneTimes(times: seq<int>, now: int) returns (kept: seq<int>, wait: int)
    ensures kept == Kept(times, now) && wait == RetryAfter(times, now)
  {
    kept := [];
    for i := 0 to |times|
      invariant kept == Kept(times[..i], now)
    {
      KeptSnoc(times, i, now);
      if times[i] > now - WINDOW {
        kept := kept + [times[i]];
      }
    }
    assert times[..|times|] == times;
    if |kept| < LIMIT {
      return kept, 0;
    }
    wait := WINDOW - (now - kept[0]);
    if wait <= 0 {
      wait := 1;
    }
  }

  // ---------------------------------------------------------------- keyState's own buffer

  /** The requestTimes field of keyState: a buffer of capacity LIMIT filtered in place.
      `grants` and `last` record the whole history that the buffer abbreviates. */
  class RequestTimes {
    var slots: array<int>
    var used: nat
    ghost var grants: seq<int>
    ghost var last: int

    ghost predicate Valid()
      reads this, slots
    {
      slots.Length == LIMIT && used <= LIMIT && Tracks(slots[..used], grants, last)
    }

    ghost function Times(): seq<int>
      requires used <= slots.Length
      reads this, slots
    {
      slots[..used]
    }

    constructor (start: int)
      ensures Valid() && fresh(slots)
      ensures grants == [] && last == start && Times() == []
    {
      slots := new int[LIMIT];
      used := 0;
      grants := [];
      last := start;
    }

    /** The in-place filter: keeps the times inside the window, in order. */
    method Compact(now: int)
      requires used <= slots.Length
      modifies this`used, slots
      ensures used <= old(used)
      ensures Times() == Kept(old(Times()), now)
    {
      ghost var before := slots[..used];
      var kept := 0;
      for read := 0 to used
        invariant kept <= read && used == old(used)
        invariant slots[..kept] == Kept(before[..read], now)
        invariant slots[read..used] == before[read..]
      {
        KeptAppend(before[..read], [before[read]], now);
        assert before[..read + 1] == before[..read] + [before[read]];
        assert slots[read] == slots[read..used][0] == before[read];
        assert slots[read + 1..used] == slots[read..used][1..] == before[read + 1..];
        if slots[read] > now - WINDOW {
          slots[kept] := slots[read];
          kept := kept + 1;
        }
      }
      assert before[..used] == before;
      used := kept;
    }

    /** Prunes in place and says how long the key must wait. */
    method RequestRetryAfter(now: int) returns (wait: int)
      requires Valid() && last <= now
      modifies this, slots
      ensures Valid() && slots == old(slots)
      ensures grants == old(grants) && last == now
      ensures Times() == Kept(old(Times()), now) == Kept(grants, now)
      ensures wait == RetryAfter(old(Times()), now) == RetryAfter(grants, now)
    {
      PruneTracks(slots[..used], grants, last, now);
      TracksAnswers(slots[..used], grants, last, now);
      Compact(now);
      last := now;
      if used < LIMIT {
        return 0;
      }
      wait := WINDOW - (now - slots[0]);
      if wait <= 0 {
        wait := 1;
      }
    }

    /** Records a grant when the window admits one. */
    method ReserveRequest(now: int) returns (wait: int, reserved: bool)
      requires Valid() && last <= now
      modifies this, slots
      ensures Valid() && slots == old(slots) && last == now
      ensures wait == RetryAfter(old(grants), now) && reserved == (wait == 0)
      ensures grants == if reserved then old(grants) + [now] else old(grants)
      ensures Times() == Kept(old(grants), now) + if reserved then [now] else []
    {
      ghost var before := slots[..used];
      GrantOrNot(before, grants, last, now);
      wait := RequestRetryAfter(now);
      if wait > 0 {
        reserved := false;
        return;
      }
      slots[used] := now;
      used := used + 1;
      grants := grants + [now];
      reserved := true;
      assert slots[..used] == Kept(before, now) + [now];
    }
  }

  lemma GrantOrNot(times: seq<int>, grants: seq<int>, last: int, now: int)
    requires Tracks(times, grants, last) && last <= now
    ensures RetryAfter(times, now) == RetryAfter(grants, now) >= 0
    ensures RetryAfter(times, now) == 0 ==>
              |Kept(times, now)| < LIMIT && Tracks(Kept(times, now) + [now], grants + [now], now)
  {
    TracksAnswers(times, grants, last, now);
    if RetryAfter(times, now) == 0 {
      GrantTracks(times, grants, last, now);
    }
  }
}
