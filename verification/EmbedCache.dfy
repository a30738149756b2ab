/** The response cache of internal/embedcache/cache.go: an LRU list with an entry bound and a byte bound.
    List elements are addressed by their key, which is unique. */
module EmbedCache {
  import opened Basics

  datatype Entry<K> = Entry(key: K, response: Bytes)

  const DEFAULT_MAX_ENTRIES: int := 256
  const MAX_CACHE_BYTES: int := 67108864

  /** Conversion of a 64-bit int to int32. */
  function Int32(n: int): (r: int)
    ensures -0x8000_0000 <= r < 0x8000_0000
  {
    var low := n % 0x1_0000_0000;
    if low < 0x8000_0000 then low else low - 0x1_0000_0000
  }

  lemma Int32Twice(n: int)
    ensures Int32(Int32(n)) == Int32(n)
  {}

  function Configured(maxEntries: int): int {
    Int32(if maxEntries <= 0 then DEFAULT_MAX_ENTRIES else maxEntries)
  }

  // ---------------------------------------------------------------- the recency list, most recent first

  function Sum<K(==)>(es: seq<Entry<K>>): nat {
    if es == [] then 0 else Sum(es[..|es| - 1]) + |es[|es| - 1].response|
  }

  function Keys<K(==)>(es: seq<Entry<K>>): set<K> {
    if es == [] then {} else Keys(es[..|es| - 1]) + {es[|es| - 1].key}
  }

  predicate Distinct<K(==)>(es: seq<Entry<K>>) {
    es == [] || (Distinct(es[..|es| - 1]) && es[|es| - 1].key !in Keys(es[..|es| - 1]))
  }

  predicate Fits<K(==)>(es: seq<Entry<K>>, max: int, maxBytes: int) {
    |es| <= max && Sum(es) <= maxBytes
  }

  /** What eviction from the old end leaves. */
  function Evicted<K(==)>(es: seq<Entry<K>>, max: int, maxBytes: int): seq<Entry<K>> {
    if es == [] || Fits(es, max, maxBytes) then es else Evicted(es[..|es| - 1], max, maxBytes)
  }

  function Without<K(==)>(es: seq<Entry<K>>, key: K): seq<Entry<K>> {
    if es == [] then []
    else Without(es[..|es| - 1], key) + if es[|es| - 1].key == key then [] else [es[|es| - 1]]
  }

  function Lookup<K(==)>(es: seq<Entry<K>>, key: K): Option<Bytes> {
    if es == [] then None
    else if es[|es| - 1].key == key then Some(es[|es| - 1].response)
    else Lookup(es[..|es| - 1], key)
  }

  function Got<K(==)>(es: seq<Entry<K>>, key: K): seq<Entry<K>> {
    match Lookup(es, key) case None => es case Some(response) => [Entry(key, response)] + Without(es, key)
  }

  function Stored<K(==)>(es: seq<Entry<K>>, key: K, response: Bytes, max: int): seq<Entry<K>> {
    if |response| > MAX_CACHE_BYTES then es
    else Evicted([Entry(key, response)] + Without(es, key), max, MAX_CACHE_BYTES)
  }

  // ---------------------------------------------------------------- facts about the list

  lemma {:induction false} SumGrows<K>(es: seq<Entry<K>>, n: nat)
    requires n <= |es|
    ensures Sum(es[..n]) <= Sum(es)
  {
    if n < |es| {
      SumGrows(es[..|es| - 1], n);
      assert es[..|es| - 1][..n] == es[..n];
    } else {
      assert es[..n] == es;
    }
  }

  /** Eviction leaves the longest most-recent-first prefix that fits both bounds. */
  lemma {:induction false} EvictedIsLongestFit<K>(es: seq<Entry<K>>, max: int, maxBytes: int)
    requires maxBytes >= 0
    ensures Evicted(es, max, maxBytes) <= es
    ensures Evicted(es, max, maxBytes) == [] || Fits(Evicted(es, max, maxBytes), max, maxBytes)
    ensures forall n :: 0 <= n <= |es| && Fits(es[..n], max, maxBytes) ==> n <= |Evicted(es, max, maxBytes)|
  {
    if es != [] && !Fits(es, max, maxBytes) {
      var front := es[..|es| - 1];
      EvictedIsLongestFit(front, max, maxBytes);
      forall n | 0 <= n <= |es| && Fits(es[..n], max, maxBytes) ensures n <= |Evicted(es, max, maxBytes)| {
        if n == |es| {
          assert es[..n] == es;
        } else {
          assert front[..n] == es[..n];
        }
      }
    }
  }

  lemma {:induction false} KeysMean<K>(es: seq<Entry<K>>, key: K)
    ensures key in Keys(es) <==> Lookup(es, key).Some?
    ensures key in Keys(es) <==> exists i :: 0 <= i < |es| && es[i].key == key
  {
    if es != [] {
      KeysMean(es[..|es| - 1], key);
      assert forall i :: 0 <= i < |es| - 1 ==> es[..|es| - 1][i] == es[i];
    }
  }

  lemma {:induction false} DistinctCount<K>(es: seq<Entry<K>>)
    requires Distinct(es)
    ensures |Keys(es)| == |es|
  {
    if es != [] {
      DistinctCount(es[..|es| - 1]);
    }
  }

  lemma SnocMeans<K>(es: seq<Entry<K>>, e: Entry<K>)
    ensures Keys(es + [e]) == Keys(es) + {e.key} && Sum(es + [e]) == Sum(es) + |e.response|
    ensures Distinct(es + [e]) <==> Distinct(es) && e.key !in Keys(es)
    ensures forall k :: Lookup(es + [e], k) == if e.key == k then Some(e.response) else Lookup(es, k)
  {
    assert (es + [e])[..|es|] == es;
  }

  lemma SnocKeys<K>(es: seq<Entry<K>>, e: Entry<K>)
    ensures Keys(es + [e]) == Keys(es) + {e.key}
    ensures Distinct(es + [e]) <==> Distinct(es) && e.key !in Keys(es)
  {
    assert (es + [e])[..|es|] == es;
  }

  lemma WithoutSnoc<K>(es: seq<Entry<K>>, key: K)
    requires es != []
    ensures var rest := Without(es[..|es| - 1], key);
            Without(es, key) == if es[|es| - 1].key == key then rest else rest + [es[|es| - 1]]
  {}

  lemma {:induction false} WithoutHas<K>(es: seq<Entry<K>>, key: K, k: K)
    ensures k in Keys(Without(es, key)) <==> k in Keys(es) && k != key
  {
    if es != [] {
      WithoutHas(es[..|es| - 1], key, k);
      WithoutSnoc(es, key);
      SnocKeys(Without(es[..|es| - 1], key), es[|es| - 1]);
    }
  }

  lemma {:induction false} WithoutDistinct<K>(es: seq<Entry<K>>, key: K)
    requires Distinct(es)
    ensures Distinct(Without(es, key))
  {
    if es != [] {
      WithoutDistinct(es[..|es| - 1], key);
      WithoutSnoc(es, key);
      WithoutHas(es[..|es| - 1], key, es[|es| - 1].key);
      SnocKeys(Without(es[..|es| - 1], key), es[|es| - 1]);
    }
  }

  lemma WithoutKeys<K>(es: seq<Entry<K>>, key: K)
    ensures Keys(Without(es, key)) == Keys(es) - {key}
  {
    var left, all := Keys(Without(es, key)), Keys(es);
    forall k | k in left ensures k in all - {key} { WithoutHas(es, key, k); }
    forall k | k in all - {key} ensures k in left { WithoutHas(es, key, k); }
    assert left == all - {key};
  }

  /** Size of the response stored for a key. */
  function SizeOf<K(==)>(es: seq<Entry<K>>, key: K): nat {
    match Lookup(es, key) case Some(r) => |r| case None => 0
  }

  lemma {:induction false} WithoutSum<K>(es: seq<Entry<K>>, key: K)
    requires Distinct(es)
    ensures Sum(es) == Sum(Without(es, key)) + SizeOf(es, key)
  {
    if es != [] {
      var front, last := es[..|es| - 1], es[|es| - 1];
      WithoutSum(front, key);
      if last.key == key {
        KeysMean(front, key);
        assert Without(es, key) == Without(front, key);
      } else {
        SnocMeans(Without(front, key), last);
      }
    }
  }

  lemma {:induction false} WithoutLookup<K>(es: seq<Entry<K>>, key: K, k: K)
    requires k != key
    ensures Lookup(Without(es, key), k) == Lookup(es, k)
  {
    if es != [] {
      var front, last := es[..|es| - 1], es[|es| - 1];
      WithoutLookup(front, key, k);
      if last.key == key {
        assert Without(es, key) == Without(front, key);
      } else {
        SnocMeans(Without(front, key), last);
      }
    }
  }

  lemma WithoutMeans<K>(es: seq<Entry<K>>, key: K)
    requires Distinct(es)
    ensures Distinct(Without(es, key)) && Keys(Without(es, key)) == Keys(es) - {key}
    ensures Sum(es) == Sum(Without(es, key)) + SizeOf(es, key)
    ensures forall k :: k != key ==> Lookup(Without(es, key), k) == Lookup(es, k)
  {
    WithoutKeys(es, key);
    WithoutDistinct(es, key);
    WithoutSum(es, key);
    forall k | k != key ensures Lookup(Without(es, key), k) == Lookup(es, k) { WithoutLookup(es, key, k); }
  }

  lemma {:induction false} ConsMeans<K>(e: Entry<K>, es: seq<Entry<K>>)
    ensures Keys([e] + es) == {e.key} + Keys(es) && Sum([e] + es) == |e.response| + Sum(es)
    ensures Distinct([e] + es) <==> Distinct(es) && e.key !in Keys(es)
    ensures forall k :: Lookup([e] + es, k) == if Lookup(es, k).Some? then Lookup(es, k) else if k == e.key
            then Some(e.response) else None
  {
    var all := [e] + es;
    if es == [] {
      var none: seq<Entry<K>> := [];
      assert all == [e] && all[..0] == none;
      assert Keys(none) == {} && Sum(none) == 0 && Distinct(none);
    } else {
      ConsMeans(e, es[..|es| - 1]);
      assert all[..|all| - 1] == [e] + es[..|es| - 1];
    }
  }

  lemma {:induction false} EvictedLookup<K>(es: seq<Entry<K>>, max: int, maxBytes: int, key: K)
    requires Distinct(es)
    ensures Lookup(Evicted(es, max, maxBytes), key) == Lookup(es, key) || Lookup(Evicted(es, max, maxBytes), key).None?
    ensures Distinct(Evicted(es, max, maxBytes))
  {
    if es != [] && !Fits(es, max, maxBytes) {
      EvictedLookup(es[..|es| - 1], max, maxBytes, key);
      KeysMean(es[..|es| - 1], key);
    }
  }

  lemma Replaced<K>(es: seq<Entry<K>>, key: K, response: Bytes)
    requires Distinct(es)
    ensures var all := [Entry(key, response)] + Without(es, key);
            && Distinct(all) && Keys(all) == Keys(es) + {key}
            && Sum(all) == Sum(es) + |response| - SizeOf(es, key)
            && (key in Keys(es) <==> Lookup(es, key).Some?) && (key in Keys(es) ==> Keys(es) == Keys(all))
  {
    KeysMean(es, key);
    WithoutMeans(es, key);
    ConsMeans(Entry(key, response), Without(es, key));
  }

  // ---------------------------------------------------------------- what callers rely on

  /** An accepted Put is readable at once exactly when the entry bound, as stored in 32 bits, is positive. */
  lemma PutReadable<K>(es: seq<Entry<K>>, key: K, response: Bytes, max: int)
    requires Distinct(es) && |response| <= MAX_CACHE_BYTES
    ensures Lookup(Stored(es, key, response, max), key) == if max >= 1 then Some(response) else None
  {
    var e, rest := Entry(key, response), Without(es, key);
    var all := [e] + rest;
    WithoutMeans(es, key);
    KeysMean(rest, key);
    ConsMeans(e, rest);
    EvictedLookup(all, max, MAX_CACHE_BYTES, key);
    EvictedIsLongestFit(all, max, MAX_CACHE_BYTES);
    var kept := Evicted(all, max, MAX_CACHE_BYTES);
    if max >= 1 {
      assert all[..1] == [e] && [e] == [e] + [];
      ConsMeans(e, []);
      assert Fits(all[..1], max, MAX_CACHE_BYTES);
      assert kept[0].key == key;
      KeysMean(kept, key);
    } else {
      assert kept == [];
    }
  }

  /** A Put never changes another key's response: it is kept or evicted. */
  lemma PutKeepsOthers<K>(es: seq<Entry<K>>, key: K, response: Bytes, max: int, other: K)
    requires Distinct(es) && other != key
    ensures Lookup(Stored(es, key, response, max), other) in {None, Lookup(es, other)}
  {
    var e, rest := Entry(key, response), Without(es, key);
    WithoutMeans(es, key);
    ConsMeans(e, rest);
    EvictedLookup([e] + rest, max, MAX_CACHE_BYTES, other);
  }

  /** Finding: an entry bound of 2^32 is stored as 0, and then no Put is ever readable. */
  lemma HugeBoundDisablesCache<K>(es: seq<Entry<K>>, key: K, response: Bytes)
    requires Distinct(es) && |response| <= MAX_CACHE_BYTES
    ensures Configured(0x1_0000_0000) == 0 && Lookup(Stored(es, key, response, Configured(0x1_0000_0000)), key).None?
  {
    PutReadable(es, key, response, 0);
  }

  /** A read changes no response and drops none; it only makes the key the most recent one. */
  lemma GetKeeps<K>(es: seq<Entry<K>>, key: K)
    requires Distinct(es)
    ensures Distinct(Got(es, key)) && Sum(Got(es, key)) == Sum(es) && |Got(es, key)| == |es|
    ensures forall k :: Lookup(Got(es, key), k) == Lookup(es, k)
  {
    match Lookup(es, key)
    case None =>
    case Some(response) =>
      var rest := Without(es, key);
      WithoutMeans(es, key);
      KeysMean(es, key);
      KeysMean(rest, key);
      ConsMeans(Entry(key, response), rest);
      DistinctCount(es);
      DistinctCount(rest);
  }

  // ---------------------------------------------------------------- least recently used, over whole runs

  datatype Op<K> = Read(key: K) | Write(key: K, response: Bytes) | Bound(max: int)
  datatype State<K> = State(es: seq<Entry<K>>, max: int)

  function Step<K(==)>(s: State<K>, op: Op<K>): State<K> {
    match op
    case Read(key) => s.(es := Got(s.es, key))
    case Write(key, response) => s.(es := Stored(s.es, key, response, s.max))
    case Bound(bound) => State(Evicted(s.es, bound, MAX_CACHE_BYTES), bound)
  }

  /** The cache after a run of operations on an empty one. */
  function Run<K(==)>(ops: seq<Op<K>>, max: int): State<K> {
    if ops == [] then State([], max) else Step(Run(ops[..|ops| - 1], max), ops[|ops| - 1])
  }

  lemma RunSnoc<K>(ops: seq<Op<K>>, op: Op<K>, max: int)
    ensures Run(ops + [op], max) == Step(Run(ops, max), op)
  {
    assert (ops + [op])[..|ops|] == ops;
  }

  /** When the key was last read or written, counted in operations; 0 if it never was. A response that is too large
      for the cache is not written. */
  function Used<K(==)>(ops: seq<Op<K>>, key: K): (n: nat)
    ensures n <= |ops|
  {
    if ops == [] then 0
    else
      var last := ops[|ops| - 1];
      if !last.Bound? && last.key == key && (last.Write? ==> |last.response| <= MAX_CACHE_BYTES) then |ops|
      else Used(ops[..|ops| - 1], key)
  }

  /** The entries stand in falling order of `f`. */
  ghost predicate Falling<K>(es: seq<Entry<K>>, f: K -> nat) {
    forall i, j :: 0 <= i < j < |es| ==> f(es[i].key) > f(es[j].key)
  }

  lemma {:induction false} WithoutMembers<K>(es: seq<Entry<K>>, key: K)
    ensures forall e :: e in Without(es, key) ==> e in es && e.key != key
  {
    if es != [] {
      WithoutMembers(es[..|es| - 1], key);
      WithoutSnoc(es, key);
    }
  }

  lemma SnocFalling<K>(es: seq<Entry<K>>, e: Entry<K>, f: K -> nat)
    requires Falling(es, f) && forall x :: x in es ==> f(x.key) > f(e.key)
    ensures Falling(es + [e], f)
  {}

  lemma FrontIsHigher<K>(es: seq<Entry<K>>, f: K -> nat)
    requires es != [] && Falling(es, f)
    ensures Falling(es[..|es| - 1], f) && forall x :: x in es[..|es| - 1] ==> f(x.key) > f(es[|es| - 1].key)
  {}

  lemma {:induction false} WithoutFalling<K>(es: seq<Entry<K>>, key: K, f: K -> nat)
    requires Falling(es, f)
    ensures Falling(Without(es, key), f)
    ensures forall e :: e in Without(es, key) ==> e in es && e.key != key
  {
    WithoutMembers(es, key);
    if es != [] {
      var front, last := es[..|es| - 1], es[|es| - 1];
      FrontIsHigher(es, f);
      WithoutFalling(front, key, f);
      WithoutSnoc(es, key);
      SnocFalling(Without(front, key), last, f);
    }
  }

  /** Bringing a key to the front, with the latest use of all. */
  lemma FrontFalling<K>(es: seq<Entry<K>>, e: Entry<K>, f: K -> nat, g: K -> nat)
    requires Falling(es, f) && forall k :: k != e.key ==> g(k) == f(k) < g(e.key)
    ensures Falling([e] + Without(es, e.key), g)
  {
    WithoutFalling(es, e.key, f);
    var rest := Without(es, e.key);
    forall i | 0 <= i < |rest| ensures g(rest[i].key) == f(rest[i].key) < g(e.key) {
      assert rest[i] in rest;
    }
    ConsFalling(e, rest, f, g);
  }

  lemma ConsFalling<K>(e: Entry<K>, rest: seq<Entry<K>>, f: K -> nat, g: K -> nat)
    requires Falling(rest, f) && forall i :: 0 <= i < |rest| ==> g(rest[i].key) == f(rest[i].key) < g(e.key)
    ensures Falling([e] + rest, g)
  {
    var all := [e] + rest;
    assert all[0] == e && forall i :: 0 < i < |all| ==> all[i] == rest[i - 1];
  }

  lemma EvictedFalling<K>(es: seq<Entry<K>>, max: int, f: K -> nat)
    requires Falling(es, f)
    ensures Falling(Evicted(es, max, MAX_CACHE_BYTES), f)
  {
    EvictedIsLongestFit(es, max, MAX_CACHE_BYTES);
  }

  /** The list is the order of last use: over every run of reads, writes and bound changes, of any two entries the one
      used later stands nearer to the front. */
  lemma {:induction false} RecentFirst<K>(ops: seq<Op<K>>, max: int)
    ensures Falling(Run(ops, max).es, (k: K) => Used(ops, k))
  {
    if ops != [] {
      var front, last := ops[..|ops| - 1], ops[|ops| - 1];
      RecentFirst(front, max);
      LastOpFalling(ops, Run(front, max));
    }
  }

  lemma LastOpFalling<K>(ops: seq<Op<K>>, s: State<K>)
    requires ops != [] && Falling(s.es, (k: K) => Used(ops[..|ops| - 1], k))
    ensures Falling(Step(s, ops[|ops| - 1]).es, (k: K) => Used(ops, k))
  {
    var f, g := (k: K) => Used(ops[..|ops| - 1], k), (k: K) => Used(ops, k);
    match ops[|ops| - 1]
    case Read(key) => GotFalling(s.es, key, f, g);
    case Write(key, response) => StoredFalling(s.es, key, response, s.max, f, g);
    case Bound(bound) =>
      EvictedFalling(s.es, bound, f);
      assert forall k :: g(k) == f(k);
  }

  lemma GotFalling<K>(es: seq<Entry<K>>, key: K, f: K -> nat, g: K -> nat)
    requires Falling(es, f) && forall k :: k != key ==> g(k) == f(k) < g(key)
    ensures Falling(Got(es, key), g)
  {
    if Lookup(es, key).Some? {
      FrontFalling(es, Entry(key, Lookup(es, key).value), f, g);
    } else {
      KeysMean(es, key);
      assert forall i :: 0 <= i < |es| ==> es[i].key != key;
    }
  }

  lemma StoredFalling<K>(es: seq<Entry<K>>, key: K, response: Bytes, max: int, f: K -> nat, g: K -> nat)
    requires Falling(es, f)
    requires if |response| <= MAX_CACHE_BYTES then forall k :: k != key ==> g(k) == f(k) < g(key)
             else forall k :: g(k) == f(k)
    ensures Falling(Stored(es, key, response, max), g)
  {
    if |response| <= MAX_CACHE_BYTES {
      FrontFalling(es, Entry(key, response), f, g);
      EvictedFalling([Entry(key, response)] + Without(es, key), max, g);
    }
  }

  /** A write that needs room drops the keys used longest ago: what it drops was last used before all that it keeps. */
  lemma OldestGoes<K>(ops: seq<Op<K>>, max: int, key: K, response: Bytes, gone: K, kept: K)
    requires |response| <= MAX_CACHE_BYTES && gone != key
    requires gone in Keys(Run(ops, max).es) && Distinct(Run(ops, max).es)
    requires gone !in Keys(Stored(Run(ops, max).es, key, response, Run(ops, max).max))
    requires kept in Keys(Stored(Run(ops, max).es, key, response, Run(ops, max).max))
    ensures Used(ops + [Write(key, response)], gone) < Used(ops + [Write(key, response)], kept)
  {
    var s, later := Run(ops, max), ops + [Write(key, response)];
    var g := (k: K) => Used(later, k);
    var all := [Entry(key, response)] + Without(s.es, key);
    assert later[..|ops|] == ops;
    RecentFirst(ops, max);
    FrontFalling(s.es, Entry(key, response), (k: K) => Used(ops, k), g);
    Replaced(s.es, key, response);
    CutFalling(all, s.max, g, gone, kept);
  }

  lemma CutFalling<K>(all: seq<Entry<K>>, max: int, g: K -> nat, gone: K, kept: K)
    requires Falling(all, g) && gone in Keys(all) && gone !in Keys(Evicted(all, max, MAX_CACHE_BYTES))
    requires kept in Keys(Evicted(all, max, MAX_CACHE_BYTES))
    ensures g(gone) < g(kept)
  {
    EvictedIsLongestFit(all, max, MAX_CACHE_BYTES);
    var left := Evicted(all, max, MAX_CACHE_BYTES);
    KeysMean(all, gone);
    KeysMean(left, gone);
    KeysMean(left, kept);
    var i :| 0 <= i < |left| && left[i].key == kept;
    var j :| 0 <= j < |all| && all[j].key == gone;
    assert forall n :: 0 <= n < |left| ==> left[n] == all[n];
    assert j >= |left|;
  }

  lemma {:induction false} RunDistinct<K>(ops: seq<Op<K>>, max: int)
    ensures Distinct(Run(ops, max).es)
  {
    if ops != [] {
      RunDistinct(ops[..|ops| - 1], max);
      var s := Run(ops[..|ops| - 1], max);
      match ops[|ops| - 1]
      case Read(key) => GetKeeps(s.es, key);
      case Write(key, response) =>
        Replaced(s.es, key, response);
        EvictedLookup([Entry(key, response)] + Without(s.es, key), s.max, MAX_CACHE_BYTES, key);
      case Bound(bound) =>
        if s.es != [] { EvictedLookup(s.es, bound, MAX_CACHE_BYTES, s.es[0].key); }
    }
  }

  // ---------------------------------------------------------------- the cache

  class Cache<K(==)> {
    var max: int
    var bytes: int
    var keys: set<K>
    var lru: seq<Entry<K>>
    /** The operations so far, and the bound before the first. */
    ghost var ops: seq<Op<K>>
    ghost const first: int

    /** Map and list hold the same distinct keys, the byte counter is their total size, both bounds hold; and the list
        is what the operations made of it. */
    ghost predicate Valid()
      reads this
    {
      && Run(ops, first) == State(lru, max)
      && Distinct(lru) && keys == Keys(lru) && bytes == Sum(lru)
      && (lru == [] || Fits(lru, max, MAX_CACHE_BYTES)) && max == Int32(max)
    }

    constructor (maxEntries: int)
      ensures Valid() && lru == [] && max == Configured(maxEntries) && ops == []
    {
      Int32Twice(if maxEntries <= 0 then DEFAULT_MAX_ENTRIES else maxEntries);
      max := Configured(maxEntries);
      bytes, keys, lru := 0, {}, [];
      ops, first := [], Configured(maxEntries);
    }

    method Get(key: K) returns (response: Option<Bytes>)
      requires Valid()
      modifies this`lru, this`ops
      ensures Valid() && response == Lookup(old(lru), key) && lru == Got(old(lru), key)
      ensures ops == old(ops) + [Read(key)]
    {
      KeysMean(lru, key);
      GetKeeps(lru, key);
      RunSnoc(ops, Read(key), first);
      ops := ops + [Read(key)];
      if key !in keys { return None; }
      response := Lookup(lru, key);
      WithoutMeans(lru, key);
      ConsMeans(Entry(key, response.value), Without(lru, key));
      lru := [Entry(key, response.value)] + Without(lru, key);
    }

    method Put(key: K, response: Bytes)
      requires Valid()
      modifies this
      ensures Valid() && max == old(max) && lru == Stored(old(lru), key, response, max)
      ensures ops == old(ops) + [Write(key, response)]
    {
      RunSnoc(ops, Write(key, response), first);
      ops := ops + [Write(key, response)];
      if |response| > MAX_CACHE_BYTES { return; }
      Replaced(lru, key, response);
      if key in keys {
        bytes := bytes + |response| - |Lookup(lru, key).value|;
      } else {
        keys := keys + {key};
        bytes := bytes + |response|;
      }
      lru := [Entry(key, response)] + Without(lru, key);
      Evict();
    }

    method Evict()
      requires Distinct(lru) && keys == Keys(lru) && bytes == Sum(lru) && max == Int32(max)
      modifies this`lru, this`keys, this`bytes
      ensures Distinct(lru) && keys == Keys(lru) && bytes == Sum(lru)
      ensures (lru == [] || Fits(lru, max, MAX_CACHE_BYTES)) && lru == Evicted(old(lru), max, MAX_CACHE_BYTES)
    {
      DistinctCount(lru);
      while |keys| > max || bytes > MAX_CACHE_BYTES
        invariant Distinct(lru) && keys == Keys(lru) && bytes == Sum(lru) && |keys| == |lru|
        invariant Evicted(lru, max, MAX_CACHE_BYTES) == Evicted(old(lru), max, MAX_CACHE_BYTES)
        decreases |lru|
      {
        if lru == [] { break; }
        var oldest := lru[|lru| - 1];
        bytes := bytes - |oldest.response|;
        lru := lru[..|lru| - 1];
        keys := keys - {oldest.key};
        DistinctCount(lru);
      }
    }

    method Resize(maxEntries: int)
      requires Valid()
      modifies this
      ensures Valid() && max == Configured(maxEntries) && lru == Evicted(old(lru), max, MAX_CACHE_BYTES)
      ensures ops == if max == old(max) then old(ops) else old(ops) + [Bound(max)]
    {
      var wanted := if maxEntries <= 0 then DEFAULT_MAX_ENTRIES else maxEntries;
      if max == wanted { return; }
      if max == Int32(wanted) { return; }
      max := Int32(wanted);
      Int32Twice(wanted);
      RunSnoc(ops, Bound(max), first);
      ops := ops + [Bound(max)];
      Evict();
    }
  }
}
