/** Slot conservation and result delivery, for every run of the scheduler. */
module PoolConservation {
  import opened Basics
  import opened RequestWindow
  import opened KeyOrder
  import opened PoolModel

  /** Unreleased leases of one kind cut from object `o`. */
  ghost function Held(leases: seq<Lease>, o: nat, stream: bool): nat {
    if leases == [] then 0
    else
      var last := leases[|leases| - 1];
      Held(leases[..|leases| - 1], o, stream)
      + if last.obj == o && last.stream == stream && !last.released then 1 else 0
  }

  ghost predicate SlotsMatch(p: Pool) {
    forall o {:trigger p.objs[o]} :: 0 <= o < |p.objs| ==>
      && Held(p.leases, o, false) == (if p.objs[o].busy then 1 else 0)
      && Held(p.leases, o, true) == p.objs[o].streaming
  }

  /** Every waiter goroutine that has not returned is either queued or has exactly one result in
      its channel; a queued one has none, so a send to it never blocks. */
  ghost predicate ChannelsMatch(p: Pool) {
    && (forall i, j :: 0 <= i < j < |p.queue| ==> p.queue[i].id != p.queue[j].id)
    && (forall i :: 0 <= i < |p.queue| ==>
          p.queue[i].id < |p.phases| && p.phases[p.queue[i].id] == Waiting && p.queue[i].id !in p.results)
    && (forall w :: w in p.results ==> w < |p.phases| && p.phases[w] != Done)
    && (forall w :: 0 <= w < |p.phases| && p.phases[w] != Done && w !in p.results ==> Queued(p, w))
  }

  /** A lease is in a channel exactly when that channel holds its grant, and then it is unreleased. */
  ghost predicate CustodyMatches(p: Pool) {
    && (forall l :: 0 <= l < |p.leases| && p.leases[l].custody.InChannel? ==>
          && !p.leases[l].released
          && p.leases[l].custody.waiter in p.results
          && p.results[p.leases[l].custody.waiter] == Granted(l))
    && (forall w :: w in p.results && p.results[w].Granted? ==>
          && p.results[w].lease < |p.leases|
          && p.leases[p.results[w].lease].custody == InChannel(w))
  }

  /** The order is the strictly ascending list of exactly the known ids, each key object carries the
      id it is known by, and leases point at existing objects. */
  ghost predicate TablesMatch(p: Pool) {
    && CursorInRange(p.order, p.cursor)
    && Ascending(p.order)
    && (forall id :: id in p.order <==> id in p.keys)
    && (forall id :: id in p.keys ==> p.keys[id] < |p.objs| && p.objs[p.keys[id]].id == id)
    && (forall l :: 0 <= l < |p.leases| ==> p.leases[l].obj < |p.objs|)
  }

  /** Queued waiters carry what they asked for, and every lease in a channel is the client's whose request
      waits there and keeps the promise made to that request. */
  ghost predicate PromisesKept(p: Pool) {
    && |p.asked| == |p.phases|
    && (forall i :: 0 <= i < |p.queue| ==> p.queue[i].id < |p.asked| && p.asked[p.queue[i].id] == p.queue[i].req)
    && (forall w :: w in p.results && p.results[w].Granted? && p.results[w].lease < |p.leases| ==>
          && w < |p.asked| && KeepsPromise(p.asked[w], p.leases[p.results[w].lease].key)
          && p.leases[p.results[w].lease].client == p.asked[w].client)
  }

  ghost predicate Conserved(p: Pool) {
    Wf(p) && TablesMatch(p) && SlotsMatch(p) && ChannelsMatch(p) && CustodyMatches(p) && PromisesKept(p)
  }

  // ---------------------------------------------------------------- counting leases

  lemma HeldAppend(leases: seq<Lease>, l: Lease, o: nat, stream: bool)
    ensures Held(leases + [l], o, stream) ==
            Held(leases, o, stream) + if l.obj == o && l.stream == stream && !l.released then 1 else 0
  {
    assert (leases + [l])[..|leases|] == leases;
  }

  ghost function Weight(l: Lease, o: nat, stream: bool): nat {
    if l.obj == o && l.stream == stream && !l.released then 1 else 0
  }

  lemma {:induction false} HeldUpdate(leases: seq<Lease>, i: nat, l: Lease, o: nat, stream: bool)
    requires i < |leases|
    ensures Held(leases[i := l], o, stream)
            == Held(leases, o, stream) - Weight(leases[i], o, stream) + Weight(l, o, stream)
    ensures Held(leases, o, stream) >= Weight(leases[i], o, stream)
  {
    var n := |leases| - 1;
    if i < n {
      HeldUpdate(leases[..n], i, l, o, stream);
      assert leases[i := l][..n] == leases[..n][i := l];
    } else {
      assert leases[i := l][..n] == leases[..n];
    }
  }

  lemma {:induction false} HeldNone(leases: seq<Lease>, o: nat, stream: bool)
    requires forall l :: 0 <= l < |leases| ==> leases[l].released || leases[l].obj != o || leases[l].stream != stream
    ensures Held(leases, o, stream) == 0
  {
    if leases != [] {
      HeldNone(leases[..|leases| - 1], o, stream);
    }
  }

  // ---------------------------------------------------------------- the queue

  lemma {:induction false} RemoveKeeps(q: seq<Waiter>, w: nat)
    ensures forall x :: x in Remove(q, w) <==> x in q && x.id != w
    ensures |Remove(q, w)| <= |q|
  {
    if q != [] {
      RemoveKeeps(q[1..], w);
      assert q == [q[0]] + q[1..];
    }
  }

  lemma {:induction false} RemoveDistinct(q: seq<Waiter>, w: nat)
    requires forall i, j :: 0 <= i < j < |q| ==> q[i].id != q[j].id
    ensures forall i, j :: 0 <= i < j < |Remove(q, w)| ==> Remove(q, w)[i].id != Remove(q, w)[j].id
  {
    if q != [] {
      RemoveDistinct(q[1..], w);
      RemoveKeeps(q[1..], w);
      var rest := Remove(q[1..], w);
      forall x | x in rest ensures x.id != q[0].id {
        assert x in q[1..];
        var k :| 0 <= k < |q[1..]| && q[1..][k] == x;
        assert q[k + 1] == x;
      }
    }
  }

  lemma QueuedMember(p: Pool, w: nat)
    ensures Queued(p, w) <==> exists x :: x in p.queue && x.id == w
  {
    if exists x :: x in p.queue && x.id == w {
      var x :| x in p.queue && x.id == w;
      var i :| 0 <= i < |p.queue| && p.queue[i] == x;
    }
  }

  // ---------------------------------------------------------------- the table of keys

  lemma {:induction false} TableOf(ks: seq<Key>, base: nat)
    requires Distinct(Ids(ks))
    ensures forall id :: id in Table(ks, base) <==> id in Ids(ks)
    ensures forall i :: 0 <= i < |ks| ==> ks[i].id in Table(ks, base) && Table(ks, base)[ks[i].id] == base + i
  {
    if ks != [] {
      var n := |ks| - 1;
      var front := ks[..n];
      assert Ids(front) == Ids(ks)[..n];
      assert Distinct(Ids(front)) by {
        assert forall i :: 0 <= i < n ==> Ids(front)[i] == Ids(ks)[i];
      }
      TableOf(front, base);
      assert Ids(ks) == Ids(front) + [ks[n].id];
      forall i | 0 <= i < |ks| ensures ks[i].id in Table(ks, base) && Table(ks, base)[ks[i].id] == base + i {
        if i < n {
          assert front[i] == ks[i];
          assert Ids(ks)[i] != Ids(ks)[n];
        }
      }
    }
  }

  lemma TablesWf(p: Pool)
    requires TablesMatch(p)
    ensures Wf(p)
  {
    forall i {:trigger p.order[i]} | 0 <= i < |p.order|
      ensures p.order[i] in p.keys && p.keys[p.order[i]] < |p.objs| && p.objs[p.keys[p.order[i]]].id == p.order[i]
    {
      assert p.order[i] in p.order;
    }
  }

  lemma LoadedKeys(objs: seq<Key>, ks: seq<Key>)
    requires Distinct(Ids(ks))
    ensures forall id :: id in Table(ks, |objs|) ==>
              Table(ks, |objs|)[id] < |objs + ks| && (objs + ks)[Table(ks, |objs|)[id]].id == id
  {
    TableOf(ks, |objs|);
    forall id | id in Table(ks, |objs|)
      ensures Table(ks, |objs|)[id] < |objs + ks| && (objs + ks)[Table(ks, |objs|)[id]].id == id
    {
      var i :| 0 <= i < |ks| && Ids(ks)[i] == id;
      assert ks[i].id == id;
      assert (objs + ks)[|objs| + i] == ks[i];
    }
  }

  lemma LoadedOrder(ks: seq<Key>, base: nat)
    requires Distinct(Ids(ks))
    ensures Ascending(Sort(Ids(ks)))
    ensures forall id :: id in Sort(Ids(ks)) <==> id in Table(ks, base)
  {
    SortAscending(Ids(ks));
    SortMembers(Ids(ks));
    TableOf(ks, base);
  }

  lemma LoadedTables(p: Pool, ks: seq<Key>)
    requires TablesMatch(p) && Distinct(Ids(ks))
    ensures TablesMatch(Loaded(p, ks))
  {
    LoadedKeys(p.objs, ks);
    LoadedOrder(ks, |p.objs|);
  }

  lemma LoadTables(p: Pool, ks: seq<Key>)
    requires Wf(p) && TablesMatch(p) && Fires(p, Load(ks))
    ensures TablesMatch(Next(p, Load(ks)))
  {
    LoadedTables(p, ks);
  }

  lemma AddKeyOrder(order: seq<int>, cursor: nat, id: int)
    requires Ascending(order) && CursorInRange(order, cursor) && id !in order
    ensures Ascending(Insert(order, id))
    ensures forall x :: x in Insert(order, id) <==> x == id || x in order
    ensures CursorInRange(Insert(order, id), CursorAfterInsert(order, cursor, id))
  {
    InsertAscending(order, id);
    InsertRotation(order, cursor, id);
  }

  lemma AddedTables(p: Pool, k: Key)
    requires TablesMatch(p) && k.id !in p.keys
    ensures TablesMatch(Added(p, k))
  {
    assert k.id !in p.order;
    AddKeyOrder(p.order, p.cursor, k.id);
  }

  lemma AddKeyTables(p: Pool, k: Key)
    requires Wf(p) && TablesMatch(p) && Fires(p, AddKey(k))
    ensures TablesMatch(Next(p, AddKey(k)))
  {
    AddedTables(p, k);
  }

  lemma DroppedTables(p: Pool, id: int)
    requires TablesMatch(p) && id in p.order
    ensures TablesMatch(Dropped(p, id))
  {
    var at := IndexOf(p.order, id);
    DropAscending(p.order, at);
    DropRotation(p.order, p.cursor, at);
  }

  lemma DropKeyTables(p: Pool, id: int)
    requires Wf(p) && TablesMatch(p) && Fires(p, DropKey(id))
    ensures TablesMatch(Next(p, DropKey(id)))
  {
    DroppedTables(p, id);
  }

  /** Removing one of two equal ids leaves the other in the order without an object. */
  lemma RepeatDangles(p: Pool, id: int)
    requires id in p.order && multiset(p.order)[id] >= 2
    ensures !Wf(Dropped(p, id))
  {
    var at := IndexOf(p.order, id);
    assert p.order == p.order[..at] + [id] + p.order[at + 1..];
    assert id in multiset(Drop(p.order, at));
    var i :| 0 <= i < |Drop(p.order, at)| && Drop(p.order, at)[i] == id;
    assert Dropped(p, id).order[i] !in Dropped(p, id).keys;
  }

  /** A loaded snapshot survives the removal of any of its keys if and only if its ids are distinct. Otherwise a
      removal leaves an id in the order that leads to no object, and the next scan has nothing to look at. */
  lemma SnapshotRemovable(p: Pool, ks: seq<Key>)
    requires TablesMatch(p)
    ensures Distinct(Ids(ks)) <==> forall id :: id in Loaded(p, ks).order ==> Wf(Dropped(Loaded(p, ks), id))
  {
    var q := Loaded(p, ks);
    if Distinct(Ids(ks)) {
      LoadedTables(p, ks);
      forall id | id in q.order ensures Wf(Dropped(q, id)) {
        DroppedTables(q, id);
        TablesWf(Dropped(q, id));
      }
    } else {
      var i, j :| 0 <= i < j < |Ids(ks)| && Ids(ks)[i] == Ids(ks)[j];
      RepeatCount(Ids(ks), i, j);
      SortMembers(Ids(ks));
      RepeatDangles(q, Ids(ks)[i]);
    }
  }

  /** Same key table and order; objects keep their ids, leases their objects. */
  ghost predicate SameTables(p: Pool, q: Pool) {
    && q.keys == p.keys && q.order == p.order && CursorInRange(q.order, q.cursor)
    && |q.objs| == |p.objs|
    && (forall o {:trigger q.objs[o]} :: 0 <= o < |p.objs| ==> q.objs[o].id == p.objs[o].id)
  }

  lemma SameTablesWf(p: Pool, q: Pool)
    requires Wf(p) && SameTables(p, q)
    ensures Wf(q)
  {}

  /** Events that change no key object. */
  predicate ObjectsStay(e: Event) {
    e.Refuse? || e.Rotate? || e.Enqueue? || e.Close? || e.Deliver? || e.Withdraw? || e.GiveUp? || e.Drain?
      || e.SetModel?
  }

  lemma QuietTables(p: Pool, e: Event)
    requires Wf(p) && Fires(p, e) && ObjectsStay(e)
    ensures var q := Next(p, e); q.objs == p.objs && q.keys == p.keys && q.order == p.order && q.cursor == p.cursor
  {}

  lemma OtherTables(p: Pool, e: Event)
    requires Wf(p) && Fires(p, e) && !e.Load? && !e.AddKey? && !e.DropKey?
    ensures SameTables(p, Next(p, e))
  {
    if ObjectsStay(e) {
      QuietTables(p, e);
    }
  }

  lemma OtherLeases(p: Pool, e: Event)
    requires Wf(p) && TablesMatch(p) && Fires(p, e) && !e.Load? && !e.AddKey? && !e.DropKey?
    ensures forall l :: 0 <= l < |Next(p, e).leases| ==> Next(p, e).leases[l].obj < |p.objs|
  {}

  lemma NextTables(p: Pool, e: Event)
    requires Wf(p) && TablesMatch(p) && Fires(p, e)
    ensures TablesMatch(Next(p, e)) && Wf(Next(p, e))
  {
    if e.Load? {
      LoadTables(p, e.keys);
    } else if e.AddKey? {
      AddKeyTables(p, e.key);
    } else if e.DropKey? {
      DropKeyTables(p, e.id);
    } else {
      OtherTables(p, e);
      OtherLeases(p, e);
    }
    TablesWf(Next(p, e));
  }

  // ---------------------------------------------------------------- each event conserves

  lemma SlotsAfterGrant(p: Pool, e: Event)
    requires Conserved(p) && Fires(p, e) && e.Grant?
    ensures SlotsMatch(Next(p, e))
  {
    var q := Next(p, e);
    var lease := q.leases[|p.leases|];
    forall o {:trigger q.objs[o]} | 0 <= o < |q.objs|
      ensures Held(q.leases, o, false) == (if q.objs[o].busy then 1 else 0)
      ensures Held(q.leases, o, true) == q.objs[o].streaming
    {
      HeldAppend(p.leases, lease, o, false);
      HeldAppend(p.leases, lease, o, true);
      assert p.objs[o] == p.objs[o];
    }
  }

  lemma SlotsAfterRelease(p: Pool, l: nat)
    requires Conserved(p) && Fires(p, Release(l))
    ensures SlotsMatch(Next(p, Release(l)))
  {
    var q := Next(p, Release(l));
    forall o {:trigger q.objs[o]} | 0 <= o < |q.objs|
      ensures Held(q.leases, o, false) == (if q.objs[o].busy then 1 else 0)
      ensures Held(q.leases, o, true) == q.objs[o].streaming
    {
      HeldUpdate(p.leases, l, q.leases[l], o, false);
      HeldUpdate(p.leases, l, q.leases[l], o, true);
      assert p.objs[o] == p.objs[o];
    }
  }

  lemma SlotsAfterCollect(p: Pool, e: Event)
    requires Conserved(p) && Fires(p, e) && (e.Deliver? || e.Drain?)
    ensures SlotsMatch(Next(p, e))
  {
    var q := Next(p, e);
    var w := e.waiter;
    if p.results[w].Granted? {
      var l := p.results[w].lease;
      forall o {:trigger q.objs[o]} | 0 <= o < |q.objs|
        ensures Held(q.leases, o, false) == Held(p.leases, o, false)
        ensures Held(q.leases, o, true) == Held(p.leases, o, true)
      {
        HeldUpdate(p.leases, l, q.leases[l], o, false);
        HeldUpdate(p.leases, l, q.leases[l], o, true);
      }
    }
  }

  lemma {:induction false} HeldUnknown(leases: seq<Lease>, o: nat, stream: bool)
    requires forall l :: 0 <= l < |leases| ==> leases[l].obj < o
    ensures Held(leases, o, stream) == 0
  {
    HeldNone(leases, o, stream);
  }

  lemma SlotsOfMoreKeys(p: Pool, q: Pool, ks: seq<Key>)
    requires SlotsMatch(p) && q.objs == p.objs + ks && q.leases == p.leases
    requires forall l :: 0 <= l < |p.leases| ==> p.leases[l].obj < |p.objs|
    requires forall i :: 0 <= i < |ks| ==> Idle(ks[i])
    ensures SlotsMatch(q)
  {
    forall o {:trigger q.objs[o]} | 0 <= o < |q.objs|
      ensures Held(q.leases, o, false) == (if q.objs[o].busy then 1 else 0)
      ensures Held(q.leases, o, true) == q.objs[o].streaming
    {
      if o < |p.objs| {
        assert q.objs[o] == p.objs[o];
      } else {
        HeldUnknown(p.leases, o, false);
        HeldUnknown(p.leases, o, true);
        assert q.objs[o] == ks[o - |p.objs|];
      }
    }
  }

  lemma SlotsAfterNewKeys(p: Pool, e: Event)
    requires Conserved(p) && Fires(p, e) && (e.AddKey? || e.Load?)
    ensures SlotsMatch(Next(p, e))
  {
    SlotsOfMoreKeys(p, Next(p, e), if e.AddKey? then [e.key] else e.keys);
  }

  predicate TouchesSlots(e: Event) {
    e.Grant? || e.Release? || e.Deliver? || e.Drain? || e.AddKey? || e.Load? || e.Sweep? || e.Edit?
  }

  lemma SlotsAside(p: Pool, e: Event)
    requires Wf(p) && Fires(p, e) && !TouchesSlots(e)
    ensures Next(p, e).objs == p.objs && Next(p, e).leases == p.leases
  {}

  lemma SlotsSame(p: Pool, e: Event)
    requires Wf(p) && Fires(p, e) && (e.Sweep? || e.Edit?)
    ensures Next(p, e).leases == p.leases && |Next(p, e).objs| == |p.objs|
    ensures forall x :: 0 <= x < |p.objs| ==> SameSlots(p.objs[x], Next(p, e).objs[x])
  {}

  lemma SlotsKept(p: Pool, q: Pool)
    requires SlotsMatch(p) && q.leases == p.leases && |q.objs| == |p.objs|
    requires forall x :: 0 <= x < |p.objs| ==> SameSlots(p.objs[x], q.objs[x])
    ensures SlotsMatch(q)
  {}

  lemma SlotsAfter(p: Pool, e: Event)
    requires Conserved(p) && Fires(p, e)
    ensures SlotsMatch(Next(p, e))
  {
    if e.Grant? {
      SlotsAfterGrant(p, e);
    } else if e.Release? {
      SlotsAfterRelease(p, e.lease);
    } else if e.Deliver? || e.Drain? {
      SlotsAfterCollect(p, e);
    } else if e.AddKey? || e.Load? {
      SlotsAfterNewKeys(p, e);
    } else if e.Sweep? || e.Edit? {
      SlotsSame(p, e);
      SlotsKept(p, Next(p, e));
    } else {
      SlotsAside(p, e);
      SlotsKept(p, Next(p, e));
    }
  }

  predicate SameSlots(a: Key, b: Key) {
    a.busy == b.busy && a.streaming == b.streaming
  }

  lemma ChannelsOfAnswered(p: Pool, q: Pool, out: Outcome)
    requires ChannelsMatch(p) && p.queue != [] && q.queue == p.queue[1..]
    requires q.phases == p.phases && q.results == p.results[p.queue[0].id := out]
    ensures ChannelsMatch(q)
  {
    forall w | 0 <= w < |q.phases| && q.phases[w] != Done && w !in q.results ensures Queued(q, w) {
      assert Queued(p, w);
      var i :| 0 <= i < |p.queue| && p.queue[i].id == w;
      assert q.queue[i - 1].id == w;
    }
  }

  lemma ChannelsAfterHead(p: Pool, e: Event)
    requires Conserved(p) && Fires(p, e)
    requires e.Refuse? || (e.Grant? && e.target.ToHead?)
    ensures ChannelsMatch(Next(p, e))
  {
    ChannelsOfAnswered(p, Next(p, e), if e.Refuse? then Refused(e.failure) else Granted(|p.leases|));
  }

  lemma ChannelsOfRotated(p: Pool, q: Pool)
    requires ChannelsMatch(p) && p.queue != [] && q.queue == p.queue[1..] + [p.queue[0]]
    requires q.phases == p.phases && q.results == p.results
    ensures ChannelsMatch(q)
  {
    var n := |p.queue| - 1;
    forall w | 0 <= w < |q.phases| && q.phases[w] != Done && w !in q.results ensures Queued(q, w) {
      assert Queued(p, w);
      var i :| 0 <= i < |p.queue| && p.queue[i].id == w;
      assert q.queue[if i == 0 then n else i - 1].id == w;
    }
  }

  lemma ChannelsAfterRotate(p: Pool, e: Event)
    requires Conserved(p) && Fires(p, e) && e.Rotate?
    ensures ChannelsMatch(Next(p, e))
  {
    ChannelsOfRotated(p, Next(p, e));
  }

  lemma ChannelsAfterEnqueue(p: Pool, e: Event)
    requires Conserved(p) && Fires(p, e) && e.Enqueue?
    ensures ChannelsMatch(Next(p, e))
  {
    var q := Next(p, e);
    forall w | 0 <= w < |q.phases| && q.phases[w] != Done && w !in q.results ensures Queued(q, w) {
      if w < |p.phases| {
        assert Queued(p, w);
        var i :| 0 <= i < |p.queue| && p.queue[i].id == w;
        assert q.queue[i].id == w;
      } else {
        assert q.queue[|p.queue|].id == w;
      }
    }
  }

  lemma RemoveQueued(p: Pool, q: Pool, w: nat, x: nat)
    requires q.queue == Remove(p.queue, w) && Queued(p, x) && x != w
    ensures Queued(q, x)
  {
    RemoveKeeps(p.queue, w);
    var i :| 0 <= i < |p.queue| && p.queue[i].id == x;
    assert p.queue[i] in q.queue;
    QueuedMember(q, x);
  }

  lemma QueueAfterRemove(p: Pool, q: seq<Waiter>, w: nat)
    requires ChannelsMatch(p) && q == Remove(p.queue, w)
    ensures forall i, j :: 0 <= i < j < |q| ==> q[i].id != q[j].id
    ensures forall i :: 0 <= i < |q| ==>
              q[i].id < |p.phases| && p.phases[q[i].id] == Waiting && q[i].id !in p.results && q[i].id != w
  {
    RemoveDistinct(p.queue, w);
    RemoveKeeps(p.queue, w);
    forall i | 0 <= i < |q|
      ensures q[i].id < |p.phases| && p.phases[q[i].id] == Waiting && q[i].id !in p.results && q[i].id != w
    {
      assert q[i] in p.queue;
    }
  }

  lemma QueuedUnanswered(p: Pool, w: nat)
    requires ChannelsMatch(p) && Queued(p, w)
    ensures w < |p.phases| && w !in p.results
  {}

  lemma ChannelsAfterRemove(p: Pool, q: Pool, w: nat)
    requires ChannelsMatch(p) && w < |p.phases| && Queued(p, w)
    requires q.queue == Remove(p.queue, w) && q.phases == p.phases[w := Done] && q.results == p.results
    ensures ChannelsMatch(q)
  {
    QueueAfterRemove(p, q.queue, w);
    QueuedUnanswered(p, w);
    forall x | 0 <= x < |q.phases| && q.phases[x] != Done && x !in q.results ensures Queued(q, x) {
      RemoveQueued(p, q, w, x);
    }
  }

  lemma ChannelsAfterWithdraw(p: Pool, e: Event)
    requires Conserved(p) && Fires(p, e) && e.Withdraw?
    ensures ChannelsMatch(Next(p, e))
  {
    ChannelsAfterRemove(p, Next(p, e), e.waiter);
  }

  lemma ChannelsAfterGiveUp(p: Pool, e: Event)
    requires Conserved(p) && Fires(p, e) && e.GiveUp?
    ensures ChannelsMatch(Next(p, e))
  {
    var q := Next(p, e);
    forall w | 0 <= w < |q.phases| && q.phases[w] != Done && w !in q.results ensures Queued(q, w) {
      assert Queued(p, w);
    }
  }

  lemma ChannelsAfterCollect(p: Pool, q: Pool, w: nat)
    requires ChannelsMatch(p) && w < |p.phases| && w in p.results
    requires q.queue == p.queue && q.phases == p.phases[w := Done] && q.results == p.results - {w}
    ensures ChannelsMatch(q)
  {
    forall x | 0 <= x < |q.phases| && q.phases[x] != Done && x !in q.results ensures Queued(q, x) {
      assert Queued(p, x);
      var i :| 0 <= i < |p.queue| && p.queue[i].id == x;
      assert q.queue[i].id == x;
    }
  }

  lemma ChannelsUntouched(p: Pool, q: Pool)
    requires ChannelsMatch(p)
    requires q.queue == p.queue && q.phases == p.phases && q.results == p.results
    ensures ChannelsMatch(q)
  {
    forall w | 0 <= w < |q.phases| && q.phases[w] != Done && w !in q.results ensures Queued(q, w) {
      assert Queued(p, w);
      var i :| 0 <= i < |p.queue| && p.queue[i].id == w;
      assert q.queue[i].id == w;
    }
  }

  /** The event moves no waiter. */
  predicate Aside(e: Event) {
    e.Sweep? || (e.Grant? && e.target.ToCaller?) || e.Close? || e.Release? || e.Edit? || e.SetModel?
    || e.AddKey? || e.DropKey? || e.Load?
  }

  lemma AsideKeepsWaiters(p: Pool, e: Event)
    requires Wf(p) && Fires(p, e) && Aside(e)
    ensures var q := Next(p, e); q.queue == p.queue && q.phases == p.phases && q.results == p.results
  {}

  lemma CollectShape(p: Pool, e: Event)
    requires Wf(p) && Fires(p, e) && (e.Deliver? || e.Drain?)
    ensures var q := Next(p, e); var w := e.waiter;
            q.queue == p.queue && q.phases == p.phases[w := Done] && q.results == p.results - {w}
  {}

  lemma ChannelsAfter(p: Pool, e: Event)
    requires Conserved(p) && Fires(p, e)
    ensures ChannelsMatch(Next(p, e))
  {
    if Aside(e) {
      AsideKeepsWaiters(p, e);
      ChannelsUntouched(p, Next(p, e));
    } else if e.Refuse? || e.Grant? {
      ChannelsAfterHead(p, e);
    } else if e.Rotate? {
      ChannelsAfterRotate(p, e);
    } else if e.Enqueue? {
      ChannelsAfterEnqueue(p, e);
    } else if e.Withdraw? {
      ChannelsAfterWithdraw(p, e);
    } else if e.GiveUp? {
      ChannelsAfterGiveUp(p, e);
    } else {
      CollectShape(p, e);
      ChannelsAfterCollect(p, Next(p, e), e.waiter);
    }
  }

  lemma CustodyOfCollected(p: Pool, w: nat, custody: Custody)
    requires CustodyMatches(p) && w in p.results && w < |p.phases| && !custody.InChannel?
    ensures CustodyMatches(Collect(p, w, custody))
  {
    var q := Collect(p, w, custody);
    forall l | 0 <= l < |q.leases| && q.leases[l].custody.InChannel?
      ensures !q.leases[l].released
      ensures q.leases[l].custody.waiter in q.results
      ensures q.results[q.leases[l].custody.waiter] == Granted(l)
    {
      assert p.leases[l].custody == q.leases[l].custody;
    }
  }

  lemma CustodyAfterCollect(p: Pool, e: Event)
    requires Conserved(p) && Fires(p, e) && (e.Deliver? || e.Drain?)
    ensures CustodyMatches(Next(p, e))
  {
    CustodyOfCollected(p, e.waiter, if e.Deliver? then WithCaller else WithAbandoner);
  }

  lemma CustodyAfterRefuse(p: Pool, e: Event)
    requires Conserved(p) && Fires(p, e) && e.Refuse?
    ensures CustodyMatches(Next(p, e))
  {
    var q := Next(p, e);
    assert p.queue[0].id !in p.results;
  }

  lemma CustodyAfterGrant(p: Pool, e: Event)
    requires Conserved(p) && Fires(p, e) && e.Grant?
    ensures CustodyMatches(Next(p, e))
  {
    var q := Next(p, e);
    assert e.target.ToHead? ==> p.queue[0].id !in p.results;
  }

  lemma CustodyUntouched(p: Pool, q: Pool)
    requires CustodyMatches(p) && q.results == p.results && q.leases == p.leases
    ensures CustodyMatches(q)
  {}

  lemma CustodyAfterRelease(p: Pool, l: nat)
    requires Conserved(p) && Fires(p, Release(l))
    ensures CustodyMatches(Next(p, Release(l)))
  {}

  predicate TouchesCustody(e: Event) {
    e.Deliver? || e.Drain? || e.Refuse? || e.Grant? || e.Release?
  }

  lemma CustodyAside(p: Pool, e: Event)
    requires Wf(p) && Fires(p, e) && !TouchesCustody(e)
    ensures Next(p, e).results == p.results && Next(p, e).leases == p.leases
  {}

  lemma CustodyAfter(p: Pool, e: Event)
    requires Conserved(p) && Fires(p, e)
    ensures CustodyMatches(Next(p, e))
  {
    if e.Deliver? || e.Drain? {
      CustodyAfterCollect(p, e);
    } else if e.Refuse? {
      CustodyAfterRefuse(p, e);
    } else if e.Grant? {
      CustodyAfterGrant(p, e);
    } else if e.Release? {
      CustodyAfterRelease(p, e.lease);
    } else {
      CustodyAside(p, e);
      CustodyUntouched(p, Next(p, e));
    }
  }

  /** A key that the request has already tried is granted only by the relaxed pass, which the
      no-relaxation mark switches off. */
  lemma GrantKeepsPromise(p: Pool, e: Event)
    requires Wf(p) && Fires(p, e) && e.Grant?
    ensures Next(p, e).leases == p.leases + [Next(p, e).leases[|p.leases|]]
    ensures var lease := Next(p, e).leases[|p.leases|]; KeepsPromise(e.req, lease.key) && lease.client == e.req.client
  {
    var i := Pos(p, e.offset);
    assert p.objs[ObjAt(p, i)].id == p.order[i];
    OpenMeans(p.objs[ObjAt(p, i)], e.req, e.now, e.relaxed);
  }

  lemma PromisesOneMoreLease(p: Pool, q: Pool, lease: Lease)
    requires PromisesKept(p) && CustodyMatches(p) && q.asked == p.asked && q.phases == p.phases
    requires q.leases == p.leases + [lease]
    requires || (q.queue == p.queue && q.results == p.results)
             || (&& p.queue != [] && q.queue == p.queue[1..] && KeepsPromise(p.queue[0].req, lease.key)
                 && lease.client == p.queue[0].req.client
                 && q.results == p.results[p.queue[0].id := Granted(|p.leases|)])
    ensures PromisesKept(q)
  {
    if q.queue != p.queue {
      assert forall i :: 0 <= i < |q.queue| ==> q.queue[i] == p.queue[i + 1];
    }
  }

  lemma PromisesAfterGrant(p: Pool, e: Event)
    requires Conserved(p) && Fires(p, e) && e.Grant?
    ensures PromisesKept(Next(p, e))
  {
    GrantKeepsPromise(p, e);
    PromisesOneMoreLease(p, Next(p, e), Next(p, e).leases[|p.leases|]);
  }

  /** Leases keep their keys and their clients. */
  ghost predicate SameOwners(p: Pool, q: Pool) {
    && |q.leases| == |p.leases|
    && forall l :: 0 <= l < |p.leases| ==>
         q.leases[l].key == p.leases[l].key && q.leases[l].client == p.leases[l].client
  }

  lemma PromisesUntouched(p: Pool, q: Pool)
    requires PromisesKept(p) && q.asked == p.asked && |q.phases| == |p.phases|
    requires forall x :: x in q.queue ==> x in p.queue
    requires forall w :: w in q.results && q.results[w].Granted? ==> w in p.results && q.results[w] == p.results[w]
    requires SameOwners(p, q)
    ensures PromisesKept(q)
  {
    forall i | 0 <= i < |q.queue| ensures q.queue[i].id < |q.asked| && q.asked[q.queue[i].id] == q.queue[i].req {
      assert q.queue[i] in p.queue;
    }
  }

  lemma PromisesAfterEnqueue(p: Pool, e: Event)
    requires Conserved(p) && Fires(p, e) && e.Enqueue?
    ensures PromisesKept(Next(p, e))
  {
    assert forall i :: 0 <= i < |p.queue| ==> Next(p, e).queue[i] == p.queue[i];
  }

  lemma PromisesAfterCollect(p: Pool, e: Event)
    requires Conserved(p) && Fires(p, e) && (e.Deliver? || e.Drain?)
    ensures PromisesKept(Next(p, e))
  {
    CollectShape(p, e);
    var q := Next(p, e);
    assert q.asked == p.asked && SameOwners(p, q);
    PromisesUntouched(p, q);
  }

  lemma AsideKeepsLeases(p: Pool, e: Event)
    requires Wf(p) && Fires(p, e) && Aside(e) && !e.Grant?
    ensures Next(p, e).asked == p.asked && SameOwners(p, Next(p, e))
  {}

  lemma PromisesAfterQueue(p: Pool, e: Event)
    requires Conserved(p) && Fires(p, e) && (e.Refuse? || e.Rotate? || e.Withdraw? || e.GiveUp?)
    ensures PromisesKept(Next(p, e))
  {
    if e.Withdraw? {
      RemoveKeeps(p.queue, e.waiter);
    }
    PromisesUntouched(p, Next(p, e));
  }

  lemma PromisesAfter(p: Pool, e: Event)
    requires Conserved(p) && Fires(p, e)
    ensures PromisesKept(Next(p, e))
  {
    if e.Grant? {
      PromisesAfterGrant(p, e);
    } else if Aside(e) {
      AsideKeepsWaiters(p, e);
      AsideKeepsLeases(p, e);
      PromisesUntouched(p, Next(p, e));
    } else if e.Deliver? || e.Drain? {
      PromisesAfterCollect(p, e);
    } else if e.Enqueue? {
      PromisesAfterEnqueue(p, e);
    } else {
      PromisesAfterQueue(p, e);
    }
  }

  /** One event keeps the whole invariant. */
  lemma NextConserves(p: Pool, e: Event)
    requires Conserved(p) && Fires(p, e)
    ensures Conserved(Next(p, e))
  {
    NextTables(p, e);
    SlotsAfter(p, e);
    ChannelsAfter(p, e);
    CustodyAfter(p, e);
    PromisesAfter(p, e);
  }

  /** Slot conservation over every run: whatever sequence of grants, timeouts, cancellations, key
      edits, removals, reloads, releases and shutdown happens, `busy` holds exactly when one
      unreleased plain lease points at the object and `streaming` counts its unreleased stream
      leases. */
  lemma {:induction false} RunConserves(p: Pool, es: seq<Event>)
    requires Conserved(p) && Legal(p, es)
    ensures Conserved(After(p, es))
    decreases |es|
  {
    if es != [] {
      NextConserves(p, es[0]);
      RunConserves(Next(p, es[0]), es[1..]);
    }
  }

  /** Requests stay on record, finished waiters stay finished; leases keep key, object and owner, and released
      ones stay released. */
  ghost predicate Grows(p: Pool, q: Pool) {
    && p.asked <= q.asked
    && |p.phases| <= |q.phases| && (forall x :: 0 <= x < |p.phases| && p.phases[x] == Done ==> q.phases[x] == Done)
    && |p.leases| <= |q.leases|
    && (forall k :: 0 <= k < |p.leases| ==> SameLease(p.leases[k], q.leases[k]))
  }

  predicate SameLease(a: Lease, b: Lease) {
    && b.key == a.key && b.obj == a.obj && b.stream == a.stream && b.client == a.client
    && (a.released ==> b.released)
  }

  lemma GrowsTrans(p: Pool, q: Pool, s: Pool)
    requires Grows(p, q) && Grows(q, s)
    ensures Grows(p, s)
  {
    forall k | 0 <= k < |p.leases| ensures SameLease(p.leases[k], s.leases[k]) {
      assert SameLease(p.leases[k], q.leases[k]) && SameLease(q.leases[k], s.leases[k]);
    }
  }

  lemma CollectGrows(p: Pool, w: nat, custody: Custody)
    requires w in p.results && w < |p.phases|
    ensures Grows(p, Collect(p, w, custody))
  {}

  /** The event touches no lease that there is. */
  lemma LeasesStay(p: Pool, e: Event)
    requires Wf(p) && Fires(p, e) && !e.Deliver? && !e.Drain? && !e.Release?
    ensures p.leases <= Next(p, e).leases
  {}

  lemma WaitersStay(p: Pool, e: Event)
    requires Wf(p) && Fires(p, e) && !e.Deliver? && !e.Drain?
    ensures var q := Next(p, e);
            && p.asked <= q.asked && |p.phases| <= |q.phases|
            && forall x :: 0 <= x < |p.phases| && p.phases[x] == Done ==> q.phases[x] == Done
  {}

  lemma ReleaseGrows(p: Pool, l: nat)
    requires Wf(p) && Fires(p, Release(l))
    ensures Grows(p, Next(p, Release(l)))
  {}

  lemma NextGrows(p: Pool, e: Event)
    requires Wf(p) && Fires(p, e)
    ensures Grows(p, Next(p, e))
  {
    if e.Deliver? || e.Drain? {
      CollectGrows(p, e.waiter, if e.Deliver? then WithCaller else WithAbandoner);
    } else if e.Release? {
      ReleaseGrows(p, e.lease);
    } else {
      LeasesStay(p, e);
      WaitersStay(p, e);
    }
  }

  /** Nothing that is over comes back, in no run: a released lease stays released and a waiter that returned has
      returned, whatever happens afterwards. */
  lemma {:induction false} RunGrows(p: Pool, es: seq<Event>)
    requires Legal(p, es)
    ensures Grows(p, After(p, es))
    decreases |es|
  {
    if es != [] {
      NextGrows(p, es[0]);
      RunGrows(Next(p, es[0]), es[1..]);
      GrowsTrans(p, Next(p, es[0]), After(Next(p, es[0]), es[1..]));
    }
  }

  /** No event makes the queue longer than it was, except that a caller may join a queue below its capacity. */
  lemma NextQueue(p: Pool, e: Event)
    requires Wf(p) && Fires(p, e)
    ensures if e.Enqueue? then |p.queue| < e.capacity && |Next(p, e).queue| == |p.queue| + 1
            else |Next(p, e).queue| <= |p.queue|
  {
    if e.Withdraw? {
      RemoveKeeps(p.queue, e.waiter);
    }
  }

  /** The queue is bounded: while no caller brings a capacity above `capacity`, it never gets longer than that. */
  lemma {:induction false} RunQueueBounded(p: Pool, es: seq<Event>, capacity: nat)
    requires Legal(p, es) && |p.queue| <= capacity
    requires forall i :: 0 <= i < |es| && es[i].Enqueue? ==> es[i].capacity <= capacity
    ensures |After(p, es).queue| <= capacity
    decreases |es|
  {
    if es != [] {
      NextQueue(p, es[0]);
      RunQueueBounded(Next(p, es[0]), es[1..], capacity);
    }
  }

  lemma FreshConserved(start: int)
    ensures Conserved(Fresh(start))
  {}

  // ---------------------------------------------------------------- what conservation gives

  /** A result is only ever sent to a waiter whose channel is empty. */
  lemma SendNeverBlocks(start: int, es: seq<Event>, e: Event)
    requires Legal(Fresh(start), es)
    requires Fires(After(Fresh(start), es), e)
    requires e.Refuse? || (e.Grant? && e.target.ToHead?)
    ensures After(Fresh(start), es).queue[0].id !in After(Fresh(start), es).results
  {
    FreshConserved(start);
    RunConserves(Fresh(start), es);
  }

  /** A waiter goroutine that has left the queue always finds a result to read, so neither
      waitForResult nor the unlocked half of abandonWaiter can hang. */
  lemma ReceiveNeverHangs(start: int, es: seq<Event>, w: nat)
    requires Legal(Fresh(start), es)
    requires var p := After(Fresh(start), es); w < |p.phases| && p.phases[w] != Done && !Queued(p, w)
    ensures var p := After(Fresh(start), es);
            if p.phases[w] == Waiting then Fires(p, Deliver(w)) else Fires(p, Drain(w))
  {
    FreshConserved(start);
    RunConserves(Fresh(start), es);
  }

  lemma HeadWaits(p: Pool)
    requires ChannelsMatch(p) && p.queue != []
    ensures p.queue[0].id < |p.phases| && p.phases[p.queue[0].id] == Waiting
  {}

  /** No lease leaks: once every waiter has returned, each unreleased lease is in the hands of a
      caller or of an abandoner that is about to release it; and when those have released theirs,
      every key object ever created is idle again. */
  lemma NothingLeaks(start: int, es: seq<Event>)
    requires Legal(Fresh(start), es)
    requires var p := After(Fresh(start), es); forall w :: 0 <= w < |p.phases| ==> p.phases[w] == Done
    ensures var p := After(Fresh(start), es);
            && p.queue == [] && p.results == map[]
            && (forall l :: 0 <= l < |p.leases| ==> !p.leases[l].custody.InChannel?)
            && (forall l :: 0 <= l < |p.leases| && !p.leases[l].released ==> Fires(p, Release(l)))
            && ((forall l :: 0 <= l < |p.leases| ==> p.leases[l].released) ==>
                  forall o :: 0 <= o < |p.objs| ==> !p.objs[o].busy && p.objs[o].streaming == 0)
  {
    FreshConserved(start);
    RunConserves(Fresh(start), es);
    var p := After(Fresh(start), es);
    if p.queue != [] {
      HeadWaits(p);
      assert false;
    }
    assert p.results == map[] by {
      assert forall w :: w in p.results ==> false;
    }
    if forall l :: 0 <= l < |p.leases| ==> p.leases[l].released {
      forall o | 0 <= o < |p.objs| ensures !p.objs[o].busy && p.objs[o].streaming == 0 {
        HeldNone(p.leases, o, false);
        HeldNone(p.leases, o, true);
      }
    }
  }

  lemma TwoHeld(leases: seq<Lease>, a: nat, b: nat)
    requires a < b < |leases| && leases[a].obj == leases[b].obj && leases[a].stream == leases[b].stream
    requires !leases[a].released && !leases[b].released
    ensures Held(leases, leases[a].obj, leases[a].stream) >= 2
  {
    var o, stream := leases[a].obj, leases[a].stream;
    var gone := leases[a].(released := true);
    HeldUpdate(leases, a, gone, o, stream);
    HeldUpdate(leases[a := gone], b, leases[b], o, stream);
  }

  /** Never more than one plain lease per key object is outstanding. */
  lemma AtMostOnePlainLease(p: Pool, a: nat, b: nat)
    requires Conserved(p)
    requires a < b < |p.leases| && p.leases[a].obj == p.leases[b].obj && !p.leases[a].stream && !p.leases[b].stream
    ensures p.leases[a].released || p.leases[b].released
  {
    var key := p.objs[p.leases[a].obj];
    assert Held(p.leases, p.leases[a].obj, false) == if key.busy then 1 else 0;
    if !p.leases[a].released && !p.leases[b].released {
      TwoHeld(p.leases, a, b);
    }
  }

  // ---------------------------------------------------------------- growing a run at its end

  lemma {:induction false} LegalGrow(p: Pool, es: seq<Event>, e: Event)
    requires Legal(p, es) && Fires(After(p, es), e) && Wf(Next(After(p, es), e))
    ensures Legal(p, es + [e]) && After(p, es + [e]) == Next(After(p, es), e)
    decreases |es|
  {
    if es == [] {
      LegalOne(p, e);
      assert es + [e] == [e];
    } else {
      LegalGrow(Next(p, es[0]), es[1..], e);
      LegalCons(p, es[0], es[1..] + [e]);
      assert es + [e] == [es[0]] + (es[1..] + [e]);
    }
  }

  lemma LegalOne(p: Pool, e: Event)
    requires Wf(p) && Fires(p, e) && Wf(Next(p, e))
    ensures Legal(p, [e]) && After(p, [e]) == Next(p, e)
  {
    LegalCons(p, e, []);
  }

  lemma LegalCons(p: Pool, e: Event, es: seq<Event>)
    requires Wf(p) && Fires(p, e) && Legal(Next(p, e), es)
    ensures Legal(p, [e] + es) && After(p, [e] + es) == After(Next(p, e), es)
  {
    var all := [e] + es;
    assert all[0] == e && all[1..] == es;
  }

  // ---------------------------------------------------------------- sealed runs

  /** `p` is the outcome of the recorded run, hence conserved. The fact is sealed: the verifier
      unfolds it only where the lemmas below say so. */
  ghost predicate Ran(start: int, es: seq<Event>, p: Pool) {
    forall u {:trigger Unseal(u)} :: Unseal(u) ==>
      Legal(Fresh(start), es) && After(Fresh(start), es) == p && Conserved(p)
  }

  lemma OpenRun(start: int, es: seq<Event>, p: Pool)
    requires Ran(start, es, p)
    ensures Legal(Fresh(start), es) && After(Fresh(start), es) == p && Conserved(p)
  {
    assert Unseal(0);
  }

  /** The queue of a pool that has run so far never got longer than the largest capacity that callers brought. */
  lemma RanQueueBounded(start: int, es: seq<Event>, p: Pool, capacity: nat)
    requires Ran(start, es, p)
    requires forall i :: 0 <= i < |es| && es[i].Enqueue? ==> es[i].capacity <= capacity
    ensures |p.queue| <= capacity
  {
    OpenRun(start, es, p);
    RunQueueBounded(Fresh(start), es, capacity);
  }

  lemma StartRun(start: int)
    ensures Ran(start, [], Fresh(start))
  {
    FreshConserved(start);
  }

  lemma GrowRun(start: int, es: seq<Event>, p: Pool, e: Event)
    requires Ran(start, es, p) && Wf(p) && Fires(p, e)
    ensures Ran(start, es + [e], Next(p, e)) && Wf(Next(p, e))
  {
    OpenRun(start, es, p);
    NextConserves(p, e);
    LegalGrow(Fresh(start), es, e);
  }
}
