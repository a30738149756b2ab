/** The round-robin order of internal/pool/pool.go: a strictly ascending list of key ids and a
    cursor into it. The rotation is what the allocator sees: the list read from the cursor on. */
module KeyOrder {

  ghost predicate Ascending(ids: seq<int>) {
    forall i, j :: 0 <= i < j < |ids| ==> ids[i] < ids[j]
  }

  predicate CursorInRange(ids: seq<int>, cursor: nat) {
    if ids == [] then cursor == 0 else cursor < |ids|
  }

  function Rotation(ids: seq<int>, cursor: nat): seq<int>
    requires cursor <= |ids|
  {
    ids[cursor..] + ids[..cursor]
  }

  function Without(ids: seq<int>, id: int): seq<int> {
    if ids == [] then []
    else if ids[0] == id then Without(ids[1..], id)
    else [ids[0]] + Without(ids[1..], id)
  }

  /** The first index whose id is not below `id`. */
  ghost predicate IsSlot(ids: seq<int>, id: int, slot: nat) {
    && slot <= |ids|
    && (forall i :: 0 <= i < slot ==> ids[i] < id)
    && (forall i :: slot <= i < |ids| ==> ids[i] >= id)
  }

  function Insert(ids: seq<int>, id: int): (r: seq<int>)
    ensures |r| == |ids| + 1 && multiset(r) == multiset(ids) + multiset{id}
  {
    if ids == [] || id <= ids[0] then [id] + ids
    else
      assert ids == [ids[0]] + ids[1..];
      [ids[0]] + Insert(ids[1..], id)
  }

  function IndexOf(ids: seq<int>, id: int): (i: nat)
    requires id in ids
    ensures i < |ids| && ids[i] == id && id !in ids[..i]
  {
    if ids[0] == id then 0 else 1 + IndexOf(ids[1..], id)
  }

  function Drop(ids: seq<int>, at: nat): seq<int>
    requires at < |ids|
  {
    ids[..at] + ids[at + 1..]
  }

  /** Where the cursor points after the id at `at` has gone. */
  function CursorAfterDrop(ids: seq<int>, cursor: nat, at: nat): nat
    requires at < |ids|
  {
    var moved := if at < cursor then cursor - 1 else cursor;
    if moved >= |ids| - 1 then 0 else moved
  }

  function Sort(ids: seq<int>): seq<int> {
    if ids == [] then [] else Insert(Sort(ids[..|ids| - 1]), ids[|ids| - 1])
  }

  // ---------------------------------------------------------------- facts

  lemma {:induction false} WithoutAppend(a: seq<int>, b: seq<int>, id: int)
    ensures Without(a + b, id) == Without(a, id) + Without(b, id)
  {
    if a == [] {
      assert a + b == b;
    } else {
      assert (a + b)[1..] == a[1..] + b;
      WithoutAppend(a[1..], b, id);
    }
  }

  lemma {:induction false} WithoutAbsent(ids: seq<int>, id: int)
    requires id !in ids
    ensures Without(ids, id) == ids
  {
    if ids != [] {
      WithoutAbsent(ids[1..], id);
    }
  }

  lemma {:induction false} InsertAtSlot(ids: seq<int>, id: int, slot: nat)
    requires IsSlot(ids, id, slot)
    ensures Insert(ids, id) == ids[..slot] + [id] + ids[slot..]
  {
    if slot > 0 {
      var tail := ids[1..];
      assert IsSlot(tail, id, slot - 1);
      InsertAtSlot(tail, id, slot - 1);
      SlotStep(ids, slot, id);
    }
  }

  lemma SlotStep(ids: seq<int>, slot: nat, id: int)
    requires 0 < slot <= |ids|
    ensures [ids[0]] + (ids[1..][..slot - 1] + [id] + ids[1..][slot - 1..]) == ids[..slot] + [id] + ids[slot..]
  {
    assert ids[..slot] == [ids[0]] + ids[1..][..slot - 1];
    assert ids[slot..] == ids[1..][slot - 1..];
  }

  lemma {:induction false} SlotExists(ids: seq<int>, id: int) returns (slot: nat)
    requires Ascending(ids)
    ensures IsSlot(ids, id, slot)
  {
    slot := 0;
    while slot < |ids| && ids[slot] < id
      invariant slot <= |ids| && forall i :: 0 <= i < slot ==> ids[i] < id
    {
      slot := slot + 1;
    }
  }

  lemma WithoutSplit(a: seq<int>, id: int, b: seq<int>)
    requires id !in a && id !in b
    ensures Without(a + [id] + b, id) == a + b
  {
    WithoutAppend(a + [id], b, id);
    WithoutLast(a, id);
    WithoutAbsent(b, id);
  }

  lemma WithoutLast(a: seq<int>, id: int)
    requires id !in a
    ensures Without(a + [id], id) == a
  {
    WithoutAppend(a, [id], id);
    WithoutAbsent(a, id);
    assert Without([id], id) == [];
  }

  lemma InsertMembers(ids: seq<int>, id: int)
    ensures forall x :: x in Insert(ids, id) <==> x == id || x in ids
  {
    forall x ensures x in Insert(ids, id) <==> x == id || x in ids {
      assert x in Insert(ids, id) <==> x in multiset(Insert(ids, id));
      assert x in ids <==> x in multiset(ids);
    }
  }

  lemma SlotAscending(ids: seq<int>, id: int, slot: nat, grown: seq<int>)
    requires Ascending(ids) && id !in ids && IsSlot(ids, id, slot)
    requires grown == ids[..slot] + [id] + ids[slot..]
    ensures Ascending(grown)
  {
    forall i, j | 0 <= i < j < |grown| ensures grown[i] < grown[j] {
      if i >= slot && j > slot {
        assert grown[j] == ids[j - 1];
        assert i > slot ==> grown[i] == ids[i - 1];
      }
    }
  }

  lemma InsertAscending(ids: seq<int>, id: int)
    requires Ascending(ids) && id !in ids
    ensures Ascending(Insert(ids, id))
    ensures forall x :: x in Insert(ids, id) <==> x == id || x in ids
  {
    InsertMembers(ids, id);
    var slot := SlotExists(ids, id);
    InsertAtSlot(ids, id, slot);
    SlotAscending(ids, id, slot, Insert(ids, id));
  }

  lemma IndexIsUnique(ids: seq<int>, id: int, at: nat)
    requires Ascending(ids) && at < |ids| && ids[at] == id
    ensures IndexOf(ids, id) == at
  {}

  lemma DropAscending(ids: seq<int>, at: nat)
    requires Ascending(ids) && at < |ids|
    ensures Ascending(Drop(ids, at))
    ensures forall x :: x in Drop(ids, at) <==> x in ids && x != ids[at]
  {
    var gone := ids[at];
    forall x ensures x in Drop(ids, at) <==> x in ids && x != gone {
      if x in ids && x != gone {
        var i :| 0 <= i < |ids| && ids[i] == x;
        assert Drop(ids, at)[if i < at then i else i - 1] == x;
      }
    }
  }

  /** The cursor that points, after an insertion, at the id it pointed at before. */
  function CursorAfterInsert(ids: seq<int>, cursor: nat, id: int): (next: nat)
    requires CursorInRange(ids, cursor)
    ensures ids != [] ==> next < |Insert(ids, id)| && Insert(ids, id)[next] == ids[cursor]
  {
    if ids == [] then 0
    else
      InsertMembers(ids, id);
      IndexOf(Insert(ids, id), ids[cursor])
  }

  /** UpsertKey of a new id: the rotation keeps its head and, but for the new id, its content. */
  lemma InsertRotation(ids: seq<int>, cursor: nat, id: int)
    requires Ascending(ids) && id !in ids && CursorInRange(ids, cursor)
    ensures var grown, next := Insert(ids, id), CursorAfterInsert(ids, cursor, id);
            && CursorInRange(grown, next)
            && Without(Rotation(grown, next), id) == Rotation(ids, cursor)
            && (ids != [] ==> Rotation(grown, next)[0] == Rotation(ids, cursor)[0])
  {
    if ids != [] {
      var slot := SlotExists(ids, id);
      InsertAtSlot(ids, id, slot);
      var grown := Insert(ids, id);
      SlotAscending(ids, id, slot, grown);
      InsertMembers(ids, id);
      InsertRotationAt(ids, cursor, id, slot, grown);
    }
  }

  lemma InsertRotationAt(ids: seq<int>, cursor: nat, id: int, slot: nat, grown: seq<int>)
    requires id !in ids && cursor < |ids| && slot <= |ids|
    requires grown == ids[..slot] + [id] + ids[slot..] && Ascending(grown)
    ensures ids[cursor] in grown
    ensures Without(Rotation(grown, IndexOf(grown, ids[cursor])), id) == Rotation(ids, cursor)
  {
    var next := if slot <= cursor then cursor + 1 else cursor;
    assert grown[next] == ids[cursor];
    IndexIsUnique(grown, ids[cursor], next);
    if slot <= cursor {
      InsertBefore(ids, cursor, id, slot);
    } else {
      InsertBehind(ids, cursor, id, slot);
    }
  }

  lemma InsertBefore(ids: seq<int>, cursor: nat, id: int, slot: nat)
    requires id !in ids && slot <= cursor < |ids|
    ensures Without(Rotation(ids[..slot] + [id] + ids[slot..], cursor + 1), id) == Rotation(ids, cursor)
  {
    var grown := ids[..slot] + [id] + ids[slot..];
    var x, y := ids[cursor..] + ids[..slot], ids[slot..cursor];
    assert grown[cursor + 1..] == ids[cursor..];
    assert grown[..cursor + 1] == ids[..slot] + [id] + y;
    assert Rotation(grown, cursor + 1) == x + [id] + y;
    assert Rotation(ids, cursor) == x + y;
    WithoutSplit(x, id, y);
  }

  lemma InsertBehind(ids: seq<int>, cursor: nat, id: int, slot: nat)
    requires id !in ids && cursor < slot <= |ids|
    ensures Without(Rotation(ids[..slot] + [id] + ids[slot..], cursor), id) == Rotation(ids, cursor)
  {
    var grown := ids[..slot] + [id] + ids[slot..];
    var x, y := ids[cursor..slot], ids[slot..] + ids[..cursor];
    assert grown[cursor..] == x + [id] + ids[slot..];
    assert grown[..cursor] == ids[..cursor];
    assert Rotation(grown, cursor) == x + [id] + y;
    assert Rotation(ids, cursor) == x + y;
    WithoutSplit(x, id, y);
  }

  lemma DropBefore(ids: seq<int>, cursor: nat, at: nat)
    requires Ascending(ids) && at < cursor < |ids|
    ensures Rotation(Drop(ids, at), cursor - 1) == Without(Rotation(ids, cursor), ids[at])
  {
    var id, rest := ids[at], Drop(ids, at);
    var x, y := ids[cursor..] + ids[..at], ids[at + 1..cursor];
    assert id !in ids[cursor..] && id !in ids[..at] && id !in y;
    assert Rotation(ids, cursor) == x + [id] + y;
    WithoutSplit(x, id, y);
    assert rest[cursor - 1..] == ids[cursor..];
    assert rest[..cursor - 1] == ids[..at] + y;
  }

  lemma DropAfter(ids: seq<int>, cursor: nat, at: nat)
    requires Ascending(ids) && cursor <= at < |ids|
    ensures Rotation(Drop(ids, at), cursor) == Without(Rotation(ids, cursor), ids[at])
  {
    var id, rest := ids[at], Drop(ids, at);
    var x, y := ids[cursor..at], ids[at + 1..] + ids[..cursor];
    assert id !in x && id !in ids[at + 1..] && id !in ids[..cursor];
    assert Rotation(ids, cursor) == x + [id] + y;
    WithoutSplit(x, id, y);
    assert rest[cursor..] == x + ids[at + 1..];
    assert rest[..cursor] == ids[..cursor];
  }

  /** RemoveKey: the rotation loses the removed id and nothing else changes. */
  lemma DropRotation(ids: seq<int>, cursor: nat, at: nat)
    requires Ascending(ids) && cursor < |ids| && at < |ids|
    ensures CursorInRange(Drop(ids, at), CursorAfterDrop(ids, cursor, at))
    ensures Rotation(Drop(ids, at), CursorAfterDrop(ids, cursor, at)) == Without(Rotation(ids, cursor), ids[at])
  {
    var rest := Drop(ids, at);
    var moved := if at < cursor then cursor - 1 else cursor;
    if at < cursor {
      DropBefore(ids, cursor, at);
    } else {
      DropAfter(ids, cursor, at);
    }
    if moved == |rest| {
      assert Rotation(rest, moved) == rest == Rotation(rest, 0);
    }
  }

  lemma {:induction false} SortMembers(ids: seq<int>)
    ensures |Sort(ids)| == |ids| && multiset(Sort(ids)) == multiset(ids)
    ensures forall x :: x in Sort(ids) <==> x in ids
  {
    if ids != [] {
      SortMembers(ids[..|ids| - 1]);
      assert ids == ids[..|ids| - 1] + [ids[|ids| - 1]];
    }
    forall x ensures x in Sort(ids) <==> x in ids {
      assert x in Sort(ids) <==> x in multiset(Sort(ids));
      assert x in ids <==> x in multiset(ids);
    }
  }

  predicate Distinct(ids: seq<int>) {
    forall i, j :: 0 <= i < j < |ids| ==> ids[i] != ids[j]
  }

  /** LoadSnapshot gives a strictly ascending order exactly when the loaded ids are distinct. */
  lemma {:induction false} SortAscending(ids: seq<int>)
    ensures Ascending(Sort(ids)) <==> Distinct(ids)
  {
    if ids != [] {
      var front, last := ids[..|ids| - 1], ids[|ids| - 1];
      SortAscending(front);
      SortMembers(front);
      if Distinct(ids) {
        assert forall i, j :: 0 <= i < j < |front| ==> front[i] == ids[i] && front[j] == ids[j];
        assert last !in front;
        InsertAscending(Sort(front), last);
      } else {
        RepeatStays(ids);
      }
    }
  }

  lemma RepeatStays(ids: seq<int>)
    requires !Distinct(ids)
    ensures !Ascending(Sort(ids))
  {
    SortMembers(ids);
    var i, j :| 0 <= i < j < |ids| && ids[i] == ids[j];
    var x := ids[i];
    RepeatCount(ids, i, j);
    if Ascending(Sort(ids)) {
      AscendingCount(Sort(ids), x);
    }
  }

  lemma RepeatCount(ids: seq<int>, i: nat, j: nat)
    requires i < j < |ids| && ids[i] == ids[j]
    ensures multiset(ids)[ids[i]] >= 2
  {
    assert ids == ids[..i] + [ids[i]] + ids[i + 1..j] + [ids[j]] + ids[j + 1..];
  }

  lemma {:induction false} AscendingCount(ids: seq<int>, x: int)
    requires Ascending(ids)
    ensures multiset(ids)[x] <= 1
  {
    if ids != [] {
      AscendingCount(ids[1..], x);
      assert ids == [ids[0]] + ids[1..];
      if x == ids[0] {
        assert x !in ids[1..];
        assert x !in multiset(ids[1..]);
      }
    }
  }

  /** sort.Search over the ascending ids. */
  method Search(ids: seq<int>, id: int) returns (slot: nat)
    requires Ascending(ids)
    ensures IsSlot(ids, id, slot)
  {
    var lo, hi := 0, |ids|;
    while lo < hi
      invariant lo <= hi <= |ids|
      invariant forall i :: 0 <= i < lo ==> ids[i] < id
      invariant forall i :: hi <= i < |ids| ==> ids[i] >= id
    {
      var mid := (lo + hi) / 2;
      if ids[mid] >= id {
        hi := mid;
      } else {
        lo := mid + 1;
      }
    }
    slot := lo;
  }

  method InsertSorted(ids: seq<int>, id: int) returns (grown: seq<int>)
    requires Ascending(ids)
    ensures grown == Insert(ids, id)
  {
    var slot := Search(ids, id);
    InsertAtSlot(ids, id, slot);
    grown := ids[..slot] + [id] + ids[slot..];
  }
}
