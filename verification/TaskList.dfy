/** The kernel's task list (src/list.c): a circular doubly linked list with a
    sentinel, a count and a cursor, sorted by item value.

    `Item` and `TaskList` are the linked structure, updated in place. The
    ghost field `ring` lists the linked items in order, sentinel first; every
    method is specified by what it does to `ring`, the cursor and the count.
    The value-level functions at the top say what those changes are, and are
    what the scheduler and the wait lists are modelled with. */
module TaskList {

  /** A task, where the lists are modelled as values. */
  type Task = nat

  /** The sentinel's value: no item value exceeds it. */
  const END_VALUE: nat := 0xFFFF_FFFF

  // ---- Sorted insertion and removal on plain sequences ---------------------

  /** Keys in non-decreasing order. */
  ghost predicate Sorted(keys: seq<nat>) {
    forall i, j :: 0 <= i < j < |keys| ==> keys[i] <= keys[j]
  }

  /** Where an item with key `key` goes: in front of the first larger key. */
  function Slot(keys: seq<nat>, key: nat): (k: nat)
    ensures k <= |keys|
    ensures forall i :: 0 <= i < k ==> keys[i] <= key
    ensures k < |keys| ==> keys[k] > key
  {
    if keys == [] || keys[0] > key then 0 else 1 + Slot(keys[1..], key)
  }

  function Inserted<T>(s: seq<T>, k: nat, x: T): (r: seq<T>)
    requires k <= |s|
  {
    s[..k] + [x] + s[k..]
  }

  function Removed<T>(s: seq<T>, k: nat): (r: seq<T>)
    requires k < |s|
  {
    s[..k] + s[k + 1..]
  }

  /** Where an item is in a list. */
  function Find(list: seq<Task>, t: Task): (k: nat)
    ensures k <= |list|
    ensures k < |list| ==> list[k] == t
    ensures k == |list| ==> t !in list
  {
    if list == [] then 0 else if list[0] == t then 0 else 1 + Find(list[1..], t)
  }

  /** The list without an item. */
  function Without(list: seq<Task>, t: Task): (r: seq<Task>) {
    var k := Find(list, t);
    if k < |list| then Removed(list, k) else list
  }

  /** Insertion at the slot keeps the keys sorted, puts the new key behind
      every equal one, and no other position does both. */
  lemma {:induction false} InsertedStable(keys: seq<nat>, key: nat, k: nat)
    requires Sorted(keys) && k <= |keys|
    ensures k == Slot(keys, key) <==>
            Sorted(Inserted(keys, k, key)) && forall i :: k <= i < |keys| ==> keys[i] != key
  {
    var r := Inserted(keys, k, key);
    var slot := Slot(keys, key);
    assert r[k] == key;
    assert k < slot ==> r[k + 1] == keys[k];
    assert slot < k ==> r[slot] == keys[slot];
  }

  lemma {:induction false} InsertedMembers<T>(s: seq<T>, k: nat, x: T)
    requires k <= |s|
    ensures forall y :: y in Inserted(s, k, x) <==> y in s || y == x
  {
    var r := Inserted(s, k, x);
    assert r[k] == x;
    assert forall y :: y in s ==> y in s[..k] || y in s[k..];
  }

  // ---- Cursor rotation -------------------------------------------------------

  /** Ring positions are 0 for the sentinel and 1..n for the items. */
  function NextPos(pos: nat, n: nat): (p: nat)
    requires pos <= n && 0 < n
    ensures 1 <= p <= n
  {
    if pos == n then 1 else pos + 1
  }

  /** The position returned by the k-th of successive `dos_get_next_task` calls. */
  function Visit(pos: nat, n: nat, k: nat): (p: nat)
    requires pos <= n && 0 < n && 0 < k
    ensures 1 <= p <= n
  {
    if k == 1 then NextPos(pos, n) else NextPos(Visit(pos, n, k - 1), n)
  }

  /** For k up to n the walk is pos+1, pos+2, ... wrapping after n to 1. */
  lemma {:induction false} VisitClosedForm(pos: nat, n: nat, k: nat)
    requires pos <= n && 0 < k <= n
    ensures Visit(pos, n, k) == if pos + k <= n then pos + k else pos + k - n
  {
    if k > 1 {
      VisitClosedForm(pos, n, k - 1);
    }
  }

  /** On an unchanged list of n items, n successive calls return every item
      exactly once, wherever the cursor stands. */
  lemma {:induction false} FullTurnVisitsEachOnce(pos: nat, n: nat, j: nat)
    requires pos <= n && 1 <= j <= n
    ensures exists k :: 0 < k <= n && Visit(pos, n, k) == j
    ensures forall k, k' :: 0 < k < k' <= n ==> Visit(pos, n, k) != Visit(pos, n, k')
  {
    var k := if j > pos then j - pos else j + n - pos;
    VisitClosedForm(pos, n, k);
    forall k, k' | 0 < k < k' <= n
      ensures Visit(pos, n, k) != Visit(pos, n, k')
    {
      VisitClosedForm(pos, n, k);
      VisitClosedForm(pos, n, k');
    }
  }

  // ---- The linked structure ---------------------------------------------------

  /** The address of a list item. */
  type Item = nat

  ghost predicate Distinct(ring: seq<Item>) {
    forall i, j :: 0 <= i < j < |ring| ==> ring[i] != ring[j]
  }

  /** Following `next` walks the ring in order and returns to its start. */
  ghost predicate NextLinked(next: map<Item, Item>, ring: seq<Item>)
    requires |ring| >= 1
  {
    && (forall x :: x in ring ==> x in next)
    && (forall i :: 0 <= i < |ring| - 1 ==> next[ring[i]] == ring[i + 1])
    && next[ring[|ring| - 1]] == ring[0]
  }

  /** Following `prev` walks it backwards. */
  ghost predicate PrevLinked(prev: map<Item, Item>, ring: seq<Item>)
    requires |ring| >= 1
  {
    && (forall x :: x in ring ==> x in prev)
    && (forall i :: 0 <= i < |ring| - 1 ==> prev[ring[i + 1]] == ring[i])
    && prev[ring[0]] == ring[|ring| - 1]
  }

  /** The value of every item of the ring, sentinel left out, in order. */
  ghost predicate HaveKeys(value: map<Item, nat>, ring: seq<Item>, keys: seq<nat>)
  {
    && |keys| == |ring| - 1
    && (forall x :: x in ring ==> x in value)
    && forall i :: 0 <= i < |keys| ==> value[ring[i + 1]] == keys[i] <= END_VALUE
  }

  /** The item fields `next`, `prev` and `dos_task_value`, and the items whose
      `dos_task_list` names the list at hand. */
  datatype Fields = Fields(next: map<Item, Item>, prev: map<Item, Item>, value: map<Item, nat>, member: set<Item>)

  /** `ring` is the list's items in order, sentinel first, and `keys` their values. */
  ghost predicate Links(f: Fields, ring: seq<Item>, keys: seq<nat>) {
    && |ring| >= 1 && Distinct(ring)
    && NextLinked(f.next, ring) && PrevLinked(f.prev, ring)
    && (forall x :: x in f.member <==> x in ring)
    && HaveKeys(f.value, ring, keys) && Sorted(keys) && f.value[ring[0]] == END_VALUE
  }

  /** The fields once `item` is linked behind `at`. */
  function LinkedBehind(f: Fields, at: Item, item: Item, v: nat): Fields
    requires at in f.next
  {
    Fields(f.next[item := f.next[at]][at := item], f.prev[f.next[at] := item][item := at], f.value[item := v],
           f.member + {item})
  }

  class TaskList {
    const end: Item
    var f: Fields
    var cursor: Item
    var count: nat
    ghost var ring: seq<Item>
    ghost var keys: seq<nat>

    ghost predicate Valid()
      reads this
    {
      && Links(f, ring, keys) && ring[0] == end
      && count == |keys| && cursor in ring
    }

    /** `dos_task_list_init` */
    constructor (end: Item)
      ensures Valid() && this.end == end && ring == [end] && cursor == end
    {
      this.end := end;
      f := Fields(map[end := end], map[end := end], map[end := END_VALUE], {end});
      cursor := end;
      count := 0;
      ring := [end];
      keys := [];
    }

    /** The walk of `dos_task_item_insert` to the item to insert behind. */
    method Place(v: nat) returns (at: Item, ghost k: nat)
      requires Valid() && v <= END_VALUE
      ensures k == Slot(keys, v) && at == ring[k]
    {
      k := 0;
      at := end;
      if v == END_VALUE {
        at := f.prev[end];
        k := |ring| - 1;
      } else {
        while f.value[f.next[at]] <= v
          invariant 0 <= k < |ring| && at == ring[k]
          invariant f.next[at] == ring[if k + 1 == |ring| then 0 else k + 1] && f.next[at] in ring
          invariant forall i :: 0 <= i < k ==> keys[i] <= v
          decreases |ring| - k
        {
          at := f.next[at];
          k := k + 1;
        }
      }
      SlotUnique(keys, v, k);
    }

    /** `dos_task_item_insert`: terminates, and is a stable sorted insertion
        that leaves the cursor on the item it was on. */
    method Insert(item: Item, v: nat)
      requires Valid() && item !in f.member && v <= END_VALUE
      modifies this`f, this`count, this`ring, this`keys
      ensures Valid()
      ensures ring == Inserted(old(ring), 1 + Slot(old(keys), v), item)
      ensures keys == Inserted(old(keys), Slot(old(keys), v), v)
      ensures cursor == old(cursor)
    {
      var at, k := Place(v);
      LinksInserted(f, ring, keys, k, item, v);
      LinkBehind(at, item, v);
      ring := Inserted(ring, k + 1, item);
      keys := Inserted(keys, k, v);
      assert cursor in ring by {
        InsertedMembers(old(ring), k + 1, item);
      }
    }

    /** The part of `dos_task_item_insert` that links the item. */
    method LinkBehind(at: Item, item: Item, v: nat)
      requires at in f.next
      modifies this`f, this`count
      ensures f == LinkedBehind(old(f), at, item, v) && count == old(count) + 1
    {
      var next := f.next[item := f.next[at]];
      var prev := f.prev[next[item] := item];
      prev := prev[item := at];
      next := next[at := item];
      f := Fields(next, prev, f.value[item := v], f.member + {item});
      count := count + 1;
    }

    /** `dos_task_item_del`. A linked item leaves the ring, a cursor standing
        on it steps back to its predecessor, and the remaining count is
        returned. For an unlinked item nothing changes; the code then reads
        the count through a null pointer, so the result is arbitrary. */
    method Delete(item: Item, ghost k: nat) returns (left: nat)
      requires Valid() && item != end
      requires item in f.member ==> 0 < k < |ring| && item == ring[k]
      modifies this
      ensures Valid()
      ensures item !in old(f.member) ==> unchanged(this)
      ensures item in old(f.member) ==>
                && ring == Removed(old(ring), k) && keys == Removed(old(keys), k - 1)
                && cursor == (if old(cursor) == item then old(ring)[k - 1] else old(cursor))
                && left == |ring| - 1
    {
      if item !in f.member {
        left := *;
        return;
      }
      LinksRemoved(f, ring, keys, k);
      if cursor == item {
        cursor := f.prev[item];
      }
      var next := f.next[f.prev[item] := f.next[item]];
      var prev := f.prev[f.next[item] := f.prev[item]];
      next := next[item := item];
      prev := prev[item := item];
      f := Fields(next, prev, f.value, f.member - {item});
      count := count - 1;
      left := count;
      ring := Removed(ring, k);
      keys := Removed(keys, k - 1);
    }

    /** `dos_get_first_task`: the first item, or the sentinel when empty. */
    method GetFirst() returns (item: Item)
      requires Valid()
      modifies this`cursor
      ensures Valid() && cursor == item
      ensures item == ring[if count == 0 then 0 else 1]
    {
      cursor := f.next[end];
      if cursor == end {
        cursor := f.next[cursor];
      }
      item := cursor;
      assert item == ring[if count == 0 then 0 else 1];
    }

    /** `dos_get_next_task`: the item after the cursor, stepping over the sentinel. */
    method GetNext(ghost pos: nat) returns (item: Item)
      requires Valid() && pos <= count && cursor == ring[pos]
      modifies this`cursor
      ensures Valid() && cursor == item
      ensures item == ring[if count == 0 then 0 else NextPos(pos, count)]
    {
      cursor := f.next[cursor];
      if cursor == end {
        cursor := f.next[cursor];
      }
      item := cursor;
      assert item == ring[if count == 0 then 0 else NextPos(pos, count)];
    }

    /** As many calls of `dos_get_next_task` as there are items: they come in the order of the list,
        starting behind the cursor, each once. */
    method FullTurn(ghost pos: nat) returns (items: seq<Item>)
      requires Valid() && pos <= count && cursor == ring[pos]
      modifies this`cursor
      ensures Valid() && items == ring[pos + 1..] + ring[1..pos + 1] && multiset(items) == multiset(ring[1..])
    {
      items := [];
      ghost var at: nat := pos;
      while |items| < count
        invariant Valid() && |items| <= count && at <= count && cursor == ring[at]
        invariant at == if |items| == 0 then pos else Visit(pos, count, |items|)
        invariant forall j :: 0 <= j < |items| ==> items[j] == ring[Visit(pos, count, j + 1)]
      {
        at := NextPos(at, count);
        var item := GetNext(if items == [] then pos else Visit(pos, count, |items|));
        items := items + [item];
      }
      TurnInOrder(ring, pos, items);
    }
  }

  lemma {:induction false} TurnInOrder(ring: seq<Item>, pos: nat, items: seq<Item>)
    requires pos < |ring| && |items| == |ring| - 1
    requires forall j :: 0 <= j < |items| ==> items[j] == ring[Visit(pos, |items|, j + 1)]
    ensures items == ring[pos + 1..] + ring[1..pos + 1] && multiset(items) == multiset(ring[1..])
  {
    forall j | 0 <= j < |items|
      ensures items[j] == (ring[pos + 1..] + ring[1..pos + 1])[j]
    {
      VisitClosedForm(pos, |items|, j + 1);
    }
    assert ring[1..] == ring[1..pos + 1] + ring[pos + 1..];
  }

  lemma {:induction false} LinksInserted(f: Fields, ring: seq<Item>, keys: seq<nat>, k: nat, item: Item, v: nat)
    requires Links(f, ring, keys) && item !in ring && v <= END_VALUE && k < |ring| && k == Slot(keys, v)
    ensures ring[k] in f.next && f.next[ring[k]] == ring[if k + 1 == |ring| then 0 else k + 1]
    ensures Links(LinkedBehind(f, ring[k], item, v), Inserted(ring, k + 1, item), Inserted(keys, k, v))
  {
    NextLinkedInserted(f.next, ring, k, item);
    PrevLinkedInserted(f.prev, ring, k, item);
    HaveKeysInserted(f.value, ring, keys, k, item, v);
    InsertedStable(keys, v, k);
    DistinctInserted(ring, k + 1, item);
  }

  lemma {:induction false} LinksRemoved(f: Fields, ring: seq<Item>, keys: seq<nat>, k: nat)
    requires Links(f, ring, keys) && 0 < k < |ring|
    ensures var item, before := ring[k], ring[k - 1];
            var after := ring[if k + 1 == |ring| then 0 else k + 1];
            && before == f.prev[item] && after == f.next[item]
            && Links(Fields(f.next[before := after][item := item], f.prev[after := before][item := item],
                            f.value, f.member - {item}),
                     Removed(ring, k), Removed(keys, k - 1))
  {
    NextLinkedRemoved(f.next, ring, k);
    PrevLinkedRemoved(f.prev, ring, k);
    HaveKeysRemoved(f.value, ring, keys, k);
    DistinctRemoved(ring, k);
  }

  lemma {:induction false} SlotUnique(keys: seq<nat>, key: nat, k: nat)
    requires k <= |keys|
    requires forall i :: 0 <= i < k ==> keys[i] <= key
    requires k < |keys| ==> keys[k] > key
    ensures k == Slot(keys, key)
  {
    var slot := Slot(keys, key);
    assert forall i :: 0 <= i < slot ==> keys[i] <= key;
  }

  lemma {:induction false} DistinctInserted(ring: seq<Item>, k: nat, item: Item)
    requires Distinct(ring) && k <= |ring| && item !in ring
    ensures Distinct(Inserted(ring, k, item))
  {
  }

  lemma {:induction false} NextLinkedInserted(next: map<Item, Item>, ring: seq<Item>, k: nat, item: Item)
    requires k < |ring| && Distinct(ring) && NextLinked(next, ring) && item !in ring
    ensures NextLinked(next[item := next[ring[k]]][ring[k] := item], Inserted(ring, k + 1, item))
  {
    var r := Inserted(ring, k + 1, item);
    var n := next[item := next[ring[k]]][ring[k] := item];
    assert forall i :: 0 <= i <= k ==> r[i] == ring[i];
    assert forall i :: k + 1 < i < |r| ==> r[i] == ring[i - 1];
    forall i | 0 <= i < |r| - 1
      ensures n[r[i]] == r[i + 1]
    {
      if i < k {
        assert ring[i] != ring[k] && next[ring[i]] == ring[i + 1];
      } else if k + 1 < i {
        assert ring[i - 1] != ring[k] && next[ring[i - 1]] == ring[i];
      }
    }
  }

  lemma {:induction false} PrevLinkedInserted(prev: map<Item, Item>, ring: seq<Item>, k: nat, item: Item)
    requires k < |ring| && Distinct(ring) && PrevLinked(prev, ring) && item !in ring
    ensures var after := ring[if k + 1 == |ring| then 0 else k + 1];
            PrevLinked(prev[after := item][item := ring[k]], Inserted(ring, k + 1, item))
  {
    var r := Inserted(ring, k + 1, item);
    var a := if k + 1 == |ring| then 0 else k + 1;
    var p := prev[ring[a] := item][item := ring[k]];
    assert forall i :: 0 <= i <= k ==> r[i] == ring[i];
    assert forall i :: k + 1 < i < |r| ==> r[i] == ring[i - 1];
    forall i | 0 <= i < |r| - 1
      ensures p[r[i + 1]] == r[i]
    {
      if i < k {
        assert r[i + 1] == ring[i + 1] && ring[i + 1] != ring[a] && prev[ring[i + 1]] == ring[i];
      } else if k + 1 < i {
        assert r[i + 1] == ring[i] && ring[i] != ring[a] && prev[ring[i]] == ring[i - 1];
      }
    }
    assert a != 0 ==> ring[0] != ring[a];
  }

  lemma {:induction false} HaveKeysInserted(value: map<Item, nat>, ring: seq<Item>, keys: seq<nat>, k: nat, item: Item, v: nat)
    requires k < |ring| && HaveKeys(value, ring, keys) && item !in ring && v <= END_VALUE
    ensures HaveKeys(value[item := v], Inserted(ring, k + 1, item), Inserted(keys, k, v))
  {
  }

  lemma {:induction false} DistinctRemoved(ring: seq<Item>, k: nat)
    requires Distinct(ring) && k < |ring|
    ensures Distinct(Removed(ring, k)) && ring[k] !in Removed(ring, k)
    ensures forall x :: x in ring <==> x == ring[k] || x in Removed(ring, k)
  {
  }

  lemma {:induction false} NextLinkedRemoved(next: map<Item, Item>, ring: seq<Item>, k: nat)
    requires 0 < k < |ring| && Distinct(ring) && NextLinked(next, ring)
    ensures NextLinked(next[ring[k - 1] := next[ring[k]]][ring[k] := ring[k]], Removed(ring, k))
  {
    var r := Removed(ring, k);
    assert forall i :: 0 <= i < k ==> r[i] == ring[i];
    assert forall i :: k <= i < |r| ==> r[i] == ring[i + 1];
  }

  lemma {:induction false} PrevLinkedRemoved(prev: map<Item, Item>, ring: seq<Item>, k: nat)
    requires 0 < k < |ring| && Distinct(ring) && PrevLinked(prev, ring)
    ensures var after := ring[if k + 1 == |ring| then 0 else k + 1];
            PrevLinked(prev[after := ring[k - 1]][ring[k] := ring[k]], Removed(ring, k))
  {
    var r := Removed(ring, k);
    assert forall i :: 0 <= i < k ==> r[i] == ring[i];
    assert forall i :: k <= i < |r| ==> r[i] == ring[i + 1];
  }

  lemma {:induction false} HaveKeysRemoved(value: map<Item, nat>, ring: seq<Item>, keys: seq<nat>, k: nat)
    requires 0 < k < |ring| && HaveKeys(value, ring, keys)
    ensures HaveKeys(value, Removed(ring, k), Removed(keys, k - 1))
  {
  }
}
