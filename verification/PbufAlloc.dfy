/** `pbuf_alloc` from the pool (common/lwip/core/pbuf.c): as many pbufs as the length takes,
    linked one behind the other; if the pool runs out on the way, all is given back. */
module PbufAlloc {

  import opened Machine
  import opened PbufRefs
  import opened PbufTotals
  import opened Pbuf
  import opened PbufBytes
  import opened PbufState
  import opened PbufPool

  /** A chain that only its head's holder refers to: each pbuf has one reference. */
  ghost predicate Single(s: State, p: Id, c: seq<Id>) {
    Inv(s) && p in s.held && c != [] && Path(s.next, p, c) && forall x <- c :: x in s.ref && s.ref[x] == 1
  }

  /** Freeing such a chain frees all of it. */
  lemma {:induction false} FreedSingle(s: State, p: Id, c: seq<Id>)
    requires Single(s, p, c)
    ensures Freed(s, p) == State(s.next - Elems(c), s.ref - Elems(c), s.held - multiset{p})
  {
    FreedExactly(s, p, c);
    assert Singles(s.ref, c) == |c|;
    assert c[..|c|] == c;
  }

  /** The state with a new pbuf at the end of the chain. */
  function Extended(s: State, last: Id, q: Id): State
    requires last in s.next
  {
    Linked(Allocated(s, q), last, q)
  }

  /** A longer chain is still single, and freeing it leaves what freeing the shorter one did. */
  lemma {:induction false} ExtendedSingle(s: State, p: Id, c: seq<Id>, q: Id)
    requires Single(s, p, c) && q !in s.next && q != NULL
    ensures c[|c| - 1] in s.next && s.next[c[|c| - 1]] == NULL
    ensures var t := Extended(s, c[|c| - 1], q);
            Single(t, p, c + [q]) && t.held == s.held && Freed(t, p) == Freed(s, p)
  {
    var last := c[|c| - 1];
    PathFrom(s.next, p, c, |c| - 1);
    GrowInv(s, last, q);
    var t := Extended(s, last, q);
    ExtendedPath(s.next, p, c, q);
    HeldAgain(s.held, q);
    forall x <- c + [q] ensures x in t.ref && t.ref[x] == 1 {
    }
    FreedSingle(s, p, c);
    FreedSingle(t, p, c + [q]);
    Undone(s.next, s.ref, c, q);
  }

  lemma {:induction false} HeldAgain(held: multiset<Id>, q: Id)
    requires q != NULL
    ensures held + multiset{q} - Handle(q) == held
  {
  }

  lemma {:induction false} Undone(next: Links, ref: map<Id, nat>, c: seq<Id>, q: Id)
    requires c != [] && q !in next && q !in ref
    ensures next[q := NULL][c[|c| - 1] := q] - Elems(c + [q]) == next - Elems(c)
    ensures ref[q := 1] - Elems(c + [q]) == ref - Elems(c)
  {
    assert Elems(c + [q]) == Elems(c) + {q};
    assert c[|c| - 1] in Elems(c);
  }

  /** The first pbuf. */
  lemma {:induction false} AllocatedSingle(s: State, q: Id)
    requires Inv(s) && q !in s.next && q != NULL
    ensures var t := Allocated(s, q);
            Single(t, q, [q]) && t.held == s.held + multiset{q} && Freed(t, q) == s
  {
    AllocatedInv(s, q);
    var t, one := Allocated(s, q), [q];
    assert one[1..] == [] && Path(t.next, q, one);
    FreedSingle(t, q, one);
    UndoneFirst(s.next, s.ref, q);
  }

  lemma {:induction false} UndoneFirst(next: Links, ref: map<Id, nat>, q: Id)
    requires q !in next && q !in ref
    ensures next[q := NULL] - Elems([q]) == next && ref[q := 1] - Elems([q]) == ref
  {
    assert [q][0] == q && Elems([q]) == {q};
  }

  // ---- The lengths ------------------------------------------------------------------------------

  /** How many pbufs `length` bytes take: at least one; the first has room for `first` bytes,
      the others for `size`. */
  function Needed(length: nat, first: nat, size: nat): nat
    requires first > 0 && size > 0
    decreases length
  {
    if length <= first then 1 else 1 + Needed(length - first, size, size)
  }

  /** That is the fewest that have room for them. */
  lemma {:induction false} NeededFewest(length: nat, first: nat, size: nat)
    requires first > 0 && size > 0
    ensures var n := Needed(length, first, size);
            n >= 1 && length <= first + (n - 1) * size && (n > 1 ==> length > first + (n - 2) * size)
    decreases length
  {
    if length > first {
      NeededFewest(length - first, size, size);
      var n := Needed(length, first, size);
      assert size + (n - 2) * size == (n - 1) * size;
      assert n > 2 ==> size + (n - 3) * size == (n - 2) * size;
    }
  }

  /** One round more, as long as bytes remain. */
  lemma {:induction false} NeededRound(rem: nat, size: nat)
    requires size > 0 && rem > 0
    ensures Rounds(rem, size) == 1 + Rounds(rem - Min(rem, size), size)
  {
  }

  /** How many further pbufs `rem` bytes take. */
  function Rounds(rem: nat, size: nat): nat
    requires size > 0
  {
    if rem == 0 then 0 else Needed(rem, size, size)
  }

  lemma {:induction false} NeededFirst(length: nat, first: nat, size: nat)
    requires first > 0 && size > 0
    ensures Needed(length, first, size) == 1 + Rounds(length - Min(length, first), size)
  {
  }

  // ---- The allocation -------------------------------------------------------------------------------

  /** Giving the chain c back would restore the state s0. */
  ghost predicate Undoable(s0: State, s: State, p: Id, c: seq<Id>) {
    Single(s, p, c) && Freed(s, p) == s0 && s.held == s0.held + multiset{p}
  }

  lemma {:induction false} UndoableOn(s0: State, s: State, p: Id, c: seq<Id>, q: Id)
    requires Undoable(s0, s, p, c) && q !in s.next && q != NULL
    ensures c[|c| - 1] in s.next && Undoable(s0, Extended(s, c[|c| - 1], q), p, c + [q])
  {
    ExtendedSingle(s, p, c, q);
  }

  /** The next pbuf of the pool is not in use. */
  lemma {:induction false} StillFresh(s0: State, s: State, p: Id, c: seq<Id>, q: Id)
    requires Undoable(s0, s, p, c) && q !in s0.next && q !in c
    ensures q !in s.next
  {
    FreedSingle(s, p, c);
    assert q in s.next ==> q in s.next - Elems(c);
  }

  /** On the way: c holds the pbufs so far, with `rem` of `length` bytes still to come, and giving them
      back would restore the state s0. */
  ghost predicate Building(b: Pbufs, s0: State, p: Id, c: seq<Id>, rem: nat, length: nat) {
    Growing(b, p, c, rem) && Undoable(s0, b.refs, p, c) && |Bytes(b.data, c)| + rem == length
  }

  lemma {:induction false} BuildingStarts(b: Pbufs, q: Id, payload: seq<byte>, length: nat)
    requires Good(b) && Honest(b) && q !in b.refs.next && q != NULL && |payload| <= length < HALF_WORD
    ensures Building(Started(b, q, payload, length), b.refs, q, [q], length - |payload|, length)
  {
    StartedGrowing(b, q, payload, length);
    AllocatedSingle(b.refs, q);
  }

  lemma {:induction false} BuildingOn(b: Pbufs, s0: State, p: Id, c: seq<Id>, rem: nat, length: nat, q: Id, payload: seq<byte>,
                                      d: seq<Id>)
    requires Building(b, s0, p, c, rem, length) && q !in s0.next && q !in c && q != NULL && |payload| <= rem && length < HALF_WORD
    requires d == c + [q]
    ensures c[|c| - 1] in b.refs.next
    ensures Building(Appended(b, c[|c| - 1], q, payload, rem), s0, p, d, rem - |payload|, length)
  {
    StillFresh(s0, b.refs, p, c, q);
    UndoableOn(s0, b.refs, p, c, q);
    AppendedGrowing(b, p, c, q, payload, rem);
  }

  /** With no byte to come, the chain stands for as many bytes as asked for. */
  lemma {:induction false} BuildingDone(b: Pbufs, s0: State, p: Id, c: seq<Id>, length: nat)
    requires Building(b, s0, p, c, 0, length)
    ensures Good(b) && Honest(b) && Path(b.refs.next, p, c) && Covers(b.data, c) && |Bytes(b.data, c)| == length
  {
    AlmostDone(b.refs.next, b.len, b.tot, c[|c| - 1]);
  }

  /** Given back on the way, the state is the old one, and all totals are right. */
  lemma {:induction false} BuildingFails(b: Pbufs, s0: State, p: Id, c: seq<Id>, rem: nat, length: nat)
    requires Building(b, s0, p, c, rem, length)
    ensures Inv(b.refs) && p in b.refs.held && FreedAll(b, p).refs == s0 && Good(FreedAll(b, p)) && Honest(FreedAll(b, p))
  {
    FreeTheorem(b, p, c);
    FreedSingle(b.refs, p, c);
    assert s0.next == b.refs.next - Elems(c) && c[|c| - 1] in Elems(c);
    forall x <- s0.next ensures Right(s0.next, b.len, b.tot, x) {
      assert Right(b.refs.next, b.len, b.tot, x);
    }
  }

  /** Fields of a pbuf fresh from the pool: `pbuf_init_alloced_pbuf`. */
  method Init(k: Pool, q: Id, tot: nat, payload: seq<byte>)
    modifies k
    ensures k.All() == Started(old(k.All()), q, payload, tot)
  {
    k.next, k.ref := k.next[q := NULL], k.ref[q := 1];
    k.len, k.tot, k.data := k.len[q := |payload|], k.tot[q := tot], k.data[q := payload];
    k.held := k.held + multiset{q};
  }

  /** A further pbuf is linked behind the last one. */
  method Extend(k: Pool, last: Id, q: Id, tot: nat, payload: seq<byte>)
    requires last in k.next && q != NULL
    modifies k
    ensures k.All() == Appended(old(k.All()), last, q, payload, tot)
  {
    Init(k, q, tot, payload);
    k.next := k.next[last := q];
    k.held := k.held - Handle(q);
  }

  /** The pbufs the pool has left, in the order it hands them out, with what their memory holds. */
  ghost predicate Pooled(s: State, ids: seq<Id>, memory: seq<seq<byte>>, first: nat, size: nat) {
    && Fresh(s, ids) && |memory| == |ids| && first > 0 && size > 0
    && forall i :: 0 <= i < |ids| ==> |memory[i]| >= if i == 0 then first else size
  }

  lemma {:induction false} NotYet(s: State, ids: seq<Id>, i: nat)
    requires Fresh(s, ids) && i < |ids|
    ensures ids[i] != NULL && ids[i] !in s.next && ids[i] !in ids[..i] && ids[..i + 1] == ids[..i] + [ids[i]]
  {
  }

  /** One round of the loop of `pbuf_alloc`, after the first. */
  method Round(k: Pool, last: Id, q: Id, rem: nat, payload: seq<byte>, ghost b: Pbufs, ghost s0: State, ghost p: Id,
               ghost c: seq<Id>, ghost length: nat, ghost d: seq<Id>) returns (ghost r: Pbufs)
    requires k.All() == b && Building(b, s0, p, c, rem, length) && length < HALF_WORD && last == c[|c| - 1] && d == c + [q]
    requires q !in s0.next && q !in c && q != NULL && |payload| <= rem
    modifies k
    ensures k.All() == r && Building(r, s0, p, d, rem - |payload|, length) && r.data == b.data[q := payload]
  {
    BuildingOn(b, s0, p, c, rem, length, q, payload, d);
    r := Appended(b, last, q, payload, rem);
    Extend(k, last, q, rem, payload);
  }

  /** What `pbuf_alloc` promises: NULL and the old state if the pbufs are too few; otherwise a chain of as
      many as needed, standing for `length` bytes, which, freed, would leave everything as it was. In
      either case all totals are right. */
  ghost predicate Delivered(b: Pbufs, s0: State, ids: seq<Id>, length: nat, needed: nat, p: Id) {
    && Good(b) && Honest(b)
    && (|ids| < needed ==> p == NULL && b.refs == s0)
    && (0 < needed <= |ids| ==>
          && p == ids[0] && Undoable(s0, b.refs, p, ids[..needed])
          && Covers(b.data, ids[..needed]) && |Bytes(b.data, ids[..needed])| == length)
  }

  /** All pbufs but the last are full, and so is the last while bytes remain. */
  ghost predicate Brimful(data: Payloads, ids: seq<Id>, i: nat, rem: nat, first: nat, size: nat) {
    && i <= |ids|
    && forall j :: 0 <= j < i && (j < i - 1 || rem > 0) ==> ids[j] in data && |data[ids[j]]| == if j == 0 then first else size
  }

  lemma {:induction false} BrimfulOn(data: Payloads, ids: seq<Id>, i: nat, rem: nat, first: nat, size: nat, s0: State,
                                     payload: seq<byte>)
    requires 0 < i < |ids| && Fresh(s0, ids) && rem > 0 && Brimful(data, ids, i, rem, first, size) && |payload| == Min(rem, size)
    ensures Brimful(data[ids[i] := payload], ids, i + 1, rem - |payload|, first, size)
  {
    forall j | 0 <= j < i
      ensures ids[j] != ids[i]
    {
      NotYet(s0, ids, i);
      assert ids[j] in ids[..i];
    }
  }

  lemma {:induction false} DeliveredWhole(b: Pbufs, s0: State, ids: seq<Id>, i: nat, length: nat, p: Id)
    requires 0 < i <= |ids| && p == ids[0] && Building(b, s0, p, ids[..i], 0, length)
    ensures Delivered(b, s0, ids, length, i, p)
  {
    BuildingDone(b, s0, p, ids[..i], length);
  }

  /** The pool is empty: what was allocated is given back. */
  method GiveBack(k: Pool, p: Id, ghost b: Pbufs, ghost s0: State, ghost c: seq<Id>, ghost rem: nat, ghost length: nat,
                  ghost ids: seq<Id>, ghost needed: nat)
    requires k.All() == b && Building(b, s0, p, c, rem, length) && |ids| < needed
    modifies k`next, k`ref, k`held
    ensures Delivered(k.All(), s0, ids, length, needed, NULL)
  {
    BuildingFails(b, s0, p, c, rem, length);
    ghost var after := FreedAll(b, p);
    var _ := k.Free(p, c);
    assert k.All() == after;
  }

  /** The next pbuf of the pool takes what it can of the bytes that remain. */
  method Next(k: Pool, ids: seq<Id>, memory: seq<byte>, rem: nat, i: nat, size: nat, ghost b: Pbufs, ghost s0: State,
              ghost length: nat) returns (left: nat, ghost r: Pbufs)
    requires 0 < i < |ids| && Fresh(s0, ids) && 0 < size <= |memory| && rem > 0 && length < HALF_WORD
    requires k.All() == b && Building(b, s0, ids[0], ids[..i], rem, length)
    modifies k
    ensures left == rem - Min(rem, size)
    ensures k.All() == r && Building(r, s0, ids[0], ids[..i + 1], left, length)
    ensures r.data == b.data[ids[i] := memory[..Min(rem, size)]]
  {
    var n := Min(rem, size);
    NotYet(s0, ids, i);
    left := rem - n;
    r := Round(k, ids[i - 1], ids[i], rem, memory[..n], b, s0, ids[0], ids[..i], length, ids[..i + 1]);
  }

  /** The same, with what it means for the number of pbufs and for those so far. */
  method NextFull(k: Pool, ids: seq<Id>, memory: seq<byte>, rem: nat, i: nat, size: nat, ghost first: nat, ghost b: Pbufs,
                  ghost s0: State, ghost length: nat) returns (left: nat, ghost r: Pbufs)
    requires 0 < i < |ids| && Fresh(s0, ids) && 0 < size <= |memory| && rem > 0 && length < HALF_WORD
    requires k.All() == b && Building(b, s0, ids[0], ids[..i], rem, length) && Brimful(b.data, ids, i, rem, first, size)
    modifies k
    ensures Rounds(rem, size) == 1 + Rounds(left, size)
    ensures k.All() == r && Building(r, s0, ids[0], ids[..i + 1], left, length) && Brimful(r.data, ids, i + 1, left, first, size)
  {
    BrimfulOn(b.data, ids, i, rem, first, size, s0, memory[..Min(rem, size)]);
    NeededRound(rem, size);
    left, r := Next(k, ids, memory, rem, i, size, b, s0, length);
  }

  /** The further rounds of the loop of `pbuf_alloc`. */
  method Further(k: Pool, ids: seq<Id>, memory: seq<seq<byte>>, rem0: nat, size: nat, ghost first: nat, ghost b0: Pbufs,
                 ghost s0: State, ghost length: nat) returns (r: Id)
    requires ids != [] && Pooled(s0, ids, memory, first, size) && length < HALF_WORD
    requires k.All() == b0 && Building(b0, s0, ids[0], ids[..1], rem0, length) && Brimful(b0.data, ids, 1, rem0, first, size)
    modifies k
    ensures Delivered(k.All(), s0, ids, length, 1 + Rounds(rem0, size), r)
    ensures r != NULL ==> Brimful(k.data, ids, 1 + Rounds(rem0, size), 0, first, size)
  {
    var rem, i := rem0, 1;
    ghost var b, needed := b0, 1 + Rounds(rem0, size);
    while rem > 0
      invariant 1 <= i <= |ids| && i + Rounds(rem, size) == needed
      invariant k.All() == b && Building(b, s0, ids[0], ids[..i], rem, length) && Brimful(b.data, ids, i, rem, first, size)
      decreases |ids| - i
    {
      if i == |ids| {
        NeededRound(rem, size);
        GiveBack(k, ids[0], b, s0, ids[..i], rem, length, ids, needed);
        return NULL;
      }
      rem, b := NextFull(k, ids, memory[i], rem, i, size, first, b, s0, length);
      i := i + 1;
    }
    DeliveredWhole(b, s0, ids, i, length, ids[0]);
    return ids[0];
  }

  /** The first round of the loop of `pbuf_alloc`. */
  method Begin(k: Pool, ids: seq<Id>, payload: seq<byte>, length: nat, ghost b: Pbufs) returns (ghost r: Pbufs)
    requires k.All() == b && Good(b) && Honest(b) && ids != [] && Fresh(b.refs, ids) && |payload| <= length < HALF_WORD
    modifies k
    ensures k.All() == r && Building(r, b.refs, ids[0], ids[..1], length - |payload|, length)
    ensures r.data == b.data[ids[0] := payload]
  {
    NotYet(b.refs, ids, 0);
    BuildingStarts(b, ids[0], payload, length);
    r := Started(b, ids[0], payload, length);
    Init(k, ids[0], length, payload);
    assert ids[..1] == [ids[0]];
  }

  /** The loop of `pbuf_alloc`, with a pool that is not empty. */
  method AllocSome(k: Pool, ids: seq<Id>, memory: seq<seq<byte>>, length: nat, first: nat, size: nat, ghost b0: Pbufs)
    returns (p: Id)
    requires k.All() == b0 && Good(b0) && Honest(b0) && ids != [] && Pooled(b0.refs, ids, memory, first, size) && length < HALF_WORD
    modifies k
    ensures Delivered(k.All(), b0.refs, ids, length, Needed(length, first, size), p)
    ensures p != NULL ==> Brimful(k.data, ids, Needed(length, first, size), 0, first, size)
  {
    NeededFirst(length, first, size);
    var n := Min(length, first);
    ghost var b := Begin(k, ids, memory[0][..n], length, b0);
    p := Further(k, ids, memory, length - n, size, first, b, b0.refs, length);
  }

  /** `pbuf_alloc` of type PBUF_POOL. All pbufs but the last are full. */
  method AllocPool(k: Pool, ids: seq<Id>, memory: seq<seq<byte>>, length: nat, first: nat, size: nat) returns (p: Id)
    requires Good(k.All()) && Honest(k.All()) && Pooled(k.View(), ids, memory, first, size) && length < HALF_WORD
    modifies k
    ensures Delivered(k.All(), old(k.View()), ids, length, Needed(length, first, size), p)
    ensures p != NULL ==> Brimful(k.data, ids, Needed(length, first, size), 0, first, size)
  {
    if |ids| == 0 {
      return NULL;
    }
    p := AllocSome(k, ids, memory, length, first, size, k.All());
  }
}
