/** The packet buffers of common/lwip/core/pbuf.c as the code changes them, field by field along
    the chains. The class is proved against `PbufRefs` (links and reference counts), `PbufTotals`
    (lengths) and `PbufBytes` (contents). */
module PbufPool {

  import opened Machine
  import opened PbufRefs
  import opened PbufTotals
  import opened Pbuf
  import opened PbufBytes
  import opened PbufState

  class Pool {
    /** `next`, `ref`, `len` and `tot_len` of every pbuf, and the `len` bytes at its `payload`. */
    var next: Links
    var ref: map<Id, nat>
    var len: Sizes
    var tot: Sizes
    var data: Payloads

    /** The references the callers hold. */
    ghost var held: multiset<Id>

    ghost function View(): State
      reads `next, `ref, `held
    {
      State(next, ref, held)
    }

    /** All fields at once. */
    ghost function All(): Pbufs
      reads this
    {
      Pbufs(View(), len, tot, data)
    }

    /** `pbuf_ref`. */
    method Ref(p: Id)
      requires p != NULL ==> p in ref
      modifies `ref, `held
      ensures View() == if p == NULL then old(View()) else Referenced(old(View()), p)
    {
      if p != NULL {
        ref := ref[p := Increment(ref[p])];
        held := held + multiset{p};
      }
    }

    /** One reference less: the next pbuf to release, if this one is gone. */
    method Drop(cur: Id) returns (q: Id, gone: bool)
      requires cur in next && cur in ref
      modifies `next, `ref, `held
      ensures View() == Dropped(old(View()), cur)
      ensures gone == (old(ref)[cur] == 1) && q == if gone then old(next)[cur] else NULL
    {
      ref := ref[cur := Decrement(ref[cur])];
      if ref[cur] == 0 {
        q, gone := next[cur], true;
        UpdateRemove(old(ref), cur, 0);
        next, ref, held := next - {cur}, ref - {cur}, held - multiset{cur} + Handle(q);
      } else {
        held := held - multiset{cur};
        q, gone := NULL, false;
      }
    }

    /** `pbuf_free`: the number of pbufs deallocated, in eight bits. */
    method Free(p: Id, ghost c: seq<Id>) returns (count: nat)
      requires Callable(View(), p, c)
      modifies `next, `ref, `held
      ensures View() == Freed(old(View()), p)
      ensures count == Singles(old(ref), c) % BYTE
    {
      ghost var n: nat, d := 0, c;
      var cur := p;
      count := 0;
      while cur != NULL
        invariant Freeing(old(View()), p, c, View(), cur, d, n)
        invariant count == n % BYTE
        decreases |d|
      {
        FreeingRound(old(View()), p, c, View(), cur, d, n);
        var q, gone := Drop(cur);
        if gone {
          Increments(n);
          count, n := Increment(count), n + 1;
        }
        cur, d := q, d[1..];
      }
    }

    /** The walk of `pbuf_cat` to the last pbuf of the first chain. */
    method Raise(h: Id, t: Id, ghost c: seq<Id>) returns (p: Id)
      requires Path(next, h, c) && h != NULL && t !in c && t in tot && Sums(tot, c, tot[t])
      modifies `tot
      ensures c != [] && p == c[|c| - 1] && p in next && tot == Shifted(old(tot), c, |c|, old(tot)[t])
    {
      p := h;
      ghost var i := 0;
      ShiftedAhead(next, tot, h, c, i, tot[t]);
      while next[p] != NULL
        invariant i < |c| && p == c[i] && p in next && (next[p] == NULL <==> i + 1 == |c|)
        invariant tot == Shifted(old(tot), c, i, old(tot)[t])
        decreases |c| - i
      {
        ShiftedAhead(next, old(tot), h, c, i, old(tot)[t]);
        ShiftedAt(old(tot), c, i, old(tot)[t], t);
        tot := tot[p := Word(tot[p] + tot[t])];
        p, i := next[p], i + 1;
        ShiftedAhead(next, old(tot), h, c, i, old(tot)[t]);
      }
      ShiftedAhead(next, old(tot), h, c, i, old(tot)[t]);
      ShiftedAt(old(tot), c, i, old(tot)[t], t);
      tot := tot[p := Word(tot[p] + tot[t])];
    }

    /** `pbuf_cat`: the chain of h, whose totals all grow, goes on with t. */
    method Cat(h: Id, t: Id, ghost c: seq<Id>)
      requires h != NULL && t != NULL ==> Path(next, h, c) && t !in c && t in tot && Sums(tot, c, tot[t])
      modifies `next, `tot, `held
      ensures h == NULL || t == NULL ==> next == old(next) && tot == old(tot) && held == old(held)
      ensures h != NULL && t != NULL ==>
        && c[|c| - 1] in old(next)
        && All() == Catenated(old(All()), c, t)
    {
      if h == NULL || t == NULL {
        return;
      }
      var p := Raise(h, t, c);
      next := next[p := t];
      held := held - Handle(t);
    }

    /** `pbuf_chain`: the caller keeps its reference to t, also if there is no h to link it to. */
    method Chain(h: Id, t: Id, ghost c: seq<Id>)
      requires t != NULL ==> t in ref
      requires h != NULL && t != NULL ==> Path(next, h, c) && t !in c && t in tot && Sums(tot, c, tot[t])
      modifies `next, `tot, `held, `ref
      ensures t == NULL ==> All() == old(All())
      ensures h == NULL && t != NULL ==> All() == ReferencedAll(old(All()), t)
      ensures h != NULL && t != NULL ==>
        c[|c| - 1] in old(next) && All() == ReferencedAll(Catenated(old(All()), c, t), t)
    {
      Cat(h, t, c);
      Ref(t);
    }

    /** `p->next = NULL`; the reference is the caller's to give back. */
    method Unlink(p: Id)
      requires p in next
      modifies `next, `held
      ensures View() == Unlinked(old(View()), p)
    {
      held := held + Handle(next[p]);
      next := next[p := NULL];
    }

    /** p is unlinked from the rest of its chain, and that is released. */
    method CutBehind(p: Id, ghost c: seq<Id>, ghost s: State) returns (gone: nat)
      requires View() == s && Inv(s) && p in s.next && Path(s.next, p, c)
      modifies `next, `ref, `held
      ensures View() == Dechained(s, p)
      ensures (forall x <- c[1..] :: x in s.ref) && gone == Singles(s.ref, c[1..]) % BYTE
    {
      Unlinking(s, p, c);
      var q := next[p];
      Unlink(p);
      gone := Free(q, c[1..]);
    }

    method SetTotals(p: Id, q: Id)
      requires p in len && p in tot && len[p] <= tot[p] && q != NULL
      modifies `tot
      ensures tot == DechainedTotals(old(tot), p, q, len[p])
    {
      tot := tot[q := tot[p] - len[p]];
      tot := tot[p := len[p]];
    }

    /** `pbuf_dechain`: p stands alone, and its successor has one reference less. */
    method Dechain(p: Id, ghost c: seq<Id>) returns (r: Id)
      requires Inv(View()) && p in next && p in len && p in tot && len[p] <= tot[p] && Path(next, p, c)
      modifies `next, `ref, `tot, `held
      ensures All() == DechainedAll(old(All()), p)
      ensures (forall x <- c[1..] :: x in old(ref)) && r == DechainResult(old(View()), p, Singles(old(ref), c[1..]))
    {
      var q := next[p];
      if q == NULL {
        Unlinking(View(), p, c);
        return NULL;
      }
      ghost var s := View();
      SetTotals(p, q);
      var gone := CutBehind(p, c, s);
      return if gone > 0 then NULL else q;
    }

    /** The walk of `pbuf_realloc` to the new last pbuf. */
    method Walk(p: Id, newLen: nat, shrink: nat, ghost c: seq<Id>) returns (q: Id, rem: nat, ghost keep: nat)
      requires Path(next, p, c) && c != [] && Totals(next, len, tot) && NULL !in tot && forall x <- c :: x in len && x in tot
      requires Sums(tot, c, 0 - shrink) && newLen + shrink == tot[p]
      modifies `tot
      ensures keep == KeptAt(len, c, newLen) && q == c[keep] && rem + shrink == old(tot)[q]
      ensures tot == Shifted(old(tot), c, keep, 0 - shrink)
    {
      q, rem, keep := p, newLen, 0;
      assert c[0..] == c;
      while rem > len[q]
        invariant keep < |c| && q == c[keep] && rem + shrink == old(tot)[q]
        invariant keep + KeptAt(len, c[keep..], rem) == KeptAt(len, c, newLen)
        invariant tot == Shifted(old(tot), c, keep, 0 - shrink)
        decreases |c| - keep
      {
        ShrinkOn(next, len, old(tot), p, c, keep, shrink);
        ShiftedAhead(next, old(tot), p, c, keep, 0 - shrink);
        assert c[keep..][1..] == c[keep + 1..];
        rem := rem - len[q];
        tot := tot[q := Word(tot[q] - shrink)];
        q, keep := next[q], keep + 1;
      }
    }

    /** The new last pbuf gets its lengths. */
    method Shorten(p: Id, newLen: nat, shrink: nat, ghost c: seq<Id>, ghost keep: nat, ghost l: nat) returns (q: Id)
      requires Kept(next, len, tot, data, p, c, newLen, shrink, keep, l)
      modifies `tot, `len, `data
      ensures q == c[keep] && len == old(len)[q := l]
      ensures tot == Shifted(old(tot), c, keep + 1, 0 - shrink) && data == old(data)[q := old(data)[q][..l]]
    {
      var rem;
      ghost var k;
      q, rem, k := Walk(p, newLen, shrink, c);
      len := len[q := rem];
      tot := tot[q := rem];
      data := data[q := data[q][..rem]];
    }

    /** `pbuf_realloc`: never longer; otherwise the chain ends with the pbuf that holds the last byte
        kept, and the rest is released. The model cuts the link before it releases what is behind. */
    method Realloc(p: Id, newLen: nat, ghost c: seq<Id>)
      requires Good(All()) && Honest(All()) && p in next && Path(next, p, c)
      modifies `next, `ref, `len, `tot, `data, `held
      ensures All() == Reallocated(old(All()), p, c, newLen)
    {
      ReallocCuttable(All(), p, c, newLen);
      if newLen >= tot[p] {
        return;
      }
      ghost var after, keep := Reallocated(All(), p, c, newLen), KeptAt(len, c, newLen);
      ReallocKept(All(), p, c, newLen, tot[p] - newLen);
      ghost var l := tot[c[keep]] - (tot[p] - newLen);
      ReallocFields(All(), p, c, newLen, tot[p] - newLen, keep, l);
      Cut(p, newLen, tot[p] - newLen, c, keep, l, View());
      assert All() == after;
    }

    /** The part of `pbuf_realloc` that cuts off something. */
    method Cut(p: Id, newLen: nat, shrink: nat, ghost c: seq<Id>, ghost keep: nat, ghost l: nat, ghost s: State)
      requires Kept(next, len, tot, data, p, c, newLen, shrink, keep, l)
      requires View() == s && Inv(s) && Path(s.next, p, c) && c[keep] in s.next
      modifies `next, `ref, `len, `tot, `data, `held
      ensures View() == Dechained(s, c[keep]) && len == old(len)[c[keep] := l]
      ensures tot == Shifted(old(tot), c, keep + 1, 0 - shrink) && data == old(data)[c[keep] := old(data)[c[keep]][..l]]
    {
      PathFrom(s.next, p, c, keep);
      var q := Shorten(p, newLen, shrink, c, keep, l);
      var _ := CutBehind(q, c[keep..], s);
    }

    /** One round of `pbuf_free_header` that drops a whole pbuf. */
    method DropHead(f: Id, ghost c: seq<Id>) returns (p: Id)
      requires Inv(View()) && Headed(View(), c) && c != [] && f == c[0]
      modifies `next, `ref, `held
      ensures View() == HeadDropped(old(View()), f) && Headed(View(), c[1..])
      ensures p == if |c| > 1 then c[1] else NULL
      ensures |c| > 1 ==> p != NULL
    {
      DroppedHeaded(View(), c);
      HeadCallable(View(), f);
      p := next[f];
      Unlink(f);
      var _ := Free(f, [f]);
    }

    /** A round of `pbuf_free_header` that drops a whole pbuf comes closer to the outcome. */
    method Round(f: Id, left: nat, ghost c: seq<Id>) returns (p: Id)
      requires Ready(View(), len, c) && c != [] && f == c[0] && left != 0 && left >= len[f]
      modifies `next, `ref, `held
      ensures Ready(View(), len, c[1..]) && p == AtHead(c[1..]) && (p == NULL <==> c[1..] == [])
      ensures Headless(View(), len, c[1..], left - len[f]) == Headless(old(View()), len, c, left)
    {
      HeadlessRound(View(), len, c, left);
      p := DropHead(f, c);
    }

    /** The rounds of `pbuf_free_header` that drop whole pbufs. */
    method DropHeads(q: Id, size: nat, ghost c: seq<Id>) returns (p: Id, left: nat, ghost rest: seq<Id>)
      requires Ready(View(), len, c) && q == AtHead(c)
      modifies `next, `ref, `held
      ensures Headless(old(View()), len, c, size) == Outcome(View(), rest, left) && p == AtHead(rest)
      ensures p == NULL <==> rest == []
    {
      p, left, rest := q, size, c;
      HeadNotNull(View(), rest);
      while left != 0 && p != NULL && left >= len[p]
        invariant Ready(View(), len, rest) && Headless(View(), len, rest, left) == Headless(old(View()), len, c, size)
        invariant p == AtHead(rest) && (p == NULL <==> rest == [])
        decreases |rest|
      {
        var next := Round(p, left, rest);
        left, rest := left - len[p], rest[1..];
        p := next;
      }
    }

    /** `pbuf_remove_header`: refused, with nothing changed, exactly if there is no pbuf or it has fewer
        bytes. */
    method RemoveHeader(p: Id, n: nat) returns (refused: bool)
      requires p != NULL ==> p in len && p in tot && p in data && len[p] <= tot[p] && len[p] == |data[p]| < HALF_WORD
      modifies `len, `tot, `data
      ensures refused <==> p == NULL || n > old(len)[p]
      ensures refused ==> len == old(len) && tot == old(tot) && data == old(data)
      ensures !refused ==>
        len == Less(old(len), p, n) && tot == Less(old(tot), p, n) && data == old(data)[p := old(data)[p][n..]]
    {
      if p == NULL || n > 0xFFFF {
        return true;
      }
      if n == 0 {
        NothingLess(len, p);
        NothingLess(tot, p);
        assert data[p][0..] == data[p];
        assert data == data[p := data[p][0..]];
        return false;
      }
      if n > len[p] {
        return true;
      }
      data := data[p := data[p][n..]];
      len := len[p := len[p] - n];
      tot := tot[p := tot[p] - n];
      return false;
    }

    /** `pbuf_free_header`: the whole pbufs that the first `size` bytes cover are dropped, and
        the bytes left over are taken off the next one. */
    method FreeHeader(q: Id, size: nat, ghost c: seq<Id>) returns (p: Id)
      requires Frontable(All(), c) && q == AtHead(c)
      modifies `next, `ref, `held, `len, `tot, `data
      ensures All() == HeaderFreed(old(All()), c, size)
      ensures p == AtHead(c[Drops(old(len), c, size).0..])
    {
      HeadlessRest(View(), len, c, size);
      ghost var after := HeaderFreed(All(), c, size);
      var left;
      ghost var rest;
      p, left, rest := DropHeads(q, size, c);
      if left != 0 && p != NULL {
        var _ := RemoveHeader(p, left);
      }
      assert All() == after;
    }

    // ---- Contents -----------------------------------------------------------------------------

    /** `pbuf_skip`: the pbuf that holds the byte at an offset, and its place there; NULL exactly
        if there is no such byte. */
    method Skip(p: Id, offset: nat, ghost c: seq<Id>) returns (q: Id, left: nat, ghost i: nat)
      requires Path(next, p, c) && Covers(data, c)
      ensures i <= |c| && q == At(c, i) && |Bytes(data, c[..i])| + left == offset
      ensures q == NULL <==> i == |c|
      ensures q == NULL <==> |Bytes(data, c)| <= offset
      ensures i < |c| ==> left < |data[c[i]]|
    {
      q, left, i := p, offset, 0;
      WholeChain(data, c);
      PathAt(next, p, c, 0);
      while q != NULL && |data[q]| <= left
        invariant i <= |c| && q == At(c, i) && (q == NULL <==> i == |c|)
        invariant |Bytes(data, c[..i])| + left == offset
        decreases |c| - i
      {
        BytesAt(data, c, i);
        PathAt(next, p, c, i);
        PathAt(next, p, c, i + 1);
        left, i := left - |data[q]|, i + 1;
        q := next[q];
      }
      if i < |c| {
        BytesAt(data, c, i);
      }
    }

    /** `pbuf_try_get_at`: the byte at an offset, or none. */
    method GetAt(p: Id, offset: nat, ghost c: seq<Id>) returns (found: bool, b: byte)
      requires Path(next, p, c) && Covers(data, c)
      ensures found <==> offset < |Bytes(data, c)|
      ensures found ==> b == Bytes(data, c)[offset]
    {
      var q, left;
      ghost var i;
      q, left, i := Skip(p, offset, c);
      if q != NULL && |data[q]| > left {
        BytesAt(data, c, i);
        return true, data[q][left];
      }
      return false, 0;
    }

    /** `pbuf_copy_partial`: the bytes from an offset on, as many as there are but at most n. */
    method CopyPartial(p: Id, a: array<byte>, n: nat, offset: nat, ghost c: seq<Id>) returns (copied: nat)
      requires Path(next, p, c) && Covers(data, c) && n <= a.Length
      modifies a
      ensures copied == if |Bytes(data, c)| <= offset then 0
                        else if |Bytes(data, c)| - offset < n then |Bytes(data, c)| - offset else n
      ensures copied > 0 ==> a[..copied] == Bytes(data, c)[offset..offset + copied]
      ensures a[copied..] == old(a[copied..])
    {
      copied := 0;
      var cur, len: nat, off: nat := p, n, offset;
      ghost var i, all := 0, Bytes(data, c);
      WholeChain(data, c);
      PathAt(next, p, c, 0);
      while len != 0 && cur != NULL
        invariant i <= |c| && cur == At(c, i) && (cur == NULL <==> i == |c|)
        invariant copied + len == n && (off > 0 ==> copied == 0)
        invariant len != 0 ==> |Bytes(data, c[..i])| + off == offset + copied
        invariant Copied(a[..], old(a[..]), all, offset, copied)
        decreases |c| - i
      {
        Onwards(next, data, p, c, i);
        copied, len, off :=
          CopyOrSkip(a, copied, data[cur], off, len, old(a[..]), all, offset, Bytes(data, c[..i]), Bytes(data, c[i + 1..]));
        cur, i := next[cur], i + 1;
      }
    }

    /** One round of `pbuf_take`: as many of the bytes left as the pbuf holds. */
    method FillOne(cur: Id, src: seq<byte>, copied: nat, ghost before: Payloads, ghost p: Id, ghost c: seq<Id>, ghost i: nat)
      returns (total: nat)
      requires Path(next, p, c) && i < |c| && cur == c[i] && Filled(before, data, c, src, copied)
      requires |Bytes(data, c[..i])| == copied
      modifies `data
      ensures total == if |src| - copied > |old(data)[cur]| then copied + |old(data)[cur]| else |src|
      ensures Filled(before, data, c, src, total) && |Bytes(data, c[..i + 1])| == copied + |old(data)[cur]|
    {
      var m := |src| - copied;
      if m > |data[cur]| {
        m := |data[cur]|;
      }
      total := copied + m;
      FillRound(before, data, next, p, c, i, 0, src, copied, m);
      ghost var after := data[cur := Put(data[cur], 0, src[copied..copied + m])];
      assert Filled(before, after, c, src, total);
      data := data[cur := Put(data[cur], 0, src[copied..copied + m])];
      assert data == after;
    }

    /** The loop of `pbuf_take`. */
    method Fill(p: Id, src: seq<byte>, ghost c: seq<Id>)
      requires Path(next, p, c) && Covers(data, c) && |src| <= |Bytes(data, c)|
      modifies `data
      ensures Filled(old(data), data, c, src, |src|)
    {
      var cur, copied: nat := p, 0;
      ghost var i, before := 0, data;
      FillStarts(data, c, src);
      PathAt(next, p, c, 0);
      while |src| - copied != 0
        invariant i <= |c| && Filled(before, data, c, src, copied)
        invariant copied < |src| ==> |Bytes(data, c[..i])| == copied && cur == At(c, i)
        decreases |c| - i
      {
        NotAtEnd(before, data, c, src, i, copied);
        PathAt(next, p, c, i);
        copied := FillOne(cur, src, copied, before, p, c, i);
        cur, i := next[cur], i + 1;
      }
    }

    /** `pbuf_take`: the bytes go to the front of the chain, if it is long enough. */
    method Take(p: Id, src: seq<byte>, ghost c: seq<Id>) returns (r: Err)
      requires Path(next, p, c) && Covers(data, c) && Measures(tot, data, c)
      modifies `data
      ensures r == if p == NULL then Arg else if |old(Bytes(data, c))| < |src| then Mem else Ok
      ensures r != Ok ==> data == old(data)
      ensures r == Ok ==> Placed(old(data), data, c, 0, src)
    {
      if p == NULL {
        return Arg;
      }
      if tot[p] < |src| {
        return Mem;
      }
      Fill(p, src, c);
      assert src[..|src|] == src;
      return Ok;
    }

    /** The part of the bytes that goes into pbuf i. */
    method PutFirst(q: Id, left: nat, src: seq<byte>, ghost p: Id, ghost c: seq<Id>, ghost i: nat) returns (first: nat)
      requires Path(next, p, c) && Covers(data, c) && i < |c| && q == c[i] && left < |data[q]|
      modifies `data
      ensures first == if |old(data)[q]| - left > |src| then |src| else |old(data)[q]| - left
      ensures data == old(data)[q := Put(old(data)[q], left, src[..first])]
      ensures Placed(old(data), data, c, |Bytes(old(data), c[..i])| + left, src[..first])
      ensures Bytes(data, c[i + 1..]) == Bytes(old(data), c[i + 1..])
    {
      first := |data[q]| - left;
      if first > |src| {
        first := |src|;
      }
      FirstTaken(data, next, p, c, i, left, src[..first]);
      data := data[q := Put(data[q], left, src[..first])];
    }

    /** The writes of `pbuf_take_at`, from a place in pbuf i on. */
    method PutFrom(q: Id, left: nat, src: seq<byte>, ghost p: Id, ghost c: seq<Id>, ghost i: nat)
      requires Path(next, p, c) && Covers(data, c) && Measures(tot, data, c) && i < |c| && q == c[i]
      requires left < |data[q]| && left + |src| <= |data[q]| + |Bytes(data, c[i + 1..])|
      modifies `data
      ensures Placed(old(data), data, c, |Bytes(old(data), c[..i])| + left, src)
    {
      PathFromNext(next, p, c, i);
      MeasuresAt(tot, data, c, i);
      ghost var before := data;
      var first := PutFirst(q, left, src, p, c, i);
      if |src| - first > 0 {
        PutRest(q, left, src, first, before, p, c, i);
      } else {
        assert src[..first] == src;
      }
    }

    /** The bytes that do not fit into pbuf i go to the front of the chain behind it. */
    method PutRest(q: Id, left: nat, src: seq<byte>, first: nat, ghost before: Payloads, ghost p: Id, ghost c: seq<Id>, ghost i: nat)
      requires Path(next, p, c) && i < |c| && q == c[i] && q in next && Path(next, next[q], c[i + 1..])
      requires Covers(before, c) && Measures(tot, before, c[i + 1..]) && Writes(before, data, c) && Covers(data, c)
      requires first < |src| && left + first == |before[q]| && left + |src| <= |before[q]| + |Bytes(before, c[i + 1..])|
      requires data == before[q := Put(before[q], left, src[..first])] && Bytes(data, c[i + 1..]) == Bytes(before, c[i + 1..])
      modifies `data
      ensures Placed(before, data, c, |Bytes(before, c[..i])| + left, src)
    {
      ghost var now := data;
      WritesMeasure(tot, before, now, c, c[i + 1..]);
      var _ := Take(next[q], src[first..], c[i + 1..]);
      RestTaken(before, now, data, next, p, c, i, left, src, first);
    }

    /** `pbuf_take_at`: the bytes go to an offset, if that and the end of the bytes lie inside
        the chain. */
    method TakeAt(p: Id, src: seq<byte>, offset: nat, ghost c: seq<Id>) returns (r: Err)
      requires Path(next, p, c) && Covers(data, c) && Measures(tot, data, c)
      modifies `data
      ensures r == if offset < |old(Bytes(data, c))| && offset + |src| <= |old(Bytes(data, c))| then Ok else Mem
      ensures r != Ok ==> data == old(data)
      ensures r == Ok ==> Placed(old(data), data, c, offset, src)
    {
      var q, left;
      ghost var i;
      q, left, i := Skip(p, offset, c);
      if q == NULL {
        return Mem;
      }
      BytesAt(data, c, i);
      MeasuresAt(tot, data, c, i);
      if tot[q] < left + |src| {
        return Mem;
      }
      PutFrom(q, left, src, p, c, i);
      return Ok;
    }

    /** Bytes that `pbuf_take_at` has written are what `pbuf_copy_partial` reads at the same offset, for
        chains of any shape; the chain is as long as before and all its other bytes stay. */
    method WriteThenRead(p: Id, src: seq<byte>, offset: nat, a: array<byte>, ghost c: seq<Id>) returns (r: Err, copied: nat)
      requires Path(next, p, c) && Covers(data, c) && Measures(tot, data, c) && a.Length == |src|
      modifies `data, a
      ensures r == if offset < |old(Bytes(data, c))| && offset + |src| <= |old(Bytes(data, c))| then Ok else Mem
      ensures r != Ok ==> data == old(data) && copied == 0 && a[..] == old(a[..])
      ensures r == Ok ==> copied == |src| && a[..] == src
      ensures Covers(data, c) && |Bytes(data, c)| == |old(Bytes(data, c))|
      ensures r == Ok ==> Bytes(data, c)[..offset] == old(Bytes(data, c))[..offset]
      ensures r == Ok ==> Bytes(data, c)[offset + |src|..] == old(Bytes(data, c))[offset + |src|..]
    {
      copied := 0;
      r := TakeAt(p, src, offset, c);
      if r == Ok {
        copied := CopyPartial(p, a, |src|, offset, c);
        assert a[..] == a[..copied];
      }
    }

    /** The loop of `pbuf_memcmp`: 0 if the bytes from `start` on are equal, and one more than the
        place of the first difference if not. */
    method Compare(q: Id, start: nat, other: seq<byte>, ghost c: seq<Id>) returns (r: nat)
      requires Path(next, q, c) && Covers(data, c) && start + |other| <= |Bytes(data, c)|
      ensures Tells(Bytes(data, c), other, start, r)
    {
      r := 0;
      var k := 0;
      while k < |other|
        invariant k <= |other| && Agree(Bytes(data, c), other, start, k)
      {
        var _, a := GetAt(q, start + k, c);
        if a != other[k] {
          return k + 1;
        }
        k := k + 1;
      }
    }

    /** `pbuf_memcmp`: 0xFFFF if the chain is too short; otherwise where the bytes differ. */
    method MemCmp(p: Id, offset: nat, other: seq<byte>, ghost c: seq<Id>) returns (r: nat)
      requires Path(next, p, c) && p != NULL && Covers(data, c) && Measures(tot, data, c)
      ensures if |Bytes(data, c)| < offset + |other| then r == 0xFFFF else Tells(Bytes(data, c), other, offset, r)
    {
      if tot[p] < offset + |other| {
        return 0xFFFF;
      }
      var q, start;
      ghost var i;
      q, start, i := Skip(p, offset, c);
      RestFrom(next, data, p, c, i);
      r := Compare(q, start, other, c[i..]);
      TellsBehind(Bytes(data, c), Bytes(data, c[..i]), Bytes(data, c[i..]), other, offset, start, r);
    }

    /** `pbuf_memfind`: the first place from `start` on where the bytes occur, or 0xFFFF. */
    method MemFind(p: Id, mem: seq<byte>, start: nat, ghost c: seq<Id>) returns (r: nat)
      requires Path(next, p, c) && p != NULL && Covers(data, c) && Measures(tot, data, c)
      requires |Bytes(data, c)| < 0xFFFF
      ensures r != 0xFFFF ==> start <= r && Occurs(Bytes(data, c), mem, r)
      ensures forall i :: start <= i && (r == 0xFFFF || i < r) ==> !Occurs(Bytes(data, c), mem, i)
    {
      if tot[p] >= |mem| + start {
        var i := start;
        while i <= tot[p] - |mem|
          invariant start <= i <= tot[p] - |mem| + 1
          invariant forall k :: start <= k < i ==> !Occurs(Bytes(data, c), mem, k)
        {
          var plus := MemCmp(p, i, mem, c);
          if plus == 0 {
            return i;
          }
          i := i + 1;
        }
      }
      return 0xFFFF;
    }
  }
}
