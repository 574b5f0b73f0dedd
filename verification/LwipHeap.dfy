/** The lwIP heap (common/lwip/core/mem.c): blocks laid end to end in `ram`, each
    behind a header, first fit from the lowest free block, free neighbours merged.
    This module is the heap as a list of blocks; `LwipMem` is the code on the
    headers in memory. */
module LwipHeap {

  /** SIZEOF_STRUCT_MEM, MIN_SIZE_ALIGNED, MEM_SIZE_ALIGNED and MEM_ALIGNMENT of
      this build. */
  const HEADER: nat := 8
  const MIN_SIZE: nat := 12
  const END: nat := 25600
  const ALIGN: nat := 4

  /** A block starts with its header at offset `at` and reaches to the next block
      or to the end of the heap. */
  datatype Block = Block(at: nat, used: bool)

  type Blocks = seq<Block>

  /** The `next` index of block i. */
  function Next(bs: Blocks, i: nat): nat
    requires i < |bs|
  {
    if i + 1 < |bs| then bs[i + 1].at else END
  }

  /** The bytes behind the header. */
  function Room(bs: Blocks, i: nat): int
    requires i < |bs|
  {
    Next(bs, i) - (bs[i].at + HEADER)
  }

  predicate Aligned(x: nat) { x % ALIGN == 0 }

  lemma {:induction false} AlignedSum(x: nat, size: nat)
    requires Aligned(x) && Aligned(size)
    ensures Aligned(x + HEADER + size)
  {
  }

  // ---- The invariant: what mem_sanity checks, and more ----------------------------------

  function Start(bs: Blocks, to: nat): nat {
    if bs == [] then to else bs[0].at
  }

  /** The blocks tile the heap between two offsets, and every block is aligned and
      can hold the minimum size. */
  ghost predicate Tiled(bs: Blocks, from: nat, to: nat) {
    if bs == [] then from == to
    else
      && bs[0].at == from && Aligned(from) && from + HEADER + MIN_SIZE <= Start(bs[1..], to)
      && Tiled(bs[1..], Start(bs[1..], to), to)
  }

  /** No two adjacent blocks are unused; `before` tells of the one in front. */
  ghost predicate Merged(bs: Blocks, before: bool) {
    bs == [] || ((before || bs[0].used) && Merged(bs[1..], bs[0].used))
  }

  /** The lowest unused block, or `none`. */
  function FirstFree(bs: Blocks, none: nat): nat {
    if bs == [] then none else if !bs[0].used then bs[0].at else FirstFree(bs[1..], none)
  }

  /** The heap between calls; `lfree` is its lowest unused block, or its end. */
  ghost predicate Sane(bs: Blocks, lfree: nat) {
    bs != [] && Tiled(bs, 0, END) && Merged(bs, true) && lfree == FirstFree(bs, END)
  }

  lemma {:induction false} TiledConcat(a: Blocks, b: Blocks, from: nat, to: nat)
    ensures Tiled(a + b, from, to) <==> Tiled(a, from, Start(b, to)) && Tiled(b, Start(b, to), to)
  {
    if a == [] {
      assert a + b == b;
      if b == [] {} else {}
    } else {
      assert (a + b)[1..] == a[1..] + b;
      TiledConcat(a[1..], b, Start(a[1..] + b, to), to);
    }
  }

  function LastUsed(a: Blocks, before: bool): bool {
    if a == [] then before else a[|a| - 1].used
  }

  lemma {:induction false} MergedConcat(a: Blocks, b: Blocks, before: bool)
    ensures Merged(a + b, before) <==> Merged(a, before) && Merged(b, LastUsed(a, before))
  {
    if a == [] {
      assert a + b == b;
    } else {
      assert (a + b)[1..] == a[1..] + b;
      MergedConcat(a[1..], b, a[0].used);
    }
  }

  lemma {:induction false} FirstFreeConcat(a: Blocks, b: Blocks, none: nat)
    ensures FirstFree(a + b, none) == FirstFree(a, FirstFree(b, none))
  {
    if a == [] {
      assert a + b == b;
    } else {
      assert (a + b)[1..] == a[1..] + b;
      FirstFreeConcat(a[1..], b, none);
    }
  }

  // ---- Allocation -------------------------------------------------------------------------

  predicate Fits(bs: Blocks, i: nat, size: nat)
    requires i < |bs|
  {
    !bs[i].used && Room(bs, i) >= size
  }

  /** The lowest block that fits, or |bs|. */
  function FirstFit(bs: Blocks, size: nat, i: nat): (k: nat)
    requires i <= |bs|
    ensures i <= k <= |bs|
    ensures k < |bs| ==> Fits(bs, k, size)
    ensures forall j :: i <= j < k ==> !Fits(bs, j, size)
    decreases |bs| - i
  {
    if i == |bs| then i else if Fits(bs, i, size) then i else FirstFit(bs, size, i + 1)
  }

  /** What follows block `b` once it is taken: what is left, if it can hold a header
      and the minimum size, and the successors. */
  function Remainder(b: Block, post: Blocks, size: nat): Blocks {
    if b.at + HEADER + size + HEADER + MIN_SIZE <= Start(post, END)
    then [Block(b.at + HEADER + size, false)] + post
    else post
  }

  /** Block k is taken for `size` bytes. */
  function Taken(bs: Blocks, k: nat, size: nat): Blocks
    requires k < |bs|
  {
    bs[..k] + ([Block(bs[k].at, true)] + Remainder(bs[k], bs[k + 1..], size))
  }

  // ---- Release ------------------------------------------------------------------------------

  /** `plug_holes`, forward: block k swallows an unused successor. */
  function PlugForward(bs: Blocks, k: nat): Blocks
    requires k < |bs|
  {
    if k + 1 < |bs| && !bs[k + 1].used then bs[..k + 1] + bs[k + 2..] else bs
  }

  /** Backward: an unused predecessor swallows block k. */
  function PlugBackward(bs: Blocks, k: nat): Blocks
    requires k < |bs|
  {
    if 0 < k && !bs[k - 1].used then bs[..k] + bs[k + 1..] else bs
  }

  function Released(bs: Blocks, k: nat): Blocks
    requires k < |bs|
  {
    PlugBackward(PlugForward(bs[k := Block(bs[k].at, false)], k), k)
  }

  // ---- Shrinking -----------------------------------------------------------------------------

  /** What follows block `b` once it is trimmed: an unused successor grows towards
      it, otherwise the rest becomes a block of its own if it is large enough. */
  function TrimmedRest(b: Block, post: Blocks, size: nat): Blocks {
    var cut := b.at + HEADER + size;
    if cut == Start(post, END) then post
    else if post != [] && !post[0].used then [Block(cut, false)] + post[1..]
    else if cut + HEADER + MIN_SIZE <= Start(post, END) then [Block(cut, false)] + post
    else post
  }

  /** `mem_trim` of block k to `size` bytes. */
  function Trimmed(bs: Blocks, k: nat, size: nat): Blocks
    requires k < |bs| && size <= Room(bs, k)
  {
    bs[..k] + ([bs[k]] + TrimmedRest(bs[k], bs[k + 1..], size))
  }

  // ---- What each keeps -------------------------------------------------------------------------

  /** The blocks in front of block k and behind it. */
  lemma {:induction false} SplitAt(bs: Blocks, k: nat, to: nat)
    requires k < |bs| && Tiled(bs, 0, to) && Merged(bs, true)
    ensures bs == bs[..k] + [bs[k]] + bs[k + 1..] == bs[..k] + ([bs[k]] + bs[k + 1..])
    ensures Tiled(bs[..k], 0, bs[k].at) && Tiled(bs[k + 1..], Start(bs[k + 1..], to), to)
    ensures Aligned(bs[k].at) && bs[k].at + HEADER + MIN_SIZE <= Start(bs[k + 1..], to)
    ensures Merged(bs[..k], true) && (LastUsed(bs[..k], true) || bs[k].used) && Merged(bs[k + 1..], bs[k].used)
    ensures FirstFree(bs, END) == FirstFree(bs[..k], FirstFree([bs[k]] + bs[k + 1..], END))
  {
    var pre, rest := bs[..k], [bs[k]] + bs[k + 1..];
    assert bs == pre + rest && rest[1..] == bs[k + 1..];
    TiledConcat(pre, rest, 0, to);
    MergedConcat(pre, rest, true);
    FirstFreeConcat(pre, rest, END);
  }

  lemma {:induction false} Join(pre: Blocks, mid: Blocks)
    requires mid != [] && Tiled(pre, 0, mid[0].at) && Tiled(mid, mid[0].at, END)
    requires Merged(pre, true) && Merged(mid, LastUsed(pre, true))
    ensures Tiled(pre + mid, 0, END) && Merged(pre + mid, true)
    ensures FirstFree(pre + mid, END) == FirstFree(pre, FirstFree(mid, END))
  {
    TiledConcat(pre, mid, 0, END);
    MergedConcat(pre, mid, true);
    FirstFreeConcat(pre, mid, END);
  }

  /** A block in front of a tiled rest. */
  lemma {:induction false} Cons(b: Block, post: Blocks, before: bool)
    requires Tiled(post, Start(post, END), END) && Aligned(b.at) && b.at + HEADER + MIN_SIZE <= Start(post, END)
    requires (before || b.used) && Merged(post, b.used)
    ensures Tiled([b] + post, b.at, END) && Merged([b] + post, before)
    ensures FirstFree([b] + post, END) == if b.used then FirstFree(post, END) else b.at
  {
    assert ([b] + post)[1..] == post;
  }

  lemma {:induction false} RemainderSane(b: Block, post: Blocks, size: nat, before: bool)
    requires Tiled(post, Start(post, END), END) && Aligned(b.at) && b.at + HEADER + MIN_SIZE <= Start(post, END)
    requires Merged(post, false) && size >= MIN_SIZE && Aligned(size)
    ensures var mid := [Block(b.at, true)] + Remainder(b, post, size); Tiled(mid, b.at, END) && Merged(mid, before)
  {
    if b.at + HEADER + size + HEADER + MIN_SIZE <= Start(post, END) {
      var cut := Block(b.at + HEADER + size, false);
      AlignedSum(b.at, size);
      Cons(cut, post, true);
      Cons(Block(b.at, true), [cut] + post, before);
    } else {
      MergedMore(post);
      Cons(Block(b.at, true), post, before);
    }
  }

  lemma {:induction false} MergedMore(post: Blocks)
    requires Merged(post, false)
    ensures Merged(post, true)
  {
  }

  /** An allocation keeps the heap sane, and leaves the lowest free block where it
      was unless it was the one taken. */
  lemma {:induction false} TakenSane(bs: Blocks, k: nat, size: nat)
    requires Sane(bs, FirstFree(bs, END)) && k < |bs| && !bs[k].used && size >= MIN_SIZE && Aligned(size)
    ensures Sane(Taken(bs, k, size), FirstFree(Taken(bs, k, size), END))
    ensures FirstFree(bs, END) != bs[k].at ==> FirstFree(Taken(bs, k, size), END) == FirstFree(bs, END)
  {
    var b, pre, post := bs[k], bs[..k], bs[k + 1..];
    SplitAt(bs, k, END);
    var mid := [Block(b.at, true)] + Remainder(b, post, size);
    RemainderSane(b, post, size, LastUsed(pre, true));
    Join(pre, mid);
    FirstFreeBefore(pre, b.at, 0, FirstFree([b] + post, END), FirstFree(mid, END));
  }

  /** The lowest free block of a tiled part lies inside it. */
  lemma {:induction false} FirstFreeBefore(pre: Blocks, to: nat, from: nat, x: nat, y: nat)
    requires Tiled(pre, from, to)
    ensures from <= to
    ensures FirstFree(pre, x) == FirstFree(pre, y) < to || (FirstFree(pre, x) == x && FirstFree(pre, y) == y)
  {
    if pre != [] {
      FirstFreeBefore(pre[1..], to, Start(pre[1..], to), x, y);
    }
  }

  /** The successors of a released block: an unused first one is swallowed. */
  function Back(post: Blocks): Blocks {
    if post != [] && !post[0].used then post[1..] else post
  }

  lemma {:induction false} ForwardTail(bs: Blocks, k: nat)
    requires k < |bs|
    ensures PlugForward(bs, k) == bs[..k] + ([bs[k]] + Back(bs[k + 1..]))
  {
    if k + 1 < |bs| && !bs[k + 1].used {
      assert bs[k + 1..][1..] == bs[k + 2..];
      assert bs[..k + 1] == bs[..k] + [bs[k]];
    } else {
      Around(bs, k);
    }
  }

  lemma {:induction false} Around(bs: Blocks, k: nat)
    requires k < |bs|
    ensures bs == bs[..k] + ([bs[k]] + bs[k + 1..])
  {
  }

  lemma {:induction false} BackwardTail(pre: Blocks, b: Block, tail: Blocks)
    ensures var bs := pre + ([b] + tail);
            |pre| < |bs| && PlugBackward(bs, |pre|) == if LastUsed(pre, true) then bs else pre + tail
  {
    Parts(pre, b, tail);
  }

  lemma {:induction false} Parts(pre: Blocks, b: Block, post: Blocks)
    ensures var bs := pre + ([b] + post);
            && |pre| < |bs| && bs[..|pre|] == pre && bs[|pre|] == b && bs[|pre| + 1..] == post
            && (pre != [] ==> bs[|pre| - 1] == pre[|pre| - 1])
  {
  }

  /** The block in front of the successors, unused: the released block, or its
      unused predecessor. */
  lemma {:induction false} ReleasedTail(bs: Blocks, k: nat)
    requires k < |bs|
    ensures var back := Back(bs[k + 1..]);
            && (0 < k && !bs[k - 1].used ==> Released(bs, k) == bs[..k - 1] + ([bs[k - 1]] + back))
            && (0 == k || bs[k - 1].used ==> Released(bs, k) == bs[..k] + ([Block(bs[k].at, false)] + back))
  {
    var free, back := bs[k := Block(bs[k].at, false)], Back(bs[k + 1..]);
    assert free[..k] == bs[..k] && free[k + 1..] == bs[k + 1..];
    ForwardTail(free, k);
    BackwardTail(bs[..k], free[k], back);
    if 0 < k && !bs[k - 1].used {
      assert bs[..k] == bs[..k - 1] + [bs[k - 1]];
      assert bs[..k] + back == bs[..k - 1] + ([bs[k - 1]] + back);
    }
  }

  lemma {:induction false} BackSane(post: Blocks, used: bool)
    requires Tiled(post, Start(post, END), END) && Merged(post, used) && (post == [] || used || post[0].used)
    ensures Tiled(Back(post), Start(Back(post), END), END) && Merged(Back(post), false)
    ensures Start(post, END) <= Start(Back(post), END)
  {
  }

  /** A release keeps the heap sane, and the lowest free block is then the lower
      one of the released block and the one it was before. */
  lemma {:induction false} ReleasedSane(bs: Blocks, k: nat)
    requires Sane(bs, FirstFree(bs, END)) && k < |bs| && bs[k].used
    ensures Sane(Released(bs, k), FirstFree(Released(bs, k), END))
    ensures FirstFree(Released(bs, k), END) == if bs[k].at < FirstFree(bs, END) then bs[k].at else FirstFree(bs, END)
  {
    var b, pre, post := bs[k], bs[..k], bs[k + 1..];
    SplitAt(bs, k, END);
    ReleasedTail(bs, k);
    BackSane(post, true);
    var back := Back(post);
    if 0 < k && !bs[k - 1].used {
      var p, front := bs[k - 1], bs[..k - 1];
      SplitAt(bs, k - 1, END);
      assert bs[k - 1 + 1..] == [b] + post;
      Cons(p, back, LastUsed(front, true));
      Join(front, [p] + back);
      FirstFreeBefore(front, p.at, 0, FirstFree([p] + ([b] + post), END), p.at);
    } else {
      var free := Block(b.at, false);
      Cons(free, back, LastUsed(pre, true));
      Join(pre, [free] + back);
      FirstFreeBefore(pre, b.at, 0, FirstFree([b] + post, END), b.at);
      FirstFreeFrom(post, Start(post, END));
    }
  }

  lemma {:induction false} FirstFreeFrom(bs: Blocks, from: nat)
    requires Tiled(bs, from, END)
    ensures from <= FirstFree(bs, END) <= END
  {
    if bs != [] {
      FirstFreeFrom(bs[1..], Start(bs[1..], END));
    }
  }

  /** Releasing a used block between merged neighbours that are in use in front,
      whatever it was split into. */
  lemma {:induction false} ReleasedBetween(pre: Blocks, b: Block, tail: Blocks)
    requires LastUsed(pre, true)
    ensures |pre| < |pre + ([b] + tail)|
    ensures Released(pre + ([b] + tail), |pre|) == pre + ([Block(b.at, false)] + Back(tail))
  {
    Parts(pre, b, tail);
    ReleasedTail(pre + ([b] + tail), |pre|);
  }

  lemma {:induction false} BackRemainder(b: Block, post: Blocks, size: nat)
    requires Merged(post, false)
    ensures Back(Remainder(b, post, size)) == post
  {
    assert ([Block(b.at + HEADER + size, false)] + post)[1..] == post;
  }

  /** Releasing a block right after it was allocated restores the heap exactly,
      whether the allocation split it or took it whole. */
  lemma {:induction false} ReleaseUndoesTake(bs: Blocks, k: nat, size: nat)
    requires Sane(bs, FirstFree(bs, END)) && k < |bs| && !bs[k].used
    ensures k < |Taken(bs, k, size)| && Released(Taken(bs, k, size), k) == bs
  {
    var b, pre, post := bs[k], bs[..k], bs[k + 1..];
    SplitAt(bs, k, END);
    ReleasedBetween(pre, Block(b.at, true), Remainder(b, post, size));
    BackRemainder(b, post, size);
  }

  /** `lfree` after the block at `b` was trimmed, by the rule of the code. */
  function TrimmedLowest(b: Block, post: Blocks, size: nat, lfree: nat): nat {
    var cut := b.at + HEADER + size;
    if cut == Start(post, END) then lfree
    else if post != [] && !post[0].used then (if lfree == post[0].at then cut else lfree)
    else if cut + HEADER + MIN_SIZE <= Start(post, END) then (if cut < lfree then cut else lfree)
    else lfree
  }

  /** Trimming to the size the block has changes nothing. */
  lemma {:induction false} TrimmedWhole(bs: Blocks, k: nat)
    requires k < |bs| && Room(bs, k) >= 0
    ensures Trimmed(bs, k, Room(bs, k)) == bs
  {
    assert Start(bs[k + 1..], END) == Next(bs, k);
    assert bs == bs[..k] + ([bs[k]] + bs[k + 1..]);
  }

  lemma {:induction false} TrimmedRestSane(b: Block, post: Blocks, size: nat)
    requires Tiled(post, Start(post, END), END) && Merged(post, true)
    requires Aligned(b.at) && Aligned(size) && size >= MIN_SIZE && b.at + HEADER + size <= Start(post, END)
    ensures var rest := TrimmedRest(b, post, size);
            && Tiled(rest, Start(rest, END), END) && Merged(rest, true)
            && b.at + HEADER + MIN_SIZE <= Start(rest, END)
            && FirstFree(rest, END) == TrimmedLowest(b, post, size, FirstFree(post, END))
  {
    var cut := Block(b.at + HEADER + size, false);
    AlignedSum(b.at, size);
    FirstFreeFrom(post, Start(post, END));
    if cut.at == Start(post, END) {
    } else if post != [] && !post[0].used {
      Cons(cut, post[1..], true);
    } else if cut.at + HEADER + MIN_SIZE <= Start(post, END) {
      Cons(cut, post, true);
    }
  }

  /** Trimming a used block keeps the heap sane, and the code's rule gives the
      lowest free block again. */
  lemma {:induction false} TrimmedSane(bs: Blocks, k: nat, size: nat)
    requires Sane(bs, FirstFree(bs, END)) && k < |bs| && bs[k].used && size >= MIN_SIZE && Aligned(size)
    requires size <= Room(bs, k)
    ensures Sane(Trimmed(bs, k, size), TrimmedLowest(bs[k], bs[k + 1..], size, FirstFree(bs, END)))
  {
    var b, pre, post := bs[k], bs[..k], bs[k + 1..];
    SplitAt(bs, k, END);
    assert Start(post, END) == Next(bs, k);
    TrimmedRestSane(b, post, size);
    var rest := TrimmedRest(b, post, size);
    Cons(b, post, LastUsed(pre, true));
    Cons(b, rest, LastUsed(pre, true));
    Join(pre, [b] + rest);
    FirstFreeBefore(pre, b.at, 0, FirstFree(post, END), FirstFree(rest, END));
  }

  // ---- What the caller holds -------------------------------------------------------------------

  /** There is a used block at offset `at` with room for n bytes. */
  ghost predicate Holds(bs: Blocks, at: nat, n: nat, to: nat) {
    bs != [] && ((bs[0] == Block(at, true) && at + HEADER + n <= Start(bs[1..], to)) || Holds(bs[1..], at, n, to))
  }

  lemma {:induction false} HoldsConcat(a: Blocks, b: Blocks, at: nat, n: nat, to: nat)
    ensures Holds(a + b, at, n, to) <==> Holds(a, at, n, Start(b, to)) || Holds(b, at, n, to)
  {
    if a == [] {
      assert a + b == b;
    } else {
      assert (a + b)[1..] == a[1..] + b;
      HoldsConcat(a[1..], b, at, n, to);
    }
  }

  lemma {:induction false} HoldsCons(b: Block, post: Blocks, at: nat, n: nat)
    ensures Holds([b] + post, at, n, END)
       <==> (b == Block(at, true) && at + HEADER + n <= Start(post, END)) || Holds(post, at, n, END)
  {
    assert ([b] + post)[1..] == post;
  }

  lemma {:induction false} HoldsInside(bs: Blocks, from: nat, to: nat, at: nat, n: nat)
    requires Tiled(bs, from, to) && Holds(bs, at, n, to)
    ensures from <= at && at + HEADER + n <= to && Aligned(at)
  {
    if bs[0] == Block(at, true) && at + HEADER + n <= Start(bs[1..], to) {
      FirstFreeBefore(bs[1..], to, Start(bs[1..], to), 0, 0);
    } else {
      HoldsInside(bs[1..], Start(bs[1..], to), to, at, n);
    }
  }

  /** Two held blocks do not overlap, headers included. */
  lemma {:induction false} HoldsDisjoint(bs: Blocks, from: nat, at: nat, n: nat, at': nat, n': nat)
    requires Tiled(bs, from, END) && Holds(bs, at, n, END) && Holds(bs, at', n', END) && at < at'
    ensures at + HEADER + n <= at'
  {
    HoldsInside(bs, from, END, at, n);
    var rest := bs[1..];
    if Holds(rest, at', n', END) {
      HoldsInside(rest, Start(rest, END), END, at', n');
      if Holds(rest, at, n, END) {
        HoldsDisjoint(rest, Start(rest, END), at, n, at', n');
      }
    }
  }

  lemma {:induction false} TakenNoMore(pre: Blocks, b: Block, post: Blocks, size: nat)
    requires Tiled(pre, 0, b.at) && Tiled(post, Start(post, END), END) && b.at < Start(post, END)
    ensures !Holds(pre + ([Block(b.at, true)] + Remainder(b, post, size)), b.at, size + HEADER + MIN_SIZE, END)
  {
    var n, rest := size + HEADER + MIN_SIZE, Remainder(b, post, size);
    HoldsConcat(pre, [Block(b.at, true)] + rest, b.at, n, END);
    HoldsCons(Block(b.at, true), rest, b.at, n);
    HoldsCons(Block(b.at + HEADER + size, false), post, b.at, n);
    HeldOnce(pre, b, post, b.at, n);
  }

  /** An allocation gives the caller the block taken and leaves every other held
      block alone. */
  lemma {:induction false} TakenHolds(bs: Blocks, k: nat, size: nat, at: nat, n: nat)
    requires Sane(bs, FirstFree(bs, END)) && k < |bs| && Fits(bs, k, size) && Aligned(size) && size >= MIN_SIZE
    ensures at != bs[k].at ==> (Holds(Taken(bs, k, size), at, n, END) <==> Holds(bs, at, n, END))
    ensures Holds(Taken(bs, k, size), bs[k].at, size, END)
    ensures !Holds(Taken(bs, k, size), bs[k].at, size + HEADER + MIN_SIZE, END)
  {
    var b, pre, post := bs[k], bs[..k], bs[k + 1..];
    SplitAt(bs, k, END);
    var rest := Remainder(b, post, size);
    TakenNoMore(pre, b, post, size);
    HoldsConcat(pre, [b] + post, at, n, END);
    HoldsCons(b, post, at, n);
    HoldsConcat(pre, [Block(b.at, true)] + rest, at, n, END);
    HoldsCons(Block(b.at, true), rest, at, n);
    HoldsCons(Block(b.at + HEADER + size, false), post, at, n);
    HoldsConcat(pre, [Block(b.at, true)] + rest, b.at, size, END);
    HoldsCons(Block(b.at, true), rest, b.at, size);
    assert Start(post, END) == Next(bs, k);
  }

  lemma {:induction false} BackHolds(post: Blocks, at: nat, n: nat)
    ensures Holds(Back(post), at, n, END) <==> Holds(post, at, n, END)
  {
  }

  /** A release takes exactly one held block away. */
  lemma {:induction false} ReleasedHolds(bs: Blocks, k: nat, at: nat, n: nat)
    requires Sane(bs, FirstFree(bs, END)) && k < |bs| && bs[k].used
    ensures Holds(Released(bs, k), at, n, END) <==> at != bs[k].at && Holds(bs, at, n, END)
  {
    var b, pre, post := bs[k], bs[..k], bs[k + 1..];
    SplitAt(bs, k, END);
    ReleasedTail(bs, k);
    BackHolds(post, at, n);
    HoldsConcat(pre, [b] + post, at, n, END);
    HoldsCons(b, post, at, n);
    HeldOnce(pre, b, post, at, n);
    if 0 < k && !bs[k - 1].used {
      UnusedHolds(bs[..k - 1], bs[k - 1], Back(post), at, n, b.at);
      assert pre == bs[..k - 1] + [bs[k - 1]];
    } else {
      HoldsConcat(pre, [Block(b.at, false)] + Back(post), at, n, END);
      HoldsCons(Block(b.at, false), Back(post), at, n);
    }
  }

  lemma {:induction false} UnusedHolds(front: Blocks, p: Block, back: Blocks, at: nat, n: nat, to: nat)
    requires !p.used
    ensures Holds(front + [p], at, n, to) <==> Holds(front, at, n, p.at)
    ensures Holds(front + ([p] + back), at, n, END) <==> Holds(front, at, n, p.at) || Holds(back, at, n, END)
  {
    HoldsConcat(front, [p], at, n, to);
    HoldsConcat(front, [p] + back, at, n, END);
    HoldsCons(p, back, at, n);
  }

  /** No other block lies where block `b` does. */
  lemma {:induction false} HeldOnce(pre: Blocks, b: Block, post: Blocks, at: nat, n: nat)
    requires Tiled(pre, 0, b.at) && Tiled(post, Start(post, END), END) && b.at < Start(post, END)
    ensures at == b.at ==> !Holds(pre, at, n, b.at) && !Holds(post, at, n, END)
  {
    if Holds(pre, at, n, b.at) {
      HoldsInside(pre, 0, b.at, at, n);
    }
    if Holds(post, at, n, END) {
      HoldsInside(post, Start(post, END), END, at, n);
    }
  }

  lemma {:induction false} TrimmedRestHolds(b: Block, post: Blocks, size: nat, at: nat, n: nat)
    ensures Holds(TrimmedRest(b, post, size), at, n, END) <==> Holds(post, at, n, END)
  {
    var cut := Block(b.at + HEADER + size, false);
    HoldsCons(cut, post, at, n);
    if post != [] {
      HoldsCons(cut, post[1..], at, n);
    }
  }

  /** Trimming leaves every other held block alone and keeps `size` bytes. */
  lemma {:induction false} TrimmedHolds(bs: Blocks, k: nat, size: nat, at: nat, n: nat)
    requires Sane(bs, FirstFree(bs, END)) && k < |bs| && bs[k].used && size <= Room(bs, k)
    requires Aligned(size) && size >= MIN_SIZE
    ensures at != bs[k].at ==> (Holds(Trimmed(bs, k, size), at, n, END) <==> Holds(bs, at, n, END))
    ensures Holds(Trimmed(bs, k, size), bs[k].at, size, END)
    ensures !Holds(Trimmed(bs, k, size), bs[k].at, size + HEADER + MIN_SIZE, END)
  {
    var b, pre, post := bs[k], bs[..k], bs[k + 1..];
    SplitAt(bs, k, END);
    assert Start(post, END) == Next(bs, k);
    var rest := TrimmedRest(b, post, size);
    HoldsConcat(pre, [b] + post, at, n, END);
    HoldsCons(b, post, at, n);
    HoldsConcat(pre, [b] + rest, at, n, END);
    HoldsCons(b, rest, at, n);
    TrimmedRestHolds(b, post, size, at, n);
    HoldsConcat(pre, [b] + rest, b.at, size, END);
    HoldsCons(b, rest, b.at, size);
    TrimmedNoMore(pre, b, post, size);
  }

  lemma {:induction false} TrimmedNoMore(pre: Blocks, b: Block, post: Blocks, size: nat)
    requires Tiled(pre, 0, b.at) && Tiled(post, Start(post, END), END) && b.at < Start(post, END)
    ensures !Holds(pre + ([b] + TrimmedRest(b, post, size)), b.at, size + HEADER + MIN_SIZE, END)
  {
    var n, rest := size + HEADER + MIN_SIZE, TrimmedRest(b, post, size);
    HoldsConcat(pre, [b] + rest, b.at, n, END);
    HoldsCons(b, rest, b.at, n);
    TrimmedRestHolds(b, post, size, b.at, n);
    HeldOnce(pre, b, post, b.at, n);
  }

  // ---- Sizes ----------------------------------------------------------------------------------

  /** LWIP_MEM_ALIGN_SIZE, cut down to the 16 bits of mem_size_t, and the minimum. */
  function Rounded(n: nat): nat {
    var size := (n + 3) / 4 * 4 % 65536;
    if size < MIN_SIZE then MIN_SIZE else size
  }

  /** The guard on a rounded size. */
  predicate TooLarge(n: nat) {
    Rounded(n) > END || Rounded(n) < n
  }

  /** A 16-bit size is refused exactly if it exceeds the heap, and one that is not
      becomes the least legal size that holds it. */
  lemma {:induction false} RoundedLeast(n: nat, other: nat)
    requires n < 65536
    ensures TooLarge(n) <==> n > END
    ensures !TooLarge(n) ==> Aligned(Rounded(n)) && MIN_SIZE <= Rounded(n) && n <= Rounded(n)
    ensures !TooLarge(n) && Aligned(other) && MIN_SIZE <= other && n <= other ==> Rounded(n) <= other
  {
    var q, r := (n + 3) / 4, (n + 3) % 4;
    assert n + 3 == 4 * q + r && 0 <= r < 4;
    if q * 4 < 65536 {
      assert q * 4 % 65536 == q * 4;
    } else {
      assert q == 16384;
    }
  }

  // ---- Runs -----------------------------------------------------------------------------------

  /** The index of the block at an offset, or |bs|. */
  function Index(bs: Blocks, at: nat): (k: nat)
    ensures k <= |bs| && (k < |bs| ==> bs[k].at == at)
  {
    if bs == [] || bs[0].at == at then 0 else 1 + Index(bs[1..], at)
  }

  lemma {:induction false} HoldsIndex(bs: Blocks, from: nat, at: nat, n: nat)
    requires Tiled(bs, from, END) && Holds(bs, at, n, END)
    ensures Index(bs, at) < |bs| && bs[Index(bs, at)].used && n <= Room(bs, Index(bs, at))
  {
    if bs[0] == Block(at, true) && at + HEADER + n <= Start(bs[1..], END) {
    } else {
      HoldsInside(bs[1..], Start(bs[1..], END), END, at, n);
      HoldsIndex(bs[1..], Start(bs[1..], END), at, n);
    }
  }

  /** The heap, and what its callers hold: the bytes asked for, by the offset of
      the block's header. */
  datatype State = State(blocks: Blocks, live: map<nat, nat>)

  datatype Op = Malloc(size: nat) | Free(at: nat) | Trim(at: nat, size: nat)

  /** Sizes are 16-bit; what is released or trimmed was allocated. */
  predicate Allowed(s: State, op: Op) {
    match op
    case Malloc(n) => n < 65536
    case Free(at) => at in s.live
    case Trim(at, n) => at in s.live && n < 65536
  }

  /** Every block held has the room asked for, and no other block is used. */
  ghost predicate Accounted(s: State) {
    && (forall at <- s.live :: Holds(s.blocks, at, s.live[at], END))
    && (forall at: nat, n: nat :: Holds(s.blocks, at, n, END) ==> at in s.live)
  }

  /** A block from which another one could be cut. */
  ghost predicate Wastes(bs: Blocks, at: nat, n: nat) {
    Holds(bs, at, Rounded(n) + HEADER + MIN_SIZE, END)
  }

  /** No block held is larger than it needs to be. */
  ghost predicate Thrifty(s: State) {
    forall at <- s.live :: !Wastes(s.blocks, at, s.live[at])
  }

  ghost predicate Inv(s: State) {
    Sane(s.blocks, FirstFree(s.blocks, END)) && Accounted(s) && Thrifty(s)
  }

  /** `mem_init`. */
  function Initial(): (s: State)
    ensures Inv(s)
  {
    assert [Block(0, false)][1..] == [];
    State([Block(0, false)], map[])
  }

  /** `mem_malloc`: no block, or the lowest one that fits. */
  function Allocated(s: State, n: nat): State {
    if n == 0 || TooLarge(n) then s
    else
      var k := FirstFit(s.blocks, Rounded(n), 0);
      if k == |s.blocks| then s
      else State(Taken(s.blocks, k, Rounded(n)), s.live[s.blocks[k].at := n])
  }

  function Apply(s: State, op: Op): State {
    match op
    case Malloc(n) => Allocated(s, n)
    case Free(at) =>
      var k := Index(s.blocks, at);
      if k == |s.blocks| then s else State(Released(s.blocks, k), s.live - {at})
    case Trim(at, n) =>
      var k := Index(s.blocks, at);
      if k == |s.blocks| || TooLarge(n) || Rounded(n) > Room(s.blocks, k) then s
      else State(Trimmed(s.blocks, k, Rounded(n)), s.live[at := n])
  }

  lemma {:induction false} HoldsLess(bs: Blocks, at: nat, n: nat, m: nat)
    requires Holds(bs, at, m, END) && n <= m
    ensures Holds(bs, at, n, END)
  {
    if Holds(bs[1..], at, m, END) {
      HoldsLess(bs[1..], at, n, m);
    }
  }

  /** The blocks of s changed at one offset only; what is held there, if anything,
      is n bytes. */
  lemma {:induction false} AccountedAfter(s: State, blocks: Blocks, at: nat, n: nat)
    requires Accounted(s) && Holds(blocks, at, n, END)
    requires forall o: nat, m: nat :: o != at ==> (Holds(blocks, o, m, END) <==> Holds(s.blocks, o, m, END))
    ensures Accounted(State(blocks, s.live[at := n]))
    ensures Thrifty(s) && !Wastes(blocks, at, n) ==> Thrifty(State(blocks, s.live[at := n]))
  {
  }

  lemma {:induction false} MallocInv(s: State, n: nat)
    requires Inv(s) && n < 65536
    ensures Inv(Allocated(s, n))
  {
    var size := Rounded(n);
    RoundedLeast(n, 0);
    if n != 0 && !TooLarge(n) && FirstFit(s.blocks, size, 0) < |s.blocks| {
      var k := FirstFit(s.blocks, size, 0);
      TakenSane(s.blocks, k, size);
      var bs := Taken(s.blocks, k, size);
      TakenHolds(s.blocks, k, size, 0, 0);
      HoldsLess(bs, s.blocks[k].at, n, size);
      forall o: nat, m: nat | o != s.blocks[k].at ensures Holds(bs, o, m, END) <==> Holds(s.blocks, o, m, END) {
        TakenHolds(s.blocks, k, size, o, m);
      }
      AccountedAfter(s, bs, s.blocks[k].at, n);
    }
  }

  lemma {:induction false} FreeInv(s: State, at: nat)
    requires Inv(s) && at in s.live
    ensures Inv(Apply(s, Free(at)))
  {
    HoldsIndex(s.blocks, 0, at, s.live[at]);
    var k := Index(s.blocks, at);
    ReleasedSane(s.blocks, k);
    forall o: nat, m: nat ensures Holds(Released(s.blocks, k), o, m, END) <==> o != at && Holds(s.blocks, o, m, END) {
      ReleasedHolds(s.blocks, k, o, m);
    }
  }

  lemma {:induction false} TrimInv(s: State, at: nat, n: nat)
    requires Inv(s) && at in s.live && n < 65536
    ensures Inv(Apply(s, Trim(at, n)))
  {
    var size := Rounded(n);
    RoundedLeast(n, 0);
    HoldsIndex(s.blocks, 0, at, s.live[at]);
    var k := Index(s.blocks, at);
    if !TooLarge(n) && size <= Room(s.blocks, k) {
      TrimmedSane(s.blocks, k, size);
      var bs := Trimmed(s.blocks, k, size);
      TrimmedHolds(s.blocks, k, size, 0, 0);
      HoldsLess(bs, at, n, size);
      forall o: nat, m: nat | o != at ensures Holds(bs, o, m, END) <==> Holds(s.blocks, o, m, END) {
        TrimmedHolds(s.blocks, k, size, o, m);
      }
      AccountedAfter(s, bs, at, n);
    }
  }

  lemma {:induction false} ApplyInv(s: State, op: Op)
    requires Inv(s) && Allowed(s, op)
    ensures Inv(Apply(s, op))
  {
    match op
    case Malloc(n) => MallocInv(s, n);
    case Free(at) => FreeInv(s, at);
    case Trim(at, n) => TrimInv(s, at, n);
  }

  function Step(s: State, op: Op): (t: State)
    requires Inv(s) && Allowed(s, op)
    ensures Inv(t)
  {
    ApplyInv(s, op);
    Apply(s, op)
  }

  ghost predicate Feasible(s: State, run: seq<Op>)
    requires Inv(s)
    decreases |run|
  {
    run == [] || (Allowed(s, run[0]) && Feasible(Step(s, run[0]), run[1..]))
  }

  function Exec(s: State, run: seq<Op>): (t: State)
    requires Inv(s) && Feasible(s, run)
    ensures Inv(t)
    decreases |run|
  {
    if run == [] then s else Exec(Step(s, run[0]), run[1..])
  }

  /** In every run of the heap, what the callers hold is aligned, lies inside the
      heap, and never overlaps: neither the bytes asked for nor the headers. */
  lemma {:induction false} HeldNeverOverlaps(run: seq<Op>, at: nat, at': nat)
    requires Feasible(Initial(), run)
    requires at in Exec(Initial(), run).live && at' in Exec(Initial(), run).live && at < at'
    ensures var live := Exec(Initial(), run).live;
            Aligned(at) && at + HEADER + live[at] <= at' && at' + HEADER + live[at'] <= END
  {
    var s := Exec(Initial(), run);
    HoldsInside(s.blocks, 0, END, at, s.live[at]);
    HoldsInside(s.blocks, 0, END, at', s.live[at']);
    HoldsDisjoint(s.blocks, 0, at, s.live[at], at', s.live[at']);
  }

  /** In every run, what is left of a held block behind the bytes asked for, rounded, cannot hold a header
      and the minimum size. */
  lemma {:induction false} HeldNeverWastes(run: seq<Op>, at: nat)
    requires Feasible(Initial(), run) && at in Exec(Initial(), run).live
    ensures var s := Exec(Initial(), run);
            && Index(s.blocks, at) < |s.blocks|
            && s.live[at] <= Room(s.blocks, Index(s.blocks, at)) < Rounded(s.live[at]) + HEADER + MIN_SIZE
  {
    var s := Exec(Initial(), run);
    HoldsIndex(s.blocks, 0, at, s.live[at]);
    IndexHolds(s.blocks, Index(s.blocks, at), Rounded(s.live[at]) + HEADER + MIN_SIZE);
  }

  lemma {:induction false} IndexHolds(bs: Blocks, k: nat, n: nat)
    requires k < |bs| && bs[k].used
    ensures n <= Room(bs, k) ==> Holds(bs, bs[k].at, n, END)
  {
    if k > 0 {
      IndexHolds(bs[1..], k - 1, n);
    }
  }

  // ---- Free bytes ------------------------------------------------------------------------------

  /** The bytes behind the headers of the unused blocks. */
  function Unused(bs: Blocks, to: nat): int {
    if bs == [] then 0 else (if bs[0].used then 0 else Start(bs[1..], to) - bs[0].at - HEADER) + Unused(bs[1..], to)
  }

  lemma {:induction false} UnusedConcat(a: Blocks, b: Blocks, to: nat)
    ensures Unused(a + b, to) == Unused(a, Start(b, to)) + Unused(b, to)
  {
    if a == [] {
      assert a + b == b;
    } else {
      assert (a + b)[1..] == a[1..] + b;
      UnusedConcat(a[1..], b, to);
    }
  }

  lemma {:induction false} UnusedCons(b: Block, post: Blocks)
    ensures Unused([b] + post, END) == (if b.used then 0 else Start(post, END) - b.at - HEADER) + Unused(post, END)
  {
    assert ([b] + post)[1..] == post;
  }

  /** An allocation uses up the size and a header, or the whole block if what is left of it would be too
      small. */
  lemma {:induction false} TakenUses(bs: Blocks, k: nat, size: nat)
    requires k < |bs| && Fits(bs, k, size)
    ensures Unused(bs, END) - Unused(Taken(bs, k, size), END)
         == if Room(bs, k) < size + HEADER + MIN_SIZE then Room(bs, k) else size + HEADER
  {
    var b, pre, post := bs[k], bs[..k], bs[k + 1..];
    var rest := Remainder(b, post, size);
    assert bs == pre + ([b] + post) && Start(post, END) == Next(bs, k);
    UnusedConcat(pre, [b] + post, END);
    UnusedCons(b, post);
    UnusedConcat(pre, [Block(b.at, true)] + rest, END);
    UnusedCons(Block(b.at, true), rest);
    UnusedCons(Block(b.at + HEADER + size, false), post);
  }

  /** Trimming gives back what the block has beyond the size: all of it to an unused successor, all but a
      header otherwise, unless that is too small. */
  lemma {:induction false} TrimmedGives(bs: Blocks, k: nat, size: nat)
    requires k < |bs| && bs[k].used && size <= Room(bs, k)
    ensures Unused(Trimmed(bs, k, size), END) - Unused(bs, END)
         == if k + 1 < |bs| && !bs[k + 1].used then Room(bs, k) - size
            else if Room(bs, k) < size + HEADER + MIN_SIZE then 0
            else Room(bs, k) - size - HEADER
  {
    var b, pre, post := bs[k], bs[..k], bs[k + 1..];
    var rest, cut := TrimmedRest(b, post, size), Block(b.at + HEADER + size, false);
    assert bs == pre + ([b] + post) && Start(post, END) == Next(bs, k);
    UnusedConcat(pre, [b] + post, END);
    UnusedCons(b, post);
    UnusedConcat(pre, [b] + rest, END);
    UnusedCons(b, rest);
    UnusedCons(cut, post);
    if post != [] {
      UnusedCons(cut, post[1..]);
      assert post == [post[0]] + post[1..];
    }
  }

  lemma {:induction false} BackUnused(post: Blocks)
    ensures Unused(Back(post), END) + Start(Back(post), END)
         == Unused(post, END) + Start(post, END) + if post != [] && !post[0].used then HEADER else 0
  {
  }

  /** A release gives back the block, and a header for every unused neighbour. */
  lemma {:induction false} ReleasedGives(bs: Blocks, k: nat)
    requires k < |bs| && bs[k].used
    ensures Unused(Released(bs, k), END) - Unused(bs, END)
         == Room(bs, k) + (if k + 1 < |bs| && !bs[k + 1].used then HEADER else 0)
            + if 0 < k && !bs[k - 1].used then HEADER else 0
  {
    var b, pre, post := bs[k], bs[..k], bs[k + 1..];
    var back, free := Back(post), Block(b.at, false);
    assert bs == pre + ([b] + post) && Start(post, END) == Next(bs, k);
    ReleasedTail(bs, k);
    BackUnused(post);
    UnusedConcat(pre, [b] + post, END);
    UnusedCons(b, post);
    if 0 < k && !bs[k - 1].used {
      var front, p := bs[..k - 1], bs[k - 1];
      assert pre == front + [p];
      UnusedConcat(front, [p], b.at);
      UnusedConcat(front, [p] + back, END);
      UnusedCons(p, back);
    } else {
      UnusedConcat(pre, [free] + back, END);
      UnusedCons(free, back);
    }
  }

  /** An operation changes what is held at one offset only; a release ends exactly
      what it names. */
  lemma {:induction false} OthersStay(s: State, op: Op, at: nat)
    requires Inv(s) && Allowed(s, op) && at in s.live
    ensures op.Malloc? || op.at != at ==> at in Step(s, op).live && Step(s, op).live[at] == s.live[at]
    ensures op.Free? && op.at == at ==> at !in Step(s, op).live
  {
    HoldsIndex(s.blocks, 0, at, s.live[at]);
    if op.Malloc? && op.size != 0 && !TooLarge(op.size) {
      var k := FirstFit(s.blocks, Rounded(op.size), 0);
      if k < |s.blocks| && s.blocks[k].at == at {
        IndexAt(s.blocks, 0, k);
      }
    }
  }

  /** The blocks in use are those held. */
  lemma {:induction false} UsedIsHeld(s: State, k: nat)
    requires Inv(s) && k < |s.blocks|
    ensures s.blocks[k].used <==> s.blocks[k].at in s.live
  {
    var bs := s.blocks;
    if bs[k].used {
      SplitAt(bs, k, END);
      HoldsConcat(bs[..k], [bs[k]] + bs[k + 1..], bs[k].at, 0, END);
      HoldsCons(bs[k], bs[k + 1..], bs[k].at, 0);
    } else if bs[k].at in s.live {
      HoldsIndex(bs, 0, bs[k].at, s.live[bs[k].at]);
      IndexAt(bs, 0, k);
    }
  }

  lemma {:induction false} IndexAt(bs: Blocks, from: nat, k: nat)
    requires Tiled(bs, from, END) && k < |bs|
    ensures Index(bs, bs[k].at) == k && from <= bs[k].at
  {
    if k > 0 {
      IndexAt(bs[1..], Start(bs[1..], END), k - 1);
    }
  }

  /** Releasing what was just allocated restores the heap and what is held, exactly. */
  lemma {:induction false} FreeUndoesMalloc(s: State, n: nat, at: nat)
    requires Inv(s) && n < 65536 && at !in s.live && at in Step(s, Malloc(n)).live
    ensures Step(Step(s, Malloc(n)), Free(at)) == s
  {
    var k := FirstFit(s.blocks, Rounded(n), 0);
    var t := Step(s, Malloc(n));
    ReleaseUndoesTake(s.blocks, k, Rounded(n));
    assert t.blocks[k].at == at;
    IndexAt(t.blocks, 0, k);
    assert t.live - {at} == s.live;
  }
}
