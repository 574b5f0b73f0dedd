/** The heap of common/lwip/core/mem.c as the code keeps it: a header `struct mem`
    in front of every block, linked both ways by offsets into `ram`. The class is
    proved against the list of blocks in `LwipHeap`. */
module LwipMem {

  import opened LwipHeap

  /** `struct mem`. */
  datatype Mem = Mem(next: nat, prev: nat, used: bool)

  type Headers = map<nat, Mem>

  /** The headers describe the blocks: each links to the one behind and the one in
      front of it (the first one to itself). */
  ghost predicate Laid(hdr: Headers, bs: Blocks, prev: nat, to: nat) {
    bs == [] || (
      && bs[0].at in hdr && hdr[bs[0].at] == Mem(Start(bs[1..], to), prev, bs[0].used)
      && Laid(hdr, bs[1..], bs[0].at, to))
  }

  function LastAt(bs: Blocks, prev: nat): nat {
    if bs == [] then prev else bs[|bs| - 1].at
  }

  lemma {:induction false} LaidConcat(hdr: Headers, a: Blocks, b: Blocks, prev: nat, to: nat)
    ensures Laid(hdr, a + b, prev, to) <==> Laid(hdr, a, prev, Start(b, to)) && Laid(hdr, b, LastAt(a, prev), to)
  {
    if a == [] {
      assert a + b == b;
    } else {
      assert (a + b)[1..] == a[1..] + b;
      LaidConcat(hdr, a[1..], b, a[0].at, to);
    }
  }

  /** Between two offsets nothing is written. */
  ghost predicate Kept(hdr: Headers, hdr': Headers, from: nat, to: nat) {
    forall x <- hdr :: from <= x < to ==> x in hdr' && hdr'[x] == hdr[x]
  }

  lemma {:induction false} LaidKept(hdr: Headers, hdr': Headers, bs: Blocks, prev: nat, from: nat, to: nat)
    requires Laid(hdr, bs, prev, to) && Tiled(bs, from, to) && Kept(hdr, hdr', from, to)
    ensures Laid(hdr', bs, prev, to)
  {
    if bs != [] {
      FirstFreeBefore(bs[1..], to, Start(bs[1..], to), 0, 0);
      LaidKept(hdr, hdr', bs[1..], bs[0].at, Start(bs[1..], to), to);
    }
  }

  /** Only the `prev` link of the first header is written. */
  lemma {:induction false} LaidRelinked(hdr: Headers, hdr': Headers, bs: Blocks, prev: nat, prev': nat)
    requires Laid(hdr, bs, prev, END) && Tiled(bs, Start(bs, END), END)
    requires Kept(hdr, hdr', Start(bs, END) + 1, END)
    requires bs != [] ==> bs[0].at in hdr' && hdr'[bs[0].at] == hdr[bs[0].at].(prev := prev')
    ensures Laid(hdr', bs, prev', END)
  {
    if bs != [] {
      LaidKept(hdr, hdr', bs[1..], bs[0].at, Start(bs[1..], END), END);
    }
  }

  /** The header of block k. */
  lemma {:induction false} LaidAt(hdr: Headers, bs: Blocks, prev: nat, k: nat)
    requires Laid(hdr, bs, prev, END) && k < |bs|
    ensures bs[k].at in hdr
    ensures hdr[bs[k].at] == Mem(Next(bs, k), if k == 0 then prev else bs[k - 1].at, bs[k].used)
  {
    if k > 0 {
      LaidAt(hdr, bs[1..], bs[0].at, k - 1);
    }
  }

  /** What the headers say about the parts of the heap around block k. */
  lemma {:induction false} LaidParts(hdr: Headers, bs: Blocks, k: nat)
    requires Laid(hdr, bs, 0, END) && k < |bs|
    ensures Laid(hdr, bs[..k], 0, bs[k].at) && Laid(hdr, bs[k + 1..], bs[k].at, END)
    ensures bs[k].at in hdr
    ensures hdr[bs[k].at] == Mem(Start(bs[k + 1..], END), LastAt(bs[..k], 0), bs[k].used)
  {
    var rest := [bs[k]] + bs[k + 1..];
    assert bs == bs[..k] + rest && rest[1..] == bs[k + 1..];
    LaidConcat(hdr, bs[..k], rest, 0, END);
  }

  lemma {:induction false} LaidCons(hdr: Headers, b: Block, post: Blocks, prev: nat)
    requires b.at in hdr && hdr[b.at] == Mem(Start(post, END), prev, b.used) && Laid(hdr, post, b.at, END)
    ensures Laid(hdr, [b] + post, prev, END)
  {
    assert ([b] + post)[1..] == post;
  }

  /** `if (next != MEM_SIZE_ALIGNED) ptr_to_mem(next)->prev = prev`. */
  function Relink(hdr: Headers, next: nat, prev: nat): Headers
    requires next != END ==> next in hdr
  {
    if next != END then hdr[next := hdr[next].(prev := prev)] else hdr
  }

  lemma {:induction false} RelinkLaid(hdr: Headers, hdr': Headers, post: Blocks, prev: nat, prev': nat)
    requires Laid(hdr, post, prev, END) && Tiled(post, Start(post, END), END)
    requires Kept(hdr, hdr', Start(post, END), END) && (Start(post, END) != END ==> Start(post, END) in hdr')
    ensures Laid(Relink(hdr', Start(post, END), prev'), post, prev', END)
  {
    if post != [] {
      FirstFreeBefore(post[1..], END, Start(post[1..], END), 0, 0);
    }
    LaidRelinked(hdr, Relink(hdr', Start(post, END), prev'), post, prev, prev');
  }

  // ---- Cutting a block in two, and joining two ---------------------------------------------------

  /** An unused header is put at `cut`, between the block at `at` and the one at
      `next`. */
  function Cut(hdr: Headers, at: nat, used: bool, cut: nat, next: nat): Headers
    requires at in hdr && (next != END ==> next in hdr)
  {
    Relink(hdr[cut := Mem(next, at, false)][at := Mem(cut, hdr[at].prev, used)], next, cut)
  }

  lemma {:induction false} CutLaid(hdr: Headers, pre: Blocks, b: Block, cut: nat, post: Blocks, prev: nat)
    requires Laid(hdr, pre, 0, b.at) && b.at in hdr && hdr[b.at].prev == LastAt(pre, 0) && Laid(hdr, post, prev, END)
    requires Tiled(pre, 0, b.at) && Tiled(post, Start(post, END), END) && b.at < cut < Start(post, END) <= END
    ensures Laid(Cut(hdr, b.at, b.used, cut, Start(post, END)), pre + ([b] + ([Block(cut, false)] + post)), 0, END)
  {
    var next := Start(post, END);
    var hdr1 := hdr[cut := Mem(next, b.at, false)][b.at := Mem(cut, hdr[b.at].prev, b.used)];
    var hdr2 := Relink(hdr1, next, cut);
    LaidKept(hdr, hdr2, pre, 0, 0, b.at);
    RelinkLaid(hdr, hdr1, post, prev, cut);
    LaidCons(hdr2, Block(cut, false), post, b.at);
    LaidCons(hdr2, b, [Block(cut, false)] + post, LastAt(pre, 0));
    LaidConcat(hdr2, pre, [b] + ([Block(cut, false)] + post), 0, END);
  }

  /** The block at `at` now reaches to the one at `next`. */
  function Skip(hdr: Headers, at: nat, next: nat): Headers
    requires at in hdr && (next != END ==> next in hdr)
  {
    Relink(hdr[at := hdr[at].(next := next)], next, at)
  }

  lemma {:induction false} SkipLaid(hdr: Headers, pre: Blocks, b: Block, post: Blocks, prev: nat)
    requires Laid(hdr, pre, 0, b.at) && b.at in hdr && hdr[b.at].prev == LastAt(pre, 0) && hdr[b.at].used == b.used
    requires Laid(hdr, post, prev, END)
    requires Tiled(pre, 0, b.at) && Tiled(post, Start(post, END), END) && b.at < Start(post, END) <= END
    ensures Laid(Skip(hdr, b.at, Start(post, END)), pre + ([b] + post), 0, END)
  {
    var next := Start(post, END);
    var hdr1 := hdr[b.at := hdr[b.at].(next := next)];
    var hdr2 := Relink(hdr1, next, b.at);
    LaidKept(hdr, hdr2, pre, 0, 0, b.at);
    RelinkLaid(hdr, hdr1, post, prev, b.at);
    LaidCons(hdr2, b, post, LastAt(pre, 0));
    LaidConcat(hdr2, pre, [b] + post, 0, END);
  }

  /** Setting the `used` field of one header. */
  lemma {:induction false} MarkLaid(hdr: Headers, pre: Blocks, b: Block, post: Blocks, used: bool)
    requires Laid(hdr, pre, 0, b.at) && b.at in hdr && Laid(hdr, post, b.at, END)
    requires hdr[b.at] == Mem(Start(post, END), LastAt(pre, 0), b.used)
    requires Tiled(pre, 0, b.at) && Tiled(post, Start(post, END), END) && b.at < Start(post, END)
    ensures Laid(hdr[b.at := hdr[b.at].(used := used)], pre + ([Block(b.at, used)] + post), 0, END)
  {
    var hdr' := hdr[b.at := hdr[b.at].(used := used)];
    LaidKept(hdr, hdr', pre, 0, 0, b.at);
    LaidKept(hdr, hdr', post, b.at, Start(post, END), END);
    LaidCons(hdr', Block(b.at, used), post, LastAt(pre, 0));
    LaidConcat(hdr', pre, [Block(b.at, used)] + post, 0, END);
  }

  /** The headers after an allocation of block k. */
  function TakenHeaders(hdr: Headers, at: nat, size: nat): Headers
    requires at in hdr && (hdr[at].next != END ==> hdr[at].next in hdr)
  {
    if hdr[at].next >= at + HEADER + size + HEADER + MIN_SIZE
    then Cut(hdr, at, true, at + HEADER + size, hdr[at].next)
    else hdr[at := hdr[at].(used := true)]
  }

  /** A block's successor has a header, or is the end of the heap. */
  lemma {:induction false} NextLaid(hdr: Headers, bs: Blocks, k: nat)
    requires Laid(hdr, bs, 0, END) && k < |bs|
    ensures bs[k].at in hdr && (hdr[bs[k].at].next != END ==> hdr[bs[k].at].next in hdr)
  {
    LaidAt(hdr, bs, 0, k);
    if k + 1 < |bs| {
      LaidAt(hdr, bs, 0, k + 1);
    }
  }

  lemma {:induction false} TakenLaid(hdr: Headers, bs: Blocks, k: nat, size: nat)
    requires Laid(hdr, bs, 0, END) && Sane(bs, FirstFree(bs, END)) && k < |bs| && size >= MIN_SIZE
    ensures bs[k].at in hdr && (hdr[bs[k].at].next != END ==> hdr[bs[k].at].next in hdr)
    ensures Laid(TakenHeaders(hdr, bs[k].at, size), Taken(bs, k, size), 0, END)
  {
    var b, pre, post := bs[k], bs[..k], bs[k + 1..];
    SplitAt(bs, k, END);
    LaidParts(hdr, bs, k);
    NextLaid(hdr, bs, k);
    FirstFreeBefore(post, END, Start(post, END), 0, 0);
    if Start(post, END) >= b.at + HEADER + size + HEADER + MIN_SIZE {
      CutLaid(hdr, pre, Block(b.at, true), b.at + HEADER + size, post, b.at);
    } else {
      MarkLaid(hdr, pre, b, post, true);
    }
  }

  /** The headers after a trim. */
  function TrimmedHeaders(hdr: Headers, at: nat, size: nat): Headers
    requires at in hdr && hdr[at].next in hdr && (hdr[hdr[at].next].next != END ==> hdr[hdr[at].next].next in hdr)
  {
    var cut, next := at + HEADER + size, hdr[at].next;
    if cut == next then hdr
    else if !hdr[next].used then Cut(hdr, at, hdr[at].used, cut, hdr[next].next)
    else if cut + HEADER + MIN_SIZE <= next then Cut(hdr, at, hdr[at].used, cut, next)
    else hdr
  }

  ghost predicate EndMarked(hdr: Headers) {
    END in hdr && hdr[END] == Mem(END, END, true)
  }

  /** The successor of a block, and the one behind it, have headers. */
  lemma {:induction false} SuccessorsLaid(hdr: Headers, bs: Blocks, k: nat)
    requires Laid(hdr, bs, 0, END) && EndMarked(hdr) && k < |bs|
    ensures bs[k].at in hdr && hdr[bs[k].at].next in hdr
    ensures var nn := hdr[hdr[bs[k].at].next].next; nn != END ==> nn in hdr
  {
    NextLaid(hdr, bs, k);
    LaidAt(hdr, bs, 0, k);
    if k + 1 < |bs| {
      NextLaid(hdr, bs, k + 1);
    }
  }

  lemma {:induction false} TrimmedPartsLaid(hdr: Headers, pre: Blocks, b: Block, post: Blocks, size: nat)
    requires Laid(hdr, pre, 0, b.at) && Laid(hdr, post, b.at, END) && Tiled(pre, 0, b.at) && EndMarked(hdr)
    requires Tiled(post, Start(post, END), END) && b.at + HEADER + size <= Start(post, END) <= END
    requires b.at in hdr && hdr[b.at] == Mem(Start(post, END), LastAt(pre, 0), b.used)
    requires hdr[b.at].next in hdr && (hdr[hdr[b.at].next].next != END ==> hdr[hdr[b.at].next].next in hdr)
    requires Laid(hdr, pre + ([b] + post), 0, END)
    ensures Laid(TrimmedHeaders(hdr, b.at, size), pre + ([b] + TrimmedRest(b, post, size)), 0, END)
  {
    var cut := b.at + HEADER + size;
    if cut == Start(post, END) {
    } else if post != [] && !post[0].used {
      FirstFreeBefore(post[1..], END, Start(post[1..], END), 0, 0);
      CutLaid(hdr, pre, b, cut, post[1..], post[0].at);
    } else if cut + HEADER + MIN_SIZE <= Start(post, END) {
      CutLaid(hdr, pre, b, cut, post, b.at);
    }
  }

  lemma {:induction false} TrimmedLaid(hdr: Headers, bs: Blocks, k: nat, size: nat)
    requires Laid(hdr, bs, 0, END) && EndMarked(hdr) && Sane(bs, FirstFree(bs, END)) && k < |bs|
    requires size <= Room(bs, k)
    requires bs[k].at in hdr && hdr[bs[k].at].next in hdr
    requires var nn := hdr[hdr[bs[k].at].next].next; nn != END ==> nn in hdr
    ensures Laid(TrimmedHeaders(hdr, bs[k].at, size), Trimmed(bs, k, size), 0, END)
  {
    var b, pre, post := bs[k], bs[..k], bs[k + 1..];
    SplitAt(bs, k, END);
    LaidParts(hdr, bs, k);
    FirstFreeBefore(post, END, Start(post, END), 0, 0);
    assert Start(post, END) == Next(bs, k);
    TrimmedPartsLaid(hdr, pre, b, post, size);
  }

  /** `lfree` after a trim, from the headers. */
  function TrimmedLfree(hdr: Headers, at: nat, size: nat, lfree: nat): nat
    requires at in hdr && hdr[at].next in hdr
  {
    var cut, next := at + HEADER + size, hdr[at].next;
    if cut == next then lfree
    else if !hdr[next].used then (if lfree == next then cut else lfree)
    else if cut + HEADER + MIN_SIZE <= next && cut < lfree then cut
    else lfree
  }

  lemma {:induction false} TrimmedSound(hdr: Headers, bs: Blocks, k: nat, size: nat)
    requires Laid(hdr, bs, 0, END) && EndMarked(hdr) && Sane(bs, FirstFree(bs, END)) && k < |bs| && bs[k].used
    requires size <= Room(bs, k) && size >= MIN_SIZE && Aligned(size)
    ensures bs[k].at in hdr && hdr[bs[k].at].next in hdr && bs[k].at < hdr[bs[k].at].next <= END
    ensures hdr[bs[k].at].next - bs[k].at - HEADER == Room(bs, k) && hdr[bs[k].at].used
    ensures var nn := hdr[hdr[bs[k].at].next].next; nn != END ==> nn in hdr
    ensures Laid(TrimmedHeaders(hdr, bs[k].at, size), Trimmed(bs, k, size), 0, END)
    ensures EndMarked(TrimmedHeaders(hdr, bs[k].at, size))
    ensures Sane(Trimmed(bs, k, size), TrimmedLfree(hdr, bs[k].at, size, FirstFree(bs, END)))
  {
    SuccessorsLaid(hdr, bs, k);
    Neighbours(hdr, bs, k);
    LaidAt(hdr, bs, 0, k);
    TrimmedLaid(hdr, bs, k, size);
    TrimmedSane(bs, k, size);
    assert TrimmedLfree(hdr, bs[k].at, size, FirstFree(bs, END))
        == TrimmedLowest(bs[k], bs[k + 1..], size, FirstFree(bs, END));
  }

  /** Block j swallows its successor. */
  function Joined(bs: Blocks, j: nat): Blocks
    requires j + 1 < |bs|
  {
    bs[..j + 1] + bs[j + 2..]
  }

  lemma {:induction false} JoinedLaid(hdr: Headers, bs: Blocks, j: nat)
    requires Laid(hdr, bs, 0, END) && Tiled(bs, 0, END) && j + 1 < |bs|
    ensures bs[j].at in hdr && (Next(bs, j + 1) != END ==> Next(bs, j + 1) in hdr)
    ensures Laid(Skip(hdr, bs[j].at, Next(bs, j + 1)), Joined(bs, j), 0, END)
    ensures Tiled(Joined(bs, j), 0, END)
  {
    var b, pre, post := bs[j], bs[..j], bs[j + 2..];
    NextLaid(hdr, bs, j);
    NextLaid(hdr, bs, j + 1);
    LaidParts(hdr, bs, j);
    LaidParts(hdr, bs, j + 1);
    LaidAt(hdr, bs, 0, j + 1);
    JoinedTiled(bs, j);
    assert bs[j + 1 + 1..] == post;
    SkipLaid(hdr, pre, b, post, bs[j + 1].at);
    assert Joined(bs, j) == pre + ([b] + post);
  }

  lemma {:induction false} JoinedTiled(bs: Blocks, j: nat)
    requires Tiled(bs, 0, END) && j + 1 < |bs|
    ensures Tiled(bs[..j], 0, bs[j].at) && Tiled(bs[j + 2..], Start(bs[j + 2..], END), END)
    ensures bs[j].at < Start(bs[j + 2..], END) <= END
    ensures Tiled(Joined(bs, j), 0, END)
  {
    var b, c, pre, post := bs[j], bs[j + 1], bs[..j], bs[j + 2..];
    assert bs == pre + ([b] + ([c] + post));
    TiledConcat(pre, [b] + ([c] + post), 0, END);
    assert ([b] + ([c] + post))[1..] == [c] + post && ([c] + post)[1..] == post;
    FirstFreeBefore(post, END, Start(post, END), 0, 0);
    assert ([b] + post)[1..] == post;
    assert Joined(bs, j) == pre + ([b] + post);
    TiledConcat(pre, [b] + post, 0, END);
  }

  /** `lfree` after `plug_holes` around block k. */
  function PluggedLowest(bs: Blocks, k: nat, lfree: nat): nat
    requires k < |bs|
  {
    var lower := if k + 1 < |bs| && !bs[k + 1].used && lfree == bs[k + 1].at then bs[k].at else lfree;
    if 0 < k && !bs[k - 1].used && lower == bs[k].at then bs[k - 1].at else lower
  }

  /** The headers around block k: which of them are the block itself, or the end. */
  lemma {:induction false} Neighbours(hdr: Headers, bs: Blocks, k: nat)
    requires Laid(hdr, bs, 0, END) && Tiled(bs, 0, END) && EndMarked(hdr) && k < |bs|
    ensures bs[k].at in hdr && hdr[bs[k].at].next in hdr && hdr[bs[k].at].prev in hdr
    ensures bs[k].at < hdr[bs[k].at].next <= END && (hdr[bs[k].at].next == END <==> k + 1 == |bs|)
    ensures k + 1 < |bs| ==> hdr[bs[k].at].next == bs[k + 1].at && hdr[bs[k + 1].at].used == bs[k + 1].used
                             && hdr[bs[k + 1].at].prev == bs[k].at
    ensures hdr[bs[k].at].prev == bs[k].at <==> k == 0
    ensures 0 < k ==> hdr[bs[k].at].prev == bs[k - 1].at < bs[k].at && hdr[bs[k - 1].at].used == bs[k - 1].used
                      && hdr[bs[k - 1].at].next == bs[k].at
  {
    LaidAt(hdr, bs, 0, k);
    Increasing(bs, 0, k);
    if k + 1 < |bs| {
      LaidAt(hdr, bs, 0, k + 1);
      Increasing(bs, 0, k + 1);
    }
    if 0 < k {
      LaidAt(hdr, bs, 0, k - 1);
      Increasing(bs, 0, k - 1);
    }
  }

  lemma {:induction false} Increasing(bs: Blocks, from: nat, k: nat)
    requires Tiled(bs, from, END) && k < |bs|
    ensures from <= bs[k].at < Next(bs, k) <= END && (k == 0 ==> bs[k].at == from)
  {
    FirstFreeBefore(bs[1..], END, Start(bs[1..], END), 0, 0);
    if k > 0 {
      Increasing(bs[1..], Start(bs[1..], END), k - 1);
    }
  }

  lemma {:induction false} MarkTiled(bs: Blocks, k: nat)
    requires Tiled(bs, 0, END) && k < |bs|
    ensures Tiled(bs[k := Block(bs[k].at, false)], 0, END)
    ensures bs[k := Block(bs[k].at, false)] == bs[..k] + ([Block(bs[k].at, false)] + bs[k + 1..])
  {
    var rest, rest' := [bs[k]] + bs[k + 1..], [Block(bs[k].at, false)] + bs[k + 1..];
    assert bs == bs[..k] + rest && rest[1..] == bs[k + 1..] == rest'[1..];
    TiledConcat(bs[..k], rest, 0, END);
    TiledConcat(bs[..k], rest', 0, END);
    assert bs[k := Block(bs[k].at, false)] == bs[..k] + rest';
  }

  /** What `mem_link_valid` checks. */
  predicate Linked(hdr: Headers, mem: nat)
    requires mem in hdr && hdr[mem].next in hdr && hdr[mem].prev in hdr
  {
    && hdr[mem].next <= END && hdr[mem].prev <= END
    && (hdr[mem].prev == mem || hdr[hdr[mem].prev].next == mem)
    && (hdr[mem].next == END || hdr[hdr[mem].next].prev == mem)
  }

  /** Every block of a sane heap passes `mem_link_valid`, which so never refuses a legal release. */
  lemma {:induction false} BlocksLinked(hdr: Headers, bs: Blocks, k: nat)
    requires Laid(hdr, bs, 0, END) && Tiled(bs, 0, END) && EndMarked(hdr) && k < |bs|
    ensures bs[k].at in hdr && hdr[bs[k].at].next in hdr && hdr[bs[k].at].prev in hdr
    ensures Linked(hdr, bs[k].at)
  {
    Neighbours(hdr, bs, k);
  }

  /** Once the released block is counted in, plugging the holes around it moves
      `lfree` no further. */
  lemma {:induction false} PluggedLowestStays(bs: Blocks, k: nat)
    requires Sane(bs, FirstFree(bs, END)) && k < |bs| && bs[k].used
    ensures var lfree := if bs[k].at < FirstFree(bs, END) then bs[k].at else FirstFree(bs, END);
            PluggedLowest(bs[k := Block(bs[k].at, false)], k, lfree) == lfree
  {
    Increasing(bs, 0, k);
    if 0 < k {
      Increasing(bs, 0, k - 1);
      if !bs[k - 1].used {
        LowestIsLowest(bs, k - 1);
      }
    }
  }

  lemma {:induction false} LowestIsLowest(bs: Blocks, k: nat)
    requires k < |bs| && !bs[k].used && Tiled(bs, Start(bs, END), END)
    ensures FirstFree(bs, END) <= bs[k].at
  {
    if bs[0].used {
      LowestIsLowest(bs[1..], k - 1);
    } else {
      Increasing(bs, Start(bs, END), k);
    }
  }

  // ---- Searching -----------------------------------------------------------------------------

  function AtOrEnd(bs: Blocks, j: nat): nat
    requires j <= |bs|
  {
    if j < |bs| then bs[j].at else END
  }

  /** The header at a block or at the end. */
  lemma {:induction false} HeaderAt(hdr: Headers, bs: Blocks, j: nat)
    requires Laid(hdr, bs, 0, END) && EndMarked(hdr) && Tiled(bs, 0, END) && j <= |bs|
    ensures AtOrEnd(bs, j) in hdr && (AtOrEnd(bs, j) == END <==> j == |bs|)
    ensures j < |bs| ==> hdr[bs[j].at].used == bs[j].used && hdr[bs[j].at].next == AtOrEnd(bs, j + 1)
  {
    if j < |bs| {
      LaidAt(hdr, bs, 0, j);
      Increasing(bs, 0, j);
    }
  }

  ghost predicate UsedBefore(bs: Blocks, j: nat)
    requires j <= |bs|
  {
    forall i :: 0 <= i < j ==> bs[i].used
  }

  lemma {:induction false} FirstFreeAt(bs: Blocks, j: nat)
    requires j <= |bs| && UsedBefore(bs, j) && (j == |bs| || !bs[j].used)
    ensures FirstFree(bs, END) == AtOrEnd(bs, j)
  {
    if j > 0 {
      assert bs[0].used;
      FirstFreeAt(bs[1..], j - 1);
    }
  }

  ghost function FreeIndex(bs: Blocks): (j: nat)
    ensures j <= |bs| && UsedBefore(bs, j) && (j == |bs| || !bs[j].used)
  {
    if bs == [] || !bs[0].used then 0 else 1 + FreeIndex(bs[1..])
  }

  lemma {:induction false} Ordered(bs: Blocks, from: nat, j: nat, i: nat)
    requires Tiled(bs, from, END) && j <= i < |bs|
    ensures bs[j].at <= bs[i].at && (j < i ==> bs[j].at < bs[i].at)
  {
    if j > 0 {
      Ordered(bs[1..], Start(bs[1..], END), j - 1, i - 1);
    } else if i > 0 {
      Increasing(bs[1..], Start(bs[1..], END), i - 1);
    }
  }

  /** Below the lowest free block everything is used. */
  lemma {:induction false} LowestUsedBefore(bs: Blocks, k: nat)
    requires Sane(bs, FirstFree(bs, END)) && k < |bs| && FirstFree(bs, END) == bs[k].at
    ensures UsedBefore(bs, k)
  {
    forall i | 0 <= i < k ensures bs[i].used {
      Ordered(bs, 0, i, k);
      if !bs[i].used {
        LowestIsLowest(bs, i);
      }
    }
  }

  lemma {:induction false} TakenBefore(bs: Blocks, k: nat, size: nat)
    requires k < |bs| && UsedBefore(bs, k)
    ensures k < |Taken(bs, k, size)| && UsedBefore(Taken(bs, k, size), k) && Taken(bs, k, size)[k] == Block(bs[k].at, true)
  {
  }

  ghost predicate NoFitBefore(bs: Blocks, size: nat, j: nat)
    requires j <= |bs|
  {
    forall i :: 0 <= i < j ==> !Fits(bs, i, size)
  }

  /** No block fits that starts too close to the end. */
  lemma {:induction false} NoFitNearEnd(bs: Blocks, size: nat, j: nat)
    requires Tiled(bs, 0, END) && j <= |bs| && AtOrEnd(bs, j) + size >= END && NoFitBefore(bs, size, j)
    ensures NoFitBefore(bs, size, |bs|)
  {
    forall i | j <= i < |bs| ensures !Fits(bs, i, size) {
      Ordered(bs, 0, j, i);
      Increasing(bs, 0, i);
    }
  }

  /** The pointers `mem_free` looks at: aligned, and inside the heap. */
  predicate Legal(rmem: Pointer) {
    rmem.Data? && rmem.offset % ALIGN == 0 && HEADER <= rmem.offset && rmem.offset + MIN_SIZE <= END
  }

  datatype Pointer = Null | Data(offset: nat)

  /** What `mem_trim` finds, and what it comes to. */
  lemma {:induction false} TrimPlan(hdr: Headers, s: State, at: nat, n: nat, t: State)
    requires Inv(s) && Laid(hdr, s.blocks, 0, END) && EndMarked(hdr) && at in s.live && n < 65536
    requires t == Apply(s, Op.Trim(at, n))
    ensures var k := Index(s.blocks, at);
            && k < |s.blocks| && s.blocks[k].at == at && s.blocks[k].used
            && at in hdr && hdr[at].next == at + HEADER + Room(s.blocks, k)
            && t == if n <= END && Rounded(n) <= Room(s.blocks, k) then State(Trimmed(s.blocks, k, Rounded(n)), s.live[at := n])
                    else s
    ensures Inv(t)
    ensures n > END <==> Rounded(n) > END || Rounded(n) < n
    ensures n <= END ==> Aligned(Rounded(n)) && MIN_SIZE <= Rounded(n)
  {
    TrimInv(s, at, n);
    RoundedLeast(n, 0);
    HoldsIndex(s.blocks, 0, at, s.live[at]);
    Neighbours(hdr, s.blocks, Index(s.blocks, at));
  }

  /** No header is lost, and none changes between used and unused. */
  ghost predicate UseKept(hdr: Headers, hdr': Headers) {
    forall x <- hdr :: x in hdr' && hdr'[x].used == hdr[x].used
  }

  /** The memory holds an unused header there, of a block or of one that was merged. */
  ghost predicate LeftOver(hdr: Headers, mem: nat) {
    mem in hdr && !hdr[mem].used
  }

  lemma {:induction false} NotHeld(s: State, mem: nat)
    requires Inv(s) && Index(s.blocks, mem) == |s.blocks|
    ensures mem !in s.live
  {
    if mem in s.live {
      HoldsIndex(s.blocks, 0, mem, s.live[mem]);
    }
  }

  class Heap {
    /** The headers in `ram`, and the offset `lfree`. */
    var hdr: Headers
    var lfree: nat

    /** The blocks and what the callers hold of them. */
    ghost var blocks: Blocks
    ghost var live: map<nat, nat>

    ghost predicate Sound()
      reads this
    {
      Sane(blocks, lfree) && Laid(hdr, blocks, 0, END) && EndMarked(hdr)
    }

    ghost function View(): State
      reads this
    {
      State(blocks, live)
    }

    ghost predicate Valid()
      reads this
    {
      Sound() && Inv(View())
    }

    /** `mem_init`. */
    constructor ()
      ensures Valid() && View() == Initial()
    {
      hdr := map[0 := Mem(END, 0, false), END := Mem(END, END, true)];
      lfree := 0;
      blocks := [Block(0, false)];
      live := map[];
      new;
      assert blocks[1..] == [];
      assert View() == Initial();
    }

    /** One half of `plug_holes`: the block at `first` swallows the one at `second`. */
    method Swallow(first: nat, second: nat, ghost j: nat)
      requires Laid(hdr, blocks, 0, END) && Tiled(blocks, 0, END) && EndMarked(hdr)
      requires j + 1 < |blocks| && first == blocks[j].at && second == blocks[j + 1].at
      modifies `hdr, `lfree, `blocks
      ensures Laid(hdr, blocks, 0, END) && Tiled(blocks, 0, END) && EndMarked(hdr)
      ensures blocks == Joined(old(blocks), j)
      ensures lfree == if old(lfree) == second then first else old(lfree)
      ensures UseKept(old(hdr), hdr)
    {
      LaidAt(hdr, blocks, 0, j);
      LaidAt(hdr, blocks, 0, j + 1);
      JoinedLaid(hdr, blocks, j);
      if lfree == second {
        lfree := first;
      }
      var next := hdr[second].next;
      hdr := hdr[first := hdr[first].(next := next)];
      if next != END {
        hdr := hdr[next := hdr[next].(prev := first)];
      }
      blocks := Joined(blocks, j);
    }

    /** `plug_holes`: the unused block k joins its unused neighbours. */
    method PlugHoles(mem: nat, ghost k: nat)
      requires Laid(hdr, blocks, 0, END) && Tiled(blocks, 0, END) && EndMarked(hdr)
      requires k < |blocks| && mem == blocks[k].at && !blocks[k].used
      modifies `hdr, `lfree, `blocks
      ensures Laid(hdr, blocks, 0, END) && EndMarked(hdr)
      ensures blocks == PlugBackward(PlugForward(old(blocks), k), k)
      ensures lfree == PluggedLowest(old(blocks), k, old(lfree))
      ensures UseKept(old(hdr), hdr)
    {
      LaidAt(hdr, blocks, 0, k);
      Neighbours(hdr, blocks, k);
      var nmem := hdr[mem].next;
      if mem != nmem && !hdr[nmem].used && nmem != END {
        Swallow(mem, nmem, k);
      }
      assert blocks == PlugForward(old(blocks), k);
      LaidAt(hdr, blocks, 0, k);
      Neighbours(hdr, blocks, k);
      var pmem := hdr[mem].prev;
      if pmem != mem && !hdr[pmem].used {
        Swallow(pmem, mem, k - 1);
      }
    }

    /** `mem_link_valid`. */
    method LinkValid(mem: nat) returns (ok: bool)
      requires mem in hdr && hdr[mem].next in hdr && hdr[mem].prev in hdr
      ensures ok == Linked(hdr, mem)
    {
      var nmem, pmem := hdr[mem].next, hdr[mem].prev;
      if hdr[mem].next > END || hdr[mem].prev > END || (hdr[mem].prev != mem && hdr[pmem].next != mem)
         || (nmem != END && hdr[nmem].prev != mem) {
        return false;
      }
      return true;
    }

    /** The accepted path of `mem_free`. */
    method Release(mem: nat, ghost k: nat)
      requires Sound() && k < |blocks| && mem == blocks[k].at && blocks[k].used
      modifies `hdr, `lfree, `blocks
      ensures Sound() && blocks == Released(old(blocks), k)
      ensures mem in hdr && !hdr[mem].used
    {
      ReleasedSane(blocks, k);
      PluggedLowestStays(blocks, k);
      SplitAt(blocks, k, END);
      LaidParts(hdr, blocks, k);
      MarkLaid(hdr, blocks[..k], blocks[k], blocks[k + 1..], false);
      Increasing(blocks, 0, k);
      MarkTiled(blocks, k);
      hdr := hdr[mem := hdr[mem].(used := false)];
      blocks := blocks[k := Block(mem, false)];
      if mem < lfree {
        lfree := mem;
      }
      PlugHoles(mem, k);
    }

    /** `mem_free` of a pointer that is misaligned, out of the heap, or behind a header, which may be one
        left over from a block merged meanwhile: all but a held block are refused; a held one is released
        and its header marked unused, so that a second release is refused. */
    method Free(rmem: Pointer)
      requires Valid()
      requires Legal(rmem) ==> Index(blocks, rmem.offset - HEADER) < |blocks| || LeftOver(hdr, rmem.offset - HEADER)
      modifies `hdr, `lfree, `blocks, `live
      ensures Valid()
      ensures Legal(rmem) && rmem.offset - HEADER in old(live)
              ==> View() == Apply(old(View()), Op.Free(rmem.offset - HEADER))
      ensures !(Legal(rmem) && rmem.offset - HEADER in old(live)) ==> View() == old(View())
      ensures Legal(rmem) && rmem.offset - HEADER in old(live) ==> LeftOver(hdr, rmem.offset - HEADER)
    {
      if rmem.Null? {
        return;
      }
      if rmem.offset % ALIGN != 0 {
        return;
      }
      if rmem.offset < HEADER || rmem.offset + MIN_SIZE > END {
        return;
      }
      var mem := rmem.offset - HEADER;
      ghost var k := Index(blocks, mem);
      if k == |blocks| {
        NotHeld(View(), mem);
      } else {
        BlocksLinked(hdr, blocks, k);
        LaidAt(hdr, blocks, 0, k);
        UsedIsHeld(View(), k);
      }
      if !hdr[mem].used {
        return;
      }
      var ok := LinkValid(mem);
      if ok {
        FreeInv(View(), mem);
        Release(mem, k);
        live := live - {mem};
      }
    }

    /** Releasing a held block twice comes to releasing it once, although it may have been merged. */
    method FreeTwice(rmem: Pointer)
      requires Valid() && Legal(rmem) && rmem.offset - HEADER in live
      modifies `hdr, `lfree, `blocks, `live
      ensures Valid() && View() == Apply(old(View()), Op.Free(rmem.offset - HEADER))
    {
      ghost var mem := rmem.offset - HEADER;
      HoldsIndex(blocks, 0, mem, live[mem]);
      Free(rmem);
      Free(rmem);
    }

    /** The search of `mem_malloc`, from the lowest free block on: the lowest block
        that fits, if there is one. */
    method Scan(size: nat) returns (ptr: nat, found: bool)
      requires Sound() && size <= END
      ensures found <==> FirstFit(blocks, size, 0) < |blocks|
      ensures found ==> ptr == blocks[FirstFit(blocks, size, 0)].at
    {
      ptr := lfree;
      ghost var j := FreeIndex(blocks);
      FirstFreeAt(blocks, j);
      while ptr < END - size
        invariant j <= |blocks| && ptr == AtOrEnd(blocks, j) && NoFitBefore(blocks, size, j)
        decreases |blocks| - j
      {
        LaidAt(hdr, blocks, 0, j);
        if !hdr[ptr].used && hdr[ptr].next - (ptr + HEADER) >= size {
          assert Fits(blocks, j, size);
          return ptr, true;
        }
        ptr, j := hdr[ptr].next, j + 1;
      }
      NoFitNearEnd(blocks, size, j);
      found := false;
    }

    /** The loop that moves `lfree` to the next free block. */
    method AdjustLowest(ghost k: nat)
      requires Laid(hdr, blocks, 0, END) && EndMarked(hdr) && Tiled(blocks, 0, END)
      requires k < |blocks| && lfree == blocks[k].at && UsedBefore(blocks, k)
      modifies `lfree
      ensures lfree == FirstFree(blocks, END)
    {
      var cur := lfree;
      ghost var j := k;
      HeaderAt(hdr, blocks, j);
      while hdr[cur].used && cur != END
        invariant k <= j <= |blocks| && cur == AtOrEnd(blocks, j) && UsedBefore(blocks, j)
        invariant cur in hdr && (cur == END <==> j == |blocks|) && (j < |blocks| ==> hdr[cur].used == blocks[j].used)
        decreases |blocks| - j
      {
        HeaderAt(hdr, blocks, j);
        HeaderAt(hdr, blocks, j + 1);
        cur, j := hdr[cur].next, j + 1;
      }
      FirstFreeAt(blocks, j);
      lfree := cur;
    }

    /** The stores of `mem_malloc` into the block found. */
    method Take(ptr: nat, size: nat, ghost k: nat)
      requires Sound() && k < |blocks| && ptr == blocks[k].at && Fits(blocks, k, size) && size >= MIN_SIZE && Aligned(size)
      modifies `hdr, `lfree, `blocks
      ensures Sound() && blocks == Taken(old(blocks), k, size)
    {
      TakenSane(blocks, k, size);
      TakenLaid(hdr, blocks, k, size);
      Neighbours(hdr, blocks, k);
      ghost var hdr1 := TakenHeaders(hdr, ptr, size);
      if hdr[ptr].next - (ptr + HEADER) >= size + HEADER + MIN_SIZE {
        var ptr2 := ptr + HEADER + size;
        hdr := hdr[ptr2 := Mem(hdr[ptr].next, ptr, false)];
        hdr := hdr[ptr := Mem(ptr2, hdr[ptr].prev, true)];
        var next := hdr[ptr2].next;
        if next != END {
          hdr := hdr[next := hdr[next].(prev := ptr2)];
        }
      } else {
        hdr := hdr[ptr := hdr[ptr].(used := true)];
      }
      assert hdr == hdr1 && EndMarked(hdr);
      ghost var before := blocks;
      blocks := Taken(blocks, k, size);
      if ptr == lfree {
        assert UsedBefore(blocks, k) by {
          LowestUsedBefore(before, k);
          TakenBefore(before, k, size);
        }
        AdjustLowest(k);
      }
    }

    /** `mem_malloc`: refused exactly if the size is 0 or exceeds the heap, or no
        free block fits; otherwise the lowest one that fits. */
    method Malloc(n: nat) returns (r: Pointer)
      requires Valid() && n < 65536
      modifies `hdr, `lfree, `blocks, `live
      ensures Valid() && View() == Apply(old(View()), Op.Malloc(n))
      ensures r.Null? <==> n == 0 || n > END || NoFitBefore(old(blocks), Rounded(n), |old(blocks)|)
      ensures r.Data? ==> r.offset >= HEADER && live == old(live)[r.offset - HEADER := n]
      ensures r.Data? ==> r.offset - HEADER !in old(live)
    {
      RoundedLeast(n, 0);
      if n == 0 {
        return Null;
      }
      var size := Rounded(n);
      if size > END || size < n {
        return Null;
      }
      var ptr, found := Scan(size);
      if !found {
        return Null;
      }
      ghost var k := FirstFit(blocks, size, 0);
      UsedIsHeld(View(), k);
      MallocInv(View(), n);
      Take(ptr, size, k);
      live := live[ptr := n];
      r := Data(ptr + HEADER);
    }

    /** The stores of `mem_trim`. */
    method Shrink(ptr: nat, newsize: nat, ghost k: nat)
      requires Sound() && k < |blocks| && ptr == blocks[k].at && blocks[k].used
      requires newsize >= MIN_SIZE && Aligned(newsize) && newsize < Room(blocks, k)
      modifies `hdr, `lfree, `blocks
      ensures Sound() && blocks == Trimmed(old(blocks), k, newsize)
    {
      TrimmedSound(hdr, blocks, k, newsize);
      ghost var hdr1, lfree1 := TrimmedHeaders(hdr, ptr, newsize), TrimmedLfree(hdr, ptr, newsize, lfree);
      var mem2, ptr2 := hdr[ptr].next, ptr + HEADER + newsize;
      if !hdr[mem2].used {
        var next := hdr[mem2].next;
        if lfree == mem2 {
          lfree := ptr2;
        }
        hdr := hdr[ptr2 := Mem(next, ptr, false)];
        hdr := hdr[ptr := hdr[ptr].(next := ptr2)];
        if next != END {
          hdr := hdr[next := hdr[next].(prev := ptr2)];
        }
      } else if newsize + HEADER + MIN_SIZE <= hdr[ptr].next - ptr - HEADER {
        if ptr2 < lfree {
          lfree := ptr2;
        }
        hdr := hdr[ptr2 := Mem(mem2, ptr, false)];
        hdr := hdr[ptr := hdr[ptr].(next := ptr2)];
        if mem2 != END {
          hdr := hdr[mem2 := hdr[mem2].(prev := ptr2)];
        }
      }
      assert hdr == hdr1 && lfree == lfree1;
      blocks := Trimmed(blocks, k, newsize);
    }

    /** `mem_trim` of a held block: refused exactly if the new size does not fit
        into the block. */
    method Trim(rmem: nat, n: nat) returns (r: Pointer)
      requires Valid() && n < 65536 && HEADER <= rmem && rmem - HEADER in live
      modifies `hdr, `lfree, `blocks, `live
      ensures Valid() && View() == Apply(old(View()), Op.Trim(rmem - HEADER, n))
      ensures Index(old(blocks), rmem - HEADER) < |old(blocks)|
      ensures r == if n <= END && Rounded(n) <= Room(old(blocks), Index(old(blocks), rmem - HEADER))
                   then Data(rmem) else Null
    {
      var newsize, ptr := Rounded(n), rmem - HEADER;
      ghost var k, t := Index(blocks, ptr), Apply(View(), Op.Trim(ptr, n));
      TrimPlan(hdr, View(), ptr, n, t);
      if newsize > END || newsize < n {
        return Null;
      }
      var size := hdr[ptr].next - ptr - HEADER;
      if newsize > size {
        return Null;
      }
      r := Data(rmem);
      ShrinkTo(ptr, newsize, size, k);
      live := live[ptr := n];
      assert View() == t;
    }

    /** The stores of `mem_trim`, if there is anything to do. */
    method ShrinkTo(ptr: nat, newsize: nat, size: nat, ghost k: nat)
      requires Sound() && k < |blocks| && ptr == blocks[k].at && blocks[k].used
      requires newsize >= MIN_SIZE && Aligned(newsize) && newsize <= size == Room(blocks, k)
      modifies `hdr, `lfree, `blocks
      ensures Sound() && blocks == Trimmed(old(blocks), k, newsize)
    {
      TrimmedWhole(blocks, k);
      if newsize != size {
        Shrink(ptr, newsize, k);
      }
    }
  }
}
