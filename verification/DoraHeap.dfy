/** The DoraOS heap (mem/mem.c): nodes laid end to end, each behind a header that
    holds its size and a link to the node in front; best fit from the tail, free
    neighbours merged on release. */
module DoraHeap {
  import opened Machine

  /** MEM_NODE_SIZE */
  const NODE_SIZE: nat := 8

  datatype Node = Node(at: nat, size: nat, used: bool)

  type Nodes = seq<Node>

  /** DOS_ALIGN to four bytes, in 32 bits. */
  function Align(n: nat): nat {
    (n + 3) % WORD / 4 * 4
  }

  /** The aligned request covers the request exactly up to 0xFFFFFFFC: above, the sum
      wraps to zero. */
  lemma {:induction false} AlignCovers(n: nat)
    requires n < WORD
    ensures n <= Align(n) <==> n <= WORD - 4
    ensures n <= WORD - 4 ==> Align(n) < n + 4 && Align(n) % 4 == 0
  {
    if n + 3 < WORD {
      assert (n + 3) % WORD == n + 3;
    } else {
      assert (n + 3) % WORD == n + 3 - WORD;
    }
  }

  // ---- The invariant -------------------------------------------------------------------------

  /** Where the node behind the last one would start. */
  function Ends(ns: Nodes, from: nat): nat {
    if ns == [] then from else Ends(ns[1..], from + NODE_SIZE + ns[0].size)
  }

  /** Every node starts where the one in front of it ends. */
  ghost predicate Chained(ns: Nodes, from: nat) {
    ns == [] || (ns[0].at == from && Chained(ns[1..], from + NODE_SIZE + ns[0].size))
  }

  /** The nodes tile the region between two offsets. */
  ghost predicate Tiled(ns: Nodes, from: nat, to: nat) {
    Chained(ns, from) && Ends(ns, from) == to
  }

  /** No two adjacent nodes are unused. */
  ghost predicate Merged(ns: Nodes, before: bool) {
    ns == [] || ((before || ns[0].used) && Merged(ns[1..], ns[0].used))
  }

  /** The bytes in use. */
  function Used(ns: Nodes): nat {
    if ns == [] then 0 else (if ns[0].used then ns[0].size else 0) + Used(ns[1..])
  }

  lemma {:induction false} Concat(a: Nodes, b: Nodes, from: nat)
    ensures Ends(a + b, from) == Ends(b, Ends(a, from))
    ensures Chained(a + b, from) <==> Chained(a, from) && Chained(b, Ends(a, from))
    ensures Used(a + b) == Used(a) + Used(b)
  {
    if a == [] {
      assert a + b == b;
    } else {
      assert (a + b)[1..] == a[1..] + b;
      Concat(a[1..], b, from + NODE_SIZE + a[0].size);
    }
  }

  function LastUsed(a: Nodes, before: bool): bool {
    if a == [] then before else a[|a| - 1].used
  }

  lemma {:induction false} MergedConcat(a: Nodes, b: Nodes, before: bool)
    ensures Merged(a + b, before) <==> Merged(a, before) && Merged(b, LastUsed(a, before))
  {
    if a == [] {
      assert a + b == b;
    } else {
      assert (a + b)[1..] == a[1..] + b;
      MergedConcat(a[1..], b, a[0].used);
    }
  }

  lemma {:induction false} Cons(n: Node, post: Nodes, from: nat)
    ensures Ends([n] + post, from) == Ends(post, from + NODE_SIZE + n.size)
    ensures Chained([n] + post, from) <==> n.at == from && Chained(post, from + NODE_SIZE + n.size)
    ensures Used([n] + post) == (if n.used then n.size else 0) + Used(post)
    ensures forall before :: Merged([n] + post, before) <==> (before || n.used) && Merged(post, n.used)
  {
    assert ([n] + post)[1..] == post;
  }

  ghost predicate Sane(ns: Nodes, from: nat, to: nat) {
    ns != [] && Tiled(ns, from, to) && Merged(ns, true)
  }

  /** The parts of the heap around node k. */
  lemma {:induction false} Split(ns: Nodes, from: nat, k: nat)
    requires k < |ns| && Chained(ns, from)
    ensures ns == ns[..k] + ([ns[k]] + ns[k + 1..])
    ensures Chained(ns[..k], from) && Ends(ns[..k], from) == ns[k].at
    ensures Chained(ns[k + 1..], ns[k].at + NODE_SIZE + ns[k].size)
    ensures Ends(ns, from) == Ends(ns[k + 1..], ns[k].at + NODE_SIZE + ns[k].size)
    ensures Used(ns) == Used(ns[..k]) + (if ns[k].used then ns[k].size else 0) + Used(ns[k + 1..])
    ensures Merged(ns, true) <==>
      Merged(ns[..k], true) && (LastUsed(ns[..k], true) || ns[k].used) && Merged(ns[k + 1..], ns[k].used)
  {
    var rest := [ns[k]] + ns[k + 1..];
    assert ns == ns[..k] + rest;
    Concat(ns[..k], rest, from);
    Cons(ns[k], ns[k + 1..], Ends(ns[..k], from));
    MergedConcat(ns[..k], rest, true);
  }

  /** Nodes do not overlap, headers included. */
  lemma {:induction false} Disjoint(ns: Nodes, from: nat, i: nat, j: nat)
    requires Chained(ns, from) && i < j < |ns|
    ensures from <= ns[i].at && ns[i].at + NODE_SIZE + ns[i].size <= ns[j].at
    ensures ns[j].at + NODE_SIZE + ns[j].size <= Ends(ns, from)
  {
    var next := from + NODE_SIZE + ns[0].size;
    if i > 0 {
      Disjoint(ns[1..], next, i - 1, j - 1);
    } else {
      Inside(ns[1..], next, j - 1);
    }
  }

  lemma {:induction false} Inside(ns: Nodes, from: nat, i: nat)
    requires Chained(ns, from) && i < |ns|
    ensures from <= ns[i].at && ns[i].at + NODE_SIZE + ns[i].size <= Ends(ns, from)
  {
    var next := from + NODE_SIZE + ns[0].size;
    if i > 0 {
      Inside(ns[1..], next, i - 1);
    } else {
      Extends(ns[1..], next);
    }
  }

  lemma {:induction false} Extends(ns: Nodes, from: nat)
    ensures from <= Ends(ns, from)
  {
    if ns != [] {
      Extends(ns[1..], from + NODE_SIZE + ns[0].size);
    }
  }

  // ---- Allocation -----------------------------------------------------------------------------

  /** A node that can be taken: unused and strictly larger than the request. */
  predicate Fits(n: Node, size: nat) {
    !n.used && n.size > size
  }

  /** The search from the tail down to node j: the smallest node that fits, of equal
      ones the nearest to the tail; |ns| if there is none. */
  function Best(ns: Nodes, size: nat, j: nat): (b: nat)
    requires j <= |ns|
    ensures b == |ns| || (j <= b < |ns| && Fits(ns[b], size))
    ensures forall i :: j <= i < |ns| && Fits(ns[i], size) ==> b < |ns| && ns[b].size <= ns[i].size
    ensures forall i :: b < i < |ns| && Fits(ns[i], size) ==> ns[b].size < ns[i].size
    decreases |ns| - j
  {
    if j == |ns| then |ns|
    else
      var b := Best(ns, size, j + 1);
      if Fits(ns[j], size) && (b == |ns| || ns[b].size > ns[j].size) then j else b
  }

  /** The node is cut if what is left is larger than a header. */
  predicate Cuts(n: Node, size: nat) {
    n.size > size + NODE_SIZE
  }

  /** What follows node n once it is taken. */
  function Remainder(n: Node, post: Nodes, size: nat): Nodes {
    if Cuts(n, size) then [Node(n.at + NODE_SIZE + size, n.size - size - NODE_SIZE, false)] + post else post
  }

  /** Node k is taken: its size becomes the request, cut or not. */
  function Taken(ns: Nodes, k: nat, size: nat): Nodes
    requires k < |ns|
  {
    ns[..k] + ([Node(ns[k].at, size, true)] + Remainder(ns[k], ns[k + 1..], size))
  }

  /** Taking a node keeps the heap tiled and merged if and only if the node is cut, that is, if what is left
      of it is larger than a header. */
  lemma {:induction false} TakenSaneIffCut(ns: Nodes, from: nat, to: nat, k: nat, size: nat)
    requires Sane(ns, from, to) && k < |ns| && Fits(ns[k], size)
    ensures Sane(Taken(ns, k, size), from, to) <==> Cuts(ns[k], size)
    ensures Cuts(ns[k], size) <==> ns[k].size - size > NODE_SIZE
  {
    var n, pre, post := ns[k], ns[..k], ns[k + 1..];
    var taken, rest := Node(n.at, size, true), Remainder(n, post, size);
    Split(ns, from, k);
    Concat(pre, [taken] + rest, from);
    Cons(taken, rest, n.at);
    MergedConcat(pre, [taken] + rest, true);
    if Cuts(n, size) {
      Cons(Node(n.at + NODE_SIZE + size, n.size - size - NODE_SIZE, false), post, n.at + NODE_SIZE + size);
    } else {
      EndsMove(post, n.at + NODE_SIZE + n.size, n.at + NODE_SIZE + size);
    }
  }

  /** Nodes that are chained from one offset are not from another, and end as much
      further on. */
  lemma {:induction false} EndsMove(ns: Nodes, from: nat, from': nat)
    ensures Ends(ns, from) - from == Ends(ns, from') - from'
  {
    if ns != [] {
      EndsMove(ns[1..], from + NODE_SIZE + ns[0].size, from' + NODE_SIZE + ns[0].size);
    }
  }

  /** The bytes in use grow by the request, cut or not. */
  lemma {:induction false} TakenUsed(ns: Nodes, from: nat, k: nat, size: nat)
    requires Chained(ns, from) && k < |ns| && !ns[k].used
    ensures Used(Taken(ns, k, size)) == Used(ns) + size
  {
    var n, pre, post := ns[k], ns[..k], ns[k + 1..];
    var rest := Remainder(n, post, size);
    Split(ns, from, k);
    Concat(pre, [Node(n.at, size, true)] + rest, from);
    Cons(Node(n.at, size, true), rest, n.at);
    if Cuts(n, size) {
      Cons(Node(n.at + NODE_SIZE + size, n.size - size - NODE_SIZE, false), post, 0);
    }
  }

  // ---- Release ---------------------------------------------------------------------------------

  /** Back from node k over unused nodes. */
  function First(ns: Nodes, k: nat): (i: nat)
    requires k < |ns|
    ensures i <= k
  {
    if 0 < k && !ns[k - 1].used then First(ns, k - 1) else k
  }

  /** Node n swallows the unused nodes behind it. */
  function Swallow(n: Node, post: Nodes): (r: Nodes)
    ensures r != [] && r[0].at == n.at
    decreases |post|
  {
    if post != [] && !post[0].used then Swallow(n.(size := n.size + NODE_SIZE + post[0].size), post[1..])
    else [n] + post
  }

  function Marked(ns: Nodes, k: nat): Nodes
    requires k < |ns|
  {
    ns[k := Node(ns[k].at, ns[k].size, false)]
  }

  function Released(ns: Nodes, k: nat): Nodes
    requires k < |ns|
  {
    Joined(Marked(ns, k), First(Marked(ns, k), k))
  }

  /** Node i swallows the unused nodes behind it. */
  function Joined(ns: Nodes, i: nat): Nodes
    requires i < |ns|
  {
    ns[..i] + Swallow(ns[i], ns[i + 1..])
  }

  lemma {:induction false} SwallowKeeps(n: Node, post: Nodes, from: nat)
    requires n.at == from && Chained(post, from + NODE_SIZE + n.size) && !n.used
    ensures Chained(Swallow(n, post), from)
    ensures Ends(Swallow(n, post), from) == Ends(post, from + NODE_SIZE + n.size)
    ensures Used(Swallow(n, post)) == Used(post)
    ensures Merged(post, true) ==> Merged(Swallow(n, post), true)
    decreases |post|
  {
    Cons(n, post, from);
    if post != [] && !post[0].used {
      MergedMore(post[1..]);
      SwallowKeeps(n.(size := n.size + NODE_SIZE + post[0].size), post[1..], from);
    }
  }

  lemma {:induction false} MergedMore(ns: Nodes)
    ensures Merged(ns, false) ==> Merged(ns, true)
  {
  }

  lemma {:induction false} MergedAt(ns: Nodes, before: bool, i: nat)
    requires Merged(ns, before) && 0 < i < |ns|
    ensures ns[i - 1].used || ns[i].used
  {
    if i > 1 {
      MergedAt(ns[1..], ns[0].used, i - 1);
    }
  }

  /** Where a release starts: at the node itself, or at the unused one in front. */
  lemma {:induction false} FirstAt(ns: Nodes, k: nat)
    requires Merged(ns, true) && k < |ns|
    ensures First(Marked(ns, k), k) == if 0 < k && !ns[k - 1].used then k - 1 else k
  {
    var m := Marked(ns, k);
    if 0 < k && !ns[k - 1].used {
      assert First(m, k) == First(m, k - 1);
      if 1 < k {
        MergedAt(ns, true, k - 1);
        assert m[k - 2].used;
      }
    }
  }

  /** A release behind a used node, and behind an unused one. */
  lemma {:induction false} ReleasedTail(ns: Nodes, k: nat)
    requires Merged(ns, true) && k < |ns|
    ensures var n := Node(ns[k].at, ns[k].size, false);
            Released(ns, k) == if 0 < k && !ns[k - 1].used
                               then ns[..k - 1] + Swallow(ns[k - 1], [n] + ns[k + 1..])
                               else ns[..k] + Swallow(n, ns[k + 1..])
  {
    FirstAt(ns, k);
    if 0 < k && !ns[k - 1].used {
      MarkedBefore(ns, k);
    } else {
      MarkedAt(ns, k);
    }
  }

  lemma {:induction false} MarkedAt(ns: Nodes, k: nat)
    requires k < |ns|
    ensures Joined(Marked(ns, k), k) == ns[..k] + Swallow(Node(ns[k].at, ns[k].size, false), ns[k + 1..])
  {
    assert Marked(ns, k)[..k] == ns[..k] && Marked(ns, k)[k + 1..] == ns[k + 1..];
  }

  lemma {:induction false} MarkedBefore(ns: Nodes, k: nat)
    requires 0 < k < |ns|
    ensures Joined(Marked(ns, k), k - 1)
         == ns[..k - 1] + Swallow(ns[k - 1], [Node(ns[k].at, ns[k].size, false)] + ns[k + 1..])
  {
    var m := Marked(ns, k);
    assert m[..k - 1] == ns[..k - 1] && m[k - 1 + 1..] == [m[k]] + ns[k + 1..];
  }

  lemma {:induction false} SwallowNext(p: Node, n: Node, post: Nodes)
    requires !n.used
    ensures Swallow(p, [n] + post) == Swallow(p.(size := p.size + NODE_SIZE + n.size), post)
  {
    assert ([n] + post)[1..] == post;
  }

  /** The release of a node n between `pre` and `post`. */
  lemma {:induction false} ReleasedBehindUsed(pre: Nodes, n: Node, post: Nodes, from: nat)
    requires Chained(pre, from) && Ends(pre, from) == n.at && Chained(post, n.at + NODE_SIZE + n.size) && !n.used
    requires Merged(pre, true) && LastUsed(pre, true) && Merged(post, true)
    ensures var r := pre + Swallow(n, post);
            && Chained(r, from) && Ends(r, from) == Ends(post, n.at + NODE_SIZE + n.size)
            && Merged(r, true) && Used(r) == Used(pre) + Used(post)
  {
    SwallowKeeps(n, post, n.at);
    Concat(pre, Swallow(n, post), from);
    MergedConcat(pre, Swallow(n, post), true);
  }

  /** The node n that a release of node k starts from, and the nodes in front. */
  lemma {:induction false} ReleasedFrom(ns: Nodes, from: nat, k: nat) returns (pre: Nodes, n: Node)
    requires Chained(ns, from) && Merged(ns, true) && k < |ns| && ns[k].used
    ensures Released(ns, k) == pre + Swallow(n, ns[k + 1..]) && !n.used
    ensures Chained(pre, from) && Ends(pre, from) == n.at && Merged(pre, true) && LastUsed(pre, true)
    ensures n.at + NODE_SIZE + n.size == ns[k].at + NODE_SIZE + ns[k].size && Used(pre) == Used(ns[..k])
  {
    ReleasedTail(ns, k);
    n := Node(ns[k].at, ns[k].size, false);
    pre := ns[..k];
    Split(ns, from, k);
    if 0 < k && !ns[k - 1].used {
      SplitTwo(ns, from, k);
      SwallowNext(ns[k - 1], n, ns[k + 1..]);
      n := ns[k - 1].(size := ns[k - 1].size + NODE_SIZE + n.size);
      pre := ns[..k - 1];
    }
  }

  /** A release keeps the heap tiled and merged and gives back exactly the bytes of
      the node. */
  lemma {:induction false} ReleasedSane(ns: Nodes, from: nat, to: nat, k: nat)
    requires Sane(ns, from, to) && k < |ns| && ns[k].used
    ensures Sane(Released(ns, k), from, to)
    ensures Used(Released(ns, k)) == Used(ns) - ns[k].size
  {
    var pre, n := ReleasedFrom(ns, from, k);
    Split(ns, from, k);
    ReleasedBehindUsed(pre, n, ns[k + 1..], from);
  }

  /** The parts around node k and the one in front of it. */
  lemma {:induction false} SplitTwo(ns: Nodes, from: nat, k: nat)
    requires Chained(ns, from) && 0 < k < |ns| && Merged(ns, true) && !ns[k - 1].used
    ensures Chained(ns[..k - 1], from) && Ends(ns[..k - 1], from) == ns[k - 1].at
    ensures ns[k].at == ns[k - 1].at + NODE_SIZE + ns[k - 1].size
    ensures Merged(ns[..k - 1], true) && LastUsed(ns[..k - 1], true) && Used(ns[..k]) == Used(ns[..k - 1])
  {
    var p, front := ns[k - 1], ns[..k - 1];
    Split(ns, from, k);
    assert ns[..k] == front + [p];
    Concat(front, [p], from);
    MergedConcat(front, [p], true);
    assert [p][1..] == [];
  }

  /** Releasing what was just allocated by a cut restores the nodes exactly. */
  lemma {:induction false} ReleaseUndoesTake(ns: Nodes, from: nat, to: nat, k: nat, size: nat)
    requires Sane(ns, from, to) && k < |ns| && Fits(ns[k], size) && Cuts(ns[k], size)
    ensures k < |Taken(ns, k, size)| && Released(Taken(ns, k, size), k) == ns
  {
    var n, pre, post := ns[k], ns[..k], ns[k + 1..];
    var rest := Node(n.at + NODE_SIZE + size, n.size - size - NODE_SIZE, false);
    assert Merged(Taken(ns, k, size), true) by {
      TakenSaneIffCut(ns, from, to, k, size);
    }
    Split(ns, from, k);
    ReleasedMid(pre, Node(n.at, size, true), [rest] + post);
    SwallowNext(Node(n.at, size, false), rest, post);
    SwallowStops(n, post);
  }

  /** The release of a node behind a used one. */
  lemma {:induction false} ReleasedMid(pre: Nodes, n: Node, post: Nodes)
    requires Merged(pre + ([n] + post), true) && LastUsed(pre, true)
    ensures |pre| < |pre + ([n] + post)|
    ensures Released(pre + ([n] + post), |pre|) == pre + Swallow(Node(n.at, n.size, false), post)
  {
    Parts(pre, n, post);
    ReleasedTail(pre + ([n] + post), |pre|);
  }

  lemma {:induction false} Parts(pre: Nodes, n: Node, post: Nodes)
    ensures var ns := pre + ([n] + post);
            && |pre| < |ns| && ns[..|pre|] == pre && ns[|pre|] == n && ns[|pre| + 1..] == post
            && (pre != [] ==> ns[|pre| - 1] == pre[|pre| - 1])
  {
  }

  lemma {:induction false} SwallowStops(n: Node, post: Nodes)
    requires Merged(post, false)
    ensures Swallow(n, post) == [n] + post
  {
  }

  // ---- Runs --------------------------------------------------------------------------------------

  /** The nodes and `mem_heap_size`. */
  datatype State = State(nodes: Nodes, free: int)

  datatype Op = Alloc(size: nat) | Free(k: nat)

  /** A 32-bit request that finds no node, or one that it cuts; a node in use. */
  predicate Allowed(s: State, op: Op) {
    match op
    case Alloc(n) =>
      var k := Best(s.nodes, Align(n), 0);
      n < WORD && (k == |s.nodes| || Cuts(s.nodes[k], Align(n)))
    case Free(k) => k < |s.nodes| && s.nodes[k].used
  }

  function Allocated(s: State, n: nat): State {
    var k := Best(s.nodes, Align(n), 0);
    if k == |s.nodes| then s else State(Taken(s.nodes, k, Align(n)), s.free - Align(n))
  }

  function Apply(s: State, op: Op): State
    requires op.Free? ==> op.k < |s.nodes|
  {
    match op
    case Alloc(n) => Allocated(s, n)
    case Free(k) => State(Released(s.nodes, k), s.free + s.nodes[k].size)
  }

  /** Tiled and merged, and the count of free bytes plus the bytes in use is what the
      heap started with. */
  ghost predicate Inv(s: State, from: nat, to: nat) {
    Sane(s.nodes, from, to) && s.free + Used(s.nodes) == to - from - NODE_SIZE
  }

  /** `dos_mem_heap_init`. */
  function Initial(from: nat, to: nat): (s: State)
    requires from + NODE_SIZE < to
    ensures Inv(s, from, to)
  {
    assert [Node(from, to - from - NODE_SIZE, false)][1..] == [];
    State([Node(from, to - from - NODE_SIZE, false)], to - from - NODE_SIZE)
  }

  function Step(s: State, op: Op, from: nat, to: nat): (t: State)
    requires Inv(s, from, to) && Allowed(s, op)
    ensures Inv(t, from, to)
  {
    ApplyInv(s, op, from, to);
    Apply(s, op)
  }

  lemma {:induction false} ApplyInv(s: State, op: Op, from: nat, to: nat)
    requires Inv(s, from, to) && Allowed(s, op)
    ensures Inv(Apply(s, op), from, to)
  {
    match op
    case Alloc(n) =>
      var k := Best(s.nodes, Align(n), 0);
      if k < |s.nodes| {
        TakenSaneIffCut(s.nodes, from, to, k, Align(n));
        TakenUsed(s.nodes, from, k, Align(n));
      }
    case Free(k) => ReleasedSane(s.nodes, from, to, k);
  }

  /** Without the cut the count of free bytes is still right, but the nodes no
      longer tile the heap: every allocation keeps the invariant exactly if it finds
      no node or cuts the one it finds. */
  lemma {:induction false} AllocKeepsInvIff(s: State, n: nat, from: nat, to: nat)
    requires Inv(s, from, to) && n < WORD
    ensures Allocated(s, n).free + Used(Allocated(s, n).nodes) == to - from - NODE_SIZE
    ensures Inv(Allocated(s, n), from, to) <==> Allowed(s, Alloc(n))
  {
    var k := Best(s.nodes, Align(n), 0);
    if k < |s.nodes| {
      TakenSaneIffCut(s.nodes, from, to, k, Align(n));
      TakenUsed(s.nodes, from, k, Align(n));
    }
  }

  /** A heap of 100 bytes from address 8 with an unused node of 92: a request of 88 is not cut, and
      the node then claims only 88 of the 92 bytes. */
  lemma {:induction false} UncutBreaksTiling()
    ensures Inv(Initial(8, 108), 8, 108) && !Inv(Allocated(Initial(8, 108), 88), 8, 108)
  {
    var s := Initial(8, 108);
    AllocKeepsInvIff(s, 88, 8, 108);
    assert Align(88) == 88;
    assert Best(s.nodes, 88, 0) == 0 && !Cuts(s.nodes[0], 88);
  }

  ghost predicate Feasible(s: State, run: seq<Op>, from: nat, to: nat)
    requires Inv(s, from, to)
    decreases |run|
  {
    run == [] || (Allowed(s, run[0]) && Feasible(Step(s, run[0], from, to), run[1..], from, to))
  }

  function Exec(s: State, run: seq<Op>, from: nat, to: nat): (t: State)
    requires Inv(s, from, to) && Feasible(s, run, from, to)
    ensures Inv(t, from, to)
    decreases |run|
  {
    if run == [] then s else Exec(Step(s, run[0], from, to), run[1..], from, to)
  }

  /** In every run of allocations that cut and of releases, no two nodes overlap, all
      lie inside the heap, and two unused ones are never neighbours. */
  lemma {:induction false} RunKeepsHeap(from: nat, to: nat, run: seq<Op>, i: nat, j: nat)
    requires from + NODE_SIZE < to && Feasible(Initial(from, to), run, from, to)
    requires i < j < |Exec(Initial(from, to), run, from, to).nodes|
    ensures var ns := Exec(Initial(from, to), run, from, to).nodes;
            && from <= ns[i].at && ns[i].at + NODE_SIZE + ns[i].size <= ns[j].at
            && ns[j].at + NODE_SIZE + ns[j].size <= to
            && (j == i + 1 ==> ns[i].used || ns[j].used)
  {
    var ns := Exec(Initial(from, to), run, from, to).nodes;
    Disjoint(ns, from, i, j);
    if j == i + 1 {
      MergedAt(ns, true, j);
    }
  }

  // ---- What the callers hold ---------------------------------------------------------------------

  /** An allocation adds one node in use and touches no other. */
  lemma {:induction false} TakenMembers(ns: Nodes, from: nat, k: nat, size: nat, x: Node)
    requires Chained(ns, from) && k < |ns| && !ns[k].used && x.used
    ensures x in Taken(ns, k, size) <==> x in ns || x == Node(ns[k].at, size, true)
  {
    Split(ns, from, k);
  }

  lemma {:induction false} SwallowMembers(n: Node, post: Nodes, x: Node)
    requires !n.used && x.used
    ensures x in Swallow(n, post) <==> x in post
    decreases |post|
  {
    if post != [] && !post[0].used {
      SwallowMembers(n.(size := n.size + NODE_SIZE + post[0].size), post[1..], x);
      assert post == [post[0]] + post[1..];
    }
  }

  /** A release takes away one node in use and touches no other. */
  lemma {:induction false} ReleasedMembers(ns: Nodes, from: nat, k: nat, x: Node)
    requires Chained(ns, from) && Merged(ns, true) && k < |ns| && ns[k].used && x.used
    ensures x in Released(ns, k) <==> x in ns && x != ns[k]
  {
    ReleasedTail(ns, k);
    Once(ns, from, k);
    if 0 < k && !ns[k - 1].used {
      MembersBehind(ns, k, Released(ns, k), x);
    } else {
      MembersAt(ns, k, Released(ns, k), x);
    }
  }

  lemma {:induction false} MembersAt(ns: Nodes, k: nat, r: Nodes, x: Node)
    requires k < |ns| && x.used && ns[k] !in ns[..k] && ns[k] !in ns[k + 1..]
    requires r == ns[..k] + Swallow(Node(ns[k].at, ns[k].size, false), ns[k + 1..])
    ensures x in r <==> x in ns && x != ns[k]
  {
    SwallowMembers(Node(ns[k].at, ns[k].size, false), ns[k + 1..], x);
    assert ns == ns[..k] + ([ns[k]] + ns[k + 1..]);
  }

  lemma {:induction false} MembersBehind(ns: Nodes, k: nat, r: Nodes, x: Node)
    requires 0 < k < |ns| && x.used && ns[k] !in ns[..k] && ns[k] !in ns[k + 1..] && !ns[k - 1].used
    requires r == ns[..k - 1] + Swallow(ns[k - 1], [Node(ns[k].at, ns[k].size, false)] + ns[k + 1..])
    ensures x in r <==> x in ns && x != ns[k]
  {
    SwallowMembers(ns[k - 1], [Node(ns[k].at, ns[k].size, false)] + ns[k + 1..], x);
    assert ns == ns[..k - 1] + ([ns[k - 1]] + ([ns[k]] + ns[k + 1..]));
  }

  lemma {:induction false} Once(ns: Nodes, from: nat, k: nat)
    requires Chained(ns, from) && k < |ns|
    ensures ns[k] !in ns[..k] && ns[k] !in ns[k + 1..]
  {
    forall i | 0 <= i < k ensures ns[i] != ns[k] {
      Disjoint(ns, from, i, k);
    }
    forall i | k < i < |ns| ensures ns[i] != ns[k] {
      Disjoint(ns, from, k, i);
    }
  }

  /** Over a step, the nodes in use are those before, plus the one allocated or minus
      the one released. */
  lemma {:induction false} HeldExactly(s: State, op: Op, from: nat, to: nat, x: Node)
    requires Inv(s, from, to) && Allowed(s, op) && x.used
    ensures op.Free? ==> (x in Step(s, op, from, to).nodes <==> x in s.nodes && x != s.nodes[op.k])
    ensures op.Alloc? ==>
      var k := Best(s.nodes, Align(op.size), 0);
      x in Step(s, op, from, to).nodes <==>
        x in s.nodes || (k < |s.nodes| && x == Node(s.nodes[k].at, Align(op.size), true))
  {
    match op
    case Alloc(n) =>
      var k := Best(s.nodes, Align(n), 0);
      if k < |s.nodes| {
        TakenMembers(s.nodes, from, k, Align(n), x);
      }
    case Free(k) => ReleasedMembers(s.nodes, from, k, x);
  }
}
