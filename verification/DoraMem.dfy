/** The heap of mem/mem.c as the code keeps it: headers in memory, `mem_tail` and
    `mem_heap_size`. The class is proved against the list of nodes in `DoraHeap`. */
module DoraMem {

  import opened DoraHeap
  import opened Machine

  /** `dos_mem_heap_node`; offset 0 is DOS_NULL. */
  datatype Header = Header(prev: nat, size: nat, used: bool)

  type Headers = map<nat, Header>

  /** The headers describe the nodes, each linked to the one in front. */
  ghost predicate Laid(hdr: Headers, ns: Nodes, prev: nat) {
    ns == [] || (
      && ns[0].at in hdr && hdr[ns[0].at] == Header(prev, ns[0].size, ns[0].used)
      && Laid(hdr, ns[1..], ns[0].at))
  }

  function LastAt(ns: Nodes, prev: nat): nat {
    if ns == [] then prev else ns[|ns| - 1].at
  }

  lemma {:induction false} LaidConcat(hdr: Headers, a: Nodes, b: Nodes, prev: nat)
    ensures Laid(hdr, a + b, prev) <==> Laid(hdr, a, prev) && Laid(hdr, b, LastAt(a, prev))
  {
    if a == [] {
      assert a + b == b;
    } else {
      assert (a + b)[1..] == a[1..] + b;
      LaidConcat(hdr, a[1..], b, a[0].at);
    }
  }

  lemma {:induction false} LaidCons(hdr: Headers, n: Node, post: Nodes, prev: nat)
    ensures Laid(hdr, [n] + post, prev)
       <==> n.at in hdr && hdr[n.at] == Header(prev, n.size, n.used) && Laid(hdr, post, n.at)
  {
    assert ([n] + post)[1..] == post;
  }

  /** Between two offsets nothing is written. */
  ghost predicate Kept(hdr: Headers, hdr': Headers, from: nat, to: nat) {
    forall x <- hdr :: from <= x < to ==> x in hdr' && hdr'[x] == hdr[x]
  }

  lemma {:induction false} LaidKept(hdr: Headers, hdr': Headers, ns: Nodes, prev: nat, from: nat, to: nat)
    requires Laid(hdr, ns, prev) && Chained(ns, from) && Ends(ns, from) <= to && Kept(hdr, hdr', from, to)
    ensures Laid(hdr', ns, prev)
  {
    if ns != [] {
      var next := from + NODE_SIZE + ns[0].size;
      Extends(ns[1..], next);
      LaidKept(hdr, hdr', ns[1..], ns[0].at, next, to);
    }
  }

  /** Only the link of the first header is written. */
  lemma {:induction false} LaidRelinked(hdr: Headers, hdr': Headers, ns: Nodes, prev: nat, prev': nat, from: nat, to: nat)
    requires Laid(hdr, ns, prev) && Chained(ns, from) && Ends(ns, from) <= to && Kept(hdr, hdr', from + 1, to)
    requires ns != [] ==> from in hdr' && hdr'[from] == hdr[from].(prev := prev')
    ensures Laid(hdr', ns, prev')
  {
    if ns != [] {
      LaidKept(hdr, hdr', ns[1..], ns[0].at, from + NODE_SIZE + ns[0].size, to);
    }
  }

  /** The header of node k. */
  lemma {:induction false} LaidAt(hdr: Headers, ns: Nodes, prev: nat, k: nat)
    requires Laid(hdr, ns, prev) && k < |ns|
    ensures ns[k].at in hdr
    ensures hdr[ns[k].at] == Header(if k == 0 then prev else ns[k - 1].at, ns[k].size, ns[k].used)
  {
    if k > 0 {
      LaidAt(hdr, ns[1..], ns[0].at, k - 1);
    }
  }

  /** The offset of node k, or DOS_NULL. */
  function AtOrNull(ns: Nodes, k: int): nat {
    if 0 <= k < |ns| then ns[k].at else 0
  }

  lemma {:induction false} NodeAt(hdr: Headers, ns: Nodes, from: nat, k: nat)
    requires Laid(hdr, ns, 0) && Chained(ns, from) && 0 < from && k < |ns|
    ensures 0 < ns[k].at && ns[k].at in hdr
    ensures hdr[ns[k].at] == Header(AtOrNull(ns, k - 1), ns[k].size, ns[k].used)
  {
    LaidAt(hdr, ns, 0, k);
    Inside(ns, from, k);
  }

  /** A node ends where the next one starts, and only the last one is where the tail points. */
  lemma {:induction false} NodeBehind(hdr: Headers, ns: Nodes, from: nat, k: nat)
    requires Laid(hdr, ns, 0) && Chained(ns, from) && 0 < from && k < |ns|
    ensures ns[k].at in hdr
    ensures LastAt(ns, 0) == ns[k].at <==> k + 1 == |ns|
    ensures k + 1 < |ns| ==> ns[k + 1].at == ns[k].at + NODE_SIZE + hdr[ns[k].at].size
  {
    NodeAt(hdr, ns, from, k);
    if k + 1 < |ns| {
      Disjoint(ns, from, k, |ns| - 1);
      Split(ns, from, k);
      assert ns[k + 1..][0] == ns[k + 1];
    }
  }

  /** What one round of the search compares: the header of node j and that of the best one behind it. */
  lemma {:induction false} SearchRound(hdr: Headers, ns: Nodes, from: nat, size: nat, j: nat)
    requires Laid(hdr, ns, 0) && Chained(ns, from) && 0 < from && j < |ns|
    ensures var node, best := AtOrNull(ns, j), AtOrNull(ns, Best(ns, size, j + 1));
            && node in hdr && (best != 0 ==> best in hdr) && hdr[node].prev == AtOrNull(ns, j - 1)
            && (hdr[node].prev == 0 <==> j == 0)
            && AtOrNull(ns, Best(ns, size, j))
               == if !hdr[node].used && hdr[node].size > size && (best == 0 || hdr[best].size > hdr[node].size) then node else best
  {
    NodeAt(hdr, ns, from, j);
    var k := Best(ns, size, j + 1);
    if k < |ns| {
      NodeAt(hdr, ns, from, k);
    }
    if j > 0 {
      NodeAt(hdr, ns, from, j - 1);
    }
  }

  /** The headers around node k. */
  lemma {:induction false} LaidParts(hdr: Headers, ns: Nodes, from: nat, k: nat)
    requires Laid(hdr, ns, 0) && Chained(ns, from) && k < |ns|
    ensures Laid(hdr, ns[..k], 0) && Laid(hdr, ns[k + 1..], ns[k].at) && ns[k].at in hdr
    ensures hdr[ns[k].at] == Header(LastAt(ns[..k], 0), ns[k].size, ns[k].used)
  {
    Split(ns, from, k);
    LaidConcat(hdr, ns[..k], [ns[k]] + ns[k + 1..], 0);
    LaidCons(hdr, ns[k], ns[k + 1..], LastAt(ns[..k], 0));
  }

  /** Only the header of node k is written, and its link stays. */
  lemma {:induction false} LaidSet(hdr: Headers, pre: Nodes, n: Node, post: Nodes, from: nat, end: nat)
    requires Laid(hdr, pre, 0) && Laid(hdr, post, n.at) && Chained(pre, from) && Ends(pre, from) == n.at
    requires Chained(post, end) && n.at < end && n.at in hdr && hdr[n.at].prev == LastAt(pre, 0)
    ensures Laid(hdr[n.at := Header(hdr[n.at].prev, n.size, n.used)], pre + ([n] + post), 0)
  {
    var hdr' := hdr[n.at := Header(hdr[n.at].prev, n.size, n.used)];
    LaidKept(hdr, hdr', pre, 0, from, n.at);
    LaidKept(hdr, hdr', post, n.at, end, Ends(post, end));
    LaidCons(hdr', n, post, LastAt(pre, 0));
    LaidConcat(hdr', pre, [n] + post, 0);
  }

  /** The headers after a cut: a new header behind the node taken, and the link of
      its successor, if it has one. */
  function Cut(hdr: Headers, at: nat, size: nat, next: nat): Headers
    requires at in hdr && Cuts(Node(at, hdr[at].size, false), size) && (next != 0 ==> next in hdr)
  {
    var cut := at + NODE_SIZE + size;
    var hdr1 := hdr[cut := Header(at, hdr[at].size - size - NODE_SIZE, false)];
    var hdr2 := if next != 0 then hdr1[next := hdr1[next].(prev := cut)] else hdr1;
    hdr2[at := Header(hdr[at].prev, size, true)]
  }

  lemma {:induction false} CutLaid(hdr: Headers, pre: Nodes, n: Node, post: Nodes, from: nat, size: nat)
    requires Laid(hdr, pre, 0) && Laid(hdr, post, n.at) && Chained(pre, from) && Ends(pre, from) == n.at
    requires Chained(post, n.at + NODE_SIZE + n.size) && Cuts(n, size)
    requires n.at in hdr && hdr[n.at] == Header(LastAt(pre, 0), n.size, n.used)
    ensures var next := if post == [] then 0 else post[0].at;
            && (next != 0 ==> next in hdr)
            && Laid(Cut(hdr, n.at, size, next), pre + ([Node(n.at, size, true)] + Remainder(n, post, size)), 0)
  {
    var next := if post == [] then 0 else post[0].at;
    var cut, end := n.at + NODE_SIZE + size, n.at + NODE_SIZE + n.size;
    var hdr' := Cut(hdr, n.at, size, next);
    var rest := Node(cut, n.size - size - NODE_SIZE, false);
    LaidKept(hdr, hdr', pre, 0, from, n.at);
    LaidRelinked(hdr, hdr', post, n.at, cut, end, Ends(post, end));
    LaidCons(hdr', rest, post, n.at);
    LaidCons(hdr', Node(n.at, size, true), [rest] + post, LastAt(pre, 0));
    LaidConcat(hdr', pre, [Node(n.at, size, true)] + ([rest] + post), 0);
  }

  function TakenHeaders(hdr: Headers, at: nat, size: nat, next: nat): Headers
    requires at in hdr && (next != 0 ==> next in hdr)
  {
    if hdr[at].size > size + NODE_SIZE then Cut(hdr, at, size, next)
    else hdr[at := Header(hdr[at].prev, size, true)]
  }

  lemma {:induction false} TakenLaid(hdr: Headers, ns: Nodes, from: nat, k: nat, size: nat)
    requires Laid(hdr, ns, 0) && Chained(ns, from) && k < |ns|
    ensures ns[k].at in hdr && (AtOrNull(ns, k + 1) != 0 ==> AtOrNull(ns, k + 1) in hdr)
    ensures Laid(TakenHeaders(hdr, ns[k].at, size, AtOrNull(ns, k + 1)), Taken(ns, k, size), 0)
  {
    var n, pre, post := ns[k], ns[..k], ns[k + 1..];
    Split(ns, from, k);
    LaidParts(hdr, ns, from, k);
    if Cuts(n, size) {
      CutLaid(hdr, pre, n, post, from, size);
    } else {
      LaidSet(hdr, pre, Node(n.at, size, true), post, from, n.at + NODE_SIZE + n.size);
    }
  }

  /** The last node after node k was taken, and where the node behind it starts. */
  lemma {:induction false} TakenLast(ns: Nodes, from: nat, k: nat, size: nat)
    requires Chained(ns, from) && k < |ns| && ns[k].size > size
    ensures LastAt(Taken(ns, k, size), 0)
         == if k + 1 == |ns| && Cuts(ns[k], size) then ns[k].at + NODE_SIZE + size else LastAt(ns, 0)
    ensures ns[k].at == LastAt(ns, 0) <==> k + 1 == |ns|
    ensures k + 1 < |ns| ==> ns[k + 1].at == ns[k].at + NODE_SIZE + ns[k].size
    ensures LastAt(ns, 0) != ns[k].at + NODE_SIZE + size
  {
    assert LastAt(Taken(ns, k, size), 0) == LastAt(Remainder(ns[k], ns[k + 1..], size), ns[k].at) by {
      LastConcat(ns[..k], Node(ns[k].at, size, true), Remainder(ns[k], ns[k + 1..], size));
    }
    if k + 1 < |ns| {
      assert ns[k + 1..][|ns| - k - 2] == ns[|ns| - 1];
      Disjoint(ns, from, k, k + 1);
      Disjoint(ns, from, k, |ns| - 1);
      Split(ns, from, k);
    }
  }

  lemma {:induction false} LastConcat(pre: Nodes, n: Node, post: Nodes)
    ensures LastAt(pre + ([n] + post), 0) == LastAt(post, n.at)
  {
  }

  /** The state of the merge loop: `node` lies between the nodes `pre`, which are laid
      out, and `post`, whose first link is out of date. */
  ghost predicate Around(hdr: Headers, tail: nat, from: nat, pre: Nodes, node: nat, post: Nodes, stale: nat) {
    && Laid(hdr, pre, 0) && Chained(pre, from) && Ends(pre, from) == node
    && node in hdr && hdr[node].prev == LastAt(pre, 0) && !hdr[node].used
    && Laid(hdr, post, stale) && Chained(post, node + NODE_SIZE + hdr[node].size) && tail == LastAt(post, node)
  }

  lemma {:induction false} Behind(hdr: Headers, tail: nat, from: nat, pre: Nodes, node: nat, post: Nodes, stale: nat)
    requires Around(hdr, tail, from, pre, node, post, stale)
    ensures tail == node <==> post == []
    ensures post != [] ==> post[0].at == node + NODE_SIZE + hdr[node].size && post[0].at in hdr
                           && hdr[post[0].at] == Header(stale, post[0].size, post[0].used)
                           && (tail == post[0].at <==> |post| == 1)
  {
    if post != [] {
      Inside(post, node + NODE_SIZE + hdr[node].size, |post| - 1);
      if |post| > 1 {
        Disjoint(post, node + NODE_SIZE + hdr[node].size, 0, |post| - 1);
      }
    }
  }

  lemma {:induction false} AbsorbStep(hdr: Headers, tail: nat, from: nat, pre: Nodes, node: nat, post: Nodes, stale: nat)
    requires Around(hdr, tail, from, pre, node, post, stale) && post != [] && post[0].at in hdr
    ensures var next := post[0].at;
            Around(hdr[node := hdr[node].(size := hdr[node].size + NODE_SIZE + hdr[next].size)],
                   if next == tail then node else tail, from, pre, node, post[1..], next)
  {
    var next := post[0].at;
    var hdr' := hdr[node := hdr[node].(size := hdr[node].size + NODE_SIZE + hdr[next].size)];
    var end := next + NODE_SIZE + post[0].size;
    Behind(hdr, tail, from, pre, node, post, stale);
    LaidKept(hdr, hdr', pre, 0, from, node);
    LaidKept(hdr, hdr', post[1..], next, end, Ends(post[1..], end));
  }

  lemma {:induction false} AbsorbEnd(hdr: Headers, tail: nat, from: nat, pre: Nodes, node: nat, post: Nodes, stale: nat)
    requires Around(hdr, tail, from, pre, node, post, stale)
    ensures post != [] ==> post[0].at in hdr
    ensures var hdr' := if post == [] then hdr else hdr[post[0].at := hdr[post[0].at].(prev := node)];
            var ns := pre + ([Node(node, hdr[node].size, false)] + post);
            Laid(hdr', ns, 0) && tail == LastAt(ns, 0)
  {
    var n := Node(node, hdr[node].size, false);
    var end := node + NODE_SIZE + n.size;
    var hdr' := if post == [] then hdr else hdr[post[0].at := hdr[post[0].at].(prev := node)];
    LaidKept(hdr, hdr', pre, 0, from, node);
    LaidRelinked(hdr, hdr', post, stale, node, end, Ends(post, end));
    LaidCons(hdr', n, post, LastAt(pre, 0));
    LaidConcat(hdr', pre, [n] + post, 0);
  }

  lemma {:induction false} AroundAt(hdr: Headers, ns: Nodes, from: nat, i: nat)
    requires Laid(hdr, ns, 0) && Chained(ns, from) && i < |ns| && !ns[i].used
    ensures Around(hdr, LastAt(ns, 0), from, ns[..i], ns[i].at, ns[i + 1..], ns[i].at)
    ensures hdr[ns[i].at].size == ns[i].size
  {
    Split(ns, from, i);
    LaidParts(hdr, ns, from, i);
  }

  lemma {:induction false} MarkedLaid(hdr: Headers, ns: Nodes, from: nat, k: nat)
    requires Laid(hdr, ns, 0) && Chained(ns, from) && k < |ns| && ns[k].at in hdr
    ensures Laid(hdr[ns[k].at := hdr[ns[k].at].(used := false)], Marked(ns, k), 0)
    ensures Chained(Marked(ns, k), from) && LastAt(Marked(ns, k), 0) == LastAt(ns, 0)
  {
    var n, pre, post := Node(ns[k].at, ns[k].size, false), ns[..k], ns[k + 1..];
    Split(ns, from, k);
    LaidParts(hdr, ns, from, k);
    LaidSet(hdr, pre, n, post, from, n.at + NODE_SIZE + n.size);
    Concat(pre, [n] + post, from);
    Cons(n, post, n.at);
    assert Marked(ns, k) == pre + ([n] + post);
  }

  lemma {:induction false} FirstUnused(ns: Nodes, k: nat)
    requires k < |ns| && !ns[k].used
    ensures !ns[First(ns, k)].used
  {
    if 0 < k && !ns[k - 1].used {
      FirstUnused(ns, k - 1);
    }
  }

  class Heap {
    const from: nat
    const to: nat
    var hdr: Headers
    var tail: nat
    var free: int
    ghost var nodes: Nodes

    /** The nodes are laid out in memory, tiled or not. */
    ghost predicate Linked()
      reads this
    {
      0 < from && nodes != [] && Laid(hdr, nodes, 0) && tail == LastAt(nodes, 0)
    }

    ghost function View(): State
      reads this
    {
      State(nodes, free)
    }

    ghost predicate Valid()
      reads this
    {
      Linked() && Inv(View(), from, to)
    }

    /** `dos_mem_heap_init`, of a region that can hold a header. */
    constructor (from: nat, to: nat)
      requires 0 < from && from + NODE_SIZE < to
      ensures this.from == from && this.to == to && Valid() && View() == Initial(from, to)
    {
      this.from, this.to := from, to;
      hdr := map[from := Header(0, to - from - NODE_SIZE, false)];
      tail := from;
      free := to - from - NODE_SIZE;
      nodes := [Node(from, to - from - NODE_SIZE, false)];
      new;
      assert nodes[1..] == [];
      assert View() == Initial(from, to);
    }

    /** The search of `dos_mem_alloc`, from the tail along the links. No node that
        is looked at has exactly the requested size, so the search never ends early. */
    method Search(size: nat) returns (best: nat)
      requires Linked() && Chained(nodes, from)
      ensures best == AtOrNull(nodes, Best(nodes, size, 0))
    {
      var node := tail;
      best := 0;
      ghost var j: nat := |nodes|;
      NodeAt(hdr, nodes, from, j - 1);
      while node != 0
        invariant j <= |nodes| && node == AtOrNull(nodes, j - 1) && (node == 0 <==> j == 0)
        invariant best == AtOrNull(nodes, Best(nodes, size, j))
        decreases j
      {
        j := j - 1;
        SearchRound(hdr, nodes, from, size, j);
        if !hdr[node].used && hdr[node].size > size && (best == 0 || hdr[best].size > hdr[node].size) {
          best := node;
        }
        node := hdr[node].prev;
      }
    }

    /** `_dos_get_next_node`: for the k-th node of the heap the one behind it in the list, and none behind
        the last. */
    method NextNode(node: nat, ghost k: nat) returns (next: nat)
      requires node in hdr
      ensures Linked() && Chained(nodes, from) && k < |nodes| && node == nodes[k].at ==> next == AtOrNull(nodes, k + 1)
      ensures next == if tail == node then 0 else node + NODE_SIZE + hdr[node].size
    {
      if Linked() && Chained(nodes, from) && k < |nodes| && node == nodes[k].at {
        NodeBehind(hdr, nodes, from, k);
      }
      if tail == node {
        return 0;
      } else {
        return node + NODE_SIZE + hdr[node].size;
      }
    }

    /** The stores of `dos_mem_alloc` into the best node. */
    method Take(best: nat, size: nat, ghost k: nat)
      requires Linked() && Chained(nodes, from) && k < |nodes| && best == nodes[k].at && Fits(nodes[k], size)
      modifies `hdr, `tail, `free, `nodes
      ensures Linked() && nodes == Taken(old(nodes), k, size) && free == old(free) - size
    {
      NodeAt(hdr, nodes, from, k);
      TakenLaid(hdr, nodes, from, k, size);
      TakenLast(nodes, from, k, size);
      ghost var hdr1 := TakenHeaders(hdr, best, size, AtOrNull(nodes, k + 1));
      if hdr[best].size - size > NODE_SIZE {
        var cut := best + NODE_SIZE + size;
        hdr := hdr[cut := Header(best, hdr[best].size - size - NODE_SIZE, false)];
        if best != tail {
          var node := NextNode(cut, |nodes|);
          if node != 0 {
            hdr := hdr[node := hdr[node].(prev := cut)];
          }
        } else {
          tail := cut;
        }
      }
      hdr := hdr[best := Header(hdr[best].prev, size, true)];
      free := free - size;
      assert hdr == hdr1;
      nodes := Taken(nodes, k, size);
    }

    /** `dos_mem_alloc`: the smallest unused node strictly larger than the aligned
        request, or DOS_NULL if there is none. The heap stays tiled exactly if the
        node is cut. */
    method Alloc(n: nat) returns (mem: nat)
      requires Valid() && n < WORD
      modifies `hdr, `tail, `free, `nodes
      ensures Linked() && View() == Allocated(old(View()), n)
      ensures Valid() <==> Allowed(old(View()), Op.Alloc(n))
      ensures var k := Best(old(nodes), Align(n), 0);
              mem == if k < |old(nodes)| then old(nodes)[k].at + NODE_SIZE else 0
    {
      var size := Align(n);
      ghost var k := Best(nodes, size, 0);
      AllocKeepsInvIff(View(), n, from, to);
      var best := Search(size);
      if k < |nodes| {
        NodeAt(hdr, nodes, from, k);
      }
      if best == 0 {
        return 0;
      }
      Take(best, size, k);
      return best + NODE_SIZE;
    }

    /** Back over unused nodes. */
    method Back(node: nat, ghost k: nat) returns (first: nat)
      requires Linked() && Chained(nodes, from) && k < |nodes| && node == nodes[k].at
      ensures first == nodes[First(nodes, k)].at
    {
      first := node;
      ghost var i: nat := k;
      NodeAt(hdr, nodes, from, i);
      if i > 0 {
        NodeAt(hdr, nodes, from, i - 1);
      }
      while hdr[first].prev != 0 && !hdr[hdr[first].prev].used
        invariant i <= k && first == nodes[i].at && First(nodes, k) == First(nodes, i)
        invariant first in hdr && hdr[first].prev == AtOrNull(nodes, i - 1) && (i > 0 <==> hdr[first].prev != 0)
        invariant i > 0 ==> hdr[first].prev in hdr && hdr[hdr[first].prev].used == nodes[i - 1].used
        decreases i
      {
        first, i := hdr[first].prev, i - 1;
        NodeAt(hdr, nodes, from, i);
        if i > 0 {
          NodeAt(hdr, nodes, from, i - 1);
        }
      }
    }

    /** The merge loop behind `node`, and the link of the node left behind it. */
    method Absorb(node: nat, ghost pre: Nodes, ghost post: Nodes)
      requires Around(hdr, tail, from, pre, node, post, node) && 0 < from
      modifies `hdr, `tail, `nodes
      ensures Linked() && nodes == pre + Swallow(Node(node, old(hdr)[node].size, false), post)
    {
      ghost var left, stale := post, node;
      Behind(hdr, tail, from, pre, node, left, stale);
      var next := NextNode(node, |nodes|);
      while next != 0 && !hdr[next].used
        invariant Around(hdr, tail, from, pre, node, left, stale)
        invariant Swallow(Node(node, hdr[node].size, false), left) == Swallow(Node(node, old(hdr)[node].size, false), post)
        invariant next == if left == [] then 0 else left[0].at
        invariant left != [] ==> 0 < next && next in hdr && hdr[next].used == left[0].used
        decreases |left|
      {
        AbsorbStep(hdr, tail, from, pre, node, left, stale);
        hdr := hdr[node := hdr[node].(size := hdr[node].size + NODE_SIZE + hdr[next].size)];
        if next == tail {
          tail := node;
        }
        left, stale := left[1..], next;
        Behind(hdr, tail, from, pre, node, left, stale);
        next := NextNode(node, |nodes|);
      }
      AbsorbEnd(hdr, tail, from, pre, node, left, stale);
      if next != 0 {
        hdr := hdr[next := hdr[next].(prev := node)];
      }
      nodes := pre + ([Node(node, hdr[node].size, false)] + left);
    }

    /** The accepted path of `dos_mem_free`. */
    method Release(node: nat, ghost k: nat)
      requires Linked() && Chained(nodes, from) && k < |nodes| && nodes[k].at == node
      modifies `hdr, `tail, `free, `nodes
      ensures Linked() && nodes == Released(old(nodes), k) && free == old(free) + old(nodes)[k].size
    {
      NodeAt(hdr, nodes, from, k);
      MarkedLaid(hdr, nodes, from, k);
      hdr := hdr[node := hdr[node].(used := false)];
      free := free + hdr[node].size;
      nodes := Marked(nodes, k);
      var first := Back(node, k);
      ghost var i := First(nodes, k);
      FirstUnused(nodes, k);
      AroundAt(hdr, nodes, from, i);
      Absorb(first, nodes[..i], nodes[i + 1..]);
    }

    /** `dos_mem_free`: refused exactly for DOS_NULL and for a node not in use. */
    method Free(mem: nat, ghost k: nat) returns (ok: bool)
      requires Valid() && (mem != 0 ==> k < |nodes| && nodes[k].at + NODE_SIZE == mem)
      modifies `hdr, `tail, `free, `nodes
      ensures Valid() && ok == (mem != 0 && old(nodes)[k].used)
      ensures View() == if ok then Apply(old(View()), Op.Free(k)) else old(View())
    {
      if mem == 0 {
        return false;
      }
      var node := mem - NODE_SIZE;
      NodeAt(hdr, nodes, from, k);
      if !hdr[node].used {
        return false;
      }
      ApplyInv(View(), Op.Free(k), from, to);
      Release(node, k);
      return true;
    }
  }
}
