/** The reference counts of packet buffers (common/lwip/core/pbuf.c): every pbuf
    counts the pointers to it, from callers and from the pbufs linked to it. */
module PbufRefs {

  /** A pbuf; NULL is none. */
  type Id = nat

  const NULL: Id := 0

  /** LWIP_PBUF_REF_T and the count of pbuf_free are 8-bit. */
  const BYTE: nat := 256

  /** The live pbufs by their `next` and `ref`, and the references callers hold. */
  datatype State = State(next: map<Id, Id>, ref: map<Id, nat>, held: multiset<Id>)

  /** The pbufs linked to x. */
  function In(next: map<Id, Id>, x: Id): set<Id> {
    set q | q in next && next[q] == x
  }

  /** The chain from x to its end. */
  ghost predicate Path(next: map<Id, Id>, x: Id, c: seq<Id>)
    decreases |c|
  {
    if x == NULL then c == [] else x in next && c != [] && c[0] == x && Path(next, next[x], c[1..])
  }

  /** Links lead to live pbufs, or nowhere. */
  ghost predicate Closed(next: map<Id, Id>) {
    NULL !in next && forall q <- next {:trigger next[q]} :: next[q] == NULL || next[q] in next
  }

  /** No chain runs in a circle. */
  ghost predicate Acyclic(next: map<Id, Id>) {
    forall x <- next {:trigger Finite(next, x)} :: Finite(next, x)
  }

  ghost predicate Finite(next: map<Id, Id>, x: Id) {
    exists c :: Path(next, x, c)
  }

  /** Each count is the number of references, and every live pbuf has one. */
  ghost predicate Balanced(next: map<Id, Id>, ref: map<Id, nat>, held: multiset<Id>) {
    && ref.Keys == next.Keys
    && (forall x <- next {:trigger Counted(next, ref, held, x)} :: Counted(next, ref, held, x))
    && (forall x <- held :: x in next)
  }

  ghost predicate Counted(next: map<Id, Id>, ref: map<Id, nat>, held: multiset<Id>, x: Id) {
    x in ref && 0 < ref[x] < BYTE && ref[x] == held[x] + |In(next, x)|
  }

  ghost predicate Inv(s: State) {
    Closed(s.next) && Acyclic(s.next) && Balanced(s.next, s.ref, s.held)
  }

  // ---- Chains ---------------------------------------------------------------------------------

  lemma {:induction false} PathUnique(next: map<Id, Id>, x: Id, c: seq<Id>, d: seq<Id>)
    requires Path(next, x, c) && Path(next, x, d)
    ensures c == d
    decreases |c|
  {
    if x != NULL {
      PathUnique(next, next[x], c[1..], d[1..]);
      assert c == [c[0]] + c[1..] && d == [d[0]] + d[1..];
    }
  }

  /** The chain from a pbuf on a chain is what is left of that chain. */
  lemma {:induction false} PathFrom(next: map<Id, Id>, x: Id, c: seq<Id>, i: nat)
    requires Path(next, x, c) && i < |c|
    ensures c[i] in next && c[i] != NULL && Path(next, c[i], c[i..])
    ensures next[c[i]] == if i + 1 < |c| then c[i + 1] else NULL
    decreases |c|
  {
    if i > 0 {
      PathFrom(next, next[x], c[1..], i - 1);
      assert c[1..][i - 1..] == c[i..];
    } else {
      assert c[0..] == c;
    }
  }

  /** No pbuf is on a chain twice. */
  lemma {:induction false} PathDistinct(next: map<Id, Id>, x: Id, c: seq<Id>, i: nat, j: nat)
    requires Path(next, x, c) && i < j < |c|
    ensures c[i] != c[j]
  {
    PathFrom(next, x, c, i);
    PathFrom(next, x, c, j);
    if c[i] == c[j] {
      PathUnique(next, c[i], c[i..], c[j..]);
    }
  }

  /** A chain that is not touched stays. */
  lemma {:induction false} PathKept(next: map<Id, Id>, next': map<Id, Id>, x: Id, c: seq<Id>)
    requires Path(next, x, c) && forall q <- c :: q in next && q in next' && next'[q] == next[q]
    ensures Path(next', x, c)
    decreases |c|
  {
    if x != NULL {
      PathKept(next, next', next[x], c[1..]);
    }
  }

  /** Cutting the link of p leaves every chain up to p. */
  lemma {:induction false} PathCut(next: map<Id, Id>, x: Id, c: seq<Id>, p: Id) returns (d: seq<Id>)
    requires Path(next, x, c) && p in next && p != NULL
    ensures Path(next[p := NULL], x, d)
    decreases |c|
  {
    if x == NULL {
      d := [];
    } else if x == p {
      d := [x];
      assert d[1..] == [];
    } else {
      var rest := PathCut(next, next[x], c[1..], p);
      d := [x] + rest;
      assert d[1..] == rest;
    }
  }

  /** A chain linked to another one. */
  lemma {:induction false} PathJoined(next: map<Id, Id>, h: Id, c: seq<Id>, last: Id, t: Id, d: seq<Id>)
    requires Path(next, h, c) && c != [] && last == c[|c| - 1] && Path(next[last := t], t, d)
    ensures Path(next[last := t], h, c + d)
    decreases |c|
  {
    assert (c + d)[1..] == c[1..] + d;
    if |c| == 1 {
      assert c[1..] + d == d;
    } else {
      PathFrom(next, h, c, 0);
      PathDistinct(next, h, c, 0, |c| - 1);
      PathJoined(next, next[h], c[1..], last, t, d);
    }
  }

  /** A chain with a new pbuf at its end. */
  lemma {:induction false} ExtendedPath(next: map<Id, Id>, p: Id, c: seq<Id>, q: Id)
    requires Path(next, p, c) && c != [] && q !in next && q != NULL
    ensures Path(next[q := NULL][c[|c| - 1] := q], p, c + [q])
  {
    var alloc := next[q := NULL];
    PathMembers(next, p, c);
    PathKept(next, alloc, p, c);
    var one := [q];
    assert one[1..] == [];
    assert Path(alloc[c[|c| - 1] := q], q, one);
    PathJoined(alloc, p, c, c[|c| - 1], q, one);
  }

  // ---- Counting links ---------------------------------------------------------------------------

  function One(b: bool): nat { if b then 1 else 0 }

  /** Setting the link of p. */
  lemma {:induction false} InSet(next: map<Id, Id>, p: Id, t: Id, x: Id)
    requires p in next
    ensures |In(next[p := t], x)| + One(x == next[p]) == |In(next, x)| + One(x == t)
  {
    var a, b := In(next, x), In(next[p := t], x);
    if x == t {
      assert b == a + {p};
    } else {
      assert b == a - {p};
    }
  }

  /** Deallocating p. */
  lemma {:induction false} InGone(next: map<Id, Id>, p: Id, x: Id)
    requires p in next
    ensures |In(next - {p}, x)| + One(x == next[p]) == |In(next, x)|
  {
    assert In(next - {p}, x) == In(next, x) - {p};
  }

  /** Allocating p. */
  lemma {:induction false} InNew(next: map<Id, Id>, p: Id, x: Id)
    requires p !in next && x != NULL
    ensures In(next[p := NULL], x) == In(next, x)
  {
  }

  // ---- The steps the operations are made of -------------------------------------------------------

  function Handle(x: Id): multiset<Id> {
    if x == NULL then multiset{} else multiset{x}
  }

  /** The link of p becomes a reference of the caller. */
  function Unlinked(s: State, p: Id): State
    requires p in s.next
  {
    State(s.next[p := NULL], s.ref, s.held + Handle(s.next[p]))
  }

  lemma {:induction false} UnlinkedInv(s: State, p: Id)
    requires Inv(s) && p in s.next
    ensures Inv(Unlinked(s, p))
  {
    var t := Unlinked(s, p);
    forall x <- t.next ensures Counted(t.next, t.ref, t.held, x) {
      assert Counted(s.next, s.ref, s.held, x);
      InSet(s.next, p, NULL, x);
    }
    forall x <- t.next ensures Finite(t.next, x) {
      assert Finite(s.next, x);
      var c :| Path(s.next, x, c);
      var d := PathCut(s.next, x, c, p);
    }
  }

  /** A reference of the caller to t becomes the link of p. */
  function Linked(s: State, p: Id, t: Id): State
    requires p in s.next
  {
    State(s.next[p := t], s.ref, s.held - Handle(t))
  }

  /** The chain from x after its end, if that is p, was linked to the chain d. */
  lemma {:induction false} PathGrown(next: map<Id, Id>, x: Id, c: seq<Id>, p: Id, t: Id, d: seq<Id>) returns (e: seq<Id>)
    requires Path(next, x, c) && p in next && next[p] == NULL && Path(next[p := t], t, d) && p != NULL
    ensures Path(next[p := t], x, e)
    decreases |c|
  {
    if x == NULL {
      e := [];
    } else if x == p {
      e := [x] + d;
      assert e[1..] == d;
    } else {
      var rest := PathGrown(next, next[x], c[1..], p, t, d);
      e := [x] + rest;
      assert e[1..] == rest;
    }
  }

  lemma {:induction false} LinkedInv(s: State, p: Id, t: Id, d: seq<Id>)
    requires Inv(s) && p in s.next && s.next[p] == NULL && t in s.held && Path(s.next, t, d) && p !in d
    ensures Inv(Linked(s, p, t))
  {
    var r := Linked(s, p, t);
    forall x <- r.next ensures Counted(r.next, r.ref, r.held, x) {
      assert Counted(s.next, s.ref, s.held, x);
      InSet(s.next, p, t, x);
    }
    LinkedAcyclic(s.next, p, t, d);
  }

  lemma {:induction false} LinkedAcyclic(next: map<Id, Id>, p: Id, t: Id, d: seq<Id>)
    requires Acyclic(next) && p in next && p != NULL && next[p] == NULL && Path(next, t, d) && p !in d
    ensures Acyclic(next[p := t])
  {
    var after := next[p := t];
    PathMembers(next, t, d);
    PathKept(next, after, t, d);
    forall x <- after ensures Finite(after, x) {
      assert Finite(next, x);
      var c :| Path(next, x, c);
      var e := PathGrown(next, x, c, p, t, d);
    }
  }

  lemma {:induction false} PathMembers(next: map<Id, Id>, x: Id, c: seq<Id>)
    requires Path(next, x, c)
    ensures forall q <- c :: q in next && q != NULL
  {
    forall i | 0 <= i < |c| ensures c[i] in next && c[i] != NULL {
      PathFrom(next, x, c, i);
    }
  }

  /** `pbuf_ref`. */
  function Referenced(s: State, p: Id): State
    requires p in s.ref
  {
    s.(ref := s.ref[p := Increment(s.ref[p])], held := s.held + multiset{p})
  }

  /** One more, in eight bits. */
  function Increment(n: nat): nat {
    if n + 1 == BYTE then 0 else n + 1
  }

  /** The count stays right exactly below 255. */
  lemma {:induction false} ReferencedInv(s: State, p: Id)
    requires Inv(s) && p in s.next
    ensures Inv(Referenced(s, p)) <==> s.ref[p] + 1 < BYTE
  {
    var t := Referenced(s, p);
    assert Counted(s.next, s.ref, s.held, p);
    if Balanced(t.next, t.ref, t.held) {
      assert Counted(t.next, t.ref, t.held, p);
    }
    if s.ref[p] + 1 < BYTE {
      forall x <- t.next ensures Counted(t.next, t.ref, t.held, x) {
        assert Counted(s.next, s.ref, s.held, x);
      }
    }
  }

  /** One less, in eight bits. */
  function Decrement(n: nat): nat {
    if n == 0 then BYTE - 1 else n - 1
  }

  /** A new pbuf with one reference. */
  function Allocated(s: State, p: Id): State {
    State(s.next[p := NULL], s.ref[p := 1], s.held + multiset{p})
  }

  lemma {:induction false} AllocatedInv(s: State, p: Id)
    requires Inv(s) && p != NULL && p !in s.next
    ensures Inv(Allocated(s, p))
  {
    var t := Allocated(s, p);
    assert In(s.next, p) == {};
    forall x <- t.next ensures Counted(t.next, t.ref, t.held, x) {
      if x != p {
        assert Counted(s.next, s.ref, s.held, x);
      }
      InNew(s.next, p, x);
    }
    NewAcyclic(s.next, p);
  }

  lemma {:induction false} NewAcyclic(next: map<Id, Id>, p: Id)
    requires Acyclic(next) && p !in next && p != NULL
    ensures Acyclic(next[p := NULL])
  {
    var after := next[p := NULL];
    assert [p][1..] == [] && Path(after, p, [p]);
    forall x <- next ensures Finite(after, x) {
      assert Finite(next, x);
      var c :| Path(next, x, c);
      PathMembers(next, x, c);
      PathKept(next, after, x, c);
    }
  }

  // ---- pbuf_free -----------------------------------------------------------------------------------

  /** Deallocation of a pbuf with one reference: its link becomes the caller's. */
  function Gone(s: State, p: Id): State
    requires p in s.next
  {
    State(s.next - {p}, s.ref - {p}, s.held - multiset{p} + Handle(s.next[p]))
  }

  lemma {:induction false} GoneInv(s: State, p: Id)
    requires Inv(s) && p in s.held && s.ref[p] == 1
    ensures Inv(Gone(s, p))
  {
    var t := Gone(s, p);
    assert Counted(s.next, s.ref, s.held, p);
    assert In(s.next, p) == {};
    forall q <- t.next ensures t.next[q] == NULL || t.next[q] in t.next {
      NoLink(s.next, p, q);
    }
    forall x <- t.next ensures Counted(t.next, t.ref, t.held, x) {
      assert Counted(s.next, s.ref, s.held, x);
      InGone(s.next, p, x);
    }
    GoneAcyclic(s.next, p);
  }

  lemma {:induction false} GoneAcyclic(next: map<Id, Id>, p: Id)
    requires Acyclic(next) && In(next, p) == {}
    ensures Acyclic(next - {p})
  {
    forall x <- next - {p} ensures Finite(next - {p}, x) {
      assert Finite(next, x);
      var c :| Path(next, x, c);
      Untouched(next, x, c, p);
      PathMembers(next, x, c);
      PathKept(next, next - {p}, x, c);
    }
  }

  lemma {:induction false} NoLink(next: map<Id, Id>, p: Id, q: Id)
    requires In(next, p) == {} && q in next
    ensures next[q] != p
  {
    assert q !in In(next, p);
  }

  /** A pbuf nothing links to is on no chain but its own. */
  lemma {:induction false} Untouched(next: map<Id, Id>, x: Id, c: seq<Id>, p: Id)
    requires Path(next, x, c) && In(next, p) == {} && x != p
    ensures p !in c
  {
    forall i | 0 <= i < |c| ensures c[i] != p {
      if i > 0 {
        PathFrom(next, x, c, i - 1);
        NoLink(next, p, c[i - 1]);
      }
    }
  }

  lemma {:induction false} HeldInv(s: State, p: Id)
    requires Inv(s) && p in s.held && s.ref[p] != 1
    ensures Inv(s.(ref := s.ref[p := Decrement(s.ref[p])], held := s.held - multiset{p}))
  {
    OneLess(s.next, s.ref, s.held, p);
  }

  lemma {:induction false} OneLess(next: map<Id, Id>, ref: map<Id, nat>, held: multiset<Id>, p: Id)
    requires Balanced(next, ref, held) && p in held && ref[p] != 1
    ensures Balanced(next, ref[p := Decrement(ref[p])], held - multiset{p})
  {
    var ref', held' := ref[p := Decrement(ref[p])], held - multiset{p};
    assert Counted(next, ref, held, p);
    forall x <- next ensures Counted(next, ref', held', x) {
      assert Counted(next, ref, held, x);
    }
  }

  /** `pbuf_free`: one reference less for p; if it was the last one p goes, and so
      does its reference to the next pbuf. */
  function Freed(s: State, p: Id): (r: State)
    requires Inv(s) && (p == NULL || p in s.held)
    ensures Inv(r)
    decreases |s.next.Keys|
  {
    if p == NULL then s
    else if s.ref[p] == 1 then
      GoneInv(s, p);
      assert (s.next - {p}).Keys < s.next.Keys;
      SmallerSet((s.next - {p}).Keys, s.next.Keys);
      Freed(Gone(s, p), s.next[p])
    else
      HeldInv(s, p);
      s.(ref := s.ref[p := Decrement(s.ref[p])], held := s.held - multiset{p})
  }

  lemma {:induction false} SmallerSet(a: set<Id>, b: set<Id>)
    requires a < b
    ensures |a| < |b|
  {
    assert |b - a| + |a| == |b| by {
      assert (b - a) + a == b && (b - a) !! a;
    }
    assert b - a != {};
  }

  /** How many pbufs at the head of a chain have one reference. */
  function Singles(ref: map<Id, nat>, c: seq<Id>): (n: nat)
    requires forall x <- c :: x in ref
    ensures n <= |c|
    ensures forall i :: 0 <= i < n ==> ref[c[i]] == 1
    ensures n < |c| ==> ref[c[n]] != 1
  {
    if c == [] || ref[c[0]] != 1 then 0 else 1 + Singles(ref, c[1..])
  }

  function Elems(c: seq<Id>): set<Id> {
    set x | x in c
  }

  /** The links and the counts without the first n pbufs of a chain; the next one has
      one reference less. */
  function NextWithout(next: map<Id, Id>, c: seq<Id>, n: nat): map<Id, Id>
    requires n <= |c|
  {
    next - Elems(c[..n])
  }

  function RefWithout(ref: map<Id, nat>, c: seq<Id>, n: nat): map<Id, nat>
    requires n <= |c| && (n < |c| ==> c[n] in ref)
  {
    if n < |c| then (ref - Elems(c[..n]))[c[n] := Decrement(ref[c[n]])] else ref - Elems(c[..n])
  }

  /** `pbuf_free` deallocates exactly the longest run at the head of the chain whose
      counts reach zero, takes one reference off the pbuf behind it, and changes
      nothing else. */
  lemma {:induction false} FreedExactly(s: State, p: Id, c: seq<Id>)
    requires Inv(s) && (p == NULL || p in s.held) && Path(s.next, p, c) && forall x <- c :: x in s.ref
    ensures var n := Singles(s.ref, c);
            Freed(s, p) == State(NextWithout(s.next, c, n), RefWithout(s.ref, c, n), s.held - Handle(p))
    decreases |c|
  {
    var n := Singles(s.ref, c);
    if p == NULL || s.ref[p] != 1 {
      FreedStops(s, p, c);
    } else {
      var t, q, rest := Gone(s, p), s.next[p], c[1..];
      GoneInv(s, p);
      TailKept(s.next, p, c);
      SinglesKept(s.ref, t.ref, rest);
      FreedExactly(t, q, rest);
      Without(s, c, n, Freed(s, p));
    }
  }

  lemma {:induction false} Without(s: State, c: seq<Id>, n: nat, r: State)
    requires 0 < n <= |c| && c[0] !in c[1..] && c[0] in s.next && c[0] != NULL
    requires n < |c| ==> c[n] in s.ref && c[1..][n - 1] in Gone(s, c[0]).ref
    requires var t, q := Gone(s, c[0]), s.next[c[0]];
             r == State(NextWithout(t.next, c[1..], n - 1), RefWithout(t.ref, c[1..], n - 1), t.held - Handle(q))
    ensures r == State(NextWithout(s.next, c, n), RefWithout(s.ref, c, n), s.held - Handle(c[0]))
  {
    WithoutHead(s, c, n);
    HandleMoves(s.held, c[0], s.next[c[0]]);
  }

  lemma {:induction false} FreedStops(s: State, p: Id, c: seq<Id>)
    requires Inv(s) && (p == NULL || (p in s.held && s.ref[p] != 1)) && Path(s.next, p, c) && forall x <- c :: x in s.ref
    ensures Singles(s.ref, c) == 0
    ensures Freed(s, p) == State(NextWithout(s.next, c, 0), RefWithout(s.ref, c, 0), s.held - Handle(p))
  {
    WithoutNone(s, c);
  }

  lemma {:induction false} WithoutNone(s: State, c: seq<Id>)
    requires c != [] ==> c[0] in s.ref
    ensures NextWithout(s.next, c, 0) == s.next
    ensures RefWithout(s.ref, c, 0) == if c == [] then s.ref else s.ref[c[0] := Decrement(s.ref[c[0]])]
  {
    assert Elems(c[..0]) == {};
    assert s.next - {} == s.next && s.ref - {} == s.ref;
  }

  lemma {:induction false} WithoutHead(s: State, c: seq<Id>, n: nat)
    requires 0 < n <= |c| && c[0] !in c[1..] && (n < |c| ==> c[n] in s.ref)
    ensures n < |c| ==> c[1..][n - 1] in s.ref - {c[0]} && (s.ref - {c[0]})[c[1..][n - 1]] == s.ref[c[n]]
    ensures NextWithout(s.next - {c[0]}, c[1..], n - 1) == NextWithout(s.next, c, n)
    ensures RefWithout(s.ref - {c[0]}, c[1..], n - 1) == RefWithout(s.ref, c, n)
  {
    assert n < |c| ==> c[n] == c[1..][n - 1];
    assert Elems(c[..n]) == {c[0]} + Elems(c[1..][..n - 1]);
  }

  lemma {:induction false} HandleMoves(held: multiset<Id>, p: Id, q: Id)
    requires p != NULL
    ensures held - multiset{p} + Handle(q) - Handle(q) == held - Handle(p)
  {
  }

  /** What is left of a chain once its head is gone. */
  lemma {:induction false} TailKept(next: map<Id, Id>, p: Id, c: seq<Id>)
    requires Path(next, p, c) && p != NULL
    ensures Path(next - {p}, next[p], c[1..]) && p !in c[1..]
  {
    forall i | 0 <= i < |c[1..]| ensures c[1..][i] != p {
      PathDistinct(next, p, c, 0, i + 1);
    }
    PathMembers(next, p, c);
    PathKept(next, next - {p}, next[p], c[1..]);
  }

  lemma {:induction false} SinglesKept(ref: map<Id, nat>, ref': map<Id, nat>, c: seq<Id>)
    requires forall x <- c :: x in ref && x in ref' && ref'[x] == ref[x]
    ensures Singles(ref', c) == Singles(ref, c)
  {
    if c != [] {
      SinglesKept(ref, ref', c[1..]);
    }
  }

  // ---- The operations -----------------------------------------------------------------------------

  /** The pbufs from x on. */
  ghost function ChainOf(s: State, x: Id): (c: seq<Id>)
    requires Inv(s) && x in s.next
    ensures Path(s.next, x, c) && c != []
  {
    assert Finite(s.next, x);
    var c :| Path(s.next, x, c);
    c
  }

  ghost function Last(s: State, x: Id): (q: Id)
    requires Inv(s) && x in s.next
    ensures q in s.next && s.next[q] == NULL
  {
    var c := ChainOf(s, x);
    PathFrom(s.next, x, c, |c| - 1);
    c[|c| - 1]
  }

  /** `pbuf_cat`: the caller's reference to t goes into the chain. */
  ghost function Cat(s: State, h: Id, t: Id): (r: State)
    requires Inv(s) && h in s.next && t in s.held && Last(s, h) !in ChainOf(s, t)
    ensures Inv(r)
  {
    LinkedInv(s, Last(s, h), t, ChainOf(s, t));
    Linked(s, Last(s, h), t)
  }

  /** `pbuf_chain`: the caller keeps its reference to t. */
  ghost function Chain(s: State, h: Id, t: Id): (r: State)
    requires Inv(s) && h in s.next && t in s.held && Last(s, h) !in ChainOf(s, t) && s.ref[t] + 1 < BYTE
    ensures Inv(r) && r.held == s.held
  {
    ReferencedInv(Cat(s, h, t), t);
    Referenced(Cat(s, h, t), t)
  }

  /** `pbuf_dechain`, and what `pbuf_realloc` does behind the new last pbuf. */
  function Dechained(s: State, p: Id): (r: State)
    requires Inv(s) && p in s.next
    ensures Inv(r)
  {
    UnlinkedInv(s, p);
    Freed(Unlinked(s, p), s.next[p])
  }

  /** One round of `pbuf_free_header`: the caller's reference moves on to the next. */
  function HeadDropped(s: State, p: Id): (r: State)
    requires Inv(s) && p in s.held
    ensures Inv(r)
  {
    UnlinkedInv(s, p);
    Freed(Unlinked(s, p), p)
  }

  /** `pbuf_alloc`: every further pbuf is linked behind the last one. */
  function Grown(s: State, last: Id, ids: seq<Id>): (r: State)
    requires Inv(s) && last in s.next && s.next[last] == NULL && Fresh(s, ids)
    ensures Inv(r)
    decreases |ids|
  {
    if ids == [] then s
    else
      GrowInv(s, last, ids[0]);
      Grown(Linked(Allocated(s, ids[0]), last, ids[0]), ids[0], ids[1..])
  }

  /** Pbufs that do not exist yet, each named once. */
  predicate Fresh(s: State, ids: seq<Id>) {
    forall i :: 0 <= i < |ids| ==> ids[i] != NULL && ids[i] !in s.next && forall j :: 0 <= j < i ==> ids[j] != ids[i]
  }

  lemma {:induction false} GrowInv(s: State, last: Id, p: Id)
    requires Inv(s) && last in s.next && s.next[last] == NULL && p !in s.next && p != NULL
    ensures Inv(Linked(Allocated(s, p), last, p))
  {
    AllocatedInv(s, p);
    assert [p][1..] == [] && Path(Allocated(s, p).next, p, [p]);
    LinkedInv(Allocated(s, p), last, p, [p]);
  }

  function New(s: State, ids: seq<Id>): (r: State)
    requires Inv(s) && ids != [] && Fresh(s, ids)
    ensures Inv(r)
  {
    AllocatedInv(s, ids[0]);
    Grown(Allocated(s, ids[0]), ids[0], ids[1..])
  }

  /** What `pbuf_dechain` returns: the rest of the chain, or NULL if it counted any
      deallocated pbuf, in eight bits. */
  function DechainResult(s: State, p: Id, freed: nat): Id
    requires p in s.next
  {
    if s.next[p] == NULL || freed % BYTE > 0 then NULL else s.next[p]
  }

  /** The answer of `pbuf_dechain` is right, NULL exactly if the rest of the chain is
      gone, if and only if the number of pbufs it freed is 0 or no multiple of 256. */
  lemma {:induction false} DechainTells(s: State, p: Id, c: seq<Id>)
    requires Inv(s) && p in s.next && s.next[p] != NULL
    requires Path(Unlinked(s, p).next, s.next[p], c) && forall x <- c :: x in s.ref
    ensures var n := Singles(s.ref, c);
            (DechainResult(s, p, n) == NULL <==> s.next[p] !in Dechained(s, p).next)
            <==> (n == 0 || n % BYTE != 0)
  {
    var q, n := s.next[p], Singles(s.ref, c);
    UnlinkedInv(s, p);
    FreedExactly(Unlinked(s, p), q, c);
    assert q in Dechained(s, p).next <==> q !in Elems(c[..n]);
    assert n > 0 ==> c[..n][0] == q;
  }

  // ---- Runs ---------------------------------------------------------------------------------------

  datatype Op =
    | Alloc(ids: seq<Id>)
    | Ref(p: Id)
    | CatTo(h: Id, t: Id)
    | ChainTo(h: Id, t: Id)
    | Dechain(p: Id)
    | Realloc(h: Id, keep: nat)
    | FreeHeader(p: Id)
    | Free(p: Id)

  /** Callers pass pbufs they hold references to, chains that do not share their end,
      and counts below 255; `keep` is the index of the new last pbuf. */
  ghost predicate Allowed(s: State, op: Op)
    requires Inv(s)
  {
    match op
    case Alloc(ids) => ids != [] && Fresh(s, ids)
    case Ref(p) => p in s.held && s.ref[p] + 1 < BYTE
    case CatTo(h, t) => h in s.held && t in s.held && Last(s, h) !in ChainOf(s, t)
    case ChainTo(h, t) => h in s.held && t in s.held && Last(s, h) !in ChainOf(s, t) && s.ref[t] + 1 < BYTE
    case Dechain(p) => p in s.held
    case Realloc(h, keep) => h in s.held && keep < |ChainOf(s, h)|
    case FreeHeader(p) => p in s.held
    case Free(p) => p in s.held
  }

  ghost function Step(s: State, op: Op): (t: State)
    requires Inv(s) && Allowed(s, op)
    ensures Inv(t)
  {
    match op
    case Alloc(ids) => New(s, ids)
    case Ref(p) => ReferencedInv(s, p); Referenced(s, p)
    case CatTo(h, t) => Cat(s, h, t)
    case ChainTo(h, t) => Chain(s, h, t)
    case Dechain(p) => Dechained(s, p)
    case Realloc(h, keep) => PathFrom(s.next, h, ChainOf(s, h), keep); Dechained(s, ChainOf(s, h)[keep])
    case FreeHeader(p) => HeadDropped(s, p)
    case Free(p) => Freed(s, p)
  }

  /** The references a step gives its caller. */
  function Gets(s: State, op: Op): multiset<Id> {
    match op
    case Alloc(ids) => if ids == [] then multiset{} else multiset{ids[0]}
    case Ref(p) => multiset{p}
    case FreeHeader(p) => if p in s.next && s.next[p] != NULL then multiset{s.next[p]} else multiset{}
    case _ => multiset{}
  }

  /** And those it takes. */
  function Takes(op: Op): multiset<Id> {
    match op
    case CatTo(_, t) => multiset{t}
    case FreeHeader(p) => multiset{p}
    case Free(p) => multiset{p}
    case _ => multiset{}
  }

  /** What the callers hold is what the calls have given them and not taken back. */
  lemma {:induction false} StepHolds(s: State, op: Op)
    requires Inv(s) && Allowed(s, op)
    ensures Takes(op) <= s.held + Gets(s, op) && Step(s, op).held == s.held + Gets(s, op) - Takes(op)
  {
    match op
    case Alloc(ids) => NewHolds(s, ids);
    case CatTo(h, t) => CatHolds(s, h, t);
    case Dechain(p) => DechainedHolds(s, p);
    case Realloc(h, keep) =>
      PathFrom(s.next, h, ChainOf(s, h), keep);
      DechainedHolds(s, ChainOf(s, h)[keep]);
    case FreeHeader(p) => HeadDroppedHolds(s, p);
    case Free(p) => FreedHolds(s, p);
    case _ =>
  }

  lemma {:induction false} NewHolds(s: State, ids: seq<Id>)
    requires Inv(s) && ids != [] && Fresh(s, ids)
    ensures New(s, ids).held == s.held + multiset{ids[0]}
  {
    AllocatedInv(s, ids[0]);
    GrownHolds(Allocated(s, ids[0]), ids[0], ids[1..]);
  }

  lemma {:induction false} CatHolds(s: State, h: Id, t: Id)
    requires Inv(s) && h in s.next && t in s.held && Last(s, h) !in ChainOf(s, t)
    ensures Cat(s, h, t).held == s.held - multiset{t}
  {
    HeldNotNull(s, t);
  }

  lemma {:induction false} HeldNotNull(s: State, t: Id)
    requires Inv(s) && t in s.held
    ensures t != NULL
  {
  }

  lemma {:induction false} HeadDroppedHolds(s: State, p: Id)
    requires Inv(s) && p in s.held
    ensures p in s.next && HeadDropped(s, p).held == s.held + Handle(s.next[p]) - multiset{p}
  {
    UnlinkedInv(s, p);
    FreedHolds(Unlinked(s, p), p);
  }

  lemma {:induction false} GrownHolds(s: State, last: Id, ids: seq<Id>)
    requires Inv(s) && last in s.next && s.next[last] == NULL && Fresh(s, ids)
    ensures Grown(s, last, ids).held == s.held
    decreases |ids|
  {
    if ids != [] {
      GrowInv(s, last, ids[0]);
      GrownHolds(Linked(Allocated(s, ids[0]), last, ids[0]), ids[0], ids[1..]);
    }
  }

  lemma {:induction false} FreedHolds(s: State, p: Id)
    requires Inv(s) && (p == NULL || p in s.held)
    ensures Freed(s, p).held == s.held - Handle(p)
    decreases |s.next.Keys|
  {
    if p != NULL && s.ref[p] == 1 {
      GoneInv(s, p);
      assert (s.next - {p}).Keys < s.next.Keys;
      SmallerSet((s.next - {p}).Keys, s.next.Keys);
      FreedHolds(Gone(s, p), s.next[p]);
    }
  }

  lemma {:induction false} DechainedHolds(s: State, p: Id)
    requires Inv(s) && p in s.next
    ensures Dechained(s, p).held == s.held
  {
    UnlinkedInv(s, p);
    FreedHolds(Unlinked(s, p), s.next[p]);
  }

  /** No pbuf at all. */
  function Empty(): (s: State)
    ensures Inv(s)
  {
    State(map[], map[], multiset{})
  }

  ghost predicate Feasible(s: State, run: seq<Op>)
    requires Inv(s)
    decreases |run|
  {
    run == [] || (Allowed(s, run[0]) && Feasible(Step(s, run[0]), run[1..]))
  }

  ghost function Exec(s: State, run: seq<Op>): (t: State)
    requires Inv(s) && Feasible(s, run)
    ensures Inv(t)
    decreases |run|
  {
    if run == [] then s else Exec(Step(s, run[0]), run[1..])
  }

  lemma {:induction false} PathShort(next: map<Id, Id>, x: Id, c: seq<Id>)
    requires Path(next, x, c)
    ensures |c| <= |next.Keys|
  {
    forall i, j | 0 <= i < j < |c| ensures c[i] != c[j] {
      PathDistinct(next, x, c, i, j);
    }
    PathMembers(next, x, c);
    ElemsCount(c);
    SmallSet(Elems(c), next.Keys);
  }

  lemma {:induction false} ElemsCount(c: seq<Id>)
    requires forall i, j :: 0 <= i < j < |c| ==> c[i] != c[j]
    ensures |Elems(c)| == |c|
  {
    if c == [] {
      assert Elems(c) == {};
    } else {
      ElemsCount(c[1..]);
      assert Elems(c) == {c[0]} + Elems(c[1..]);
    }
  }

  lemma {:induction false} SmallSet(a: set<Id>, b: set<Id>)
    requires a <= b
    ensures |a| <= |b|
  {
    if a != b {
      SmallerSet(a, b);
    }
  }

  /** Every live pbuf lies on the chain of one that a caller holds. */
  lemma {:induction false} Reachable(s: State, x: Id, d: seq<Id>) returns (h: Id, c: seq<Id>)
    requires Inv(s) && x in s.next && Path(s.next, x, d)
    ensures h in s.held && Path(s.next, h, c) && x in c
    decreases |s.next.Keys| - |d|
  {
    PathShort(s.next, x, d);
    if x in s.held {
      h, c := x, d;
    } else {
      assert Counted(s.next, s.ref, s.held, x) && |In(s.next, x)| > 0;
      var q :| q in In(s.next, x);
      var e := [q] + d;
      assert e[1..] == d;
      PathShort(s.next, q, e);
      h, c := Reachable(s, q, e);
      var i :| 0 <= i < |c| && c[i] == q;
      PathFrom(s.next, h, c, i);
    }
  }

  /** In every run, each live pbuf counts exactly the references to it, none links to
      a pbuf that is gone, and none is leaked: a caller can still reach it. */
  lemma {:induction false} RunKeepsCounts(run: seq<Op>, x: Id)
    requires Feasible(Empty(), run) && x in Exec(Empty(), run).next
    ensures var s := Exec(Empty(), run);
            && x in s.ref && s.ref[x] == s.held[x] + |In(s.next, x)|
            && (s.next[x] == NULL || s.next[x] in s.next)
            && exists h, c :: h in s.held && Path(s.next, h, c) && x in c
  {
    var s := Exec(Empty(), run);
    assert Counted(s.next, s.ref, s.held, x);
    var d := ChainOf(s, x);
    var h, c := Reachable(s, x, d);
  }

  /** Once the callers hold nothing, nothing is left. */
  lemma {:induction false} NothingHeldNothingLeft(run: seq<Op>)
    requires Feasible(Empty(), run) && Exec(Empty(), run).held == multiset{}
    ensures Exec(Empty(), run).next == map[]
  {
    var s := Exec(Empty(), run);
    if s.next != map[] {
      var x :| x in s.next;
      var h, c := Reachable(s, x, ChainOf(s, x));
    }
  }
}
