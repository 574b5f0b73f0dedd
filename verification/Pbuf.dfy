/** The loops of common/lwip/core/pbuf.c over chains, step by step: what `pbuf_free`, `pbuf_cat`,
    `pbuf_dechain`, `pbuf_realloc` and `pbuf_free_header` have done after so many rounds. */
module Pbuf {

  import opened Machine
  import opened PbufRefs
  import opened PbufTotals

  lemma {:induction false} Increments(n: nat)
    ensures Increment(n % BYTE) == (n + 1) % BYTE
  {
  }

  ghost predicate Callable(s: State, p: Id, c: seq<Id>) {
    Inv(s) && (p == NULL || p in s.held) && Path(s.next, p, c) && forall x <- c :: x in s.ref
  }

  /** The loop of `pbuf_free` started with p in state s0 has reached `cur` in state s, with d
      the chain from there, and deallocated n pbufs. */
  ghost predicate Freeing(s0: State, p: Id, c: seq<Id>, s: State, cur: Id, d: seq<Id>, n: nat) {
    && Callable(s0, p, c) && Inv(s) && (cur == NULL || Callable(s, cur, d))
    && Freed(s, cur) == Freed(s0, p)
    && Singles(s0.ref, c) == n + if cur == NULL then 0 else Singles(s.ref, d)
  }

  /** One round of the loop, and where it goes on. */
  function Dropped(s: State, cur: Id): State
    requires cur in s.next && cur in s.ref
  {
    if s.ref[cur] == 1 then Gone(s, cur)
    else s.(ref := s.ref[cur := Decrement(s.ref[cur])], held := s.held - multiset{cur})
  }

  lemma {:induction false} FreeingRound(s0: State, p: Id, c: seq<Id>, s: State, cur: Id, d: seq<Id>, n: nat)
    requires Freeing(s0, p, c, s, cur, d, n) && cur != NULL
    ensures cur in s.next && cur in s.ref && d != []
    ensures s.ref[cur] == 1 ==> Freeing(s0, p, c, Dropped(s, cur), s.next[cur], d[1..], n + 1)
    ensures s.ref[cur] != 1 ==> Freeing(s0, p, c, Dropped(s, cur), NULL, d[1..], n)
  {
    if s.ref[cur] == 1 {
      FreeingGone(s0, p, c, s, cur, d, n);
    } else {
      FreeingStops(s0, p, c, s, cur, d, n);
    }
  }

  lemma {:induction false} FreeingGone(s0: State, p: Id, c: seq<Id>, s: State, cur: Id, d: seq<Id>, n: nat)
    requires Freeing(s0, p, c, s, cur, d, n) && cur != NULL && s.ref[cur] == 1
    ensures Freeing(s0, p, c, Gone(s, cur), s.next[cur], d[1..], n + 1)
  {
    GoneCallable(s, cur, d);
    assert Freed(s, cur) == Freed(Gone(s, cur), s.next[cur]);
  }

  lemma {:induction false} GoneCallable(s: State, p: Id, c: seq<Id>)
    requires Callable(s, p, c) && p != NULL && s.ref[p] == 1
    ensures Callable(Gone(s, p), s.next[p], c[1..])
    ensures Singles(s.ref, c) == 1 + Singles(Gone(s, p).ref, c[1..])
    ensures s.next[p] == NULL ==> c[1..] == []
  {
    assert Inv(Gone(s, p)) by {
      GoneInv(s, p);
    }
    TailKept(s.next, p, c);
    SinglesKept(s.ref, s.ref - {p}, c[1..]);
  }

  lemma {:induction false} FreeingStops(s0: State, p: Id, c: seq<Id>, s: State, cur: Id, d: seq<Id>, n: nat)
    requires Freeing(s0, p, c, s, cur, d, n) && cur != NULL && s.ref[cur] != 1
    ensures Freeing(s0, p, c, s.(ref := s.ref[cur := Decrement(s.ref[cur])], held := s.held - multiset{cur}), NULL, d[1..], n)
  {
    HeldInv(s, cur);
  }

  ghost predicate Sums(tot: Sizes, c: seq<Id>, d: int) {
    forall x <- c :: x in tot && 0 <= Word(tot[x] + d)
  }

  /** The totals along the chain on the way: that of pbuf i is still the old one. */
  lemma {:induction false} ShiftedAhead(next: Links, tot: Sizes, h: Id, c: seq<Id>, i: nat, d: int)
    requires Path(next, h, c) && i < |c| && Sums(tot, c, d)
    ensures c[i] in next && c[i] in Shifted(tot, c, i, d) && Shifted(tot, c, i, d)[c[i]] == tot[c[i]]
    ensures next[c[i]] == if i + 1 < |c| then c[i + 1] else NULL
    ensures i + 1 < |c| ==> c[i + 1] != NULL
  {
    PathFrom(next, h, c, i);
    if i + 1 < |c| {
      PathFrom(next, h, c, i + 1);
    }
    forall j | 0 <= j < i ensures c[j] != c[i] {
      PathDistinct(next, h, c, j, i);
    }
    ShiftedAt(tot, c, i, d, c[i]);
  }

  /** Two chains that do not share their end share nothing. */
  lemma {:induction false} Apart(next: Links, h: Id, c: seq<Id>, t: Id, d: seq<Id>)
    requires Path(next, h, c) && c != [] && Path(next, t, d) && d != [] && c[|c| - 1] !in d
    ensures t !in c
  {
    if t in c {
      var i :| 0 <= i < |c| && c[i] == t;
      PathFrom(next, h, c, i);
      assert c[i..][|c| - 1 - i] == c[|c| - 1];
      PathUnique(next, t, c[i..], d);
    }
  }

  /** 16-bit totals shifted by less than a word are natural numbers again. */
  lemma {:induction false} SizedSums(tot: Sizes, c: seq<Id>, d: int)
    requires (forall x <- c :: x in tot && tot[x] < HALF_WORD) && -(HALF_WORD as int) < d < HALF_WORD
    ensures Sums(tot, c, d)
  {
  }

  /** What is released once p is unlinked from the rest of its chain. */
  lemma {:induction false} Unlinking(s: State, p: Id, c: seq<Id>)
    requires Inv(s) && p in s.next && Path(s.next, p, c)
    ensures Callable(Unlinked(s, p), s.next[p], c[1..]) && forall x <- c[1..] :: x in s.ref
    ensures Dechained(s, p) == Freed(Unlinked(s, p), s.next[p])
    ensures s.next[p] == NULL ==> Dechained(s, p) == s
  {
    UnlinkedInv(s, p);
    BehindPath(s.next, p, c, 1);
    PathMembers(s.next, p, c);
    if s.next[p] == NULL {
      UnlinkedNothing(s, p);
    }
  }

  lemma {:induction false} UnlinkedNothing(s: State, p: Id)
    requires p in s.next && s.next[p] == NULL
    ensures Unlinked(s, p) == s
  {
    assert s.next[p := NULL] == s.next;
  }

  /** The totals after `pbuf_dechain`: both that of p, of length n, and that of its
      successor are set. */
  function DechainedTotals(tot: Sizes, p: Id, q: Id, n: nat): Sizes
    requires p in tot && n <= tot[p]
  {
    if q == NULL then tot else tot[q := tot[p] - n][p := n]
  }

  /** The totals that `pbuf_dechain` sets are those of the first pbuf alone, shifted. */
  lemma {:induction false} DechainShiftsAlong(next: Links, len: Sizes, tot: Sizes, p: Id, c: seq<Id>)
    requires Path(next, p, c) && c != [] && Totals(next, len, tot) && NULL !in tot
    requires NULL !in next && (forall x <- c :: x in next && x in len && x in tot && tot[x] < HALF_WORD)
    ensures p in len && p in tot && len[p] <= tot[p] && tot[p] + (0 - Tail(tot, next[p])) == len[p]
    ensures Sums(tot, c, 0 - Tail(tot, next[p])) && (forall y <- c[..1] :: 0 <= tot[y] + (0 - Tail(tot, next[p])) < HALF_WORD)
    ensures DechainedTotals(tot, p, next[p], len[p]) == Shifted(tot, c, 1, 0 - Tail(tot, next[p]))
    ensures len[p := len[p]] == len
    ensures Private(next, c, 1) <==> In(next, p) == {}
  {
    var q := next[p];
    PathFrom(next, p, c, 0);
    assert Right(next, len, tot, p) && c[..1] == [p];
    if |c| > 1 {
      PathDistinct(next, p, c, 0, 1);
    }
    AloneTotals(tot, p, q, len[p], c);
    AloneIsPrivate(next, p, c);
  }

  lemma {:induction false} AloneTotals(tot: Sizes, p: Id, q: Id, n: nat, c: seq<Id>)
    requires p in tot && p != q && tot[p] == n + Tail(tot, q) && (q == NULL ==> NULL !in tot) && (q != NULL ==> q in tot)
    requires c != [] && c[0] == p && tot[p] < HALF_WORD && forall x <- c :: x in tot && 0 <= Word(tot[x] + (0 - Tail(tot, q)))
    ensures DechainedTotals(tot, p, q, n) == Shifted(tot, c, 1, 0 - Tail(tot, q))
  {
    assert Shifted(tot, c, 1, 0 - Tail(tot, q)) == Shifted(tot, c, 0, 0 - Tail(tot, q))[p := n];
    assert q != NULL ==> tot[q := tot[q]] == tot;
    assert q == NULL ==> tot[p := n] == tot;
  }

  lemma {:induction false} AloneIsPrivate(next: Links, p: Id, c: seq<Id>)
    requires Path(next, p, c) && c != [] && p in next && next[p] != p
    ensures Private(next, c, 1) <==> In(next, p) == {}
  {
    assert c[..1] == [p];
    if In(next, p) != {} {
      var x :| x in In(next, p);
      assert x !in c[..1] && next[x] in c[..1];
    }
    forall x <- next | In(next, p) == {} ensures next[x] != p {
      NoLink(next, p, x);
    }
  }

  /** On the way to the new last pbuf: if what remains does not fit into pbuf i, the chain
      goes on, and what remains then is again the total less what is cut off. */
  lemma {:induction false} ShrinkOn(next: Links, len: Sizes, tot: Sizes, h: Id, c: seq<Id>, i: nat, shrink: nat)
    requires Path(next, h, c) && i < |c| && Totals(next, len, tot) && NULL !in tot
    ensures c[i] in next && c[i] in len && c[i] in tot
    ensures shrink <= tot[c[i]] && tot[c[i]] - shrink > len[c[i]]
      ==> i + 1 < |c| && c[i + 1] in tot && tot[c[i + 1]] == tot[c[i]] - len[c[i]]
  {
    PathFrom(next, h, c, i);
    assert Right(next, len, tot, c[i]);
    if i + 1 < |c| {
      PathFrom(next, h, c, i + 1);
    }
  }

  lemma {:induction false} UpdateRemove<T>(m: map<Id, T>, k: Id, v: T)
    ensures m[k := v] - {k} == m - {k}
  {
  }

  // ---- pbuf_free_header ------------------------------------------------------------------------

  /** How many whole pbufs at the head of a chain the first n bytes cover, and what is left
      of n behind them. */
  function Drops(len: Sizes, c: seq<Id>, n: nat): (r: (nat, nat))
    requires forall x <- c :: x in len
    ensures r.0 <= |c| && (r.0 < |c| ==> r.1 == 0 || r.1 < len[c[r.0]])
  {
    if n == 0 || c == [] || n < len[c[0]] then (0, n)
    else
      var rest := Drops(len, c[1..], n - len[c[0]]);
      (1 + rest.0, rest.1)
  }

  /** c is a chain whose head the caller holds. */
  ghost predicate Headed(s: State, c: seq<Id>) {
    c != [] ==> c[0] in s.held && Path(s.next, c[0], c)
  }

  lemma {:induction false} HeadCallable(s: State, f: Id)
    requires Inv(s) && f in s.held
    ensures f in s.next && Callable(Unlinked(s, f), f, [f])
    ensures HeadDropped(s, f) == Freed(Unlinked(s, f), f)
  {
    UnlinkedInv(s, f);
    assert [f][1..] == [] && Path(Unlinked(s, f).next, f, [f]);
  }

  lemma {:induction false} HeadDroppedHeld(s: State, f: Id)
    requires Inv(s) && f in s.held
    ensures HeadDropped(s, f).held == s.held + Handle(s.next[f]) - Handle(f)
  {
    HeadCallable(s, f);
    FreedExactly(Unlinked(s, f), f, [f]);
  }

  lemma {:induction false} DroppedHeaded(s: State, c: seq<Id>)
    requires Inv(s) && Headed(s, c) && c != []
    ensures Headed(HeadDropped(s, c[0]), c[1..]) && (s.next[c[0]] == if |c| > 1 then c[1] else NULL)
    ensures |c| > 1 ==> c[1] != NULL
  {
    var f := c[0];
    PathFrom(s.next, f, c, 0);
    if |c| > 1 {
      PathFrom(s.next, f, c, 1);
      HeadDroppedNext(s, f);
      StillHeaded(s.next, HeadDropped(s, f).next, c);
      HeadDroppedHeld(s, f);
      Differ(s.next, f, c);
    }
  }

  lemma {:induction false} Differ(next: Links, f: Id, c: seq<Id>)
    requires Path(next, f, c) && |c| > 1
    ensures c[0] != c[1]
  {
    PathDistinct(next, f, c, 0, 1);
  }

  lemma {:induction false} StillHeaded(next: Links, next': Links, c: seq<Id>)
    requires |c| > 1 && Path(next, c[0], c)
    requires next' == next - {c[0]} || next' == next[c[0] := NULL]
    ensures Path(next', c[1], c[1..])
  {
    PathFrom(next, c[0], c, 1);
    PathMembers(next, c[0], c);
    forall x <- c[1..] ensures x != c[0] {
      var i :| 1 <= i < |c| && c[i] == x;
      PathDistinct(next, c[0], c, 0, i);
    }
    PathKept(next, next', c[1], c[1..]);
  }

  /** `pbuf_free_header` can go on with the chain c. */
  ghost predicate Ready(s: State, len: Sizes, c: seq<Id>) {
    Inv(s) && Headed(s, c) && forall x <- c :: x in len
  }

  /** What the loop comes to: the state, the chain that remains, and the bytes not yet
      removed. */
  datatype Outcome = Outcome(s: State, rest: seq<Id>, left: nat)

  ghost function Headless(s: State, len: Sizes, c: seq<Id>, n: nat): (r: Outcome)
    requires Ready(s, len, c)
    ensures Ready(r.s, len, r.rest)
    decreases |c|
  {
    if n == 0 || c == [] || n < len[c[0]] then Outcome(s, c, n)
    else
      DroppedHeaded(s, c);
      Headless(HeadDropped(s, c[0]), len, c[1..], n - len[c[0]])
  }

  /** It keeps the chain behind the pbufs that the n bytes cover. */
  lemma {:induction false} HeadlessRest(s: State, len: Sizes, c: seq<Id>, n: nat)
    requires Ready(s, len, c)
    ensures Headless(s, len, c, n).rest == c[Drops(len, c, n).0..]
    ensures Headless(s, len, c, n).left == Drops(len, c, n).1
    decreases |c|
  {
    if n != 0 && c != [] && n >= len[c[0]] {
      DroppedHeaded(s, c);
      HeadlessRest(HeadDropped(s, c[0]), len, c[1..], n - len[c[0]]);
      var k := Drops(len, c[1..], n - len[c[0]]).0;
      assert c[1..][k..] == c[k + 1..];
    }
  }

  lemma {:induction false} HeadlessRound(s: State, len: Sizes, c: seq<Id>, n: nat)
    requires Ready(s, len, c) && n != 0 && c != [] && n >= len[c[0]]
    ensures Ready(HeadDropped(s, c[0]), len, c[1..]) && (AtHead(c[1..]) == NULL <==> c[1..] == [])
    ensures Headless(HeadDropped(s, c[0]), len, c[1..], n - len[c[0]]) == Headless(s, len, c, n)
  {
    DroppedHeaded(s, c);
  }

  function AtHead(c: seq<Id>): Id {
    if c == [] then NULL else c[0]
  }

  lemma {:induction false} HeadNotNull(s: State, c: seq<Id>)
    requires Headed(s, c)
    ensures AtHead(c) == NULL <==> c == []
  {
  }

  function Less(m: Sizes, p: Id, n: nat): Sizes
    requires p in m && n <= m[p]
  {
    m[p := m[p] - n]
  }

  lemma {:induction false} NothingLess(m: Sizes, p: Id)
    requires p in m
    ensures Less(m, p, 0) == m
  {
  }
}
