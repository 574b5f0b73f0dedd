/** Runs of the pbuf operations (common/lwip/core/pbuf.c), from no pbuf at all, after which one more
    call leaves a wrong count, a wrong total or a wrong answer. */
module PbufRuns {

  import opened Machine
  import opened PbufRefs
  import opened PbufTotals
  import opened Pbuf
  import opened PbufBytes
  import opened PbufState
  import opened Runs

  /** The run from f, with right counts and totals, ends in b. */
  ghost predicate Reaches(f: Pbufs, run: seq<PbufState.Op>, b: Pbufs) {
    Good(f) && Honest(f) && PbufState.Feasible(f, run) && PbufState.Exec(f, run) == b
  }

  lemma {:induction false} Start()
    ensures Reaches(None(), [], None())
  {
  }

  lemma {:induction false} ReachesNext(f: Pbufs, run: seq<PbufState.Op>, b: Pbufs, op: PbufState.Op)
    requires Reaches(f, run, b) && Good(b) && Honest(b) && PbufState.Allowed(b, op)
    ensures Reaches(f, run + [op], PbufState.Step(b, op))
    decreases |run|
  {
    Prolonged(run, op);
    if run != [] {
      ReachesNext(PbufState.Step(f, run[0]), run[1..], b, op);
    }
  }

  // ---- Single steps -----------------------------------------------------------------------------------

  lemma {:induction false} AllocOne(b: Pbufs, q: Id, payload: seq<byte>)
    requires Good(b) && Honest(b) && q != NULL && q !in b.refs.next && |payload| < HALF_WORD
    ensures PbufState.Allowed(b, PbufState.Alloc([q], [payload]))
    ensures PbufState.Step(b, PbufState.Alloc([q], [payload])) == Started(b, q, payload, |payload|)
  {
    assert [payload][1..] == [] && [q][1..] == [];
    assert Flat([payload]) == payload + [] == payload;
  }

  lemma {:induction false} NextAlloc(f: Pbufs, run: seq<PbufState.Op>, b: Pbufs, q: Id, payload: seq<byte>) returns (r: Pbufs)
    requires Reaches(f, run, b) && Good(b) && Honest(b) && q != NULL && q !in b.refs.next && |payload| < HALF_WORD
    ensures Reaches(f, run + [PbufState.Alloc([q], [payload])], r) && Good(r) && Honest(r)
    ensures r == Started(b, q, payload, |payload|)
  {
    AllocOne(b, q, payload);
    ReachesNext(f, run, b, PbufState.Alloc([q], [payload]));
    r := PbufState.Step(b, PbufState.Alloc([q], [payload]));
  }

  /** The pbuf h, alone and not linked to, gets the chain d of t behind it. */
  function Joined(b: Pbufs, h: Id, t: Id): Pbufs
    requires h in b.tot && t in b.tot
  {
    Pbufs(State(b.refs.next[h := t], b.refs.ref, b.refs.held - multiset{t}), b.len, b.tot[h := b.tot[h] + b.tot[t]], b.data)
  }

  ghost predicate Loose(b: Pbufs, h: Id) {
    h in b.refs.held && h in b.refs.next && b.refs.next[h] == NULL && forall x <- b.refs.next :: b.refs.next[x] != h
  }

  lemma {:induction false} LooseChain(b: Pbufs, h: Id)
    requires Good(b) && Loose(b, h) && h != NULL
    ensures ChainOf(b.refs, h) == [h] && Last(b.refs, h) == h && Private(b.refs.next, [h], 1)
  {
    assert [h][1..] == [] && Path(b.refs.next, h, [h]);
    PathUnique(b.refs.next, h, ChainOf(b.refs, h), [h]);
    assert [h][..1] == [h];
  }

  lemma {:induction false} CatOne(b: Pbufs, h: Id, t: Id, d: seq<Id>)
    requires Good(b) && Honest(b) && Loose(b, h) && t in b.refs.held && Path(b.refs.next, t, d) && h !in d
    requires h in b.tot && t in b.tot && b.tot[h] + b.tot[t] < HALF_WORD
    ensures Joinable(b, h, t) && CatStep(b, h, t) == Joined(b, h, t)
  {
    HeldLive(b, h);
    HeldLive(b, t);
    LooseChain(b, h);
    PathUnique(b.refs.next, t, ChainOf(b.refs, t), d);
    JoinableFields(b, h, t);
    assert Shifted(b.tot, [h], 0, b.tot[t]) == b.tot;
  }

  lemma {:induction false} HeldLive(b: Pbufs, h: Id)
    requires Good(b) && h in b.refs.held
    ensures h in b.refs.next && h != NULL && h in b.tot && h in b.len && h in b.data
  {
    assert Whole(b, h);
  }

  // ---- The counts -----------------------------------------------------------------------------------------

  /** n references to one pbuf. */
  function RefRun(n: nat): seq<PbufState.Op> {
    if n <= 1 then [] + [PbufState.Alloc([1], [[]])] else RefRun(n - 1) + [PbufState.Ref(1)]
  }

  lemma {:induction false} RefRunReaches(n: nat) returns (b: Pbufs)
    requires 1 <= n < BYTE
    ensures Reaches(None(), RefRun(n), b) && Good(b) && Honest(b) && 1 in b.refs.held && b.refs.ref[1] == n
  {
    if n == 1 {
      Start();
      AllocOne(None(), 1, []);
      ReachesNext(None(), [], None(), PbufState.Alloc([1], [[]]));
      b := PbufState.Step(None(), PbufState.Alloc([1], [[]]));
    } else {
      var a := RefRunReaches(n - 1);
      HeldLive(a, 1);
      ReachesNext(None(), RefRun(n - 1), a, PbufState.Ref(1));
      b := PbufState.Step(a, PbufState.Ref(1));
    }
  }

  /** The 256th reference to a pbuf makes its count zero. */
  lemma {:induction false} RefWraps(n: nat) returns (b: Pbufs)
    requires n == 255
    ensures Reaches(None(), RefRun(n), b) && 1 in b.refs.ref && ReferencedAll(b, 1).refs.ref[1] == 0
    ensures !Inv(ReferencedAll(b, 1).refs)
  {
    b := RefRunReaches(n);
    HeldLive(b, 1);
    ReferencedInv(b.refs, 1);
  }

  lemma {:induction false} AllSingle(ref: map<Id, nat>, c: seq<Id>)
    requires forall x <- c :: x in ref && ref[x] == 1
    ensures Singles(ref, c) == |c|
  {
  }

  /** The pbufs n down to 1. */
  function Down(n: nat): (ids: seq<Id>)
    ensures |ids| == n && forall i :: 0 <= i < n ==> ids[i] == n - i
  {
    seq(n, i requires 0 <= i < n => n - i)
  }

  /** A chain of n empty pbufs, each allocated on its own and put in front of those before it. */
  function ChainRun(n: nat): seq<PbufState.Op> {
    if n <= 1 then [] + [PbufState.Alloc([1], [[]])]
    else ChainRun(n - 1) + [PbufState.Alloc([n], [[]])] + [PbufState.CatTo(n, n - 1)]
  }

  /** The pbufs 1 to n are one empty chain, of which the caller holds the head. */
  ghost predicate InRow(b: Pbufs, n: nat) {
    && n > 0 && Good(b) && Honest(b) && Path(b.refs.next, n, Down(n)) && b.refs.held == multiset{n}
    && (forall x :: x in b.refs.next <==> 1 <= x <= n) && forall x :: 1 <= x <= n ==> x in b.refs.ref && b.refs.ref[x] == 1
  }

  lemma {:induction false} FirstInRow() returns (b: Pbufs)
    ensures Reaches(None(), ChainRun(1), b) && InRow(b, 1) && AllEmpty(b)
  {
    Start();
    b := NextAlloc(None(), [], None(), 1, []);
    assert Down(1) == [1] && [1][1..] == [];
  }

  lemma {:induction false} HeadEmpty(b: Pbufs, n: nat)
    requires InRow(b, n) && forall x <- Down(n) :: x in b.data && b.data[x] == []
    ensures n in b.tot && b.tot[n] == 0
  {
    GoodAlong(b, n, Down(n));
    TotalsMeasure(b.refs.next, b.len, b.tot, b.data, n, Down(n));
    EmptyBytes(b.data, Down(n));
  }

  lemma {:induction false} EmptyBytes(data: Payloads, c: seq<Id>)
    requires Covers(data, c) && forall x <- c :: data[x] == []
    ensures Bytes(data, c) == []
    decreases |c|
  {
    if c != [] {
      EmptyBytes(data, c[1..]);
    }
  }

  lemma {:induction false} AloneInFront(b: Pbufs, n: nat)
    requires InRow(b, n)
    ensures var a := Started(b, n + 1, [], 0);
            Loose(a, n + 1) && n in a.refs.held && Path(a.refs.next, n, Down(n)) && n + 1 !in Down(n)
  {
    var a := Started(b, n + 1, [], 0);
    forall x <- Down(n) ensures x in b.refs.next && x in a.refs.next && a.refs.next[x] == b.refs.next[x] {
    }
    PathKept(b.refs.next, a.refs.next, n, Down(n));
    forall x <- a.refs.next ensures a.refs.next[x] != n + 1 {
      assert x != n + 1 ==> b.refs.next[x] == NULL || b.refs.next[x] in b.refs.next;
    }
  }

  lemma {:induction false} OneMoreInRow(a: Pbufs, b: Pbufs, n: nat, r: Pbufs)
    requires InRow(b, n) && a == Started(b, n + 1, [], 0) && Path(a.refs.next, n, Down(n))
    requires n in a.tot && r == Joined(a, n + 1, n) && Good(r) && Honest(r)
    ensures InRow(r, n + 1)
  {
    assert Down(n + 1)[1..] == Down(n) && Down(n + 1)[0] == n + 1;
    PathKept(a.refs.next, r.refs.next, n, Down(n));
    assert multiset{n} + multiset{n + 1} - multiset{n} == multiset{n + 1};
  }

  ghost predicate AllEmpty(b: Pbufs) {
    forall x <- b.data :: b.data[x] == []
  }

  /** A new pbuf in front of the chain. */
  lemma {:induction false} NextInRow(run: seq<PbufState.Op>, b: Pbufs, n: nat) returns (r: Pbufs)
    requires Reaches(None(), run, b) && InRow(b, n) && AllEmpty(b)
    ensures Reaches(None(), run + [PbufState.Alloc([n + 1], [[]])] + [PbufState.CatTo(n + 1, n)], r)
    ensures InRow(r, n + 1) && AllEmpty(r)
  {
    var a := NextAlloc(None(), run, b, n + 1, []);
    AloneInFront(b, n);
    GoodAlong(b, n, Down(n));
    HeadEmpty(b, n);
    CatOne(a, n + 1, n, Down(n));
    ReachesNext(None(), run + [PbufState.Alloc([n + 1], [[]])], a, PbufState.CatTo(n + 1, n));
    r := PbufState.Step(a, PbufState.CatTo(n + 1, n));
    OneMoreInRow(a, b, n, r);
  }

  /** The run makes a row of n empty pbufs. */
  ghost predicate MakesRow(run: seq<PbufState.Op>, n: nat) {
    exists b :: Reaches(None(), run, b) && InRow(b, n) && AllEmpty(b)
  }

  lemma {:induction false} MakesLongerRow(run: seq<PbufState.Op>, n: nat)
    requires MakesRow(run, n)
    ensures MakesRow(run + [PbufState.Alloc([n + 1], [[]])] + [PbufState.CatTo(n + 1, n)], n + 1)
  {
    var b :| Reaches(None(), run, b) && InRow(b, n) && AllEmpty(b);
    var r := NextInRow(run, b, n);
  }

  lemma {:induction false} LongChain(first: seq<PbufState.Op>, n: nat, run: seq<PbufState.Op>)
    requires n > 0 && first == [] + [PbufState.Alloc([1], [[]])] && MakesRow(first, 1) && run == ChainRun(n)
    ensures MakesRow(run, n)
    decreases n
  {
    if n > 1 {
      var before := ChainRun(n - 1);
      LongChain(first, n - 1, before);
      MakesLongerRow(before, n - 1);
    }
  }

  lemma {:induction false} BehindHead(s: State, p: Id, c: seq<Id>)
    requires Inv(s) && p != NULL && Path(s.next, p, c) && |c| > 1
    ensures p in s.next && s.next[p] == c[1] != NULL && Path(Unlinked(s, p).next, s.next[p], c[1..])
  {
    PathFrom(s.next, p, c, 1);
    PathFrom(s.next, p, c, 0);
    forall i | 1 <= i < |c| ensures c[i] != p && c[i] in s.next {
      PathDistinct(s.next, p, c, 0, i);
      PathFrom(s.next, p, c, i);
    }
    PathKept(s.next, Unlinked(s, p).next, c[1], c[1..]);
  }

  /** Taking apart a chain of n + 1 pbufs, n a multiple of 256, `pbuf_dechain` answers with the rest of
      the chain, although that is gone. */
  lemma {:induction false} DechainMisleads(n: nat) returns (b: Pbufs)
    requires n > 0 && n % BYTE == 0
    ensures Reaches(None(), ChainRun(n + 1), b)
    ensures n + 1 in b.refs.next && Inv(b.refs) && DechainResult(b.refs, n + 1, n) == n && n !in Dechained(b.refs, n + 1).next
  {
    var first := FirstInRow();
    LongChain([] + [PbufState.Alloc([1], [[]])], n + 1, ChainRun(n + 1));
    b :| Reaches(None(), ChainRun(n + 1), b) && InRow(b, n + 1) && AllEmpty(b);
    RowMisleads(b, n);
  }

  lemma {:induction false} RowMisleads(b: Pbufs, n: nat)
    requires InRow(b, n + 1) && n > 0 && n % BYTE == 0
    ensures n + 1 in b.refs.next && DechainResult(b.refs, n + 1, n) == n && n !in Dechained(b.refs, n + 1).next
  {
    var c := Down(n + 1);
    BehindHead(b.refs, n + 1, c);
    AllSingle(b.refs.ref, c[1..]);
    DechainTells(b.refs, n + 1, c[1..]);
  }

  // ---- The totals -----------------------------------------------------------------------------------------

  const ZERO: byte := 0

  /** Pbuf 1 is chained to pbuf 2, which the caller still holds, and which is linked to pbuf 3; pbuf 4
      is on its own. */
  function SharedRun(): seq<PbufState.Op> {
    [] + [PbufState.Alloc([1], [[ZERO]])] + [PbufState.Alloc([2], [[ZERO, ZERO]])] + [PbufState.Alloc([3], [[ZERO]])]
    + [PbufState.Alloc([4], [[ZERO]])] + [PbufState.CatTo(2, 3)] + [PbufState.ChainTo(1, 2)]
  }

  /** Four pbufs on their own. */
  ghost predicate Four(b: Pbufs) {
    && b.refs.next == map[1 := NULL, 2 := NULL, 3 := NULL, 4 := NULL] && b.refs.held == multiset{1, 2, 3, 4}
    && b.refs.ref == map[1 := 1, 2 := 1, 3 := 1, 4 := 1]
    && b.tot == map[1 := 1, 2 := 2, 3 := 1, 4 := 1] && b.len == b.tot
  }

  lemma {:induction false} FourAllocated(a: Pbufs, b: Pbufs, c: Pbufs, d: Pbufs)
    requires a == Started(None(), 1, [ZERO], 1) && b == Started(a, 2, [ZERO, ZERO], 2)
    requires c == Started(b, 3, [ZERO], 1) && d == Started(c, 4, [ZERO], 1)
    ensures Four(d) && 2 !in a.refs.next && 3 !in b.refs.next && 4 !in c.refs.next
  {
  }

  lemma {:induction false} ReachesFour() returns (d: Pbufs)
    ensures Reaches(None(), [] + [PbufState.Alloc([1], [[ZERO]])] + [PbufState.Alloc([2], [[ZERO, ZERO]])]
                          + [PbufState.Alloc([3], [[ZERO]])] + [PbufState.Alloc([4], [[ZERO]])], d)
    ensures Good(d) && Honest(d) && Four(d)
  {
    Start();
    var a := NextAlloc(None(), [], None(), 1, [ZERO]);
    var run := [] + [PbufState.Alloc([1], [[ZERO]])];
    var b := NextAlloc(None(), run, a, 2, [ZERO, ZERO]);
    run := run + [PbufState.Alloc([2], [[ZERO, ZERO]])];
    var c := NextAlloc(None(), run, b, 3, [ZERO]);
    d := NextAlloc(None(), run + [PbufState.Alloc([3], [[ZERO]])], c, 4, [ZERO]);
    FourAllocated(a, b, c, d);
  }

  /** Pbuf 2 is linked to pbuf 3. */
  ghost predicate Paired(b: Pbufs) {
    && b.refs.next == map[1 := NULL, 2 := 3, 3 := NULL, 4 := NULL] && b.refs.held == multiset{1, 2, 4}
    && b.refs.ref == map[1 := 1, 2 := 1, 3 := 1, 4 := 1]
    && b.tot == map[1 := 1, 2 := 3, 3 := 1, 4 := 1] && b.len == map[1 := 1, 2 := 2, 3 := 1, 4 := 1]
  }

  /** And pbuf 1 to pbuf 2. */
  ghost predicate Shared(b: Pbufs) {
    && b.refs.next == map[1 := 2, 2 := 3, 3 := NULL, 4 := NULL] && b.refs.held == multiset{1, 2, 4}
    && b.refs.ref == map[1 := 1, 2 := 2, 3 := 1, 4 := 1]
    && b.tot == map[1 := 4, 2 := 3, 3 := 1, 4 := 1] && b.len == map[1 := 1, 2 := 2, 3 := 1, 4 := 1]
  }

  lemma {:induction false} PairedJoined(b: Pbufs)
    requires Four(b)
    ensures Loose(b, 2) && Path(b.refs.next, 3, [3]) && Paired(Joined(b, 2, 3))
  {
    assert Path(b.refs.next, 3, [3]) by {
      assert [3][1..] == [];
    }
    FieldsOf(NULL, NULL, NULL, NULL);
    FieldsOf(1, 2, 1, 1);
    GivenAway();
  }

  /** A field of the first or second pbuf changes. */
  lemma {:induction false} FieldsOf(w: nat, x: nat, y: nat, z: nat)
    ensures forall v: nat :: map[1 := w, 2 := x, 3 := y, 4 := z][1 := v] == map[1 := v, 2 := x, 3 := y, 4 := z]
    ensures forall v: nat :: map[1 := w, 2 := x, 3 := y, 4 := z][2 := v] == map[1 := w, 2 := v, 3 := y, 4 := z]
  {
  }

  lemma {:induction false} GivenAway()
    ensures multiset{1, 2, 3, 4} - multiset{3} == multiset{1, 2, 4}
  {
  }

  lemma {:induction false} SharedJoined(b: Pbufs)
    requires Paired(b)
    ensures Shared(ReferencedAll(Joined(b, 1, 2), 2))
  {
    FieldsOf(NULL, 3, NULL, NULL);
    FieldsOf(1, 3, 1, 1);
    FieldsOf(1, 1, 1, 1);
    Regained();
  }

  lemma {:induction false} PairedChain(b: Pbufs)
    requires Paired(b)
    ensures Loose(b, 1) && Path(b.refs.next, 2, [2, 3])
  {
    assert [2, 3][1..] == [3] && [3][1..] == [];
  }

  lemma {:induction false} Regained()
    ensures multiset{1, 2, 4} - multiset{2} + multiset{2} == multiset{1, 2, 4}
  {
  }

  lemma {:induction false} NextCat(f: Pbufs, run: seq<PbufState.Op>, b: Pbufs) returns (r: Pbufs)
    requires Reaches(f, run, b) && Good(b) && Honest(b) && Four(b)
    ensures Reaches(f, run + [PbufState.CatTo(2, 3)], r) && Good(r) && Honest(r) && Paired(r)
  {
    PairedJoined(b);
    CatOne(b, 2, 3, [3]);
    ReachesNext(f, run, b, PbufState.CatTo(2, 3));
    r := PbufState.Step(b, PbufState.CatTo(2, 3));
  }

  lemma {:induction false} NextChain(f: Pbufs, run: seq<PbufState.Op>, b: Pbufs) returns (r: Pbufs)
    requires Reaches(f, run, b) && Good(b) && Honest(b) && Paired(b)
    ensures Reaches(f, run + [PbufState.ChainTo(1, 2)], r) && Good(r) && Honest(r) && Shared(r)
  {
    PairedChain(b);
    SharedJoined(b);
    CatOne(b, 1, 2, [2, 3]);
    ReachesNext(f, run, b, PbufState.ChainTo(1, 2));
    r := PbufState.Step(b, PbufState.ChainTo(1, 2));
  }

  /** In a run that keeps all counts and totals right, chains that share pbufs come up. */
  lemma {:induction false} ReachesShared() returns (b: Pbufs)
    ensures Reaches(None(), SharedRun(), b) && Good(b) && Honest(b) && Shared(b)
  {
    b := ReachesFour();
    var run := [] + [PbufState.Alloc([1], [[ZERO]])] + [PbufState.Alloc([2], [[ZERO, ZERO]])] + [PbufState.Alloc([3], [[ZERO]])]
               + [PbufState.Alloc([4], [[ZERO]])];
    b := NextCat(None(), run, b);
    b := NextChain(None(), run + [PbufState.CatTo(2, 3)], b);
  }

  lemma {:induction false} SharedChain(b: Pbufs)
    requires Shared(b)
    ensures Path(b.refs.next, 2, [2, 3]) && Path(b.refs.next, 4, [4]) && !Private(b.refs.next, [2, 3], 1)
    ensures !Private(b.refs.next, [2, 3], 2) && 1 in In(b.refs.next, 2)
  {
    assert [2, 3][1..] == [3] && [3][1..] == [] && [4][1..] == [];
    assert [2, 3][..1] == [2] && [2, 3][..2] == [2, 3] && 2 in [2, 3] && 2 in [2];
    assert 1 in b.refs.next && b.refs.next[1] == 2;
  }

  /** Linking pbuf 4 behind pbuf 2 and 3 leaves pbuf 1 with a wrong total. */
  lemma {:induction false} CatMiscounts(b: Pbufs)
    requires Good(b) && Honest(b) && Shared(b)
    ensures Sums(b.tot, [2, 3], b.tot[4]) && !Honest(Catenated(b, [2, 3], 4))
  {
    SharedChain(b);
    CatableFields(b, 2, [2, 3], 4, [4]);
    CatTheorem(b, 2, [2, 3], 4, [4]);
  }

  /** So does taking pbuf 3 off pbuf 2. */
  lemma {:induction false} DechainMiscounts(b: Pbufs)
    requires Good(b) && Honest(b) && Shared(b)
    ensures !Honest(DechainedAll(b, 2))
  {
    SharedChain(b);
    DechainTheorem(b, 2, [2, 3]);
  }

  /** So does shortening the chain of pbuf 2 to one byte. */
  lemma {:induction false} ReallocMiscounts(b: Pbufs)
    requires Good(b) && Honest(b) && Shared(b)
    ensures Path(b.refs.next, 2, [2, 3]) && !Honest(Reallocated(b, 2, [2, 3], 1))
  {
    SharedChain(b);
    ReallocTheorem(b, 2, [2, 3], 1);
    TotalsMeasure(b.refs.next, b.len, b.tot, b.data, 2, [2, 3]);
  }

  /** So does dropping the first byte of pbuf 2. */
  lemma {:induction false} FreeHeaderMiscounts(b: Pbufs)
    requires Good(b) && Honest(b) && Shared(b)
    ensures Frontable(b, [2, 3]) && !Honest(HeaderFreed(b, [2, 3], 1))
  {
    SharedChain(b);
    FreeHeaderTheorem(b, [2, 3], 1);
    assert Elems([2, 3][..0]) == {};
  }

  lemma {:induction false} TwoMiscount(b: Pbufs)
    requires Good(b) && Honest(b) && b.refs.next == map[1 := NULL, 2 := NULL] && 2 in b.refs.held
    requires 1 in b.tot && 2 in b.tot && b.tot[1] + b.tot[2] == HALF_WORD && b.tot[2] > 0
    ensures Sums(b.tot, [1], b.tot[2]) && !Honest(Catenated(b, [1], 2)) && Catenated(b, [1], 2).tot[1] == 0
  {
    assert [1][1..] == [] && [2][1..] == [];
    CatableFields(b, 1, [1], 2, [2]);
    CatTheorem(b, 1, [1], 2, [2]);
    assert Shifted(b.tot, [1], 0, b.tot[2]) == b.tot;
  }

  /** Two chains of 65536 bytes together. */
  lemma {:induction false} CatOverflows16(long: seq<byte>) returns (b: Pbufs)
    requires |long| == HALF_WORD - 1
    ensures Reaches(None(), [] + [PbufState.Alloc([1], [long])] + [PbufState.Alloc([2], [[ZERO]])], b)
    ensures 1 in b.refs.next && 2 in b.tot && Sums(b.tot, [1], b.tot[2])
    ensures !Honest(Catenated(b, [1], 2)) && Catenated(b, [1], 2).tot[1] == 0
  {
    Start();
    var a := NextAlloc(None(), [], None(), 1, long);
    b := NextAlloc(None(), [] + [PbufState.Alloc([1], [long])], a, 2, [ZERO]);
    TwoMiscount(b);
  }
}
