/** All of a pbuf at once (common/lwip/core/pbuf.c): links and counts, lengths and payloads. For each
    operation on chains: the chain it leaves, the bytes that chain stands for, and exactly when all
    `tot_len` fields are right afterwards. */
module PbufState {

  import opened Machine
  import opened PbufRefs
  import opened PbufTotals
  import opened Pbuf
  import opened PbufBytes

  datatype Pbufs = Pbufs(refs: State, len: Sizes, tot: Sizes, data: Payloads)

  /** A live pbuf has all its fields; its payload is `len` bytes, and its total has 16 bits. */
  ghost predicate Whole(b: Pbufs, x: Id) {
    x in b.len && x in b.tot && x in b.data && b.len[x] == |b.data[x]| && b.tot[x] < HALF_WORD
  }

  ghost predicate Good(b: Pbufs) {
    Inv(b.refs) && NULL !in b.tot && forall x <- b.refs.next {:trigger Whole(b, x)} :: Whole(b, x)
  }

  /** Every `tot_len` is the pbuf's `len` and the `tot_len` of its successor. */
  ghost predicate Honest(b: Pbufs) {
    Totals(b.refs.next, b.len, b.tot)
  }

  /** The fields along a chain. */
  ghost predicate Along(b: Pbufs, c: seq<Id>) {
    forall x <- c :: x in b.len && x in b.tot && x in b.data && b.len[x] == |b.data[x]| && b.tot[x] < HALF_WORD
  }

  lemma {:induction false} GoodAlong(b: Pbufs, h: Id, c: seq<Id>)
    requires Good(b) && Path(b.refs.next, h, c)
    ensures Along(b, c) && Covers(b.data, c)
  {
    PathMembers(b.refs.next, h, c);
    forall x <- c ensures Whole(b, x) {
    }
  }

  // ---- pbuf_cat ---------------------------------------------------------------------------------

  /** Along the chain c of the first pbuf. */
  function Catenated(b: Pbufs, c: seq<Id>, t: Id): Pbufs
    requires c != [] && c[|c| - 1] in b.refs.next && t in b.tot && forall x <- c :: x in b.tot && 0 <= Word(b.tot[x] + b.tot[t])
  {
    b.(refs := Linked(b.refs, c[|c| - 1], t), tot := Shifted(b.tot, c, |c|, b.tot[t]))
  }

  /** Two chains, of which the caller holds the second, with different ends. */
  ghost predicate Catable(b: Pbufs, h: Id, c: seq<Id>, t: Id, d: seq<Id>) {
    Good(b) && Path(b.refs.next, h, c) && c != [] && t in b.refs.held && Path(b.refs.next, t, d) && c[|c| - 1] !in d
  }

  lemma {:induction false} CatableFields(b: Pbufs, h: Id, c: seq<Id>, t: Id, d: seq<Id>)
    requires Catable(b, h, c, t, d)
    ensures c[|c| - 1] in b.refs.next && b.refs.next[c[|c| - 1]] == NULL && t in b.refs.next && t != NULL && t !in c && d != []
    ensures t in b.tot && b.tot[t] < HALF_WORD && Along(b, c) && Along(b, d) && Covers(b.data, c) && Covers(b.data, d)
    ensures Sums(b.tot, c, b.tot[t])
  {
    PathFrom(b.refs.next, h, c, |c| - 1);
    GoodAlong(b, h, c);
    GoodAlong(b, t, d);
    assert t in b.refs.next && Whole(b, t);
    Apart(b.refs.next, h, c, t, d);
  }

  lemma {:induction false} ShiftedSized(tot: Sizes, c: seq<Id>, k: nat, d: int, x: Id)
    requires k <= |c| && Sums(tot, c, d) && x in tot && tot[x] < HALF_WORD && -65536 < d < 65536
    ensures x in Shifted(tot, c, k, d) && Shifted(tot, c, k, d)[x] < HALF_WORD
  {
    ShiftedAt(tot, c, k, d, x);
  }

  lemma {:induction false} CatElsewhere(b: Pbufs, c: seq<Id>, t: Id)
    requires c != [] && c[|c| - 1] in b.refs.next && t in b.tot && Sums(b.tot, c, b.tot[t])
    ensures Untouched(b, Catenated(b, c, t), c)
  {
    forall x | x !in c
      ensures SameFields(b, Catenated(b, c, t), x)
    {
      assert c[..|c|] == c;
      ShiftedAt(b.tot, c, |c|, b.tot[t], x);
    }
  }

  /** `pbuf_cat` makes the chain of h go on with that of t: its bytes are those of the two one after
      the other. If all totals were right, they are so afterwards exactly if t was empty, or nothing
      else links into the first chain and the sum has 16 bits. */
  lemma {:induction false} CatTheorem(b: Pbufs, h: Id, c: seq<Id>, t: Id, d: seq<Id>)
    requires Catable(b, h, c, t, d)
    requires c[|c| - 1] in b.refs.next && t in b.tot && Sums(b.tot, c, b.tot[t])
    ensures var r := Catenated(b, c, t);
            && Good(r) && Path(r.refs.next, h, c + d)
            && Covers(b.data, c) && Covers(b.data, d) && Covers(r.data, c + d)
            && Bytes(r.data, c + d) == Bytes(b.data, c) + Bytes(b.data, d)
            && Untouched(b, r, c)
    ensures Honest(b) && h in b.tot ==>
      (Honest(Catenated(b, c, t)) <==> b.tot[t] == 0 || (Private(b.refs.next, c, |c|) && b.tot[h] + b.tot[t] < HALF_WORD))
  {
    CatableFields(b, h, c, t, d);
    CatGood(b, h, c, t, d);
    CatBytes(b.refs.next, b.data, h, c, t, d);
    CatElsewhere(b, c, t);
    if Honest(b) {
      CatHonest(b, h, c, t, d);
    }
  }

  lemma {:induction false} CatGood(b: Pbufs, h: Id, c: seq<Id>, t: Id, d: seq<Id>)
    requires Catable(b, h, c, t, d)
    requires c[|c| - 1] in b.refs.next && t in b.tot && Sums(b.tot, c, b.tot[t])
    ensures Good(Catenated(b, c, t))
  {
    var r := Catenated(b, c, t);
    CatableFields(b, h, c, t, d);
    LinkedInv(b.refs, c[|c| - 1], t, d);
    ShiftedAt(b.tot, c, |c|, b.tot[t], NULL);
    forall x <- r.refs.next ensures Whole(r, x) {
      assert Whole(b, x);
      ShiftedSized(b.tot, c, |c|, b.tot[t], x);
    }
  }

  lemma {:induction false} CatHonest(b: Pbufs, h: Id, c: seq<Id>, t: Id, d: seq<Id>)
    requires Catable(b, h, c, t, d) && Honest(b) && h in b.tot
    requires c[|c| - 1] in b.refs.next && t in b.tot && Sums(b.tot, c, b.tot[t])
    ensures Honest(Catenated(b, c, t)) <==> b.tot[t] == 0 || (Private(b.refs.next, c, |c|) && b.tot[h] + b.tot[t] < HALF_WORD)
  {
    CatableFields(b, h, c, t, d);
    CatTotals(b.refs.next, b.len, b.tot, h, c, t);
  }

  // ---- pbuf_dechain and pbuf_realloc -----------------------------------------------------------------

  /** The chain c ends with its k-th pbuf, now of length l; the totals in front shift by d, and what
      followed is released. */
  function CutAt(b: Pbufs, c: seq<Id>, k: nat, l: nat, d: int): Pbufs
    requires Inv(b.refs) && 0 < k <= |c| && c[k - 1] in b.refs.next && c[k - 1] in b.data && l <= |b.data[c[k - 1]]|
    requires Sums(b.tot, c, d)
  {
    var p := c[k - 1];
    Pbufs(Dechained(b.refs, p), b.len[p := l], Shifted(b.tot, c, k, d), b.data[p := b.data[p][..l]])
  }

  /** The chain can be cut there: no total becomes negative, and the last one is its length. */
  ghost predicate Cuttable(b: Pbufs, h: Id, c: seq<Id>, k: nat, l: nat, d: int) {
    && Good(b) && Honest(b) && Path(b.refs.next, h, c) && 0 < k <= |c| && c[k - 1] in b.refs.next
    && (forall y <- c :: y in b.tot && y in b.data) && l <= |b.data[c[k - 1]]| && Sums(b.tot, c, d)
    && -65536 < d <= 0 && (forall y <- c[..k] :: 0 <= b.tot[y] + d < HALF_WORD) && b.tot[c[k - 1]] + d == l
  }

  lemma {:induction false} CutGood(b: Pbufs, h: Id, c: seq<Id>, k: nat, l: nat, d: int)
    requires Cuttable(b, h, c, k, l, d)
    ensures Good(CutAt(b, c, k, l, d))
  {
    var r := CutAt(b, c, k, l, d);
    var n := DechainedNext(b.refs, h, c, k);
    ShiftedAt(b.tot, c, k, d, NULL);
    forall x <- r.refs.next ensures Whole(r, x) {
      assert x in b.refs.next && Whole(b, x);
      ShiftedSized(b.tot, c, k, d, x);
    }
  }

  /** The chains that are left: up to the cut, and behind it if that is still held. */
  lemma {:induction false} CutPaths(b: Pbufs, h: Id, c: seq<Id>, k: nat, l: nat, d: int)
    requires Cuttable(b, h, c, k, l, d)
    ensures var next := CutAt(b, c, k, l, d).refs.next;
            && Path(next, h, c[..k])
            && (k < |c| && c[k] in next ==> Path(next, c[k], c[k..]))
  {
    var n := DechainedNext(b.refs, h, c, k);
    BehindApart(b.refs.next, h, c, k, n);
    CutPath(b.refs.next, h, c, k, Elems(c[k..n]));
    CutRest(b.refs.next, h, c, k, n);
  }

  /** What is behind the cut, if its first pbuf is not gone. */
  lemma {:induction false} CutRest(next: Links, h: Id, c: seq<Id>, k: nat, n: nat)
    requires Path(next, h, c) && 0 < k <= n <= |c|
    ensures c[k - 1] in next
    ensures var next' := next[c[k - 1] := NULL] - Elems(c[k..n]);
            k < |c| && c[k] in next' ==> Path(next', c[k], c[k..])
  {
    BehindPath(next, h, c, k);
    if k < |c| && n == k {
      PathFrom(next, h, c, k);
      PathFrom(next, h, c, k - 1);
      NothingGone(next[c[k - 1] := NULL], c, k);
    } else if k < |c| {
      assert c[k] == c[k..n][0];
    }
  }

  lemma {:induction false} NothingGone(next: Links, c: seq<Id>, k: nat)
    requires k <= |c|
    ensures next - Elems(c[k..k]) == next
  {
    assert c[k..k] == [] && Elems(c[k..k]) == {};
  }

  lemma {:induction false} CutContents(b: Pbufs, h: Id, c: seq<Id>, k: nat, l: nat, d: int)
    requires Cuttable(b, h, c, k, l, d)
    ensures h in b.tot && b.tot[h] == |Bytes(b.data, c)| && 0 <= b.tot[h] + d
    ensures var data := CutAt(b, c, k, l, d).data;
            Covers(data, c[..k]) && Bytes(data, c[..k]) == Bytes(b.data, c)[..b.tot[h] + d]
  {
    GoodAlong(b, h, c);
    TotalsMeasure(b.refs.next, b.len, b.tot, b.data, h, c);
    MeasuresAt(b.tot, b.data, c, k - 1);
    PathIndices(b.refs.next, h, c, k - 1);
    BytesAt(b.data, c, k - 1);
    ShortBytes(b.data, c, k - 1, l);
    PrefixOf(Bytes(b.data, c[..k - 1]), b.data[c[k - 1]], Bytes(b.data, c[k..]), l);
    assert c[0] == c[..k][0];
  }

  /** The lengths, totals and bytes of pbufs not in c are in r what they are in b. */
  ghost predicate Untouched(b: Pbufs, r: Pbufs, c: seq<Id>) {
    forall x :: x !in c ==> SameFields(b, r, x)
  }

  ghost predicate SameFields(b: Pbufs, r: Pbufs, x: Id) {
    && (x in b.len ==> x in r.len && r.len[x] == b.len[x]) && (x in b.tot ==> x in r.tot && r.tot[x] == b.tot[x])
    && (x in b.data ==> x in r.data && r.data[x] == b.data[x])
  }

  lemma {:induction false} CutElsewhere(b: Pbufs, h: Id, c: seq<Id>, k: nat, l: nat, d: int)
    requires Cuttable(b, h, c, k, l, d)
    ensures Untouched(b, CutAt(b, c, k, l, d), c[..k])
  {
    forall x | x !in c[..k]
      ensures SameFields(b, CutAt(b, c, k, l, d), x)
    {
      assert c[..k][k - 1] == c[k - 1];
      ShiftedAt(b.tot, c, k, d, x);
    }
  }

  /** In r the chain of h ends with its k-th pbuf and stands for the first n bytes of what it did in b;
      what followed is, if still held, the chain it was; and all totals are right exactly if those n
      bytes are all, or nothing else links into the pbufs kept. */
  ghost predicate KeepsFront(b: Pbufs, h: Id, c: seq<Id>, k: nat, n: nat, r: Pbufs) {
    && Good(r) && 0 < k <= |c| && Path(r.refs.next, h, c[..k])
    && (k < |c| && c[k] in r.refs.next ==> Path(r.refs.next, c[k], c[k..]))
    && Covers(b.data, c) && n <= |Bytes(b.data, c)| && Covers(r.data, c[..k]) && Bytes(r.data, c[..k]) == Bytes(b.data, c)[..n]
    && (Honest(r) <==> n == |Bytes(b.data, c)| || Private(b.refs.next, c, k))
    && Untouched(b, r, c[..k])
  }

  /** Cutting a chain keeps the first bytes of it. */
  lemma {:induction false} CutTheorem(b: Pbufs, h: Id, c: seq<Id>, k: nat, l: nat, d: int, n: nat)
    requires Cuttable(b, h, c, k, l, d) && h in b.tot && n == b.tot[h] + d
    ensures KeepsFront(b, h, c, k, n, CutAt(b, c, k, l, d))
  {
    CutGood(b, h, c, k, l, d);
    CutPaths(b, h, c, k, l, d);
    CutContents(b, h, c, k, l, d);
    CutTotals(b.refs, b.len, b.tot, h, c, k, l, d);
    CutElsewhere(b, h, c, k, l, d);
  }

  /** `pbuf_dechain`, along the chain c of p. */
  function DechainedAll(b: Pbufs, p: Id): Pbufs
    requires Inv(b.refs) && p in b.refs.next && p in b.len && p in b.tot && b.len[p] <= b.tot[p]
  {
    b.(refs := Dechained(b.refs, p), tot := DechainedTotals(b.tot, p, b.refs.next[p], b.len[p]))
  }

  lemma {:induction false} DechainIsCut(b: Pbufs, p: Id, c: seq<Id>)
    requires Good(b) && Honest(b) && p in b.refs.next && Path(b.refs.next, p, c)
    ensures p in b.len && p in b.tot && b.len[p] <= b.tot[p] && c != []
    ensures var d := 0 - Tail(b.tot, b.refs.next[p]);
            Cuttable(b, p, c, 1, b.len[p], d) && CutAt(b, c, 1, b.len[p], d) == DechainedAll(b, p) && b.tot[p] + d == b.len[p]
  {
    DechainCuttable(b, p, c);
    var d := 0 - Tail(b.tot, b.refs.next[p]);
    WholePayload(b.data, p, b.len[p]);
    assert CutAt(b, c, 1, b.len[p], d) == Pbufs(Dechained(b.refs, p), b.len, Shifted(b.tot, c, 1, d), b.data);
  }

  lemma {:induction false} DechainCuttable(b: Pbufs, p: Id, c: seq<Id>)
    requires Good(b) && Honest(b) && p in b.refs.next && Path(b.refs.next, p, c)
    ensures p in b.len && p in b.tot && p in b.data && b.len[p] <= b.tot[p] && c != [] && c[0] == p && b.len[p := b.len[p]] == b.len
    ensures var d := 0 - Tail(b.tot, b.refs.next[p]);
            && b.len[p] == |b.data[p]| && b.tot[p] + d == b.len[p] && Cuttable(b, p, c, 1, b.len[p], d)
            && DechainedTotals(b.tot, p, b.refs.next[p], b.len[p]) == Shifted(b.tot, c, 1, d)
    ensures Private(b.refs.next, c, 1) <==> In(b.refs.next, p) == {}
  {
    assert NULL !in b.refs.next && Along(b, c) && (forall x <- c :: x in b.refs.next) by {
      PathMembers(b.refs.next, p, c);
      GoodAlong(b, p, c);
    }
    DechainShiftsAlong(b.refs.next, b.len, b.tot, p, c);
  }

  lemma {:induction false} WholePayload(data: Payloads, p: Id, n: nat)
    requires p in data && n == |data[p]|
    ensures data[p := data[p][..n]] == data
  {
    assert data[p][..n] == data[p];
  }

  /** `pbuf_dechain` leaves p alone with its bytes, and the rest of the chain, if it is still held, as it
      was; all totals stay right exactly if the rest was empty or nothing links to p. */
  lemma {:induction false} DechainTheorem(b: Pbufs, p: Id, c: seq<Id>)
    requires Good(b) && Honest(b) && p in b.refs.next && Path(b.refs.next, p, c)
    ensures p in b.len && p in b.tot && b.len[p] <= b.tot[p]
    ensures KeepsFront(b, p, c, 1, b.len[p], DechainedAll(b, p))
    ensures Honest(DechainedAll(b, p)) <==> Tail(b.tot, b.refs.next[p]) == 0 || In(b.refs.next, p) == {}
  {
    DechainIsCut(b, p, c);
    assert Private(b.refs.next, c, 1) <==> In(b.refs.next, p) == {} by {
      DechainCuttable(b, p, c);
    }
    var d := 0 - Tail(b.tot, b.refs.next[p]);
    CutTheorem(b, p, c, 1, b.len[p], d, b.len[p]);
    CutTotals(b.refs, b.len, b.tot, p, c, 1, b.len[p], d);
  }

  /** The pbuf that holds the last of the first n bytes. */
  function KeptAt(len: Sizes, c: seq<Id>, n: nat): (k: nat)
    requires c != [] && forall x <- c :: x in len
    ensures k < |c|
  {
    if n <= len[c[0]] || |c| == 1 then 0 else 1 + KeptAt(len, c[1..], n - len[c[0]])
  }

  /** k is the least positive number of pbufs of a chain that together have n bytes. */
  ghost predicate Fewest(data: Payloads, c: seq<Id>, k: nat, n: nat)
    requires Covers(data, c)
  {
    0 < k <= |c| && |Bytes(data, c[..k])| >= n && (k == 1 || |Bytes(data, c[..k - 1])| < n)
  }

  lemma {:induction false} KeptFewest(len: Sizes, data: Payloads, c: seq<Id>, n: nat)
    requires c != [] && Covers(data, c) && (forall x <- c :: x in len && len[x] == |data[x]|) && n <= |Bytes(data, c)|
    ensures Fewest(data, c, KeptAt(len, c, n) + 1, n)
  {
    var k := KeptAt(len, c, n);
    assert c[..1] == [c[0]] && Bytes(data, [c[0]]) == data[c[0]] + [];
    if k == 0 {
      assert |c| == 1 ==> c[..1] == c;
    } else {
      KeptFewest(len, data, c[1..], n - len[c[0]]);
      FrontBytes(data, c, k + 1);
      FrontBytes(data, c, k);
    }
  }

  lemma {:induction false} FrontBytes(data: Payloads, c: seq<Id>, k: nat)
    requires Covers(data, c) && 0 < k <= |c|
    ensures |Bytes(data, c[..k])| == |data[c[0]]| + |Bytes(data, c[1..][..k - 1])|
  {
    assert c[..k][1..] == c[1..][..k - 1];
  }

  /** What it has to keep is what remains of its total, and no total in front is smaller than what is
      cut off. */
  lemma {:induction false} KeptFits(next: Links, len: Sizes, tot: Sizes, h: Id, c: seq<Id>, n: nat, shrink: nat)
    requires Path(next, h, c) && c != [] && Totals(next, len, tot) && NULL !in tot
    requires (forall x <- c :: x in len && x in tot) && 0 < shrink && n + shrink == tot[h]
    ensures var k := KeptAt(len, c, n);
            && shrink <= tot[c[k]] && tot[c[k]] - shrink <= len[c[k]]
            && forall i :: 0 <= i <= k ==> shrink <= tot[c[i]]
    decreases |c|
  {
    assert Right(next, len, tot, h);
    if n > len[h] {
      KeptFits(next, len, tot, next[h], c[1..], n - len[h], shrink);
      var k := KeptAt(len, c[1..], n - len[h]);
      forall i | 0 <= i <= k + 1 ensures shrink <= tot[c[i]] {
        if i > 0 {
          assert c[i] == c[1..][i - 1];
        }
      }
    }
  }

  /** `pbuf_realloc`, along the chain c of the pbuf. */
  ghost function Reallocated(b: Pbufs, h: Id, c: seq<Id>, n: nat): Pbufs
    requires Good(b) && Honest(b) && h in b.refs.next && Path(b.refs.next, h, c)
  {
    ReallocCuttable(b, h, c, n);
    if n >= b.tot[h] then b
    else
      var k := KeptAt(b.len, c, n);
      CutAt(b, c, k + 1, b.tot[c[k]] - (b.tot[h] - n), n - b.tot[h])
  }

  lemma {:induction false} ReallocCuttable(b: Pbufs, h: Id, c: seq<Id>, n: nat)
    requires Good(b) && Honest(b) && h in b.refs.next && Path(b.refs.next, h, c)
    ensures c != [] && h in b.tot && Along(b, c)
    ensures n < b.tot[h] ==>
      var k := KeptAt(b.len, c, n);
      && b.tot[h] - n <= b.tot[c[k]]
      && Cuttable(b, h, c, k + 1, b.tot[c[k]] - (b.tot[h] - n), n - b.tot[h])
  {
    GoodAlong(b, h, c);
    assert Whole(b, h);
    if n < b.tot[h] {
      var k := KeptAt(b.len, c, n);
      KeptFits(b.refs.next, b.len, b.tot, h, c, n, b.tot[h] - n);
      PathFrom(b.refs.next, h, c, k);
      forall y <- c[..k + 1] ensures 0 <= b.tot[y] + (n - b.tot[h]) < HALF_WORD {
        var i :| 0 <= i <= k && c[i] == y;
      }
      SizedSums(b.tot, c, n - b.tot[h]);
    }
  }

  /** What `pbuf_realloc` finds on its walk: pbuf `keep` of the chain is the last one to stay, with l bytes. */
  ghost predicate Kept(next: Links, len: Sizes, tot: Sizes, data: Payloads, h: Id, c: seq<Id>, n: nat, shrink: nat, keep: nat,
                       l: nat) {
    && Path(next, h, c) && c != [] && Totals(next, len, tot) && NULL !in tot && Covers(data, c)
    && (forall x <- c :: x in len && x in tot && tot[x] < HALF_WORD) && Sums(tot, c, 0 - shrink)
    && h in tot && n + shrink == tot[h] && keep == KeptAt(len, c, n) && l + shrink == tot[c[keep]] && l <= |data[c[keep]]|
  }

  lemma {:induction false} ReallocKept(b: Pbufs, h: Id, c: seq<Id>, n: nat, shrink: nat)
    requires Honest(b) && NULL !in b.tot && Path(b.refs.next, h, c) && c != [] && Along(b, c) && Covers(b.data, c)
    requires h in b.tot && n + shrink == b.tot[h] && 0 < shrink
    ensures var k := KeptAt(b.len, c, n);
            && c[k] in b.refs.next && shrink <= b.tot[c[k]] && b.tot[c[k]] - shrink <= |b.data[c[k]]|
            && Kept(b.refs.next, b.len, b.tot, b.data, h, c, n, shrink, k, b.tot[c[k]] - shrink)
  {
    KeptFits(b.refs.next, b.len, b.tot, h, c, n, shrink);
    PathFrom(b.refs.next, h, c, KeptAt(b.len, c, n));
    SizedSums(b.tot, c, 0 - shrink);
  }

  /** The fields that `pbuf_realloc` leaves when it cuts off `shrink` bytes. */
  lemma {:induction false} ReallocFields(b: Pbufs, h: Id, c: seq<Id>, n: nat, shrink: nat, k: nat, l: nat)
    requires Good(b) && Honest(b) && h in b.refs.next && Path(b.refs.next, h, c)
    requires Kept(b.refs.next, b.len, b.tot, b.data, h, c, n, shrink, k, l) && 0 < shrink && c[k] in b.refs.next
    ensures Reallocated(b, h, c, n)
         == Pbufs(Dechained(b.refs, c[k]), b.len[c[k] := l], Shifted(b.tot, c, k + 1, 0 - shrink), b.data[c[k] := b.data[c[k]][..l]])
  {
    assert n - b.tot[h] == 0 - shrink && b.tot[c[k]] - (b.tot[h] - n) == l;
  }

  /** `pbuf_realloc` never lengthens a chain; a shorter one keeps its first n bytes, in as few pbufs as
      have them, but one at least. */
  lemma {:induction false} ReallocTheorem(b: Pbufs, h: Id, c: seq<Id>, n: nat)
    requires Good(b) && Honest(b) && h in b.refs.next && Path(b.refs.next, h, c)
    ensures h in b.tot && Along(b, c) && c != [] && (n >= b.tot[h] ==> Reallocated(b, h, c, n) == b)
    ensures n < b.tot[h] ==> KeepsFront(b, h, c, KeptAt(b.len, c, n) + 1, n, Reallocated(b, h, c, n))
    ensures Covers(b.data, c) && (n < b.tot[h] ==> Fewest(b.data, c, KeptAt(b.len, c, n) + 1, n))
  {
    ReallocCuttable(b, h, c, n);
    if n < b.tot[h] {
      ReallocCuts(b, h, c, n);
      KeptFewest(b.len, b.data, c, n);
    }
  }

  lemma {:induction false} ReallocCuts(b: Pbufs, h: Id, c: seq<Id>, n: nat)
    requires Good(b) && Honest(b) && h in b.refs.next && Path(b.refs.next, h, c)
    requires c != [] && h in b.tot && Along(b, c) && n < b.tot[h]
    ensures KeepsFront(b, h, c, KeptAt(b.len, c, n) + 1, n, Reallocated(b, h, c, n))
  {
    var k, r := KeptAt(b.len, c, n), Reallocated(b, h, c, n);
    var l, d := b.tot[c[k]] - (b.tot[h] - n), n - b.tot[h];
    assert l >= 0 && Cuttable(b, h, c, k + 1, l, d) && r == CutAt(b, c, k + 1, l, d) by {
      ReallocCuttable(b, h, c, n);
    }
    CutTheorem(b, h, c, k + 1, l, d, n);
  }

  // ---- pbuf_free_header --------------------------------------------------------------------------------

  /** Dropping f touches no other pbuf's link or count. */
  lemma {:induction false} HeadDroppedElse(s: State, f: Id, x: Id)
    requires Inv(s) && f in s.held && x in s.next && x != f && x in s.ref
    ensures var r := HeadDropped(s, f);
            x in r.next && r.next[x] == s.next[x] && x in r.ref && r.ref[x] == s.ref[x]
  {
    HeadCallable(s, f);
    FreedExactly(Unlinked(s, f), f, [f]);
    var one := [f];
    var n := Singles(s.ref, one);
    assert Singles(Unlinked(s, f).ref, one) == n;
    assert x !in Elems(one[..n]);
  }

  lemma {:induction false} HeadlessElse(s: State, len: Sizes, c: seq<Id>, n: nat, x: Id)
    requires Ready(s, len, c) && x in s.next && x !in c
    ensures x in Headless(s, len, c, n).s.next && Headless(s, len, c, n).s.next[x] == s.next[x]
    decreases |c|
  {
    if n != 0 && c != [] && n >= len[c[0]] {
      DroppedHeaded(s, c);
      assert x in s.ref;
      HeadDroppedElse(s, c[0], x);
      HeadlessElse(HeadDropped(s, c[0]), len, c[1..], n - len[c[0]], x);
    }
  }

  /** Each of the first k pbufs of the chain had but one reference, or nothing behind it. */
  ghost predicate Droppable(s: State, tot: Sizes, c: seq<Id>, k: nat)
    requires k <= |c| && forall x <- c :: x in s.next && x in s.ref
  {
    forall i :: 0 <= i < k ==> s.ref[c[i]] == 1 || Tail(tot, s.next[c[i]]) == 0
  }

  /** The rest of the chain, after one pbuf was dropped, is as droppable as before. */
  lemma {:induction false} DroppableOn(s: State, tot: Sizes, c: seq<Id>, k: nat)
    requires Inv(s) && Headed(s, c) && 0 < k <= |c|
    requires forall x <- c :: x in s.next && x in s.ref
    requires forall x <- c[1..] :: x in HeadDropped(s, c[0]).next && x in HeadDropped(s, c[0]).ref
    ensures Droppable(s, tot, c, k) <==>
      (s.ref[c[0]] == 1 || Tail(tot, s.next[c[0]]) == 0) && Droppable(HeadDropped(s, c[0]), tot, c[1..], k - 1)
  {
    var r := HeadDropped(s, c[0]);
    forall i | 0 < i < k ensures r.ref[c[i]] == s.ref[c[i]] && r.next[c[i]] == s.next[c[i]] && c[i] == c[1..][i - 1] {
      PathDistinct(s.next, c[0], c, 0, i);
      HeadDroppedElse(s, c[0], c[i]);
    }
    if Droppable(s, tot, c, k) {
      forall i | 0 <= i < k - 1 ensures r.ref[c[1..][i]] == 1 || Tail(tot, r.next[c[1..][i]]) == 0 {
        assert c[1..][i] == c[i + 1];
      }
    }
  }

  lemma {:induction false} ReadyFields(s: State, len: Sizes, c: seq<Id>)
    requires Ready(s, len, c)
    ensures forall x <- c :: x in s.next && x in s.ref
  {
    if c != [] {
      PathMembers(s.next, c[0], c);
    }
  }

  /** A pbuf that was dropped while others hold it counts bytes it no longer leads to. */
  lemma {:induction false} HeadlessWrong(s: State, len: Sizes, tot: Sizes, c: seq<Id>, n: nat) returns (f: Id)
    requires Ready(s, len, c) && Totals(s.next, len, tot) && NULL !in tot
    requires (forall x <- c :: x in s.next && x in s.ref) && !Droppable(s, tot, c, Drops(len, c, n).0)
    ensures f in c[..Drops(len, c, n).0] && f in len && f in tot && tot[f] != len[f]
    ensures f in Headless(s, len, c, n).s.next && Headless(s, len, c, n).s.next[f] == NULL
    decreases |c|
  {
    var k := Drops(len, c, n).0;
    var s1, rest, m := HeadDropped(s, c[0]), c[1..], n - len[c[0]];
    if s.ref[c[0]] != 1 && Tail(tot, s.next[c[0]]) != 0 {
      f := c[0];
      assert c[..k][0] == f;
      HeadWrong(s, len, tot, c, n);
    } else {
      RightBehind(s, len, tot, c, n);
      f := HeadlessWrong(s1, len, tot, rest, m);
      InFront(c, k, f);
    }
  }

  /** If the head is dropped rightly, it depends on what is behind it. */
  lemma {:induction false} RightBehind(s: State, len: Sizes, tot: Sizes, c: seq<Id>, n: nat)
    requires Ready(s, len, c) && Totals(s.next, len, tot) && NULL !in tot && n != 0 && c != [] && n >= len[c[0]]
    requires (forall x <- c :: x in s.next && x in s.ref) && (s.ref[c[0]] == 1 || Tail(tot, s.next[c[0]]) == 0)
    ensures var s1 := HeadDropped(s, c[0]);
            && Ready(s1, len, c[1..]) && Totals(s1.next, len, tot) && (forall x <- c[1..] :: x in s1.next && x in s1.ref)
            && (Droppable(s, tot, c, Drops(len, c, n).0) <==> Droppable(s1, tot, c[1..], Drops(len, c[1..], n - len[c[0]]).0))
            && Headless(s1, len, c[1..], n - len[c[0]]) == Headless(s, len, c, n)
  {
    HeadlessRound(s, len, c, n);
    ReadyFields(HeadDropped(s, c[0]), len, c[1..]);
    DroppableOn(s, tot, c, Drops(len, c, n).0);
    DropTotals(s, len, tot, c[0]);
  }

  lemma {:induction false} InFront(c: seq<Id>, k: nat, f: Id)
    requires 0 < k <= |c| && f in c[1..][..k - 1]
    ensures f in c[..k]
  {
    assert c[..k] == [c[0]] + c[1..][..k - 1];
  }

  lemma {:induction false} HeadWrong(s: State, len: Sizes, tot: Sizes, c: seq<Id>, n: nat)
    requires Ready(s, len, c) && Totals(s.next, len, tot) && NULL !in tot && n != 0 && c != [] && n >= len[c[0]]
    requires c[0] in s.next && c[0] in s.ref && s.ref[c[0]] != 1 && Tail(tot, s.next[c[0]]) != 0
    ensures c[0] in tot && tot[c[0]] != len[c[0]]
    ensures c[0] in Headless(s, len, c, n).s.next && Headless(s, len, c, n).s.next[c[0]] == NULL
  {
    assert Right(s.next, len, tot, c[0]);
    HeadlessRound(s, len, c, n);
    HeadDroppedNext(s, c[0]);
    HeadApart(s.next, c);
    HeadlessElse(HeadDropped(s, c[0]), len, c[1..], n - len[c[0]], c[0]);
  }

  lemma {:induction false} HeadApart(next: Links, c: seq<Id>)
    requires c != [] && Path(next, c[0], c)
    ensures c[0] !in c[1..]
  {
    forall i | 0 <= i < |c[1..]| ensures c[1..][i] != c[0] {
      PathDistinct(next, c[0], c, 0, i + 1);
    }
  }

  /** After the whole pbufs were dropped, all totals are right exactly if each of them had but one
      reference, or nothing behind it. */
  lemma {:induction false} HeadlessTotals(s: State, len: Sizes, tot: Sizes, c: seq<Id>, n: nat)
    requires Ready(s, len, c) && Totals(s.next, len, tot) && NULL !in tot
    requires forall x <- c :: x in s.next && x in s.ref
    ensures Totals(Headless(s, len, c, n).s.next, len, tot) <==> Droppable(s, tot, c, Drops(len, c, n).0)
    decreases |c|
  {
    if !Droppable(s, tot, c, Drops(len, c, n).0) {
      var f := HeadlessWrong(s, len, tot, c, n);
      assert !Right(Headless(s, len, c, n).s.next, len, tot, f);
    } else if n != 0 && c != [] && n >= len[c[0]] {
      assert s.ref[c[0]] == 1 || Tail(tot, s.next[c[0]]) == 0;
      RightBehind(s, len, tot, c, n);
      HeadlessTotals(HeadDropped(s, c[0]), len, tot, c[1..], n - len[c[0]]);
    }
  }

  /** A dropped pbuf no longer links to anything; all others link as before. */
  lemma {:induction false} HeadlessLinks(s: State, len: Sizes, c: seq<Id>, n: nat, x: Id)
    requires Ready(s, len, c) && x != NULL
    ensures In(Headless(s, len, c, n).s.next, x) == In(s.next, x) - Elems(c[..Drops(len, c, n).0])
    decreases |c|
  {
    var k := Drops(len, c, n).0;
    if n != 0 && c != [] && n >= len[c[0]] {
      var s1 := HeadDropped(s, c[0]);
      HeadlessRound(s, len, c, n);
      HeadlessLinks(s1, len, c[1..], n - len[c[0]], x);
      HeadDroppedNext(s, c[0]);
      InDropped(s.next, s1.next, c[0], x);
      ElemsFront(c, k);
    } else {
      assert c[..0] == [] && Elems(c[..0]) == {};
    }
  }

  lemma {:induction false} InDropped(next: Links, next': Links, f: Id, x: Id)
    requires x != NULL && (next' == next - {f} || next' == next[f := NULL])
    ensures In(next', x) == In(next, x) - {f}
  {
  }

  lemma {:induction false} ElemsFront(c: seq<Id>, k: nat)
    requires 0 < k <= |c|
    ensures Elems(c[..k]) == {c[0]} + Elems(c[1..][..k - 1])
  {
    assert c[..k] == [c[0]] + c[1..][..k - 1];
  }

  /** A chain whose head the caller holds, in a good state with right totals. */
  ghost predicate Frontable(b: Pbufs, c: seq<Id>) {
    && Good(b) && Honest(b) && Headed(b.refs, c) && Along(b, c)
    && (forall x <- c :: x in b.refs.next && x in b.refs.ref && b.len[x] <= b.tot[x])
  }

  lemma {:induction false} HeadedFrontable(b: Pbufs, c: seq<Id>)
    requires Good(b) && Honest(b) && Headed(b.refs, c)
    ensures Frontable(b, c)
  {
    if c != [] {
      GoodAlong(b, c[0], c);
      PathMembers(b.refs.next, c[0], c);
      forall x <- c ensures b.len[x] <= b.tot[x] {
        assert Right(b.refs.next, b.len, b.tot, x);
      }
    }
  }

  /** `pbuf_free_header`, along the chain c. */
  ghost function HeaderFreed(b: Pbufs, c: seq<Id>, n: nat): Pbufs
    requires Frontable(b, c)
  {
    HeadlessRest(b.refs, b.len, c, n);
    var r := Headless(b.refs, b.len, c, n);
    if r.left == 0 || r.rest == [] then b.(refs := r.s)
    else
      var p := r.rest[0];
      Pbufs(r.s, Less(b.len, p, r.left), Less(b.tot, p, r.left), b.data[p := b.data[p][r.left..]])
  }

  lemma {:induction false} HeadlessSub(s: State, len: Sizes, c: seq<Id>, n: nat, x: Id)
    requires Ready(s, len, c) && x in Headless(s, len, c, n).s.next
    ensures x in s.next
    decreases |c|
  {
    if n != 0 && c != [] && n >= len[c[0]] {
      HeadlessRound(s, len, c, n);
      HeadlessSub(HeadDropped(s, c[0]), len, c[1..], n - len[c[0]], x);
      HeadDroppedNext(s, c[0]);
    }
  }

  lemma {:induction false} HeaderGood(b: Pbufs, c: seq<Id>, n: nat)
    requires Frontable(b, c)
    ensures Good(HeaderFreed(b, c, n))
  {
    var r := HeaderFreed(b, c, n);
    HeadlessRest(b.refs, b.len, c, n);
    assert r.refs == Headless(b.refs, b.len, c, n).s;
    forall x <- r.refs.next ensures Whole(r, x) {
      HeadlessSub(b.refs, b.len, c, n, x);
      assert Whole(b, x);
    }
  }

  /** The chain that remains stands for the bytes behind the first n. */
  lemma {:induction false} HeaderContents(b: Pbufs, c: seq<Id>, n: nat)
    requires Frontable(b, c) && Covers(b.data, c)
    ensures var r, rest := HeaderFreed(b, c, n), c[Drops(b.len, c, n).0..];
            && Headed(r.refs, rest) && Covers(r.data, rest)
            && Bytes(r.data, rest) == if n <= |Bytes(b.data, c)| then Bytes(b.data, c)[n..] else []
  {
    HeadlessRest(b.refs, b.len, c, n);
    FreeHeaderBytes(b.len, b.data, c, n);
    var k, left := Drops(b.len, c, n).0, Drops(b.len, c, n).1;
    var rest := c[k..];
    if rest == [] {
      assert |Bytes(b.data, c)| <= n;
    } else if left == 0 {
    } else {
      HeadApart(Headless(b.refs, b.len, c, n).s.next, rest);
      HeadTrimmed(b.data, rest, left);
    }
  }

  /** When all totals stay right: each pbuf dropped had but one reference, or nothing behind it, and
      only dropped pbufs linked to one that loses bytes. */
  ghost predicate HeaderFree(b: Pbufs, c: seq<Id>, n: nat)
    requires forall x <- c :: x in b.len && x in b.refs.next && x in b.refs.ref
  {
    var k, left := Drops(b.len, c, n).0, Drops(b.len, c, n).1;
    Droppable(b.refs, b.tot, c, k) && (k < |c| && left > 0 ==> In(b.refs.next, c[k]) <= Elems(c[..k]))
  }

  lemma {:induction false} HeaderHonest(b: Pbufs, c: seq<Id>, n: nat)
    requires Frontable(b, c)
    ensures Honest(HeaderFreed(b, c, n)) <==> HeaderFree(b, c, n)
  {
    var k, left := Drops(b.len, c, n).0, Drops(b.len, c, n).1;
    HeadlessRest(b.refs, b.len, c, n);
    HeadlessTotals(b.refs, b.len, b.tot, c, n);
    if k < |c| && left > 0 {
      TrimHonest(b, c, n, k, left);
    }
  }

  lemma {:induction false} TrimHonest(b: Pbufs, c: seq<Id>, n: nat, k: nat, left: nat)
    requires Frontable(b, c) && Drops(b.len, c, n) == (k, left) && k < |c| && left > 0
    ensures left <= b.len[c[k]] && left <= b.tot[c[k]]
    ensures Totals(Headless(b.refs, b.len, c, n).s.next, Less(b.len, c[k], left), Less(b.tot, c[k], left))
       <==> Droppable(b.refs, b.tot, c, k) && In(b.refs.next, c[k]) <= Elems(c[..k])
  {
    var next, p := Headless(b.refs, b.len, c, n).s.next, c[k];
    HeadlessRest(b.refs, b.len, c, n);
    if Droppable(b.refs, b.tot, c, k) {
      HeadlessTotals(b.refs, b.len, b.tot, c, n);
      TrimHead(next, c[k..]);
      HeadlessLinks(b.refs, b.len, c, n, p);
      TrimRight(b.refs.next, next, b.len, b.tot, p, Elems(c[..k]), left);
    } else {
      var f := HeadlessWrong(b.refs, b.len, b.tot, c, n);
      FrontDiffers(b.refs.next, c, k, f);
      StillWrong(next, b.len, b.tot, p, f, left);
    }
  }

  lemma {:induction false} TrimRight(next0: Links, next: Links, len: Sizes, tot: Sizes, p: Id, gone: set<Id>, n: nat)
    requires Totals(next, len, tot) && p in next && NULL !in tot && next[p] != p && In(next, p) == In(next0, p) - gone
    requires p in len && p in tot && 0 < n <= len[p] <= tot[p] < HALF_WORD
    ensures Totals(next, Less(len, p, n), Less(tot, p, n)) <==> In(next0, p) <= gone
  {
    RemoveTotals(next, len, tot, p, n);
    forall x | x in In(next0, p) && In(next0, p) - gone == {} ensures x in gone {
      assert x !in In(next0, p) - gone;
    }
  }

  lemma {:induction false} StillWrong(next: Links, len: Sizes, tot: Sizes, p: Id, f: Id, n: nat)
    requires f in next && next[f] == NULL && NULL !in tot && f in len && f in tot && tot[f] != len[f] && f != p
    requires p in len && p in tot && n <= len[p] && n <= tot[p] && p != NULL
    ensures !Totals(next, Less(len, p, n), Less(tot, p, n))
  {
    assert !Right(next, Less(len, p, n), Less(tot, p, n), f);
  }

  lemma {:induction false} TrimHead(next: Links, c: seq<Id>)
    requires c != [] && Path(next, c[0], c)
    ensures c[0] in next && next[c[0]] != c[0]
  {
    PathFrom(next, c[0], c, 0);
    if |c| > 1 {
      PathDistinct(next, c[0], c, 0, 1);
    }
  }

  lemma {:induction false} FrontDiffers(next: Links, c: seq<Id>, k: nat, f: Id)
    requires k < |c| && Path(next, c[0], c) && f in c[..k]
    ensures f != c[k]
  {
    var i :| 0 <= i < k && c[i] == f;
    PathDistinct(next, c[0], c, i, k);
  }

  /** Of a chain that loses its first n bytes the first k pbufs go: those in front of each have fewer
      bytes, and they reach n, or all but a part of the next one, or are all there are. */
  ghost predicate Spent(data: Payloads, c: seq<Id>, k: nat, n: nat)
    requires Covers(data, c)
  {
    && k <= |c| && (forall i :: 0 <= i < k ==> |Bytes(data, c[..i])| < n)
    && (k < |c| ==> |Bytes(data, c[..k])| == n || |Bytes(data, c[..k])| < n < |Bytes(data, c[..k + 1])|)
  }

  lemma {:induction false} DropsSpent(len: Sizes, data: Payloads, c: seq<Id>, n: nat)
    requires Covers(data, c) && forall x <- c :: x in len && len[x] == |data[x]|
    ensures Spent(data, c, Drops(len, c, n).0, n)
  {
    var k := Drops(len, c, n).0;
    assert c[..0] == [] && Bytes(data, []) == [];
    if k > 0 {
      DropsSpent(len, data, c[1..], n - len[c[0]]);
      forall i | 0 <= i < k
        ensures |Bytes(data, c[..i])| < n
      {
        if i > 0 {
          FrontBytes(data, c, i);
        }
      }
      FrontBytes(data, c, k);
      assert c[..|c|] == c;
      if k < |c| {
        FrontBytes(data, c, k + 1);
      }
    } else if c != [] {
      FrontBytes(data, c, 1);
      assert c[1..][..0] == [];
    }
  }

  lemma {:induction false} HeaderElsewhere(b: Pbufs, c: seq<Id>, n: nat)
    requires Frontable(b, c)
    ensures var rest := c[Drops(b.len, c, n).0..]; Untouched(b, HeaderFreed(b, c, n), if rest == [] then [] else [rest[0]])
  {
    HeadlessRest(b.refs, b.len, c, n);
    var k, left, r := Drops(b.len, c, n).0, Drops(b.len, c, n).1, HeaderFreed(b, c, n);
    if left == 0 || k == |c| {
      SameElsewhere(b, r, if c[k..] == [] then [] else [c[k..][0]]);
    } else {
      LessElsewhere(b, r, c[k], left);
    }
  }

  lemma {:induction false} SameElsewhere(b: Pbufs, r: Pbufs, c: seq<Id>)
    requires r.len == b.len && r.tot == b.tot && r.data == b.data
    ensures Untouched(b, r, c)
  {
  }

  lemma {:induction false} LessElsewhere(b: Pbufs, r: Pbufs, p: Id, n: nat)
    requires p in b.len && p in b.tot && p in b.data && n <= b.len[p] && n <= b.tot[p] && n <= |b.data[p]|
    requires r.len == Less(b.len, p, n) && r.tot == Less(b.tot, p, n) && r.data == b.data[p := b.data[p][n..]]
    ensures Untouched(b, r, [p])
  {
  }

  /** `pbuf_free_header` drops the first n bytes of a chain, and the pbufs that have no more than those;
      all totals stay right exactly under the condition above. */
  lemma {:induction false} FreeHeaderTheorem(b: Pbufs, c: seq<Id>, n: nat)
    requires Good(b) && Honest(b) && Headed(b.refs, c)
    ensures Frontable(b, c) && Covers(b.data, c)
    ensures var r, rest := HeaderFreed(b, c, n), c[Drops(b.len, c, n).0..];
            && Good(r) && Headed(r.refs, rest) && Covers(r.data, rest)
            && Bytes(r.data, rest) == (if n <= |Bytes(b.data, c)| then Bytes(b.data, c)[n..] else [])
            && (Honest(r) <==> HeaderFree(b, c, n)) && Spent(b.data, c, Drops(b.len, c, n).0, n)
            && Untouched(b, r, if rest == [] then [] else [rest[0]])
  {
    HeadedFrontable(b, c);
    DropsSpent(b.len, b.data, c, n);
    HeaderElsewhere(b, c, n);
    HeaderGood(b, c, n);
    HeaderContents(b, c, n);
    HeaderHonest(b, c, n);
  }

  // ---- pbuf_free and pbuf_ref ---------------------------------------------------------------------------

  function FreedAll(b: Pbufs, p: Id): Pbufs
    requires Inv(b.refs) && p in b.refs.held
  {
    b.(refs := Freed(b.refs, p))
  }

  /** `pbuf_free` never touches a total that stays: what is left of the chain is the chain it was. */
  lemma {:induction false} FreeTheorem(b: Pbufs, p: Id, c: seq<Id>)
    requires Good(b) && p in b.refs.held && Path(b.refs.next, p, c)
    ensures Good(FreedAll(b, p)) && (Honest(b) ==> Honest(FreedAll(b, p)))
    ensures forall x <- c :: x in b.refs.ref
    ensures var r, n := FreedAll(b, p), Singles(b.refs.ref, c);
            n < |c| ==> Path(r.refs.next, c[n], c[n..])
  {
    PathMembers(b.refs.next, p, c);
    FreedExactly(b.refs, p, c);
    var r, n := FreedAll(b, p), Singles(b.refs.ref, c);
    forall x <- r.refs.next ensures Whole(r, x) && (Honest(b) ==> Right(r.refs.next, r.len, r.tot, x)) {
      assert Whole(b, x);
      assert Honest(b) ==> Right(b.refs.next, b.len, b.tot, x);
    }
    if n < |c| {
      BehindStays(b.refs.next, p, c, n);
    }
  }

  lemma {:induction false} BehindStays(next: Links, p: Id, c: seq<Id>, n: nat)
    requires Path(next, p, c) && n < |c|
    ensures Path(next - Elems(c[..n]), c[n], c[n..])
  {
    PathFrom(next, p, c, n);
    PathMembers(next, p, c);
    forall x <- c[n..] ensures x !in Elems(c[..n]) {
      var i :| n <= i < |c| && c[i] == x;
      forall j | 0 <= j < n ensures c[j] != x {
        PathDistinct(next, p, c, j, i);
      }
    }
    PathKept(next, next - Elems(c[..n]), c[n], c[n..]);
  }

  function ReferencedAll(b: Pbufs, p: Id): Pbufs
    requires p in b.refs.ref
  {
    b.(refs := Referenced(b.refs, p))
  }

  lemma {:induction false} RefTheorem(b: Pbufs, p: Id)
    requires Good(b) && Honest(b) && p in b.refs.next
    ensures Honest(ReferencedAll(b, p)) && (Good(ReferencedAll(b, p)) <==> b.refs.ref[p] + 1 < BYTE)
  {
    ReferencedInv(b.refs, p);
    var r := ReferencedAll(b, p);
    forall x <- r.refs.next ensures Whole(r, x) {
      assert Whole(b, x);
    }
  }

  // ---- pbuf_alloc ---------------------------------------------------------------------------------------

  /** The bytes of payloads one after the other. */
  function Flat(payloads: seq<seq<byte>>): seq<byte> {
    if payloads == [] then [] else payloads[0] + Flat(payloads[1..])
  }

  /** A new pbuf, the first one of its chain, with the total of what is to come. */
  function Started(b: Pbufs, q: Id, payload: seq<byte>, total: nat): Pbufs {
    Pbufs(Allocated(b.refs, q), b.len[q := |payload|], b.tot[q := total], b.data[q := payload])
  }

  /** A new pbuf behind the last one. */
  function Appended(b: Pbufs, last: Id, q: Id, payload: seq<byte>, total: nat): Pbufs
    requires last in b.refs.next
  {
    Pbufs(Linked(Allocated(b.refs, q), last, q), b.len[q := |payload|], b.tot[q := total], b.data[q := payload])
  }

  /** The chain c of h, good but for the total of its last pbuf, which counts `rem` bytes to come. */
  ghost predicate Growing(b: Pbufs, h: Id, c: seq<Id>, rem: nat) {
    && Good(b) && c != [] && Path(b.refs.next, h, c) && Covers(b.data, c)
    && Almost(b.refs.next, b.len, b.tot, c[|c| - 1], rem)
  }

  lemma {:induction false} StartedGrowing(b: Pbufs, q: Id, payload: seq<byte>, total: nat)
    requires Good(b) && Honest(b) && q !in b.refs.next && q != NULL && |payload| <= total < HALF_WORD
    ensures Growing(Started(b, q, payload, total), q, [q], total - |payload|)
    ensures Bytes(Started(b, q, payload, total).data, [q]) == payload
  {
    var r, one := Started(b, q, payload, total), [q];
    AllocatedInv(b.refs, q);
    AlmostStarts(b.refs.next, b.len, b.tot, q, total, |payload|);
    assert one[1..] == [] && Path(r.refs.next, q, one);
    assert Bytes(r.data, one) == payload + [];
    forall x <- r.refs.next ensures Whole(r, x) {
      assert x != q ==> Whole(b, x);
    }
  }

  lemma {:induction false} AppendedGrowing(b: Pbufs, h: Id, c: seq<Id>, q: Id, payload: seq<byte>, rem: nat)
    requires Growing(b, h, c, rem) && q !in b.refs.next && q != NULL && |payload| <= rem < HALF_WORD
    ensures c[|c| - 1] in b.refs.next
    ensures var r := Appended(b, c[|c| - 1], q, payload, rem);
            Growing(r, h, c + [q], rem - |payload|) && Bytes(r.data, c + [q]) == Bytes(b.data, c) + payload
  {
    var last := c[|c| - 1];
    var r := Appended(b, last, q, payload, rem);
    GrowInv(b.refs, last, q);
    AlmostOn(b.refs.next, b.len, b.tot, last, rem, q, |payload|);
    ExtendedPath(b.refs.next, h, c, q);
    AppendedGood(b, last, q, payload, rem);
    PathMembers(b.refs.next, h, c);
    AppendedBytes(b.data, c, q, payload);
    assert (c + [q])[|c + [q]| - 1] == q;
  }

  lemma {:induction false} AppendedGood(b: Pbufs, last: Id, q: Id, payload: seq<byte>, rem: nat)
    requires Good(b) && last in b.refs.next && q !in b.refs.next && q != NULL && rem < HALF_WORD
    requires Inv(Appended(b, last, q, payload, rem).refs)
    ensures Good(Appended(b, last, q, payload, rem))
  {
    var r := Appended(b, last, q, payload, rem);
    forall x <- r.refs.next ensures Whole(r, x) {
      assert x != q ==> Whole(b, x);
    }
  }

  lemma {:induction false} AppendedBytes(data: Payloads, c: seq<Id>, q: Id, payload: seq<byte>)
    requires Covers(data, c) && q !in c
    ensures Covers(data[q := payload], c + [q]) && Bytes(data[q := payload], c + [q]) == Bytes(data, c) + payload
  {
    var one := [q];
    BytesKept(data, data[q := payload], c);
    BytesConcat(data[q := payload], c, one);
    assert one[1..] == [] && Bytes(data[q := payload], one) == payload + [];
  }

  function GrownAll(b: Pbufs, last: Id, ids: seq<Id>, payloads: seq<seq<byte>>): Pbufs
    requires last in b.refs.next && |ids| == |payloads|
    decreases |ids|
  {
    if ids == [] then b
    else GrownAll(Appended(b, last, ids[0], payloads[0], |Flat(payloads)|), ids[0], ids[1..], payloads[1..])
  }

  /** `pbuf_alloc`, of a chain of new pbufs with the given payloads. */
  function AllocatedAll(b: Pbufs, ids: seq<Id>, payloads: seq<seq<byte>>): Pbufs
    requires ids != [] && |ids| == |payloads|
  {
    GrownAll(Started(b, ids[0], payloads[0], |Flat(payloads)|), ids[0], ids[1..], payloads[1..])
  }

  /** The chain d of h stands for the given bytes, in a good state with right totals. */
  ghost predicate StandsFor(b: Pbufs, h: Id, d: seq<Id>, all: seq<byte>) {
    Good(b) && Honest(b) && Path(b.refs.next, h, d) && Covers(b.data, d) && Bytes(b.data, d) == all
  }

  lemma {:induction false} GrownTheorem(b: Pbufs, h: Id, c: seq<Id>, last: Id, ids: seq<Id>, payloads: seq<seq<byte>>,
                                        d: seq<Id>, all: seq<byte>)
    requires Growing(b, h, c, |Flat(payloads)|) && last == c[|c| - 1] && last in b.refs.next
    requires |ids| == |payloads| && Fresh(b.refs, ids) && |Flat(payloads)| < HALF_WORD
    requires d == c + ids && all == Bytes(b.data, c) + Flat(payloads)
    ensures StandsFor(GrownAll(b, last, ids, payloads), h, d, all)
    decreases |ids|
  {
    if ids == [] {
      assert d == c;
      AlmostDone(b.refs.next, b.len, b.tot, last);
    } else {
      var q, rem := ids[0], |Flat(payloads)|;
      var b1, c1 := Appended(b, last, q, payloads[0], rem), c + [q];
      assert c1[|c1| - 1] == q && c1 + ids[1..] == d;
      AppendedGrowing(b, h, c, q, payloads[0], rem);
      StillFreshAfter(b.refs, last, ids);
      Associate(Bytes(b.data, c), payloads[0], Flat(payloads[1..]));
      GrownTheorem(b1, h, c1, q, ids[1..], payloads[1..], d, all);
    }
  }

  lemma {:induction false} Associate(a: seq<byte>, b: seq<byte>, c: seq<byte>)
    ensures (a + b) + c == a + (b + c)
  {
  }

  lemma {:induction false} StillFreshAfter(s: State, last: Id, ids: seq<Id>)
    requires ids != [] && Fresh(s, ids) && last in s.next
    ensures Fresh(Linked(Allocated(s, ids[0]), last, ids[0]), ids[1..])
  {
    var t, rest := Linked(Allocated(s, ids[0]), last, ids[0]), ids[1..];
    forall i | 0 <= i < |rest| ensures rest[i] != NULL && rest[i] !in t.next && forall j :: 0 <= j < i ==> rest[j] != rest[i] {
      assert rest[i] == ids[i + 1] && ids[0] != ids[i + 1];
      forall j | 0 <= j < i ensures rest[j] != rest[i] {
        assert rest[j] == ids[j + 1];
      }
    }
  }

  /** A new chain stands for its payloads one after the other, and all totals are right. */
  lemma {:induction false} AllocTheorem(b: Pbufs, ids: seq<Id>, payloads: seq<seq<byte>>)
    requires Good(b) && Honest(b) && ids != [] && |ids| == |payloads| && Fresh(b.refs, ids) && |Flat(payloads)| < HALF_WORD
    ensures StandsFor(AllocatedAll(b, ids, payloads), ids[0], ids, Flat(payloads))
  {
    var q, total := ids[0], |Flat(payloads)|;
    var b1, one := Started(b, q, payloads[0], total), [q];
    StartedGrowing(b, q, payloads[0], total);
    FreshAfterFirst(b.refs, ids);
    assert one[|one| - 1] == q && one + ids[1..] == ids;
    GrownTheorem(b1, q, one, q, ids[1..], payloads[1..], ids, Flat(payloads));
  }

  lemma {:induction false} FreshAfterFirst(s: State, ids: seq<Id>)
    requires ids != [] && Fresh(s, ids)
    ensures Fresh(Allocated(s, ids[0]), ids[1..])
  {
    var t, rest := Allocated(s, ids[0]), ids[1..];
    forall i | 0 <= i < |rest| ensures rest[i] != NULL && rest[i] !in t.next && forall j :: 0 <= j < i ==> rest[j] != rest[i] {
      assert rest[i] == ids[i + 1] && ids[0] != ids[i + 1];
      forall j | 0 <= j < i ensures rest[j] != rest[i] {
        assert rest[j] == ids[j + 1];
      }
    }
  }

  // ---- Runs ---------------------------------------------------------------------------------------------

  datatype Op =
    | Alloc(ids: seq<Id>, payloads: seq<seq<byte>>)
    | Ref(p: Id)
    | CatTo(h: Id, t: Id)
    | ChainTo(h: Id, t: Id)
    | Dechain(p: Id)
    | Realloc(h: Id, n: nat)
    | FreeHeader(h: Id, n: nat)
    | Free(p: Id)

  /** The conditions, each to be checked before the call, under which an operation keeps the counts
      and the totals right. */
  ghost predicate Allowed(b: Pbufs, op: Op)
    requires Good(b) && Honest(b)
  {
    match op
    case Alloc(ids, payloads) => ids != [] && |ids| == |payloads| && Fresh(b.refs, ids) && |Flat(payloads)| < HALF_WORD
    case Ref(p) => p in b.refs.held && b.refs.ref[p] + 1 < BYTE
    case CatTo(h, t) => Joinable(b, h, t)
    case ChainTo(h, t) => Joinable(b, h, t) && b.refs.ref[t] + 1 < BYTE
    case Dechain(p) => p in b.refs.held && (Tail(b.tot, b.refs.next[p]) == 0 || In(b.refs.next, p) == {})
    case Realloc(h, n) => h in b.refs.held && Shortenable(b, h, n)
    case FreeHeader(h, n) => h in b.refs.held && Headable(b, h, n)
    case Free(p) => p in b.refs.held
  }

  /** The two chains have different ends; t is empty, or nothing else links into the chain of h and the
      sum has 16 bits. */
  ghost predicate Joinable(b: Pbufs, h: Id, t: Id)
    requires Good(b)
  {
    && h in b.refs.held && t in b.refs.held && Last(b.refs, h) !in ChainOf(b.refs, t) && h in b.tot && t in b.tot
    && (b.tot[t] == 0 || (Private(b.refs.next, ChainOf(b.refs, h), |ChainOf(b.refs, h)|) && b.tot[h] + b.tot[t] < HALF_WORD))
  }

  ghost predicate Shortenable(b: Pbufs, h: Id, n: nat)
    requires Good(b) && h in b.refs.next
  {
    var c := ChainOf(b.refs, h);
    && h in b.tot && (forall x <- c :: x in b.len)
    && (n >= b.tot[h] || Private(b.refs.next, c, KeptAt(b.len, c, n) + 1))
  }

  ghost predicate Headable(b: Pbufs, h: Id, n: nat)
    requires Good(b) && h in b.refs.next
  {
    var c := ChainOf(b.refs, h);
    (forall x <- c :: x in b.len && x in b.refs.next && x in b.refs.ref) && HeaderFree(b, c, n)
  }

  lemma {:induction false} JoinableFields(b: Pbufs, h: Id, t: Id)
    requires Good(b) && Joinable(b, h, t)
    ensures var c, d := ChainOf(b.refs, h), ChainOf(b.refs, t);
            Catable(b, h, c, t, d) && c[|c| - 1] in b.refs.next && Sums(b.tot, c, b.tot[t])
  {
    CatableFields(b, h, ChainOf(b.refs, h), t, ChainOf(b.refs, t));
  }

  ghost function CatStep(b: Pbufs, h: Id, t: Id): (r: Pbufs)
    requires Good(b) && Honest(b) && Joinable(b, h, t)
    ensures Good(r) && Honest(r) && r.refs.ref == b.refs.ref && t in r.refs.next
  {
    JoinableFields(b, h, t);
    CatTheorem(b, h, ChainOf(b.refs, h), t, ChainOf(b.refs, t));
    Catenated(b, ChainOf(b.refs, h), t)
  }

  ghost function ChainStep(b: Pbufs, h: Id, t: Id): (r: Pbufs)
    requires Good(b) && Honest(b) && Joinable(b, h, t) && b.refs.ref[t] + 1 < BYTE
    ensures Good(r) && Honest(r)
  {
    RefTheorem(CatStep(b, h, t), t);
    ReferencedAll(CatStep(b, h, t), t)
  }

  ghost function DechainStep(b: Pbufs, p: Id): (r: Pbufs)
    requires Good(b) && Honest(b) && Allowed(b, Op.Dechain(p))
    ensures Good(r) && Honest(r)
  {
    DechainTheorem(b, p, ChainOf(b.refs, p));
    DechainedAll(b, p)
  }

  ghost function ReallocStep(b: Pbufs, h: Id, n: nat): (r: Pbufs)
    requires Good(b) && Honest(b) && h in b.refs.next && Shortenable(b, h, n)
    ensures Good(r) && Honest(r)
  {
    ReallocTheorem(b, h, ChainOf(b.refs, h), n);
    Reallocated(b, h, ChainOf(b.refs, h), n)
  }

  ghost function HeaderStep(b: Pbufs, h: Id, n: nat): (r: Pbufs)
    requires Good(b) && Honest(b) && h in b.refs.held && Headable(b, h, n)
    ensures Good(r) && Honest(r)
  {
    FreeHeaderTheorem(b, ChainOf(b.refs, h), n);
    HeaderFreed(b, ChainOf(b.refs, h), n)
  }

  ghost function Step(b: Pbufs, op: Op): (r: Pbufs)
    requires Good(b) && Honest(b) && Allowed(b, op)
    ensures Good(r) && Honest(r)
  {
    match op
    case Alloc(ids, payloads) => AllocTheorem(b, ids, payloads); AllocatedAll(b, ids, payloads)
    case Ref(p) => RefTheorem(b, p); ReferencedAll(b, p)
    case CatTo(h, t) => CatStep(b, h, t)
    case ChainTo(h, t) => ChainStep(b, h, t)
    case Dechain(p) => DechainStep(b, p)
    case Realloc(h, n) => ReallocStep(b, h, n)
    case FreeHeader(h, n) => HeaderStep(b, h, n)
    case Free(p) => FreeTheorem(b, p, ChainOf(b.refs, p)); FreedAll(b, p)
  }

  /** No pbuf at all. */
  function None(): (b: Pbufs)
    ensures Good(b) && Honest(b)
  {
    Pbufs(Empty(), map[], map[], map[])
  }

  ghost predicate Feasible(b: Pbufs, run: seq<Op>)
    requires Good(b) && Honest(b)
    decreases |run|
  {
    run == [] || (Allowed(b, run[0]) && Feasible(Step(b, run[0]), run[1..]))
  }

  ghost function Exec(b: Pbufs, run: seq<Op>): (r: Pbufs)
    requires Good(b) && Honest(b) && Feasible(b, run)
    ensures Good(r) && Honest(r)
    decreases |run|
  {
    if run == [] then b else Exec(Step(b, run[0]), run[1..])
  }

  /** In every run whose steps meet the conditions, the `tot_len` of each live pbuf is the number of bytes
      of the chain it heads. */
  lemma {:induction false} RunKeepsTotals(run: seq<Op>, x: Id)
    requires Feasible(None(), run) && x in Exec(None(), run).refs.next
    ensures var b := Exec(None(), run);
            exists c :: Path(b.refs.next, x, c) && Covers(b.data, c) && x in b.tot && b.tot[x] == |Bytes(b.data, c)|
  {
    var b := Exec(None(), run);
    var c := ChainOf(b.refs, x);
    GoodAlong(b, x, c);
    TotalsMeasure(b.refs.next, b.len, b.tot, b.data, x, c);
  }
}
