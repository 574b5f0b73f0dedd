/** The lengths of packet buffers (common/lwip/core/pbuf.c): `tot_len` of a pbuf is to
    be its `len` plus the `tot_len` of the pbuf it links to. The operations fix up
    the totals along one chain; this is right exactly as long as nothing outside
    the chain links into the part they change, and the 16-bit sum fits. */
module PbufTotals {

  import opened Machine
  import opened PbufRefs

  type Links = map<Id, Id>
  type Sizes = map<Id, nat>

  function Tail(tot: Sizes, x: Id): nat {
    if x in tot then tot[x] else 0
  }

  /** The invariant of the pbuf structure. */
  ghost predicate Totals(next: Links, len: Sizes, tot: Sizes) {
    forall x <- next {:trigger Right(next, len, tot, x)} :: Right(next, len, tot, x)
  }

  ghost predicate Right(next: Links, len: Sizes, tot: Sizes, x: Id) {
    x in next && x in len && x in tot && tot[x] == len[x] + Tail(tot, next[x])
  }

  /** Nothing but the first k pbufs of the chain links to one of them. */
  ghost predicate Private(next: Links, c: seq<Id>, k: nat)
    requires k <= |c|
  {
    forall x <- next :: x !in c[..k] ==> next[x] !in c[..k]
  }

  /** A cast of x to u16_t, for x less than one word out of range. */
  function Word(x: int): int {
    if x < 0 then x + HALF_WORD else if x >= HALF_WORD then x - HALF_WORD else x
  }

  /** The totals of the first k pbufs of a chain, each changed by d. */
  function Shifted(tot: Sizes, c: seq<Id>, k: nat, d: int): Sizes
    requires k <= |c| && forall x <- c :: x in tot && 0 <= Word(tot[x] + d)
    decreases k
  {
    if k == 0 then tot else Shifted(tot, c, k - 1, d)[c[k - 1] := Word(tot[c[k - 1]] + d)]
  }

  lemma {:induction false} ShiftedAt(tot: Sizes, c: seq<Id>, k: nat, d: int, x: Id)
    requires k <= |c| && forall y <- c :: y in tot && 0 <= Word(tot[y] + d)
    ensures x in Shifted(tot, c, k, d) <==> x in tot
    ensures x in c[..k] ==> Shifted(tot, c, k, d)[x] == Word(tot[x] + d)
    ensures x in tot && x !in c[..k] ==> Shifted(tot, c, k, d)[x] == tot[x]
    decreases k
  {
    if k > 0 {
      ShiftedAt(tot, c, k - 1, d, x);
      assert c[..k] == c[..k - 1] + [c[k - 1]];
    }
  }

  /** The state after a change of the first k pbufs of a chain: their totals shift by d,
      the last of them links to t and has length l, and `gone` are deallocated. */
  lemma {:induction false} ShiftRight(next: Links, len: Sizes, tot: Sizes, h: Id, c: seq<Id>, k: nat,
                                      t: Id, l: nat, d: int, x: Id)
    requires Path(next, h, c) && 0 < k <= |c| && Totals(next, len, tot) && NULL !in tot
    requires (forall y <- c :: y in tot && 0 <= Word(tot[y] + d)) && forall y <- c[..k] :: 0 <= tot[y] + d < HALF_WORD
    requires t !in c[..k] && tot[c[k - 1]] + d == l + Tail(tot, t)
    requires x in next
    ensures var right := Right(next[c[k - 1] := t], len[c[k - 1] := l], Shifted(tot, c, k, d), x);
            right <==> (d == 0 || x in c[..k] || next[x] !in c[..k])
  {
    var tot' := Shifted(tot, c, k, d);
    assert Right(next, len, tot, x);
    ShiftedAt(tot, c, k, d, x);
    ShiftedAt(tot, c, k, d, next[x]);
    ShiftedAt(tot, c, k, d, t);
    if x in c[..k] {
      var i :| 0 <= i < k && c[i] == x;
      PathFrom(next, h, c, i);
      if i < k - 1 {
        PathDistinct(next, h, c, i, k - 1);
        assert c[i + 1] == c[..k][i + 1];
      }
    } else {
      assert c[k - 1] == c[..k][k - 1];
    }
  }

  lemma {:induction false} TotalsIff(next: Links, len: Sizes, tot: Sizes, h: Id, c: seq<Id>, k: nat,
                                     t: Id, l: nat, d: int, gone: set<Id>)
    requires Path(next, h, c) && 0 < k <= |c| && Totals(next, len, tot) && NULL !in tot
    requires (forall y <- c :: y in tot && 0 <= Word(tot[y] + d)) && forall y <- c[..k] :: 0 <= tot[y] + d < HALF_WORD
    requires t !in c[..k] && tot[c[k - 1]] + d == l + Tail(tot, t)
    requires forall x <- gone :: x !in c[..k] && x in next && next[x] !in c[..k]
    ensures Totals(next[c[k - 1] := t] - gone, len[c[k - 1] := l], Shifted(tot, c, k, d))
       <==> d == 0 || Private(next, c, k)
  {
    var next', len', tot' := next[c[k - 1] := t], len[c[k - 1] := l], Shifted(tot, c, k, d);
    PathFrom(next, h, c, k - 1);
    forall x <- next
      ensures Right(next', len', tot', x) <==> (d == 0 || x in c[..k] || next[x] !in c[..k])
    {
      ShiftRight(next, len, tot, h, c, k, t, l, d, x);
    }
    forall x <- next' - gone ensures Right(next' - gone, len', tot', x) <==> Right(next', len', tot', x) {
    }
    if d != 0 && !Private(next, c, k) {
      var x :| x in next && x !in c[..k] && next[x] in c[..k];
      assert x in next' - gone;
    }
  }

  // ---- pbuf_cat --------------------------------------------------------------------------------------

  /** If the sum of the totals does not fit, some total along the chain is wrong. */
  lemma {:induction false} CatOverflows(next: Links, len: Sizes, tot: Sizes, h: Id, c: seq<Id>, t: Id, i: nat) returns (x: Id)
    requires Path(next, h, c) && Totals(next, len, tot) && NULL !in tot && t in tot && t !in c && tot[t] < HALF_WORD
    requires (forall y <- c :: y in tot && tot[y] < HALF_WORD) && i < |c| && tot[c[i]] + tot[t] >= HALF_WORD
    ensures x in c && x in next
    ensures !Right(next[c[|c| - 1] := t], len, Shifted(tot, c, |c|, tot[t]), x)
    decreases |c| - i
  {
    var tot' := Shifted(tot, c, |c|, tot[t]);
    assert c[..|c|] == c;
    PathFrom(next, h, c, i);
    assert Right(next, len, tot, c[i]);
    ShiftedAt(tot, c, |c|, tot[t], c[i]);
    ShiftedAt(tot, c, |c|, tot[t], t);
    x := c[i];
    if i + 1 < |c| {
      PathDistinct(next, h, c, i, |c| - 1);
      ShiftedAt(tot, c, |c|, tot[t], c[i + 1]);
      if tot[c[i + 1]] + tot[t] >= HALF_WORD {
        x := CatOverflows(next, len, tot, h, c, t, i + 1);
      }
    }
  }

  lemma {:induction false} TotalsFall(next: Links, len: Sizes, tot: Sizes, h: Id, c: seq<Id>, i: nat)
    requires Path(next, h, c) && Totals(next, len, tot) && i < |c|
    ensures c[0] in tot && c[i] in tot && tot[c[i]] <= tot[c[0]]
    decreases i
  {
    PathFrom(next, h, c, i);
    assert Right(next, len, tot, c[i]);
    if i > 0 {
      TotalsFall(next, len, tot, h, c, i - 1);
      PathFrom(next, h, c, i - 1);
      assert Right(next, len, tot, c[i - 1]);
    }
  }

  /** After `pbuf_cat` all totals are right if and only if the tail is empty, or
      nothing else links into the first chain and the 16-bit sum fits. */
  lemma {:induction false} CatTotals(next: Links, len: Sizes, tot: Sizes, h: Id, c: seq<Id>, t: Id)
    requires Path(next, h, c) && c != [] && Totals(next, len, tot) && NULL !in tot && t in tot && t !in c
    requires tot[t] < HALF_WORD && forall y <- c :: y in tot && tot[y] < HALF_WORD
    requires forall y <- c :: y in tot && 0 <= Word(tot[y] + tot[t])
    ensures Totals(next[c[|c| - 1] := t], len, Shifted(tot, c, |c|, tot[t]))
       <==> tot[t] == 0 || (Private(next, c, |c|) && tot[h] + tot[t] < HALF_WORD)
  {
    var last := c[|c| - 1];
    assert c[..|c|] == c && next[last := t] - {} == next[last := t];
    PathFrom(next, h, c, |c| - 1);
    assert Right(next, len, tot, last) && len[last := len[last]] == len;
    if tot[h] + tot[t] >= HALF_WORD {
      var x := CatOverflows(next, len, tot, h, c, t, 0);
      assert x in next[last := t];
    } else {
      forall y <- c ensures tot[y] + tot[t] < HALF_WORD {
        var i :| 0 <= i < |c| && c[i] == y;
        TotalsFall(next, len, tot, h, c, i);
      }
      TotalsIff(next, len, tot, h, c, |c|, t, len[last], tot[t], {});
    }
  }

  // ---- pbuf_dechain and pbuf_realloc -------------------------------------------------------------------

  /** The pbufs behind the k-th of a chain do not link to the first k. */
  lemma {:induction false} BehindApart(next: Links, h: Id, c: seq<Id>, k: nat, n: nat)
    requires Path(next, h, c) && k <= n <= |c|
    ensures forall x <- Elems(c[k..n]) :: x !in c[..k] && x in next && next[x] !in c[..k]
  {
    forall x <- Elems(c[k..n]) ensures x !in c[..k] && x in next && next[x] !in c[..k] {
      var i :| k <= i < n && c[i] == x;
      PathFrom(next, h, c, i);
      forall j | 0 <= j < k ensures c[j] != x && c[j] != next[x] {
        PathDistinct(next, h, c, j, i);
        PathFrom(next, h, c, j);
        if i + 1 < |c| {
          PathDistinct(next, h, c, j, i + 1);
        }
      }
    }
  }

  /** The totals are right once the first k pbufs of a chain were cut off and shifted by d,
      the last of them now of length l, and the rest was released. */
  ghost predicate CutRight(s: State, len: Sizes, tot: Sizes, c: seq<Id>, k: nat, l: nat, d: int)
    requires Inv(s) && 0 < k <= |c| && c[k - 1] in s.next && forall y <- c :: y in tot && 0 <= Word(tot[y] + d)
  {
    Totals(Dechained(s, c[k - 1]).next, len[c[k - 1] := l], Shifted(tot, c, k, d))
  }

  /** After the first k pbufs of a chain were cut off, shifted by d, and the rest
      released: all totals are right if and only if nothing changed or nothing else
      links into those k. */
  lemma {:induction false} CutTotals(s: State, len: Sizes, tot: Sizes, h: Id, c: seq<Id>, k: nat, l: nat, d: int)
    requires Inv(s) && Path(s.next, h, c) && 0 < k <= |c| && Totals(s.next, len, tot) && NULL !in tot
    requires (forall y <- c :: y in tot && 0 <= Word(tot[y] + d)) && forall y <- c[..k] :: 0 <= tot[y] + d < HALF_WORD
    requires tot[c[k - 1]] + d == l && c[k - 1] in s.next
    ensures CutRight(s, len, tot, c, k, l, d) <==> d == 0 || Private(s.next, c, k)
  {
    var n := DechainedNext(s, h, c, k);
    BehindApart(s.next, h, c, k, n);
    BehindPath(s.next, h, c, k);
    TotalsIff(s.next, len, tot, h, c, k, NULL, l, d, Elems(c[k..n]));
  }

  /** What is left once the link behind the k-th pbuf of a chain was cut: everything but
      a run of pbufs behind it. */
  lemma {:induction false} DechainedNext(s: State, h: Id, c: seq<Id>, k: nat) returns (n: nat)
    requires Inv(s) && Path(s.next, h, c) && 0 < k <= |c| && c[k - 1] in s.next
    ensures k <= n <= |c| && Dechained(s, c[k - 1]).next == s.next[c[k - 1] := NULL] - Elems(c[k..n])
  {
    var p, rest := c[k - 1], c[k..];
    BehindPath(s.next, h, c, k);
    PathMembers(s.next, h, c);
    UnlinkedInv(s, p);
    n := k + Singles(s.ref, rest);
    FreedExactly(Unlinked(s, p), s.next[p], rest);
    Slice(c, k, n);
  }

  lemma {:induction false} Slice(c: seq<Id>, k: nat, n: nat)
    requires k <= n <= |c|
    ensures c[k..][..n - k] == c[k..n]
  {
  }

  /** The rest of a chain does not notice that the link to it is gone. */
  lemma {:induction false} BehindPath(next: Links, h: Id, c: seq<Id>, k: nat)
    requires Path(next, h, c) && 0 < k <= |c|
    ensures c[k - 1] in next && Path(next[c[k - 1] := NULL], next[c[k - 1]], c[k..]) && NULL !in c
  {
    PathFrom(next, h, c, k - 1);
    PathMembers(next, h, c);
    forall x <- c[k..] ensures x != c[k - 1] {
      var i :| k <= i < |c| && c[i] == x;
      PathDistinct(next, h, c, k - 1, i);
    }
    if k < |c| {
      PathFrom(next, h, c, k);
    }
    PathKept(next, next[c[k - 1] := NULL], next[c[k - 1]], c[k..]);
  }

  // ---- pbuf_free_header ------------------------------------------------------------------------------

  /** After a whole pbuf was dropped from the head: right if and only if it is gone,
      or nothing was behind it. */
  lemma {:induction false} DropTotals(s: State, len: Sizes, tot: Sizes, f: Id)
    requires Inv(s) && f in s.held && Totals(s.next, len, tot) && NULL !in tot
    ensures Totals(HeadDropped(s, f).next, len, tot) <==> s.ref[f] == 1 || Tail(tot, s.next[f]) == 0
  {
    HeadDroppedNext(s, f);
    DropRight(s.next, HeadDropped(s, f).next, len, tot, f, s.ref[f] == 1);
  }

  lemma {:induction false} DropRight(next: Links, after: Links, len: Sizes, tot: Sizes, f: Id, gone: bool)
    requires Totals(next, len, tot) && NULL !in tot && f in next
    requires after == if gone then next - {f} else next[f := NULL]
    ensures Totals(after, len, tot) <==> gone || Tail(tot, next[f]) == 0
  {
    assert Right(next, len, tot, f);
    forall x <- after | x != f ensures Right(after, len, tot, x) {
      assert Right(next, len, tot, x);
    }
    assert !gone ==> f in after;
  }

  lemma {:induction false} HeadDroppedNext(s: State, f: Id)
    requires Inv(s) && f in s.held
    ensures HeadDropped(s, f).next == if s.ref[f] == 1 then s.next - {f} else s.next[f := NULL]
  {
    UnlinkedInv(s, f);
    assert [f][1..] == [] && Path(Unlinked(s, f).next, f, [f]);
    FreedExactly(Unlinked(s, f), f, [f]);
    WithoutOne(s.next, f);
  }

  lemma {:induction false} WithoutOne(next: Links, f: Id)
    ensures NextWithout(next[f := NULL], [f], 1) == next - {f}
    ensures NextWithout(next[f := NULL], [f], 0) == next[f := NULL]
  {
    var one := [f];
    assert one[..1] == one && one[0] == f && one[..0] == [];
    assert Elems(one[..1]) == {f} && Elems(one[..0]) == {};
    assert next[f := NULL] - {} == next[f := NULL];
  }

  /** After some bytes were removed from the head of a pbuf: right if and only if
      nothing links to it. */
  lemma {:induction false} RemoveTotals(next: Links, len: Sizes, tot: Sizes, p: Id, n: nat)
    requires Totals(next, len, tot) && p in next && NULL !in tot && next[p] != p
    requires p in len && p in tot && 0 < n <= len[p] <= tot[p] < HALF_WORD
    ensures Totals(next, len[p := len[p] - n], tot[p := tot[p] - n]) <==> In(next, p) == {}
  {
    var len', tot' := len[p := len[p] - n], tot[p := tot[p] - n];
    assert Right(next, len, tot, p);
    forall x <- next ensures Right(next, len', tot', x) <==> x !in In(next, p) {
      assert Right(next, len, tot, x);
    }
    if In(next, p) != {} {
      var x :| x in In(next, p);
      assert x in next;
    }
  }

  // ---- pbuf_alloc ---------------------------------------------------------------------------------

  /** All totals are right but that of the last new pbuf, which still counts `rem` bytes to come. */
  ghost predicate Almost(next: Links, len: Sizes, tot: Sizes, last: Id, rem: nat) {
    && last in next && next[last] == NULL && last in len && last in tot && tot[last] == len[last] + rem && NULL !in tot
    && forall x <- next {:trigger Right(next, len, tot, x)} :: x != last ==> Right(next, len, tot, x)
  }

  lemma {:induction false} AlmostStarts(next: Links, len: Sizes, tot: Sizes, q: Id, length: nat, n: nat)
    requires Totals(next, len, tot) && Closed(next) && NULL !in tot && q !in next && q != NULL && n <= length
    ensures Almost(next[q := NULL], len[q := n], tot[q := length], q, length - n)
  {
    forall x <- next ensures Right(next[q := NULL], len[q := n], tot[q := length], x) {
      assert Right(next, len, tot, x);
    }
  }

  lemma {:induction false} AlmostOn(next: Links, len: Sizes, tot: Sizes, last: Id, rem: nat, q: Id, n: nat)
    requires Almost(next, len, tot, last, rem) && Closed(next) && q !in next && q != NULL && n <= rem
    ensures Almost(next[q := NULL][last := q], len[q := n], tot[q := rem], q, rem - n)
  {
    var next', len', tot' := next[q := NULL][last := q], len[q := n], tot[q := rem];
    forall x <- next' | x != q ensures Right(next', len', tot', x) {
      if x != last {
        assert Right(next, len, tot, x);
      }
    }
  }

  lemma {:induction false} AlmostDone(next: Links, len: Sizes, tot: Sizes, last: Id)
    requires Almost(next, len, tot, last, 0)
    ensures Totals(next, len, tot)
  {
    forall x <- next ensures Right(next, len, tot, x) {
    }
  }
}
