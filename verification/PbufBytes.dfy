/** The contents of packet buffers (common/lwip/core/pbuf.c): a chain stands for the
    bytes of its pbufs one after the other, however they are cut into pbufs. */
module PbufBytes {

  import opened Machine
  import opened PbufRefs
  import opened PbufTotals
  import opened Pbuf

  /** The payload of every pbuf. */
  type Payloads = map<Id, seq<byte>>

  ghost predicate Covers(data: Payloads, c: seq<Id>) {
    forall x <- c :: x in data
  }

  /** What a chain stands for. */
  function Bytes(data: Payloads, c: seq<Id>): seq<byte>
    requires Covers(data, c)
  {
    if c == [] then [] else data[c[0]] + Bytes(data, c[1..])
  }

  /** s with `part` written at an offset. */
  function Put(s: seq<byte>, offset: nat, part: seq<byte>): seq<byte>
    requires offset + |part| <= |s|
  {
    s[..offset] + part + s[offset + |part|..]
  }

  lemma {:induction false} BytesConcat(data: Payloads, a: seq<Id>, b: seq<Id>)
    requires Covers(data, a) && Covers(data, b)
    ensures Covers(data, a + b) && Bytes(data, a + b) == Bytes(data, a) + Bytes(data, b)
  {
    if a == [] {
      assert a + b == b;
    } else {
      assert (a + b)[1..] == a[1..] + b;
      BytesConcat(data, a[1..], b);
    }
  }

  lemma {:induction false} BytesKept(data: Payloads, data': Payloads, c: seq<Id>)
    requires Covers(data, c) && forall x <- c :: x in data' && data'[x] == data[x]
    ensures Bytes(data', c) == Bytes(data, c)
  {
    if c != [] {
      BytesKept(data, data', c[1..]);
    }
  }

  /** The bytes in front of pbuf i, in it, and behind it. */
  lemma {:induction false} BytesAt(data: Payloads, c: seq<Id>, i: nat)
    requires Covers(data, c) && i < |c|
    ensures Bytes(data, c) == Bytes(data, c[..i]) + (data[c[i]] + Bytes(data, c[i + 1..]))
    ensures Bytes(data, c[..i + 1]) == Bytes(data, c[..i]) + data[c[i]]
    ensures Bytes(data, c[i..]) == data[c[i]] + Bytes(data, c[i + 1..])
  {
    assert c == c[..i] + c[i..] && c[i..][1..] == c[i + 1..];
    BytesConcat(data, c[..i], c[i..]);
    assert c[..i + 1] == c[..i] + [c[i]] && [c[i]][1..] == [];
    BytesConcat(data, c[..i], [c[i]]);
    assert Bytes(data, [c[i]]) == data[c[i]] + [];
  }

  /** Writing into one pbuf of a chain writes into its bytes, at the place of that pbuf. */
  lemma {:induction false} BytesPut(data: Payloads, c: seq<Id>, i: nat, offset: nat, part: seq<byte>)
    requires Covers(data, c) && i < |c| && offset + |part| <= |data[c[i]]|
    requires forall j :: 0 <= j < |c| && j != i ==> c[j] != c[i]
    ensures var before := |Bytes(data, c[..i])|;
            && before + offset + |part| <= |Bytes(data, c)|
            && Bytes(data[c[i] := Put(data[c[i]], offset, part)], c) == Put(Bytes(data, c), before + offset, part)
  {
    var data' := data[c[i] := Put(data[c[i]], offset, part)];
    BytesAt(data, c, i);
    BytesAt(data', c, i);
    BytesKept(data, data', c[..i]);
    BytesKept(data, data', c[i + 1..]);
    PutMiddle(Bytes(data, c[..i]), data[c[i]], Bytes(data, c[i + 1..]), offset, part);
  }

  lemma {:induction false} PutMiddle(a: seq<byte>, b: seq<byte>, c: seq<byte>, offset: nat, part: seq<byte>)
    requires offset + |part| <= |b|
    ensures a + (Put(b, offset, part) + c) == Put(a + (b + c), |a| + offset, part)
  {
  }

  /** Chains of distinct pbufs. */
  lemma {:induction false} PathIndices(next: map<Id, Id>, x: Id, c: seq<Id>, i: nat)
    requires Path(next, x, c) && i < |c|
    ensures forall j :: 0 <= j < |c| && j != i ==> c[j] != c[i]
  {
    forall j | 0 <= j < |c| && j != i ensures c[j] != c[i] {
      if j < i {
        PathDistinct(next, x, c, j, i);
      } else {
        PathDistinct(next, x, c, i, j);
      }
    }
  }

  /** Every total along the chain counts the bytes from there on. */
  ghost predicate Measures(tot: Sizes, data: Payloads, c: seq<Id>)
    requires Covers(data, c)
  {
    c == [] || (c[0] in tot && tot[c[0]] == |Bytes(data, c)| && Measures(tot, data, c[1..]))
  }

  /** The invariant of the totals says just that. */
  lemma {:induction false} TotalsMeasure(next: Links, len: Sizes, tot: Sizes, data: Payloads, h: Id, c: seq<Id>)
    requires Path(next, h, c) && Totals(next, len, tot) && NULL !in tot
    requires Covers(data, c) && forall x <- c :: x in len && len[x] == |data[x]|
    ensures Measures(tot, data, c)
    decreases |c|
  {
    if c != [] {
      assert Right(next, len, tot, h);
      TotalsMeasure(next, len, tot, data, next[h], c[1..]);
    }
  }

  function At(c: seq<Id>, i: nat): Id {
    if i < |c| then c[i] else NULL
  }

  /** The i-th pbuf of a chain, and the next. */
  lemma {:induction false} PathAt(next: Links, h: Id, c: seq<Id>, i: nat)
    requires Path(next, h, c) && i <= |c|
    ensures At(c, i) == NULL <==> i == |c|
    ensures i < |c| ==> c[i] in next && next[c[i]] == At(c, i + 1)
    ensures At(c, 0) == h
  {
    if i < |c| {
      PathFrom(next, h, c, i);
    }
  }

  /** What one step along a chain passes. */
  lemma {:induction false} Onwards(next: Links, data: Payloads, h: Id, c: seq<Id>, i: nat)
    requires Path(next, h, c) && Covers(data, c) && i < |c|
    ensures c[i] in next && next[c[i]] == At(c, i + 1) && (At(c, i + 1) == NULL <==> i + 1 == |c|)
    ensures Bytes(data, c) == Bytes(data, c[..i]) + (data[c[i]] + Bytes(data, c[i + 1..]))
    ensures |Bytes(data, c[..i + 1])| == |Bytes(data, c[..i])| + |data[c[i]]|
  {
    BytesAt(data, c, i);
    PathAt(next, h, c, i);
    PathAt(next, h, c, i + 1);
  }

  lemma {:induction false} WholeChain(data: Payloads, c: seq<Id>)
    requires Covers(data, c)
    ensures c[..|c|] == c && c[0..] == c && Bytes(data, c[..0]) == [] && Bytes(data, c[|c|..]) == []
  {
  }

  // ---- Writing -----------------------------------------------------------------------------------

  /** `err_t`. */
  datatype Err = Ok | Arg | Mem | Val

  /** Only payload bytes of the pbufs c are written. */
  ghost predicate Writes(data: Payloads, data': Payloads, c: seq<Id>) {
    data'.Keys == data.Keys && forall x <- data {:trigger Intact(data, data', c, x)} :: Intact(data, data', c, x)
  }

  ghost predicate Intact(data: Payloads, data': Payloads, c: seq<Id>, x: Id) {
    x in data && x in data' && |data'[x]| == |data[x]| && (x !in c ==> data'[x] == data[x])
  }

  lemma {:induction false} WritesSize(data: Payloads, data': Payloads, c: seq<Id>, d: seq<Id>)
    requires Writes(data, data', c) && Covers(data, d)
    ensures Covers(data', d) && |Bytes(data', d)| == |Bytes(data, d)|
  {
    if d != [] {
      assert Intact(data, data', c, d[0]);
      WritesSize(data, data', c, d[1..]);
    }
  }

  lemma {:induction false} WritesMeasure(tot: Sizes, data: Payloads, data': Payloads, c: seq<Id>, d: seq<Id>)
    requires Writes(data, data', c) && Covers(data, d) && Measures(tot, data, d)
    ensures Covers(data', d) && Measures(tot, data', d)
  {
    WritesSize(data, data', c, d);
    if d != [] {
      WritesMeasure(tot, data, data', c, d[1..]);
    }
  }

  lemma {:induction false} WritesMore(data: Payloads, now: Payloads, c: seq<Id>, x: Id, b: seq<byte>)
    requires Writes(data, now, c) && x in c && x in now && |b| == |now[x]|
    ensures Writes(data, now[x := b], c)
  {
    forall y <- data ensures Intact(data, now[x := b], c, y) {
      assert Intact(data, now, c, y);
    }
  }

  lemma {:induction false} WritesNothing(data: Payloads, c: seq<Id>)
    ensures Writes(data, data, c)
  {
    forall y <- data ensures Intact(data, data, c, y) {
    }
  }

  ghost predicate Separate(a: seq<Id>, b: seq<Id>) {
    forall x <- a :: x !in b
  }

  /** What lies apart from the pbufs written, and a wider frame. */
  lemma {:induction false} WritesApart(data: Payloads, data': Payloads, c: seq<Id>, d: seq<Id>)
    requires Writes(data, data', c) && Covers(data, d) && Separate(d, c)
    ensures Covers(data', d) && Bytes(data', d) == Bytes(data, d)
  {
    forall x <- d ensures x in data' && data'[x] == data[x] {
      assert Intact(data, data', c, x);
    }
    BytesKept(data, data', d);
  }

  lemma {:induction false} WritesBoth(a: Payloads, b: Payloads, c: Payloads, inner: seq<Id>, outer: seq<Id>)
    requires Writes(a, b, outer) && Writes(b, c, inner) && forall x <- inner :: x in outer
    ensures Writes(a, c, outer)
  {
    forall x <- a ensures Intact(a, c, outer, x) {
      assert Intact(a, b, outer, x) && Intact(b, c, inner, x);
    }
  }

  lemma {:induction false} MeasuresAt(tot: Sizes, data: Payloads, c: seq<Id>, i: nat)
    requires Covers(data, c) && Measures(tot, data, c) && i < |c|
    ensures c[i] in tot && tot[c[i]] == |Bytes(data, c[i..])| && Measures(tot, data, c[i + 1..])
  {
    if i > 0 {
      MeasuresAt(tot, data, c[1..], i - 1);
      assert c[1..][i - 1..] == c[i..] && c[1..][i..] == c[i + 1..];
    } else {
      assert c[0..] == c;
    }
  }

  lemma {:induction false} PutTwice(s: seq<byte>, src: seq<byte>, n: nat, m: nat)
    requires n + m <= |src| <= |s|
    ensures Put(Put(s, 0, src[..n]), n, src[n..n + m]) == Put(s, 0, src[..n + m])
  {
  }

  // ---- Comparing ---------------------------------------------------------------------------------

  /** The bytes `part` stand at place i. */
  ghost predicate Occurs(all: seq<byte>, part: seq<byte>, i: nat) {
    i + |part| <= |all| && Agree(all, part, i, |part|)
  }

  ghost predicate Agree(all: seq<byte>, part: seq<byte>, i: nat, k: nat)
    requires i + |part| <= |all| && k <= |part|
  {
    forall j :: 0 <= j < k ==> all[i + j] == part[j]
  }

  /** The answer of a comparison: 0 for equal bytes, else one more than the first difference. */
  ghost predicate Tells(all: seq<byte>, part: seq<byte>, i: nat, r: nat)
    requires i + |part| <= |all|
  {
    if r == 0 then Agree(all, part, i, |part|)
    else r <= |part| && Agree(all, part, i, r - 1) && all[i + r - 1] != part[r - 1]
  }

  lemma {:induction false} TellsBehind(all: seq<byte>, pre: seq<byte>, rest: seq<byte>, part: seq<byte>, offset: nat, i: nat,
                                       r: nat)
    requires all == pre + rest && offset == |pre| + i && offset + |part| <= |all| && Tells(rest, part, i, r)
    ensures Tells(all, part, offset, r)
  {
    var k := if r == 0 then |part| else r - 1;
    forall j | 0 <= j < k ensures all[offset + j] == part[j] {
      assert rest[i + j] == part[j];
    }
  }

  /** The chain from pbuf i on stands for the bytes behind those in front of it. */
  lemma {:induction false} RestFrom(next: Links, data: Payloads, h: Id, c: seq<Id>, i: nat)
    requires Path(next, h, c) && Covers(data, c) && i <= |c|
    ensures Path(next, At(c, i), c[i..]) && Covers(data, c[i..])
    ensures Bytes(data, c) == Bytes(data, c[..i]) + Bytes(data, c[i..])
  {
    if i < |c| {
      PathFrom(next, h, c, i);
    }
    assert c == c[..i] + c[i..];
    BytesConcat(data, c[..i], c[i..]);
  }

  /** The bytes were written to an offset of the chain, and nothing else. */
  ghost predicate Placed(before: Payloads, now: Payloads, c: seq<Id>, offset: nat, src: seq<byte>) {
    && Covers(before, c) && Covers(now, c) && Writes(before, now, c) && offset + |src| <= |Bytes(before, c)|
    && Bytes(now, c) == Put(Bytes(before, c), offset, src)
  }

  /** The part that `pbuf_take_at` writes into the pbuf at the offset. */
  lemma {:induction false} FirstTaken(data: Payloads, next: Links, h: Id, c: seq<Id>, i: nat, left: nat, part: seq<byte>)
    requires Path(next, h, c) && Covers(data, c) && i < |c| && left + |part| <= |data[c[i]]|
    ensures var now := data[c[i] := Put(data[c[i]], left, part)];
            && Placed(data, now, c, |Bytes(data, c[..i])| + left, part)
            && Covers(now, c) && Bytes(now, c[i + 1..]) == Bytes(data, c[i + 1..])
  {
    var now := data[c[i] := Put(data[c[i]], left, part)];
    PathIndices(next, h, c, i);
    BytesPut(data, c, i, left, part);
    WritesNothing(data, c);
    WritesMore(data, data, c, c[i], now[c[i]]);
    BytesKept(data, now, c[i + 1..]);
  }

  lemma {:induction false} PathFromNext(next: Links, h: Id, c: seq<Id>, i: nat)
    requires Path(next, h, c) && i < |c|
    ensures c[i] in next && Path(next, next[c[i]], c[i + 1..]) && (next[c[i]] == NULL <==> i + 1 == |c|)
  {
    PathFrom(next, h, c, i);
    assert c[i..][1..] == c[i + 1..];
  }

  /** The rest goes to the front of what follows, and both together are the whole. */
  lemma {:induction false} RestTaken(data: Payloads, now: Payloads, after: Payloads, next: Links, h: Id, c: seq<Id>, i: nat,
                                     left: nat, src: seq<byte>, n: nat)
    requires Path(next, h, c) && Covers(data, c) && i < |c| && n < |src| && left + n == |data[c[i]]|
    requires now == data[c[i] := Put(data[c[i]], left, src[..n])] && Placed(now, after, c[i + 1..], 0, src[n..])
    ensures Placed(data, after, c, |Bytes(data, c[..i])| + left, src)
  {
    FirstTaken(data, next, h, c, i, left, src[..n]);
    WritesBoth(data, now, after, c[i + 1..], c);
    FrontApart(next, h, c, i);
    WritesApart(now, after, c[i + 1..], c[..i + 1]);
    BytesAt(data, c, i);
    BytesAt(now, c, i);
    WritesSize(now, after, c[i + 1..], c);
    FrontBack(after, c, i);
    PathIndices(next, h, c, i);
    BytesKept(data, now, c[..i]);
    PutAcross(Bytes(data, c[..i]), data[c[i]], Bytes(data, c[i + 1..]), left, src, n);
  }

  lemma {:induction false} FrontApart(next: Links, h: Id, c: seq<Id>, i: nat)
    requires Path(next, h, c) && i < |c|
    ensures Separate(c[..i + 1], c[i + 1..])
  {
    forall j | 0 <= j <= i ensures c[j] !in c[i + 1..] {
      PathIndices(next, h, c, j);
    }
  }

  lemma {:induction false} FrontBack(data: Payloads, c: seq<Id>, i: nat)
    requires Covers(data, c) && i < |c|
    ensures Bytes(data, c) == Bytes(data, c[..i + 1]) + Bytes(data, c[i + 1..])
  {
    assert c == c[..i + 1] + c[i + 1..];
    BytesConcat(data, c[..i + 1], c[i + 1..]);
  }

  lemma {:induction false} PutAcross(a: seq<byte>, b: seq<byte>, c: seq<byte>, left: nat, src: seq<byte>, n: nat)
    requires n <= |src| && left + n == |b| && |src| - n <= |c|
    ensures (a + Put(b, left, src[..n])) + Put(c, 0, src[n..]) == Put(a + (b + c), |a| + left, src)
  {
  }

  /** So many bytes were written to the front of the chain, and nothing else. */
  ghost predicate Filled(before: Payloads, now: Payloads, c: seq<Id>, src: seq<byte>, n: nat) {
    && Covers(before, c) && Covers(now, c) && Writes(before, now, c) && n <= |src| <= |Bytes(before, c)|
    && Bytes(now, c) == Put(Bytes(before, c), 0, src[..n])
  }

  lemma {:induction false} FillStarts(data: Payloads, c: seq<Id>, src: seq<byte>)
    requires Covers(data, c) && |src| <= |Bytes(data, c)|
    ensures Filled(data, data, c, src, 0) && Bytes(data, c[..0]) == []
  {
    WritesNothing(data, c);
  }

  lemma {:induction false} NotAtEnd(before: Payloads, now: Payloads, c: seq<Id>, src: seq<byte>, i: nat, n: nat)
    requires Filled(before, now, c, src, n) && i <= |c| && |Bytes(now, c[..i])| == n < |src|
    ensures i < |c|
  {
    WritesSize(before, now, c, c);
    WholeChain(now, c);
  }

  /** Pbuf i of the chain takes the next m bytes, from offset `at` in it on. */
  lemma {:induction false} FillRound(before: Payloads, now: Payloads, next: Links, h: Id, c: seq<Id>, i: nat, at: nat,
                                     src: seq<byte>, n: nat, m: nat)
    requires Path(next, h, c) && i < |c| && Filled(before, now, c, src, n)
    requires n + m <= |src| && |Bytes(now, c[..i])| + at == n && at + m <= |now[c[i]]|
    ensures var after := now[c[i] := Put(now[c[i]], at, src[n..n + m])];
            && Filled(before, after, c, src, n + m) && |Bytes(after, c[..i + 1])| == n - at + |now[c[i]]|
  {
    var after := now[c[i] := Put(now[c[i]], at, src[n..n + m])];
    PathIndices(next, h, c, i);
    BytesPut(now, c, i, at, src[n..n + m]);
    PutTwice(Bytes(before, c), src, n, m);
    WritesMore(before, now, c, c[i], after[c[i]]);
    BytesAt(now, c, i);
    WritesNothing(now, c);
    WritesMore(now, now, c, c[i], after[c[i]]);
    WritesSize(now, after, c, c[..i + 1]);
  }

  /** The part of one pbuf that `pbuf_copy_partial` copies: from `off` on, at most `len` bytes. */
  method CopyRound(a: array<byte>, copied: nat, payload: seq<byte>, off: nat, len: nat, ghost before: seq<byte>,
                   ghost all: seq<byte>, ghost offset: nat, ghost pre: seq<byte>, ghost post: seq<byte>) returns (m: nat)
    requires Copied(a[..], before, all, offset, copied) && copied + len <= a.Length && off <= |payload|
    requires all == pre + (payload + post) && |pre| + off == offset + copied
    modifies a
    ensures m == if |payload| - off > len then len else |payload| - off
    ensures Copied(a[..], before, all, offset, copied + m)
  {
    m := |payload| - off;
    if m > len {
      m := len;
    }
    ghost var now := a[..];
    CopyIn(a, copied, payload, off, m);
    Middle(pre, payload, post, off, m);
    CopiedMore(before, now, a[..], all, offset, copied, payload[off..off + m]);
  }

  /** One round of `pbuf_copy_partial`: a pbuf in front of the offset is passed, or copied from. */
  method CopyOrSkip(a: array<byte>, copied: nat, payload: seq<byte>, off: nat, len: nat, ghost before: seq<byte>,
                    ghost all: seq<byte>, ghost offset: nat, ghost pre: seq<byte>, ghost post: seq<byte>)
    returns (copied': nat, len': nat, off': nat)
    requires Copied(a[..], before, all, offset, copied) && copied + len <= a.Length && (off > 0 ==> copied == 0)
    requires all == pre + (payload + post) && |pre| + off == offset + copied
    modifies a
    ensures Copied(a[..], before, all, offset, copied') && copied' + len' == copied + len && (off' > 0 ==> copied' == 0)
    ensures len' != 0 ==> |pre| + |payload| + off' == offset + copied'
  {
    if off != 0 && off >= |payload| {
      return copied, len, off - |payload|;
    }
    var m := CopyRound(a, copied, payload, off, len, before, all, offset, pre, post);
    return copied + m, len - m, 0;
  }

  lemma {:induction false} Middle(pre: seq<byte>, b: seq<byte>, post: seq<byte>, off: nat, m: nat)
    requires off + m <= |b|
    ensures (pre + (b + post))[|pre| + off..|pre| + off + m] == b[off..off + m]
  {
  }

  /** So many bytes from an offset on are in the buffer, and the rest of it is as before. */
  ghost predicate Copied(now: seq<byte>, before: seq<byte>, all: seq<byte>, offset: nat, copied: nat) {
    && |now| == |before| && copied <= |now| && now[copied..] == before[copied..]
    && (copied > 0 ==> offset + copied <= |all| && now[..copied] == all[offset..offset + copied])
  }

  lemma {:induction false} CopiedMore(before: seq<byte>, now: seq<byte>, after: seq<byte>, all: seq<byte>, offset: nat,
                                      copied: nat, part: seq<byte>)
    requires Copied(now, before, all, offset, copied) && |after| == |now| && copied + |part| <= |now|
    requires after[..copied] == now[..copied] && after[copied..copied + |part|] == part
    requires after[copied + |part|..] == now[copied + |part|..]
    requires part != [] ==> offset + copied + |part| <= |all| && part == all[offset + copied..offset + copied + |part|]
    ensures Copied(after, before, all, offset, copied + |part|)
  {
    var m := copied + |part|;
    assert after[m..] == now[copied..][|part|..] == before[copied..][|part|..] == before[m..];
    assert after[..m] == after[..copied] + part;
  }

  /** MEMCPY. */
  method CopyIn(a: array<byte>, at: nat, from: seq<byte>, offset: nat, n: nat)
    requires at + n <= a.Length && offset + n <= |from|
    modifies a
    ensures a[..at] == old(a[..at]) && a[at..at + n] == from[offset..offset + n] && a[at + n..] == old(a[at + n..])
  {
    forall k | 0 <= k < n {
      a[at + k] := from[offset + k];
    }
  }

  // ---- What the operations on chains do to the bytes ---------------------------------------------

  /** `pbuf_cat` concatenates. */
  lemma {:induction false} CatBytes(next: Links, data: Payloads, h: Id, c: seq<Id>, t: Id, d: seq<Id>)
    requires Path(next, h, c) && c != [] && Path(next, t, d) && c[|c| - 1] !in d && Covers(data, c) && Covers(data, d)
    ensures Path(next[c[|c| - 1] := t], h, c + d)
    ensures Covers(data, c + d) && Bytes(data, c + d) == Bytes(data, c) + Bytes(data, d)
  {
    PathMembers(next, t, d);
    PathKept(next, next[c[|c| - 1] := t], t, d);
    PathJoined(next, h, c, c[|c| - 1], t, d);
    BytesConcat(data, c, d);
  }

  /** The chain up to its new last pbuf. */
  lemma {:induction false} CutPath(next: Links, h: Id, c: seq<Id>, k: nat, gone: set<Id>)
    requires Path(next, h, c) && 0 < k <= |c| && forall x <- gone :: x !in c[..k]
    ensures Path(next[c[k - 1] := NULL] - gone, h, c[..k])
    decreases k
  {
    PathFrom(next, h, c, 0);
    assert c[..k][1..] == c[1..][..k - 1] && c[..k][0] == c[0];
    if k == 1 {
      assert c[..k][1..] == [];
    } else {
      PathDistinct(next, h, c, 0, k - 1);
      assert forall x <- c[1..][..k - 1] :: x in c[..k];
      CutPath(next, next[h], c[1..], k - 1, gone);
    }
  }

  lemma {:induction false} ShortBytes(data: Payloads, c: seq<Id>, keep: nat, rem: nat)
    requires Covers(data, c) && keep < |c| && rem <= |data[c[keep]]|
    requires forall j :: 0 <= j < |c| && j != keep ==> c[j] != c[keep]
    ensures var data' := data[c[keep] := data[c[keep]][..rem]];
            Covers(data', c[..keep + 1]) && Bytes(data', c[..keep + 1]) == Bytes(data, c[..keep]) + data[c[keep]][..rem]
  {
    var data' := data[c[keep] := data[c[keep]][..rem]];
    BytesKept(data, data', c[..keep]);
    BytesAt(data', c, keep);
  }

  lemma {:induction false} PrefixOf(a: seq<byte>, b: seq<byte>, c: seq<byte>, n: nat)
    requires n <= |b|
    ensures a + b[..n] == (a + (b + c))[..|a| + n]
  {
  }

  /** `pbuf_free_header` drops the first bytes. */
  lemma {:induction false} FreeHeaderBytes(len: Sizes, data: Payloads, c: seq<Id>, n: nat)
    requires Covers(data, c) && forall x <- c :: x in len && len[x] == |data[x]|
    ensures Drops(len, c, n).0 == |c| ==> |Bytes(data, c)| <= n
    ensures Drops(len, c, n).0 < |c| ==>
      var r := Drops(len, c, n);
      && n <= |Bytes(data, c)| && r.1 <= |Bytes(data, c[r.0..])|
      && Bytes(data, c)[n..] == Bytes(data, c[r.0..])[r.1..]
  {
    if n == 0 || c == [] || n < len[c[0]] {
      assert c[0..] == c;
    } else {
      FreeHeaderBytes(len, data, c[1..], n - len[c[0]]);
      var r := Drops(len, c[1..], n - len[c[0]]);
      assert c[1..][r.0..] == c[r.0 + 1..];
      if r.0 < |c[1..]| {
        DropBoth(data[c[0]], Bytes(data, c[1..]), n);
      }
    }
  }

  lemma {:induction false} DropBoth(a: seq<byte>, b: seq<byte>, n: nat)
    requires |a| <= n <= |a| + |b|
    ensures (a + b)[n..] == b[n - |a|..]
  {
  }

  /** What is left of the first pbuf that stays. */
  lemma {:induction false} HeadTrimmed(data: Payloads, c: seq<Id>, left: nat)
    requires Covers(data, c) && c != [] && c[0] !in c[1..] && left <= |data[c[0]]|
    ensures var data' := data[c[0] := data[c[0]][left..]];
            Covers(data', c) && Bytes(data', c) == Bytes(data, c)[left..]
  {
    BytesKept(data, data[c[0] := data[c[0]][left..]], c[1..]);
  }
}
