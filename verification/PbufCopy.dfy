/** `pbuf_copy` (common/lwip/core/pbuf.c): two chains, cut into pbufs differently, are walked
    side by side. The walk gives up on what it takes for a queue of packets: a pbuf behind
    which only empty pbufs follow. */
module PbufCopy {

  import opened Machine
  import opened PbufRefs
  import opened PbufTotals
  import opened Pbuf
  import opened PbufBytes
  import opened PbufPool

  /** The lengths of the pbufs of a chain. */
  type Lengths = seq<nat>

  function Total(l: Lengths): nat {
    if l == [] then 0 else l[0] + Total(l[1..])
  }

  lemma {:induction false} TotalConcat(a: Lengths, b: Lengths)
    ensures Total(a + b) == Total(a) + Total(b)
  {
    if a == [] {
      assert a + b == b;
    } else {
      assert (a + b)[1..] == a[1..] + b;
      TotalConcat(a[1..], b);
    }
  }

  lemma {:induction false} TotalAt(l: Lengths, i: nat)
    requires i < |l|
    ensures Total(l) == Total(l[..i]) + l[i] + Total(l[i + 1..])
    ensures Total(l[..i + 1]) == Total(l[..i]) + l[i]
    ensures Total(l[i..]) == l[i] + Total(l[i + 1..])
  {
    assert l == l[..i] + l[i..] && l[i..][1..] == l[i + 1..];
    TotalConcat(l[..i], l[i..]);
    assert l[..i + 1] == l[..i] + [l[i]] && [l[i]][1..] == [];
    TotalConcat(l[..i], [l[i]]);
  }

  /** Only empty pbufs follow pbuf i, and there are some. */
  predicate QueueLike(l: Lengths, i: nat) {
    i + 1 < |l| && Total(l[i + 1..]) == 0
  }

  /** The chain ends with an empty pbuf. */
  predicate Trails(l: Lengths) {
    |l| > 1 && l[|l| - 1] == 0
  }

  lemma {:induction false} QueueLikeTrails(l: Lengths, i: nat)
    requires QueueLike(l, i)
    ensures Trails(l)
  {
    var rest := l[i + 1..];
    assert rest == rest[..|rest| - 1] + [rest[|rest| - 1]];
    TotalAt(rest, |rest| - 1);
  }

  /** What the source must be like: it does not end with an empty pbuf, or it is one pbuf and an empty
      one, and the first pbuf of the destination holds the first one without ending the destination. */
  predicate SourceFits(lf: Lengths, lt: Lengths)
    requires lf != [] && lt != []
  {
    !Trails(lf) || (|lf| == 2 && (lf[0] < lt[0] || (lf[0] == lt[0] && |lt| > 1)))
  }

  /** Where the walk is: pbuf and offset in the source, and in the destination. */
  datatype Cursor = Cursor(i: nat, off: nat, j: nat, ot: nat)

  /** Both cursors are in a pbuf, as far from the start of the chains, and the rest of the source
      fits into the rest of the destination. Except at the start, no queue was seen, and if the
      source ends with an empty pbuf the walk is before the pbuf in front of it, or the source fits. */
  ghost predicate Walking(lf: Lengths, lt: Lengths, c: Cursor) {
    && c.i < |lf| && c.j < |lt| && (c.off == 0 || c.off < lf[c.i]) && (c.ot == 0 || c.ot < lt[c.j])
    && Total(lf[..c.i]) + c.off == Total(lt[..c.j]) + c.ot && Total(lf) <= Total(lt)
    && (c == Cursor(0, 0, 0, 0)
        || (!QueueLike(lf, c.i) && (Trails(lf) && c.i + 1 == |lf| ==> SourceFits(lf, lt))))
  }

  /** How many bytes one round copies. */
  function Piece(lf: Lengths, lt: Lengths, c: Cursor): nat
    requires c.i < |lf| && c.j < |lt| && c.off <= lf[c.i] && c.ot <= lt[c.j]
  {
    if lt[c.j] - c.ot >= lf[c.i] - c.off then lf[c.i] - c.off else lt[c.j] - c.ot
  }

  function Advance(lf: Lengths, lt: Lengths, c: Cursor): Cursor
    requires c.i < |lf| && c.j < |lt| && c.off <= lf[c.i] && c.ot <= lt[c.j]
  {
    var n := Piece(lf, lt, c);
    Cursor(if c.off + n >= lf[c.i] then c.i + 1 else c.i, if c.off + n >= lf[c.i] then 0 else c.off + n,
           if c.ot + n == lt[c.j] then c.j + 1 else c.j, if c.ot + n == lt[c.j] then 0 else c.ot + n)
  }

  lemma {:induction false} AdvanceTotals(lf: Lengths, lt: Lengths, c: Cursor)
    requires Walking(lf, lt, c)
    ensures var d := Advance(lf, lt, c);
            && d.i <= |lf| && d.j <= |lt| && d.i + d.j > c.i + c.j
            && (d.off == 0 || (d.i < |lf| && d.off < lf[d.i])) && (d.ot == 0 || (d.j < |lt| && d.ot < lt[d.j]))
            && Total(lf[..d.i]) + d.off == Total(lt[..d.j]) + d.ot
            && Total(lf[..d.i]) + d.off == Total(lf[..c.i]) + c.off + Piece(lf, lt, c)
  {
    TotalAt(lf, c.i);
    TotalAt(lt, c.j);
  }

  /** From the pbuf in front of a trailing empty one the walk only gets on at the start. */
  lemma {:induction false} OnlyAtStart(lf: Lengths, lt: Lengths, c: Cursor)
    requires Walking(lf, lt, c) && Trails(lf) && QueueLike(lf, c.i)
    ensures c == Cursor(0, 0, 0, 0)
  {
  }

  lemma {:induction false} LastEmpty(l: Lengths)
    requires Trails(l)
    ensures QueueLike(l, |l| - 2)
  {
    assert l[|l| - 1..] == [0] && [0][1..] == [];
  }

  /** The destination ended, and the source goes on: it goes on with an empty pbuf, and does
      not fit. */
  lemma {:induction false} EndsEarly(lf: Lengths, lt: Lengths, c: Cursor)
    requires Walking(lf, lt, c) && Advance(lf, lt, c).j == |lt| && Advance(lf, lt, c).i < |lf|
    ensures !SourceFits(lf, lt)
  {
    var d := Advance(lf, lt, c);
    AdvanceTotals(lf, lt, c);
    assert lt[..|lt|] == lt;
    TotalAt(lf, d.i);
    assert d.off == 0 && Total(lf[d.i..]) == 0;
    assert d.i == c.i + 1;
    TotalAt(lf, c.i);
    assert lf[c.i + 1..] == lf[d.i..];
    assert QueueLike(lf, c.i);
    QueueLikeTrails(lf, c.i);
    OnlyAtStart(lf, lt, c);
  }

  /** The source looks like a queue after a round. */
  lemma {:induction false} SeesQueue(lf: Lengths, lt: Lengths, c: Cursor)
    requires Walking(lf, lt, c) && QueueLike(lf, Advance(lf, lt, c).i)
    ensures !SourceFits(lf, lt)
  {
    var d := Advance(lf, lt, c);
    QueueLikeTrails(lf, d.i);
    if |lf| == 2 {
      assert d.i == 0 && c.i == 0;
      OnlyAtStart(lf, lt, c);
    }
  }

  /** The walk goes on. */
  lemma {:induction false} WalksOn(lf: Lengths, lt: Lengths, c: Cursor)
    requires Walking(lf, lt, c) && Advance(lf, lt, c).i < |lf| && Advance(lf, lt, c).j < |lt|
    requires !QueueLike(lf, Advance(lf, lt, c).i)
    ensures Walking(lf, lt, Advance(lf, lt, c))
  {
    var d := Advance(lf, lt, c);
    AdvanceTotals(lf, lt, c);
    if Trails(lf) && d.i + 1 == |lf| {
      LastEmpty(lf);
      assert c.i + 1 == d.i;
      OnlyAtStart(lf, lt, c);
    }
  }

  /** The source is at its end. */
  lemma {:induction false} Arrives(lf: Lengths, lt: Lengths, c: Cursor)
    requires Walking(lf, lt, c) && Advance(lf, lt, c).i == |lf|
    ensures SourceFits(lf, lt) && Total(lf[..c.i]) + c.off + Piece(lf, lt, c) == Total(lf)
  {
    AdvanceTotals(lf, lt, c);
    assert lf[..|lf|] == lf;
  }

  // ---- A destination that ends with empty pbufs ------------------------------------------------------

  /** The last pbuf that is not empty, or the first one. */
  function LastFull(l: Lengths): (k: nat)
    requires l != []
    ensures k < |l| && (k == 0 || l[k] > 0) && forall j :: k < j < |l| ==> l[j] == 0
  {
    if |l| == 1 || l[|l| - 1] > 0 then |l| - 1 else LastFull(l[..|l| - 1])
  }

  lemma {:induction false} TotalZero(l: Lengths)
    ensures Total(l) == 0 <==> forall i :: 0 <= i < |l| ==> l[i] == 0
  {
    if l != [] {
      TotalZero(l[1..]);
      assert forall i :: 0 < i < |l| ==> l[i] == l[1..][i - 1];
      if Total(l) == 0 {
        forall i | 0 <= i < |l| ensures l[i] == 0 {
        }
      } else if l[0] == 0 {
        var j :| 0 <= j < |l[1..]| && l[1..][j] != 0;
        assert l[j + 1] != 0;
      }
    }
  }

  /** The pbufs that look like a queue are those from the last full one on, but for the last. */
  lemma {:induction false} QueueFrom(l: Lengths, j: nat)
    requires l != []
    ensures QueueLike(l, j) <==> LastFull(l) <= j && j + 1 < |l|
  {
    if j + 1 < |l| {
      var rest := l[j + 1..];
      TotalZero(rest);
      if LastFull(l) <= j {
        forall i | 0 <= i < |rest| ensures rest[i] == 0 {
        }
      } else {
        assert rest[LastFull(l) - j - 1] > 0;
      }
    }
  }

  /** How many pbufs it takes to hold n bytes. */
  function First(l: Lengths, n: nat): (k: nat)
    ensures k <= |l|
  {
    if n == 0 || l == [] then 0 else 1 + First(l[1..], if n <= l[0] then 0 else n - l[0])
  }

  lemma {:induction false} FirstIs(l: Lengths, n: nat, k: nat)
    requires k <= |l| && Total(l[..k]) >= n && (k == 0 || Total(l[..k - 1]) < n)
    ensures First(l, n) == k
    decreases k
  {
    if k == 0 {
      assert Total(l[..0]) == 0;
    } else {
      assert l[..k][1..] == l[1..][..k - 1];
      if k > 1 {
        assert l[..k - 1][1..] == l[1..][..k - 2];
      }
      var m := if n <= l[0] then 0 else n - l[0];
      FirstIs(l[1..], m, k - 1);
    }
  }

  lemma {:induction false} FirstBeyond(l: Lengths, n: nat, k: nat)
    requires k <= |l| && Total(l[..k]) < n <= Total(l)
    ensures k < First(l, n)
    decreases k
  {
    if k > 0 {
      assert l[..k][1..] == l[1..][..k - 1];
      FirstBeyond(l[1..], if n <= l[0] then 0 else n - l[0], k - 1);
    }
  }

  /** What a destination that ends with empty pbufs must be like. If only its first pbuf is full, the
      source's first pbuf must fill it and one empty pbuf follow. Otherwise the source must end before
      the last full pbuf, with pbufs to spare for those that hold none of its bytes. */
  predicate DestinationFits(lf: Lengths, lt: Lengths)
    requires lf != [] && lt != []
  {
    var m, n := LastFull(lt), Total(lf);
    if m == 0 then |lt| == 2 && lf[0] == lt[0]
    else n < Total(lt[..m]) || (n == Total(lt[..m]) && First(lt, n) + |lf| - First(lf, n) < m)
  }

  /** When a copy of a source no longer than the destination succeeds. */
  predicate Succeeds(lf: Lengths, lt: Lengths)
    requires lf != [] && lt != []
  {
    SourceFits(lf, lt) && (Trails(lt) ==> DestinationFits(lf, lt))
  }

  /** Once all bytes are copied, each round passes an empty pbuf of the source, and one of the
      destination if there is one. */
  ghost predicate Level(lf: Lengths, lt: Lengths, c: Cursor)
    requires lf != [] && lt != [] && c.i <= |lf|
  {
    var n := Total(lf);
    Total(lf[..c.i]) + c.off == n ==>
      && c.j - First(lt, n) <= c.i - First(lf, n)
      && (n == Total(lt[..LastFull(lt)]) ==> c.j - First(lt, n) == c.i - First(lf, n))
  }

  /** No queue was seen in the destination: the walk is before its last full pbuf, or it fits. */
  ghost predicate Unseen(lf: Lengths, lt: Lengths, c: Cursor)
    requires lf != [] && lt != [] && c.i <= |lf|
  {
    Trails(lt) ==>
      if LastFull(lt) == 0 then c == Cursor(0, 0, 0, 0) || (DestinationFits(lf, lt) && c.j > 0)
      else c.j < LastFull(lt) && Level(lf, lt, c)
  }

  lemma {:induction false} PrefixTotal(l: Lengths, i: nat, j: nat)
    requires i <= j <= |l|
    ensures Total(l[..i]) <= Total(l[..j]) <= Total(l)
  {
    assert l[..j] == l[..i] + l[i..j] && l == l[..j] + l[j..];
    TotalConcat(l[..i], l[i..j]);
    TotalConcat(l[..j], l[j..]);
  }

  /** A round after which the last byte is copied, and it was not before. */
  lemma {:induction false} LastByte(lf: Lengths, lt: Lengths, c: Cursor)
    requires Walking(lf, lt, c) && c.j < LastFull(lt) && Total(lf[..c.i]) + c.off < Total(lf)
    requires Total(lf[..Advance(lf, lt, c).i]) + Advance(lf, lt, c).off == Total(lf)
    ensures Level(lf, lt, Advance(lf, lt, c))
  {
    var d, n, m := Advance(lf, lt, c), Total(lf), LastFull(lt);
    AdvanceTotals(lf, lt, c);
    TotalAt(lf, c.i);
    TotalAt(lt, c.j);
    PrefixTotal(lf, c.i, c.i + 1);
    PrefixTotal(lt, c.j + 1, m);
    PrefixTotal(lt, m, m);
    assert Total(lf[..c.i]) + lf[c.i] <= n;
    FirstIs(lf, n, d.i);
    HoldsLast(lt, c.j, d.j, d.ot, n);
  }

  /** The destination's cursor when the last of n bytes is copied into pbuf j. */
  lemma {:induction false} HoldsLast(lt: Lengths, j: nat, k: nat, ot: nat, n: nat)
    requires lt != [] && j < LastFull(lt) && (if k == j then ot < lt[j] else k == j + 1 && ot == 0)
    requires Total(lt[..j]) < n == Total(lt[..k]) + ot <= Total(lt)
    ensures k <= First(lt, n) && (n == Total(lt[..LastFull(lt)]) ==> k == First(lt, n))
  {
    TotalAt(lt, j);
    PrefixTotal(lt, j + 1, LastFull(lt));
    if k == j + 1 {
      FirstIs(lt, n, k);
    } else {
      FirstBeyond(lt, n, j);
    }
  }

  /** A round with no byte left to copy. */
  lemma {:induction false} EmptyRound(lf: Lengths, lt: Lengths, c: Cursor)
    requires Walking(lf, lt, c) && c.j < LastFull(lt) && Total(lf[..c.i]) + c.off == Total(lf) && Level(lf, lt, c)
    ensures Level(lf, lt, Advance(lf, lt, c))
  {
    var m := LastFull(lt);
    TotalAt(lf, c.i);
    TotalAt(lt, c.j);
    PrefixTotal(lt, c.j + 1, m);
    assert c.off == 0 && lf[c.i] == 0;
  }

  lemma {:induction false} LevelOn(lf: Lengths, lt: Lengths, c: Cursor)
    requires Walking(lf, lt, c) && c.j < LastFull(lt) && Level(lf, lt, c)
    ensures Advance(lf, lt, c).i <= |lf| && Level(lf, lt, Advance(lf, lt, c)) && Advance(lf, lt, c).j <= LastFull(lt)
  {
    AdvanceTotals(lf, lt, c);
    TotalAt(lf, c.i);
    if Total(lf[..c.i]) + c.off == Total(lf) {
      EmptyRound(lf, lt, c);
    } else if Total(lf[..Advance(lf, lt, c).i]) + Advance(lf, lt, c).off == Total(lf) {
      LastByte(lf, lt, c);
    }
  }

  lemma {:induction false} UnseenStarts(lf: Lengths, lt: Lengths)
    requires lf != [] && lt != []
    ensures Unseen(lf, lt, Cursor(0, 0, 0, 0))
  {
    var n := Total(lf);
    assert lf[..0] == [] && Total(lf[..0]) == 0;
  }

  /** From the start, with nothing but empty pbufs behind the first one of the destination. */
  lemma {:induction false} FirstRound(lf: Lengths, lt: Lengths)
    requires Walking(lf, lt, Cursor(0, 0, 0, 0)) && Trails(lt) && LastFull(lt) == 0
    ensures !QueueLike(lt, Advance(lf, lt, Cursor(0, 0, 0, 0)).j) <==> DestinationFits(lf, lt)
  {
    var d := Advance(lf, lt, Cursor(0, 0, 0, 0));
    QueueFrom(lt, d.j);
    TotalZero(lt[1..]);
    TotalAt(lf, 0);
    TotalAt(lt, 0);
    assert lf[..0] == [] && lt[..0] == [];
    forall i | 0 <= i < |lt[1..]| ensures lt[1..][i] == 0 {
    }
  }

  /** The source's cursor is at most at its end. */
  lemma {:induction false} WithinSource(lf: Lengths, d: Cursor)
    requires d.i <= |lf| && (d.off == 0 || (d.i < |lf| && d.off < lf[d.i]))
    ensures Total(lf[..d.i]) + d.off <= Total(lf)
  {
    PrefixTotal(lf, d.i, d.i);
    if d.i < |lf| {
      TotalAt(lf, d.i);
    }
  }

  /** The destination looks like a queue after a round: it does not fit. */
  lemma {:induction false} SeesQueueThere(lf: Lengths, lt: Lengths, c: Cursor)
    requires Walking(lf, lt, c) && Unseen(lf, lt, c) && QueueLike(lt, Advance(lf, lt, c).j)
    ensures Trails(lt) && !DestinationFits(lf, lt)
  {
    var d := Advance(lf, lt, c);
    QueueLikeTrails(lt, d.j);
    QueueFrom(lt, d.j);
    AdvanceTotals(lf, lt, c);
    if LastFull(lt) == 0 {
      FirstRound(lf, lt);
    } else {
      LevelOn(lf, lt, c);
      WithinSource(lf, d);
      assert lf[..|lf|] == lf;
    }
  }

  /** The destination does not look like a queue after the round that ends the source: it fits. */
  lemma {:induction false} ArrivesThere(lf: Lengths, lt: Lengths, c: Cursor)
    requires Walking(lf, lt, c) && Unseen(lf, lt, c) && Trails(lt)
    requires Advance(lf, lt, c).i == |lf| && !QueueLike(lt, Advance(lf, lt, c).j)
    ensures DestinationFits(lf, lt)
  {
    var d, m := Advance(lf, lt, c), LastFull(lt);
    QueueFrom(lt, d.j);
    AdvanceTotals(lf, lt, c);
    if m == 0 {
      FirstRound(lf, lt);
    } else {
      LevelOn(lf, lt, c);
      EndsBefore(lf, lt, d);
    }
  }

  lemma {:induction false} EndsBefore(lf: Lengths, lt: Lengths, d: Cursor)
    requires lf != [] && lt != [] && d.i == |lf| && d.off == 0 && d.j < LastFull(lt) && Level(lf, lt, d)
    requires d.ot == 0 || d.ot < lt[d.j]
    requires Total(lf[..d.i]) + d.off == Total(lt[..d.j]) + d.ot
    ensures DestinationFits(lf, lt)
  {
    assert lf[..|lf|] == lf;
    PrefixTotal(lt, d.j + 1, LastFull(lt));
    TotalAt(lt, d.j);
  }

  /** The destination does not look like a queue after a round before the end of the source. */
  lemma {:induction false} UnseenOn(lf: Lengths, lt: Lengths, c: Cursor)
    requires Walking(lf, lt, c) && Unseen(lf, lt, c)
    requires Advance(lf, lt, c).i < |lf| && !QueueLike(lt, Advance(lf, lt, c).j)
    ensures Unseen(lf, lt, Advance(lf, lt, c))
  {
    var d, m := Advance(lf, lt, c), LastFull(lt);
    if Trails(lt) {
      QueueFrom(lt, d.j);
      TrailsFull(lt);
      if m == 0 {
        FirstRound(lf, lt);
      } else {
        LevelOn(lf, lt, c);
      }
    }
  }

  lemma {:induction false} TrailsFull(l: Lengths)
    requires l != [] && Trails(l)
    ensures LastFull(l) < |l| - 1
  {
  }

  /** Both cursors are on their way. */
  ghost predicate Track(lf: Lengths, lt: Lengths, c: Cursor) {
    Walking(lf, lt, c) && Unseen(lf, lt, c)
  }

  /** The tests after a round that ended at these cursors. */
  function Verdict(lf: Lengths, lt: Lengths, d: Cursor): Err {
    if d.j >= |lt| && d.i < |lf| then Arg else if QueueLike(lf, d.i) || QueueLike(lt, d.j) then Val else Ok
  }

  /** The tests refuse only what does not succeed, and let nothing else through. */
  lemma {:induction false} Judged(lf: Lengths, lt: Lengths, c: Cursor)
    requires Track(lf, lt, c)
    ensures var d := Advance(lf, lt, c);
            && (Verdict(lf, lt, d) != Ok ==> !Succeeds(lf, lt))
            && (Verdict(lf, lt, d) == Ok && d.i >= |lf| ==> Succeeds(lf, lt))
            && (Verdict(lf, lt, d) == Ok && d.i < |lf| ==> Track(lf, lt, d))
  {
    var d := Advance(lf, lt, c);
    AdvanceTotals(lf, lt, c);
    if d.j >= |lt| && d.i < |lf| {
      EndsEarly(lf, lt, c);
    } else if QueueLike(lf, d.i) {
      SeesQueue(lf, lt, c);
    } else if QueueLike(lt, d.j) {
      SeesQueueThere(lf, lt, c);
    } else if d.i >= |lf| {
      Arrives(lf, lt, c);
      if Trails(lt) {
        ArrivesThere(lf, lt, c);
      }
    } else {
      WalksOn(lf, lt, c);
      UnseenOn(lf, lt, c);
    }
  }

  // ---- The lengths of a chain ----------------------------------------------------------------------

  function LengthsOf(data: Payloads, c: seq<Id>): (l: Lengths)
    requires Covers(data, c)
    ensures |l| == |c| && forall i :: 0 <= i < |c| ==> l[i] == |data[c[i]]|
  {
    if c == [] then [] else [|data[c[0]]|] + LengthsOf(data, c[1..])
  }

  lemma {:induction false} LengthsTotal(data: Payloads, c: seq<Id>)
    requires Covers(data, c)
    ensures Total(LengthsOf(data, c)) == |Bytes(data, c)|
  {
    if c != [] {
      LengthsTotal(data, c[1..]);
      assert LengthsOf(data, c)[1..] == LengthsOf(data, c[1..]);
    }
  }

  lemma {:induction false} LengthsParts(data: Payloads, c: seq<Id>, i: nat)
    requires Covers(data, c) && i <= |c|
    ensures Total(LengthsOf(data, c)[..i]) == |Bytes(data, c[..i])|
    ensures Total(LengthsOf(data, c)[i..]) == |Bytes(data, c[i..])|
  {
    assert LengthsOf(data, c)[..i] == LengthsOf(data, c[..i]);
    assert LengthsOf(data, c)[i..] == LengthsOf(data, c[i..]);
    LengthsTotal(data, c[..i]);
    LengthsTotal(data, c[i..]);
  }

  lemma {:induction false} LengthsKept(data: Payloads, data': Payloads, w: seq<Id>, c: seq<Id>)
    requires Writes(data, data', w) && Covers(data, c)
    ensures Covers(data', c) && LengthsOf(data', c) == LengthsOf(data, c)
  {
    forall i | 0 <= i < |c| ensures c[i] in data' && |data'[c[i]]| == |data[c[i]]| {
      assert Intact(data, data', w, c[i]);
    }
  }

  /** What the code compares, `len == tot_len && next != NULL`, is that only empty pbufs follow. */
  lemma {:induction false} SeesQueueLike(next: Links, tot: Sizes, data: Payloads, h: Id, c: seq<Id>, i: nat)
    requires Path(next, h, c) && Covers(data, c) && Measures(tot, data, c) && i < |c|
    ensures c[i] in tot && c[i] in next
    ensures |data[c[i]]| == tot[c[i]] && next[c[i]] != NULL <==> QueueLike(LengthsOf(data, c), i)
  {
    MeasuresAt(tot, data, c, i);
    BytesAt(data, c, i);
    LengthsParts(data, c, i + 1);
    PathAt(next, h, c, i);
    PathAt(next, h, c, i + 1);
  }

  /** Two chains that share no pbuf. */
  ghost predicate Chains(next: Links, data: Payloads, pTo: Id, pFrom: Id, t: seq<Id>, f: seq<Id>) {
    Path(next, pTo, t) && Path(next, pFrom, f) && Covers(data, t) && Covers(data, f) && Separate(f, t)
  }

  /** A part of one pbuf is a part of the chain's bytes. */
  lemma {:induction false} PartOf(data: Payloads, c: seq<Id>, i: nat, off: nat, n: nat)
    requires Covers(data, c) && i < |c| && off + n <= |data[c[i]]|
    ensures var x := |Bytes(data, c[..i])| + off;
            x + n <= |Bytes(data, c)| && data[c[i]][off..off + n] == Bytes(data, c)[x..x + n]
  {
    BytesAt(data, c, i);
    Middle(Bytes(data, c[..i]), data[c[i]], Bytes(data, c[i + 1..]), off, n);
  }

  /** The payloads at the cursors, in the course of the walk. */
  lemma {:induction false} CursorPayloads(before: Payloads, now: Payloads, t: seq<Id>, f: seq<Id>, i: nat, j: nat)
    requires Covers(before, t) && Covers(before, f) && Separate(f, t) && Writes(before, now, t) && i < |f| && j < |t|
    ensures f[i] in now && now[f[i]] == before[f[i]]
    ensures t[j] in now && |now[t[j]]| == |before[t[j]]|
    ensures Covers(now, t) && |Bytes(now, t[..j])| == |Bytes(before, t[..j])|
  {
    assert Intact(before, now, t, f[i]) && Intact(before, now, t, t[j]);
    WritesSize(before, now, t, t);
    WritesSize(before, now, t, t[..j]);
  }

  /** One round of the walk, at place x of the bytes. */
  lemma {:induction false} CopyAt(next: Links, before: Payloads, now: Payloads, h: Id, t: seq<Id>, f: seq<Id>, c: Cursor,
                                  x: nat, n: nat)
    requires Path(next, h, t) && Covers(before, t) && Covers(before, f) && Separate(f, t)
    requires c.i < |f| && c.j < |t| && Filled(before, now, t, Bytes(before, f), x)
    requires x == |Bytes(before, f[..c.i])| + c.off == |Bytes(before, t[..c.j])| + c.ot
    requires c.off + n <= |before[f[c.i]]| && c.ot + n <= |before[t[c.j]]|
    ensures f[c.i] in now && t[c.j] in now && now[f[c.i]] == before[f[c.i]] && |now[t[c.j]]| == |before[t[c.j]]|
    ensures Filled(before, now[t[c.j] := Put(now[t[c.j]], c.ot, now[f[c.i]][c.off..c.off + n])], t, Bytes(before, f), x + n)
  {
    CursorPayloads(before, now, t, f, c.i, c.j);
    PartOf(before, f, c.i, c.off, n);
    FillRound(before, now, next, h, t, c.j, c.ot, Bytes(before, f), x, n);
  }

  /** The payloads after one round. */
  lemma {:induction false} CopiedHere(next: Links, before: Payloads, now: Payloads, h: Id, t: seq<Id>, f: seq<Id>, c: Cursor,
                                      x: nat, n: nat) returns (after: Payloads)
    requires Path(next, h, t) && Covers(before, t) && Covers(before, f) && Separate(f, t)
    requires c.i < |f| && c.j < |t| && Filled(before, now, t, Bytes(before, f), x)
    requires x == |Bytes(before, f[..c.i])| + c.off == |Bytes(before, t[..c.j])| + c.ot
    requires c.off + n <= |before[f[c.i]]| && c.ot + n <= |before[t[c.j]]|
    ensures f[c.i] in now && t[c.j] in now && |now[f[c.i]]| == |before[f[c.i]]| && |now[t[c.j]]| == |before[t[c.j]]|
    ensures after == now[t[c.j] := Put(now[t[c.j]], c.ot, now[f[c.i]][c.off..c.off + n])]
    ensures Filled(before, after, t, Bytes(before, f), x + n)
    ensures f[c.i] in after && t[c.j] in after && |after[f[c.i]]| == |before[f[c.i]]| && |after[t[c.j]]| == |before[t[c.j]]|
  {
    CopyAt(next, before, now, h, t, f, c, x, n);
    after := now[t[c.j] := Put(now[t[c.j]], c.ot, now[f[c.i]][c.off..c.off + n])];
    CursorPayloads(before, after, t, f, c.i, c.j);
  }

  /** The cursors are in their pbufs, at place x of the bytes. */
  ghost predicate Places(data: Payloads, t: seq<Id>, f: seq<Id>, c: Cursor, x: nat)
    requires Covers(data, t) && Covers(data, f)
  {
    && c.i < |f| && c.j < |t| && x == |Bytes(data, f[..c.i])| + c.off == |Bytes(data, t[..c.j])| + c.ot
    && c.off <= |data[f[c.i]]| && c.ot <= |data[t[c.j]]|
  }

  lemma {:induction false} CursorsPlaced(data: Payloads, t: seq<Id>, f: seq<Id>, c: Cursor)
    requires Covers(data, t) && Covers(data, f) && Walking(LengthsOf(data, f), LengthsOf(data, t), c)
    ensures Places(data, t, f, c, Total(LengthsOf(data, f)[..c.i]) + c.off)
  {
    LengthsParts(data, f, c.i);
    LengthsParts(data, t, c.j);
  }

  /** From the pbufs at the cursors c the links lead to those at d, or nowhere. */
  ghost predicate Moves(next: Links, data: Payloads, t: seq<Id>, f: seq<Id>, c: Cursor, d: Cursor)
    requires Covers(data, t) && Covers(data, f) && c.i < |f| && c.j < |t| && c.off <= |data[f[c.i]]| && c.ot <= |data[t[c.j]]|
  {
    var from, to := f[c.i], t[c.j];
    var n := Piece(LengthsOf(data, f), LengthsOf(data, t), c);
    && from in next && to in next
    && n == (if |data[to]| - c.ot >= |data[from]| - c.off then |data[from]| - c.off else |data[to]| - c.ot)
    && (if c.off + n >= |data[from]| then d.off == 0 && next[from] == At(f, d.i) else d.off == c.off + n && from == At(f, d.i))
    && (if c.ot + n == |data[to]| then d.ot == 0 && next[to] == At(t, d.j) else d.ot == c.ot + n && to == At(t, d.j))
  }

  lemma {:induction false} CursorsMove(next: Links, data: Payloads, pTo: Id, pFrom: Id, t: seq<Id>, f: seq<Id>, c: Cursor)
    requires Path(next, pTo, t) && Path(next, pFrom, f) && Covers(data, t) && Covers(data, f)
    requires Walking(LengthsOf(data, f), LengthsOf(data, t), c)
    ensures Moves(next, data, t, f, c, Advance(LengthsOf(data, f), LengthsOf(data, t), c))
  {
    PathAt(next, pFrom, f, c.i);
    PathAt(next, pTo, t, c.j);
  }

  /** The bytes that fit from the place in one pbuf to the place in the other. */
  method CopyPiece(k: Pool, to: Id, from: Id, ot: nat, off: nat, ghost n0: nat, ghost after: Payloads) returns (n: nat)
    requires to in k.data && from in k.data && ot <= |k.data[to]| && off <= |k.data[from]|
    requires n0 == if |k.data[to]| - ot >= |k.data[from]| - off then |k.data[from]| - off else |k.data[to]| - ot
    requires after == k.data[to := Put(k.data[to], ot, k.data[from][off..off + n0])]
    modifies k`data
    ensures n == n0 && k.data == after
  {
    if |k.data[to]| - ot >= |k.data[from]| - off {
      n := |k.data[from]| - off;
    } else {
      n := |k.data[to]| - ot;
    }
    k.data := k.data[to := Put(k.data[to], ot, k.data[from][off..off + n])];
  }

  /** The piece at the cursors is copied, at place x of the bytes. */
  method CopyHere(k: Pool, to: Id, from: Id, ot: nat, off: nat, ghost before: Payloads, ghost h: Id, ghost t: seq<Id>,
                  ghost f: seq<Id>, ghost c: Cursor, ghost x: nat) returns (n: nat)
    requires Path(k.next, h, t) && Covers(before, t) && Covers(before, f) && Separate(f, t)
    requires c.i < |f| && c.j < |t| && Filled(before, k.data, t, Bytes(before, f), x)
    requires x == |Bytes(before, f[..c.i])| + c.off == |Bytes(before, t[..c.j])| + c.ot
    requires from == f[c.i] && to == t[c.j] && off == c.off <= |before[from]| && ot == c.ot <= |before[to]|
    modifies k`data
    ensures n == if |before[to]| - ot >= |before[from]| - off then |before[from]| - off else |before[to]| - ot
    ensures Filled(before, k.data, t, Bytes(before, f), x + n)
    ensures from in k.data && |k.data[from]| == |before[from]| && to in k.data && |k.data[to]| == |before[to]|
  {
    ghost var n0 := if |before[to]| - ot >= |before[from]| - off then |before[from]| - off else |before[to]| - ot;
    ghost var after := CopiedHere(k.next, before, k.data, h, t, f, c, x, n0);
    n := CopyPiece(k, to, from, ot, off, n0, after);
  }

  /** One round of `pbuf_copy`: the piece at the cursors is copied, and the cursors move on. */
  method Round(k: Pool, to: Id, from: Id, ot: nat, off: nat, ghost before: Payloads, ghost h: Id, ghost t: seq<Id>,
               ghost f: seq<Id>, ghost c: Cursor, ghost x: nat) returns (to': Id, from': Id, ot': nat, off': nat, ghost y: nat)
    requires Path(k.next, h, t) && Covers(before, t) && Covers(before, f) && Separate(f, t)
    requires c.i < |f| && c.j < |t| && Filled(before, k.data, t, Bytes(before, f), x)
    requires x == |Bytes(before, f[..c.i])| + c.off == |Bytes(before, t[..c.j])| + c.ot
    requires from == f[c.i] && to == t[c.j] && off == c.off <= |before[from]| && ot == c.ot <= |before[to]|
    requires from in k.next && to in k.next
    modifies k`data
    ensures y == x + if |before[to]| - ot >= |before[from]| - off then |before[from]| - off else |before[to]| - ot
    ensures Filled(before, k.data, t, Bytes(before, f), y)
    ensures if off + y - x >= |before[from]| then off' == 0 && from' == k.next[from] else off' == off + y - x && from' == from
    ensures if ot + y - x == |before[to]| then ot' == 0 && to' == k.next[to] else ot' == ot + y - x && to' == to
  {
    var m := CopyHere(k, to, from, ot, off, before, h, t, f, c, x);
    y := x + m;
    from', to', ot', off' := from, to, ot + m, off + m;
    if off' >= |k.data[from]| {
      off', from' := 0, k.next[from];
    }
    if ot' == |k.data[to]| {
      ot', to' := 0, k.next[to];
    }
  }

  /** The test for a queue at a pbuf: `len == tot_len` and a successor. */
  method IsQueue(k: Pool, q: Id, ghost before: Payloads, ghost w: seq<Id>, ghost h: Id, ghost c: seq<Id>, ghost i: nat)
    returns (yes: bool)
    requires Path(k.next, h, c) && Covers(before, c) && Measures(k.tot, before, c) && Writes(before, k.data, w)
    requires i <= |c| && q == At(c, i)
    ensures yes <==> QueueLike(LengthsOf(before, c), i)
  {
    PathAt(k.next, h, c, i);
    if q == NULL {
      return false;
    }
    LengthsKept(before, k.data, w, c);
    WritesMeasure(k.tot, before, k.data, w, c);
    SeesQueueLike(k.next, k.tot, k.data, h, c, i);
    return |k.data[q]| == k.tot[q] && k.next[q] != NULL;
  }

  /** The tests of `pbuf_copy` after a round. */
  method Check(k: Pool, to: Id, from: Id, ghost before: Payloads, ghost pTo: Id, ghost pFrom: Id, ghost t: seq<Id>,
               ghost f: seq<Id>, ghost d: Cursor) returns (r: Err)
    requires Chains(k.next, before, pTo, pFrom, t, f) && Writes(before, k.data, t)
    requires Measures(k.tot, before, t) && Measures(k.tot, before, f)
    requires d.i <= |f| && d.j <= |t| && to == At(t, d.j) && from == At(f, d.i)
    ensures r == Verdict(LengthsOf(before, f), LengthsOf(before, t), d)
  {
    PathAt(k.next, pFrom, f, d.i);
    PathAt(k.next, pTo, t, d.j);
    if to == NULL && from != NULL {
      return Arg;
    }
    var queue := IsQueue(k, from, before, t, pFrom, f, d.i);
    if queue {
      return Val;
    }
    queue := IsQueue(k, to, before, t, pTo, t, d.j);
    return if queue then Val else Ok;
  }

  /** The variables of the loop are at the cursors. */
  ghost predicate Stands(lf: Lengths, lt: Lengths, t: seq<Id>, f: seq<Id>, c: Cursor, x: nat, to: Id, from: Id, ot: nat,
                         off: nat)
    requires |lf| == |f| && |lt| == |t|
  {
    && Track(lf, lt, c) && from == f[c.i] && to == t[c.j] && off == c.off && ot == c.ot && x == Total(lf[..c.i]) + c.off
  }

  /** The two chains, unchanged in shape, with the source's first x bytes in the destination. */
  ghost predicate Loop(k: Pool, before: Payloads, pTo: Id, pFrom: Id, t: seq<Id>, f: seq<Id>, x: nat)
    reads k
  {
    && Chains(k.next, before, pTo, pFrom, t, f) && Measures(k.tot, before, t) && Measures(k.tot, before, f)
    && Filled(before, k.data, t, Bytes(before, f), x)
  }

  /** One round of `pbuf_copy`, seen from the cursors. */
  method Move(k: Pool, to: Id, from: Id, ot: nat, off: nat, ghost before: Payloads, ghost pTo: Id, ghost pFrom: Id,
              ghost t: seq<Id>, ghost f: seq<Id>, ghost c: Cursor, ghost x: nat)
    returns (to': Id, from': Id, ot': nat, off': nat, ghost d: Cursor, ghost x': nat)
    requires Loop(k, before, pTo, pFrom, t, f, x)
    requires Stands(LengthsOf(before, f), LengthsOf(before, t), t, f, c, x, to, from, ot, off)
    modifies k`data
    ensures Loop(k, before, pTo, pFrom, t, f, x')
    ensures d == Advance(LengthsOf(before, f), LengthsOf(before, t), c) && x' == x + Piece(LengthsOf(before, f), LengthsOf(before, t), c)
    ensures to' == At(t, d.j) && from' == At(f, d.i) && ot' == d.ot && off' == d.off
  {
    d := Advance(LengthsOf(before, f), LengthsOf(before, t), c);
    assert Places(before, t, f, c, x) && Moves(k.next, before, t, f, c, d) by {
      CursorsPlaced(before, t, f, c);
      CursorsMove(k.next, before, pTo, pFrom, t, f, c);
    }
    to', from', ot', off', x' := Round(k, to, from, ot, off, before, pTo, t, f, c, x);
  }

  /** One round of `pbuf_copy` and the tests after it. */
  method Go(k: Pool, to: Id, from: Id, ot: nat, off: nat, ghost before: Payloads, ghost pTo: Id, ghost pFrom: Id,
            ghost t: seq<Id>, ghost f: seq<Id>, ghost c: Cursor, ghost x: nat)
    returns (r: Err, to': Id, from': Id, ot': nat, off': nat, ghost d: Cursor, ghost x': nat)
    requires Loop(k, before, pTo, pFrom, t, f, x)
    requires Stands(LengthsOf(before, f), LengthsOf(before, t), t, f, c, x, to, from, ot, off)
    modifies k`data
    ensures Loop(k, before, pTo, pFrom, t, f, x')
    ensures d.i <= |f| && d.j <= |t| && d.i + d.j > c.i + c.j
    ensures r == Ok && from' != NULL ==>
      Stands(LengthsOf(before, f), LengthsOf(before, t), t, f, d, x', to', from', ot', off')
    ensures r == Ok && from' == NULL ==>
      x' == |Bytes(before, f)| && Succeeds(LengthsOf(before, f), LengthsOf(before, t))
    ensures r != Ok ==> !Succeeds(LengthsOf(before, f), LengthsOf(before, t))
  {
    ghost var lf, lt := LengthsOf(before, f), LengthsOf(before, t);
    to', from', ot', off', d, x' := Move(k, to, from, ot, off, before, pTo, pFrom, t, f, c, x);
    AdvanceTotals(lf, lt, c);
    PathAt(k.next, pFrom, f, d.i);
    PathAt(k.next, pTo, t, d.j);
    r := Check(k, to', from', before, pTo, pFrom, t, f, d);
    Judged(lf, lt, c);
    if from' == NULL {
      Arrives(lf, lt, c);
      LengthsTotal(before, f);
    }
  }

  /** The loop of `pbuf_copy`, from chains of which the destination is no shorter. */
  method Walk(k: Pool, pTo: Id, pFrom: Id, ghost t: seq<Id>, ghost f: seq<Id>) returns (r: Err)
    requires Loop(k, k.data, pTo, pFrom, t, f, 0) && t != [] && f != []
    modifies k`data
    ensures Writes(old(k.data), k.data, t)
    ensures r == Ok ==> Placed(old(k.data), k.data, t, 0, Bytes(old(k.data), f))
    ensures r == Ok <==> Succeeds(LengthsOf(old(k.data), f), LengthsOf(old(k.data), t))
  {
    ghost var before := k.data;
    var to, from, ot: nat, off: nat := pTo, pFrom, 0, 0;
    ghost var c, x: nat := Cursor(0, 0, 0, 0), 0;
    WalkStarts(k.next, before, pTo, pFrom, t, f);
    while from != NULL
      invariant Loop(k, before, pTo, pFrom, t, f, x)
      invariant from != NULL ==> Stands(LengthsOf(before, f), LengthsOf(before, t), t, f, c, x, to, from, ot, off)
      invariant from == NULL ==> x == |Bytes(before, f)| && Succeeds(LengthsOf(before, f), LengthsOf(before, t))
      invariant c.i <= |f| && c.j <= |t|
      decreases |f| + |t| - c.i - c.j
    {
      r, to, from, ot, off, c, x := Go(k, to, from, ot, off, before, pTo, pFrom, t, f, c, x);
      if r != Ok {
        return;
      }
    }
    FilledAll(before, k.data, t, Bytes(before, f));
    return Ok;
  }

  lemma {:induction false} WalkStarts(next: Links, data: Payloads, pTo: Id, pFrom: Id, t: seq<Id>, f: seq<Id>)
    requires Chains(next, data, pTo, pFrom, t, f) && t != [] && f != [] && |Bytes(data, f)| <= |Bytes(data, t)|
    ensures Track(LengthsOf(data, f), LengthsOf(data, t), Cursor(0, 0, 0, 0)) && Filled(data, data, t, Bytes(data, f), 0)
    ensures pTo == t[0] && pFrom == f[0]
  {
    LengthsTotal(data, f);
    LengthsTotal(data, t);
    FillStarts(data, t, Bytes(data, f));
    UnseenStarts(LengthsOf(data, f), LengthsOf(data, t));
  }

  lemma {:induction false} FilledAll(before: Payloads, now: Payloads, c: seq<Id>, src: seq<byte>)
    requires Filled(before, now, c, src, |src|)
    ensures Placed(before, now, c, 0, src)
  {
    assert src[..|src|] == src;
  }

  /** `pbuf_copy`: refused without two chains or if the destination is too short. Otherwise it
      succeeds exactly as said above, and then the front of the destination is the source. Nothing
      but the destination's bytes changes. */
  method Copy(k: Pool, pTo: Id, pFrom: Id, ghost t: seq<Id>, ghost f: seq<Id>) returns (r: Err)
    requires Chains(k.next, k.data, pTo, pFrom, t, f) && Measures(k.tot, k.data, t) && Measures(k.tot, k.data, f)
    modifies k`data
    ensures Writes(old(k.data), k.data, t)
    ensures r == Ok ==> Placed(old(k.data), k.data, t, 0, Bytes(old(k.data), f))
    ensures t == [] || f == [] || |Bytes(old(k.data), t)| < |Bytes(old(k.data), f)| ==> r == Arg && k.data == old(k.data)
    ensures t != [] && f != [] && |Bytes(old(k.data), f)| <= |Bytes(old(k.data), t)|
      ==> (r == Ok <==> Succeeds(LengthsOf(old(k.data), f), LengthsOf(old(k.data), t)))
  {
    PathAt(k.next, pTo, t, 0);
    PathAt(k.next, pFrom, f, 0);
    WritesNothing(k.data, t);
    if pTo == NULL || pFrom == NULL || k.tot[pTo] < k.tot[pFrom] {
      return Arg;
    }
    WalkStarts(k.next, k.data, pTo, pFrom, t, f);
    r := Walk(k, pTo, pFrom, t, f);
  }

  /** Three bytes and an empty pbuf do not go into a pbuf of three bytes, nor three bytes into a pbuf
      of four and an empty one. */
  lemma {:induction false} TrailingEmptyRefused()
    ensures Total([3, 0]) <= Total([3]) && !Succeeds([3, 0], [3])
    ensures Total([3]) <= Total([4, 0]) && !Succeeds([3], [4, 0])
  {
    assert [3, 0][1..] == [0] && [4, 0][1..] == [0] && [3][1..] == [] && [0][1..] == [];
    assert LastFull([4, 0]) == 0;
  }

  /** So a call with such chains fails, although the source is no longer than the destination. */
  method RefusesTrailingEmpty(k: Pool, pTo: Id, pFrom: Id, ghost t: seq<Id>, ghost f: seq<Id>) returns (r: Err)
    requires Chains(k.next, k.data, pTo, pFrom, t, f) && Measures(k.tot, k.data, t) && Measures(k.tot, k.data, f)
    requires (LengthsOf(k.data, f) == [3, 0] && LengthsOf(k.data, t) == [3])
             || (LengthsOf(k.data, f) == [3] && LengthsOf(k.data, t) == [4, 0])
    modifies k`data
    ensures |Bytes(old(k.data), f)| <= |Bytes(old(k.data), t)| && r != Ok
  {
    TrailingEmptyRefused();
    LengthsTotal(k.data, f);
    LengthsTotal(k.data, t);
    r := Copy(k, pTo, pFrom, t, f);
  }
}
