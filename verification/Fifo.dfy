/** The byte fifo (common/salof/fifo.c): a buffer whose size is a power of two,
    with free-running 32-bit indices. One writer and one reader, each admitted by
    its mutex, interleave; a call sizes its transfer, copies byte by byte, and
    publishes its index. */
module Fifo {
  import opened Cyclic
  import opened Machine

  // ---- The size -----------------------------------------------------------------------

  function Pow2(k: nat): (p: nat)
    ensures p > 0
  {
    if k == 0 then 1 else 2 * Pow2(k - 1)
  }

  lemma {:induction false} Pow2Grows(a: nat, b: nat)
    requires a <= b
    ensures Pow2(a) <= Pow2(b)
    decreases b
  {
    if a < b {
      Pow2Grows(a, b - 1);
    }
  }

  /** The number of bits of x: the position of its highest set bit, from 1. */
  function Bits(x: nat): (r: nat)
    ensures r == 0 <==> x == 0
  {
    if x == 0 then 0 else 1 + Bits(x / 2)
  }

  /** Bits(x) - 1 is the exponent of the greatest power of two not above x. */
  lemma {:induction false} BitsBound(x: nat)
    requires x > 0
    ensures Pow2(Bits(x) - 1) <= x < Pow2(Bits(x))
  {
    if x > 1 {
      BitsBound(x / 2);
    }
  }

  lemma {:induction false} BitsTimes2(x: nat)
    requires x > 0
    ensures Bits(2 * x) == Bits(x) + 1
  {
    assert 2 * x / 2 == x;
  }

  lemma {:induction false} BitsTimes4(x: nat)
    requires x > 0
    ensures Bits(4 * x) == Bits(x) + 2
  {
    BitsTimes2(x);
    BitsTimes2(2 * x);
  }

  lemma {:induction false} BitsTimes16(x: nat)
    requires x > 0
    ensures Bits(16 * x) == Bits(x) + 4
  {
    BitsTimes4(x);
    assert 16 * x == 4 * (4 * x);
    BitsTimes4(4 * x);
  }

  lemma {:induction false} BitsTimes256(x: nat)
    requires x > 0
    ensures Bits(0x100 * x) == Bits(x) + 8
  {
    BitsTimes16(x);
    BitsTimes16(16 * x);
  }

  lemma {:induction false} BitsTimes65536(x: nat)
    requires x > 0
    ensures Bits(0x1_0000 * x) == Bits(x) + 16
  {
    BitsTimes256(x);
    BitsTimes256(0x100 * x);
  }

  lemma {:induction false} TopBit(x: nat)
    requires 0x8000_0000 <= x < WORD
    ensures Bits(x) == 32
  {
    BitsBound(x);
    assert Pow2(16) == 0x1_0000 by { assert Pow2(8) == 0x100 by { assert Pow2(4) == 16; } }
    assert Pow2(24) == 0x100_0000;
    assert Pow2(31) == 0x8000_0000 && Pow2(32) == WORD;
    if Bits(x) < 32 {
      Pow2Grows(Bits(x), 31);
    }
    if Bits(x) > 32 {
      Pow2Grows(32, Bits(x) - 1);
    }
  }

  /** `_dos_find_last_bit_set`: a mask test for the top bits being clear is a
      comparison, a shift that loses no bit a multiplication. */
  method FindLastBitSet(x0: nat) returns (r: nat)
    requires x0 < WORD
    ensures r == Bits(x0)
  {
    var x := x0;
    r := 32;
    if x == 0 {
      return 0;
    }
    if x < 0x1_0000 {
      BitsTimes65536(x);
      x, r := 0x1_0000 * x, r - 16;
    }
    assert Bits(x) == Bits(x0) + 32 - r;
    if x < 0x100_0000 {
      BitsTimes256(x);
      x, r := 0x100 * x, r - 8;
    }
    assert Bits(x) == Bits(x0) + 32 - r;
    if x < 0x1000_0000 {
      BitsTimes16(x);
      x, r := 16 * x, r - 4;
    }
    assert Bits(x) == Bits(x0) + 32 - r;
    if x < 0x4000_0000 {
      BitsTimes4(x);
      x, r := 4 * x, r - 2;
    }
    assert Bits(x) == Bits(x0) + 32 - r;
    if x < 0x8000_0000 {
      BitsTimes2(x);
      x, r := 2 * x, r - 1;
    }
    TopBit(x);
  }

  predicate IsPow2(x: nat) {
    x == 1 || (x > 1 && x % 2 == 0 && IsPow2(x / 2))
  }

  /** The size `dos_fifo_create` gives the buffer for a request of `n` bytes: `n`
      when `n & (n - 1)` is zero, that is when n is a power of two, and otherwise
      `_dos_fifo_align(n)`. */
  method FifoSize(n: nat) returns (size: nat)
    requires 0 < n < WORD
    ensures IsPow2(size) && size <= n < 2 * size
  {
    if IsPow2(n) {
      size := n;
    } else {
      var r := FindLastBitSet(n - 1);
      size := Pow2(r - 1);
      BitsBound(n - 1);
      Pow2IsPow2(r - 1);
      Pow2IsPow2(r);
    }
  }

  lemma {:induction false} Pow2IsPow2(k: nat)
    ensures IsPow2(Pow2(k))
  {
    if k > 0 {
      Pow2IsPow2(k - 1);
    }
  }

  // ---- Index arithmetic ------------------------------------------------------------------

  lemma {:induction false} HalfOrLess(n: nat, m: nat)
    requires IsPow2(n) && IsPow2(m) && n < m
    ensures m % 2 == 0 && IsPow2(m / 2) && n <= m / 2
    decreases m
  {
    if n > 1 {
      HalfOrLess(n / 2, m / 2);
    }
  }

  /** An index masked to the buffer is the element's cell, although the index
      itself has wrapped at 2^32. */
  lemma {:induction false} NestedPos(n: nat, m: nat, x: nat)
    requires IsPow2(n) && IsPow2(m) && n <= m
    ensures Pos(n, Pos(m, x)) == Pos(n, x)
    decreases m
  {
    if n < m {
      HalfOrLess(n, m);
      NestedPos(n, m / 2, x);
      NestedPos(n, m / 2, Pos(m, x));
      PosTwice(m / 2, x);
    }
  }

  lemma {:induction false} WordIsPow2()
    ensures IsPow2(WORD)
  {
    Pow2IsPow2(32);
    assert Pow2(16) == 0x1_0000 by { assert Pow2(8) == 0x100 by { assert Pow2(4) == 16; } }
    assert Pow2(24) == 0x100_0000;
    assert Pow2(32) == WORD;
  }

  // ---- The buffer ------------------------------------------------------------------------------

  /** `dst[at..at + |src|]` becomes `src`: one memcpy into the buffer. */
  function Splice(dst: seq<byte>, at: nat, src: seq<byte>): (r: seq<byte>)
    requires at + |src| <= |dst|
    ensures |r| == |dst|
    ensures forall i :: 0 <= i < |src| ==> r[at + i] == src[i]
    ensures forall i :: 0 <= i < |dst| && !(at <= i < at + |src|) ==> r[i] == dst[i]
  {
    dst[..at] + src + dst[at + |src|..]
  }

  /** The two copies of `dos_fifo_write`, the cell of the first byte being `at`. */
  function Store(buf: seq<byte>, at: nat, d: seq<byte>): (r: seq<byte>)
    requires at < |buf| && |d| <= |buf|
    ensures |r| == |buf|
  {
    var l := Min(|d|, |buf| - at);
    Splice(Splice(buf, at, d[..l]), 0, d[l..])
  }

  /** The two copies of `dos_fifo_read`. */
  function Fetch(buf: seq<byte>, at: nat, n: nat): (d: seq<byte>)
    requires at < |buf| && n <= |buf|
    ensures |d| == n
  {
    var l := Min(n, |buf| - at);
    buf[at..at + l] + buf[..n - l]
  }

  /** Cells are counted on from `at`, wrapping at the end of the buffer. */
  function Cell(size: nat, at: nat, i: nat): (c: nat)
    requires at < size && i < size
    ensures c < size
  {
    if at + i < size then at + i else at + i - size
  }

  lemma {:induction false} StoreCells(buf: seq<byte>, at: nat, d: seq<byte>, i: nat)
    requires at < |buf| && |d| <= |buf| && i < |buf|
    ensures Store(buf, at, d)[Cell(|buf|, at, i)] == if i < |d| then d[i] else buf[Cell(|buf|, at, i)]
  {
    var l := Min(|d|, |buf| - at);
    var first := Splice(buf, at, d[..l]);
    var c := Cell(|buf|, at, i);
    if at + i < |buf| {
      assert i < |d| ==> first[at + i] == d[..l][i];
    } else {
      assert i < |d| ==> Splice(first, 0, d[l..])[0 + c] == d[l..][c];
    }
  }

  lemma {:induction false} FetchCells(buf: seq<byte>, at: nat, n: nat, i: nat)
    requires at < |buf| && i < n <= |buf|
    ensures Fetch(buf, at, n)[i] == buf[Cell(|buf|, at, i)]
  {
  }

  lemma {:induction false} CellIsPos(size: nat, a: nat, i: nat)
    requires i < size
    ensures Cell(size, Pos(size, a), i) == Pos(size, a + i)
    decreases a
  {
    if a >= size {
      CellIsPos(size, a - size, i);
    }
  }

  /** The byte in the cell of element number a + i. */
  function At(buf: seq<byte>, a: nat, i: nat): byte
    requires 0 < |buf|
  {
    buf[Pos(|buf|, a + i)]
  }

  /** The buffer holds `d` in the cells of the elements from number `a` on. */
  ghost predicate Holds(buf: seq<byte>, a: nat, d: seq<byte>) {
    0 < |buf| && |d| <= |buf| && forall i :: 0 <= i < |d| ==> At(buf, a, i) == d[i]
  }

  lemma {:induction false} FetchedAt(buf: seq<byte>, a: nat, n: nat, i: nat)
    requires i < n <= |buf|
    ensures Fetch(buf, Pos(|buf|, a), n)[i] == At(buf, a, i)
  {
    FetchCells(buf, Pos(|buf|, a), n, i);
    CellIsPos(|buf|, a, i);
  }

  lemma {:induction false} HoldsFetched(buf: seq<byte>, a: nat, d: seq<byte>, n: nat)
    requires Holds(buf, a, d) && n <= |d|
    ensures Fetch(buf, Pos(|buf|, a), n) == d[..n]
  {
    forall i | 0 <= i < n
      ensures Fetch(buf, Pos(|buf|, a), n)[i] == d[i]
    {
      FetchedAt(buf, a, n, i);
    }
  }

  lemma {:induction false} HoldsConcat(buf: seq<byte>, a: nat, x: seq<byte>, y: seq<byte>)
    requires Holds(buf, a, x) && Holds(buf, a + |x|, y) && |x| + |y| <= |buf|
    ensures Holds(buf, a, x + y)
  {
    forall i | |x| <= i < |x| + |y|
      ensures At(buf, a, i) == (x + y)[i]
    {
      assert At(buf, a + |x|, i - |x|) == y[i - |x|];
    }
  }

  lemma {:induction false} HoldsRest(buf: seq<byte>, a: nat, x: seq<byte>, k: nat)
    requires Holds(buf, a, x) && k <= |x|
    ensures Holds(buf, a + k, x[k..])
  {
    forall i | 0 <= i < |x| - k
      ensures At(buf, a + k, i) == x[k..][i]
    {
      assert At(buf, a, k + i) == x[k + i];
    }
  }

  // ---- One writer and one reader --------------------------------------------------------------

  /** Where a write is: sized to `d`, with the first `done` bytes copied. */
  datatype Writer = NoWrite | Storing(d: seq<byte>, done: nat)

  /** Where a read is: sized to n bytes, with the bytes `d` copied out. */
  datatype Reader = NoRead | Fetching(n: nat, d: seq<byte>)

  /** `head` and `tail` are the indices `in` and `out`. `written` and `read` are
      all bytes ever put in and taken out. */
  datatype State = State(buf: seq<byte>, head: nat, tail: nat, w: Writer, r: Reader,
                         written: seq<byte>, read: seq<byte>)

  function Create(size: nat): (s: State)
    ensures IsPow2(size) && size < WORD ==> Inv(s)
  {
    State(seq(size, _ => 0), 0, 0, NoWrite, NoRead, [], [])
  }

  /** The first section of `dos_fifo_write`: as much as there is room for. */
  function BeginWrite(s: State, d: seq<byte>): State
    requires |s.buf| < WORD && s.head < WORD && s.tail < WORD
  {
    s.(w := Storing(d[..Min(|d|, Add32(Sub32(|s.buf|, s.head), s.tail))], 0))
  }

  /** The next byte of the two copies. */
  function CopyIn(s: State): State
    requires s.w.Storing? && s.w.done < |s.w.d| <= |s.buf|
  {
    s.(buf := s.buf[Cell(|s.buf|, Pos(|s.buf|, s.head), s.w.done) := s.w.d[s.w.done]], w := Storing(s.w.d, s.w.done + 1))
  }

  function EndWrite(s: State): State
    requires s.w.Storing? && s.head < WORD && |s.w.d| < WORD
  {
    s.(head := Add32(s.head, |s.w.d|), w := NoWrite, written := s.written + s.w.d)
  }

  /** The first section of `dos_fifo_read`: as much as there is. */
  function BeginRead(s: State, n: nat): State
    requires s.head < WORD && s.tail < WORD
  {
    s.(r := Fetching(Min(n, Sub32(s.head, s.tail)), []))
  }

  function CopyOut(s: State): State
    requires s.r.Fetching? && |s.r.d| < s.r.n <= |s.buf|
  {
    s.(r := Fetching(s.r.n, s.r.d + [s.buf[Cell(|s.buf|, Pos(|s.buf|, s.tail), |s.r.d|)]]))
  }

  function EndRead(s: State): State
    requires s.r.Fetching? && s.tail < WORD && |s.r.d| < WORD
  {
    s.(tail := Add32(s.tail, |s.r.d|), r := NoRead, read := s.read + s.r.d)
  }

  // ---- The invariant ------------------------------------------------------------------------------

  /** The size is a power of two below 2^32, and the indices are the running
      totals modulo 2^32. */
  ghost predicate Indices(size: nat, head: nat, tail: nat, a: nat, b: nat) {
    && IsPow2(size) && size < WORD && b <= a <= b + size
    && head == Pos(WORD, a) && tail == Pos(WORD, b)
  }

  /** What was put in and not yet taken out. */
  function Rest(s: State): seq<byte>
    requires |s.read| <= |s.written|
  {
    s.written[|s.read|..]
  }

  /** A write in progress fits, and what is copied is in the cells it will occupy. */
  ghost predicate Writing(buf: seq<byte>, w: Writer, a: nat, b: nat) {
    w.Storing? ==> a + |w.d| <= b + |buf| && w.done <= |w.d| && Holds(buf, a, w.d[..w.done])
  }

  /** A read in progress is covered by what has been put in. */
  ghost predicate Reading(r: Reader, rest: seq<byte>) {
    r.Fetching? ==> |r.d| <= r.n <= |rest| && r.d == rest[..|r.d|]
  }

  /** What was taken out is a prefix of what was put in, and the rest is in the
      buffer. */
  ghost predicate Inv(s: State) {
    && Indices(|s.buf|, s.head, s.tail, |s.written|, |s.read|)
    && s.read <= s.written && Holds(s.buf, |s.read|, Rest(s))
    && Writing(s.buf, s.w, |s.written|, |s.read|) && Reading(s.r, Rest(s))
  }

  /** The unsigned differences give the filling and the room, wraps or not, and
      the masked indices the cells. */
  lemma {:induction false} IndexMeaning(size: nat, head: nat, tail: nat, a: nat, b: nat)
    requires Indices(size, head, tail, a, b)
    ensures Sub32(head, tail) == a - b && Add32(Sub32(size, head), tail) == size - (a - b)
    ensures Pos(size, head) == Pos(size, a) && Pos(size, tail) == Pos(size, b)
  {
    PosDistance(WORD, a, b);
    WordIsPow2();
    NestedPos(size, WORD, a);
    NestedPos(size, WORD, b);
  }

  lemma {:induction false} IndexMoves(a: nat, n: nat)
    requires n < WORD
    ensures Add32(Pos(WORD, a), n) == Pos(WORD, a + n)
  {
    CellIsPos(WORD, a, n);
  }

  lemma {:induction false} BeginWriteInv(s: State, d: seq<byte>)
    requires Inv(s)
    ensures Inv(BeginWrite(s, d))
  {
    IndexMeaning(|s.buf|, s.head, s.tail, |s.written|, |s.read|);
  }

  lemma {:induction false} BeginReadInv(s: State, n: nat)
    requires Inv(s)
    ensures Inv(BeginRead(s, n))
  {
    IndexMeaning(|s.buf|, s.head, s.tail, |s.written|, |s.read|);
  }

  /** One more byte goes behind what the buffer holds. */
  lemma {:induction false} HoldsOneMore(buf: seq<byte>, a: nat, x: seq<byte>, y: byte)
    requires |x| < |buf| && Holds(buf, a, x)
    ensures Holds(buf[Pos(|buf|, a + |x|) := y], a, x + [y])
  {
    var after := buf[Pos(|buf|, a + |x|) := y];
    forall i | 0 <= i < |x|
      ensures At(after, a, i) == x[i]
    {
      PosDistinct(|buf|, a + i, a + |x|);
      assert At(buf, a, i) == x[i];
    }
  }

  /** A byte further on, but not around, leaves what the buffer holds alone. */
  lemma {:induction false} HoldsBehind(buf: seq<byte>, a: nat, x: seq<byte>, at: nat, y: byte)
    requires Holds(buf, a, x) && a + |x| <= at < a + |buf|
    ensures Holds(buf[Pos(|buf|, at) := y], a, x)
  {
    var after := buf[Pos(|buf|, at) := y];
    forall i | 0 <= i < |x|
      ensures At(after, a, i) == x[i]
    {
      PosDistinct(|buf|, a + i, at);
      assert At(buf, a, i) == x[i];
    }
  }

  lemma {:induction false} CopyInInv(s: State)
    requires Inv(s) && s.w.Storing? && s.w.done < |s.w.d|
    ensures Inv(CopyIn(s))
  {
    var a, b, done := |s.written|, |s.read|, s.w.done;
    var buf := s.buf[Pos(|s.buf|, a + done) := s.w.d[done]];
    assert CopyIn(s).buf == buf by {
      IndexMeaning(|s.buf|, s.head, s.tail, a, b);
      CellIsPos(|s.buf|, a, done);
    }
    assert Holds(buf, a, s.w.d[..done + 1]) by {
      HoldsOneMore(s.buf, a, s.w.d[..done], s.w.d[done]);
      assert s.w.d[..done] + [s.w.d[done]] == s.w.d[..done + 1];
    }
    assert Holds(buf, b, Rest(s)) by {
      HoldsBehind(s.buf, b, Rest(s), a + done, s.w.d[done]);
    }
  }

  lemma {:induction false} CopyOutInv(s: State)
    requires Inv(s) && s.r.Fetching? && |s.r.d| < s.r.n
    ensures Inv(CopyOut(s))
  {
    var k := |s.r.d|;
    IndexMeaning(|s.buf|, s.head, s.tail, |s.written|, |s.read|);
    CellIsPos(|s.buf|, |s.read|, k);
    assert At(s.buf, |s.read|, k) == Rest(s)[k];
    assert Rest(s)[..k] + [Rest(s)[k]] == Rest(s)[..k + 1];
  }

  lemma {:induction false} EndWriteInv(s: State)
    requires Inv(s) && s.w.Storing? && s.w.done == |s.w.d|
    ensures Inv(EndWrite(s))
  {
    assert s.w.d[..s.w.done] == s.w.d;
    IndexMoves(|s.written|, |s.w.d|);
    HoldsConcat(s.buf, |s.read|, Rest(s), s.w.d);
    assert Rest(EndWrite(s)) == Rest(s) + s.w.d;
  }

  lemma {:induction false} EndReadInv(s: State)
    requires Inv(s) && s.r.Fetching? && |s.r.d| == s.r.n
    ensures Inv(EndRead(s))
  {
    IndexMoves(|s.read|, |s.r.d|);
    HoldsRest(s.buf, |s.read|, Rest(s), |s.r.d|);
    assert Rest(EndRead(s)) == Rest(s)[|s.r.d|..];
  }

  // ---- Runs -------------------------------------------------------------------------------------

  datatype Op = WriteSome(d: seq<byte>) | CopyByteIn | PublishIn | ReadSome(n: nat) | CopyByteOut | PublishOut

  /** The mutexes admit one writer and one reader at a time; either side's
      sections follow each other. */
  predicate Enabled(s: State, op: Op) {
    match op
    case WriteSome(_) => s.w.NoWrite?
    case CopyByteIn => s.w.Storing? && s.w.done < |s.w.d|
    case PublishIn => s.w.Storing? && s.w.done == |s.w.d|
    case ReadSome(_) => s.r.NoRead?
    case CopyByteOut => s.r.Fetching? && |s.r.d| < s.r.n
    case PublishOut => s.r.Fetching? && |s.r.d| == s.r.n
  }

  ghost function Step(s: State, op: Op): (t: State)
    requires Inv(s) && Enabled(s, op)
    ensures Inv(t)
  {
    match op
    case WriteSome(d) =>
      BeginWriteInv(s, d);
      BeginWrite(s, d)
    case CopyByteIn =>
      CopyInInv(s);
      CopyIn(s)
    case PublishIn =>
      EndWriteInv(s);
      EndWrite(s)
    case ReadSome(n) =>
      BeginReadInv(s, n);
      BeginRead(s, n)
    case CopyByteOut =>
      CopyOutInv(s);
      CopyOut(s)
    case PublishOut =>
      EndReadInv(s);
      EndRead(s)
  }

  ghost predicate Feasible(s: State, ops: seq<Op>)
    requires Inv(s)
    decreases |ops|
  {
    ops == [] || (Enabled(s, ops[0]) && Feasible(Step(s, ops[0]), ops[1..]))
  }

  ghost function Exec(s: State, ops: seq<Op>): (t: State)
    requires Inv(s) && Feasible(s, ops)
    ensures Inv(t)
    decreases |ops|
  {
    if ops == [] then s else Exec(Step(s, ops[0]), ops[1..])
  }

  /** Over every interleaving of one writer and one reader, across every wrap of
      the buffer and of the 32-bit indices, the bytes taken out are a prefix of
      the bytes put in, and the rest, at most a bufferful, is what the next reads
      will get. */
  lemma {:induction false} BytesInOrder(size: nat, ops: seq<Op>)
    requires IsPow2(size) && size < WORD && Feasible(Create(size), ops)
    ensures var s := Exec(Create(size), ops);
            && s.read <= s.written && |s.written| - |s.read| <= |s.buf|
            && Sub32(s.head, s.tail) == |s.written| - |s.read|
            && (|s.buf| > 0 ==> Fetch(s.buf, Pos(|s.buf|, s.tail), |Rest(s)|) == Rest(s))
  {
    var s := Exec(Create(size), ops);
    IndexMeaning(|s.buf|, s.head, s.tail, |s.written|, |s.read|);
    HoldsFetched(s.buf, |s.read|, Rest(s), |Rest(s)|);
    assert Rest(s)[..|Rest(s)|] == Rest(s);
  }

  // ---- Refinement of a plain queue of bytes --------------------------------------------------------

  /** A plain queue of at most `size` bytes: what is in it, what a write in progress will put in, how much
      a read in progress will take out, and all that was taken out. */
  datatype Plain = Plain(queue: seq<byte>, coming: seq<byte>, going: nat, out: seq<byte>)

  /** A write and a read are sized when they begin and done when they end; copying does nothing. */
  function PlainStep(p: Plain, size: nat, op: Op): Plain {
    match op
    case WriteSome(d) => p.(coming := if |p.queue| <= size then d[..Min(|d|, size - |p.queue|)] else [])
    case PublishIn => p.(queue := p.queue + p.coming)
    case ReadSome(n) => p.(going := Min(n, |p.queue|))
    case PublishOut =>
      var n := Min(p.going, |p.queue|);
      p.(queue := p.queue[n..], out := p.out + p.queue[..n])
    case _ => p
  }

  function PlainRun(p: Plain, size: nat, ops: seq<Op>): Plain
    decreases |ops|
  {
    if ops == [] then p else PlainRun(PlainStep(p, size, ops[0]), size, ops[1..])
  }

  ghost predicate Refines(s: State, p: Plain) {
    && |s.read| <= |s.written| && p.queue == Rest(s) && p.out == s.read
    && (s.w.Storing? ==> p.coming == s.w.d) && (s.r.Fetching? ==> p.going == s.r.n)
  }

  lemma {:induction false} StepRefines(s: State, op: Op, p: Plain)
    requires Inv(s) && Enabled(s, op) && Refines(s, p)
    ensures Refines(Step(s, op), PlainStep(p, |s.buf|, op)) && |Step(s, op).buf| == |s.buf|
  {
    match op
    case WriteSome(d) => WriteRefines(s, d, p);
    case CopyByteIn =>
    case PublishIn => assert Rest(EndWrite(s)) == Rest(s) + s.w.d;
    case ReadSome(n) => ReadRefines(s, n, p);
    case CopyByteOut =>
    case PublishOut => PublishRefines(s, p);
  }

  lemma {:induction false} WriteRefines(s: State, d: seq<byte>, p: Plain)
    requires Inv(s) && Refines(s, p)
    ensures Refines(BeginWrite(s, d), PlainStep(p, |s.buf|, WriteSome(d)))
  {
    IndexMeaning(|s.buf|, s.head, s.tail, |s.written|, |s.read|);
  }

  lemma {:induction false} ReadRefines(s: State, n: nat, p: Plain)
    requires Inv(s) && Refines(s, p)
    ensures Refines(BeginRead(s, n), PlainStep(p, |s.buf|, ReadSome(n)))
  {
    IndexMeaning(|s.buf|, s.head, s.tail, |s.written|, |s.read|);
  }

  lemma {:induction false} PublishRefines(s: State, p: Plain)
    requires Inv(s) && Refines(s, p) && s.r.Fetching? && |s.r.d| == s.r.n
    ensures |s.r.d| < WORD && Refines(EndRead(s), PlainStep(p, |s.buf|, PublishOut))
  {
    EndReadInv(s);
    assert Rest(EndRead(s)) == Rest(s)[|s.r.d|..];
  }

  lemma {:induction false} RunRefines(s: State, ops: seq<Op>, p: Plain)
    requires Inv(s) && Feasible(s, ops) && Refines(s, p)
    ensures Refines(Exec(s, ops), PlainRun(p, |s.buf|, ops))
    decreases |ops|
  {
    if ops != [] {
      StepRefines(s, ops[0], p);
      RunRefines(Step(s, ops[0]), ops[1..], PlainStep(p, |s.buf|, ops[0]));
    }
  }

  /** Over every interleaving of one writer and one reader, the ring buffer with its wrapping indices takes
      in and gives out the bytes that a plain queue of that size does. */
  lemma {:induction false} RunRefinesPlain(size: nat, ops: seq<Op>)
    requires IsPow2(size) && size < WORD && Feasible(Create(size), ops)
    ensures var s, p := Exec(Create(size), ops), PlainRun(Plain([], [], 0, []), size, ops);
            s.read == p.out && s.written == p.out + p.queue
  {
    RunRefines(Create(size), ops, Plain([], [], 0, []));
  }

  function Room(s: State): nat
    requires |s.buf| < WORD && s.head < WORD && s.tail < WORD
  {
    Add32(Sub32(|s.buf|, s.head), s.tail)
  }

  /** All bytes that are left to copy. */
  function CopiedIn(s: State): State
    requires s.w.Storing? && s.w.done <= |s.w.d| <= |s.buf|
    decreases |s.w.d| - s.w.done
  {
    if s.w.done == |s.w.d| then s else CopiedIn(CopyIn(s))
  }

  lemma {:induction false} CopiedInInv(s: State)
    requires Inv(s) && s.w.Storing?
    ensures Inv(CopiedIn(s)) && CopiedIn(s) == s.(buf := CopiedIn(s).buf, w := Storing(s.w.d, |s.w.d|))
    decreases |s.w.d| - s.w.done
  {
    if s.w.done < |s.w.d| {
      CopyInInv(s);
      CopiedInInv(CopyIn(s));
    }
  }

  lemma {:induction false} CellDistinct(size: nat, at: nat, i: nat, j: nat)
    requires at < size && i < size && j < size && i != j
    ensures Cell(size, at, i) != Cell(size, at, j)
  {
  }

  lemma {:induction false} CopiedInAt(s: State, i: nat)
    requires s.w.Storing? && s.w.done <= |s.w.d| <= |s.buf| && i < |s.buf|
    ensures |CopiedIn(s).buf| == |s.buf|
    ensures var c := Cell(|s.buf|, Pos(|s.buf|, s.head), i);
            CopiedIn(s).buf[c] == if s.w.done <= i < |s.w.d| then s.w.d[i] else s.buf[c]
    decreases |s.w.d| - s.w.done
  {
    if s.w.done < |s.w.d| {
      if i != s.w.done {
        CellDistinct(|s.buf|, Pos(|s.buf|, s.head), s.w.done, i);
      }
      CopiedInAt(CopyIn(s), i);
    }
  }

  /** Byte by byte comes to the same as the two copies in one go. */
  lemma {:induction false} CopiedInStores(s: State)
    requires s.w.Storing? && s.w.done == 0 && |s.w.d| <= |s.buf| && 0 < |s.buf|
    ensures CopiedIn(s).buf == Store(s.buf, Pos(|s.buf|, s.head), s.w.d)
  {
    var n, at, r := |s.buf|, Pos(|s.buf|, s.head), Store(s.buf, Pos(|s.buf|, s.head), s.w.d);
    CopiedInAt(s, 0);
    forall c | 0 <= c < n
      ensures CopiedIn(s).buf[c] == r[c]
    {
      var i := if c >= at then c - at else c - at + n;
      assert Cell(n, at, i) == c;
      CopiedInAt(s, i);
      StoreCells(s.buf, at, s.w.d, i);
    }
  }

  /** A write from begin to end. */
  function WriteAll(s: State, d: seq<byte>): State
    requires 0 < |s.buf| < WORD && s.head < WORD && s.tail < WORD && Room(s) <= |s.buf|
  {
    var e := d[..Min(|d|, Room(s))];
    s.(buf := Store(s.buf, Pos(|s.buf|, s.head), e), head := Add32(s.head, |e|), written := s.written + e)
  }

  lemma {:induction false} WriteAllAppends(s: State, d: seq<byte>)
    requires 0 < |s.buf| < WORD && s.head < WORD && s.tail < WORD && Room(s) <= |s.buf| && |s.read| <= |s.written|
    ensures Rest(WriteAll(s, d)) == Rest(s) + d[..Min(|d|, Room(s))]
  {
  }

  lemma {:induction false} WriteAllInv(s: State, d: seq<byte>)
    requires Inv(s) && s.w.NoWrite?
    ensures Room(s) == |s.buf| - |Rest(s)| && Inv(WriteAll(s, d))
  {
    assert Room(s) == |s.buf| - |Rest(s)| by {
      IndexMeaning(|s.buf|, s.head, s.tail, |s.written|, |s.read|);
    }
    BeginWriteInv(s, d);
    var t := BeginWrite(s, d);
    CopiedInInv(t);
    CopiedInStores(t);
    EndWriteInv(CopiedIn(t));
    assert EndWrite(CopiedIn(t)) == WriteAll(s, d);
  }

  /** The bytes of a read all copied out. */
  function CopiedOut(s: State): State
    requires s.r.Fetching? && s.r.n <= |s.buf| && 0 < |s.buf|
  {
    s.(r := Fetching(s.r.n, Fetch(s.buf, Pos(|s.buf|, s.tail), s.r.n)))
  }

  lemma {:induction false} CopiedOutInv(s: State)
    requires Inv(s) && s.r.Fetching?
    ensures Inv(CopiedOut(s))
  {
    IndexMeaning(|s.buf|, s.head, s.tail, |s.written|, |s.read|);
    HoldsFetched(s.buf, |s.read|, Rest(s), s.r.n);
  }

  /** A read from begin to end. */
  ghost function AfterRead(s: State, n: nat): (t: State)
    requires Inv(s)
    ensures Inv(t)
  {
    BeginReadInv(s, n);
    CopiedOutInv(BeginRead(s, n));
    EndReadInv(CopiedOut(BeginRead(s, n)));
    EndRead(CopiedOut(BeginRead(s, n)))
  }

  lemma {:induction false} AfterReadTakes(s: State, n: nat)
    requires Inv(s) && s.r.NoRead?
    ensures Sub32(s.head, s.tail) == |Rest(s)| <= |s.buf|
    ensures var d := Fetch(s.buf, Pos(|s.buf|, s.tail), Min(n, Sub32(s.head, s.tail)));
            && AfterRead(s, n) == s.(tail := Add32(s.tail, |d|), read := s.read + d)
            && Rest(s) == d + Rest(AfterRead(s, n))
  {
    IndexMeaning(|s.buf|, s.head, s.tail, |s.written|, |s.read|);
    HoldsFetched(s.buf, |s.read|, Rest(s), Min(n, Sub32(s.head, s.tail)));
  }

  // ---- The fifo object -----------------------------------------------------------------------------

  class ByteFifo {
    var size: nat
    var buffer: seq<byte>
    var head: nat
    var tail: nat
    ghost var written: seq<byte>
    ghost var read: seq<byte>

    ghost function View(): State
      reads this
    {
      State(buffer, head, tail, NoWrite, NoRead, written, read)
    }

    ghost predicate Valid()
      reads this
    {
      Inv(View()) && size == |buffer| > 0
    }

    ghost function Contents(): seq<byte>
      requires Valid()
      reads this
    {
      Rest(View())
    }

    /** `dos_fifo_create` for a non-zero request that fits a 32-bit size. */
    constructor (request: nat)
      requires 0 < request < WORD
      ensures Valid() && Contents() == [] && size <= request < 2 * size
    {
      var n := FifoSize(request);
      size := n;
      buffer := seq(n, _ => 0);
      head, tail := 0, 0;
      written, read := [], [];
      new;
    }

    /** `dos_fifo_write` in one go: it appends what there is room for. */
    method Write(d: seq<byte>) returns (len: nat)
      requires Valid()
      modifies this
      ensures Valid() && size == old(size)
      ensures len == Min(|d|, size - |old(Contents())|)
      ensures Contents() == old(Contents()) + d[..len]
    {
      WriteAllInv(View(), d);
      WriteAllAppends(View(), d);
      ghost var after := WriteAll(View(), d);
      len := Min(|d|, Add32(Sub32(size, head), tail));
      var e := d[..len];
      buffer, head, written := Store(buffer, Pos(size, head), e), Add32(head, |e|), written + e;
      assert View() == after;
    }

    /** `dos_fifo_read` in one go: it takes the oldest bytes. */
    method Read(n: nat) returns (d: seq<byte>)
      requires Valid()
      modifies this
      ensures Valid() && size == old(size)
      ensures |d| == Min(n, |old(Contents())|) && old(Contents()) == d + Contents()
    {
      ghost var after := AfterRead(View(), n);
      AfterReadTakes(View(), n);
      var len := Min(n, Sub32(head, tail));
      d := Fetch(buffer, Pos(size, tail), len);
      tail := Add32(tail, |d|);
      read := read + d;
      assert View() == after;
    }
  }
}
