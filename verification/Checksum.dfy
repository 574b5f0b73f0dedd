/** The Internet checksum (common/lwip/core/inet_chksum.c) on a little-endian
    host, after RFC 1071. */
module Checksum {

  import opened Machine

  // ---- One's complement arithmetic on 16-bit words -------------------------------------

  /** The 16-bit one's complement value of an unbounded sum: the sum itself with
      its carries wrapped around, zero only for zero. */
  function Ones(x: nat): (r: nat)
    ensures r <= 0xFFFF
    ensures r == 0 <==> x == 0
    decreases x
  {
    if x <= 0xFFFF then x else Ones(x - 0xFFFF)
  }

  lemma {:induction false} OnesShift(x: nat, k: nat)
    requires x > 0
    ensures Ones(x + 0xFFFF * k) == Ones(x)
    decreases k
  {
    if k > 0 {
      OnesShift(x, k - 1);
      assert x + 0xFFFF * k - 0xFFFF == x + 0xFFFF * (k - 1);
    }
  }

  /** How many times the carry wrapped. */
  function Wraps(x: nat): (k: nat)
    ensures x == Ones(x) + 0xFFFF * k
    decreases x
  {
    if x <= 0xFFFF then 0 else 1 + Wraps(x - 0xFFFF)
  }

  /** Wrapping the carries of one summand early makes no difference. */
  lemma {:induction false} OnesAdd(x: nat, y: nat)
    ensures Ones(Ones(x) + y) == Ones(x + y)
  {
    if x > 0 {
      OnesShift(Ones(x) + y, Wraps(x));
    }
  }

  lemma {:induction false} OnesTimes256(x: nat)
    ensures Ones(256 * Ones(x)) == Ones(256 * x)
  {
    if x > 0 {
      OnesShift(256 * Ones(x), 256 * Wraps(x));
    }
  }

  /** `FOLD_U32T` */
  function Fold(x: nat): nat {
    x / 0x1_0000 + x % 0x1_0000
  }

  lemma {:induction false} FoldOnes(x: nat)
    ensures Ones(Fold(x)) == Ones(x)
    ensures x < WORD ==> Fold(x) <= 0x1_FFFE
    ensures x <= 0x1_FFFE ==> Fold(x) == Ones(x)
  {
    var h := x / 0x1_0000;
    assert x == Fold(x) + 0xFFFF * h;
    if x > 0 {
      OnesShift(Fold(x), h);
    }
  }

  /** `SWAP_BYTES_IN_WORD` and `lwip_htons` */
  function Swap(x: nat): (r: nat)
    ensures r < 0x1_0000
  {
    (x % 256) * 256 + (x / 256) % 256
  }

  /** Swapping the bytes multiplies by 256. */
  lemma {:induction false} SwapOnes(x: nat)
    ensures Swap(Ones(x)) == Ones(256 * x)
  {
    var y := Ones(x);
    OnesTimes256(x);
    assert 256 * y == Swap(y) + 0xFFFF * (y / 256);
    if y > 0 {
      OnesShift(Swap(y), y / 256);
    }
  }

  /** Swapping twice is the identity: 256 * 256 is 1 modulo 0xFFFF. */
  lemma {:induction false} OnesTimes65536(x: nat)
    ensures Ones(0x1_0000 * x) == Ones(x)
  {
    if x > 0 {
      OnesShift(x, x);
    }
  }

  // ---- The sum of a byte sequence -------------------------------------------------------

  /** The little-endian word of two bytes. */
  function Word(low: nat, high: nat): nat {
    low + 256 * high
  }

  /** The sum of the little-endian 16-bit words, an odd last byte being padded. */
  function Sum(d: seq<byte>): nat {
    if |d| == 0 then 0 else if |d| == 1 then Word(d[0], 0) else Word(d[0], d[1]) + Sum(d[2..])
  }

  /** The same of the big-endian words: the words as they are on the wire. */
  function WireSum(d: seq<byte>): nat {
    if |d| == 0 then 0 else if |d| == 1 then Word(0, d[0]) else Word(d[1], d[0]) + WireSum(d[2..])
  }

  /** The checksum before its final complement, in host order. */
  function Check(d: seq<byte>): (r: nat)
    ensures r <= 0xFFFF
  {
    Ones(Sum(d))
  }

  lemma {:induction false} SumBound(d: seq<byte>)
    ensures 2 * Sum(d) <= 0xFFFF * (|d| + 1) && 2 * WireSum(d) <= 0xFFFF * (|d| + 1)
    ensures |d| % 2 == 0 ==> 2 * Sum(d) <= 0xFFFF * |d| && 2 * WireSum(d) <= 0xFFFF * |d|
  {
    if |d| > 1 {
      SumBound(d[2..]);
    }
  }

  /** The wire words are the host words with their bytes swapped, so by section 1
      of RFC 1071 so is their sum. */
  lemma {:induction false} WireOnes(d: seq<byte>)
    ensures WireSum(d) == 0 <==> Sum(d) == 0
    ensures exists k: nat :: 256 * WireSum(d) == Sum(d) + 0xFFFF * k
  {
    if |d| == 1 {
      var k: nat := d[0];
      assert 256 * WireSum(d) == Sum(d) + 0xFFFF * k;
    } else if |d| > 1 {
      WireOnes(d[2..]);
      var k: nat :| 256 * WireSum(d[2..]) == Sum(d[2..]) + 0xFFFF * k;
      var k': nat := k + d[0];
      assert 256 * WireSum(d) == Sum(d) + 0xFFFF * k';
    } else {
      assert 256 * WireSum(d) == Sum(d) + 0xFFFF * 0;
    }
  }

  lemma {:induction false} WireIsSwapped(d: seq<byte>, x: nat)
    ensures Ones(x + 256 * WireSum(d)) == Ones(x + Sum(d))
  {
    WireOnes(d);
    var k: nat :| 256 * WireSum(d) == Sum(d) + 0xFFFF * k;
    if x + Sum(d) > 0 {
      OnesShift(x + Sum(d), k);
    }
  }

  /** Behind an even number of bytes the host words add up; behind an odd number
      the wire words do. */
  lemma {:induction false} SumConcat(a: seq<byte>, b: seq<byte>)
    ensures Sum(a + b) == Sum(a) + if |a| % 2 == 0 then Sum(b) else WireSum(b)
    ensures WireSum(a + b) == WireSum(a) + if |a| % 2 == 0 then WireSum(b) else Sum(b)
  {
    if |a| == 0 {
      assert a + b == b;
    } else if |a| == 1 {
      assert a == [a[0]];
      OddStart(a[0], b);
    } else {
      assert (a + b)[2..] == a[2..] + b;
      SumConcat(a[2..], b);
    }
  }

  lemma {:induction false} OddStart(x: byte, b: seq<byte>)
    ensures Sum([x] + b) == x + WireSum(b) && WireSum([x] + b) == 256 * x + Sum(b)
    decreases |b|
  {
    var d := [x] + b;
    if |b| == 1 {
      assert d[2..] == [];
    } else if |b| > 1 {
      assert d[2..] == [b[1]] + b[2..];
      OddStart(b[1], b[2..]);
    }
  }

  // ---- The three versions of lwip_standard_chksum -------------------------------------------

  /** The most bytes version 2 is good for. */
  const MAX_LEN: nat := 0x2_0000

  /** A sum of at most half a word fits the 32-bit accumulator. */
  lemma {:induction false} SumFits(d: seq<byte>)
    requires |d| <= MAX_LEN
    ensures Sum(d) < WORD && WireSum(d) < WORD
  {
    SumBound(d);
  }

  /** Version 1: big-endian words byte by byte, then a swap. */
  method Version1(d: seq<byte>) returns (r: nat)
    requires |d| <= MAX_LEN
    ensures r == Check(d)
  {
    var acc: nat, i: nat := 0, 0;
    while |d| - i > 1
      invariant 0 <= i <= |d| && i % 2 == 0 && acc == WireSum(d[..i])
    {
      SumFits(d[..i + 2]);
      WordAppended(d, i);
      acc := Add32(acc, Word(d[i + 1], d[i]));
      i := i + 2;
    }
    if |d| - i > 0 {
      SumFits(d);
      ByteAppended(d, i);
      acc := Add32(acc, Word(0, d[i]));
    }
    assert d[..|d|] == d;
    SumFits(d);
    FoldOnes(acc);
    acc := Fold(acc);
    if acc / 0x1_0000 != 0 {
      FoldOnes(acc);
      acc := Fold(acc);
    }
    SwapOnes(WireSum(d));
    WireIsSwapped(d, 0);
    r := Swap(acc);
  }

  lemma {:induction false} WordAppended(d: seq<byte>, i: nat)
    requires i % 2 == 0 && i + 1 < |d|
    ensures Sum(d[..i + 2]) == Sum(d[..i]) + Word(d[i], d[i + 1])
    ensures WireSum(d[..i + 2]) == WireSum(d[..i]) + Word(d[i + 1], d[i])
  {
    assert d[..i + 2] == d[..i] + [d[i], d[i + 1]];
    SumConcat(d[..i], [d[i], d[i + 1]]);
  }

  lemma {:induction false} ByteAppended(d: seq<byte>, i: nat)
    requires i % 2 == 0 && i + 1 == |d|
    ensures Sum(d) == Sum(d[..i]) + Word(d[i], 0)
    ensures WireSum(d) == WireSum(d[..i]) + Word(0, d[i])
  {
    assert d == d[..i] + [d[i]];
    SumConcat(d[..i], [d[i]]);
  }

  /** The sum of the words at even addresses, for data starting at an odd or an
      even one. */
  function AlignedSum(odd: bool, d: seq<byte>): nat {
    if odd then WireSum(d) else Sum(d)
  }

  lemma {:induction false} AlignedWord(odd: bool, d: seq<byte>, i: nat)
    requires i % 2 == (if odd then 1 else 0) && i + 1 < |d|
    ensures AlignedSum(odd, d[..i + 2]) == AlignedSum(odd, d[..i]) + Word(d[i], d[i + 1])
  {
    assert d[..i + 2] == d[..i] + [d[i], d[i + 1]];
    SumConcat(d[..i], [d[i], d[i + 1]]);
  }

  lemma {:induction false} AlignedByte(odd: bool, d: seq<byte>, i: nat)
    requires i % 2 == (if odd then 1 else 0) && i + 1 == |d|
    ensures AlignedSum(odd, d) == AlignedSum(odd, d[..i]) + d[i]
  {
    assert d == d[..i] + [d[i]];
    SumConcat(d[..i], [d[i]]);
  }

  /** The last lines of versions 2 and 3: two folds, and a swap for an odd start. */
  method Finish(odd: bool, sum: nat, ghost d: seq<byte>) returns (r: nat)
    requires sum < WORD && Ones(sum) == Ones(AlignedSum(odd, d))
    ensures r == Check(d)
  {
    FoldOnes(sum);
    var once := Fold(sum);
    FoldOnes(once);
    r := Fold(once);
    if odd {
      SwapOnes(WireSum(d));
      WireIsSwapped(d, 0);
      r := Swap(r);
    }
  }

  /** What version 2 has added up in front of `i`: `t` is the byte in front of the
      first even address, `sum` the words. */
  ghost predicate Gathered(odd: bool, d: seq<byte>, i: nat, t: nat, sum: nat) {
    && i <= |d|
    && (i % 2 == (if odd then 1 else 0) || |d| == 0)
    && t % 256 == 0
    && t + sum == AlignedSum(odd, d[..i])
  }

  lemma {:induction false} GatheredFirst(d: seq<byte>)
    requires |d| > 0
    ensures Gathered(true, d, 1, Word(0, d[0]), 0)
  {
    assert d[..1] == [d[0]];
  }

  lemma {:induction false} GatheredWord(odd: bool, d: seq<byte>, i: nat, t: nat, sum: nat)
    requires |d| <= MAX_LEN && i + 1 < |d| && Gathered(odd, d, i, t, sum)
    ensures sum + Word(d[i], d[i + 1]) < WORD
    ensures Gathered(odd, d, i + 2, t, sum + Word(d[i], d[i + 1]))
  {
    AlignedWord(odd, d, i);
    SumFits(d[..i + 2]);
  }

  /** The low byte of `t` is free for a last byte. */
  lemma {:induction false} GatheredByte(odd: bool, d: seq<byte>, i: nat, t: nat, sum: nat)
    requires i + 1 == |d| && Gathered(odd, d, i, t, sum)
    ensures Word(d[i], t / 256) + sum == AlignedSum(odd, d)
  {
    AlignedByte(odd, d, i);
  }

  /** Version 2: host words at even addresses. The accumulator never overflows. */
  method Version2(odd: bool, d: seq<byte>) returns (r: nat)
    requires |d| <= MAX_LEN
    ensures r == Check(d)
  {
    var t: nat, sum: nat, i: nat := 0, 0, 0;
    if odd && |d| > 0 {
      t := Word(0, d[0]);
      i := 1;
      GatheredFirst(d);
    }
    while |d| - i > 1
      invariant Gathered(odd, d, i, t, sum)
    {
      GatheredWord(odd, d, i, t, sum);
      sum := Add32(sum, Word(d[i], d[i + 1]));
      i := i + 2;
    }
    if |d| - i > 0 {
      GatheredByte(odd, d, i, t, sum);
      t := Word(d[i], t / 256);
    } else {
      assert d[..i] == d;
    }
    SumFits(d);
    sum := Add32(sum, t);
    r := Finish(odd, sum, d);
  }

  /** The little-endian 32-bit word at offset `i`. */
  function Word32(d: seq<byte>, i: nat): (w: nat)
    requires i + 3 < |d|
    ensures w < WORD
  {
    Word(d[i], d[i + 1]) + 0x1_0000 * Word(d[i + 2], d[i + 3])
  }

  /** 32-bit addition with the carry added back. */
  function AddCarry(a: nat, b: nat): (r: nat)
    requires a < WORD && b < WORD
    ensures r < WORD
  {
    var tmp := Add32(a, b);
    if tmp < a then tmp + 1 else tmp
  }

  /** 2^32 - 1 is a multiple of 2^16 - 1, so this too keeps the 16-bit value. */
  lemma {:induction false} AddCarryOnes(x: nat, a: nat, b: nat)
    requires a < WORD && b < WORD
    ensures Ones(x + AddCarry(a, b)) == Ones(x + a + b)
  {
    if a + b >= WORD {
      OnesShift(x + AddCarry(a, b), 0x1_0001);
    }
  }

  lemma {:induction false} Word32Ones(x: nat, d: seq<byte>, i: nat)
    requires i + 3 < |d|
    ensures Ones(x + Word32(d, i)) == Ones(x + Word(d[i], d[i + 1]) + Word(d[i + 2], d[i + 3]))
  {
    var low, high := Word(d[i], d[i + 1]), Word(d[i + 2], d[i + 3]);
    if x + low + high > 0 {
      OnesShift(x + low + high, high);
    }
  }

  lemma {:induction false} OnesPlus(x: nat, y: nat, z: nat)
    requires Ones(x) == Ones(y)
    ensures Ones(x + z) == Ones(y + z)
  {
    OnesAdd(x, z);
    OnesAdd(y, z);
  }

  /** One 32-bit load of the unrolled loop. */
  lemma {:induction false} Load32(odd: bool, d: seq<byte>, i: nat, t: nat, sum: nat)
    requires i % 2 == (if odd then 1 else 0) && i + 3 < |d| && sum < WORD
    requires Ones(t + sum) == Ones(AlignedSum(odd, d[..i]))
    ensures Ones(t + AddCarry(sum, Word32(d, i))) == Ones(AlignedSum(odd, d[..i + 4]))
  {
    AddCarryOnes(t, sum, Word32(d, i));
    Word32Ones(t + sum, d, i);
    AlignedWord(odd, d, i);
    AlignedWord(odd, d, i + 2);
    OnesPlus(t + sum, AlignedSum(odd, d[..i]), Word(d[i], d[i + 1]) + Word(d[i + 2], d[i + 3]));
  }

  /** Offset `i` is at an even address, and `sum` stands for the bytes before it,
      `t` being the odd head byte. */
  ghost predicate Upto(odd: bool, d: seq<byte>, i: nat, t: nat, sum: nat) {
    && i <= |d| && (i % 2 == (if odd then 1 else 0) || |d| == 0)
    && Ones(t + sum) == Ones(AlignedSum(odd, d[..i]))
  }

  lemma {:induction false} UptoWord(odd: bool, d: seq<byte>, i: nat, t: nat, sum: nat)
    requires Upto(odd, d, i, t, sum) && i + 1 < |d|
    ensures Upto(odd, d, i + 2, t, sum + Word(d[i], d[i + 1]))
  {
    AlignedWord(odd, d, i);
    OnesPlus(t + sum, AlignedSum(odd, d[..i]), Word(d[i], d[i + 1]));
  }

  lemma {:induction false} UptoRound(odd: bool, d: seq<byte>, i: nat, t: nat, sum: nat)
    requires Upto(odd, d, i, t, sum) && i + 7 < |d| && sum < WORD
    ensures Upto(odd, d, i + 8, t, AddCarry(AddCarry(sum, Word32(d, i)), Word32(d, i + 4)))
  {
    Load32(odd, d, i, t, sum);
    Load32(odd, d, i + 4, t, AddCarry(sum, Word32(d, i)));
  }

  lemma {:induction false} UptoEnd(odd: bool, d: seq<byte>, i: nat, t: nat, sum: nat)
    requires Upto(odd, d, i, t, sum) && |d| <= i + 1 && t % 256 == 0
    ensures var t' := if i < |d| then Word(d[i], t / 256) else t;
            Ones(sum + t') == Ones(AlignedSum(odd, d))
  {
    if i < |d| {
      AlignedByte(odd, d, i);
      OnesPlus(t + sum, AlignedSum(odd, d[..i]), d[i]);
      assert Word(d[i], t / 256) == t + d[i];
    } else {
      assert d[..i] == d;
    }
  }

  /** Version 3: eight bytes a round, for data of any length starting at any
      address. */
  method Version3(address: nat, d: seq<byte>) returns (r: nat)
    ensures r == Check(d)
  {
    var odd := address % 2 == 1;
    var t, sum, i := Head(address, odd, d);
    sum, i := Rounds(odd, d, i, t, sum);
    FoldOnes(sum);
    OnesPlus(Fold(sum), sum, t);
    sum := Fold(sum);
    sum, i := Words(odd, d, i, t, sum);
    UptoEnd(odd, d, i, t, sum);
    if |d| - i > 0 {
      t := Word(d[i], t / 256);
    }
    sum := Add32(sum, t);
    r := Finish(odd, sum, d);
  }

  /** The bytes in front of the first multiple of four. */
  method Head(address: nat, odd: bool, d: seq<byte>) returns (t: nat, sum: nat, i: nat)
    requires odd <==> address % 2 == 1
    ensures t % 256 == 0 && t < 0x1_0000 && sum < 0x1_0000 && Upto(odd, d, i, t, sum)
  {
    t, sum, i := 0, 0, 0;
    if odd && |d| > 0 {
      t := Word(0, d[0]);
      i := 1;
      assert d[..1] == [d[0]];
    }
    if (address + i) % 4 != 0 && |d| - i > 1 {
      UptoWord(odd, d, i, t, 0);
      sum := Word(d[i], d[i + 1]);
      i := i + 2;
    }
  }

  /** The unrolled loop. */
  method Rounds(odd: bool, d: seq<byte>, start: nat, t: nat, sum0: nat) returns (sum: nat, i: nat)
    requires sum0 < WORD && Upto(odd, d, start, t, sum0)
    ensures sum < WORD && |d| <= i + 7 && Upto(odd, d, i, t, sum)
  {
    sum, i := sum0, start;
    while |d| - i > 7
      invariant sum < WORD && Upto(odd, d, i, t, sum)
    {
      UptoRound(odd, d, i, t, sum);
      var tmp := AddCarry(sum, Word32(d, i));
      sum := AddCarry(tmp, Word32(d, i + 4));
      i := i + 8;
    }
  }

  /** The words left, three at most. */
  method Words(odd: bool, d: seq<byte>, start: nat, t: nat, sum0: nat) returns (sum: nat, i: nat)
    requires |d| <= start + 7 && sum0 <= 0x1_FFFE && Upto(odd, d, start, t, sum0)
    ensures sum <= 0x6_0000 && |d| <= i + 1 && Upto(odd, d, i, t, sum)
  {
    sum, i := sum0, start;
    while |d| - i > 1
      invariant start <= i && sum <= 0x1_FFFE + 0x8000 * (i - start) && Upto(odd, d, i, t, sum)
    {
      UptoWord(odd, d, i, t, sum);
      sum := Add32(sum, Word(d[i], d[i + 1]));
      i := i + 2;
    }
  }

  // ---- Checksums over pbuf chains --------------------------------------------------------------

  /** The payload of one pbuf of a chain and whether it starts at an odd address. */
  datatype Frag = Frag(odd: bool, data: seq<byte>)

  function Flat(chain: seq<Frag>): seq<byte> {
    if chain == [] then [] else chain[0].data + Flat(chain[1..])
  }

  lemma {:induction false} FlatSnoc(chain: seq<Frag>, i: nat)
    requires i < |chain|
    ensures Flat(chain[..i + 1]) == Flat(chain[..i]) + chain[i].data
  {
    if i == 0 {
      assert chain[..1][1..] == [];
    } else {
      assert chain[..i + 1][1..] == chain[1..][..i] && chain[..i][1..] == chain[1..][..i - 1];
      FlatSnoc(chain[1..], i - 1);
    }
  }

  /** What the accumulator holds after the bytes `d` on top of `base`: their sum,
      or that sum with its bytes swapped. */
  function Held(swapped: bool, base: nat, d: seq<byte>): nat {
    if swapped then Ones(256 * (base + Sum(d))) else Ones(base + Sum(d))
  }

  /** Adding the checksum of the next fragment. The accumulator is swapped
      exactly when the fragment starts at an odd offset. */
  lemma {:induction false} HeldAdd(swapped: bool, base: nat, d: seq<byte>, q: seq<byte>)
    requires swapped <==> |d| % 2 == 1
    ensures Fold(Held(swapped, base, d) + Check(q)) == Held(swapped, base, d + q)
  {
    var acc, total := Held(swapped, base, d), base + Sum(d);
    FoldOnes(acc + Check(q));
    OnesAdd(Sum(q), acc);
    HeldBehind(swapped, base, d, q);
    if swapped {
      SwappedAdd(total, q);
    } else {
      OnesAdd(total, Sum(q));
    }
  }

  lemma {:induction false} HeldBehind(swapped: bool, base: nat, d: seq<byte>, q: seq<byte>)
    requires swapped <==> |d| % 2 == 1
    ensures Held(swapped, base, d + q)
         == Ones(if swapped then 256 * (base + Sum(d) + WireSum(q)) else base + Sum(d) + Sum(q))
  {
    SumConcat(d, q);
  }

  /** Adding bytes to a swapped sum adds their network-order sum to the sum itself. */
  lemma {:induction false} SwappedAdd(x: nat, q: seq<byte>)
    ensures Ones(Ones(256 * x) + Sum(q)) == Ones(256 * (x + WireSum(q)))
  {
    OnesAdd(256 * x, Sum(q));
    WireIsSwapped(q, 256 * x);
    assert 256 * (x + WireSum(q)) == 256 * x + 256 * WireSum(q);
  }

  lemma {:induction false} HeldSwap(swapped: bool, base: nat, d: seq<byte>)
    ensures Swap(Held(swapped, base, d)) == Held(!swapped, base, d)
  {
    var x := base + Sum(d);
    if swapped {
      SwapOnes(256 * x);
      OnesTimes65536(x);
      assert 256 * (256 * x) == 0x1_0000 * x;
    } else {
      SwapOnes(x);
    }
  }

  /** One round of the loops over a chain: the first `n` bytes of the fragment are
      added, and whether to swap is decided from its whole length. */
  method AddFrag(acc0: nat, swapped0: bool, q: Frag, n: nat, ghost base: nat, ghost d: seq<byte>)
    returns (acc: nat, swapped: bool)
    requires n <= |q.data| <= 0xFFFF && acc0 == Held(swapped0, base, d) && (swapped0 <==> |d| % 2 == 1)
    ensures acc == Held(swapped, base, d + q.data[..n])
    ensures swapped <==> swapped0 != (|q.data| % 2 != 0)
  {
    acc, swapped := acc0, swapped0;
    var c := Version2(q.odd, q.data[..n]);
    HeldAdd(swapped, base, d, q.data[..n]);
    acc := Fold(acc + c);
    if |q.data| % 2 != 0 {
      HeldSwap(swapped, base, d + q.data[..n]);
      swapped := !swapped;
      acc := Swap(acc);
    }
  }

  /** The loop over the chain in `inet_chksum_pbuf` and `inet_cksum_pseudo_base`. */
  method AddChain(chain: seq<Frag>, base: nat) returns (acc: nat)
    requires base <= 0xFFFF && forall q :: q in chain ==> |q.data| <= 0xFFFF
    ensures acc == Ones(base + Sum(Flat(chain)))
  {
    acc := base;
    var swapped := false;
    for i := 0 to |chain|
      invariant acc == Held(swapped, base, Flat(chain[..i]))
      invariant swapped <==> |Flat(chain[..i])| % 2 == 1
    {
      FlatSnoc(chain, i);
      assert chain[i].data[..|chain[i].data|] == chain[i].data;
      acc, swapped := AddFrag(acc, swapped, chain[i], |chain[i].data|, base, Flat(chain[..i]));
    }
    assert chain[..|chain|] == chain;
    if swapped {
      HeldSwap(swapped, base, Flat(chain));
      acc := Swap(acc);
    }
  }

  /** The first n bytes, or all of them. */
  function Upfront(d: seq<byte>, n: nat): seq<byte> {
    d[..if n < |d| then n else |d|]
  }

  /** One round of `inet_cksum_pseudo_partial_base`: a fragment, cut if it is too long. */
  method AddPart(acc0: nat, swapped0: bool, chain: seq<Frag>, i: nat, left: nat, ghost base: nat, ghost d: seq<byte>)
    returns (acc: nat, swapped: bool, n: nat)
    requires i < |chain| && 0 < left && |chain[i].data| <= 0xFFFF && d == Flat(chain[..i]) && base <= 0xFFFF
    requires acc0 == Held(swapped0, base, d) && (swapped0 <==> |d| % 2 == 1)
    ensures n == Min(left, |chain[i].data|) && acc == Held(swapped, base, d + chain[i].data[..n])
    ensures d + chain[i].data[..n] <= Flat(chain)
    ensures n < left ==> d + chain[i].data[..n] == Flat(chain[..i + 1]) && (swapped <==> |d + chain[i].data[..n]| % 2 == 1)
  {
    var q := chain[i];
    n := if |q.data| > left then left else |q.data|;
    CutPrefix(chain, i, n);
    acc, swapped := AddFrag(acc0, swapped0, q, n, base, d);
  }

  /** The loop in `inet_cksum_pseudo_partial_base`, which stops after `chksumLen`
      bytes and may cut the last fragment it looks at. */
  method AddPartOfChain(chain: seq<Frag>, base: nat, chksumLen: nat) returns (acc: nat)
    requires base <= 0xFFFF && forall q :: q in chain ==> |q.data| <= 0xFFFF
    ensures acc == Ones(base + Sum(Upfront(Flat(chain), chksumLen)))
  {
    acc := base;
    var swapped, left, i := false, chksumLen, 0;
    ghost var d: seq<byte> := [];
    while i < |chain| && left > 0
      invariant 0 <= i <= |chain| && 0 <= left && |d| + left == chksumLen
      invariant acc == Held(swapped, base, d)
      invariant left > 0 ==> d == Flat(chain[..i]) && (swapped <==> |d| % 2 == 1)
      invariant d <= Flat(chain)
    {
      var n;
      acc, swapped, n := AddPart(acc, swapped, chain, i, left, base, d);
      d := d + chain[i].data[..n];
      left := left - n;
      i := i + 1;
    }
    assert left > 0 ==> chain[..i] == chain;
    assert d == Flat(chain)[..|d|];
    if swapped {
      HeldSwap(swapped, base, d);
      acc := Swap(acc);
    }
  }

  /** What has been summed when fragment `i` is cut after `n` bytes. */
  lemma {:induction false} CutPrefix(chain: seq<Frag>, i: nat, n: nat)
    requires i < |chain| && n <= |chain[i].data|
    ensures Flat(chain[..i]) + chain[i].data[..n] <= Flat(chain)
    ensures n == |chain[i].data| ==> Flat(chain[..i]) + chain[i].data[..n] == Flat(chain[..i + 1])
  {
    FlatSnoc(chain, i);
    FlatPrefix(chain, i + 1);
    var d, q := Flat(chain[..i]), chain[i].data;
    assert d + q[..n] == (d + q)[..|d| + n];
  }

  lemma {:induction false} FlatPrefix(chain: seq<Frag>, i: nat)
    requires i <= |chain|
    ensures Flat(chain[..i]) <= Flat(chain)
    decreases |chain| - i
  {
    if i == |chain| {
      assert chain[..i] == chain;
    } else {
      FlatSnoc(chain, i);
      FlatPrefix(chain, i + 1);
    }
  }

  /** `inet_chksum_pbuf`: the checksum of the concatenated bytes, however they are
      cut into fragments. */
  method ChainChecksum(chain: seq<Frag>) returns (r: nat)
    requires forall q :: q in chain ==> |q.data| <= 0xFFFF
    ensures r == 0xFFFF - Check(Flat(chain))
  {
    var acc := AddChain(chain, 0);
    r := 0xFFFF - acc;
  }

  // ---- Pseudo headers -----------------------------------------------------------------------

  /** The bytes of a 16-bit length. */
  function High(x: nat): byte
    requires x <= 0xFFFF
  {
    x / 256
  }

  function Low(x: nat): byte
    requires x <= 0xFFFF
  {
    x % 256
  }

  /** The IPv4 pseudo header of TCP and UDP. */
  function PseudoHeader(src: seq<byte>, dst: seq<byte>, proto: byte, len: nat): (h: seq<byte>)
    requires |src| == |dst| == 4 && len <= 0xFFFF
    ensures |h| == 12
  {
    src + dst + Trailer(proto, len)
  }

  function Trailer(proto: byte, len: nat): (t: seq<byte>)
    requires len <= 0xFFFF
    ensures |t| == 4
  {
    [0, proto, High(len), Low(len)]
  }

  /** The two words of an IPv4 address in network order. */
  function AddressSum(a: seq<byte>): nat
    requires |a| == 4
  {
    Word(a[0], a[1]) + Word(a[2], a[3])
  }

  lemma {:induction false} FourBytes(a: seq<byte>)
    requires |a| == 4
    ensures Sum(a) == AddressSum(a)
  {
    var b := a[2..];
    assert b[2..] == [] && b[0] == a[2] && b[1] == a[3];
    assert Sum(a) == Word(a[0], a[1]) + Sum(b) && Sum(b) == Word(b[0], b[1]) + Sum(b[2..]);
  }

  lemma {:induction false} SwapIsWord(x: nat)
    requires x <= 0xFFFF
    ensures Swap(x) == Word(High(x), Low(x))
  {
  }

  lemma {:induction false} TrailerSum(proto: byte, len: nat)
    requires len <= 0xFFFF
    ensures Sum(Trailer(proto, len)) == Swap(proto) + Swap(len)
  {
    FourBytes(Trailer(proto, len));
    SwapIsWord(len);
    SwapIsWord(proto);
    assert High(proto) == 0 && Low(proto) == proto;
  }

  lemma {:induction false} PseudoHeaderSum(src: seq<byte>, dst: seq<byte>, proto: byte, len: nat)
    requires |src| == |dst| == 4 && len <= 0xFFFF
    ensures Sum(PseudoHeader(src, dst, proto, len)) == AddressSum(src) + AddressSum(dst) + (Swap(proto) + Swap(len))
  {
    var addresses := src + dst;
    assert Sum(addresses) == AddressSum(src) + AddressSum(dst) by {
      SumConcat(src, dst);
      FourBytes(src);
      FourBytes(dst);
    }
    assert PseudoHeader(src, dst, proto, len) == addresses + Trailer(proto, len);
    SumConcat(addresses, Trailer(proto, len));
    TrailerSum(proto, len);
  }

  /** The start of `inet_chksum_pseudo`: both addresses, folded. */
  method FoldAddresses(src: seq<byte>, dst: seq<byte>) returns (acc: nat)
    requires |src| == |dst| == 4
    ensures acc == Ones(AddressSum(src) + AddressSum(dst))
  {
    acc := Word(src[0], src[1]);
    acc := acc + Word(src[2], src[3]);
    acc := acc + Word(dst[0], dst[1]);
    acc := acc + Word(dst[2], dst[3]);
    FoldOnes(acc);
    FoldOnes(Fold(acc));
    acc := Fold(Fold(acc));
  }

  /** The end of the two pseudo header checksums, `x` being what was summed. */
  method Complete(acc0: nat, proto: byte, len: nat, ghost x: nat) returns (r: nat)
    requires acc0 == Ones(x) && len <= 0xFFFF
    ensures r == 0xFFFF - Ones(x + (Swap(proto) + Swap(len)))
  {
    var acc := acc0 + Swap(proto) + Swap(len);
    OnesAdd(x, Swap(proto) + Swap(len));
    FoldOnes(acc);
    FoldOnes(Fold(acc));
    acc := Fold(Fold(acc));
    r := 0xFFFF - acc;
  }

  lemma {:induction false} PseudoSum(src: seq<byte>, dst: seq<byte>, proto: byte, len: nat, d: seq<byte>)
    requires |src| == |dst| == 4 && len <= 0xFFFF
    ensures Ones(Ones(AddressSum(src) + AddressSum(dst)) + Sum(d)) == Ones(AddressSum(src) + AddressSum(dst) + Sum(d))
    ensures Sum(PseudoHeader(src, dst, proto, len) + d) ==
            AddressSum(src) + AddressSum(dst) + Sum(d) + (Swap(proto) + Swap(len))
  {
    OnesAdd(AddressSum(src) + AddressSum(dst), Sum(d));
    PseudoHeaderSum(src, dst, proto, len);
    SumConcat(PseudoHeader(src, dst, proto, len), d);
  }

  /** `inet_chksum_pseudo`: the checksum of pseudo header and data as one buffer. */
  method PseudoChecksum(chain: seq<Frag>, proto: byte, len: nat, src: seq<byte>, dst: seq<byte>) returns (r: nat)
    requires |src| == |dst| == 4 && len <= 0xFFFF && forall q :: q in chain ==> |q.data| <= 0xFFFF
    ensures r == 0xFFFF - Check(PseudoHeader(src, dst, proto, len) + Flat(chain))
  {
    var base := FoldAddresses(src, dst);
    var acc := AddChain(chain, base);
    PseudoSum(src, dst, proto, len, Flat(chain));
    r := Complete(acc, proto, len, AddressSum(src) + AddressSum(dst) + Sum(Flat(chain)));
  }

  /** `inet_chksum_pseudo_partial`: the same over the first `chksumLen` bytes. */
  method PartialChecksum(chain: seq<Frag>, proto: byte, len: nat, chksumLen: nat, src: seq<byte>, dst: seq<byte>)
    returns (r: nat)
    requires |src| == |dst| == 4 && len <= 0xFFFF && forall q :: q in chain ==> |q.data| <= 0xFFFF
    ensures r == 0xFFFF - Check(PseudoHeader(src, dst, proto, len) + Upfront(Flat(chain), chksumLen))
  {
    var base := FoldAddresses(src, dst);
    var acc := AddPartOfChain(chain, base, chksumLen);
    PseudoSum(src, dst, proto, len, Upfront(Flat(chain), chksumLen));
    r := Complete(acc, proto, len, AddressSum(src) + AddressSum(dst) + Sum(Upfront(Flat(chain), chksumLen)));
  }
}
