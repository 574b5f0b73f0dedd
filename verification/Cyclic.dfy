/** Positions in a buffer of `n` cells that is filled round and round. */
module Cyclic {

  /** The cell of the j-th element: j modulo n. */
  function Pos(n: nat, j: nat): (p: nat)
    requires n > 0
    ensures p < n
    decreases j
  {
    if j < n then j else Pos(n, j - n)
  }

  /** Advancing by one cell wraps at the end of the buffer. */
  lemma {:induction false} PosNext(n: nat, j: nat)
    requires n > 0
    ensures Pos(n, j + 1) == if Pos(n, j) + 1 == n then 0 else Pos(n, j) + 1
    decreases j
  {
    if j >= n {
      PosNext(n, j - n);
    }
  }

  /** Elements less than n apart are in different cells. */
  lemma {:induction false} PosDistinct(n: nat, i: nat, j: nat)
    requires i < j < i + n
    ensures Pos(n, i) != Pos(n, j)
    decreases j
  {
    if n <= i {
      PosDistinct(n, i - n, j - n);
    }
  }

  /** The distance of two elements survives the wrap of their positions. */
  lemma {:induction false} PosDistance(n: nat, a: nat, b: nat)
    requires b <= a < b + n
    ensures Pos(n, a) - Pos(n, b) == a - b || Pos(n, a) - Pos(n, b) == a - b - n
    decreases a
  {
    if b >= n {
      PosDistance(n, a - n, b - n);
    }
  }

  /** Wrapping at twice the size first makes no difference. */
  lemma {:induction false} PosTwice(n: nat, x: nat)
    requires n > 0
    ensures Pos(n, Pos(2 * n, x)) == Pos(n, x)
    decreases x
  {
    if x >= 2 * n {
      PosTwice(n, x - 2 * n);
    }
  }
}
