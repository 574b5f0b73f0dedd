/** Runs as sequences of operations. */
module Runs {

  /** What is left of a run that goes on with `op`, after its first operation. */
  lemma {:induction false} Prolonged<Op>(ops: seq<Op>, op: Op)
    ensures (ops + [op])[0] == if ops == [] then op else ops[0]
    ensures (ops + [op])[1..] == if ops == [] then [] else ops[1..] + [op]
  {
    if ops != [] {
      assert ops + [op] == [ops[0]] + (ops[1..] + [op]);
    }
  }

  lemma {:induction false} Joined<Op>(a: seq<Op>, b: seq<Op>)
    ensures a == [] ==> a + b == b
    ensures a != [] ==> (a + b)[0] == a[0] && (a + b)[1..] == a[1..] + b
  {
  }
}
