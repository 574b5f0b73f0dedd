/** A run of the message queue (src/queue.c) in which a token goes to a waiter that has timed out. */
module QueueRuns {
  import opened MessageQueue
  import opened PendList
  import opened Runs

  /** The run `ops` from `f` ends in `s`. */
  ghost predicate Reaches(f: State, ops: seq<Op>, s: State) {
    Inv(f) && Feasible(f, ops) && Exec(f, ops) == s
  }

  lemma {:induction false} ReachesNext(f: State, ops: seq<Op>, s: State, op: Op)
    requires Reaches(f, ops, s) && Inv(s) && Enabled(s, op)
    ensures Reaches(f, ops + [op], Step(s, op))
    decreases |ops|
  {
    Prolonged(ops, op);
    if ops != [] {
      ReachesNext(Step(f, ops[0]), ops[1..], s, op);
    }
  }

  /** A queue of one place, with these sides, late tasks and messages. */
  ghost predicate Looks(s: State, rd: Side, wr: Side, late: set<nat>, stock: nat) {
    Inv(s) && s.rd == rd && s.wr == wr && s.waits.late == late && Stock(s.buffer) == stock && s.buffer.len == 1
  }

  ghost predicate Writes(s: State) {
    2 in s.calls && s.calls[2] == Put([0])
  }

  lemma {:induction false} ReaderBlocks(f: State, ops: seq<Op>, s: State) returns (r: State)
    requires Reaches(f, ops, s) && Looks(s, Side(0, [], {}, {}, 0), Side(1, [], {}, {}, 0), {}, 0)
    ensures Reaches(f, ops + [Begin(1, Take(1), Ticks)], r) && 1 in r.waits.hasty
    ensures Looks(r, Side(0, [1], {}, {}, 0), Side(1, [], {}, {}, 0), {}, 0)
  {
    assert Queued([], s.value, 1) == [1];
    ReachesNext(f, ops, s, Begin(1, Take(1), Ticks));
    r := Step(s, Begin(1, Take(1), Ticks));
  }

  lemma {:induction false} ReaderTimesOut(f: State, ops: seq<Op>, s: State) returns (r: State)
    requires Reaches(f, ops, s) && Looks(s, Side(0, [1], {}, {}, 0), Side(1, [], {}, {}, 0), {}, 0) && 1 in s.waits.hasty
    ensures Reaches(f, ops + [TimeOut(1)], r) && Looks(r, Side(0, [1], {}, {}, 0), Side(1, [], {}, {}, 0), {1}, 0)
  {
    ReachesNext(f, ops, s, TimeOut(1));
    r := Step(s, TimeOut(1));
  }

  lemma {:induction false} PlaceTaken(s: State)
    requires s.wr == Side(1, [], {}, {}, 0)
    ensures var r := Reserve(s, 2, Put([0]), Never);
            && r.rd == s.rd && r.wr == Side(0, [], {2}, {}, 0) && r.waits.late == s.waits.late && r.buffer == s.buffer && Writes(r)
  {
    assert {} + {2} == {2};
  }

  lemma {:induction false} WriterTakes(f: State, ops: seq<Op>, s: State) returns (r: State)
    requires Reaches(f, ops, s) && Looks(s, Side(0, [1], {}, {}, 0), Side(1, [], {}, {}, 0), {1}, 0)
    ensures Reaches(f, ops + [Begin(2, Put([0]), Never)], r) && Writes(r)
    ensures Looks(r, Side(0, [1], {}, {}, 0), Side(0, [], {2}, {}, 0), {1}, 0)
  {
    PlaceTaken(s);
    ReachesNext(f, ops, s, Begin(2, Put([0]), Never));
    r := Step(s, Begin(2, Put([0]), Never));
  }

  lemma {:induction false} WriterCopies(f: State, ops: seq<Op>, s: State) returns (r: State)
    requires Reaches(f, ops, s) && Looks(s, Side(0, [1], {}, {}, 0), Side(0, [], {2}, {}, 0), {1}, 0) && Writes(s)
    ensures Reaches(f, ops + [CopyOne(2)], r) && Looks(r, Side(0, [1], {}, {}, 0), Side(0, [], {}, {2}, 0), {1}, 1) && Writes(r)
  {
    assert {2} - {2} == {} && {} + {2} == {2};
    ReachesNext(f, ops, s, CopyOne(2));
    r := Step(s, CopyOne(2));
  }

  lemma {:induction false} WriterWakes(f: State, ops: seq<Op>, s: State) returns (r: State)
    requires Reaches(f, ops, s) && Looks(s, Side(0, [1], {}, {}, 0), Side(0, [], {}, {2}, 0), {1}, 1) && Writes(s)
    ensures Reaches(f, ops + [Finish(2)], r) && Looks(r, Side(0, [], {}, {}, 1), Side(0, [], {}, {}, 0), {1}, 1)
  {
    assert {2} - {2} == {};
    ReachesNext(f, ops, s, Finish(2));
    r := Step(s, Finish(2));
  }

  lemma {:induction false} ReaderGivesUp(f: State, ops: seq<Op>, s: State) returns (r: State)
    requires Reaches(f, ops, s) && Looks(s, Side(0, [], {}, {}, 1), Side(0, [], {}, {}, 0), {1}, 1)
    ensures Reaches(f, ops + [GiveUp(1)], r) && Looks(r, Side(0, [], {}, {}, 1), Side(0, [], {}, {}, 0), {}, 1)
  {
    assert {1} - {1} == {};
    ReachesNext(f, ops, s, GiveUp(1));
    r := Step(s, GiveUp(1));
  }

  /** A reader blocks, times out, and is woken by a writer before it runs again. */
  function LosingRun(): seq<Op> {
    [] + [Begin(1, Take(1), Ticks)] + [TimeOut(1)] + [Begin(2, Put([0]), Never)] + [CopyOne(2)] + [Finish(2)] + [GiveUp(1)]
  }

  lemma {:induction false} LosingEnds(f: State) returns (s: State)
    requires Reaches(f, [], f) && Looks(f, Side(0, [], {}, {}, 0), Side(1, [], {}, {}, 0), {}, 0)
    ensures Reaches(f, LosingRun(), s) && Looks(s, Side(0, [], {}, {}, 1), Side(0, [], {}, {}, 0), {}, 1)
  {
    var ops: seq<Op> := [];
    s := ReaderBlocks(f, ops, f);
    ops := ops + [Begin(1, Take(1), Ticks)];
    s := ReaderTimesOut(f, ops, s);
    ops := ops + [TimeOut(1)];
    s := WriterTakes(f, ops, s);
    ops := ops + [Begin(2, Put([0]), Never)];
    s := WriterCopies(f, ops, s);
    ops := ops + [CopyOne(2)];
    s := WriterWakes(f, ops, s);
    s := ReaderGivesUp(f, ops + [Finish(2)], s);
  }

  lemma {:induction false} NewQueue(f: State)
    requires f == Create(1, 1, map[])
    ensures Reaches(f, [], f) && Looks(f, Side(0, [], {}, {}, 0), Side(1, [], {}, {}, 0), {}, 0)
  {
  }

  lemma {:induction false} NextReader(s: State)
    requires Looks(s, Side(0, [], {}, {}, 1), Side(0, [], {}, {}, 0), {}, 1)
    ensures !Conserved(s) && Reserve(s, 3, Take(1), Never) == s && Reserve(s, 3, Take(1), Forever).rd.pend == [3]
  {
    assert Queued([], s.value, 3) == [3];
  }

  /** After that run nobody is in a call and a message is stored, but a reader that comes is refused, or
      blocks, for want of a token. */
  lemma {:induction false} TimeOutLosesToken(f: State) returns (s: State)
    requires f == Create(1, 1, map[])
    ensures Reaches(f, LosingRun(), s)
    ensures Stock(s.buffer) == 1 && s.rd == Side(0, [], {}, {}, 1) && s.wr == Side(0, [], {}, {}, 0) && !Conserved(s)
    ensures Reserve(s, 3, Take(1), Never) == s && Reserve(s, 3, Take(1), Forever).rd.pend == [3]
  {
    NewQueue(f);
    s := LosingEnds(f);
    NextReader(s);
  }
}
