/** The message queue (src/queue.c) as a protocol between any number of readers
    and writers. A call runs in three critical sections: it reserves a token or
    blocks, copies one message, and signals the other side. A wait may time out;
    the waiter then stays in the pend list until it runs again and gives up. */
module MessageQueue {
  import opened Cyclic
  import opened Machine
  import opened PendList
  import opened TaskList

  // ---- The buffer -------------------------------------------------------------------

  /** `slots` is the buffer, one entry of `size` bytes per message, and `rptr` and
      `wptr` are `queue_rw_ptr` as slot numbers. `written` and `read` record what
      every copy stored and delivered, `sent` what the writers asked to store and
      `asked` how many bytes the readers had room for. */
  datatype Buffer = Buffer(len: nat, size: nat, slots: seq<seq<byte>>, rptr: nat, wptr: nat,
                           written: seq<seq<byte>>, sent: seq<seq<byte>>, read: seq<seq<byte>>, asked: seq<nat>)

  /** A message that is too long loses its end. */
  function Cut(msg: seq<byte>, size: nat): seq<byte> { msg[..Min(|msg|, size)] }

  /** A pointer moves on by one slot and wraps at the tail. */
  function Next(b: Buffer, ptr: nat): nat {
    if ptr + 1 == b.len then 0 else ptr + 1
  }

  /** `_dos_queue_copy` for a reader with room for `n` bytes. */
  function ReadSlot(b: Buffer, n: nat): Buffer
    requires b.rptr < |b.slots|
  {
    var slot := b.slots[b.rptr];
    b.(rptr := Next(b, b.rptr), read := b.read + [slot[..Min(n, |slot|)]], asked := b.asked + [n])
  }

  /** `_dos_queue_copy` for a writer: the first bytes of the slot are overwritten. */
  function WriteSlot(b: Buffer, msg: seq<byte>): Buffer
    requires b.wptr < |b.slots|
  {
    var n := Min(|msg|, |b.slots[b.wptr]|);
    var slot := msg[..n] + b.slots[b.wptr][n..];
    b.(wptr := Next(b, b.wptr), slots := b.slots[b.wptr := slot],
       written := b.written + [slot], sent := b.sent + [msg])
  }

  /** The number of unread messages. */
  function Stock(b: Buffer): int { |b.written| - |b.read| }

  /** The pointers stand at the next message to read and to write, and every
      unread message is where it was put. */
  ghost predicate Ring(b: Buffer) {
    && b.len > 0 && |b.slots| == b.len
    && (forall i :: 0 <= i < b.len ==> |b.slots[i]| == b.size)
    && 0 <= Stock(b) <= b.len && |b.sent| == |b.written|
    && b.rptr == Pos(b.len, |b.read|) && b.wptr == Pos(b.len, |b.written|)
    && forall j :: |b.read| <= j < |b.written| ==> b.slots[Pos(b.len, j)] == b.written[j]
  }

  /** What was read is what was written, in order, cut to the reader's size, and
      what was written starts with what the writer sent. */
  ghost predicate Faithful(b: Buffer) {
    && |b.asked| == |b.read| <= |b.written| == |b.sent|
    && (forall j :: 0 <= j < |b.read| ==> b.read[j] <= b.written[j] && |b.read[j]| == Min(b.asked[j], b.size))
    && (forall j :: 0 <= j < |b.written| ==> |b.written[j]| == b.size && Cut(b.sent[j], b.size) <= b.written[j])
  }

  lemma {:induction false} ReadSlotKeeps(b: Buffer, n: nat)
    requires Ring(b) && Faithful(b) && Stock(b) > 0
    ensures Ring(ReadSlot(b, n)) && Faithful(ReadSlot(b, n))
  {
    PosNext(b.len, |b.read|);
  }

  /** A writer never overwrites a message that is still to be read. */
  lemma {:induction false} WritesFreeSlot(b: Buffer, j: nat)
    requires Ring(b) && Stock(b) < b.len && |b.read| <= j < |b.written|
    ensures Pos(b.len, j) != b.wptr
  {
    PosDistinct(b.len, j, |b.written|);
  }

  lemma {:induction false} WriteSlotKeeps(b: Buffer, msg: seq<byte>)
    requires Ring(b) && Faithful(b) && Stock(b) < b.len
    ensures Ring(WriteSlot(b, msg)) && Faithful(WriteSlot(b, msg))
  {
    var r := WriteSlot(b, msg);
    PosNext(b.len, |b.written|);
    forall j | |b.read| <= j < |r.written|
      ensures r.slots[Pos(b.len, j)] == r.written[j]
    {
      if j < |b.written| {
        WritesFreeSlot(b, j);
      }
    }
  }

  // ---- The protocol -------------------------------------------------------------------

  datatype Dir = Read | Write

  /** What a call was made with: the reader's buffer size or the writer's bytes. */
  datatype Call = Take(n: nat) | Put(msg: seq<byte>)

  function DirOf(c: Call): Dir { if c.Take? then Read else Write }

  function SizeOf(c: Call): nat { if c.Take? then c.n else |c.msg| }

  /** `queue_rw_count` and `queue_pend_list` of one direction, the tasks that hold
      a token of that direction and have not copied yet, those that have copied
      and not signalled yet, and how many tokens went to waiters too late. */
  datatype Side = Side(count: nat, pend: seq<Task>, granted: set<Task>, moved: set<Task>, lost: nat)

  /** `calls` is the call each task makes or last made, `value` the priority it
      was created with. */
  datatype State = State(buffer: Buffer, rd: Side, wr: Side, calls: map<Task, Call>, value: map<Task, nat>, waits: Waits)

  /** `dos_queue_create` */
  function Create(len: nat, size: nat, value: map<Task, nat>): (s: State)
    ensures len > 0 ==> Inv(s)
  {
    State(Buffer(len, size, seq(len, _ => seq(size, _ => 0)), 0, 0, [], [], [], []),
          Side(0, [], {}, {}, 0), Side(len, [], {}, {}, 0), map[], value, Waits(map[], 0, {}, {}))
  }

  function Queued(pend: seq<Task>, value: map<Task, nat>, t: Task): seq<Task> {
    Inserted(pend, PendSlot(pend, value, t), t)
  }

  function SideOf(s: State, op: Dir): Side { if op == Read then s.rd else s.wr }

  function SetSide(s: State, op: Dir, side: Side): State {
    if op == Read then s.(rd := side) else s.(wr := side)
  }

  /** Take a token or queue up. */
  function Entered(side: Side, value: map<Task, nat>, t: Task): Side {
    if side.count == 0 then side.(pend := Queued(side.pend, value, t))
    else side.(count := side.count - 1, granted := side.granted + {t})
  }

  /** First section: take a token, queue up, or, without patience, give up. */
  function Reserve(s: State, t: Task, c: Call, wait: Patience): State {
    var side := SideOf(s, DirOf(c));
    if SizeOf(c) == 0 || (side.count == 0 && wait == Never) then s
    else SetSide(s, DirOf(c), Entered(side, s.value, t)).(calls := s.calls[t := c], waits := Called(s.waits, t, wait))
  }

  function Moved(side: Side, t: Task): Side {
    side.(granted := side.granted - {t}, moved := side.moved + {t})
  }

  /** Second section: copy one message. */
  function Copy(s: State, t: Task): State
    requires t in s.calls && s.buffer.rptr < |s.buffer.slots| && s.buffer.wptr < |s.buffer.slots|
  {
    match s.calls[t]
    case Take(n) => s.(buffer := ReadSlot(s.buffer, n), rd := Moved(s.rd, t))
    case Put(msg) => s.(buffer := WriteSlot(s.buffer, msg), wr := Moved(s.wr, t))
  }

  /** The first waiter has timed out: it will not take the token it is woken with. */
  predicate TooLate(side: Side, late: set<Task>) {
    side.pend != [] && side.pend[0] in late
  }

  /** The other side gets the token: its first waiter if it has one. */
  function Signalled(side: Side, late: set<Task>): Side {
    if side.pend == [] then side.(count := side.count + 1)
    else if TooLate(side, late) then side.(pend := side.pend[1..], lost := side.lost + 1)
    else side.(pend := side.pend[1..], granted := side.granted + {side.pend[0]})
  }

  function Left(side: Side, t: Task): Side {
    side.(moved := side.moved - {t})
  }

  /** Third section: signal the other side. */
  function Signal(s: State, t: Task): State
    requires t in s.calls
  {
    if s.calls[t].Take? then s.(rd := Left(s.rd, t), wr := Signalled(s.wr, s.waits.late))
    else s.(wr := Left(s.wr, t), rd := Signalled(s.rd, s.waits.late))
  }

  /** The tick makes a waiter ready whose time is up, and marks it. */
  function TimedOut(s: State, t: Task): State {
    s.(waits := s.waits.(late := s.waits.late + {t}))
  }

  /** The waiter runs again, takes itself off the pend list and returns DOS_NOK. */
  function GivenUp(s: State, t: Task): State {
    s.(rd := s.rd.(pend := Without(s.rd.pend, t)), wr := s.wr.(pend := Without(s.wr.pend, t)),
       waits := s.waits.(late := s.waits.late - {t}))
  }

  // ---- The invariant ----------------------------------------------------------------------

  /** Free places, writers about to fill one, readers that have just emptied one
      and stored messages add up to the length, but for the tokens lost; stored
      messages are the read tokens out or about to be given out, or lost. */
  ghost predicate Tokens(b: Buffer, rd: Side, wr: Side) {
    && wr.count + |wr.granted| + |rd.moved| + Stock(b) + wr.lost == b.len
    && rd.count + |rd.granted| + |wr.moved| + rd.lost == Stock(b)
  }

  ghost predicate In(side: Side, t: Task) {
    t in side.granted || t in side.moved || t in side.pend
  }

  /** A task is in one place only, and nobody waits while there is a token. */
  ghost predicate Orderly(side: Side) {
    && side.granted !! side.moved
    && (forall t :: t in side.pend ==> t !in side.granted && t !in side.moved)
    && (side.pend != [] ==> side.count == 0)
  }

  ghost predicate Calling(side: Side, calls: map<Task, Call>, op: Dir) {
    forall t :: In(side, t) ==> t in calls && DirOf(calls[t]) == op
  }

  /** A late task does not wait for ever and holds no token. */
  ghost predicate Overdue(side: Side, hasty: set<Task>, late: set<Task>) {
    forall t :: t in late ==> t in hasty && t !in side.granted && t !in side.moved
  }

  ghost predicate Inv(s: State) {
    && Ring(s.buffer) && Faithful(s.buffer) && Tokens(s.buffer, s.rd, s.wr)
    && Orderly(s.rd) && Orderly(s.wr)
    && InLine(s.rd.pend, s.value, s.waits.stamp, s.waits.arrivals) && InLine(s.wr.pend, s.value, s.waits.stamp, s.waits.arrivals)
    && Calling(s.rd, s.calls, Read) && Calling(s.wr, s.calls, Write)
    && Overdue(s.rd, s.waits.hasty, s.waits.late) && Overdue(s.wr, s.waits.hasty, s.waits.late)
  }

  lemma {:induction false} EnteredKeeps(side: Side, value: map<Task, nat>, stamp: map<Task, nat>, arrivals: nat, t: Task)
    requires Orderly(side) && InLine(side.pend, value, stamp, arrivals) && !In(side, t)
    ensures var r := Entered(side, value, t);
            && Orderly(r) && InLine(r.pend, value, stamp[t := arrivals], arrivals + 1)
            && r.count + |r.granted| == side.count + |side.granted| && r.moved == side.moved && r.lost == side.lost
            && (forall x :: In(r, x) <==> In(side, x) || x == t) && (forall x :: x in r.granted ==> x in side.granted || x == t)
  {
    if side.count == 0 {
      InLineInserted(side.pend, value, stamp, arrivals, t);
    } else {
      assert side.pend == [];
    }
  }

  lemma {:induction false} SignalledKeeps(side: Side, value: map<Task, nat>, stamp: map<Task, nat>, arrivals: nat, late: set<Task>)
    requires Orderly(side) && InLine(side.pend, value, stamp, arrivals)
    ensures var r := Signalled(side, late);
            && Orderly(r) && InLine(r.pend, value, stamp, arrivals)
            && r.count + |r.granted| + r.lost == side.count + |side.granted| + side.lost + 1 && r.moved == side.moved
            && (forall x :: In(r, x) ==> In(side, x)) && (forall x :: x in r.granted ==> x in side.granted || x !in late)
            && (r.lost == side.lost <==> !TooLate(side, late))
  {
    if side.pend != [] {
      InLineRest(side.pend, value, stamp, arrivals);
    }
  }

  lemma {:induction false} OtherSideKeeps(side: Side, value: map<Task, nat>, stamp: map<Task, nat>, arrivals: nat, t: Task)
    requires InLine(side.pend, value, stamp, arrivals) && !In(side, t)
    ensures InLine(side.pend, value, stamp[t := arrivals], arrivals + 1)
  {
    InLineFrame(side.pend, value, stamp, arrivals, value, stamp[t := arrivals], arrivals + 1);
  }

  lemma {:induction false} CalledKeeps(side: Side, calls: map<Task, Call>, t: Task, c: Call, op: Dir, side': Side, w: Waits,
                                       wait: Patience)
    requires Calling(side, calls, op) && !In(side, t) && Overdue(side, w.hasty, w.late) && t !in w.late
    requires forall x :: In(side', x) ==> In(side, x) || (x == t && DirOf(c) == op)
    requires side'.moved == side.moved && forall x :: x in side'.granted ==> x in side.granted || x == t
    ensures Calling(side', calls[t := c], op)
    ensures Overdue(side', Called(w, t, wait).hasty, Called(w, t, wait).late)
  {
  }

  lemma {:induction false} ReserveKeepsInv(s: State, t: Task, c: Call, wait: Patience)
    requires Inv(s) && !In(s.rd, t) && !In(s.wr, t) && t !in s.waits.late
    ensures Inv(Reserve(s, t, c, wait))
  {
    var r := Reserve(s, t, c, wait);
    if r != s {
      EnteredKeeps(SideOf(s, DirOf(c)), s.value, s.waits.stamp, s.waits.arrivals, t);
      OtherSideKeeps(SideOf(s, if DirOf(c) == Read then Write else Read), s.value, s.waits.stamp, s.waits.arrivals, t);
      CalledKeeps(s.rd, s.calls, t, c, Read, r.rd, s.waits, wait);
      CalledKeeps(s.wr, s.calls, t, c, Write, r.wr, s.waits, wait);
    }
  }

  /** A reader that holds a token finds a message. */
  lemma {:induction false} GrantedReaderHasMessage(s: State, t: Task)
    requires Inv(s) && t in s.rd.granted
    ensures Stock(s.buffer) > 0
  {
    assert |s.rd.granted| > 0;
  }

  /** A writer that holds a token finds a free slot. */
  lemma {:induction false} GrantedWriterHasRoom(s: State, t: Task)
    requires Inv(s) && t in s.wr.granted
    ensures Stock(s.buffer) < s.buffer.len
  {
    assert |s.wr.granted| > 0;
  }

  lemma {:induction false} CopyOutKeepsInv(s: State, t: Task)
    requires Inv(s) && t in s.rd.granted
    ensures t in s.calls && s.calls[t].Take? && Inv(Copy(s, t))
  {
    assert In(s.rd, t);
    GrantedReaderHasMessage(s, t);
    ReadSlotKeeps(s.buffer, s.calls[t].n);
  }

  lemma {:induction false} CopyInKeepsInv(s: State, t: Task)
    requires Inv(s) && t in s.wr.granted
    ensures t in s.calls && s.calls[t].Put? && Inv(Copy(s, t))
  {
    assert In(s.wr, t);
    GrantedWriterHasRoom(s, t);
    WriteSlotKeeps(s.buffer, s.calls[t].msg);
  }

  lemma {:induction false} SignalKeepsInv(s: State, t: Task)
    requires Inv(s) && (t in s.rd.moved || t in s.wr.moved)
    ensures t in s.calls && Inv(Signal(s, t))
  {
    assert In(s.rd, t) || In(s.wr, t);
    SignalledKeeps(s.rd, s.value, s.waits.stamp, s.waits.arrivals, s.waits.late);
    SignalledKeeps(s.wr, s.value, s.waits.stamp, s.waits.arrivals, s.waits.late);
  }

  lemma {:induction false} TimedOutKeepsInv(s: State, t: Task)
    requires Inv(s) && (t in s.rd.pend || t in s.wr.pend) && t in s.waits.hasty
    ensures Inv(TimedOut(s, t))
  {
    assert In(s.rd, t) || In(s.wr, t);
    assert !(In(s.rd, t) && In(s.wr, t));
  }

  lemma {:induction false} GivenUpKeepsInv(s: State, t: Task)
    requires Inv(s)
    ensures Inv(GivenUp(s, t))
  {
    InLineWithout(s.rd.pend, s.value, s.waits.stamp, s.waits.arrivals, t);
    InLineWithout(s.wr.pend, s.value, s.waits.stamp, s.waits.arrivals, t);
    var r := GivenUp(s, t);
    assert forall x :: In(r.rd, x) ==> In(s.rd, x);
    assert forall x :: In(r.wr, x) ==> In(s.wr, x);
    assert r.rd.pend != [] ==> r.rd.pend[0] in r.rd.pend;
    assert r.wr.pend != [] ==> r.wr.pend[0] in r.wr.pend;
  }

  // ---- Runs -----------------------------------------------------------------------------

  datatype Op =
    | Begin(t: Task, c: Call, wait: Patience)
    | CopyOne(t: Task)
    | Finish(t: Task)
    | TimeOut(t: Task)
    | GiveUp(t: Task)

  /** A task starts a call only when it is not in one, and its sections follow
      each other; the waits that are not for ever may time out. */
  ghost predicate Enabled(s: State, op: Op) {
    match op
    case Begin(t, _, _) => !In(s.rd, t) && !In(s.wr, t) && t !in s.waits.late
    case CopyOne(t) => t in s.rd.granted || t in s.wr.granted
    case Finish(t) => t in s.rd.moved || t in s.wr.moved
    case TimeOut(t) => (t in s.rd.pend || t in s.wr.pend) && t in s.waits.hasty && t !in s.waits.late
    case GiveUp(t) => t in s.waits.late
  }

  ghost function Step(s: State, op: Op): (r: State)
    requires Inv(s) && Enabled(s, op)
    ensures Inv(r)
  {
    match op
    case Begin(t, c, wait) =>
      ReserveKeepsInv(s, t, c, wait);
      Reserve(s, t, c, wait)
    case CopyOne(t) =>
      if t in s.rd.granted then
        CopyOutKeepsInv(s, t);
        Copy(s, t)
      else
        CopyInKeepsInv(s, t);
        Copy(s, t)
    case Finish(t) =>
      SignalKeepsInv(s, t);
      Signal(s, t)
    case TimeOut(t) =>
      TimedOutKeepsInv(s, t);
      TimedOut(s, t)
    case GiveUp(t) =>
      GivenUpKeepsInv(s, t);
      GivenUp(s, t)
  }

  ghost predicate Feasible(s: State, ops: seq<Op>)
    requires Inv(s)
    decreases |ops|
  {
    ops == [] || (Enabled(s, ops[0]) && Feasible(Step(s, ops[0]), ops[1..]))
  }

  ghost function Exec(s: State, ops: seq<Op>): (r: State)
    requires Inv(s) && Feasible(s, ops)
    ensures Inv(r)
    decreases |ops|
  {
    if ops == [] then s else Exec(Step(s, ops[0]), ops[1..])
  }

  lemma {:induction false} ExecSize(s: State, ops: seq<Op>)
    requires Inv(s) && Feasible(s, ops)
    ensures Exec(s, ops).buffer.size == s.buffer.size && Exec(s, ops).buffer.len == s.buffer.len
    decreases |ops|
  {
    if ops != [] {
      StepSize(s, ops[0]);
      ExecSize(Step(s, ops[0]), ops[1..]);
    }
  }

  lemma {:induction false} StepSize(s: State, op: Op)
    requires Inv(s) && Enabled(s, op)
    ensures Step(s, op).buffer.size == s.buffer.size && Step(s, op).buffer.len == s.buffer.len
  {
  }

  /** `data` is what a reader with room for n bytes gets of the message `msg`: as many bytes as it has
      room for, of a slot that starts with the message. */
  predicate Delivers(data: seq<byte>, n: nat, msg: seq<byte>, size: nat) {
    && |data| == Min(n, size)
    && var sent := Cut(msg, size);
       if |data| <= |sent| then data == sent[..|data|] else data[..|sent|] == sent
  }

  lemma {:induction false} FaithfulDelivers(b: Buffer, j: nat)
    requires Faithful(b) && j < |b.read|
    ensures Delivers(b.read[j], b.asked[j], b.sent[j], b.size)
  {
    var sent := Cut(b.sent[j], b.size);
    assert b.read[j] == b.written[j][..|b.read[j]|] && sent == b.written[j][..|sent|];
  }

  // What the calls of a run ask for, from the operations alone; `last` is the last call each task has
  // made so far.

  function Noted(last: map<Task, Call>, op: Op): map<Task, Call> {
    if op.Begin? then last[op.t := op.c] else last
  }

  /** The messages of the writers, in the order of their copies. */
  function Messages(ops: seq<Op>, last: map<Task, Call>): seq<seq<byte>> {
    if ops == [] then [] else Message(ops[0], last) + Messages(ops[1..], Noted(last, ops[0]))
  }

  function Message(op: Op, last: map<Task, Call>): seq<seq<byte>> {
    if op.CopyOne? && op.t in last && last[op.t].Put? then [last[op.t].msg] else []
  }

  /** The sizes of the readers' buffers, in the order of their copies. */
  function Sizes(ops: seq<Op>, last: map<Task, Call>): seq<nat> {
    if ops == [] then [] else Size(ops[0], last) + Sizes(ops[1..], Noted(last, ops[0]))
  }

  function Size(op: Op, last: map<Task, Call>): seq<nat> {
    if op.CopyOne? && op.t in last && last[op.t].Take? then [last[op.t].n] else []
  }

  /** The call that a task is in is its last one. */
  ghost predicate Noting(s: State, last: map<Task, Call>) {
    forall t :: In(s.rd, t) || In(s.wr, t) ==> t in s.calls && t in last && last[t] == s.calls[t]
  }

  lemma {:induction false} StepNotes(s: State, op: Op, last: map<Task, Call>)
    requires Inv(s) && Enabled(s, op) && Noting(s, last)
    ensures var r := Step(s, op);
            Records(s.buffer, r.buffer, Message(op, last), Size(op, last)) && Noting(r, Noted(last, op))
  {
    match op
    case Begin(t, c, wait) => ReserveNotes(s, t, c, wait, last);
    case CopyOne(t) => CopyNotes(s, t, last);
    case Finish(t) => SignalNotes(s, t, last);
    case TimeOut(_) =>
    case GiveUp(t) => GiveUpNotes(s, t, last);
  }

  lemma {:induction false} ReserveNotes(s: State, t: Task, c: Call, wait: Patience, last: map<Task, Call>)
    requires Noting(s, last) && !In(s.rd, t) && !In(s.wr, t)
    ensures Noting(Reserve(s, t, c, wait), last[t := c]) && Reserve(s, t, c, wait).buffer == s.buffer
  {
    var side := SideOf(s, DirOf(c));
    InsertedMembers(side.pend, PendSlot(side.pend, s.value, t), t);
  }

  lemma {:induction false} CopyNotes(s: State, t: Task, last: map<Task, Call>)
    requires Inv(s) && Noting(s, last) && (t in s.rd.granted || t in s.wr.granted)
    ensures t in s.calls && Noting(Copy(s, t), last)
    ensures Records(s.buffer, Copy(s, t).buffer, Message(CopyOne(t), last), Size(CopyOne(t), last))
  {
    assert In(s.rd, t) || In(s.wr, t);
    var r := Copy(s, t);
    assert t in s.rd.granted ==> s.calls[t].Take?;
    assert t in s.wr.granted ==> s.calls[t].Put?;
    assert forall x :: In(r.rd, x) ==> In(s.rd, x);
    assert forall x :: In(r.wr, x) ==> In(s.wr, x);
  }

  lemma {:induction false} SignalNotes(s: State, t: Task, last: map<Task, Call>)
    requires Inv(s) && Noting(s, last) && t in s.calls
    ensures Noting(Signal(s, t), last) && Signal(s, t).buffer == s.buffer
  {
    SignalledKeeps(s.rd, s.value, s.waits.stamp, s.waits.arrivals, s.waits.late);
    SignalledKeeps(s.wr, s.value, s.waits.stamp, s.waits.arrivals, s.waits.late);
  }

  lemma {:induction false} GiveUpNotes(s: State, t: Task, last: map<Task, Call>)
    requires Inv(s) && Noting(s, last)
    ensures Noting(GivenUp(s, t), last) && GivenUp(s, t).buffer == s.buffer
  {
    InLineWithout(s.rd.pend, s.value, s.waits.stamp, s.waits.arrivals, t);
    InLineWithout(s.wr.pend, s.value, s.waits.stamp, s.waits.arrivals, t);
  }

  /** What the buffer records is what the calls asked for. */
  lemma {:induction false} RunNotes(s: State, ops: seq<Op>, last: map<Task, Call>)
    requires Inv(s) && Feasible(s, ops) && Noting(s, last)
    ensures Records(s.buffer, Exec(s, ops).buffer, Messages(ops, last), Sizes(ops, last))
    decreases |ops|
  {
    if ops != [] {
      var n := Step(s, ops[0]);
      StepNotes(s, ops[0], last);
      RunNotes(n, ops[1..], Noted(last, ops[0]));
      var after := Noted(last, ops[0]);
      RecordsJoined(s.buffer, n.buffer, Exec(n, ops[1..]).buffer, Message(ops[0], last), Size(ops[0], last),
                    Messages(ops[1..], after), Sizes(ops[1..], after));
    }
  }

  /** Between the buffers `b` and `r` these messages and sizes were recorded. */
  ghost predicate Records(b: Buffer, r: Buffer, msgs: seq<seq<byte>>, sizes: seq<nat>) {
    r.sent == b.sent + msgs && r.asked == b.asked + sizes
  }

  lemma {:induction false} RecordsJoined(b: Buffer, n: Buffer, r: Buffer, msgs: seq<seq<byte>>, sizes: seq<nat>,
                                         more: seq<seq<byte>>, others: seq<nat>)
    requires Records(b, n, msgs, sizes) && Records(n, r, more, others)
    ensures Records(b, r, msgs + more, sizes + others)
  {
    assert b.sent + msgs + more == b.sent + (msgs + more);
    assert b.asked + sizes + others == b.asked + (sizes + others);
  }

  /** Over every interleaving of any number of tasks, what has been read, in the
      order of the copies, is a prefix of what has been written: there are as many
      reads as readers have copied, and the j-th delivers as many bytes as its reader
      has room for, at most a slot, and they are the beginning of the j-th message that
      a writer was called with, cut to a slot, or all of it and what the slot held
      behind it. */
  lemma {:induction false} ReadsArePrefixOfWrites(len: nat, size: nat, value: map<Task, nat>, ops: seq<Op>, j: nat)
    requires len > 0 && Feasible(Create(len, size, value), ops)
    requires j < |Exec(Create(len, size, value), ops).buffer.read|
    ensures var b, msgs, sizes := Exec(Create(len, size, value), ops).buffer, Messages(ops, map[]), Sizes(ops, map[]);
            && b.len == len && |b.read| == |sizes| <= |msgs| <= |sizes| + len && Delivers(b.read[j], sizes[j], msgs[j], size)
  {
    ExecSize(Create(len, size, value), ops);
    RunNotes(Create(len, size, value), ops, map[]);
    FaithfulDelivers(Exec(Create(len, size, value), ops).buffer, j);
  }

  /** Over every interleaving the tokens add up, those lost included, and nobody
      waits while a token of its side is free. Once every call under way is
      waiting, readers wait only if all messages stored are lost to them, none
      being stored if no token was lost, and writers only if all free places are. */
  lemma {:induction false} TokensConserved(s: State, ops: seq<Op>)
    requires Inv(s) && Feasible(s, ops)
    ensures var r := Exec(s, ops);
            && r.wr.count + |r.wr.granted| + |r.rd.moved| + Stock(r.buffer) + r.wr.lost == r.buffer.len
            && r.rd.count + |r.rd.granted| + |r.wr.moved| + r.rd.lost == Stock(r.buffer)
            && (r.rd.pend != [] ==> r.rd.count == 0) && (r.wr.pend != [] ==> r.wr.count == 0)
            && (r.rd.granted + r.rd.moved + r.wr.granted + r.wr.moved == {} ==>
                  && (r.rd.pend != [] ==> Stock(r.buffer) == r.rd.lost)
                  && (r.wr.pend != [] ==> r.buffer.len - Stock(r.buffer) == r.wr.lost))
  {
  }

  /** No token has been lost. */
  ghost predicate Conserved(s: State) {
    && s.wr.count + |s.wr.granted| + |s.rd.moved| + Stock(s.buffer) == s.buffer.len
    && s.rd.count + |s.rd.granted| + |s.wr.moved| == Stock(s.buffer)
  }

  /** The step wakes a waiter that has timed out. */
  ghost predicate Loses(s: State, op: Op)
    requires Inv(s) && Enabled(s, op)
  {
    op.Finish? && if op.t in s.rd.moved then TooLate(s.wr, s.waits.late) else TooLate(s.rd, s.waits.late)
  }

  lemma {:induction false} SignalLost(s: State, t: Task)
    requires t in s.calls
    ensures var r, late := Signal(s, t), s.waits.late;
            && r.wr.lost == s.wr.lost + (if s.calls[t].Take? && TooLate(s.wr, late) then 1 else 0)
            && r.rd.lost == s.rd.lost + (if s.calls[t].Put? && TooLate(s.rd, late) then 1 else 0)
  {
  }

  lemma {:induction false} ReserveLost(s: State, t: Task, c: Call, wait: Patience)
    ensures Reserve(s, t, c, wait).rd.lost == s.rd.lost && Reserve(s, t, c, wait).wr.lost == s.wr.lost
  {
  }

  lemma {:induction false} StepLost(s: State, op: Op, r: State)
    requires Inv(s) && Enabled(s, op) && r == Step(s, op)
    ensures r.rd.lost + r.wr.lost == s.rd.lost + s.wr.lost + if Loses(s, op) then 1 else 0
  {
    match op
    case Begin(t, c, wait) => ReserveLost(s, t, c, wait);
    case Finish(t) =>
      assert In(s.rd, t) ==> !In(s.wr, t);
      assert In(s.rd, t) || In(s.wr, t);
      SignalLost(s, t);
    case _ =>
  }

  /** A step keeps the tokens if and only if it does not signal a side whose first
      waiter has timed out. */
  lemma {:induction false} TokensKeptIff(s: State, op: Op)
    requires Inv(s) && Enabled(s, op) && Conserved(s)
    ensures Conserved(Step(s, op)) <==> !Loses(s, op)
  {
    StepLost(s, op, Step(s, op));
  }

  /** How many steps of a run wake a waiter that has timed out. */
  ghost function Losses(s: State, ops: seq<Op>): nat
    requires Inv(s) && Feasible(s, ops)
    decreases |ops|
  {
    if ops == [] then 0 else (if Loses(s, ops[0]) then 1 else 0) + Losses(Step(s, ops[0]), ops[1..])
  }

  /** Over every run, exactly as many tokens are lost as waiters are woken too late. */
  lemma {:induction false} RunLoses(s: State, ops: seq<Op>)
    requires Inv(s) && Feasible(s, ops)
    ensures Exec(s, ops).rd.lost + Exec(s, ops).wr.lost == s.rd.lost + s.wr.lost + Losses(s, ops)
    decreases |ops|
  {
    if ops != [] {
      StepLost(s, ops[0], Step(s, ops[0]));
      RunLoses(Step(s, ops[0]), ops[1..]);
    }
  }

  /** So from a state without loss a run keeps the tokens if and only if no waiter is woken too late. */
  lemma {:induction false} RunConservesIff(s: State, ops: seq<Op>)
    requires Inv(s) && Feasible(s, ops) && Conserved(s)
    ensures Conserved(Exec(s, ops)) <==> Losses(s, ops) == 0
  {
    RunLoses(s, ops);
  }

  /** A call that waits for some ticks. */
  predicate Hasty(op: Op) {
    op.Begin? && op.wait == Ticks
  }

  /** In particular it does if all calls wait for ever or not at all. */
  lemma {:induction false} PatientRunsConserve(s: State, ops: seq<Op>)
    requires Inv(s) && Feasible(s, ops) && s.waits.hasty == {} && forall op <- ops :: !Hasty(op)
    ensures Losses(s, ops) == 0 && Exec(s, ops).waits.hasty == {}
    decreases |ops|
  {
    assert s.waits.late == {};
    if ops != [] {
      assert ops[0] in ops;
      StepPatient(s, ops[0]);
      PatientRunsConserve(Step(s, ops[0]), ops[1..]);
    }
  }

  lemma {:induction false} StepPatient(s: State, op: Op)
    requires Inv(s) && Enabled(s, op) && s.waits.hasty == {} && !Hasty(op)
    ensures !Loses(s, op) && Step(s, op).waits.hasty == {}
  {
    assert s.waits.late == {};
  }

  /** The side that a call's signal goes to. */
  function Opposite(s: State, t: Task): Side
    requires t in s.calls
  {
    if s.calls[t].Take? then s.wr else s.rd
  }

  lemma {:induction false} FirstInLine(pend: seq<Task>, value: map<Task, nat>, stamp: map<Task, nat>, arrivals: nat, w: Task)
    requires InLine(pend, value, stamp, arrivals) && w in pend
    ensures pend[0] == w || Before(value, stamp, pend[0], w)
  {
    var i :| 0 <= i < |pend| && pend[i] == w;
    assert i > 0 ==> Before(value, stamp, pend[0], pend[i]);
  }

  /** A call of no bytes is refused; any other gets a token if there is one, and otherwise waits or, if it
      has no patience, is refused. */
  lemma {:induction false} CallOutcome(s: State, t: Task, c: Call, wait: Patience)
    requires Inv(s) && !In(s.rd, t) && !In(s.wr, t)
    ensures var r, side, side' := Reserve(s, t, c, wait), SideOf(s, DirOf(c)), SideOf(Reserve(s, t, c, wait), DirOf(c));
            && (In(side', t) <==> SizeOf(c) != 0 && (side.count > 0 || wait != Never)) && (!In(side', t) ==> r == s)
            && (t in side'.granted <==> SizeOf(c) != 0 && side.count > 0)
            && (t in side'.granted ==> side'.count == side.count - 1) && t !in side'.moved
            && (In(side', t) ==> t in r.calls && r.calls[t] == c)
  {
    var side := SideOf(s, DirOf(c));
    InsertedMembers(side.pend, PendSlot(side.pend, s.value, t), t);
  }

  /** A token goes to the waiter created with the best priority, and of those with
      the same to the one that came first. */
  lemma {:induction false} WakesBestWaiter(s: State, t: Task, w: Task, x: Task)
    requires Inv(s) && t in s.calls && w in Opposite(s, t).pend && x == Opposite(s, t).pend[0]
    ensures Opposite(Signal(s, t), t).pend == Opposite(s, t).pend[1..]
    ensures Opposite(Signal(s, t), t).granted == Opposite(s, t).granted + if x in s.waits.late then {} else {x}
    ensures x == w || Before(s.value, s.waits.stamp, x, w)
  {
    FirstInLine(Opposite(s, t).pend, s.value, s.waits.stamp, s.waits.arrivals, w);
  }

  // ---- The queue object --------------------------------------------------------------------

  class Queue {
    var len: nat
    var size: nat
    var slots: seq<seq<byte>>
    var rptr: nat
    var wptr: nat
    var rd: Side
    var wr: Side
    var calls: map<Task, Call>
    var value: map<Task, nat>
    var waits: Waits
    ghost var written: seq<seq<byte>>
    ghost var sent: seq<seq<byte>>
    ghost var read: seq<seq<byte>>
    ghost var asked: seq<nat>

    ghost function View(): State
      reads this
    {
      State(Buffer(len, size, slots, rptr, wptr, written, sent, read, asked), rd, wr, calls, value, waits)
    }

    constructor (len: nat, size: nat, value: map<Task, nat>)
      ensures View() == Create(len, size, value)
    {
      this.len, this.size, this.value := len, size, value;
      slots := seq(len, _ => seq(size, _ => 0));
      rptr, wptr, calls := 0, 0, map[];
      rd, wr := Side(0, [], {}, {}, 0), Side(len, [], {}, {}, 0);
      waits := Waits(map[], 0, {}, {});
      written, sent, read, asked := [], [], [], [];
    }

    /** The first section of `_dos_queue_handler`; whether the call goes on. */
    method Begin(t: Task, c: Call, wait: Patience) returns (ok: bool)
      modifies this
      ensures View() == Reserve(old(View()), t, c, wait)
      ensures ok <==> SizeOf(c) != 0 && (wait != Never || old(SideOf(View(), DirOf(c)).count != 0))
    {
      var side := if c.Take? then rd else wr;
      if SizeOf(c) == 0 {
        return false;
      }
      if side.count == 0 {
        if wait == Never {
          return false;
        }
        side := side.(pend := Queued(side.pend, value, t));
      } else {
        side := side.(count := side.count - 1, granted := side.granted + {t});
      }
      Enter(t, c, wait, side);
      return true;
    }

    /** The stores of a call that is not refused. */
    method Enter(t: Task, c: Call, wait: Patience, side: Side)
      modifies `rd, `wr, `calls, `waits
      ensures View() == SetSide(old(View()), DirOf(c), side).(calls := old(calls)[t := c], waits := Called(old(waits), t, wait))
    {
      if c.Take? {
        rd := side;
      } else {
        wr := side;
      }
      calls, waits := calls[t := c], Called(waits, t, wait);
    }

    /** The second section for a reader: the bytes delivered. */
    method CopyOut(t: Task) returns (data: seq<byte>)
      requires t in calls && calls[t].Take? && rptr < |slots| && wptr < |slots|
      modifies this
      ensures View() == Copy(old(View()), t) && read == old(read) + [data]
    {
      data := slots[rptr][..Min(calls[t].n, |slots[rptr]|)];
      read, asked := read + [data], asked + [calls[t].n];
      rptr := rptr + 1;
      if rptr == len {
        rptr := 0;
      }
      rd := Moved(rd, t);
    }

    /** `_dos_queue_copy` for a writer. */
    method StoreMessage(msg: seq<byte>)
      requires wptr < |slots|
      modifies `slots, `wptr, `written, `sent
      ensures View().buffer == WriteSlot(old(View().buffer), msg)
    {
      var slot := slots[wptr];
      var n := Min(|msg|, |slot|);
      slot := msg[..n] + slot[n..];
      slots := slots[wptr := slot];
      written, sent := written + [slot], sent + [msg];
      wptr := wptr + 1;
      if wptr == len {
        wptr := 0;
      }
    }

    /** The second section for a writer. */
    method CopyIn(t: Task)
      requires t in calls && calls[t].Put? && rptr < |slots| && wptr < |slots|
      modifies this
      ensures View() == Copy(old(View()), t)
    {
      ghost var b := WriteSlot(View().buffer, calls[t].msg);
      StoreMessage(calls[t].msg);
      assert View().buffer == b;
      wr := Moved(wr, t);
    }

    /** The third section. */
    method Finish(t: Task)
      requires t in calls
      modifies this
      ensures View() == Signal(old(View()), t)
    {
      var other := if calls[t].Take? then wr else rd;
      if other.pend != [] {
        if other.pend[0] in waits.late {
          other := other.(pend := other.pend[1..], lost := other.lost + 1);
        } else {
          other := other.(pend := other.pend[1..], granted := other.granted + {other.pend[0]});
        }
      } else {
        other := other.(count := other.count + 1);
      }
      if calls[t].Take? {
        rd, wr := Left(rd, t), other;
      } else {
        wr, rd := Left(wr, t), other;
      }
    }

    /** What the tick does to a waiter whose time is up. */
    method TimeOut(t: Task)
      modifies `waits
      ensures View() == TimedOut(old(View()), t)
    {
      waits := waits.(late := waits.late + {t});
    }

    /** What a waiter does when it runs again: whether its wait has timed out. */
    method Resume(t: Task) returns (timedOut: bool)
      requires t in calls && (calls[t].Take? ==> t !in wr.pend) && (calls[t].Put? ==> t !in rd.pend)
      modifies this
      ensures timedOut <==> t in old(waits).late
      ensures View() == if timedOut then GivenUp(old(View()), t) else old(View())
    {
      timedOut := t in waits.late;
      if timedOut {
        waits := waits.(late := waits.late - {t});
        if calls[t].Take? {
          rd := rd.(pend := Without(rd.pend, t));
        } else {
          wr := wr.(pend := Without(wr.pend, t));
        }
      }
    }
  }
}
