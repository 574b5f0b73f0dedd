/** The message queue (src/queue.c) on the scheduler (src/task.c): a call that waits suspends its task,
    the tick ends a wait whose time is up, and a signal wakes the first waiter. */
module QueueClock {
  import opened Machine
  import opened PendList
  import opened Runs
  import opened TaskList
  import Q = MessageQueue
  import S = Scheduler

  datatype State = State(q: Q.State, k: S.State)

  // ---- The queue's record of its waiters and the tasks' status --------------------------------

  predicate Pends(q: Q.State, t: Task) {
    t in q.rd.pend || t in q.wr.pend
  }

  /** A waiter is suspended. It has timed out if the queue says so, is on a sleep list if it may still
      do so, and is not ready otherwise. */
  ghost predicate Suspended(w: Waits, tasks: S.Tasks, t: Task) {
    && t in tasks && tasks[t].suspend
    && (t in w.late <==> tasks[t].timeout) && (tasks[t].delay <==> t in w.hasty && t !in w.late)
    && (tasks[t].ready ==> t in w.late)
  }

  /** A task that has timed out stays marked until it runs, also if it has been woken. */
  ghost predicate Marked(tasks: S.Tasks, t: Task) {
    t in tasks && tasks[t].timeout
  }

  ghost predicate Agree(q: Q.State, tasks: S.Tasks) {
    && (forall t :: Pends(q, t) ==> Suspended(q.waits, tasks, t))
    && (forall t :: t in q.waits.late ==> Marked(tasks, t))
  }

  ghost predicate Tied(s: State) {
    Q.Inv(s.q) && S.Inv(s.k) && Agree(s.q, s.k.tasks)
  }

  // ---- The steps ----------------------------------------------------------------------------------

  /** A section of a call by the running task, its return from a wait that has timed out, or any other
      operation of the scheduler. */
  datatype Op = Call(c: Q.Call, timeout: nat) | CopyOne | Finish | GiveUp | Other(o: S.Op)

  function PatienceOf(timeout: nat): Patience {
    if timeout == 0 then Never else if timeout == S.UINT32_MAX then Forever else Ticks
  }

  /** The call finds no token and may wait. */
  predicate Blocks(q: Q.State, c: Q.Call, timeout: nat) {
    Q.SizeOf(c) != 0 && Q.SideOf(q, Q.DirOf(c)).count == 0 && timeout != 0
  }

  /** The pend list that the third section of the running task's call looks at. */
  function OtherPend(q: Q.State, t: Task): seq<Task> {
    if t in q.calls && q.calls[t].Take? then q.wr.pend else q.rd.pend
  }

  /** The scheduler's part of a step. */
  function Scheduled(s: State, op: Op): seq<S.Op> {
    match op
    case Call(c, timeout) => if Blocks(s.q, c, timeout) then [S.WaitFor(timeout)] else []
    case CopyOne => []
    case Finish => var pend := OtherPend(s.q, s.k.current); if pend == [] then [] else [S.WakeUp(pend[0])]
    case GiveUp => [S.Resume]
    case Other(o) => [o]
  }

  /** A task that waits or is late acts only through the queue, and others leave it alone but for its
      priority. */
  predicate Meddles(q: Q.State, current: Task, o: S.Op) {
    match o
    case SleepFor(_) => Pends(q, current) || current in q.waits.late
    case WaitFor(_) => Pends(q, current) || current in q.waits.late
    case Resume => Pends(q, current) || current in q.waits.late
    case WakeUp(t) => Pends(q, t)
    case DeleteTask(t) => Pends(q, t) || t in q.waits.late
    case _ => false
  }

  /** The sections of a call follow each other; the idle task never waits. */
  ghost predicate Allowed(s: State, op: Op)
    requires Tied(s)
  {
    var t := s.k.current;
    match op
    case Call(c, timeout) =>
      && Q.Enabled(s.q, Q.Begin(t, c, PatienceOf(timeout))) && timeout < WORD
      && s.k.tasks[t].ready && !s.k.tasks[t].timeout && (timeout != 0 ==> t != s.k.idle)
    case CopyOne => Q.Enabled(s.q, Q.CopyOne(t))
    case Finish => Q.Enabled(s.q, Q.Finish(t))
    case GiveUp => Q.Enabled(s.q, Q.GiveUp(t)) && s.k.tasks[t].ready
    case Other(o) => S.Enabled(s.k, o) && !Meddles(s.q, t, o)
  }

  /** The waiters whose time is up at the next tick. */
  function Due(q: Q.State, k: S.State): (d: set<Task>)
    ensures forall t :: t in d <==> Pends(q, t) && t in k.tasks && k.tasks[t].delay && S.Left(k, t) == 1
  {
    set t | t in q.rd.pend + q.wr.pend && t in k.tasks && k.tasks[t].delay && S.Left(k, t) == 1
  }

  function Expired(q: Q.State, due: set<Task>): Q.State {
    q.(waits := q.waits.(late := q.waits.late + due))
  }

  /** The queue's part of a step: at a tick, waits time out. */
  ghost function Queued(s: State, op: Op): (q: Q.State)
    requires Tied(s) && Allowed(s, op)
  {
    var t := s.k.current;
    match op
    case Call(c, timeout) => Q.Step(s.q, Q.Begin(t, c, PatienceOf(timeout)))
    case CopyOne => Q.Step(s.q, Q.CopyOne(t))
    case Finish => Q.Step(s.q, Q.Finish(t))
    case GiveUp => Q.Step(s.q, Q.GiveUp(t))
    case Other(o) => if o.TickUpdate? then Expired(s.q, Due(s.q, s.k)) else s.q
  }

  // ---- The queue's part is a run of the queue -----------------------------------------------------

  /** The run of the queue from `q` ends in `r`. */
  ghost predicate Ends(q: Q.State, run: seq<Q.Op>, r: Q.State) {
    Q.Inv(q) && Q.Feasible(q, run) && Q.Exec(q, run) == r
  }

  lemma {:induction false} EndsAfter(q: Q.State, op: Q.Op, n: Q.State, rest: seq<Q.Op>, r: Q.State)
    requires Q.Inv(q) && Q.Enabled(q, op) && Q.Step(q, op) == n && Ends(n, rest, r)
    ensures Ends(q, [op] + rest, r)
  {
    assert ([op] + rest)[1..] == rest;
  }

  lemma {:induction false} EndsJoined(q: Q.State, a: seq<Q.Op>, m: Q.State, b: seq<Q.Op>, r: Q.State)
    requires Ends(q, a, m) && Ends(m, b, r)
    ensures Ends(q, a + b, r)
    decreases |a|
  {
    Joined(a, b);
    if a != [] {
      EndsJoined(Q.Step(q, a[0]), a[1..], m, b, r);
    }
  }

  lemma {:induction false} OneExpires(q: Q.State, due: set<Task>, t: Task)
    requires Q.Inv(q) && t in due && forall x :: x in due ==> Pends(q, x) && x in q.waits.hasty && x !in q.waits.late
    ensures Q.Enabled(q, Q.TimeOut(t))
    ensures var n := Q.Step(q, Q.TimeOut(t));
            && Expired(n, due - {t}) == Expired(q, due)
            && forall x :: x in due - {t} ==> Pends(n, x) && x in n.waits.hasty && x !in n.waits.late
  {
    assert q.waits.late + {t} + (due - {t}) == q.waits.late + due;
  }

  /** A tick at which several waits time out is as many steps of the queue. */
  lemma {:induction false} ExpiresInSteps(q: Q.State, due: set<Task>) returns (run: seq<Q.Op>)
    requires Q.Inv(q) && forall t :: t in due ==> Pends(q, t) && t in q.waits.hasty && t !in q.waits.late
    ensures Ends(q, run, Expired(q, due))
    decreases |due|
  {
    if due == {} {
      assert Expired(q, due) == q;
      run := [];
    } else {
      var t :| t in due;
      var n := Q.Step(q, Q.TimeOut(t));
      OneExpires(q, due, t);
      run := ExpiresInSteps(n, due - {t});
      EndsAfter(q, Q.TimeOut(t), n, run, Expired(q, due));
      run := [Q.TimeOut(t)] + run;
    }
  }

  /** Every step does to the queue what a run of the queue does. */
  lemma {:induction false} QueuedRefines(s: State, op: Op) returns (run: seq<Q.Op>)
    requires Tied(s) && Allowed(s, op)
    ensures Ends(s.q, run, Queued(s, op))
  {
    var t := s.k.current;
    match op
    case Call(c, timeout) => run := OneStep(s.q, Q.Begin(t, c, PatienceOf(timeout)));
    case CopyOne => run := OneStep(s.q, Q.CopyOne(t));
    case Finish => run := OneStep(s.q, Q.Finish(t));
    case GiveUp => run := OneStep(s.q, Q.GiveUp(t));
    case Other(o) =>
      if o.TickUpdate? {
        run := ExpiresInSteps(s.q, Due(s.q, s.k));
      } else {
        run := [];
      }
  }

  lemma {:induction false} OneStep(q: Q.State, op: Q.Op) returns (run: seq<Q.Op>)
    requires Q.Inv(q) && Q.Enabled(q, op)
    ensures Ends(q, run, Q.Step(q, op))
  {
    EndsAfter(q, op, Q.Step(q, op), [], Q.Step(q, op));
    run := [op] + [];
  }

  // ---- Every step keeps the two in agreement ------------------------------------------------------

  /** The scheduler after its part of a step, which is one operation at most. */
  function Run(k: S.State, ops: seq<S.Op>): S.State
    requires S.Inv(k) && (ops != [] ==> S.Enabled(k, ops[0]))
  {
    if ops == [] then k else S.Apply(k, ops[0])
  }

  lemma {:induction false} ScheduledEnabled(s: State, op: Op)
    requires Tied(s) && Allowed(s, op)
    ensures Scheduled(s, op) != [] ==> S.Enabled(s.k, Scheduled(s, op)[0])
  {
    if op.Finish? && OtherPend(s.q, s.k.current) != [] {
      assert Pends(s.q, OtherPend(s.q, s.k.current)[0]);
    }
  }

  lemma {:induction false} RunInv(k: S.State, ops: seq<S.Op>)
    requires S.Inv(k) && (ops != [] ==> S.Enabled(k, ops[0]))
    ensures S.Inv(Run(k, ops))
  {
    if ops != [] {
      S.ApplyKeepsInv(k, ops[0]);
    }
  }

  /** The tasks but `t` are as before. */
  ghost predicate OthersSame(tasks: S.Tasks, tasks': S.Tasks, t: Task) {
    forall x :: x != t && x in tasks ==> x in tasks' && tasks'[x] == tasks[x]
  }

  lemma {:induction false} SubjectOnly(k: S.State, o: S.Op, t: Task)
    requires S.Inv(k) && S.Enabled(k, o) && o != S.TickUpdate && t == S.Subject(k, o)
    ensures OthersSame(k.tasks, S.Apply(k, o).tasks, t)
  {
    forall x | x != t && x in k.tasks
      ensures x in S.Apply(k, o).tasks && S.Apply(k, o).tasks[x] == k.tasks[x]
    {
      S.ApplyFrame(k, o, x);
    }
  }

  /** A task that starts to wait. */
  lemma {:induction false} WaitStarts(k: S.State, timeout: nat)
    requires S.Inv(k) && S.Enabled(k, S.WaitFor(timeout))
    ensures var t, tasks := k.current, S.Apply(k, S.WaitFor(timeout)).tasks;
            && t in tasks && tasks[t].suspend && !tasks[t].ready && tasks[t].timeout == k.tasks[t].timeout
            && (tasks[t].delay <==> timeout != S.UINT32_MAX)
  {
    S.ApplyKeepsInv(k, S.WaitFor(timeout));
    if timeout != S.UINT32_MAX {
      S.StartsWithNLeft(k, S.WaitFor(timeout), timeout);
      assert S.TaskOk(S.Apply(k, S.WaitFor(timeout)).tasks[k.current]);
    } else {
      S.InvSound(k, k.current);
    }
  }

  /** A newcomer agrees once it is suspended as its patience says. */
  lemma {:induction false} NewcomerAgrees(q: Q.State, r: Q.State, tasks: S.Tasks, tasks': S.Tasks, t: Task, wait: Patience)
    requires Agree(q, tasks) && OthersSame(tasks, tasks', t) && t !in q.waits.late
    requires r.waits == Called(q.waits, t, wait) && forall x :: Pends(r, x) ==> Pends(q, x) || x == t
    requires t in tasks' && tasks'[t].suspend && !tasks'[t].ready && !tasks'[t].timeout && (tasks'[t].delay <==> wait == Ticks)
    ensures Agree(r, tasks')
  {
    forall x | Pends(r, x)
      ensures Suspended(r.waits, tasks', x)
    {
      if x != t {
        assert Suspended(q.waits, tasks, x);
      }
    }
    forall x | x in r.waits.late
      ensures Marked(tasks', x)
    {
      assert Marked(tasks, x);
    }
  }

  /** A call that blocks adds its task to the waiters, one that does not adds none. */
  lemma {:induction false} ReserveWaits(q: Q.State, t: Task, c: Q.Call, timeout: nat)
    ensures var r := Q.Reserve(q, t, c, PatienceOf(timeout));
            && (forall x :: Pends(r, x) ==> Pends(q, x) || (x == t && Blocks(q, c, timeout)))
            && (Blocks(q, c, timeout) ==> r.waits == Called(q.waits, t, PatienceOf(timeout)) && Pends(r, t))
            && r.waits.late == q.waits.late && forall x :: x != t ==> (x in r.waits.hasty <==> x in q.waits.hasty)
  {
    var side := Q.SideOf(q, Q.DirOf(c));
    InsertedMembers(side.pend, PendSlot(side.pend, q.value, t), t);
  }

  /** What still waits agrees as before. */
  lemma {:induction false} RestAgrees(q: Q.State, r: Q.State, tasks: S.Tasks, tasks': S.Tasks, t: Task)
    requires Agree(q, tasks) && OthersSame(tasks, tasks', t)
    requires forall x :: Pends(r, x) ==> Pends(q, x) && x != t && (x in r.waits.hasty <==> x in q.waits.hasty)
    requires forall x :: x != t ==> (x in r.waits.late <==> x in q.waits.late)
    requires t in r.waits.late ==> Marked(tasks', t)
    ensures Agree(r, tasks')
  {
    forall x | Pends(r, x)
      ensures Suspended(r.waits, tasks', x)
    {
      assert Suspended(q.waits, tasks, x);
    }
    forall x | x in r.waits.late
      ensures Marked(tasks', x)
    {
      assert x != t ==> Marked(tasks, x);
    }
  }

  lemma {:induction false} CallAgrees(s: State, c: Q.Call, timeout: nat)
    requires Tied(s) && Allowed(s, Call(c, timeout))
    ensures Agree(Queued(s, Call(c, timeout)), Run(s.k, Scheduled(s, Call(c, timeout))).tasks)
  {
    var t, r := s.k.current, Queued(s, Call(c, timeout));
    ReserveWaits(s.q, t, c, timeout);
    if Blocks(s.q, c, timeout) {
      WaitStarts(s.k, timeout);
      SubjectOnly(s.k, S.WaitFor(timeout), t);
      NewcomerAgrees(s.q, r, s.k.tasks, S.Apply(s.k, S.WaitFor(timeout)).tasks, t, PatienceOf(timeout));
    } else {
      NotWaiting(s.q, t);
      RestAgrees(s.q, r, s.k.tasks, s.k.tasks, t);
    }
  }

  lemma {:induction false} NotWaiting(q: Q.State, t: Task)
    requires !Q.In(q.rd, t) && !Q.In(q.wr, t)
    ensures !Pends(q, t)
  {
  }

  /** The third section takes the first waiter of the other side off its list, and no other. */
  lemma {:induction false} SignalWaits(q: Q.State, t: Task)
    requires Q.Inv(q) && Q.Enabled(q, Q.Finish(t))
    ensures t in q.calls
    ensures var r, pend := Q.Signal(q, t), OtherPend(q, t);
            && r.waits == q.waits
            && forall x :: Pends(r, x) ==> Pends(q, x) && (pend != [] ==> x != pend[0])
  {
    assert Q.In(q.rd, t) || Q.In(q.wr, t);
    var pend := OtherPend(q, t);
    if pend != [] {
      InLineRest(pend, q.value, q.waits.stamp, q.waits.arrivals);
      OneList(q, pend[0]);
      forall x | x in pend[1..]
        ensures x in pend
      {
      }
    }
  }

  /** Nobody waits on both lists. */
  lemma {:induction false} OneList(q: Q.State, t: Task)
    requires Q.Inv(q)
    ensures !(t in q.rd.pend && t in q.wr.pend)
  {
    assert t in q.rd.pend ==> Q.In(q.rd, t);
    assert t in q.wr.pend ==> Q.In(q.wr, t);
  }

  /** A task that is woken stays marked. */
  lemma {:induction false} WakeMarked(k: S.State, t: Task)
    requires S.Inv(k) && S.Enabled(k, S.WakeUp(t)) && Marked(k.tasks, t)
    ensures Marked(S.Apply(k, S.WakeUp(t)).tasks, t)
  {
    S.InvSound(k, t);
  }

  lemma {:induction false} FinishAgrees(s: State)
    requires Tied(s) && Allowed(s, Finish)
    requires Scheduled(s, Finish) != [] ==> S.Enabled(s.k, Scheduled(s, Finish)[0])
    ensures Agree(Queued(s, Finish), Run(s.k, Scheduled(s, Finish)).tasks)
  {
    var t := s.k.current;
    var pend, r := OtherPend(s.q, t), Queued(s, Finish);
    SignalWaits(s.q, t);
    if pend != [] {
      SubjectOnly(s.k, S.WakeUp(pend[0]), pend[0]);
      if pend[0] in s.q.waits.late {
        WakeMarked(s.k, pend[0]);
      }
      RestAgrees(s.q, r, s.k.tasks, S.Apply(s.k, S.WakeUp(pend[0])).tasks, pend[0]);
    } else {
      SameAgrees(s.q, r, s.k.tasks);
    }
  }

  lemma {:induction false} SameAgrees(q: Q.State, r: Q.State, tasks: S.Tasks)
    requires Agree(q, tasks) && r.waits == q.waits && forall x :: Pends(r, x) ==> Pends(q, x)
    ensures Agree(r, tasks)
  {
  }

  lemma {:induction false} GiveUpAgrees(s: State)
    requires Tied(s) && Allowed(s, GiveUp) && S.Enabled(s.k, S.Resume)
    ensures Agree(Queued(s, GiveUp), Run(s.k, Scheduled(s, GiveUp)).tasks)
  {
    var q, t := s.q, s.k.current;
    InLineWithout(q.rd.pend, q.value, q.waits.stamp, q.waits.arrivals, t);
    InLineWithout(q.wr.pend, q.value, q.waits.stamp, q.waits.arrivals, t);
    SubjectOnly(s.k, S.Resume, t);
    RestAgrees(q, Queued(s, GiveUp), s.k.tasks, S.Apply(s.k, S.Resume).tasks, t);
  }

  /** The status bits are the same. */
  ghost predicate SameStatus(a: S.Tcb, b: S.Tcb) {
    b.suspend == a.suspend && b.timeout == a.timeout && b.delay == a.delay && b.ready == a.ready
  }

  /** Operations that do not meddle leave the status of waiters alone. */
  lemma {:induction false} StatusFrame(s: State, o: S.Op, t: Task)
    requires Tied(s) && Allowed(s, Other(o)) && o != S.TickUpdate && Pends(s.q, t)
    ensures t in s.k.tasks && t in S.Apply(s.k, o).tasks && SameStatus(s.k.tasks[t], S.Apply(s.k, o).tasks[t])
  {
    assert Suspended(s.q.waits, s.k.tasks, t);
    if t != S.Subject(s.k, o) {
      S.ApplyFrame(s.k, o, t);
    } else if o.ChangePriority? {
      S.InvSound(s.k, t);
      S.SetPriorityFrame(s.k, t, o.priority);
    }
  }

  lemma {:induction false} MarkFrame(s: State, o: S.Op, t: Task)
    requires Tied(s) && Allowed(s, Other(o)) && o != S.TickUpdate && t in s.q.waits.late
    ensures Marked(S.Apply(s.k, o).tasks, t)
  {
    assert Marked(s.k.tasks, t);
    if t != S.Subject(s.k, o) {
      S.ApplyFrame(s.k, o, t);
    } else if o.ChangePriority? {
      S.InvSound(s.k, t);
      S.SetPriorityFrame(s.k, t, o.priority);
    } else if o.WakeUp? {
      WakeMarked(s.k, t);
    }
  }

  lemma {:induction false} OtherAgrees(s: State, o: S.Op)
    requires Tied(s) && Allowed(s, Other(o)) && o != S.TickUpdate
    ensures Agree(s.q, S.Apply(s.k, o).tasks)
  {
    forall t | Pends(s.q, t)
      ensures Suspended(s.q.waits, S.Apply(s.k, o).tasks, t)
    {
      assert Suspended(s.q.waits, s.k.tasks, t);
      StatusFrame(s, o, t);
    }
    forall t | t in s.q.waits.late
      ensures Marked(S.Apply(s.k, o).tasks, t)
    {
      MarkFrame(s, o, t);
    }
  }

  lemma {:induction false} TickAgrees(s: State)
    requires Tied(s)
    ensures Agree(Expired(s.q, Due(s.q, s.k)), S.Tick(s.k).tasks)
  {
    var r := Expired(s.q, Due(s.q, s.k));
    forall t | Pends(r, t)
      ensures Suspended(r.waits, S.Tick(s.k).tasks, t)
    {
      assert Pends(s.q, t) && Suspended(s.q.waits, s.k.tasks, t);
      S.TickSpec(s.k, t);
    }
    forall t | t in r.waits.late
      ensures Marked(S.Tick(s.k).tasks, t)
    {
      assert t in s.q.waits.late ==> Marked(s.k.tasks, t);
      assert Pends(s.q, t) ==> Suspended(s.q.waits, s.k.tasks, t);
      S.TickSpec(s.k, t);
    }
  }

  lemma {:induction false} StepAgrees(s: State, op: Op)
    requires Tied(s) && Allowed(s, op) && (Scheduled(s, op) != [] ==> S.Enabled(s.k, Scheduled(s, op)[0]))
    ensures Agree(Queued(s, op), Run(s.k, Scheduled(s, op)).tasks)
  {
    match op
    case Call(c, timeout) => CallAgrees(s, c, timeout);
    case CopyOne => SameAgrees(s.q, Queued(s, op), s.k.tasks);
    case Finish => FinishAgrees(s);
    case GiveUp => GiveUpAgrees(s);
    case Other(o) =>
      if o.TickUpdate? {
        TickAgrees(s);
      } else {
        OtherAgrees(s, o);
      }
  }

  lemma {:induction false} StepTied(s: State, op: Op)
    requires Tied(s) && Allowed(s, op) && (Scheduled(s, op) != [] ==> S.Enabled(s.k, Scheduled(s, op)[0]))
    ensures Tied(State(Queued(s, op), Run(s.k, Scheduled(s, op))))
  {
    var run := QueuedRefines(s, op);
    RunInv(s.k, Scheduled(s, op));
    StepAgrees(s, op);
  }

  ghost function Step(s: State, op: Op): (r: State)
    requires Tied(s) && Allowed(s, op)
    ensures Tied(r)
  {
    ScheduledEnabled(s, op);
    StepTied(s, op);
    State(Queued(s, op), Run(s.k, Scheduled(s, op)))
  }

  // ---- Runs ----------------------------------------------------------------------------------------

  ghost predicate Feasible(s: State, ops: seq<Op>)
    requires Tied(s)
    decreases |ops|
  {
    ops == [] || (Allowed(s, ops[0]) && Feasible(Step(s, ops[0]), ops[1..]))
  }

  ghost function Exec(s: State, ops: seq<Op>): (r: State)
    requires Tied(s) && Feasible(s, ops)
    ensures Tied(r)
    decreases |ops|
  {
    if ops == [] then s else Exec(Step(s, ops[0]), ops[1..])
  }

  /** Every run on the scheduler's clock does to the queue what a run of the queue by itself does: what
      is proved of those, which time out when they like, holds of it. */
  lemma {:induction false} RunRefinesQueue(s: State, ops: seq<Op>) returns (run: seq<Q.Op>)
    requires Tied(s) && Feasible(s, ops)
    ensures Ends(s.q, run, Exec(s, ops).q)
    decreases |ops|
  {
    if ops == [] {
      run := [];
    } else {
      var n := Step(s, ops[0]);
      var a := QueuedRefines(s, ops[0]);
      var b := RunRefinesQueue(n, ops[1..]);
      EndsJoined(s.q, a, n.q, b, Exec(n, ops[1..]).q);
      run := a + b;
    }
  }

  function Advance(op: Op): nat {
    if op == Other(S.TickUpdate) then 1 else 0
  }

  function TickCount(ops: seq<Op>): nat {
    if ops == [] then 0 else Advance(ops[0]) + TickCount(ops[1..])
  }

  /** No signal of the run goes to `t`. */
  ghost predicate NeverSignalled(s: State, ops: seq<Op>, t: Task)
    requires Tied(s) && Feasible(s, ops)
    decreases |ops|
  {
    ops == [] || (S.WakeUp(t) !in Scheduled(s, ops[0]) && NeverSignalled(Step(s, ops[0]), ops[1..], t))
  }

  /** Task `t` waits, and has n more ticks to do so. */
  ghost predicate WaitsFor(s: State, t: Task, n: int) {
    Pends(s.q, t) && t !in s.q.waits.late && t in s.k.tasks && s.k.tasks[t].delay && S.Left(s.k, t) == n
  }

  /** A call that finds no token and has n ticks to wait starts to do so. */
  lemma {:induction false} CallWaits(s: State, c: Q.Call, n: nat)
    requires Tied(s) && Allowed(s, Call(c, n)) && Blocks(s.q, c, n) && n != S.UINT32_MAX
    ensures WaitsFor(Step(s, Call(c, n)), s.k.current, n)
  {
    ReserveWaits(s.q, s.k.current, c, n);
    S.StartsWithNLeft(s.k, S.WaitFor(n), n);
  }

  /** A waiter that is not signalled and whose time is not up goes on waiting. */
  lemma {:induction false} StaysWaiting(s: State, op: Op, t: Task, n: int)
    requires Tied(s) && Allowed(s, op) && WaitsFor(s, t, n) && n > Advance(op) && S.WakeUp(t) !in Scheduled(s, op)
    ensures WaitsFor(Step(s, op), t, n - Advance(op))
  {
    assert Suspended(s.q.waits, s.k.tasks, t);
    ScheduledEnabled(s, op);
    StaysInLine(s, op, t);
    if op == Other(S.TickUpdate) {
      S.TickSpec(s.k, t);
    } else if Scheduled(s, op) != [] {
      S.DelayedFrame(s.k, Scheduled(s, op)[0], t);
    }
  }

  lemma {:induction false} FinishCalls(s: State, op: Op)
    requires Tied(s) && Allowed(s, op)
    ensures op.Finish? ==> s.k.current in s.q.calls
  {
    assert op.Finish? ==> Q.In(s.q.rd, s.k.current) || Q.In(s.q.wr, s.k.current);
  }

  /** Only a signal or its own giving up takes a waiter off its list. */
  lemma {:induction false} StaysInLine(s: State, op: Op, t: Task)
    requires Tied(s) && Allowed(s, op) && Pends(s.q, t) && S.WakeUp(t) !in Scheduled(s, op)
    requires op.GiveUp? ==> t != s.k.current
    ensures Pends(Queued(s, op), t)
  {
    FinishCalls(s, op);
    match op
    case Call(c, timeout) => ReserveKeepsWaiter(s.q, s.k.current, c, PatienceOf(timeout), t);
    case Finish => SignalKeepsWaiter(s.q, s.k.current, t);
    case GiveUp => GivenUpKeepsWaiter(s.q, s.k.current, t);
    case _ =>
  }

  lemma {:induction false} ReserveKeepsWaiter(q: Q.State, t: Task, c: Q.Call, wait: Patience, x: Task)
    requires Pends(q, x)
    ensures Pends(Q.Reserve(q, t, c, wait), x)
  {
    var side := Q.SideOf(q, Q.DirOf(c));
    InsertedMembers(side.pend, PendSlot(side.pend, q.value, t), t);
  }

  lemma {:induction false} SignalKeepsWaiter(q: Q.State, t: Task, x: Task)
    requires t in q.calls && Pends(q, x) && (OtherPend(q, t) != [] ==> x != OtherPend(q, t)[0])
    ensures Pends(Q.Signal(q, t), x)
  {
    var pend := OtherPend(q, t);
    assert x in pend ==> x in pend[1..];
  }

  lemma {:induction false} GivenUpKeepsWaiter(q: Q.State, t: Task, x: Task)
    requires Q.Inv(q) && Pends(q, x) && x != t
    ensures Pends(Q.GivenUp(q, t), x)
  {
    InLineWithout(q.rd.pend, q.value, q.waits.stamp, q.waits.arrivals, t);
    InLineWithout(q.wr.pend, q.value, q.waits.stamp, q.waits.arrivals, t);
  }

  lemma {:induction false} StillWaits(s: State, ops: seq<Op>, t: Task, n: int)
    requires Tied(s) && Feasible(s, ops) && WaitsFor(s, t, n) && TickCount(ops) < n && NeverSignalled(s, ops, t)
    ensures WaitsFor(Exec(s, ops), t, n - TickCount(ops))
    decreases |ops|
  {
    if ops != [] {
      StaysWaiting(s, ops[0], t, n);
      StillWaits(Step(s, ops[0]), ops[1..], t, n - Advance(ops[0]));
    }
  }

  /** A call with n ticks to wait that no signal reaches waits through every n - 1 of the following ticks,
      and has timed out right after the n-th. */
  lemma {:induction false} TimesOutExactlyOnTime(s: State, c: Q.Call, n: nat, ops: seq<Op>)
    requires Tied(s) && Allowed(s, Call(c, n)) && Blocks(s.q, c, n) && n != S.UINT32_MAX
    requires Feasible(Step(s, Call(c, n)), ops) && NeverSignalled(Step(s, Call(c, n)), ops, s.k.current) && TickCount(ops) < n
    ensures var t, r := s.k.current, Exec(Step(s, Call(c, n)), ops);
            && Pends(r.q, t) && t !in r.q.waits.late
            && (TickCount(ops) == n - 1 ==>
                  && Allowed(r, Other(S.TickUpdate)) && t in Step(r, Other(S.TickUpdate)).q.waits.late)
  {
    var t, u := s.k.current, Step(s, Call(c, n));
    CallWaits(s, c, n);
    StillWaits(u, ops, t, n);
    LastTick(Exec(u, ops), t, n - TickCount(ops));
  }

  lemma {:induction false} LastTick(s: State, t: Task, n: int)
    requires Tied(s) && WaitsFor(s, t, n)
    ensures Pends(s.q, t) && t !in s.q.waits.late && Allowed(s, Other(S.TickUpdate))
    ensures n == 1 ==> t in Step(s, Other(S.TickUpdate)).q.waits.late
  {
  }

  /** A step loses a token if and only if it signals a waiter that the tick has marked. */
  lemma {:induction false} TokenLostIff(s: State, op: Op)
    requires Tied(s) && Allowed(s, op) && Q.Conserved(s.q)
    ensures Q.Conserved(Step(s, op).q) <==>
            !(op.Finish? && OtherPend(s.q, s.k.current) != [] && Marked(s.k.tasks, OtherPend(s.q, s.k.current)[0]))
  {
    var t := s.k.current;
    match op
    case Call(c, timeout) => Q.TokensKeptIff(s.q, Q.Begin(t, c, PatienceOf(timeout)));
    case CopyOne => Q.TokensKeptIff(s.q, Q.CopyOne(t));
    case Finish => FinishLosesIff(s);
    case GiveUp => Q.TokensKeptIff(s.q, Q.GiveUp(t));
    case Other(_) =>
  }

  lemma {:induction false} FinishLosesIff(s: State)
    requires Tied(s) && Allowed(s, Finish) && Q.Conserved(s.q)
    ensures var pend := OtherPend(s.q, s.k.current);
            Q.Conserved(Queued(s, Finish)) <==> !(pend != [] && Marked(s.k.tasks, pend[0]))
  {
    var t := s.k.current;
    var pend := OtherPend(s.q, t);
    Q.TokensKeptIff(s.q, Q.Finish(t));
    FinishSide(s.q, t);
    assert pend != [] ==> Pends(s.q, pend[0]) && Suspended(s.q.waits, s.k.tasks, pend[0]);
  }

  lemma {:induction false} FinishSide(q: Q.State, t: Task)
    requires Q.Inv(q) && Q.Enabled(q, Q.Finish(t))
    ensures Q.Loses(q, Q.Finish(t)) <==> OtherPend(q, t) != [] && OtherPend(q, t)[0] in q.waits.late
  {
    assert t in q.rd.moved ==> Q.In(q.rd, t);
    assert t in q.wr.moved ==> Q.In(q.wr, t);
  }

  /** A new queue on any kernel. */
  lemma {:induction false} FreshTied(k: S.State, len: nat, size: nat, value: map<Task, nat>)
    requires S.Inv(k) && len > 0
    ensures Tied(State(Q.Create(len, size, value), k)) && Q.Conserved(Q.Create(len, size, value))
  {
  }
}
