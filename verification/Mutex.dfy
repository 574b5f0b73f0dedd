/** The recursive mutex with priority inheritance and direct hand-off
    (src/mutex.c), on top of the scheduler; every step is one critical section of
    one task. A wait may time out; the waiter then stays in the pend list until it
    runs again and gives up. */
module Mutex {
  import opened Machine
  import opened PendList
  import opened Scheduler
  import opened TaskList
  import Kernel

  /** The count is a half word. */
  const COUNT_LIMIT: nat := HALF_WORD

  datatype Owner = Nobody | Task(t: Task)

  /** The mutex, the scheduler it acts on, and what the proofs keep a record of:
      `held` counts each task's successful pends that it has not posted, and `stamp`
      orders the waiters by arrival. `base` is the priority a task was created
      with, the value of its pend item. */
  datatype State = State(k: Scheduler.State, count: nat, owner: Owner, priority: nat, pend: seq<Task>,
                         base: map<Task, nat>, held: map<Task, nat>, stamp: map<Task, nat>, arrivals: nat)

  function BaseOf(m: State, t: Task): nat {
    Entry(m.base, t)
  }

  function HeldBy(m: State, t: Task): nat {
    if t in m.held then m.held[t] else 0
  }

  // ---- The invariant -----------------------------------------------------------------

  /** The mutex has an owner exactly while its count is positive, and waiters only
      then. Nobody but the owner holds it, and the owner has pended and not posted it
      as often as the count says, or once less. */
  ghost predicate Owned(m: State) {
    && m.count < COUNT_LIMIT
    && (m.count == 0 <==> m.owner == Nobody)
    && (m.owner == Nobody ==> m.pend == [])
    && (forall t :: HeldBy(m, t) > 0 ==> m.owner == Task(t))
    && (m.owner.Task? ==> m.count - 1 <= HeldBy(m, m.owner.t) <= m.count)
  }

  /** The count is what the owner has pended and not yet posted. */
  predicate Counted(m: State) {
    m.owner.Task? ==> HeldBy(m, m.owner.t) == m.count
  }

  /** A waiter is suspended, and ready only if its wait has timed out. */
  ghost predicate Waiting(m: State, t: Task) {
    Suspended(m.k.tasks, t) && m.owner != Task(t)
  }

  ghost predicate Suspended(tasks: Tasks, t: Task) {
    t in tasks && tasks[t].suspend && (tasks[t].ready ==> tasks[t].timeout)
  }

  /** The wait of a task has timed out, and it has not run since: its call will fail. */
  predicate Late(m: State, t: Task) {
    t in m.k.tasks && m.k.tasks[t].timeout
  }

  /** Waiters stand in order of creation priority, then of arrival. */
  ghost predicate Queued(m: State) {
    && (forall i :: 0 <= i < |m.pend| ==> Waiting(m, m.pend[i]))
    && InLine(m.pend, m.base, m.stamp, m.arrivals)
  }

  /** Only the owner runs at another priority than it was created with, and then
      at a better one; the mutex remembers the priority to go back to. */
  ghost predicate Prioritized(m: State) {
    && (forall t :: t in m.k.tasks && m.owner != Task(t) ==> m.k.tasks[t].priority == BaseOf(m, t))
    && (m.owner == Nobody ==> m.priority == 0)
    && (m.owner.Task? ==>
          && m.owner.t in m.k.tasks && m.priority == BaseOf(m, m.owner.t) < PRIORITIES
          && m.k.tasks[m.owner.t].priority <= m.priority)
  }

  ghost predicate Good(m: State) {
    Inv(m.k) && Owned(m) && Queued(m) && Prioritized(m)
  }

  // ---- The operations ---------------------------------------------------------------

  /** What the operations themselves need of the state. */
  ghost predicate Callable(m: State) {
    && Sound(m.k, m.k.current) && m.k.tick < WORD && m.priority < PRIORITIES
    && (m.owner.Task? ==> Sound(m.k, m.owner.t))
    && (m.owner.Task? && m.pend != [] ==> Sound(m.k, m.pend[0]) && m.pend[0] != m.owner.t)
  }

  /** The count is a 16-bit word. */
  function Count16(n: nat): nat { n % COUNT_LIMIT }

  /** The running task takes the free mutex. */
  ghost function Acquire(m: State): State
    requires Callable(m)
  {
    var t := m.k.current;
    m.(count := 1, owner := Task(t), priority := m.k.tasks[t].priority, held := m.held[t := HeldBy(m, t) + 1])
  }

  /** The owner takes it again. */
  function Reenter(m: State): State {
    var t := m.k.current;
    m.(count := Count16(m.count + 1), held := m.held[t := HeldBy(m, t) + 1])
  }

  /** Priority inheritance: the owner gets the running task's priority if that
      is better than the one the owner took the mutex with. */
  ghost function Lend(m: State): Scheduler.State
    requires Callable(m) && m.owner.Task?
  {
    var p := m.k.tasks[m.k.current].priority;
    if m.priority > p then SetPriority(m.k, m.owner.t, p) else m.k
  }

  /** The running task queues up behind the owner. */
  ghost function Block(m: State, timeout: nat): State
    requires Callable(m) && m.k.tasks[m.k.current].ready && m.owner.Task? && m.owner.t != m.k.current && timeout < WORD
  {
    var t := m.k.current;
    LendFrame(m);
    m.(k := Wait(Lend(m), timeout), pend := Inserted(m.pend, PendSlot(m.pend, m.base, t), t),
       stamp := m.stamp[t := m.arrivals], arrivals := m.arrivals + 1)
  }

  /** `dos_mutex_pend` */
  ghost function Pended(m: State, timeout: nat): State
    requires Callable(m) && m.k.tasks[m.k.current].ready && (m.count != 0 ==> m.owner.Task?) && timeout < WORD
  {
    if m.count == 0 then Acquire(m)
    else if m.owner == Task(m.k.current) then Reenter(m)
    else if timeout == 0 then m
    else Block(m, timeout)
  }

  /** The scheduler once the owner's last post has undone the inheritance. */
  ghost function Restored(m: State): Scheduler.State
    requires Callable(m) && m.owner.Task?
  {
    if m.k.tasks[m.owner.t].priority != m.priority then SetPriority(m.k, m.owner.t, m.priority) else m.k
  }

  /** Task `t` has posted once; it may do so without holding the mutex. */
  function Given(m: State, t: Task): map<Task, nat> {
    m.held[t := if HeldBy(m, t) > 0 then HeldBy(m, t) - 1 else 0]
  }

  /** The mutex goes straight to the first waiter, whose pend succeeds unless it has timed out. */
  ghost function HandOff(m: State): State
    requires Callable(m) && m.owner.Task? && m.pend != []
  {
    var o, first := m.owner.t, m.pend[0];
    RestoredFrame(m);
    var held := Given(m, o);
    m.(k := Wake(Restored(m), first), count := 1, owner := Task(first), priority := Restored(m).tasks[first].priority,
       pend := m.pend[1..], held := held[first := HeldBy(m, first) + Won(m.k.tasks, first)])
  }

  /** Whether a pend succeeds when its task is woken. */
  function Won(tasks: Tasks, t: Task): nat {
    if t in tasks && tasks[t].timeout then 0 else 1
  }

  /** The end of `dos_mutex_pend` for a running task whose wait has timed out: it leaves the pend list. */
  function GivenUp(m: State): State
    requires m.k.current in m.k.tasks
  {
    m.(k := ResumeTimedOut(m.k), pend := Without(m.pend, m.k.current))
  }

  /** `dos_mutex_post` */
  ghost function Posted(m: State): State
    requires Callable(m)
  {
    var t := m.k.current;
    if m.count == 0 || m.owner != Task(t) then m
    else if m.count - 1 != 0 then m.(count := m.count - 1, held := Given(m, t))
    else if m.pend != [] then HandOff(m)
    else m.(k := Restored(m), count := 0, owner := Nobody, priority := 0, held := Given(m, t))
  }

  /** Lending changes only the owner's block, and that only in priority and place. */
  lemma {:induction false} LendFrame(m: State)
    requires Callable(m) && m.owner.Task?
    ensures var k, o, p := Lend(m), m.owner.t, m.k.tasks[m.k.current].priority;
            && o in k.tasks && k.tasks == m.k.tasks[o := k.tasks[o]] && Shaped(k.bits, k.lists)
            && k.current == m.k.current && k.idle == m.k.idle && k.tick == m.k.tick
            && k.tasks[o].priority == if m.priority > p then p else m.k.tasks[o].priority
  {
    var p := m.k.tasks[m.k.current].priority;
    if m.priority > p {
      SetPriorityFrame(m.k, m.owner.t, p);
    } else {
      assert m.k.tasks == m.k.tasks[m.owner.t := m.k.tasks[m.owner.t]];
    }
  }

  lemma {:induction false} RestoredFrame(m: State)
    requires Callable(m) && m.owner.Task?
    ensures var k, o := Restored(m), m.owner.t;
            && o in k.tasks && k.tasks == m.k.tasks[o := k.tasks[o]] && Shaped(k.bits, k.lists)
            && k.current == m.k.current && k.idle == m.k.idle
            && k.tasks[o].priority == m.priority
  {
    if m.k.tasks[m.owner.t].priority != m.priority {
      SetPriorityFrame(m.k, m.owner.t, m.priority);
    } else {
      assert m.k.tasks == m.k.tasks[m.owner.t := m.k.tasks[m.owner.t]];
    }
  }

  lemma {:induction false} GoodCallable(m: State)
    requires Good(m)
    ensures Callable(m)
  {
    InvSound(m.k, m.k.current);
    if m.owner.Task? {
      InvSound(m.k, m.owner.t);
      if m.pend != [] {
        assert Waiting(m, m.pend[0]);
        InvSound(m.k, m.pend[0]);
      }
    }
  }

  // ---- Every operation keeps the invariant ------------------------------------------

  /** The waiters are unaffected by a step that leaves them suspended and in their place in the queue. */
  lemma {:induction false} QueuedFrame(m: State, n: State)
    requires Queued(m) && m.arrivals <= n.arrivals && n.pend == m.pend
    requires forall t :: t in m.pend ==>
               && Suspended(n.k.tasks, t) && n.owner != Task(t)
               && Entry(n.base, t) == Entry(m.base, t) && Entry(n.stamp, t) == Entry(m.stamp, t)
    ensures Queued(n)
  {
    forall i | 0 <= i < |m.pend|
      ensures Waiting(n, n.pend[i])
    {
      assert m.pend[i] in m.pend;
    }
    InLineFrame(m.pend, m.base, m.stamp, m.arrivals, n.base, n.stamp, n.arrivals);
  }

  lemma {:induction false} WaitersQueued(m: State)
    requires Queued(m)
    ensures forall t :: t in m.pend ==> Waiting(m, t)
  {
  }

  lemma {:induction false} AcquireGood(m: State)
    requires Good(m) && Callable(m) && m.count == 0
    ensures Good(Acquire(m))
  {
  }

  /** Recursion keeps the invariant exactly up to depth 65535: at the next pend
      the 16-bit count wraps to zero and the held mutex looks free. */
  lemma {:induction false} ReenterGood(m: State)
    requires Good(m) && m.owner == Task(m.k.current)
    ensures Good(Reenter(m)) <==> m.count + 1 < COUNT_LIMIT
  {
    ReenterOwned(m);
    assert Queued(Reenter(m)) by {
      WaitersQueued(m);
      QueuedFrame(m, Reenter(m));
    }
  }

  lemma {:induction false} ReenterOwned(m: State)
    requires Owned(m) && m.owner == Task(m.k.current)
    ensures Owned(Reenter(m)) <==> m.count + 1 < COUNT_LIMIT
  {
  }

  ghost predicate Blocks(m: State) {
    && Callable(m) && m.k.tasks[m.k.current].ready && m.owner.Task?
    && m.owner.t != m.k.current && m.k.current != m.k.idle
  }

  /** The block of a task that waits. */
  ghost predicate Asleep(before: Tcb, after: Tcb) {
    after.suspend && !after.ready && after.timeout == before.timeout && after.priority == before.priority
  }

  lemma {:induction false} BlockTasks(m: State, timeout: nat)
    requires Blocks(m) && 1 <= timeout < WORD
    ensures var n, t := Block(m, timeout), m.k.current;
            && t in n.k.tasks && n.k.tasks == Lend(m).tasks[t := n.k.tasks[t]] && Asleep(m.k.tasks[t], n.k.tasks[t])
            && n.k.current == m.k.current && n.k.idle == m.k.idle
  {
    LendFrame(m);
  }

  lemma {:induction false} BlockInv(m: State, timeout: nat)
    requires Blocks(m) && Inv(m.k) && 1 <= timeout < WORD
    ensures Inv(Block(m, timeout).k)
  {
    LendFrame(m);
    if m.priority > m.k.tasks[m.k.current].priority {
      SetPriorityKeepsInv(m.k, m.owner.t, m.k.tasks[m.k.current].priority);
    }
    WaitKeepsInv(Lend(m), timeout);
  }

  lemma {:induction false} NewcomerQueued(m: State, n: State, t: Task)
    requires Queued(m) && t !in m.pend && m.owner != Task(t)
    requires n == m.(k := n.k, pend := Inserted(m.pend, PendSlot(m.pend, m.base, t), t),
                     stamp := m.stamp[t := m.arrivals], arrivals := m.arrivals + 1)
    requires forall x :: x in m.pend || x == t ==> Suspended(n.k.tasks, x)
    ensures Queued(n)
  {
    InLineInserted(m.pend, m.base, m.stamp, m.arrivals, t);
    WaitersQueued(m);
    forall i | 0 <= i < |n.pend|
      ensures Waiting(n, n.pend[i])
    {
      assert n.pend[i] in n.pend;
    }
  }

  lemma {:induction false} BlockQueued(m: State, timeout: nat)
    requires Blocks(m) && Queued(m) && m.k.current !in m.pend && 1 <= timeout < WORD
    ensures Queued(Block(m, timeout))
  {
    BlockTasks(m, timeout);
    WaitersQueued(m);
    LendFrame(m);
    NewcomerQueued(m, Block(m, timeout), m.k.current);
  }

  lemma {:induction false} BlockPrioritized(m: State, timeout: nat)
    requires Blocks(m) && Prioritized(m) && 1 <= timeout < WORD
    ensures Prioritized(Block(m, timeout))
  {
    BlockTasks(m, timeout);
    LendFrame(m);
  }

  lemma {:induction false} HandOffTasks(m: State)
    requires Callable(m) && m.owner.Task? && m.pend != []
    ensures var n, first := HandOff(m), m.pend[0];
            && n.k.tasks == Restored(m).tasks[first := n.k.tasks[first]] && first in m.k.tasks
            && n.k.tasks[first].priority == m.k.tasks[first].priority == n.priority < PRIORITIES
  {
    RestoredFrame(m);
  }

  lemma {:induction false} HandOffInv(m: State)
    requires Callable(m) && m.owner.Task? && m.pend != [] && Inv(m.k)
    ensures Inv(HandOff(m).k)
  {
    RestoredFrame(m);
    if m.k.tasks[m.owner.t].priority != m.priority {
      SetPriorityKeepsInv(m.k, m.owner.t, m.priority);
    }
    var first := m.pend[0];
    EnterReadyInv(Restored(m), first, Restored(m).tasks[first].(suspend := false, delay := false));
  }

  lemma {:induction false} RestQueued(m: State)
    requires Queued(m) && m.pend != []
    ensures Queued(m.(pend := m.pend[1..])) && m.pend[0] !in m.pend[1..]
  {
    InLineRest(m.pend, m.base, m.stamp, m.arrivals);
    var r := m.(pend := m.pend[1..]);
    forall i | 0 <= i < |r.pend|
      ensures Waiting(r, r.pend[i])
    {
      assert Waiting(m, m.pend[i + 1]);
    }
  }

  lemma {:induction false} HandOffQueued(m: State)
    requires Callable(m) && m.owner.Task? && m.pend != [] && Queued(m)
    ensures Queued(HandOff(m))
  {
    HandOffTasks(m);
    RestoredFrame(m);
    RestQueued(m);
    WaitersQueued(m.(pend := m.pend[1..]));
    QueuedFrame(m.(pend := m.pend[1..]), HandOff(m));
  }

  lemma {:induction false} HandOffPrioritized(m: State)
    requires Callable(m) && m.owner.Task? && m.pend != [] && Prioritized(m)
    ensures Prioritized(HandOff(m))
  {
    HandOffTasks(m);
    RestoredFrame(m);
  }

  lemma {:induction false} ReleaseGood(m: State)
    requires Good(m) && Callable(m) && m.owner == Task(m.k.current) && m.count == 1 && m.pend == []
    ensures Good(Posted(m))
  {
    RestoredFrame(m);
    if m.k.tasks[m.owner.t].priority != m.priority {
      SetPriorityKeepsInv(m.k, m.owner.t, m.priority);
    }
  }

  lemma {:induction false} PendGood(m: State, timeout: nat)
    requires Good(m) && Callable(m) && m.k.tasks[m.k.current].ready && (timeout != 0 ==> m.k.current != m.k.idle)
    requires m.k.current !in m.pend && timeout < WORD && (m.owner == Task(m.k.current) ==> m.count + 1 < COUNT_LIMIT)
    ensures Good(Pended(m, timeout))
  {
    if m.count == 0 {
      AcquireGood(m);
    } else if m.owner == Task(m.k.current) {
      ReenterGood(m);
    } else if timeout != 0 {
      BlockInv(m, timeout);
      BlockQueued(m, timeout);
      BlockPrioritized(m, timeout);
    }
  }

  /** A hand-off keeps the invariant, and leaves the count right if and only if the first waiter has
      not timed out: otherwise the mutex belongs to a task whose pend fails. */
  lemma {:induction false} HandOffGood(m: State)
    requires Good(m) && Callable(m) && m.owner == Task(m.k.current) && m.count == 1 && m.pend != []
    ensures Good(HandOff(m)) && (Counted(HandOff(m)) <==> !Late(m, m.pend[0]))
  {
    assert Inv(HandOff(m).k) by { HandOffInv(m); }
    assert Queued(HandOff(m)) by { HandOffQueued(m); }
    assert Prioritized(HandOff(m)) by { HandOffPrioritized(m); }
    HandOffOwned(m);
  }

  lemma {:induction false} HandOffOwned(m: State)
    requires Owned(m) && Callable(m) && m.owner.Task? && m.count == 1 && m.pend != []
    ensures Owned(HandOff(m)) && (Counted(HandOff(m)) <==> !Late(m, m.pend[0]))
  {
    var n, first := HandOff(m), m.pend[0];
    assert HeldBy(m, first) == 0 && HeldBy(n, first) == Won(m.k.tasks, first);
    forall t | HeldBy(n, t) > 0
      ensures n.owner == Task(t)
    {
      assert HeldBy(m, t) > 0 ==> m.owner == Task(t);
    }
  }

  /** The next post by the running task hands the mutex to a waiter that has timed out. */
  ghost predicate HandsTooLate(m: State) {
    m.owner == Task(m.k.current) && m.count == 1 && m.pend != [] && Late(m, m.pend[0])
  }

  lemma {:induction false} PostGood(m: State)
    requires Good(m) && Callable(m)
    ensures Good(Posted(m))
  {
    if m.owner == Task(m.k.current) {
      if m.count > 1 {
        WaitersQueued(m);
        QueuedFrame(m, Posted(m));
      } else if m.pend == [] {
        ReleaseGood(m);
      } else {
        HandOffGood(m);
      }
    }
  }

  lemma {:induction false} LeftQueued(m: State, n: State, t: Task)
    requires Queued(m) && n == m.(k := n.k, base := n.base, pend := Without(m.pend, t))
    requires forall x :: x in m.pend && x != t ==> Suspended(n.k.tasks, x) && Entry(n.base, x) == Entry(m.base, x)
    ensures Queued(n)
  {
    InLineWithout(m.pend, m.base, m.stamp, m.arrivals, t);
    WaitersQueued(m);
    forall i | 0 <= i < |n.pend|
      ensures Waiting(n, n.pend[i])
    {
      assert n.pend[i] in n.pend;
    }
    InLineFrame(n.pend, m.base, m.stamp, m.arrivals, n.base, m.stamp, m.arrivals);
  }

  /** A waiter that gives up keeps the invariant. */
  lemma {:induction false} GiveUpGood(m: State)
    requires Good(m) && m.k.current in m.pend && m.k.tasks[m.k.current].ready
    ensures Good(GivenUp(m))
  {
    ResumeKeepsInv(m.k);
    WaitersQueued(m);
    LeftQueued(m, GivenUp(m), m.k.current);
    assert m.pend != [];
  }

  // ---- Runs -----------------------------------------------------------------------------

  /** A call on the mutex by the running task, its return from a wait that has timed
      out, or any other scheduler operation. */
  datatype Op = MutexPend(timeout: nat) | MutexPost | GiveUp | Other(op: Scheduler.Op)

  /** What only a task that runs outside `dos_mutex_pend` does. */
  predicate OwnAct(o: Scheduler.Op, current: Task) {
    o.SleepFor? || o.WaitFor? || o.Resume? || o == DeleteTask(current)
  }

  /** Nobody else sets priorities, wakes the mutex's waiters, or deletes the task
      that holds it; the idle task never waits. Recursion stays below the range of
      the 16-bit count. A waiter that has timed out, once it runs, gives up before it
      does anything else. */
  ghost predicate Allowed(m: State, op: Op)
    requires Good(m)
  {
    match op
    case MutexPend(timeout) =>
      && m.k.tasks[m.k.current].ready && m.k.current !in m.pend && !Late(m, m.k.current)
      && timeout < WORD && (timeout != 0 ==> m.k.current != m.k.idle)
      && (m.owner == Task(m.k.current) ==> m.count + 1 < COUNT_LIMIT)
    case MutexPost => m.k.current !in m.pend
    case GiveUp => m.k.current in m.pend && m.k.tasks[m.k.current].ready
    case Other(o) =>
      && Enabled(m.k, o) && !o.ChangePriority?
      && (m.k.current in m.pend ==> !OwnAct(o, m.k.current))
      && (o.WakeUp? ==> o.t !in m.pend) && (o.DeleteTask? ==> m.owner != Task(o.t))
  }

  /** A task that is deleted leaves the pend list. */
  ghost function OtherStep(m: State, o: Scheduler.Op): State
    requires Good(m) && Allowed(m, Other(o))
  {
    m.(k := Apply(m.k, o), base := if o.NewTask? then m.base[o.t := o.priority] else m.base,
       pend := if o.DeleteTask? then Without(m.pend, o.t) else m.pend)
  }

  /** A waiter stays one, unless it is woken, deleted, or gives up. */
  lemma {:induction false} WaiterFrame(k: Scheduler.State, o: Scheduler.Op, t: Task)
    requires Inv(k) && Enabled(k, o) && Suspended(k.tasks, t) && !o.ChangePriority?
    requires o != WakeUp(t) && o != DeleteTask(t) && (t == k.current ==> !OwnAct(o, t))
    ensures Suspended(Apply(k, o).tasks, t)
  {
    if o == TickUpdate {
      TickSpec(k, t);
    } else if t != Subject(k, o) {
      ApplyFrame(k, o, t);
    }
  }

  lemma {:induction false} OtherQueued(m: State, o: Scheduler.Op)
    requires Good(m) && Allowed(m, Other(o))
    ensures Queued(OtherStep(m, o))
  {
    WaitersQueued(m);
    forall t | t in m.pend && o != DeleteTask(t)
      ensures Suspended(Apply(m.k, o).tasks, t)
    {
      WaiterFrame(m.k, o, t);
    }
    if o.DeleteTask? {
      LeftQueued(m, OtherStep(m, o), o.t);
    } else {
      QueuedFrame(m, OtherStep(m, o));
    }
  }

  lemma {:induction false} OtherPrioritized(m: State, o: Scheduler.Op)
    requires Good(m) && Allowed(m, Other(o))
    ensures Prioritized(OtherStep(m, o))
  {
    var n := OtherStep(m, o);
    forall t | t in n.k.tasks && m.owner != Task(t)
      ensures n.k.tasks[t].priority == BaseOf(n, t)
    {
      if t in m.k.tasks {
        PriorityFrame(m.k, o, t);
      } else {
        OnlyCreated(m.k, o, t);
      }
    }
    if m.owner.Task? {
      OwnerStays(m.k, o, m.owner.t);
      PriorityFrame(m.k, o, m.owner.t);
    }
  }

  lemma {:induction false} OnlyCreated(k: Scheduler.State, o: Scheduler.Op, t: Task)
    requires Inv(k) && Enabled(k, o) && t !in k.tasks && t in Apply(k, o).tasks
    ensures o.NewTask? && t == o.t && Apply(k, o).tasks[t].priority == o.priority
  {
    if o == TickUpdate {
      TickKeys(k);
    } else if t != Subject(k, o) {
      ApplyFrame(k, o, t);
    }
  }

  lemma {:induction false} OwnerStays(k: Scheduler.State, o: Scheduler.Op, t: Task)
    requires Inv(k) && Enabled(k, o) && t in k.tasks && o != DeleteTask(t)
    ensures t in Apply(k, o).tasks
  {
    if o == TickUpdate {
      TickKeys(k);
    } else if t != Subject(k, o) {
      ApplyFrame(k, o, t);
    }
  }

  lemma {:induction false} OtherGood(m: State, o: Scheduler.Op)
    requires Good(m) && Allowed(m, Other(o))
    ensures Good(OtherStep(m, o))
  {
    ApplyKeepsInv(m.k, o);
    OtherQueued(m, o);
    OtherPrioritized(m, o);
    SameOwned(m, OtherStep(m, o));
  }

  lemma {:induction false} SameOwned(m: State, n: State)
    requires Owned(m) && n.count == m.count && n.owner == m.owner && n.held == m.held && (m.pend == [] ==> n.pend == [])
    ensures Owned(n)
  {
    forall t | HeldBy(n, t) > 0
      ensures n.owner == Task(t)
    {
      assert HeldBy(m, t) > 0;
    }
  }

  /** Every step keeps the invariant. */
  ghost function Step(m: State, op: Op): (n: State)
    requires Good(m) && Allowed(m, op)
    ensures Good(n)
  {
    GoodCallable(m);
    match op
    case MutexPend(timeout) =>
      PendGood(m, timeout);
      Pended(m, timeout)
    case MutexPost =>
      PostGood(m);
      Posted(m)
    case GiveUp =>
      GiveUpGood(m);
      GivenUp(m)
    case Other(o) =>
      OtherGood(m, o);
      OtherStep(m, o)
  }

  ghost predicate Feasible(m: State, ops: seq<Op>)
    requires Good(m)
    decreases |ops|
  {
    ops == [] || (Allowed(m, ops[0]) && Feasible(Step(m, ops[0]), ops[1..]))
  }

  ghost function Exec(m: State, ops: seq<Op>): (r: State)
    requires Good(m) && Feasible(m, ops)
    ensures Good(r)
    decreases |ops|
  {
    if ops == [] then m else Exec(Step(m, ops[0]), ops[1..])
  }

  /** Over every run, with waits of any length, at most one task holds the mutex; it
      is the owner, and the count is what it holds or one more; nobody waits while the
      mutex is free. */
  lemma {:induction false} MutualExclusion(m: State, ops: seq<Op>, t: Task, u: Task)
    requires Good(m) && Feasible(m, ops)
    ensures var r := Exec(m, ops);
            && (HeldBy(r, t) > 0 && HeldBy(r, u) > 0 ==> t == u)
            && (HeldBy(r, t) > 0 ==> r.owner == Task(t) && HeldBy(r, t) <= r.count <= HeldBy(r, t) + 1)
            && (r.pend != [] ==> r.owner.Task? && r.count > 0)
  {
    assert HeldBy(Exec(m, ops), t) > 0 ==> Exec(m, ops).owner == Task(t);
  }

  // ---- The count, and waiters woken too late ------------------------------------------------

  ghost predicate TooLate(m: State, op: Op) {
    op.MutexPost? && HandsTooLate(m)
  }

  /** A step leaves a right count right if and only if it is not a post that hands the mutex to a
      waiter that has timed out. */
  lemma {:induction false} StepCountedIff(m: State, op: Op)
    requires Good(m) && Allowed(m, op) && Counted(m)
    ensures Counted(Step(m, op)) <==> !TooLate(m, op)
  {
    GoodCallable(m);
    match op
    case MutexPend(timeout) => PendCounted(m, timeout);
    case MutexPost => PostCounted(m);
    case GiveUp =>
    case Other(_) =>
  }

  lemma {:induction false} PendCounted(m: State, timeout: nat)
    requires Owned(m) && Callable(m) && m.k.tasks[m.k.current].ready && timeout < WORD
    requires m.owner == Task(m.k.current) ==> m.count + 1 < COUNT_LIMIT
    ensures Counted(Pended(m, timeout)) <==> Counted(m)
    ensures m.owner.Task? ==> Pended(m, timeout).owner == m.owner
  {
    assert m.count == 0 ==> HeldBy(m, m.k.current) == 0;
  }

  lemma {:induction false} PostCounted(m: State)
    requires Owned(m) && Callable(m) && Counted(m)
    ensures Counted(Posted(m)) <==> !HandsTooLate(m)
  {
    if m.owner == Task(m.k.current) && m.count == 1 && m.pend != [] {
      HandOffOwned(m);
    }
  }

  ghost predicate NeverTooLate(m: State, ops: seq<Op>)
    requires Good(m) && Feasible(m, ops)
    decreases |ops|
  {
    ops == [] || (!TooLate(m, ops[0]) && NeverTooLate(Step(m, ops[0]), ops[1..]))
  }

  /** Tasks post only what they hold. */
  ghost predicate PostsOwn(m: State, ops: seq<Op>)
    requires Good(m) && Feasible(m, ops)
    decreases |ops|
  {
    ops == [] || (Posts(m, ops[0]) && PostsOwn(Step(m, ops[0]), ops[1..]))
  }

  predicate Posts(m: State, op: Op) {
    op.MutexPost? && m.owner == Task(m.k.current) ==> HeldBy(m, m.k.current) > 0
  }

  /** In every run in which nobody is woken too late the count is the owner's pends minus posts, and the
      mutex is held by the owner. */
  lemma {:induction false} RunCounts(m: State, ops: seq<Op>)
    requires Good(m) && Feasible(m, ops) && Counted(m) && NeverTooLate(m, ops)
    ensures var r := Exec(m, ops); r.owner.Task? ==> r.count == HeldBy(r, r.owner.t) > 0
    decreases |ops|
  {
    if ops != [] {
      StepCountedIff(m, ops[0]);
      RunCounts(Step(m, ops[0]), ops[1..]);
    }
  }

  lemma {:induction false} StaysLost(m: State, op: Op)
    requires Good(m) && Allowed(m, op) && !Counted(m) && Posts(m, op)
    ensures !Counted(Step(m, op)) && Step(m, op).owner == m.owner
  {
    GoodCallable(m);
    match op
    case MutexPend(timeout) => PendCounted(m, timeout);
    case MutexPost => PostStaysLost(m);
    case GiveUp =>
    case Other(_) =>
  }

  lemma {:induction false} PostStaysLost(m: State)
    requires Owned(m) && Callable(m) && !Counted(m) && Posts(m, MutexPost)
    ensures !Counted(Posted(m)) && Posted(m).owner == m.owner
  {
  }

  /** Once a task has got the mutex too late, the mutex is its own for ever, unless it posts what it
      does not hold. */
  lemma {:induction false} LostForEver(m: State, ops: seq<Op>)
    requires Good(m) && Feasible(m, ops) && !Counted(m) && PostsOwn(m, ops)
    ensures var r := Exec(m, ops); !Counted(r) && r.owner == m.owner
    decreases |ops|
  {
    if ops != [] {
      StaysLost(m, ops[0]);
      LostForEver(Step(m, ops[0]), ops[1..]);
    }
  }

  /** So if tasks post only what they hold, a run leaves the count right if and only if it never wakes
      a waiter too late. */
  lemma {:induction false} RunCountsIff(m: State, ops: seq<Op>)
    requires Good(m) && Feasible(m, ops) && Counted(m) && PostsOwn(m, ops)
    ensures Counted(Exec(m, ops)) <==> NeverTooLate(m, ops)
    decreases |ops|
  {
    if ops != [] {
      StepCountedIff(m, ops[0]);
      if TooLate(m, ops[0]) {
        LostForEver(Step(m, ops[0]), ops[1..]);
      } else {
        RunCountsIff(Step(m, ops[0]), ops[1..]);
      }
    }
  }

  // What the calls of a run answer, without regard to `held`.

  /** A step makes a pend of task `t` succeed: its own call, or a post that hands it the mutex in time. */
  predicate Wins(m: State, op: Op, t: Task) {
    match op
    case MutexPend(_) => t == m.k.current && (m.count == 0 || m.owner == Task(t))
    case MutexPost => m.owner == Task(m.k.current) && m.count == 1 && m.pend != [] && m.pend[0] == t && !Late(m, t)
    case _ => false
  }

  /** A post of task `t` is accepted. */
  predicate Yields(m: State, op: Op, t: Task) {
    op.MutexPost? && t == m.k.current && m.count != 0 && m.owner == Task(t)
  }

  ghost function Pends(m: State, ops: seq<Op>, t: Task): nat
    requires Good(m) && Feasible(m, ops)
    decreases |ops|
  {
    if ops == [] then 0 else (if Wins(m, ops[0], t) then 1 else 0) + Pends(Step(m, ops[0]), ops[1..], t)
  }

  ghost function PostsBy(m: State, ops: seq<Op>, t: Task): nat
    requires Good(m) && Feasible(m, ops)
    decreases |ops|
  {
    if ops == [] then 0 else (if Yields(m, ops[0], t) then 1 else 0) + PostsBy(Step(m, ops[0]), ops[1..], t)
  }

  lemma {:induction false} PendHeld(m: State, timeout: nat, t: Task)
    requires Owned(m) && Callable(m) && m.k.tasks[m.k.current].ready && timeout < WORD
    ensures HeldBy(Pended(m, timeout), t) == HeldBy(m, t) + if Wins(m, MutexPend(timeout), t) then 1 else 0
  {
  }

  lemma {:induction false} PostHeld(m: State, t: Task)
    requires Owned(m) && Callable(m) && Posts(m, MutexPost)
    ensures HeldBy(Posted(m), t) == HeldBy(m, t) + (if Wins(m, MutexPost, t) then 1 else 0)
                                    - if Yields(m, MutexPost, t) then 1 else 0
  {
    if m.owner == Task(m.k.current) && m.count == 1 && m.pend != [] {
      assert Posted(m) == HandOff(m) && m.pend[0] != m.k.current;
    }
  }

  lemma {:induction false} StepHeld(m: State, op: Op, t: Task)
    requires Good(m) && Allowed(m, op) && Posts(m, op)
    ensures HeldBy(Step(m, op), t) == HeldBy(m, t) + (if Wins(m, op, t) then 1 else 0) - if Yields(m, op, t) then 1 else 0
  {
    GoodCallable(m);
    match op
    case MutexPend(timeout) => PendHeld(m, timeout, t);
    case MutexPost => PostHeld(m, t);
    case GiveUp =>
    case Other(_) =>
  }

  /** In every run in which tasks post only what they hold, what a task holds at the end is what it held
      before, its pends that succeeded, and less its posts that were accepted. */
  lemma {:induction false} HeldIsPendsMinusPosts(m: State, ops: seq<Op>, t: Task)
    requires Good(m) && Feasible(m, ops) && PostsOwn(m, ops)
    ensures HeldBy(Exec(m, ops), t) == HeldBy(m, t) + Pends(m, ops, t) - PostsBy(m, ops, t)
    decreases |ops|
  {
    if ops != [] {
      StepHeld(m, ops[0], t);
      HeldIsPendsMinusPosts(Step(m, ops[0]), ops[1..], t);
    }
  }

  /** So a mutex that was free and that each task has posted as often as its pends succeeded is free again,
      unless it went to a waiter too late. */
  lemma {:induction false} EvenRunsFree(m: State, ops: seq<Op>)
    requires Good(m) && Feasible(m, ops) && m.owner == Nobody && PostsOwn(m, ops) && NeverTooLate(m, ops)
    requires forall t :: Pends(m, ops, t) == PostsBy(m, ops, t)
    ensures var r := Exec(m, ops); r.count == 0 && r.owner == Nobody && r.pend == []
  {
    var r := Exec(m, ops);
    RunCounts(m, ops);
    if r.owner.Task? {
      HeldIsPendsMinusPosts(m, ops, r.owner.t);
    }
  }

  // ---- Waits of zero or for ever ----------------------------------------------------------------

  predicate Patient(op: Op) {
    op.MutexPend? ==> op.timeout == 0 || op.timeout == UINT32_MAX
  }

  /** No list of the scheduler has the task, and it has not timed out. */
  ghost predicate Sleeps(tasks: Tasks, t: Task) {
    t in tasks && tasks[t].home == Nowhere && !tasks[t].timeout
  }

  /** All waiters wait for ever. */
  ghost predicate InTime(m: State) {
    forall t :: t in m.pend ==> Sleeps(m.k.tasks, t)
  }

  lemma {:induction false} BlockInTime(m: State)
    requires Good(m) && Blocks(m) && InTime(m) && !Late(m, m.k.current)
    ensures InTime(Block(m, UINT32_MAX))
  {
    LendFrame(m);
    WaitersQueued(m);
    InsertedMembers(m.pend, PendSlot(m.pend, m.base, m.k.current), m.k.current);
  }

  lemma {:induction false} HandOffInTime(m: State)
    requires Callable(m) && m.owner.Task? && m.pend != [] && Queued(m) && InTime(m)
    ensures InTime(HandOff(m))
  {
    HandOffTasks(m);
    RestoredFrame(m);
    RestQueued(m);
    WaitersQueued(m);
    forall t | t in m.pend[1..]
      ensures Sleeps(HandOff(m).k.tasks, t)
    {
      assert t in m.pend && Waiting(m, t) && Sleeps(m.k.tasks, t);
    }
  }

  lemma {:induction false} PostInTime(m: State)
    requires Good(m) && Callable(m) && InTime(m)
    ensures InTime(Posted(m)) && !HandsTooLate(m)
  {
    if m.owner == Task(m.k.current) && m.count == 1 && m.pend != [] {
      assert Sleeps(m.k.tasks, m.pend[0]);
      HandOffInTime(m);
    }
  }

  lemma {:induction false} OtherInTime(m: State, o: Scheduler.Op)
    requires Good(m) && Allowed(m, Other(o)) && InTime(m)
    ensures InTime(OtherStep(m, o))
  {
    if o.DeleteTask? {
      InLineWithout(m.pend, m.base, m.stamp, m.arrivals, o.t);
    }
    forall t | t in OtherStep(m, o).pend
      ensures Sleeps(Apply(m.k, o).tasks, t)
    {
      SuspendedFrame(m.k, o, t);
    }
  }

  lemma {:induction false} PendInTime(m: State, timeout: nat)
    requires Good(m) && Allowed(m, MutexPend(timeout)) && Callable(m) && (timeout == 0 || timeout == UINT32_MAX) && InTime(m)
    ensures InTime(Pended(m, timeout))
  {
    if m.count != 0 && m.owner != Task(m.k.current) && timeout != 0 {
      BlockInTime(m);
    }
  }

  /** A task that waits for ever does not run. */
  lemma {:induction false} NobodyGivesUp(m: State)
    requires Good(m) && InTime(m)
    ensures !Allowed(m, GiveUp)
  {
    if m.k.current in m.pend {
      assert Waiting(m, m.k.current) && Sleeps(m.k.tasks, m.k.current);
    }
  }

  lemma {:induction false} StepInTime(m: State, op: Op)
    requires Good(m) && Allowed(m, op) && Patient(op) && InTime(m)
    ensures InTime(Step(m, op)) && !TooLate(m, op)
  {
    GoodCallable(m);
    NobodyGivesUp(m);
    match op
    case MutexPend(timeout) => PendInTime(m, timeout);
    case MutexPost => PostInTime(m);
    case Other(o) => OtherInTime(m, o);
  }

  /** In every run whose waits are of zero or for ever nobody is woken too late, so that the count is the
      owner's pends minus posts. */
  lemma {:induction false} PatientRunsCount(m: State, ops: seq<Op>)
    requires Good(m) && Feasible(m, ops) && Counted(m) && InTime(m) && forall op <- ops :: Patient(op)
    ensures NeverTooLate(m, ops)
    ensures var r := Exec(m, ops); InTime(r) && (r.owner.Task? ==> r.count == HeldBy(r, r.owner.t) > 0)
    decreases |ops|
  {
    if ops != [] {
      StepInTime(m, ops[0]);
      StepCountedIff(m, ops[0]);
      PatientRunsCount(Step(m, ops[0]), ops[1..]);
    }
  }

  /** A pend on a mutex that another task owns is refused without a timeout; with one its task, whatever its
      priority, goes to its place among the waiters and is suspended, for so many ticks or for ever. */
  lemma {:induction false} PendBlocks(m: State, timeout: nat)
    requires Good(m) && Allowed(m, MutexPend(timeout)) && m.owner.Task? && m.owner.t != m.k.current
    ensures Callable(m)
    ensures var n, t := Pended(m, timeout), m.k.current;
            if timeout == 0 then n == m
            else
              && n.pend == Inserted(m.pend, PendSlot(m.pend, m.base, t), t) && n.owner == m.owner && n.count == m.count
              && t in n.k.tasks && n.k.tasks[t].suspend && !n.k.tasks[t].ready && n.k.current == t
              && (timeout == UINT32_MAX ==> n.k.tasks[t].home == Nowhere)
              && (timeout != UINT32_MAX ==> n.k.tasks[t].delay && Left(n.k, t) == timeout)
  {
    GoodCallable(m);
    if timeout != 0 {
      BlockTasks(m, timeout);
      BlockStarts(m, timeout);
    }
  }

  lemma {:induction false} BlockStarts(m: State, timeout: nat)
    requires Blocks(m) && Inv(m.k) && 1 <= timeout < WORD
    ensures var n, t := Block(m, timeout), m.k.current;
            && t in n.k.tasks
            && (timeout == UINT32_MAX ==> n.k.tasks[t].home == Nowhere)
            && (timeout != UINT32_MAX ==> n.k.tasks[t].delay && Left(n.k, t) == timeout)
  {
    LendFrame(m);
    if timeout != UINT32_MAX {
      SleepStarts(Lend(m), Lend(m).tasks[m.k.current].(suspend := true), timeout);
    }
  }

  /** The owner's last post makes the next owner, at count one, the waiter with
      the best creation priority and among those the one that came first. */
  lemma {:induction false} HandsToFirstWaiter(m: State, w: Task)
    requires Good(m) && m.owner == Task(m.k.current) && m.count == 1 && w in m.pend
    ensures Callable(m)
    ensures var n := Posted(m);
            && n.count == 1 && n.owner.Task? && n.owner.t in m.pend && n.owner.t !in n.pend
            && (w == n.owner.t || (Before(m.base, m.stamp, n.owner.t, w) && w in n.pend))
            && n.k.tasks[n.owner.t].ready
  {
    GoodCallable(m);
    RestQueued(m);
    var i :| 0 <= i < |m.pend| && m.pend[i] == w;
    if i > 0 {
      assert Before(m.base, m.stamp, m.pend[0], m.pend[i]) && m.pend[1..][i - 1] == w;
    }
    HandOffTasks(m);
  }

  // ---- Priority inheritance ---------------------------------------------------------------

  /** What inheritance is for: no waiter has a better priority than the owner. */
  ghost predicate Inherits(m: State) {
    m.owner.Task? && m.owner.t in m.k.tasks ==>
      forall w :: w in m.pend && w in m.k.tasks ==> m.k.tasks[m.owner.t].priority <= m.k.tasks[w].priority
  }

  /** A waiter with a better priority than the owner took the mutex with leaves
      the owner at that waiter's priority. */
  lemma {:induction false} WaiterLends(m: State, timeout: nat)
    requires Blocks(m) && m.k.tasks[m.k.current].priority < m.priority && 1 <= timeout < WORD
    ensures m.owner.t in Block(m, timeout).k.tasks
    ensures Block(m, timeout).k.tasks[m.owner.t].priority == m.k.tasks[m.k.current].priority
  {
    BlockTasks(m, timeout);
    LendFrame(m);
  }

  /** The last post brings the owner back to the priority it was created with. */
  lemma {:induction false} ReleaseRestoresPriority(m: State)
    requires Good(m) && m.owner == Task(m.k.current) && m.count == 1
    ensures Callable(m)
    ensures m.owner.t in Posted(m).k.tasks && Posted(m).k.tasks[m.owner.t].priority == BaseOf(m, m.owner.t)
  {
    GoodCallable(m);
    RestoredFrame(m);
    if m.pend != [] {
      HandOffTasks(m);
    }
  }

  lemma {:induction false} BlockPriorities(m: State, timeout: nat)
    requires Blocks(m) && Queued(m) && 1 <= timeout < WORD
    ensures forall w :: w in Block(m, timeout).pend <==> w in m.pend || w == m.k.current
    ensures forall w :: w in Block(m, timeout).pend ==> SamePriority(m.k.tasks, Block(m, timeout).k.tasks, w)
  {
    BlockTasks(m, timeout);
    LendFrame(m);
    WaitersQueued(m);
    InsertedMembers(m.pend, PendSlot(m.pend, m.base, m.k.current), m.k.current);
  }

  /** The newcomer is better than the owner was when it took the mutex, and worse than
      a task that waits already. */
  ghost predicate Between(m: State)
    requires Blocks(m)
  {
    var p := m.k.tasks[m.k.current].priority;
    p < m.priority && exists w :: w in m.pend && w in m.k.tasks && m.k.tasks[w].priority < p
  }

  /** The blocking step keeps inheritance intact exactly unless the newcomer's
      priority lies strictly between that of a waiter and the one the owner took the
      mutex with: then the code lowers the owner below the waiter that lent it more. */
  lemma {:induction false} InheritanceExact(m: State, timeout: nat)
    requires Queued(m) && Prioritized(m) && Blocks(m) && Inherits(m) && 1 <= timeout < WORD
    ensures Inherits(Block(m, timeout)) <==> !Between(m)
  {
    var n, o := Block(m, timeout), m.owner.t;
    BlockPriorities(m, timeout);
    BlockTasks(m, timeout);
    LendFrame(m);
    if Between(m) {
      var w :| w in m.pend && w in m.k.tasks && m.k.tasks[w].priority < m.k.tasks[m.k.current].priority;
      assert SamePriority(m.k.tasks, n.k.tasks, w);
    } else {
      forall w | w in n.pend
        ensures n.k.tasks[o].priority <= n.k.tasks[w].priority
      {
        assert SamePriority(m.k.tasks, n.k.tasks, w);
      }
    }
  }

  lemma {:induction false} HandOffInherits(m: State)
    requires Callable(m) && m.owner.Task? && m.pend != [] && Queued(m) && Prioritized(m)
    ensures Inherits(HandOff(m))
  {
    var n := HandOff(m);
    HandOffTasks(m);
    RestoredFrame(m);
    RestQueued(m);
    forall w | w in n.pend
      ensures w in m.k.tasks && n.k.tasks[w].priority == m.k.tasks[w].priority >= n.k.tasks[n.owner.t].priority
    {
      var i :| 0 <= i < |n.pend| && n.pend[i] == w;
      assert m.pend[i + 1] == w && Waiting(m, w) && Waiting(m, m.pend[0]);
      assert Before(m.base, m.stamp, m.pend[0], m.pend[i + 1]);
    }
  }

  ghost predicate SamePriority(tasks: Tasks, tasks': Tasks, t: Task) {
    t in tasks && t in tasks' && tasks'[t].priority == tasks[t].priority
  }

  lemma {:induction false} SamePrioritiesInherit(m: State, n: State)
    requires n.owner == m.owner && Inherits(m) && forall t :: t in n.pend ==> t in m.pend
    requires forall t :: t in n.pend || m.owner == Task(t) ==> SamePriority(m.k.tasks, n.k.tasks, t)
    ensures Inherits(n)
  {
    if m.owner.Task? {
      assert SamePriority(m.k.tasks, n.k.tasks, m.owner.t);
      forall w | w in n.pend
        ensures n.k.tasks[m.owner.t].priority <= n.k.tasks[w].priority
      {
        assert SamePriority(m.k.tasks, n.k.tasks, w);
      }
    }
  }

  lemma {:induction false} OtherInherits(m: State, o: Scheduler.Op)
    requires Good(m) && Allowed(m, Other(o)) && Inherits(m)
    ensures Inherits(OtherStep(m, o))
  {
    var n := OtherStep(m, o);
    WaitersQueued(m);
    if o.DeleteTask? {
      InLineWithout(m.pend, m.base, m.stamp, m.arrivals, o.t);
    }
    forall t | t in n.pend || m.owner == Task(t)
      ensures SamePriority(m.k.tasks, n.k.tasks, t)
    {
      OwnerStays(m.k, o, t);
      PriorityFrame(m.k, o, t);
    }
    SamePrioritiesInherit(m, n);
  }

  lemma {:induction false} GiveUpInherits(m: State)
    requires Good(m) && m.k.current in m.pend && Inherits(m)
    ensures Inherits(GivenUp(m))
  {
    InLineWithout(m.pend, m.base, m.stamp, m.arrivals, m.k.current);
    WaitersQueued(m);
    SamePrioritiesInherit(m, GivenUp(m));
  }

  /** The running task is about to block, with a priority in between. */
  ghost predicate Crosses(m: State, op: Op) {
    op.MutexPend? && op.timeout != 0 && m.count != 0 && Blocks(m) && Between(m)
  }

  lemma {:induction false} PendInherits(m: State, timeout: nat)
    requires Good(m) && Allowed(m, MutexPend(timeout)) && Callable(m) && Inherits(m)
    ensures Inherits(Pended(m, timeout)) <==> !Crosses(m, MutexPend(timeout))
  {
    if m.count != 0 && m.owner != Task(m.k.current) && timeout != 0 {
      InheritanceExact(m, timeout);
    }
  }

  lemma {:induction false} PostInherits(m: State)
    requires Good(m) && Callable(m) && Inherits(m)
    ensures Inherits(Posted(m))
  {
    if m.owner == Task(m.k.current) && m.count == 1 && m.pend != [] {
      HandOffInherits(m);
    }
  }

  /** Every other step keeps inheritance; a blocking step keeps it exactly unless
      it crosses. */
  lemma {:induction false} StepInheritance(m: State, op: Op)
    requires Good(m) && Allowed(m, op) && Inherits(m)
    ensures Inherits(Step(m, op)) <==> !Crosses(m, op)
  {
    GoodCallable(m);
    match op
    case MutexPend(timeout) => PendInherits(m, timeout);
    case MutexPost => PostInherits(m);
    case GiveUp => GiveUpInherits(m);
    case Other(o) => OtherInherits(m, o);
  }

  ghost predicate NeverCrosses(m: State, ops: seq<Op>)
    requires Good(m) && Feasible(m, ops)
    decreases |ops|
  {
    ops == [] || (!Crosses(m, ops[0]) && NeverCrosses(Step(m, ops[0]), ops[1..]))
  }

  /** In every run without a crossing pend the owner runs at least at the
      priority of each waiter, and never below the one it was created with. */
  lemma {:induction false} RunInheritance(m: State, ops: seq<Op>)
    requires Good(m) && Feasible(m, ops) && NeverCrosses(m, ops) && Inherits(m)
    ensures var r := Exec(m, ops);
            && Inherits(r)
            && (r.owner.Task? ==> r.k.tasks[r.owner.t].priority <= BaseOf(r, r.owner.t))
    decreases |ops|
  {
    if ops != [] {
      StepInheritance(m, ops[0]);
      RunInheritance(Step(m, ops[0]), ops[1..]);
    }
  }

  /** `dos_mutex_create` on a kernel whose tasks have the priorities they were
      created with. */
  lemma {:induction false} FreshMutexGood(k: Scheduler.State, base: map<Task, nat>)
    requires Inv(k) && forall t :: t in k.tasks ==> t in base && base[t] == k.tasks[t].priority
    ensures var m := State.State(k, 0, Nobody, 0, [], base, map[], map[], 0);
            Good(m) && Inherits(m) && Counted(m) && InTime(m)
  {
  }

  // ---- The mutex object ------------------------------------------------------------------

  class MutexLock {
    var count: nat
    var owner: Owner
    var priority: nat
    var pend: seq<Task>
    var base: map<Task, nat>  // the values of the tasks' pend items
    ghost var held: map<Task, nat>
    ghost var stamp: map<Task, nat>
    ghost var arrivals: nat

    ghost function View(k: Kernel.Kernel): State
      reads this, k
    {
      State.State(k.View(), count, owner, priority, pend, base, held, stamp, arrivals)
    }

    /** The part of `dos_mutex_pend` that raises the owner's priority. */
    method Inherit(k: Kernel.Kernel)
      requires Callable(View(k)) && owner.Task?
      modifies k
      ensures k.View() == Lend(old(View(k)))
    {
      if priority > k.tasks[k.current].priority {
        k.SetTaskPriority(owner.t, k.tasks[k.current].priority);
      }
    }

    /** The blocking part of `dos_mutex_pend`. */
    method WaitForOwner(k: Kernel.Kernel, timeout: nat)
      requires Callable(View(k)) && k.tasks[k.current].ready && owner.Task? && owner.t != k.current && timeout < WORD
      modifies this, k
      ensures View(k) == Block(old(View(k)), timeout)
    {
      LendFrame(View(k));
      var t := k.current;
      Inherit(k);
      k.TaskWait(timeout);
      LineUp(t);
    }

    /** The pend item goes to its place. */
    method LineUp(t: Task)
      modifies `pend, `stamp, `arrivals
      ensures pend == Inserted(old(pend), PendSlot(old(pend), base, t), t)
      ensures stamp == old(stamp)[t := old(arrivals)] && arrivals == old(arrivals) + 1
    {
      pend := Inserted(pend, PendSlot(pend, base, t), t);
      stamp, arrivals := stamp[t := arrivals], arrivals + 1;
    }

    /** `dos_mutex_pend`: whether the running task holds the mutex on return; a
        task that blocks gets its answer when it runs again. */
    method Pend(k: Kernel.Kernel, timeout: nat) returns (ok: bool)
      requires Callable(View(k)) && k.tasks[k.current].ready && (count != 0 ==> owner.Task?) && timeout < WORD
      modifies this, k
      ensures View(k) == Pended(old(View(k)), timeout)
      ensures ok <==> old(count == 0 || owner == Task(k.current))
    {
      var t := k.current;
      if count == 0 {
        held := held[t := HeldBy(View(k), t) + 1];
        count := count + 1;
        priority := k.tasks[t].priority;
        owner := Task(t);
        return true;
      }
      if owner == Task(t) {
        held := held[t := HeldBy(View(k), t) + 1];
        count := Count16(count + 1);
        return true;
      }
      if timeout != 0 {
        WaitForOwner(k, timeout);
      }
      return false;
    }

    /** The end of `dos_mutex_pend` for a task that blocked and runs again: whether its wait has timed
        out. It then leaves the pend list, if it is still in it. */
    method Resume(k: Kernel.Kernel) returns (timedOut: bool)
      requires k.current in k.tasks
      modifies this, k
      ensures timedOut <==> Late(old(View(k)), k.current)
      ensures View(k) == if timedOut then GivenUp(old(View(k))) else old(View(k))
    {
      timedOut := k.TaskResume();
      if timedOut {
        pend := Without(pend, k.current);
      }
    }

    /** The part of `dos_mutex_post` that undoes the inheritance. */
    method Restore(k: Kernel.Kernel)
      requires Callable(View(k)) && owner.Task?
      modifies k
      ensures k.View() == Restored(old(View(k)))
    {
      if k.tasks[owner.t].priority != priority {
        k.SetTaskPriority(owner.t, priority);
      }
    }

    /** The first waiter becomes the owner. */
    method HandTo(first: Task, p: nat, ghost m: State)
      requires owner.Task? && pend != []
      modifies `count, `owner, `priority, `pend, `held
      ensures count == 1 && owner == Task(first) && priority == p && pend == old(pend)[1..]
      ensures held
           == Given(m, old(owner).t)[first := HeldBy(m, first) + Won(m.k.tasks, first)]
    {
      held := Given(m, owner.t)[first := HeldBy(m, first) + Won(m.k.tasks, first)];
      priority, count, owner, pend := p, 1, Task(first), pend[1..];
    }

    /** The hand-off part of `dos_mutex_post`, the priority being restored. */
    method PassOn(k: Kernel.Kernel, ghost m: State)
      requires Callable(m) && m.owner.Task? && m.pend != [] && View(k) == m.(k := Restored(m))
      modifies this, k
      ensures View(k) == HandOff(m)
    {
      RestoredFrame(m);
      var first := pend[0];
      HandTo(first, k.tasks[first].priority, m);
      k.TaskWake(first);
    }

    /** The end of `dos_mutex_post`, once the count is down to zero. */
    method Release(k: Kernel.Kernel)
      requires Callable(View(k)) && owner == Task(k.current) && count == 1
      modifies this, k
      ensures View(k) == Posted(old(View(k)))
    {
      ghost var m := View(k);
      Restore(k);
      if pend != [] {
        PassOn(k, m);
      } else {
        held := Given(m, owner.t);
        count, priority, owner := 0, 0, Nobody;
      }
    }

    /** `dos_mutex_post` */
    method Post(k: Kernel.Kernel) returns (ok: bool)
      requires Callable(View(k))
      modifies this, k
      ensures View(k) == Posted(old(View(k)))
      ensures ok <==> old(count != 0 && owner == Task(k.current))
    {
      if count == 0 || owner != Task(k.current) {
        return false;
      }
      if count - 1 != 0 {
        held := Given(View(k), k.current);
        count := count - 1;
      } else {
        Release(k);
      }
      return true;
    }
  }
}
