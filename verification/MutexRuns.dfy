/** Three runs of the mutex (src/mutex.c) from a kernel that has just started: at the end of one the
    owner has a worse priority than one of its waiters, after another the count is about to wrap, and
    after the last the mutex belongs for good to a task whose wait has timed out. */
module MutexRuns {
  import opened Machine
  import opened Mutex
  import opened Runs
  import opened Scheduler
  import opened TaskList

  /** DOS_WAIT_FOREVER */
  const FOREVER: nat := UINT32_MAX

  /** The run `ops` from `f` ends in `m`. */
  ghost predicate Reaches(f: Mutex.State, ops: seq<Mutex.Op>, m: Mutex.State) {
    Good(f) && Mutex.Feasible(f, ops) && Mutex.Exec(f, ops) == m
  }

  lemma {:induction false} ReachesNext(f: Mutex.State, ops: seq<Mutex.Op>, m: Mutex.State, op: Mutex.Op)
    requires Reaches(f, ops, m) && Good(m) && Allowed(m, op)
    ensures Reaches(f, ops + [op], Mutex.Step(m, op))
    decreases |ops|
  {
    Prolonged(ops, op);
    if ops != [] {
      ReachesNext(Mutex.Step(f, ops[0]), ops[1..], m, op);
    }
  }

  /** A task just created. */
  function Up(priority: nat): Tcb {
    Tcb(priority, true, false, false, false, 0, Ready(priority))
  }

  /** No ready task is better. */
  ghost predicate Best(tasks: Tasks, priority: nat) {
    forall u :: u in tasks && tasks[u].ready ==> priority <= tasks[u].priority
  }

  lemma {:induction false} BestJoined(tasks: Tasks, t: Task, priority: nat)
    requires Best(tasks, priority)
    ensures Best(tasks[t := Up(priority)], priority)
  {
  }

  lemma {:induction false} Created(m: Mutex.State, t: Task, priority: nat)
    requires Good(m) && t !in m.k.tasks && priority < PRIORITIES
    ensures Allowed(m, Other(NewTask(t, priority)))
    ensures var n := Mutex.Step(m, Other(NewTask(t, priority)));
            && n == m.(k := n.k, base := m.base[t := priority]) && n.k.tasks == m.k.tasks[t := Up(priority)]
            && n.k.current == m.k.current && n.k.idle == m.k.idle
  {
  }

  lemma {:induction false} Dispatched(m: Mutex.State, t: Task)
    requires Good(m) && t in m.k.tasks && m.k.tasks[t].ready
    requires Best(m.k.tasks, m.k.tasks[t].priority)
    ensures Allowed(m, Other(Dispatch(t))) && Mutex.Step(m, Other(Dispatch(t))) == m.(k := m.k.(current := t))
  {
    DispatchBest(m.k, t);
  }

  lemma {:induction false} Slept(m: Mutex.State)
    requires Good(m) && m.k.tasks[m.k.current].ready && m.k.current != m.k.idle && m.k.current !in m.pend
    ensures Allowed(m, Other(SleepFor(1)))
    ensures var t, n := m.k.current, Mutex.Step(m, Other(SleepFor(1)));
            && n == m.(k := n.k) && t in n.k.tasks && n.k.tasks == m.k.tasks[t := n.k.tasks[t]]
            && n.k.tasks[t].priority == m.k.tasks[t].priority && !n.k.tasks[t].ready && n.k.idle == m.k.idle
  {
    InvSound(m.k, m.k.current);
  }

  lemma {:induction false} Took(m: Mutex.State)
    requires Good(m) && m.count == 0 && m.k.tasks[m.k.current].ready && m.k.current != m.k.idle && !Late(m, m.k.current)
    ensures Allowed(m, MutexPend(FOREVER))
    ensures var n := Mutex.Step(m, MutexPend(FOREVER));
            && n.k == m.k && n.pend == m.pend && n.base == m.base && n.count == 1 && n.owner == Owner.Task(m.k.current)
            && n.priority == m.k.tasks[m.k.current].priority
  {
  }

  /** The owner is at priority `p`, and the running task waits. */
  ghost predicate Raised(tasks: Tasks, tasks': Tasks, o: Task, t: Task, p: nat) {
    && o in tasks && t in tasks && o in tasks' && t in tasks' && o != t
    && tasks'[o] == tasks[o].(priority := p, home := tasks'[o].home)
    && Asleep(tasks[t], tasks'[t]) && tasks' == tasks[o := tasks'[o]][t := tasks'[t]]
  }

  /** The running task can block on the mutex. */
  ghost predicate AboutToBlock(m: Mutex.State) {
    && Good(m) && m.owner.Task? && m.owner.t != m.k.current && m.k.current != m.k.idle
    && m.k.tasks[m.k.current].ready && m.k.current !in m.pend && !Late(m, m.k.current)
  }

  lemma {:induction false} Blocked(m: Mutex.State, timeout: nat)
    requires AboutToBlock(m) && m.k.tasks[m.k.current].priority < m.priority && 1 <= timeout < WORD
    ensures Allowed(m, MutexPend(timeout))
    ensures var n, t := Mutex.Step(m, MutexPend(timeout)), m.k.current;
            && n.owner == m.owner && n.count == m.count && n.priority == m.priority && n.k.idle == m.k.idle && n.base == m.base
            && (forall w :: w in n.pend <==> w in m.pend || w == t) && (m.pend == [] ==> n.pend == [t])
            && Raised(m.k.tasks, n.k.tasks, m.owner.t, t, m.k.tasks[t].priority)
  {
    GoodCallable(m);
    assert Pended(m, timeout) == Block(m, timeout);
    BlockRaises(m, timeout);
  }

  lemma {:induction false} BlockRaises(m: Mutex.State, timeout: nat)
    requires Queued(m) && Blocks(m) && m.k.tasks[m.k.current].priority < m.priority && 1 <= timeout < WORD
    ensures var n, t := Block(m, timeout), m.k.current;
            && (forall w :: w in n.pend <==> w in m.pend || w == t) && (m.pend == [] ==> n.pend == [t])
            && Raised(m.k.tasks, n.k.tasks, m.owner.t, t, m.k.tasks[t].priority) && n.k.idle == m.k.idle
  {
    assert Inserted([], 0, m.k.current) == [m.k.current];
    BlockTasks(m, timeout);
    BlockPriorities(m, timeout);
    SetPriorityFrame(m.k, m.owner.t, m.k.tasks[m.k.current].priority);
  }

  lemma {:induction false} NewNotWaiting(m: Mutex.State, t: Task)
    requires Good(m) && t !in m.k.tasks
    ensures t !in m.pend && m.owner != Owner.Task(t)
  {
    WaitersQueued(m);
  }

  lemma {:induction false} OwnerNotWaiting(m: Mutex.State)
    requires Good(m) && m.owner.Task?
    ensures m.owner.t !in m.pend
  {
    WaitersQueued(m);
  }

  /** A new task that is at least as good as the others arrives and is dispatched. */
  lemma {:induction false} Arrives(f: Mutex.State, ops: seq<Mutex.Op>, m: Mutex.State, t: Task, priority: nat)
    returns (n: Mutex.State)
    requires Reaches(f, ops, m) && Good(m) && t !in m.k.tasks && priority < PRIORITIES
    requires Best(m.k.tasks, priority)
    ensures Reaches(f, ops + [Other(NewTask(t, priority))] + [Other(Dispatch(t))], n) && Good(n)
    ensures n == m.(k := n.k, base := m.base[t := priority]) && n.k.tasks == m.k.tasks[t := Up(priority)]
    ensures n.k.current == t && n.k.idle == m.k.idle
  {
    Created(m, t, priority);
    ReachesNext(f, ops, m, Other(NewTask(t, priority)));
    var u := Mutex.Step(m, Other(NewTask(t, priority)));
    BestJoined(m.k.tasks, t, priority);
    Dispatched(u, t);
    ReachesNext(f, ops + [Other(NewTask(t, priority))], u, Other(Dispatch(t)));
    n := Mutex.Step(u, Other(Dispatch(t)));
  }

  /** The owner, the best ready task, is dispatched, creates a task that is no better, and goes to sleep. */
  lemma {:induction false} CreatesAndSleeps(f: Mutex.State, ops: seq<Mutex.Op>, m: Mutex.State, t: Task, x: Task, p: nat)
    returns (n: Mutex.State)
    requires Reaches(f, ops, m) && Good(m) && t in m.k.tasks && m.k.tasks[t].ready && t != m.k.idle && m.owner == Owner.Task(t)
    requires Best(m.k.tasks, m.k.tasks[t].priority) && x !in m.k.tasks && p < PRIORITIES
    ensures Reaches(f, ops + [Other(Dispatch(t))] + [Other(NewTask(x, p))] + [Other(SleepFor(1))], n) && Good(n)
    ensures n == m.(k := n.k, base := n.base) && t in n.k.tasks && n.k.tasks == m.k.tasks[x := Up(p)][t := n.k.tasks[t]]
    ensures n.k.tasks[t].priority == m.k.tasks[t].priority && !n.k.tasks[t].ready && n.k.idle == m.k.idle
  {
    Dispatched(m, t);
    ReachesNext(f, ops, m, Other(Dispatch(t)));
    var u := Mutex.Step(m, Other(Dispatch(t)));
    Created(u, x, p);
    ReachesNext(f, ops + [Other(Dispatch(t))], u, Other(NewTask(x, p)));
    var v := Mutex.Step(u, Other(NewTask(x, p)));
    OwnerNotWaiting(v);
    Slept(v);
    ReachesNext(f, ops + [Other(Dispatch(t))] + [Other(NewTask(x, p))], v, Other(SleepFor(1)));
    n := Mutex.Step(v, Other(SleepFor(1)));
  }

  /** The best ready task, just created, is dispatched and blocks on the mutex. */
  lemma {:induction false} DispatchedBlocks(f: Mutex.State, ops: seq<Mutex.Op>, m: Mutex.State, t: Task, p: nat)
    returns (n: Mutex.State)
    requires Reaches(f, ops, m) && Good(m) && t in m.k.tasks && m.k.tasks[t] == Up(p) && Best(m.k.tasks, p) && t !in m.pend
    requires m.owner.Task? && m.owner.t != t && t != m.k.idle && p < m.priority
    ensures Reaches(f, ops + [Other(Dispatch(t))] + [MutexPend(FOREVER)], n) && Good(n)
    ensures n.owner == m.owner && forall w :: w in n.pend <==> w in m.pend || w == t
    ensures Raised(m.k.tasks, n.k.tasks, m.owner.t, t, p)
  {
    Dispatched(m, t);
    ReachesNext(f, ops, m, Other(Dispatch(t)));
    var u := Mutex.Step(m, Other(Dispatch(t)));
    Blocked(u, FOREVER);
    ReachesNext(f, ops + [Other(Dispatch(t))], u, MutexPend(FOREVER));
    n := Mutex.Step(u, MutexPend(FOREVER));
  }

  /** A fresh mutex on a kernel that has just started. */
  ghost function Fresh(): (m: Mutex.State)
    ensures Good(m)
  {
    FreshMutexGood(Initial(0), map[0 := PRIORITIES - 1]);
    Mutex.State.State(Initial(0), 0, Nobody, 0, [], map[0 := PRIORITIES - 1], map[], map[], 0)
  }

  /** A new task arrives, is dispatched and blocks on the mutex. */
  lemma {:induction false} ArrivesAndBlocks(f: Mutex.State, ops: seq<Mutex.Op>, m: Mutex.State, t: Task, priority: nat,
                                            timeout: nat) returns (n: Mutex.State)
    requires Reaches(f, ops, m) && Good(m) && t !in m.k.tasks && priority < PRIORITIES && Best(m.k.tasks, priority)
    requires m.owner.Task? && m.owner.t != t && t != m.k.idle && priority < m.priority && 1 <= timeout < WORD
    ensures Reaches(f, ops + [Other(NewTask(t, priority))] + [Other(Dispatch(t))] + [MutexPend(timeout)], n) && Good(n)
    ensures n.owner == m.owner && n.count == m.count && n.priority == m.priority && n.k.idle == m.k.idle
    ensures (forall w :: w in n.pend <==> w in m.pend || w == t) && (m.pend == [] ==> n.pend == [t])
    ensures Raised(m.k.tasks[t := Up(priority)], n.k.tasks, m.owner.t, t, priority)
    ensures n.base == m.base[t := priority]
    ensures timeout != UINT32_MAX ==> n.k.tasks[t].delay && Left(n.k, t) == timeout
  {
    NewNotWaiting(m, t);
    var u := Arrives(f, ops, m, t, priority);
    Blocked(u, timeout);
    if timeout != UINT32_MAX {
      GoodCallable(u);
      BlockStarts(u, timeout);
    }
    ReachesNext(f, ops + [Other(NewTask(t, priority))] + [Other(Dispatch(t))], u, MutexPend(timeout));
    n := Mutex.Step(u, MutexPend(timeout));
  }

  /** A new task arrives, is dispatched and takes the mutex. */
  lemma {:induction false} ArrivesAndTakes(f: Mutex.State, ops: seq<Mutex.Op>, m: Mutex.State, t: Task, priority: nat)
    returns (n: Mutex.State)
    requires Reaches(f, ops, m) && Good(m) && t !in m.k.tasks && priority < PRIORITIES && Best(m.k.tasks, priority)
    requires m.count == 0 && t != m.k.idle
    ensures Reaches(f, ops + [Other(NewTask(t, priority))] + [Other(Dispatch(t))] + [MutexPend(FOREVER)], n) && Good(n)
    ensures n.owner == Owner.Task(t) && n.count == 1 && n.priority == priority && n.k.idle == m.k.idle && n.pend == m.pend
    ensures n.k.tasks == m.k.tasks[t := Up(priority)] && n.base == m.base[t := priority]
  {
    var u := Arrives(f, ops, m, t, priority);
    Took(u);
    ReachesNext(f, ops + [Other(NewTask(t, priority))] + [Other(Dispatch(t))], u, MutexPend(FOREVER));
    n := Mutex.Step(u, MutexPend(FOREVER));
  }

  /** Task 2 waits; task 1 is ready at its priority. */
  ghost predicate Lending(tasks: Tasks) {
    && tasks.Keys == {0, 1, 2} && tasks[0] == Up(31) && !tasks[2].ready && tasks[2].priority == 3 && tasks[2].suspend
    && tasks[1].ready && tasks[1].priority == 3 && !tasks[1].delay
  }

  lemma {:induction false} LendingTasks(tasks: Tasks)
    requires Lending(tasks)
    ensures 1 in tasks && tasks[1].ready && tasks[1].priority == 3 && 2 in tasks && tasks[2].suspend
  {
  }

  lemma {:induction false} FirstTasks(tasks: Tasks)
    requires tasks == map[0 := Up(31), 1 := Up(10)]
    ensures Best(tasks, 3) && 2 !in tasks
  {
  }

  lemma {:induction false} SecondTasks(tasks: Tasks, tasks': Tasks)
    requires tasks == map[0 := Up(31), 1 := Up(10)] && Raised(tasks[2 := Up(3)], tasks', 1, 2, 3)
    ensures Lending(tasks') && Best(tasks', 3) && 3 !in tasks'
  {
  }

  /** Task 3 is there, and task 1 asleep. */
  ghost predicate Third(tasks: Tasks) {
    && tasks.Keys == {0, 1, 2, 3} && tasks[0] == Up(31) && !tasks[1].ready && !tasks[2].ready && tasks[2].priority == 3
    && tasks[3] == Up(5)
  }

  lemma {:induction false} ThirdTasks(tasks: Tasks, tasks': Tasks)
    requires Lending(tasks) && 1 in tasks' && tasks' == tasks[3 := Up(5)][1 := tasks'[1]] && !tasks'[1].ready
    ensures Third(tasks') && Best(tasks', 5)
  {
  }

  lemma {:induction false} LastTasks(tasks: Tasks, tasks': Tasks)
    requires Third(tasks) && Raised(tasks, tasks', 1, 3, 5)
    ensures 1 in tasks' && 2 in tasks' && tasks'[1].priority == 5 && tasks'[2].priority == 3
  {
  }

  /** Task 1 holds the mutex, taken with priority 10. */
  ghost predicate Holding(m: Mutex.State) {
    Good(m) && m.owner == Owner.Task(1) && m.count == 1 && m.priority == 10 && m.k.idle == 0
  }

  /** Task 1 takes the mutex, and task 2 blocks on it. */
  function Opening(timeout: nat): seq<Mutex.Op> {
    [] + [Other(NewTask(1, 10))] + [Other(Dispatch(1))] + [MutexPend(FOREVER)]
    + [Other(NewTask(2, 3))] + [Other(Dispatch(2))] + [MutexPend(timeout)]
  }

  lemma {:induction false} Opens(f: Mutex.State, timeout: nat) returns (m: Mutex.State)
    requires f == Fresh() && 1 <= timeout < WORD
    ensures Reaches(f, Opening(timeout), m) && Holding(m) && m.pend == [2] && m.base == map[0 := 31, 1 := 10, 2 := 3]
    ensures Lending(m.k.tasks) && Best(m.k.tasks, 3) && 3 !in m.k.tasks
    ensures timeout != UINT32_MAX ==> m.k.tasks[2].delay && Left(m.k, 2) == timeout
  {
    var ops: seq<Mutex.Op> := [];
    var a := ArrivesAndTakes(f, ops, f, 1, 10);
    ops := ops + [Other(NewTask(1, 10))] + [Other(Dispatch(1))] + [MutexPend(FOREVER)];
    FirstTasks(a.k.tasks);
    m := ArrivesAndBlocks(f, ops, a, 2, 3, timeout);
    SecondTasks(a.k.tasks, m.k.tasks);
    assert map[0 := 31][1 := 10][2 := 3] == map[0 := 31, 1 := 10, 2 := 3];
  }

  /** Task 1, created with priority 10, takes the mutex; task 2, of priority 3, blocks on it; task 1
      creates task 3, of priority 5, and goes to sleep; task 3 blocks on the mutex. */
  function CrossingRun(): seq<Mutex.Op> {
    Opening(FOREVER) + [Other(Dispatch(1))] + [Other(NewTask(3, 5))] + [Other(SleepFor(1))]
    + [Other(Dispatch(3))] + [MutexPend(FOREVER)]
  }

  lemma {:induction false} CrossingEnds(f: Mutex.State, ops: seq<Mutex.Op>, m: Mutex.State) returns (n: Mutex.State)
    requires Reaches(f, ops, m) && Holding(m) && 2 in m.pend && 3 !in m.pend
    requires Lending(m.k.tasks) && Best(m.k.tasks, 3) && 3 !in m.k.tasks
    ensures Reaches(f, ops + [Other(Dispatch(1))] + [Other(NewTask(3, 5))] + [Other(SleepFor(1))]
                       + [Other(Dispatch(3))] + [MutexPend(FOREVER)], n)
    ensures n.owner == Owner.Task(1) && 2 in n.pend && 1 in n.k.tasks && 2 in n.k.tasks
    ensures n.k.tasks[1].priority == 5 && n.k.tasks[2].priority == 3
  {
    var u := CreatesAndSleeps(f, ops, m, 1, 3, 5);
    ThirdTasks(m.k.tasks, u.k.tasks);
    n := DispatchedBlocks(f, ops + [Other(Dispatch(1))] + [Other(NewTask(3, 5))] + [Other(SleepFor(1))], u, 3, 5);
    LastTasks(u.k.tasks, n.k.tasks);
  }

  /** After that run the owner is at priority 5 while task 2, of priority 3, waits for it. */
  lemma {:induction false} CrossingBreaksInheritance() returns (r: Mutex.State)
    ensures Reaches(Fresh(), CrossingRun(), r)
    ensures r.owner == Owner.Task(1) && 2 in r.pend && 1 in r.k.tasks && 2 in r.k.tasks
    ensures r.k.tasks[1].priority == 5 && r.k.tasks[2].priority == 3 && !Inherits(r)
  {
    var m := Opens(Fresh(), FOREVER);
    r := CrossingEnds(Fresh(), Opening(FOREVER), m);
  }

  // ---- A hand-off that comes too late ----------------------------------------------------------

  /** Task 2 blocks for one tick, task 1 runs again, and the tick comes. */
  function LateRun(): seq<Mutex.Op> {
    Opening(1) + [Other(Dispatch(1))] + [Other(TickUpdate)]
  }

  lemma {:induction false} TickPasses(f: Mutex.State, ops: seq<Mutex.Op>, m: Mutex.State) returns (n: Mutex.State)
    requires Reaches(f, ops, m) && Good(m)
    ensures Reaches(f, ops + [Other(TickUpdate)], n) && Good(n) && n == m.(k := Tick(m.k))
  {
    Ticks(m);
    ReachesNext(f, ops, m, Other(TickUpdate));
    n := Mutex.Step(m, Other(TickUpdate));
  }

  lemma {:induction false} Ticks(m: Mutex.State)
    requires Good(m)
    ensures Allowed(m, Other(TickUpdate)) && Mutex.Step(m, Other(TickUpdate)) == m.(k := Tick(m.k))
  {
    assert Apply(m.k, TickUpdate) == Tick(m.k);
    assert OtherStep(m, TickUpdate) == m.(k := Tick(m.k));
  }

  /** Task 1 runs and holds the mutex, and task 2 waits for it, for one more tick. */
  ghost predicate LastTick(m: Mutex.State) {
    && m.owner == Owner.Task(1) && m.k.current == 1 && m.count == 1 && m.pend == [2] && Three(m)
    && 2 in m.k.tasks && m.k.tasks[2].delay && m.k.tasks[2].suspend && Left(m.k, 2) == 1
  }

  lemma {:induction false} ToLastTick(m: Mutex.State, n: Mutex.State)
    requires Holding(m) && m.pend == [2] && Three(m) && n == m.(k := m.k.(current := 1))
    requires 2 in m.k.tasks && m.k.tasks[2].delay && m.k.tasks[2].suspend && Left(m.k, 2) == 1
    ensures LastTick(n)
  {
  }

  lemma {:induction false} LateStarts(f: Mutex.State, ops: seq<Mutex.Op>, m: Mutex.State) returns (n: Mutex.State)
    requires Reaches(f, ops, m) && Holding(m) && m.pend == [2] && Three(m) && Lending(m.k.tasks) && Best(m.k.tasks, 3)
    requires m.k.tasks[2].delay && Left(m.k, 2) == 1
    ensures Reaches(f, ops + [Other(Dispatch(1))], n) && Good(n) && LastTick(n)
  {
    LendingTasks(m.k.tasks);
    n := OwnerRuns(f, ops, m);
    ToLastTick(m, n);
  }

  lemma {:induction false} LateEnds(f: Mutex.State) returns (m: Mutex.State)
    requires f == Fresh()
    ensures Reaches(f, LateRun(), m) && Good(m) && m.owner == Owner.Task(1) && m.k.current == 1 && m.count == 1
    ensures m.pend == [2] && Late(m, 2) && Three(m)
  {
    var a := Opens(f, 1);
    var b := LateStarts(f, Opening(1), a);
    m := TickPasses(f, Opening(1) + [Other(Dispatch(1))], b);
    ExpiresNow(b, m);
  }

  lemma {:induction false} OwnerRuns(f: Mutex.State, ops: seq<Mutex.Op>, m: Mutex.State) returns (n: Mutex.State)
    requires Reaches(f, ops, m) && Good(m) && 1 in m.k.tasks && m.k.tasks[1].ready && Best(m.k.tasks, m.k.tasks[1].priority)
    ensures Reaches(f, ops + [Other(Dispatch(1))], n) && Good(n) && n == m.(k := m.k.(current := 1))
  {
    Dispatched(m, 1);
    ReachesNext(f, ops, m, Other(Dispatch(1)));
    n := Mutex.Step(m, Other(Dispatch(1)));
  }

  lemma {:induction false} ExpiresNow(b: Mutex.State, m: Mutex.State)
    requires Good(b) && m == b.(k := Tick(b.k))
    requires 2 in b.k.tasks && b.k.tasks[2].delay && b.k.tasks[2].suspend && Left(b.k, 2) == 1
    ensures Late(m, 2) && m.k.current == b.k.current && m.k.tasks.Keys == b.k.tasks.Keys
  {
    TickSpec(b.k, 2);
    TickCurrent(b.k);
    TickKeys(b.k);
  }

  /** Tasks 0, 1 and 2, created with priorities 31, 10 and 3. */
  ghost predicate Three(m: Mutex.State) {
    m.base == map[0 := 31, 1 := 10, 2 := 3] && m.k.tasks.Keys == {0, 1, 2}
  }

  /** The mutex belongs to task 2, which does not hold it and has not run yet. */
  ghost predicate Stray(m: Mutex.State) {
    && Good(m) && m.owner == Owner.Task(2) && m.count == 1 && m.pend == [] && HeldBy(m, 2) == 0
    && 2 in m.k.tasks && m.k.tasks[2].ready && m.k.tasks[2].timeout
  }

  lemma {:induction false} HandedLate(m: Mutex.State, t: Task)
    requires Callable(m) && m.owner.Task? && m.pend == [t] && Late(m, t) && HeldBy(m, t) == 0
    ensures var n := HandOff(m);
            && n.k.tasks.Keys == m.k.tasks.Keys && n.pend == [] && HeldBy(n, t) == 0
            && n.k.tasks[t].ready && n.k.tasks[t].timeout
  {
    RestoredFrame(m);
    HandOffTasks(m);
  }

  /** The hand-off to a waiter that has timed out. */
  lemma {:induction false} LateHandOff(m: Mutex.State)
    requires Good(m) && Callable(m) && m.owner == Owner.Task(1) && m.k.current == 1 && m.count == 1
    requires m.pend == [2] && Late(m, 2) && Three(m)
    requires Good(Posted(m))
    ensures Stray(Posted(m)) && Three(Posted(m))
  {
    assert HeldBy(m, 2) == 0;
    HandedLate(m, 2);
    assert Posted(m) == HandOff(m);
  }

  lemma {:induction false} PostsNow(m: Mutex.State)
    requires Good(m) && m.k.current !in m.pend
    ensures Callable(m) && Allowed(m, MutexPost) && Mutex.Step(m, MutexPost) == Posted(m)
  {
    GoodCallable(m);
  }

  /** Task 2 is the best ready task then. */
  lemma {:induction false} BestOfThree(n: Mutex.State)
    requires Good(n) && n.owner == Owner.Task(2) && Three(n)
    ensures Best(n.k.tasks, n.k.tasks[2].priority)
  {
    assert n.priority == 3;
    assert forall u :: u in n.k.tasks && u != 2 ==> n.k.tasks[u].priority == BaseOf(n, u);
  }

  lemma {:induction false} PostsTooLate(f: Mutex.State, ops: seq<Mutex.Op>, m: Mutex.State) returns (n: Mutex.State)
    requires Reaches(f, ops, m) && Good(m) && m.owner == Owner.Task(1) && m.k.current == 1 && m.count == 1
    requires m.pend == [2] && Late(m, 2) && Three(m)
    ensures Reaches(f, ops + [MutexPost], n) && Stray(n) && Three(n)
  {
    PostsNow(m);
    LateHandOff(m);
    ReachesNext(f, ops, m, MutexPost);
    n := Mutex.Step(m, MutexPost);
  }

  lemma {:induction false} StrayRuns(f: Mutex.State, ops: seq<Mutex.Op>, m: Mutex.State) returns (n: Mutex.State)
    requires Reaches(f, ops, m) && Stray(m) && Three(m)
    ensures Reaches(f, ops + [Other(Dispatch(2))], n) && Stray(n) && n.k.current == 2
  {
    BestOfThree(m);
    Dispatched(m, 2);
    ReachesNext(f, ops, m, Other(Dispatch(2)));
    n := Mutex.Step(m, Other(Dispatch(2)));
  }

  lemma {:induction false} Resumes(m: Mutex.State)
    requires Good(m) && m.k.current !in m.pend && m.k.tasks[m.k.current].ready && m.k.tasks[m.k.current].timeout
    ensures Allowed(m, Other(Resume)) && Mutex.Step(m, Other(Resume)) == m.(k := ResumeTimedOut(m.k))
  {
    assert Apply(m.k, Resume) == ResumeTimedOut(m.k);
    assert OtherStep(m, Resume) == m.(k := ResumeTimedOut(m.k));
  }

  /** Task 2 finds that it has timed out. */
  lemma {:induction false} ReturnsNok(f: Mutex.State, ops: seq<Mutex.Op>, m: Mutex.State) returns (n: Mutex.State)
    requires Reaches(f, ops, m) && Stray(m) && m.k.current == 2
    ensures Reaches(f, ops + [Other(Resume)], n) && Good(n) && n == m.(k := ResumeTimedOut(m.k))
  {
    Resumes(m);
    ReachesNext(f, ops, m, Other(Resume));
    n := Mutex.Step(m, Other(Resume));
  }

  lemma {:induction false} StaysStray(m: Mutex.State)
    requires Good(m) && m.owner == Owner.Task(2) && !Counted(m)
    ensures forall ops :: Mutex.Feasible(m, ops) && PostsOwn(m, ops) ==> Mutex.Exec(m, ops).owner == Owner.Task(2)
  {
    forall ops | Mutex.Feasible(m, ops) && PostsOwn(m, ops)
      ensures Mutex.Exec(m, ops).owner == Owner.Task(2)
    {
      LostForEver(m, ops);
    }
  }

  /** Task 2 waits for one tick; the tick comes, then task 1 posts; task 2 runs and returns DOS_NOK. */
  function LosingRun(): seq<Mutex.Op> {
    LateRun() + [MutexPost] + [Other(Dispatch(2))] + [Other(Resume)]
  }

  lemma {:induction false} LosingEnds(f: Mutex.State, ops: seq<Mutex.Op>) returns (m: Mutex.State)
    requires f == Fresh() && ops == LateRun()
    ensures Reaches(f, ops + [MutexPost] + [Other(Dispatch(2))] + [Other(Resume)], m) && Good(m)
    ensures m.owner == Owner.Task(2) && m.k.current == 2 && m.count == 1 && HeldBy(m, 2) == 0 && !Late(m, 2)
  {
    var a := LateEnds(f);
    var b := PostsTooLate(f, ops, a);
    var c := StrayRuns(f, ops + [MutexPost], b);
    m := ReturnsNok(f, ops + [MutexPost] + [Other(Dispatch(2))], c);
  }

  /** After that run the mutex, at count one, belongs to task 2, which does not hold it, and it does so
      in whatever run follows, as long as tasks post only what they hold. */
  lemma {:induction false} TimeOutLosesMutex() returns (m: Mutex.State)
    ensures Reaches(Fresh(), LosingRun(), m) && Good(m)
    ensures m.owner == Owner.Task(2) && m.k.current == 2 && m.count == 1 && HeldBy(m, 2) == 0 && !Late(m, 2)
    ensures forall ops :: Mutex.Feasible(m, ops) && PostsOwn(m, ops) ==> Mutex.Exec(m, ops).owner == Owner.Task(2)
  {
    m := LosingEnds(Fresh(), LateRun());
    StaysStray(m);
  }

  // ---- The count -------------------------------------------------------------------------------

  /** n pends by the same task. */
  function PendRun(n: nat): seq<Mutex.Op> {
    if n <= 1 then [] + [MutexPend(0)] else PendRun(n - 1) + [MutexPend(0)]
  }

  /** The free mutex `f` after n pends by the running task. */
  function Deep(f: Mutex.State, n: nat): Mutex.State
    requires f.k.current in f.k.tasks
  {
    var t := f.k.current;
    f.(count := n, owner := Owner.Task(t), priority := f.k.tasks[t].priority, held := f.held[t := n])
  }

  /** The mutex is free, and the running task can take it. */
  ghost predicate Free(f: Mutex.State) {
    Good(f) && f.count == 0 && f.k.tasks[f.k.current].ready && !Late(f, f.k.current)
  }

  lemma {:induction false} FirstPend(f: Mutex.State)
    requires Free(f)
    ensures Allowed(f, MutexPend(0)) && Mutex.Step(f, MutexPend(0)) == Deep(f, 1)
  {
    GoodCallable(f);
    assert HeldBy(f, f.k.current) == 0;
    assert Pended(f, 0) == Deep(f, 1);
  }

  lemma {:induction false} NextPend(f: Mutex.State, n: nat)
    requires Free(f) && 0 < n < COUNT_LIMIT - 1 && Good(Deep(f, n))
    ensures Allowed(Deep(f, n), MutexPend(0)) && Mutex.Step(Deep(f, n), MutexPend(0)) == Deep(f, n + 1)
  {
    GoodCallable(Deep(f, n));
    assert f.held[f.k.current := n][f.k.current := n + 1] == f.held[f.k.current := n + 1];
    assert Pended(Deep(f, n), 0) == Deep(f, n + 1);
  }

  /** The run `ops` is n pends. */
  ghost predicate Deepens(f: Mutex.State, ops: seq<Mutex.Op>, n: nat) {
    f.k.current in f.k.tasks && Reaches(f, ops, Deep(f, n)) && Good(Deep(f, n))
  }

  lemma {:induction false} PendsAgain(f: Mutex.State, ops: seq<Mutex.Op>, n: nat)
    requires Free(f) && 0 < n < COUNT_LIMIT - 1 && Deepens(f, ops, n)
    ensures Deepens(f, ops + [MutexPend(0)], n + 1)
  {
    NextPend(f, n);
    ReachesNext(f, ops, Deep(f, n), MutexPend(0));
  }

  lemma {:induction false} PendsFirst(f: Mutex.State)
    requires Free(f) && Reaches(f, [], f)
    ensures Deepens(f, [] + [MutexPend(0)], 1)
  {
    FirstPend(f);
    ReachesNext(f, [], f, MutexPend(0));
  }

  /** `holds` is of runs of so many pends, and one more pend makes it one more. */
  ghost predicate GoesOn(holds: (seq<Mutex.Op>, nat) -> bool) {
    forall ops, k: nat :: 0 < k < COUNT_LIMIT - 1 && holds(ops, k) ==> holds(ops + [MutexPend(0)], k + 1)
  }

  lemma {:induction false} PendRunKeeps(holds: (seq<Mutex.Op>, nat) -> bool, n: nat)
    requires 1 <= n < COUNT_LIMIT && holds([] + [MutexPend(0)], 1) && GoesOn(holds)
    ensures holds(PendRun(n), n)
    decreases n
  {
    if n > 1 {
      PendRunKeeps(holds, n - 1);
      assert holds(PendRun(n - 1) + [MutexPend(0)], (n - 1) + 1);
    }
  }

  lemma {:induction false} PendRunReaches(f: Mutex.State, n: nat)
    requires Free(f) && Deepens(f, [] + [MutexPend(0)], 1) && 1 <= n < COUNT_LIMIT
    ensures Deepens(f, PendRun(n), n)
  {
    var holds := (ops, k: nat) => Deepens(f, ops, k);
    forall ops, k: nat | 0 < k < COUNT_LIMIT - 1 && holds(ops, k)
      ensures holds(ops + [MutexPend(0)], k + 1)
    {
      PendsAgain(f, ops, k);
    }
    PendRunKeeps(holds, n);
  }

  /** The 65536th pend of the owner makes the count of the held mutex zero. */
  lemma {:induction false} ReenterWraps(n: nat) returns (m: Mutex.State)
    requires n == 65535
    ensures Reaches(Fresh(), PendRun(n), m) && m.owner == Owner.Task(m.k.current)
    ensures Reenter(m).count == 0 && Reenter(m).owner == m.owner && !Good(Reenter(m))
  {
    PendsFirst(Fresh());
    PendRunReaches(Fresh(), n);
    m := Deep(Fresh(), n);
    ReenterGood(m);
  }
}
