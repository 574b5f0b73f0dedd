/** The scheduler's lists and clock (src/task.c): 32 ready lists under a
    priority bitmap, two wake-time lists that swap when the 32-bit tick wraps,
    and the cached next wake tick. A step is one critical section. */
module Scheduler {
  import opened Machine
  import opened TaskList

  const UINT32_MAX: nat := 0xFFFF_FFFF
  const PRIORITIES: nat := 32

  /** Where a task's status item is linked (`dos_task_list`). `Timer(w)` is one
      of the two sleep lists; which of them is current changes at each wrap. */
  datatype Loc = Nowhere | Ready(p: nat) | Timer(w: bool)

  /** The task control block fields that scheduling uses, with `task_status`
      split into its bits. `value` is the status item's value; it keeps the last
      wake time while the task is ready. */
  datatype Tcb = Tcb(priority: nat, ready: bool, delay: bool, suspend: bool, timeout: bool,
                     value: nat, home: Loc)

  /** `bits` is `dos_task_priority`, least significant bit first. `lists` holds
      the ready lists and both sleep lists, and `now` names the sleep list that
      `_dos_task_sleep_list` points to. */
  datatype State = State(tick: nat, nextWake: nat, now: bool, bits: seq<bool>,
                         lists: map<Loc, seq<Task>>, tasks: map<Task, Tcb>,
                         current: Task, idle: Task)

  // ---- List operations on a state -----------------------------------------------

  predicate IsList(l: Loc) {
    l.Timer? || (l.Ready? && l.p < PRIORITIES)
  }

  function ValueOf(tasks: map<Task, Tcb>, t: Task): nat {
    if t in tasks then tasks[t].value else 0
  }

  function KeysOf(tasks: map<Task, Tcb>, list: seq<Task>): (keys: seq<nat>)
    ensures |keys| == |list|
    ensures forall i :: 0 <= i < |list| ==> keys[i] == ValueOf(tasks, list[i])
  {
    seq(|list|, i requires 0 <= i < |list| => ValueOf(tasks, list[i]))
  }

  function With(tasks: map<Task, Tcb>, list: seq<Task>, t: Task, value: nat): (r: seq<Task>) {
    Inserted(list, Slot(KeysOf(tasks, list), value), t)
  }

  type Lists = map<Loc, seq<Task>>
  type Tasks = map<Task, Tcb>

  /** `dos_task_item_del` on the status item of `t`. */
  function Detached(lists: Lists, tasks: Tasks, t: Task): Lists {
    if t in tasks && tasks[t].home in lists
    then lists[tasks[t].home := Without(lists[tasks[t].home], t)]
    else lists
  }

  /** `dos_task_item_insert` of the status item of `t` into `tcb.home`. */
  function Attached(lists: Lists, tasks: Tasks, t: Task, tcb: Tcb): Lists {
    if tcb.home in lists
    then lists[tcb.home := With(tasks, lists[tcb.home], t, tcb.value)]
    else lists
  }

  /** Take `t` off the list it is on, put it on `tcb.home`, and store `tcb`. */
  function Move(s: State, t: Task, tcb: Tcb): State {
    s.(lists := Attached(Detached(s.lists, s.tasks, t), s.tasks, t, tcb), tasks := s.tasks[t := tcb])
  }

  // ---- What every list keeps ---------------------------------------------------

  ghost predicate InOrder(list: seq<Task>, tasks: Tasks) {
    forall i, j :: 0 <= i < j < |list| ==> ValueOf(tasks, list[i]) <= ValueOf(tasks, list[j])
  }

  /** A list holds tasks whose status item names it, once each, in the order
      of their values. */
  ghost predicate ListOk(list: seq<Task>, tasks: Tasks, l: Loc) {
    && Distinct(list) && InOrder(list, tasks)
    && forall t :: t in list ==> t in tasks && tasks[t].home == l
  }

  /** And every task whose status item names a list is in it. */
  ghost predicate Linked(lists: Lists, tasks: Tasks) {
    && (forall l :: l in lists <==> IsList(l))
    && (forall l :: l in lists ==> ListOk(lists[l], tasks, l))
    && (forall t :: t in tasks && tasks[t].home != Nowhere ==>
          tasks[t].home in lists && t in lists[tasks[t].home])
  }

  lemma {:induction false} WithoutKeeps(tasks: Tasks, list: seq<Task>, t: Task)
    requires Distinct(list)
    ensures var r := Without(list, t);
            && Distinct(r) && (forall x :: x in r <==> x in list && x != t)
            && (InOrder(list, tasks) ==> InOrder(r, tasks))
            && (t in list ==> |r| == |list| - 1)
  {
    var k, r := Find(list, t), Without(list, t);
    if k < |list| {
      DistinctRemoved(list, k);
      assert forall i :: 0 <= i < k ==> r[i] == list[i];
      assert forall i :: k <= i < |r| ==> r[i] == list[i + 1];
    }
  }

  lemma {:induction false} WithKeeps(tasks: Tasks, list: seq<Task>, t: Task, value: nat)
    requires Distinct(list) && t !in list
    ensures var r := With(tasks, list, t, value);
            Distinct(r) && forall x :: x in r <==> x in list || x == t
  {
    var k := Slot(KeysOf(tasks, list), value);
    InsertedMembers(list, k, t);
    DistinctInserted(list, k, t);
  }

  lemma {:induction false} WithInOrder(tasks: Tasks, tasks': Tasks, list: seq<Task>, t: Task)
    requires t !in list && InOrder(list, tasks)
    requires forall x :: x in list ==> ValueOf(tasks', x) == ValueOf(tasks, x)
    ensures InOrder(With(tasks, list, t, ValueOf(tasks', t)), tasks')
  {
    var value, keys := ValueOf(tasks', t), KeysOf(tasks, list);
    var k := Slot(keys, value);
    KeysInOrder(list, tasks);
    KeysKept(tasks, tasks', list);
    KeysInserted(tasks', list, k, t);
    InsertedStable(keys, value, k);
    KeysInOrder(Inserted(list, k, t), tasks');
  }

  lemma {:induction false} KeysInOrder(list: seq<Task>, tasks: Tasks)
    ensures InOrder(list, tasks) <==> Sorted(KeysOf(tasks, list))
  {
    var keys := KeysOf(tasks, list);
    forall i, j | 0 <= i < j < |list|
      ensures keys[i] == ValueOf(tasks, list[i]) && keys[j] == ValueOf(tasks, list[j])
    {
    }
  }

  lemma {:induction false} KeysKept(tasks: Tasks, tasks': Tasks, list: seq<Task>)
    requires forall x :: x in list ==> ValueOf(tasks', x) == ValueOf(tasks, x)
    ensures KeysOf(tasks', list) == KeysOf(tasks, list)
  {
    forall i | 0 <= i < |list|
      ensures KeysOf(tasks', list)[i] == KeysOf(tasks, list)[i]
    {
      assert list[i] in list;
    }
  }

  lemma {:induction false} KeysInserted(tasks: Tasks, list: seq<Task>, k: nat, t: Task)
    requires k <= |list|
    ensures KeysOf(tasks, Inserted(list, k, t)) == Inserted(KeysOf(tasks, list), k, ValueOf(tasks, t))
  {
  }

  lemma {:induction false} ListOkFrame(list: seq<Task>, tasks: Tasks, tasks': Tasks, l: Loc)
    requires ListOk(list, tasks, l)
    requires forall t :: t in list ==> t in tasks' && tasks'[t].home == l && tasks'[t].value == tasks[t].value
    ensures ListOk(list, tasks', l)
  {
  }

  lemma {:induction false} DetachedLinked(lists: Lists, tasks: Tasks, t: Task)
    requires Linked(lists, tasks)
    ensures Linked(Detached(lists, tasks, t), tasks - {t})
  {
    var r, rest := Detached(lists, tasks, t), tasks - {t};
    forall l | l in r
      ensures ListOk(r[l], rest, l) && forall x :: x in r[l] <==> x in lists[l] && x != t
    {
      assert ListOk(lists[l], tasks, l);
      WithoutKeeps(tasks, lists[l], t);
      ListOkFrame(r[l], tasks, rest, l);
    }
  }

  lemma {:induction false} AttachedListOk(list: seq<Task>, tasks: Tasks, t: Task, tcb: Tcb)
    requires ListOk(list, tasks - {t}, tcb.home)
    ensures var r := With(tasks, list, t, tcb.value);
            && ListOk(r, tasks[t := tcb], tcb.home)
            && forall x :: x in r <==> x in list || x == t
  {
    ListOkFrame(list, tasks - {t}, tasks, tcb.home);
    WithKeeps(tasks, list, t, tcb.value);
    WithInOrder(tasks, tasks[t := tcb], list, t);
  }

  lemma {:induction false} AttachedLinked(lists: Lists, tasks: Tasks, t: Task, tcb: Tcb)
    requires Linked(lists, tasks - {t}) && (tcb.home == Nowhere || IsList(tcb.home))
    ensures Linked(Attached(lists, tasks, t, tcb), tasks[t := tcb])
  {
    var r, rest, after := Attached(lists, tasks, t, tcb), tasks - {t}, tasks[t := tcb];
    forall l | l in r
      ensures ListOk(r[l], after, l)
    {
      AttachedAt(lists, tasks, t, tcb, l);
    }
    forall x | x in after && after[x].home != Nowhere
      ensures after[x].home in r && x in r[after[x].home]
    {
      assert x != t ==> x in rest && after[x] == rest[x];
      AttachedAt(lists, tasks, t, tcb, after[x].home);
    }
  }

  lemma {:induction false} AttachedAt(lists: Lists, tasks: Tasks, t: Task, tcb: Tcb, l: Loc)
    requires Linked(lists, tasks - {t}) && l in lists
    ensures var r := Attached(lists, tasks, t, tcb);
            l in r && ListOk(r[l], tasks[t := tcb], l) && forall x :: x in r[l] <==> x in lists[l] || (x == t && l == tcb.home)
  {
    assert ListOk(lists[l], tasks - {t}, l);
    if l == tcb.home {
      AttachedListOk(lists[l], tasks, t, tcb);
    } else {
      ListOkFrame(lists[l], tasks - {t}, tasks[t := tcb], l);
    }
  }

  lemma {:induction false} MoveLinked(s: State, t: Task, tcb: Tcb)
    requires Linked(s.lists, s.tasks) && (tcb.home == Nowhere || IsList(tcb.home))
    ensures Linked(Move(s, t, tcb).lists, Move(s, t, tcb).tasks)
  {
    DetachedLinked(s.lists, s.tasks, t);
    AttachedLinked(Detached(s.lists, s.tasks, t), s.tasks, t, tcb);
  }

  /** Fields other than the value and the list pointer may change freely. */
  lemma {:induction false} RetagLinked(lists: Lists, tasks: Tasks, t: Task, tcb: Tcb)
    requires Linked(lists, tasks) && t in tasks && tcb.home == tasks[t].home && tcb.value == tasks[t].value
    ensures Linked(lists, tasks[t := tcb])
  {
    forall l | l in lists
      ensures ListOk(lists[l], tasks[t := tcb], l)
    {
      ListOkFrame(lists[l], tasks, tasks[t := tcb], l);
    }
  }

  // ---- The invariant -------------------------------------------------------------

  /** READY says the item is in the ready list of the task's priority, DELAY
      that it is in one of the sleep lists. */
  ghost predicate TaskOk(tcb: Tcb) {
    && tcb.priority < PRIORITIES && tcb.value < WORD
    && (tcb.ready <==> tcb.home.Ready?)
    && (tcb.delay <==> tcb.home.Timer?)
    && (tcb.home.Ready? ==> tcb.home.p == tcb.priority)
  }

  ghost predicate Status(tasks: Tasks) {
    forall t :: t in tasks ==> TaskOk(tasks[t])
  }

  /** There is one bit per priority, and all lists are there. */
  ghost predicate Shaped(bits: seq<bool>, lists: Lists) {
    && |bits| == PRIORITIES
    && forall l :: l in lists <==> IsList(l)
  }

  /** Bit p is set exactly when ready list p has a task. */
  ghost predicate Bits(bits: seq<bool>, lists: Lists) {
    && Shaped(bits, lists)
    && forall p :: 0 <= p < PRIORITIES ==> (bits[p] <==> lists[Ready(p)] != [])
  }

  /** The current sleep list holds wake times still to come in this turn of the
      tick counter, none below `nextWake`; the overflow list holds those of the
      next turn. */
  ghost predicate Timely(tick: nat, nextWake: nat, now: bool, tasks: Tasks) {
    && tick < WORD && nextWake < WORD
    && (tick < nextWake || tick == UINT32_MAX)
    && From(tasks, now, tick + 1) && From(tasks, now, nextWake)
    && (forall t :: t in tasks && tasks[t].home == Timer(!now) ==> tasks[t].value < tick)
  }

  /** The wake times in sleep list `w` are at least `bound`. */
  ghost predicate From(tasks: Tasks, w: bool, bound: nat) {
    forall t :: t in tasks && tasks[t].home == Timer(w) ==> bound <= tasks[t].value
  }

  /** The idle task is never refused the processor: it stays ready. */
  ghost predicate Inv(s: State) {
    && Linked(s.lists, s.tasks) && Status(s.tasks) && Bits(s.bits, s.lists)
    && Timely(s.tick, s.nextWake, s.now, s.tasks)
    && s.current in s.tasks && s.idle in s.tasks && s.tasks[s.idle].ready
  }

  /** The part of the invariant about one task that the operations rely on. */
  ghost predicate Sound(s: State, t: Task) {
    && t in s.tasks && TaskOk(s.tasks[t]) && Shaped(s.bits, s.lists)
    && (s.tasks[t].home != Nowhere ==> s.tasks[t].home in s.lists)
  }

  lemma {:induction false} InvSound(s: State, t: Task)
    requires Linked(s.lists, s.tasks) && Status(s.tasks) && Bits(s.bits, s.lists) && t in s.tasks
    ensures Sound(s, t)
  {
  }

  // ---- Operations ------------------------------------------------------------------

  /** The bitmap after `dos_task_item_del` of `t`: when the list it was on is
      then empty and so is the ready list of its priority, that bit goes. */
  function LeaveBits(s: State, t: Task): (bits: seq<bool>)
    requires Sound(s, t) && s.tasks[t].home != Nowhere
    ensures |bits| == PRIORITIES
  {
    var lists, tcb := Detached(s.lists, s.tasks, t), s.tasks[t];
    if lists[tcb.home] == [] && lists[Ready(tcb.priority)] == [] then s.bits[tcb.priority := false] else s.bits
  }

  /** `_dos_insert_task_priority_list` for a task with block `tcb`, off its list first. */
  function EnterReady(s: State, t: Task, tcb: Tcb): State
    requires |s.bits| == PRIORITIES && tcb.priority < PRIORITIES
  {
    Move(s, t, tcb.(ready := true, home := Ready(tcb.priority))).(bits := s.bits[tcb.priority := true])
  }

  /** `dos_task_create`: the list part. */
  function Create(s: State, t: Task, priority: nat): State
    requires |s.bits| == PRIORITIES && priority < PRIORITIES
  {
    EnterReady(s, t, Tcb(priority, false, false, false, false, 0, Nowhere))
  }

  /** `_dos_insert_task_sleep_list`, the running task's block being `tcb`. */
  function InsertSleep(s: State, tcb: Tcb, n: nat): State
    requires Sound(s, s.current) && s.tasks[s.current].ready && s.tick < WORD && n < WORD
  {
    if s.current == s.idle then s.(tasks := s.tasks[s.current := tcb])
    else
      var asleep := SleepTcb(s, tcb, Add32(s.tick, n));
      var next := if asleep.value >= s.tick && s.nextWake >= asleep.value then asleep.value else s.nextWake;
      Move(s, s.current, asleep).(bits := LeaveBits(s, s.current), nextWake := next)
  }

  /** A wake time below the tick lies in the next turn of the counter. */
  function SleepTcb(s: State, tcb: Tcb, value: nat): Tcb {
    tcb.(ready := false, delay := true, value := value, home := Timer(if value < s.tick then !s.now else s.now))
  }

  /** `dos_task_wait`: the status part; the wait list the pend item goes to
      belongs to the caller. */
  function Wait(s: State, timeout: nat): State
    requires Sound(s, s.current) && s.tasks[s.current].ready && s.tick < WORD && timeout < WORD
  {
    var tcb := s.tasks[s.current].(suspend := true);
    if timeout != UINT32_MAX then InsertSleep(s, tcb, timeout)
    else Move(s, s.current, tcb.(ready := false, home := Nowhere)).(bits := LeaveBits(s, s.current))
  }

  /** `dos_task_wake`: the status part. */
  function Wake(s: State, t: Task): State
    requires Sound(s, t)
  {
    EnterReady(s, t, s.tasks[t].(suspend := false, delay := false))
  }

  /** A running task whose wait has timed out notices it and clears its status; its pend item
      belongs to the caller. */
  function ResumeTimedOut(s: State): State
    requires s.current in s.tasks
  {
    s.(tasks := s.tasks[s.current := s.tasks[s.current].(timeout := false, suspend := false, ready := true)])
  }

  /** `dos_set_task_priority` */
  function SetPriority(s: State, t: Task, priority: nat): State
    requires Sound(s, t) && priority < PRIORITIES
  {
    var tcb := s.tasks[t].(priority := priority);
    if tcb.ready then EnterReady(s.(bits := LeaveBits(s, t)), t, tcb)
    else s.(tasks := s.tasks[t := tcb])
  }

  /** `dos_task_delete`: the block of another task is released; the running
      task keeps its block, marked unused, until the idle task collects it. */
  function Delete(s: State, t: Task): State
    requires Sound(s, t)
  {
    var bits := if s.tasks[t].delay || s.tasks[t].ready then LeaveBits(s, t) else s.bits;
    if t != s.current then s.(lists := Detached(s.lists, s.tasks, t), bits := bits, tasks := s.tasks - {t})
    else Move(s, t, s.tasks[t].(ready := false, delay := false, suspend := false, timeout := false, home := Nowhere)).(bits := bits)
  }

  /** `_dos_switch_sleep_list` */
  function SwitchLists(s: State): State
    requires Timer(false) in s.lists && Timer(true) in s.lists
  {
    var list := s.lists[Timer(!s.now)];
    if s.lists[Timer(s.now)] != [] then s
    else s.(now := !s.now, nextWake := if list == [] then UINT32_MAX else ValueOf(s.tasks, list[0]))
  }

  /** One round of the wake loop: the task's time is up. */
  function TimeOut(s: State, t: Task): State
    requires |s.bits| == PRIORITIES && t in s.tasks && s.tasks[t].priority < PRIORITIES
  {
    var tcb := s.tasks[t];
    EnterReady(s, t, tcb.(delay := false, timeout := tcb.timeout || tcb.suspend))
  }

  /** The wake loop of `dos_tick_update`. */
  function WakeDue(s: State): State
    requires Linked(s.lists, s.tasks) && Status(s.tasks) && Bits(s.bits, s.lists)
    decreases |s.lists[Timer(s.now)]|
  {
    var list := s.lists[Timer(s.now)];
    if list == [] then s.(nextWake := UINT32_MAX)
    else
      assert ListOk(list, s.tasks, Timer(s.now)) && TaskOk(s.tasks[list[0]]);
      var value := s.tasks[list[0]].value;
      if value > s.nextWake then s.(nextWake := value)
      else
        TimeOutKeeps(s, list[0]);
        WakeDue(TimeOut(s, list[0]))
  }

  /** The state the wake loop starts from. */
  function Ticked(s: State): State
    requires s.tick < WORD && Timer(false) in s.lists && Timer(true) in s.lists
  {
    var u := s.(tick := Add32(s.tick, 1));
    if u.tick == 0 then SwitchLists(u) else u
  }

  /** `dos_tick_update` */
  function Tick(s: State): State
    requires Linked(s.lists, s.tasks) && Status(s.tasks) && Bits(s.bits, s.lists) && s.tick < WORD
  {
    var v := Ticked(s);
    if v.tick >= v.nextWake then WakeDue(v) else v
  }

  /** Changing a priority stores that task's block and nothing else outside the
      lists and the bitmap. */
  lemma {:induction false} SetPriorityFrame(s: State, t: Task, priority: nat)
    requires Sound(s, t) && priority < PRIORITIES
    ensures var r := SetPriority(s, t, priority);
            && r == s.(bits := r.bits, lists := r.lists, tasks := r.tasks) && Shaped(r.bits, r.lists)
            && t in r.tasks && r.tasks == s.tasks[t := r.tasks[t]]
            && r.tasks[t] == s.tasks[t].(priority := priority, home := r.tasks[t].home)
            && (r.tasks[t].home == if s.tasks[t].ready then Ready(priority) else s.tasks[t].home)
  {
  }

  // ---- Every operation keeps the invariant ---------------------------------------

  lemma {:induction false} LeaveBitsOk(s: State, t: Task)
    requires Linked(s.lists, s.tasks) && Status(s.tasks) && Bits(s.bits, s.lists)
    requires t in s.tasks && s.tasks[t].home != Nowhere
    ensures Bits(LeaveBits(s, t), Detached(s.lists, s.tasks, t))
  {
    var home := s.tasks[t].home;
    assert TaskOk(s.tasks[t]) && ListOk(s.lists[home], s.tasks, home);
    WithoutKeeps(s.tasks, s.lists[home], t);
  }

  lemma {:induction false} EnterReadyKeeps(s: State, t: Task, tcb: Tcb)
    requires Linked(s.lists, s.tasks) && Status(s.tasks) && |s.bits| == PRIORITIES
    requires tcb.priority < PRIORITIES && tcb.value < WORD && !tcb.delay
    requires forall p :: 0 <= p < PRIORITIES && p != tcb.priority ==>
               (s.bits[p] <==> Detached(s.lists, s.tasks, t)[Ready(p)] != [])
    ensures var r := EnterReady(s, t, tcb);
            Linked(r.lists, r.tasks) && Status(r.tasks) && Bits(r.bits, r.lists)
  {
    MoveLinked(s, t, tcb.(ready := true, home := Ready(tcb.priority)));
  }

  lemma {:induction false} TimeOutKeeps(s: State, t: Task)
    requires Linked(s.lists, s.tasks) && Status(s.tasks) && Bits(s.bits, s.lists)
    requires t in s.tasks && s.tasks[t].home == Timer(s.now)
    ensures var r := TimeOut(s, t);
            && Linked(r.lists, r.tasks) && Status(r.tasks) && Bits(r.bits, r.lists)
            && |r.lists[Timer(r.now)]| < |s.lists[Timer(s.now)]|
  {
    var tcb := s.tasks[t];
    assert TaskOk(tcb) && ListOk(s.lists[tcb.home], s.tasks, tcb.home);
    WithoutKeeps(s.tasks, s.lists[tcb.home], t);
    EnterReadyKeeps(s, t, tcb.(delay := false, timeout := tcb.timeout || tcb.suspend));
  }

  /** A task's block once its sleep or wait has run out. */
  function Expired(tcb: Tcb): Tcb {
    tcb.(delay := false, timeout := tcb.timeout || tcb.suspend, ready := true, home := Ready(tcb.priority))
  }

  lemma {:induction false} Inhabited(list: seq<Task>)
    ensures list == [] || exists t :: t in list
  {
    assert list == [] || list[0] in list;
  }

  lemma {:induction false} FirstIsEarliest(list: seq<Task>, tasks: Tasks, l: Loc, t: Task)
    requires ListOk(list, tasks, l) && t in list
    ensures tasks[list[0]].value <= tasks[t].value
  {
    var i :| 0 <= i < |list| && list[i] == t;
    assert i > 0 ==> ValueOf(tasks, list[0]) <= ValueOf(tasks, list[i]);
  }

  /** `after` is `before` with exactly the tasks of sleep list `w` timed out
      whose wake time is `wake`. */
  ghost predicate Woken(before: Tasks, after: Tasks, w: bool, wake: nat) {
    && after.Keys == before.Keys
    && forall t :: t in before ==>
         after[t] == if before[t].home == Timer(w) && before[t].value == wake then Expired(before[t]) else before[t]
  }

  lemma {:induction false} WakeDueKeeps(s: State)
    requires Linked(s.lists, s.tasks) && Status(s.tasks) && Bits(s.bits, s.lists)
    ensures var r := WakeDue(s);
            && Linked(r.lists, r.tasks) && Status(r.tasks) && Bits(r.bits, r.lists)
            && r == s.(lists := r.lists, tasks := r.tasks, bits := r.bits, nextWake := r.nextWake)
    decreases |s.lists[Timer(s.now)]|
  {
    var list := s.lists[Timer(s.now)];
    if list != [] {
      assert ListOk(list, s.tasks, Timer(s.now)) && TaskOk(s.tasks[list[0]]);
      if s.tasks[list[0]].value <= s.nextWake {
        TimeOutKeeps(s, list[0]);
        WakeDueKeeps(TimeOut(s, list[0]));
      }
    }
  }

  lemma {:induction false} AllFromFirst(s: State)
    requires Linked(s.lists, s.tasks) && s.lists[Timer(s.now)] != []
    ensures From(s.tasks, s.now, ValueOf(s.tasks, s.lists[Timer(s.now)][0]))
  {
    var list := s.lists[Timer(s.now)];
    assert ListOk(list, s.tasks, Timer(s.now));
    forall t | t in s.tasks && s.tasks[t].home == Timer(s.now)
      ensures s.tasks[list[0]].value <= s.tasks[t].value
    {
      FirstIsEarliest(list, s.tasks, Timer(s.now), t);
    }
  }

  /** The wake loop wakes exactly the tasks whose time is `nextWake`, and leaves
      a `nextWake` beyond it that no remaining wake time precedes. */
  lemma {:induction false} WakeDueWakes(s: State)
    requires Linked(s.lists, s.tasks) && Status(s.tasks) && Bits(s.bits, s.lists)
    requires s.nextWake < WORD && From(s.tasks, s.now, s.nextWake)
    ensures var r := WakeDue(s);
            && Woken(s.tasks, r.tasks, s.now, s.nextWake)
            && From(r.tasks, s.now, r.nextWake) && From(r.tasks, s.now, s.nextWake + 1)
            && (s.nextWake < r.nextWake < WORD || r.nextWake == UINT32_MAX)
    decreases |s.lists[Timer(s.now)]|
  {
    var list := s.lists[Timer(s.now)];
    if list != [] {
      AllFromFirst(s);
      if ValueOf(s.tasks, list[0]) <= s.nextWake {
        var u := WakesFirst(s);
        WakeDueWakes(u);
        WokenStep(s.tasks, WakeDue(u).tasks, list[0], s.now, s.nextWake);
      }
    }
  }

  /** One round of the wake loop. */
  lemma {:induction false} WakesFirst(s: State) returns (u: State)
    requires Linked(s.lists, s.tasks) && Status(s.tasks) && Bits(s.bits, s.lists) && From(s.tasks, s.now, s.nextWake)
    requires s.lists[Timer(s.now)] != [] && ValueOf(s.tasks, s.lists[Timer(s.now)][0]) <= s.nextWake
    ensures var t := s.lists[Timer(s.now)][0];
            && t in s.tasks && s.tasks[t].home == Timer(s.now) && s.tasks[t].value == s.nextWake
            && u == s.(tasks := s.tasks[t := Expired(s.tasks[t])], lists := u.lists, bits := u.bits)
    ensures Linked(u.lists, u.tasks) && Status(u.tasks) && Bits(u.bits, u.lists) && From(u.tasks, u.now, u.nextWake)
    ensures |u.lists[Timer(u.now)]| < |s.lists[Timer(s.now)]| && WakeDue(s) == WakeDue(u)
  {
    var list := s.lists[Timer(s.now)];
    var t := list[0];
    assert ListOk(list, s.tasks, Timer(s.now)) && t in list;
    assert TaskOk(s.tasks[t]);
    TimeOutKeeps(s, t);
    u := TimeOut(s, t);
    FromStep(s.tasks, t, s.now, s.nextWake);
  }

  lemma {:induction false} FromStep(tasks: Tasks, t: Task, w: bool, bound: nat)
    requires t in tasks && From(tasks, w, bound)
    ensures From(tasks[t := Expired(tasks[t])], w, bound)
  {
  }

  lemma {:induction false} WokenStep(before: Tasks, after: Tasks, t: Task, w: bool, wake: nat)
    requires t in before && before[t].home == Timer(w) && before[t].value == wake
    requires Woken(before[t := Expired(before[t])], after, w, wake)
    ensures Woken(before, after, w, wake)
  {
  }

  /** The number of ticks after which a delayed task is due. */
  function Left(s: State, t: Task): int
    requires t in s.tasks
  {
    Remaining(s, s.tasks[t])
  }

  function Remaining(s: State, tcb: Tcb): int {
    if tcb.home == Timer(s.now) then tcb.value - s.tick else tcb.value + WORD - s.tick
  }

  /** At the wrap every wake time of the ending turn has passed: the current
      list is empty, so the lists do swap. */
  lemma {:induction false} WrapFindsListEmpty(s: State)
    requires Inv(s) && s.tick == UINT32_MAX
    ensures s.lists[Timer(s.now)] == []
    ensures forall t :: t in s.tasks ==> s.tasks[t].home != Timer(s.now)
  {
    var list := s.lists[Timer(s.now)];
    Inhabited(list);
    assert ListOk(list, s.tasks, Timer(s.now));
    forall t | t in s.tasks
      ensures s.tasks[t].home != Timer(s.now)
    {
      assert TaskOk(s.tasks[t]);
    }
  }

  lemma {:induction false} WrapSwaps(s: State)
    requires Inv(s) && s.tick == UINT32_MAX
    ensures var v := Ticked(s);
            && v.now == !s.now && v.nextWake < WORD && From(s.tasks, v.now, v.nextWake)
            && v == s.(tick := 0, now := v.now, nextWake := v.nextWake)
  {
    WrapFindsListEmpty(s);
    var v := Ticked(s);
    var list := s.lists[Timer(v.now)];
    assert ListOk(list, s.tasks, Timer(v.now));
    if list != [] {
      assert TaskOk(s.tasks[list[0]]);
      AllFromFirst(v);
    }
  }

  /** The clock part of a tick: every pending wake is one tick nearer. */
  lemma {:induction false} TickedTimes(s: State)
    requires Inv(s)
    ensures var v := Ticked(s);
            && v == s.(tick := v.tick, now := v.now, nextWake := v.nextWake)
            && v.tick <= v.nextWake < WORD && From(s.tasks, v.now, v.nextWake)
            && forall t :: t in s.tasks ==> Nearer(s, v, s.tasks[t])
  {
    if s.tick == UINT32_MAX {
      WrapFindsListEmpty(s);
      WrapSwaps(s);
    }
  }

  /** What the clock's advance from `s` to `v` means for one task. */
  ghost predicate Nearer(s: State, v: State, tcb: Tcb) {
    tcb.home.Timer? ==>
      && (tcb.home == Timer(!v.now) ==> tcb.value < v.tick)
      && Remaining(v, tcb) == Remaining(s, tcb) - 1
  }

  /** The overflow list's times stay below the tick when tasks are woken. */
  lemma {:induction false} WokenTimely(v: State, tasks: Tasks, nextWake: nat)
    requires v.tick < WORD && nextWake < WORD && (v.tick < nextWake || nextWake == UINT32_MAX)
    requires Woken(v.tasks, tasks, v.now, v.nextWake) && v.nextWake == v.tick
    requires From(tasks, v.now, nextWake) && From(tasks, v.now, v.tick + 1)
    requires forall t :: t in v.tasks && v.tasks[t].home == Timer(!v.now) ==> v.tasks[t].value < v.tick
    ensures Timely(v.tick, nextWake, v.now, tasks)
  {
  }

  lemma {:induction false} TickTimely(s: State)
    requires Inv(s)
    ensures var r := Tick(s);
            Timely(r.tick, r.nextWake, r.now, r.tasks)
  {
    var v := Ticked(s);
    TickedTimes(s);
    assert forall t :: t in v.tasks && v.tasks[t].home == Timer(!v.now) ==> Nearer(s, v, v.tasks[t]);
    if v.tick == v.nextWake {
      WakeDueKeeps(v);
      WakeDueWakes(v);
      WokenTimely(v, WakeDue(v).tasks, WakeDue(v).nextWake);
    }
  }

  lemma {:induction false} TickKeepsInv(s: State)
    requires Inv(s)
    ensures Inv(Tick(s))
  {
    TickTimely(s);
    TickedTimes(s);
    var v := Ticked(s);
    if v.tick == v.nextWake {
      assert TaskOk(s.tasks[s.idle]);
      WakeDueKeeps(v);
      WakeDueWakes(v);
    }
  }

  /** One tick refines one step of an unbounded clock: every delayed task is one
      tick nearer, and exactly those with one tick left become ready. */
  lemma {:induction false} TickSpec(s: State, t: Task)
    requires Inv(s) && t in s.tasks
    ensures t in Tick(s).tasks
    ensures Tick(s).tasks[t] == if s.tasks[t].delay && Left(s, t) == 1 then Expired(s.tasks[t]) else s.tasks[t]
    ensures Tick(s).tasks[t].delay ==> Left(Tick(s), t) == Left(s, t) - 1
  {
    var v := Ticked(s);
    TickedTimes(s);
    assert TaskOk(s.tasks[t]);
    if v.tick == v.nextWake {
      WakeDueKeeps(v);
      WakeDueWakes(v);
    }
  }

  lemma {:induction false} TimelyOff(tick: nat, nextWake: nat, now: bool, tasks: Tasks, t: Task, tcb: Tcb)
    requires Timely(tick, nextWake, now, tasks)
    requires tcb.home.Timer? ==> t in tasks && tasks[t].home == tcb.home && tasks[t].value == tcb.value
    ensures Timely(tick, nextWake, now, tasks[t := tcb])
  {
  }

  lemma {:induction false} TimelySleep(tick: nat, nextWake: nat, now: bool, tasks: Tasks, t: Task, tcb: Tcb, n: nat)
    requires Timely(tick, nextWake, now, tasks) && 1 <= n < WORD
    requires tcb.value == Add32(tick, n) && tcb.home == Timer(if tcb.value < tick then !now else now)
    ensures var next := if tcb.value >= tick && nextWake >= tcb.value then tcb.value else nextWake;
            Timely(tick, next, now, tasks[t := tcb])
    ensures tcb.value < tick <==> tick + n >= WORD
  {
  }

  lemma {:induction false} BitsAttachOther(bits: seq<bool>, lists: Lists, tasks: Tasks, t: Task, tcb: Tcb)
    requires Bits(bits, lists) && !tcb.home.Ready?
    ensures Bits(bits, Attached(lists, tasks, t, tcb))
  {
  }

  /** Taking a linked task off its list and storing a block that is not ready. */
  lemma {:induction false} LeaveKeeps(s: State, t: Task, tcb: Tcb)
    requires Linked(s.lists, s.tasks) && Status(s.tasks) && Bits(s.bits, s.lists)
    requires t in s.tasks && s.tasks[t].home != Nowhere
    requires TaskOk(tcb) && !tcb.ready && Sound(s, t)
    ensures var r := Move(s, t, tcb).(bits := LeaveBits(s, t));
            Linked(r.lists, r.tasks) && Status(r.tasks) && Bits(r.bits, r.lists)
  {
    var r := Move(s, t, tcb).(bits := LeaveBits(s, t));
    assert Bits(r.bits, r.lists) by {
      LeaveBitsOk(s, t);
      BitsAttachOther(r.bits, Detached(s.lists, s.tasks, t), s.tasks, t, tcb);
    }
    assert Linked(r.lists, r.tasks) by {
      MoveLinked(s, t, tcb);
    }
  }

  lemma {:induction false} SleepKeepsInv(s: State, tcb: Tcb, n: nat)
    requires Inv(s) && s.tasks[s.current].ready && 1 <= n < WORD
    requires tcb == s.tasks[s.current].(suspend := tcb.suspend)
    ensures Inv(InsertSleep(s, tcb, n))
  {
    var t := s.current;
    assert TaskOk(s.tasks[t]);
    if t == s.idle {
      RetagLinked(s.lists, s.tasks, t, tcb);
      TimelyOff(s.tick, s.nextWake, s.now, s.tasks, t, tcb);
    } else {
      var asleep := SleepTcb(s, tcb, Add32(s.tick, n));
      TimelySleep(s.tick, s.nextWake, s.now, s.tasks, t, asleep, n);
      InvSound(s, t);
      LeaveKeeps(s, t, asleep);
    }
  }

  lemma {:induction false} WaitKeepsInv(s: State, timeout: nat)
    requires Inv(s) && s.tasks[s.current].ready && s.current != s.idle && 1 <= timeout < WORD
    ensures Inv(Wait(s, timeout))
  {
    var t := s.current;
    if timeout != UINT32_MAX {
      SleepKeepsInv(s, s.tasks[t].(suspend := true), timeout);
    } else {
      InvSound(s, t);
      LeaveKeeps(s, t, Wait(s, timeout).tasks[t]);
      TimelyOff(s.tick, s.nextWake, s.now, s.tasks, t, Wait(s, timeout).tasks[t]);
    }
  }

  lemma {:induction false} ResumeKeepsInv(s: State)
    requires Inv(s) && s.tasks[s.current].ready
    ensures Inv(ResumeTimedOut(s))
  {
    var t, tcb := s.current, ResumeTimedOut(s).tasks[s.current];
    assert TaskOk(s.tasks[t]);
    RetagLinked(s.lists, s.tasks, t, tcb);
    TimelyOff(s.tick, s.nextWake, s.now, s.tasks, t, tcb);
  }

  lemma {:induction false} EnterReadyInv(s: State, t: Task, tcb: Tcb)
    requires Inv(s) && tcb.priority < PRIORITIES && tcb.value < WORD && !tcb.delay
    requires t in s.tasks ==> tcb.priority == s.tasks[t].priority
    ensures Inv(EnterReady(s, t, tcb))
  {
    assert t in s.tasks ==> TaskOk(s.tasks[t]);
    EnterReadyKeeps(s, t, tcb);
    TimelyOff(s.tick, s.nextWake, s.now, s.tasks, t, EnterReady(s, t, tcb).tasks[t]);
  }

  lemma {:induction false} SetPriorityKeepsInv(s: State, t: Task, priority: nat)
    requires Inv(s) && t in s.tasks && priority < PRIORITIES
    ensures Inv(SetPriority(s, t, priority))
  {
    var tcb := s.tasks[t].(priority := priority);
    assert TaskOk(s.tasks[t]);
    TimelyOff(s.tick, s.nextWake, s.now, s.tasks, t, SetPriority(s, t, priority).tasks[t]);
    if tcb.ready {
      LeaveBitsOk(s, t);
      EnterReadyKeeps(s.(bits := LeaveBits(s, t)), t, tcb);
    } else {
      RetagLinked(s.lists, s.tasks, t, tcb);
    }
  }

  lemma {:induction false} DeleteBits(s: State, t: Task)
    requires Inv(s) && t in s.tasks
    ensures Bits(Delete(s, t).bits, Detached(s.lists, s.tasks, t))
  {
    assert TaskOk(s.tasks[t]);
    if s.tasks[t].home != Nowhere {
      LeaveBitsOk(s, t);
    }
  }

  lemma {:induction false} ReleasedTasks(s: State, t: Task)
    requires Status(s.tasks) && Timely(s.tick, s.nextWake, s.now, s.tasks)
    ensures Status(s.tasks - {t}) && Timely(s.tick, s.nextWake, s.now, s.tasks - {t})
  {
  }

  lemma {:induction false} DeleteKeepsInv(s: State, t: Task)
    requires Inv(s) && t in s.tasks && t != s.idle
    ensures Inv(Delete(s, t))
  {
    DeleteBits(s, t);
    if t == s.current {
      var gone := Delete(s, t).tasks[t];
      assert TaskOk(s.tasks[t]);
      TimelyOff(s.tick, s.nextWake, s.now, s.tasks, t, gone);
      MoveLinked(s, t, gone);
    } else {
      ReleasedTasks(s, t);
      DetachedLinked(s.lists, s.tasks, t);
    }
  }

  // ---- The highest ready priority --------------------------------------------------

  /** `dos_bit_map`: every row of 16 entries is `BIT_MAP_ROW` except for its
      first entry, which `BIT_MAP_COLUMN` lists. */
  const BIT_MAP_ROW: seq<nat> := [0, 0, 1, 0, 2, 0, 1, 0, 3, 0, 1, 0, 2, 0, 1, 0]
  const BIT_MAP_COLUMN: seq<nat> := [0, 4, 5, 4, 6, 4, 5, 4, 7, 4, 5, 4, 6, 4, 5, 4]

  /** The entry for a byte with the given low and high nibble. */
  function BitMap(low: nat, high: nat): nat
    requires low < 16 && high < 16
  {
    if low == 0 then BIT_MAP_COLUMN[high] else BIT_MAP_ROW[low]
  }

  function Bit(b: bool): nat { if b then 1 else 0 }

  /** The nibble whose least significant bit is bit `k` of the word. */
  function Nibble(bits: seq<bool>, k: nat): (n: nat)
    requires k + 4 <= |bits|
    ensures n < 16
  {
    Bit(bits[k]) + 2 * Bit(bits[k + 1]) + 4 * Bit(bits[k + 2]) + 8 * Bit(bits[k + 3])
  }

  /** `_dos_get_highest_priority`, byte by byte from the least significant. */
  function HighestPriority(bits: seq<bool>): nat
    requires |bits| == PRIORITIES
  {
    if AnyIn(bits, 0) then FromByte(bits, 0)
    else if AnyIn(bits, 8) then FromByte(bits, 8) + 8
    else if AnyIn(bits, 16) then FromByte(bits, 16) + 16
    else if AnyIn(bits, 24) then FromByte(bits, 24) + 24
    else 0
  }

  predicate AnyIn(bits: seq<bool>, k: nat)
    requires k + 8 <= |bits|
  {
    Nibble(bits, k) != 0 || Nibble(bits, k + 4) != 0
  }

  function FromByte(bits: seq<bool>, k: nat): nat
    requires k + 8 <= |bits|
  {
    BitMap(Nibble(bits, k), Nibble(bits, k + 4))
  }

  lemma {:induction false} NibbleTable(b0: bool, b1: bool, b2: bool, b3: bool)
    ensures var n := Nibble([b0, b1, b2, b3], 0);
            var least := if b0 then 0 else if b1 then 1 else if b2 then 2 else 3;
            n != 0 ==> BIT_MAP_ROW[n] == least && BIT_MAP_COLUMN[n] == least + 4
  {
  }

  lemma {:induction false} NibbleLeast(bits: seq<bool>, k: nat)
    requires k + 4 <= |bits| && Nibble(bits, k) != 0
    ensures var least := BIT_MAP_ROW[Nibble(bits, k)];
            && least < 4 && bits[k + least] && (forall i :: k <= i < k + least ==> !bits[i])
            && BIT_MAP_COLUMN[Nibble(bits, k)] == least + 4
  {
    NibbleTable(bits[k], bits[k + 1], bits[k + 2], bits[k + 3]);
    assert Nibble(bits, k) == Nibble([bits[k], bits[k + 1], bits[k + 2], bits[k + 3]], 0);
  }

  lemma {:induction false} NoneIn(bits: seq<bool>, k: nat)
    requires k + 4 <= |bits|
    ensures Nibble(bits, k) == 0 <==> forall i :: k <= i < k + 4 ==> !bits[i]
  {
  }

  lemma {:induction false} ByteLeast(bits: seq<bool>, k: nat)
    requires k + 8 <= |bits|
    ensures AnyIn(bits, k) ==>
              var least := FromByte(bits, k);
              least < 8 && bits[k + least] && forall i :: k <= i < k + least ==> !bits[i]
    ensures !AnyIn(bits, k) ==> forall i :: k <= i < k + 8 ==> !bits[i]
  {
    NoneIn(bits, k);
    NoneIn(bits, k + 4);
    if Nibble(bits, k) != 0 {
      NibbleLeast(bits, k);
    } else if Nibble(bits, k + 4) != 0 {
      NibbleLeast(bits, k + 4);
    }
  }

  /** The table look-up finds the lowest set bit of any non-zero word. */
  lemma {:induction false} HighestPriorityLeast(bits: seq<bool>)
    requires |bits| == PRIORITIES && exists p :: 0 <= p < PRIORITIES && bits[p]
    ensures var p := HighestPriority(bits);
            p < PRIORITIES && bits[p] && forall q :: 0 <= q < p ==> !bits[q]
  {
    ByteLeast(bits, 0);
    ByteLeast(bits, 8);
    ByteLeast(bits, 16);
    ByteLeast(bits, 24);
  }

  /** In every reachable state the priority the scheduler picks is that of the
      first ready list that is not empty. */
  lemma {:induction false} PicksFirstReadyList(s: State)
    requires Inv(s)
    ensures var p := HighestPriority(s.bits);
            p < PRIORITIES && s.lists[Ready(p)] != [] && forall q :: 0 <= q < p ==> s.lists[Ready(q)] == []
  {
    assert TaskOk(s.tasks[s.idle]) && s.bits[s.tasks[s.idle].priority];
    HighestPriorityLeast(s.bits);
  }

  /** `dos_check_task_priority`: whether to switch tasks, `sliceOver` saying
      that the running task's time slice has just run out. */
  predicate ShouldSwitch(s: State, sliceOver: bool)
    requires Inv(s)
  {
    var tcb := s.tasks[s.current];
    assert TaskOk(tcb);
    HighestPriority(s.bits) < tcb.priority || !tcb.ready || (|s.lists[Ready(tcb.priority)]| > 1 && sliceOver)
  }

  /** Without a switch the running task is ready and no ready task has a better
      priority. */
  lemma {:induction false} NoSwitchRunsHighest(s: State, sliceOver: bool, t: Task)
    requires Inv(s) && !ShouldSwitch(s, sliceOver) && t in s.tasks && s.tasks[t].ready
    ensures s.tasks[s.current].ready && s.tasks[s.current].priority <= s.tasks[t].priority
  {
    PicksFirstReadyList(s);
    assert TaskOk(s.tasks[t]);
  }

  /** A ready task is on the list of its priority, and whoever is there is a ready task of that priority. */
  lemma {:induction false} ListedIff(s: State, p: nat, t: Task)
    requires Inv(s) && p < PRIORITIES
    ensures t in s.lists[Ready(p)] <==> t in s.tasks && s.tasks[t].ready && s.tasks[t].priority == p
  {
    assert ListOk(s.lists[Ready(p)], s.tasks, Ready(p));
    if t in s.tasks {
      assert TaskOk(s.tasks[t]);
    }
  }

  lemma {:induction false} OneMore(list: seq<Task>, t: Task)
    requires t in list && Distinct(list)
    ensures |list| > 1 <==> exists u :: u in list && u != t
  {
    if |list| > 1 {
      assert list[0] in list && list[1] in list;
    }
  }

  /** A switch is asked for if and only if the running task is not ready, a ready task has a better
      priority, or the slice is over and another ready task has the same. */
  lemma {:induction false} SwitchIff(s: State, sliceOver: bool)
    requires Inv(s)
    ensures var tcb := s.tasks[s.current];
            ShouldSwitch(s, sliceOver) <==>
              || !tcb.ready
              || (exists t :: t in s.tasks && s.tasks[t].ready && s.tasks[t].priority < tcb.priority)
              || (sliceOver && exists t :: t in s.tasks && t != s.current && s.tasks[t].ready && s.tasks[t].priority == tcb.priority)
  {
    var tcb, p := s.tasks[s.current], HighestPriority(s.bits);
    assert TaskOk(tcb);
    PicksFirstReadyList(s);
    if tcb.ready {
      BetterIff(s, tcb.priority);
      ListedIff(s, tcb.priority, s.current);
      assert ListOk(s.lists[Ready(tcb.priority)], s.tasks, Ready(tcb.priority));
      OneMore(s.lists[Ready(tcb.priority)], s.current);
      forall t
        ensures t in s.lists[Ready(tcb.priority)] <==> t in s.tasks && s.tasks[t].ready && s.tasks[t].priority == tcb.priority
      {
        ListedIff(s, tcb.priority, t);
      }
    }
  }

  lemma {:induction false} BetterIff(s: State, priority: nat)
    requires Inv(s) && priority < PRIORITIES
    ensures HighestPriority(s.bits) < priority <==> exists t :: t in s.tasks && s.tasks[t].ready && s.tasks[t].priority < priority
  {
    var p := HighestPriority(s.bits);
    PicksFirstReadyList(s);
    ListedIff(s, p, s.lists[Ready(p)][0]);
    forall t | t in s.tasks && s.tasks[t].ready
      ensures p <= s.tasks[t].priority
    {
      assert TaskOk(s.tasks[t]);
      ListedIff(s, s.tasks[t].priority, t);
    }
  }

  lemma {:induction false} BestListed(lists: Lists, tasks: Tasks, p: nat, t: Task)
    requires Linked(lists, tasks) && Status(tasks) && p < PRIORITIES && lists[Ready(p)] != []
    requires t in tasks && tasks[t].ready && forall q :: 0 <= q < p ==> lists[Ready(q)] == []
    requires forall u :: u in tasks && tasks[u].ready ==> tasks[t].priority <= tasks[u].priority
    ensures t in lists[Ready(p)]
  {
    var u, l := lists[Ready(p)][0], tasks[t].home;
    assert ListOk(lists[Ready(p)], tasks, Ready(p)) && u in lists[Ready(p)];
    assert TaskOk(tasks[t]) && TaskOk(tasks[u]);
    assert l in lists && t in lists[l];
  }

  /** The best ready task is one the scheduler may pick. */
  lemma {:induction false} DispatchBest(s: State, t: Task)
    requires Inv(s) && t in s.tasks && s.tasks[t].ready
    requires forall u :: u in s.tasks && s.tasks[u].ready ==> s.tasks[t].priority <= s.tasks[u].priority
    ensures Enabled(s, Dispatch(t))
  {
    PicksFirstReadyList(s);
    BestListed(s.lists, s.tasks, HighestPriority(s.bits), t);
  }

  // ---- Runs --------------------------------------------------------------------------

  /** One critical section. `Dispatch(t)` is the context switch to `t`. */
  datatype Op =
    | NewTask(t: Task, priority: nat)
    | Dispatch(t: Task)
    | SleepFor(n: nat)
    | WaitFor(timeout: nat)
    | Resume
    | WakeUp(t: Task)
    | ChangePriority(t: Task, priority: nat)
    | DeleteTask(t: Task)
    | TickUpdate

  /** What the callers of each operation guarantee. Sleeping and waiting are done
      by a running, ready task; the idle task's loop never waits and is never deleted. The running
      task resumes after a timed-out wait. */
  predicate Enabled(s: State, op: Op)
    requires Inv(s)
  {
    match op
    case NewTask(t, priority) => t !in s.tasks && priority < PRIORITIES
    case Dispatch(t) =>
      PicksFirstReadyList(s);
      t in s.lists[Ready(HighestPriority(s.bits))]
    case SleepFor(n) => s.tasks[s.current].ready && 1 <= n < WORD
    case WaitFor(timeout) => s.tasks[s.current].ready && s.current != s.idle && 1 <= timeout < WORD
    case Resume => s.tasks[s.current].ready && s.tasks[s.current].timeout
    case WakeUp(t) => t in s.tasks && s.tasks[t].suspend
    case ChangePriority(t, priority) => t in s.tasks && priority < PRIORITIES
    case DeleteTask(t) => t in s.tasks && t != s.idle
    case TickUpdate => true
  }

  function Apply(s: State, op: Op): State
    requires Inv(s) && Enabled(s, op)
  {
    match op
    case NewTask(t, priority) => Create(s, t, priority)
    case Dispatch(t) => s.(current := t)
    case SleepFor(n) => InsertSleep(s, s.tasks[s.current], n)
    case WaitFor(timeout) => Wait(s, timeout)
    case Resume => ResumeTimedOut(s)
    case WakeUp(t) => Wake(s, t)
    case ChangePriority(t, priority) => SetPriority(s, t, priority)
    case DeleteTask(t) => Delete(s, t)
    case TickUpdate => Tick(s)
  }

  /** Every operation keeps the invariant. */
  lemma {:induction false} ApplyKeepsInv(s: State, op: Op)
    requires Inv(s) && Enabled(s, op)
    ensures Inv(Apply(s, op))
  {
    match op
    case NewTask(t, priority) => EnterReadyInv(s, t, Tcb(priority, false, false, false, false, 0, Nowhere));
    case Dispatch(t) => DispatchKeepsInv(s, t);
    case SleepFor(n) => SleepKeepsInv(s, s.tasks[s.current], n);
    case WaitFor(timeout) => WaitKeepsInv(s, timeout);
    case Resume => ResumeKeepsInv(s);
    case WakeUp(t) =>
      assert TaskOk(s.tasks[t]);
      EnterReadyInv(s, t, s.tasks[t].(suspend := false, delay := false));
    case ChangePriority(t, priority) => SetPriorityKeepsInv(s, t, priority);
    case DeleteTask(t) => DeleteKeepsInv(s, t);
    case TickUpdate => TickKeepsInv(s);
  }

  function Step(s: State, op: Op): (r: State)
    requires Inv(s) && Enabled(s, op)
    ensures Inv(r)
  {
    ApplyKeepsInv(s, op);
    Apply(s, op)
  }

  lemma {:induction false} DispatchKeepsInv(s: State, t: Task)
    requires Inv(s) && Enabled(s, Dispatch(t))
    ensures Inv(s.(current := t))
  {
    PicksFirstReadyList(s);
    var l := Ready(HighestPriority(s.bits));
    assert ListOk(s.lists[l], s.tasks, l);
  }

  /** The kernel at start: only the idle task, at the lowest priority. */
  function Initial(idle: Task): (s: State)
    ensures Inv(s)
  {
    var p := PRIORITIES - 1;
    var lists := map l: Loc | l in AllLists() :: if l == Ready(p) then [idle] else [];
    var tasks := map[idle := Tcb(p, true, false, false, false, 0, Ready(p))];
    var s := State(0, UINT32_MAX, false, seq(PRIORITIES, i => i == p), lists, tasks, idle, idle);
    assert forall l :: l in lists ==> ListOk(lists[l], tasks, l);
    s
  }

  function AllLists(): (ls: set<Loc>)
    ensures forall l :: l in ls <==> IsList(l)
  {
    (set p | 0 <= p < PRIORITIES :: Ready(p)) + {Timer(false), Timer(true)}
  }

  ghost predicate Feasible(s: State, ops: seq<Op>)
    requires Inv(s)
    decreases |ops|
  {
    ops == [] || (Enabled(s, ops[0]) && Feasible(Step(s, ops[0]), ops[1..]))
  }

  ghost function Exec(s: State, ops: seq<Op>): (r: State)
    requires Inv(s) && Feasible(s, ops)
    ensures Inv(r)
    decreases |ops|
  {
    if ops == [] then s else Exec(Step(s, ops[0]), ops[1..])
  }

  function Ticks(ops: seq<Op>): nat {
    if ops == [] then 0 else Advance(ops[0]) + Ticks(ops[1..])
  }

  function Advance(op: Op): nat {
    if op == TickUpdate then 1 else 0
  }

  /** The task an operation other than a tick is about. */
  function Subject(s: State, op: Op): Task {
    if op.SleepFor? || op.WaitFor? || op.Resume? || op.TickUpdate? then s.current else op.t
  }

  /** Apart from the tick, an operation leaves the clock and every task but its
      subject alone. */
  lemma {:induction false} ApplyFrame(s: State, op: Op, t: Task)
    requires Inv(s) && Enabled(s, op) && op != TickUpdate && t != Subject(s, op)
    ensures var r := Apply(s, op);
            && (t in r.tasks <==> t in s.tasks) && (t in s.tasks ==> r.tasks[t] == s.tasks[t])
            && r.tick == s.tick && r.now == s.now
  {
  }

  /** Apart from `dos_set_task_priority`, no operation changes a priority. */
  lemma {:induction false} PriorityFrame(s: State, op: Op, t: Task)
    requires Inv(s) && Enabled(s, op) && !op.ChangePriority? && t in s.tasks && t in Apply(s, op).tasks
    ensures Apply(s, op).tasks[t].priority == s.tasks[t].priority
  {
    if op == TickUpdate {
      TickSpec(s, t);
    } else if t != Subject(s, op) {
      ApplyFrame(s, op, t);
    }
  }

  /** A task suspended without a timeout changes only by its own wake-up,
      deletion or change of priority. */
  lemma {:induction false} SuspendedFrame(s: State, op: Op, t: Task)
    requires Inv(s) && Enabled(s, op) && t in s.tasks && s.tasks[t].home == Nowhere
    requires op != WakeUp(t) && op != DeleteTask(t) && !op.ChangePriority?
    ensures t in Apply(s, op).tasks && Apply(s, op).tasks[t] == s.tasks[t]
  {
    assert TaskOk(s.tasks[t]);
    if op == TickUpdate {
      TickSpec(s, t);
    } else if t != Subject(s, op) {
      ApplyFrame(s, op, t);
    }
  }

  /** No other operation than its own wake-up, its deletion or a tick touches
      the wake time of a delayed task. */
  lemma {:induction false} DelayedFrame(s: State, op: Op, t: Task)
    requires Inv(s) && Enabled(s, op) && t in s.tasks && s.tasks[t].delay
    requires op != TickUpdate && op != WakeUp(t) && op != DeleteTask(t)
    ensures var r := Apply(s, op);
            && t in r.tasks && r.tasks[t] == s.tasks[t].(priority := r.tasks[t].priority)
            && r.tick == s.tick && r.now == s.now
  {
    assert TaskOk(s.tasks[t]) && TaskOk(s.tasks[s.current]);
    if t != Subject(s, op) {
      ApplyFrame(s, op, t);
    }
  }

  /** A delayed task that is neither woken nor deleted stays delayed for every
      tick it has left but one, across any number of counter wraps. */
  lemma {:induction false} StaysDelayed(s: State, ops: seq<Op>, t: Task)
    requires Inv(s) && Feasible(s, ops) && t in s.tasks && s.tasks[t].delay
    requires WakeUp(t) !in ops && DeleteTask(t) !in ops && Ticks(ops) < Left(s, t)
    ensures var r := Exec(s, ops);
            && t in r.tasks && r.tasks[t] == s.tasks[t].(priority := r.tasks[t].priority)
            && Left(r, t) == Left(s, t) - Ticks(ops)
    decreases |ops|
  {
    if ops != [] {
      assert ops[0] in ops;
      if ops[0] == TickUpdate {
        TickSpec(s, t);
      } else {
        DelayedFrame(s, ops[0], t);
      }
      StaysDelayed(Step(s, ops[0]), ops[1..], t);
    }
  }

  /** A task that sleeps n ticks, 1 <= n < 2^32, or waits with that timeout,
      and is not woken or deleted before, is not ready after any n - 1 of the
      following ticks and is ready right after the n-th, marked as timed out if
      it was waiting. */
  lemma {:induction false} WakesExactlyOnTime(s: State, op: Op, n: nat, ops: seq<Op>)
    requires Inv(s) && Enabled(s, op) && s.current != s.idle
    requires op == SleepFor(n) || (op == WaitFor(n) && n != UINT32_MAX)
    requires Feasible(Step(s, op), ops) && WakeUp(s.current) !in ops && DeleteTask(s.current) !in ops
    requires Ticks(ops) < n
    ensures var t, r := s.current, Exec(Step(s, op), ops);
            && t in r.tasks && r.tasks[t].delay && !r.tasks[t].ready
            && (Ticks(ops) == n - 1 ==>
                  var a := Tick(r);
                  && t in a.tasks && a.tasks[t].ready && !a.tasks[t].delay
                  && (a.tasks[t].timeout <==> s.tasks[t].timeout || s.tasks[t].suspend || op.WaitFor?))
  {
    var t, u := s.current, Step(s, op);
    StartsWithNLeft(s, op, n);
    StaysDelayed(u, ops, t);
    var r := Exec(u, ops);
    assert TaskOk(r.tasks[t]);
    TickSpec(r, t);
  }

  lemma {:induction false} SleepStarts(s: State, tcb: Tcb, n: nat)
    requires Sound(s, s.current) && s.tasks[s.current].ready && s.current != s.idle && s.tick < WORD && 1 <= n < WORD
    ensures var t, u := s.current, InsertSleep(s, tcb, n);
            && t in u.tasks && u.tasks[t].delay && Left(u, t) == n
            && u.tasks[t].timeout == tcb.timeout && u.tasks[t].suspend == tcb.suspend
  {
  }

  lemma {:induction false} StartsWithNLeft(s: State, op: Op, n: nat)
    requires Inv(s) && Enabled(s, op) && s.current != s.idle
    requires op == SleepFor(n) || (op == WaitFor(n) && n != UINT32_MAX)
    ensures var t, u := s.current, Apply(s, op);
            && t in u.tasks && u.tasks[t].delay && Left(u, t) == n
            && u.tasks[t].timeout == s.tasks[t].timeout
            && (u.tasks[t].suspend <==> s.tasks[t].suspend || op.WaitFor?)
  {
    InvSound(s, s.current);
    if op.WaitFor? {
      SleepStarts(s, s.tasks[s.current].(suspend := true), n);
    } else {
      SleepStarts(s, s.tasks[s.current], n);
    }
  }

  // ---- Refinement of a deadline map over an unbounded clock -----------------------

  datatype Deadline = NotDue | At(time: int)

  /** When task `t` is due, `clock` being the time now. */
  function DueAt(s: State, clock: int, t: Task): Deadline {
    if t in s.tasks && s.tasks[t].delay then At(clock + Left(s, t)) else NotDue
  }

  /** What an operation does to the deadline of `t` in a plain map of deadlines
      over a clock that never wraps. */
  function NextDue(d: Deadline, clock: int, s: State, op: Op, t: Task): Deadline {
    match op
    case SleepFor(n) => if t == s.current != s.idle then At(clock + n) else d
    case WaitFor(n) => if t == s.current && n != UINT32_MAX then At(clock + n) else d
    case WakeUp(x) => if t == x then NotDue else d
    case DeleteTask(x) => if t == x then NotDue else d
    case TickUpdate => if d == At(clock + 1) then NotDue else d
    case _ => d
  }

  // ---- Refinement of the tasks' status -----------------------------------------------------

  /** What a task is to its environment. */
  datatype Standing = Absent | Standing(priority: nat, ready: bool, suspend: bool, timeout: bool)

  function StandingOf(s: State, t: Task): Standing {
    if t in s.tasks then Standing(s.tasks[t].priority, s.tasks[t].ready, s.tasks[t].suspend, s.tasks[t].timeout) else Absent
  }

  /** What an operation does to the status of the task it is about, in a plain map of standings; `due`
      says whether a delayed task has one tick left. */
  function NextStanding(st: Standing, op: Op, about: bool, idle: bool, current: bool, due: bool): Standing {
    match op
    case TickUpdate => if st.Absent? || !due then st else st.(ready := true, timeout := st.timeout || st.suspend)
    case NewTask(_, priority) => if about then Standing(priority, true, false, false) else st
    case DeleteTask(_) =>
      if !about || st.Absent? then st else if current then Standing(st.priority, false, false, false) else Absent
    case _ => if !about || st.Absent? then st else ActedOn(st, op, idle)
  }

  function ActedOn(st: Standing, op: Op, idle: bool): Standing
    requires st.Standing?
  {
    match op
    case SleepFor(_) => if idle then st else st.(ready := false)
    case WaitFor(_) => st.(ready := false, suspend := true)
    case Resume => st.(ready := true, suspend := false, timeout := false)
    case WakeUp(_) => st.(ready := true, suspend := false)
    case ChangePriority(_, priority) => st.(priority := priority)
    case _ => st
  }

  ghost predicate DueNext(s: State, t: Task) {
    t in s.tasks && s.tasks[t].delay && Left(s, t) == 1
  }

  lemma {:induction false} SubjectStanding(s: State, op: Op)
    requires Inv(s) && Enabled(s, op) && op != TickUpdate
    ensures var t := Subject(s, op);
            StandingOf(Apply(s, op), t) == NextStanding(StandingOf(s, t), op, true, t == s.idle, t == s.current, DueNext(s, t))
  {
    var t := Subject(s, op);
    if t in s.tasks {
      InvSound(s, t);
      if op.ChangePriority? {
        SetPriorityFrame(s, t, op.priority);
      }
    }
  }

  /** Every operation changes the status of the tasks as in that map: the lists and the bitmap are only a
      way to keep it. */
  lemma {:induction false} ApplyRefinesStanding(s: State, op: Op, t: Task)
    requires Inv(s) && Enabled(s, op)
    ensures StandingOf(Apply(s, op), t)
         == NextStanding(StandingOf(s, t), op, t == Subject(s, op), t == s.idle, t == s.current, DueNext(s, t))
  {
    if op == TickUpdate {
      TickKeys(s);
      if t in s.tasks {
        TickSpec(s, t);
      }
    } else if t == Subject(s, op) {
      SubjectStanding(s, op);
    } else {
      ApplyFrame(s, op, t);
    }
  }

  /** A tick by itself does not switch tasks. */
  lemma {:induction false} TickCurrent(s: State)
    requires Inv(s)
    ensures Tick(s).current == s.current
  {
    var v := Ticked(s);
    TickedTimes(s);
    if v.tick >= v.nextWake {
      WakeDueKeeps(v);
    }
  }

  lemma {:induction false} TickKeys(s: State)
    requires Inv(s)
    ensures Tick(s).tasks.Keys == s.tasks.Keys
  {
    var v := Ticked(s);
    TickedTimes(s);
    if v.tick == v.nextWake {
      WakeDueWakes(v);
    }
  }

  lemma {:induction false} SleeperDue(s: State, op: Op, clock: int)
    requires Inv(s) && Enabled(s, op) && (op.SleepFor? || op.WaitFor?)
    ensures DueAt(Apply(s, op), clock, s.current)
         == NextDue(DueAt(s, clock, s.current), clock, s, op, s.current)
  {
    assert s.current in s.tasks ==> TaskOk(s.tasks[s.current]);
    if (op.SleepFor? && s.current != s.idle) || (op.WaitFor? && op.timeout != UINT32_MAX) {
      StartsWithNLeft(s, op, if op.SleepFor? then op.n else op.timeout);
    }
  }

  lemma {:induction false} SubjectDue(s: State, op: Op, clock: int)
    requires Inv(s) && Enabled(s, op) && op != TickUpdate
    ensures var t := Subject(s, op);
            DueAt(Apply(s, op), clock, t) == NextDue(DueAt(s, clock, t), clock, s, op, t)
  {
    var t := Subject(s, op);
    if op.SleepFor? || op.WaitFor? {
      SleeperDue(s, op, clock);
    } else {
      assert t in s.tasks ==> TaskOk(s.tasks[t]);
    }
  }

  lemma {:induction false} TickDue(s: State, clock: int, t: Task)
    requires Inv(s)
    ensures DueAt(Tick(s), clock + 1, t) == NextDue(DueAt(s, clock, t), clock, s, TickUpdate, t)
  {
    TickKeys(s);
    if t in s.tasks {
      TickSpec(s, t);
    }
  }

  lemma {:induction false} OtherDue(s: State, op: Op, clock: int, t: Task)
    requires Inv(s) && Enabled(s, op) && op != TickUpdate
    ensures DueAt(Apply(s, op), clock, t) == NextDue(DueAt(s, clock, t), clock, s, op, t)
  {
    if t == Subject(s, op) {
      SubjectDue(s, op, clock);
    } else {
      ApplyFrame(s, op, t);
    }
  }

  lemma {:induction false} ApplyRefinesDeadlines(s: State, op: Op, clock: int, t: Task)
    requires Inv(s) && Enabled(s, op)
    ensures DueAt(Apply(s, op), clock + Advance(op), t) == NextDue(DueAt(s, clock, t), clock, s, op, t)
  {
    if op == TickUpdate {
      assert Apply(s, op) == Tick(s);
      TickDue(s, clock, t);
    } else {
      OtherDue(s, op, clock, t);
    }
  }

  /** The deadline of `t` after a whole run, computed on the plain map. */
  ghost function RunDue(d: Deadline, clock: int, s: State, ops: seq<Op>, t: Task): Deadline
    requires Inv(s) && Feasible(s, ops)
    decreases |ops|
  {
    if ops == [] then d
    else RunDue(NextDue(d, clock, s, ops[0], t), clock + Advance(ops[0]), Step(s, ops[0]), ops[1..], t)
  }

  /** Over every run, the two sleep lists with their wrapping wake times and the
      cached next wake tick behave as one map of deadlines over a clock that
      never wraps. */
  lemma {:induction false} RunRefinesDeadlines(s: State, ops: seq<Op>, clock: int, end: int, t: Task)
    requires Inv(s) && Feasible(s, ops) && end == clock + Ticks(ops)
    ensures DueAt(Exec(s, ops), end, t) == RunDue(DueAt(s, clock, t), clock, s, ops, t)
    decreases |ops|
  {
    if ops != [] {
      ApplyRefinesDeadlines(s, ops[0], clock, t);
      RunRefinesDeadlines(Step(s, ops[0]), ops[1..], clock + Advance(ops[0]), end, t);
    }
  }
}
