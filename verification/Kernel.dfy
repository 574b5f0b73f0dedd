/** The scheduler's global variables and the functions of src/task.c that update
    them in place, each proved against its transition in `Scheduler`. */
module Kernel {
  import opened Machine
  import opened TaskList
  import opened Scheduler

  class Kernel {
    var tick: nat        // dos_tick_count
    var nextWake: nat    // dos_next_wake_tick
    var now: bool        // which list _dos_task_sleep_list points to
    var bits: seq<bool>  // dos_task_priority
    var lists: Lists     // dos_task_priority_list and the two sleep lists
    var tasks: Tasks     // the task control blocks
    var current: Task
    var idle: Task

    ghost function View(): State
      reads this
    {
      State(tick, nextWake, now, bits, lists, tasks, current, idle)
    }

    constructor (idle: Task)
      ensures View() == Initial(idle)
    {
      var s := Initial(idle);
      tick, nextWake, now, bits := s.tick, s.nextWake, s.now, s.bits;
      lists, tasks, current, this.idle := s.lists, s.tasks, s.current, s.idle;
    }

    /** `dos_task_item_del` on the status item; the number of items left on its
        list, or any number for an item that is on none. */
    method ItemDel(t: Task) returns (left: nat)
      requires t in tasks
      modifies this`lists
      ensures lists == Detached(old(lists), tasks, t)
      ensures tasks[t].home in old(lists) ==> left == |lists[tasks[t].home]|
    {
      left := *;
      if tasks[t].home in lists {
        lists := lists[tasks[t].home := Without(lists[tasks[t].home], t)];
        left := |lists[tasks[t].home]|;
      }
    }

    /** Take a linked task off its list and clear its priority bit when no ready
        task of that priority is left. */
    method Leave(t: Task)
      requires Sound(View(), t) && tasks[t].home != Nowhere
      modifies this`lists, this`bits
      ensures lists == Detached(old(lists), tasks, t)
      ensures bits == LeaveBits(old(View()), t)
    {
      var left := ItemDel(t);
      if left == 0 {
        if lists[Ready(tasks[t].priority)] == [] {
          bits := bits[tasks[t].priority := false];
        }
      }
    }

    /** `dos_task_item_insert` of the status item, and the block's new value. */
    method ItemInsert(t: Task, tcb: Tcb)
      requires tcb.home in lists
      modifies this`lists, this`tasks
      ensures lists == Attached(old(lists), old(tasks), t, tcb) && tasks == old(tasks)[t := tcb]
    {
      lists := lists[tcb.home := With(tasks, lists[tcb.home], t, tcb.value)];
      tasks := tasks[t := tcb];
    }

    /** `_dos_insert_task_priority_list` */
    method InsertPriorityList(t: Task, tcb: Tcb)
      requires tcb.priority < PRIORITIES == |bits| && Ready(tcb.priority) in lists
      modifies this`lists, this`tasks, this`bits
      ensures var ready := tcb.(ready := true, home := Ready(tcb.priority));
              lists == Attached(old(lists), old(tasks), t, ready) && tasks == old(tasks)[t := ready]
      ensures bits == old(bits)[tcb.priority := true]
    {
      bits := bits[tcb.priority := true];
      ItemInsert(t, tcb.(ready := true, home := Ready(tcb.priority)));
    }

    /** `_dos_insert_task_sleep_list`, the running task's status being `tcb`. */
    method InsertSleepList(tcb: Tcb, n: nat)
      requires Sound(View(), current) && tasks[current].ready && tick < WORD && n < WORD
      modifies this
      ensures View() == InsertSleep(old(View()), tcb, n)
    {
      var t := current;
      if t == idle {
        tasks := tasks[t := tcb];
        return;
      }
      Leave(t);
      var asleep := tcb.(ready := false, delay := true, value := Add32(tick, n));
      if asleep.value < tick {
        ItemInsert(t, asleep.(home := Timer(!now)));
      } else {
        ItemInsert(t, asleep.(home := Timer(now)));
        if nextWake >= asleep.value {
          nextWake := asleep.value;
        }
      }
    }

    /** `dos_task_wait`, apart from the pend item. */
    method TaskWait(timeout: nat)
      requires Sound(View(), current) && tasks[current].ready && tick < WORD && timeout < WORD
      modifies this
      ensures View() == Wait(old(View()), timeout)
    {
      var tcb := tasks[current].(suspend := true);
      if timeout != UINT32_MAX {
        InsertSleepList(tcb, timeout);
      } else {
        Leave(current);
        tasks := tasks[current := tcb.(ready := false, home := Nowhere)];
      }
    }

    /** `dos_task_wake`, apart from the pend item. */
    method TaskWake(t: Task)
      requires Sound(View(), t)
      modifies this
      ensures View() == Wake(old(View()), t)
    {
      var _ := ItemDel(t);
      InsertPriorityList(t, tasks[t].(suspend := false, delay := false));
    }

    /** What every blocking call does when its task runs again: whether the wait has timed out. */
    method TaskResume() returns (timedOut: bool)
      requires current in tasks
      modifies this
      ensures timedOut <==> old(tasks[current]).timeout
      ensures View() == if timedOut then ResumeTimedOut(old(View())) else old(View())
    {
      timedOut := tasks[current].timeout;
      if timedOut {
        var tcb := tasks[current].(timeout := false, suspend := false);
        tasks := tasks[current := tcb.(ready := true)];
      }
    }

    /** `dos_set_task_priority` */
    method SetTaskPriority(t: Task, priority: nat)
      requires Sound(View(), t) && priority < PRIORITIES
      modifies this
      ensures View() == SetPriority(old(View()), t, priority)
    {
      if tasks[t].ready {
        Leave(t);
        InsertPriorityList(t, tasks[t].(priority := priority));
      } else {
        tasks := tasks[t := tasks[t].(priority := priority)];
      }
    }

    /** `dos_task_delete`: the list and bitmap part. */
    method TaskDelete(t: Task)
      requires Sound(View(), t)
      modifies this
      ensures View() == Delete(old(View()), t)
    {
      if tasks[t].delay || tasks[t].ready {
        Leave(t);
      }
      if t != current {
        tasks := tasks - {t};
      } else {
        tasks := tasks[t := tasks[t].(ready := false, delay := false, suspend := false, timeout := false, home := Nowhere)];
      }
    }

    /** `_dos_switch_sleep_list` */
    method SwitchSleepList()
      requires Timer(false) in lists && Timer(true) in lists
      modifies this
      ensures View() == SwitchLists(old(View()))
    {
      if lists[Timer(now)] == [] {
        now := !now;
        if lists[Timer(now)] == [] {
          nextWake := UINT32_MAX;
        } else {
          nextWake := ValueOf(tasks, lists[Timer(now)][0]);
        }
      }
    }

    /** `dos_tick_update`: the loop wakes every task whose time has come. */
    method TickUpdate()
      requires Linked(lists, tasks) && Status(tasks) && Bits(bits, lists) && tick < WORD
      modifies this
      ensures View() == Tick(old(View()))
    {
      tick := Add32(tick, 1);
      if tick == 0 {
        SwitchSleepList();
      }
      if tick >= nextWake {
        WakeLoop();
      }
    }

    /** One round of the loop: the task's time is up. */
    method TaskTimeOut(t: Task)
      requires Sound(View(), t)
      modifies this
      ensures View() == TimeOut(old(View()), t)
    {
      var _ := ItemDel(t);
      var tcb := tasks[t].(delay := false);
      if tcb.suspend {
        tcb := tcb.(timeout := true);
      }
      InsertPriorityList(t, tcb);
    }

    method WakeLoop()
      requires Linked(lists, tasks) && Status(tasks) && Bits(bits, lists)
      modifies this
      ensures View() == WakeDue(old(View()))
    {
      while lists[Timer(now)] != []
        invariant Linked(lists, tasks) && Status(tasks) && Bits(bits, lists)
        invariant WakeDue(View()) == WakeDue(old(View()))
        decreases |lists[Timer(now)]|
      {
        var t := lists[Timer(now)][0];
        assert ListOk(lists[Timer(now)], tasks, Timer(now)) && TaskOk(tasks[t]);
        if tasks[t].value > nextWake {
          nextWake := tasks[t].value;
          return;
        }
        TimeOutKeeps(View(), t);
        TaskTimeOut(t);
      }
      nextWake := UINT32_MAX;
    }
  }
}
