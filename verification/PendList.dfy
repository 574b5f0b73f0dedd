/** Where a waiter goes in a pend list (src/list.c, src/task.c): behind those whose pend items have no
    greater a value, the priority the task was created with. */
module PendList {
  import opened TaskList

  /** Whether a call that finds nothing waits: not at all, for some ticks, or for ever. */
  datatype Patience = Never | Ticks | Forever

  /** `stamp` numbers the calls. `hasty` are the tasks whose call does not wait for
      ever, `late` those whose wait has timed out and that have not run since
      (TIMEOUT). */
  datatype Waits = Waits(stamp: map<Task, nat>, arrivals: nat, hasty: set<Task>, late: set<Task>)

  /** Task `t` makes a call that waits as it says. */
  function Called(w: Waits, t: Task, wait: Patience): Waits {
    Waits(w.stamp[t := w.arrivals], w.arrivals + 1, if wait == Ticks then w.hasty + {t} else w.hasty - {t}, w.late)
  }

  /** The number recorded for a task. */
  function Entry(numbers: map<Task, nat>, t: Task): nat {
    if t in numbers then numbers[t] else 0
  }

  function PendKeys(pend: seq<Task>, base: map<Task, nat>): (keys: seq<nat>)
    ensures |keys| == |pend|
    ensures forall i :: 0 <= i < |keys| ==> keys[i] == Entry(base, pend[i])
  {
    seq(|pend|, i requires 0 <= i < |pend| => Entry(base, pend[i]))
  }

  /** The place of a newcomer. */
  function PendSlot(pend: seq<Task>, base: map<Task, nat>, t: Task): (k: nat)
    ensures k <= |pend|
  {
    Slot(PendKeys(pend, base), Entry(base, t))
  }

  /** A waiter stands in front of another: it was created with a better priority, or with the same and
      came first. */
  ghost predicate Before(base: map<Task, nat>, stamp: map<Task, nat>, t: Task, u: Task) {
    || Entry(base, t) < Entry(base, u)
    || (Entry(base, t) == Entry(base, u) && Entry(stamp, t) < Entry(stamp, u))
  }

  /** The waiters stand in that order, `stamp` numbering their arrivals. */
  ghost predicate InLine(pend: seq<Task>, base: map<Task, nat>, stamp: map<Task, nat>, arrivals: nat) {
    && (forall i :: 0 <= i < |pend| ==> Entry(stamp, pend[i]) < arrivals)
    && (forall i, j :: 0 <= i < j < |pend| ==> Before(base, stamp, pend[i], pend[j]))
  }

  lemma {:induction false} InLineDistinct(pend: seq<Task>, base: map<Task, nat>, stamp: map<Task, nat>, arrivals: nat)
    requires InLine(pend, base, stamp, arrivals)
    ensures Distinct(pend)
  {
    forall i, j | 0 <= i < j < |pend|
      ensures pend[i] != pend[j]
    {
      assert Before(base, stamp, pend[i], pend[j]);
    }
  }

  lemma {:induction false} InLineFrame(pend: seq<Task>, base: map<Task, nat>, stamp: map<Task, nat>, arrivals: nat,
                                       base': map<Task, nat>, stamp': map<Task, nat>, arrivals': nat)
    requires InLine(pend, base, stamp, arrivals) && arrivals <= arrivals'
    requires forall t :: t in pend ==> Entry(base', t) == Entry(base, t) && Entry(stamp', t) == Entry(stamp, t)
    ensures InLine(pend, base', stamp', arrivals')
  {
    forall i | 0 <= i < |pend|
      ensures Entry(stamp', pend[i]) < arrivals'
    {
      assert pend[i] in pend;
    }
    forall i, j | 0 <= i < j < |pend|
      ensures Before(base', stamp', pend[i], pend[j])
    {
      assert Before(base, stamp, pend[i], pend[j]) && pend[i] in pend && pend[j] in pend;
    }
  }

  /** The line goes on without one waiter. */
  lemma {:induction false} InLineRemoved(pend: seq<Task>, base: map<Task, nat>, stamp: map<Task, nat>, arrivals: nat, k: nat)
    requires InLine(pend, base, stamp, arrivals) && k < |pend|
    ensures InLine(Removed(pend, k), base, stamp, arrivals) && pend[k] !in Removed(pend, k)
    ensures forall t :: t in pend <==> t == pend[k] || t in Removed(pend, k)
  {
    var r := Removed(pend, k);
    InLineDistinct(pend, base, stamp, arrivals);
    DistinctRemoved(pend, k);
    assert forall i :: 0 <= i < |r| ==> r[i] == pend[if i < k then i else i + 1];
    forall i, j | 0 <= i < j < |r|
      ensures Before(base, stamp, r[i], r[j])
    {
      assert Before(base, stamp, pend[if i < k then i else i + 1], pend[if j < k then j else j + 1]);
    }
  }

  lemma {:induction false} InLineWithout(pend: seq<Task>, base: map<Task, nat>, stamp: map<Task, nat>, arrivals: nat, t: Task)
    requires InLine(pend, base, stamp, arrivals)
    ensures InLine(Without(pend, t), base, stamp, arrivals)
    ensures forall x :: x in Without(pend, t) <==> x in pend && x != t
  {
    if Find(pend, t) < |pend| {
      InLineRemoved(pend, base, stamp, arrivals, Find(pend, t));
    }
  }

  lemma {:induction false} InLineRest(pend: seq<Task>, base: map<Task, nat>, stamp: map<Task, nat>, arrivals: nat)
    requires InLine(pend, base, stamp, arrivals) && pend != []
    ensures InLine(pend[1..], base, stamp, arrivals) && pend[0] !in pend[1..]
    ensures forall t :: t in pend <==> t == pend[0] || t in pend[1..]
  {
    InLineRemoved(pend, base, stamp, arrivals, 0);
    assert Removed(pend, 0) == pend[1..];
  }

  /** The place of a newcomer is behind every waiter of the same or a better creation priority. */
  lemma {:induction false} SlotSplits(pend: seq<Task>, base: map<Task, nat>, stamp: map<Task, nat>, arrivals: nat, t: Task)
    requires InLine(pend, base, stamp, arrivals)
    ensures var k := PendSlot(pend, base, t);
            && (forall i :: 0 <= i < k ==> Entry(base, pend[i]) <= Entry(base, t))
            && (forall i :: k <= i < |pend| ==> Entry(base, t) < Entry(base, pend[i]))
  {
    var k := PendSlot(pend, base, t);
    forall i | k <= i < |pend|
      ensures Entry(base, t) < Entry(base, pend[i])
    {
      assert k < i ==> Before(base, stamp, pend[k], pend[i]);
    }
  }

  lemma {:induction false} NewcomerBefore(pend: seq<Task>, base: map<Task, nat>, stamp: map<Task, nat>, arrivals: nat, t: Task,
                                          i: nat, j: nat)
    requires InLine(pend, base, stamp, arrivals) && t !in pend && i < j <= |pend|
    ensures var r := Inserted(pend, PendSlot(pend, base, t), t); Before(base, stamp[t := arrivals], r[i], r[j])
  {
    var k, after := PendSlot(pend, base, t), stamp[t := arrivals];
    InsertedAt(pend, k, t, i);
    InsertedAt(pend, k, t, j);
    assert forall x :: x in pend ==> Entry(after, x) == Entry(stamp, x);
    SlotSplits(pend, base, stamp, arrivals, t);
    if i == k {
      assert pend[j - 1] in pend;
    } else if j == k {
      assert pend[i] in pend;
    } else {
      var x, y := if i < k then i else i - 1, if j < k then j else j - 1;
      assert pend[x] in pend && pend[y] in pend && Before(base, stamp, pend[x], pend[y]);
    }
  }

  lemma {:induction false} InsertedAt(pend: seq<Task>, k: nat, t: Task, i: nat)
    requires k <= |pend| && i <= |pend|
    ensures Inserted(pend, k, t)[i] == if i < k then pend[i] else if i == k then t else pend[i - 1]
  {
  }

  /** A newcomer in its place leaves the waiters in line: of those with the same priority it is the last. */
  lemma {:induction false} InLineInserted(pend: seq<Task>, base: map<Task, nat>, stamp: map<Task, nat>, arrivals: nat, t: Task)
    requires InLine(pend, base, stamp, arrivals) && t !in pend
    ensures InLine(Inserted(pend, PendSlot(pend, base, t), t), base, stamp[t := arrivals], arrivals + 1)
    ensures forall x :: x in Inserted(pend, PendSlot(pend, base, t), t) <==> x in pend || x == t
  {
    var k := PendSlot(pend, base, t);
    var r := Inserted(pend, k, t);
    InsertedMembers(pend, k, t);
    forall i | 0 <= i < |r|
      ensures Entry(stamp[t := arrivals], r[i]) < arrivals + 1
    {
      assert i < k ==> r[i] == pend[i];
      assert i > k ==> r[i] == pend[i - 1];
    }
    forall i, j | 0 <= i < j < |r|
      ensures Before(base, stamp[t := arrivals], r[i], r[j])
    {
      NewcomerBefore(pend, base, stamp, arrivals, t, i, j);
    }
  }
}
