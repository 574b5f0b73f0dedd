/** Event groups (src/event.c): 32 flags and a list of waiters with a cursor.
    Setting flags walks the waiters from wherever the cursor stands and takes
    satisfied ones off the list while it walks. A waiter whose wait has timed out
    stays on the list until it runs again. */
module Event {
  import opened PendList
  import opened TaskList

  /** A flag word, as the set of its set bits. */
  type Flags = set<nat>

  /** The option word, bit by bit: `WAIT_ANY_EVENT`, `WAIT_ALL_EVENT` (both
      together the mask `WAIT_EVENT_OP`) and `NO_CLR_EVENT`. */
  datatype Opt = Opt(any: bool, all: bool, keep: bool)

  /** `wait_event`, `wait_event_opt` and the pend item's value of a task. */
  datatype Waiter = Waiter(want: Flags, opt: Opt, value: nat)

  /** A record of the flags: how often each was raised, was cleared for a call that
      returned it, and was cleared for a call that returned 0. */
  datatype Ledger = Ledger(raised: multiset<nat>, reported: multiset<nat>, lost: multiset<nat>)

  /** `pos` is the cursor: 0 for the sentinel, i for the i-th waiter. `got` holds
      `event_get` of the tasks woken so far. */
  datatype State = State(flag: Flags, items: seq<Task>, pos: nat, waiters: Waiters, got: map<Task, Flags>,
                         waits: Waits, ledger: Ledger)

  type Waiters = map<Task, Waiter>

  function WaiterOf(ws: Waiters, t: Task): Waiter {
    if t in ws then ws[t] else Waiter({}, Opt(false, false, false), 0)
  }

  // ---- The condition and its consumption ---------------------------------------------

  /** The test of `_dos_check_event`. */
  predicate Met(flag: Flags, want: Flags, opt: Opt) {
    if opt.any && !opt.all then flag * want != {}
    else if opt.all && !opt.any then want <= flag
    else false
  }

  /** The flags it leaves when the test succeeds. */
  function Consumed(flag: Flags, want: Flags, opt: Opt): Flags {
    if opt.keep then flag else flag - want
  }

  /** The flags it clears. */
  function Cleared(flag: Flags, want: Flags, opt: Opt): Flags {
    if opt.keep then {} else flag * want
  }

  function Booked(l: Ledger, flags: Flags, late: bool): Ledger {
    if late then l.(lost := l.lost + multiset(flags)) else l.(reported := l.reported + multiset(flags))
  }

  /** A call for any of its flags succeeds if one of them is up, one for all of them if all are, and one
      for neither or both never does. */
  lemma {:induction false} MetMeans(flag: Flags, want: Flags, opt: Opt)
    ensures Met(flag, want, opt) <==>
            || (opt.any && !opt.all && exists f :: f in want && f in flag)
            || (opt.all && !opt.any && forall f :: f in want ==> f in flag)
  {
    if f :| f in want && f in flag {
      assert f in flag * want;
    }
  }

  /** Fewer flags never meet a condition that more flags do not. */
  lemma {:induction false} MetMonotone(a: Flags, b: Flags, want: Flags, opt: Opt)
    requires a <= b && Met(a, want, opt)
    ensures Met(b, want, opt)
  {
    assert a * want <= b * want;
  }

  // ---- The walk ---------------------------------------------------------------------

  /** The waiters in the order the cursor will reach them. */
  function Ahead(items: seq<Task>, pos: nat): (r: seq<Task>)
    requires pos <= |items|
  {
    items[pos..] + items[..pos]
  }

  /** Moving the cursor reaches the head of that order and sends it to the end. */
  lemma {:induction false} AheadNext(items: seq<Task>, pos: nat)
    requires pos <= |items| && items != []
    ensures var p, r := NextPos(pos, |items|), Ahead(items, pos);
            items[p - 1] == r[0] && Ahead(items, p) == r[1..] + [r[0]]
  {
  }

  /** Deleting the item the cursor stands on moves the cursor back by one, so
      that the order goes on behind the deleted item. */
  lemma {:induction false} AheadDelete(items: seq<Task>, pos: nat)
    requires pos <= |items| && items != []
    ensures var p := NextPos(pos, |items|);
            Ahead(Removed(items, p - 1), p - 1) == Ahead(items, pos)[1..]
  {
  }

  /** One round of the loop in `dos_event_set`. */
  function VisitNext(s: State): State
    requires s.pos <= |s.items| && s.items != []
  {
    var p := NextPos(s.pos, |s.items|);
    var t := s.items[p - 1];
    var w := WaiterOf(s.waiters, t);
    if Met(s.flag, w.want, w.opt) then
      s.(flag := Consumed(s.flag, w.want, w.opt), items := Removed(s.items, p - 1), pos := p - 1, got := s.got[t := w.want],
         ledger := Booked(s.ledger, Cleared(s.flag, w.want, w.opt), t in s.waits.late))
    else s.(pos := p)
  }

  function Walk(s: State, n: nat): (r: State)
    requires s.pos <= |s.items| && n <= |s.items|
    ensures r.pos <= |r.items|
    decreases n
  {
    if n == 0 then s else Walk(VisitNext(s), n - 1)
  }

  predicate Ready(flag: Flags, ws: Waiters, t: Task) {
    Met(flag, WaiterOf(ws, t).want, WaiterOf(ws, t).opt)
  }

  function After(flag: Flags, ws: Waiters, t: Task): Flags {
    if Ready(flag, ws, t) then Consumed(flag, WaiterOf(ws, t).want, WaiterOf(ws, t).opt) else flag
  }

  /** The walk on the plain sequence of waiters it reaches: what is left of the
      flags, and the waiters that stay. */
  function Serve(flag: Flags, order: seq<Task>, ws: Waiters): Flags {
    if order == [] then flag else Serve(After(flag, ws, order[0]), order[1..], ws)
  }

  function Staying(flag: Flags, order: seq<Task>, ws: Waiters): seq<Task> {
    if order == [] then []
    else Kept(flag, order[0], ws) + Staying(After(flag, ws, order[0]), order[1..], ws)
  }

  lemma {:induction false} VisitServes(s: State)
    requires s.pos <= |s.items| && s.items != []
    ensures var order, v := Ahead(s.items, s.pos), VisitNext(s);
            && v.flag == After(s.flag, s.waiters, order[0]) && v.waiters == s.waiters && v.waits == s.waits
            && Ahead(v.items, v.pos) == order[1..] + Kept(s.flag, order[0], s.waiters)
  {
    AheadNext(s.items, s.pos);
    AheadDelete(s.items, s.pos);
  }

  function Kept(flag: Flags, t: Task, ws: Waiters): seq<Task> {
    if Ready(flag, ws, t) then [] else [t]
  }

  lemma {:induction false} ServeStep(flag: Flags, order: seq<Task>, n: nat, ws: Waiters)
    requires 0 < n <= |order|
    ensures Serve(flag, order[..n], ws) == Serve(After(flag, ws, order[0]), order[1..n], ws)
    ensures Staying(flag, order[..n], ws) ==
            Kept(flag, order[0], ws) + Staying(After(flag, ws, order[0]), order[1..n], ws)
  {
    assert order[..n][1..] == order[1..n];
  }

  lemma {:induction false} AheadSplit(order: seq<Task>, first: seq<Task>, n: nat, rest: seq<Task>)
    requires 0 < n <= |order|
    ensures (order[1..] + first)[..n - 1] == order[1..n]
    ensures (order[1..] + first)[n - 1..] + rest == order[n..] + (first + rest)
  {
  }

  /** The walk serves each of the next n waiters once, in order, whatever it
      deletes on the way, and leaves the cursor so that those it has not reached
      come next. */
  lemma {:induction false} WalkServes(s: State, n: nat)
    requires s.pos <= |s.items| && n <= |s.items|
    ensures var order, r := Ahead(s.items, s.pos), Walk(s, n);
            && r.flag == Serve(s.flag, order[..n], s.waiters)
            && Ahead(r.items, r.pos) == order[n..] + Staying(s.flag, order[..n], s.waiters)
            && r.waiters == s.waiters && r.waits == s.waits
    decreases n
  {
    var order := Ahead(s.items, s.pos);
    if n == 0 {
      assert order[..0] == [];
    } else {
      var v := VisitNext(s);
      VisitServes(s);
      ServeStep(s.flag, order, n, s.waiters);
      WalkServes(v, n - 1);
      AheadSplit(order, Kept(s.flag, order[0], s.waiters), n, Staying(v.flag, order[1..n], s.waiters));
    }
  }

  /** The waiters the walk takes off the list, in the order it reaches them. */
  function Served(flag: Flags, order: seq<Task>, ws: Waiters): seq<Task> {
    if order == [] then []
    else (if Ready(flag, ws, order[0]) then [order[0]] else []) + Served(After(flag, ws, order[0]), order[1..], ws)
  }

  /** Every waiter is visited exactly once: it is either served or stays. */
  lemma {:induction false} ServedOrStaying(flag: Flags, order: seq<Task>, ws: Waiters)
    ensures multiset(Served(flag, order, ws)) + multiset(Staying(flag, order, ws)) == multiset(order)
  {
    if order != [] {
      ServedOrStaying(After(flag, ws, order[0]), order[1..], ws);
      assert order == [order[0]] + order[1..];
    }
  }

  lemma {:induction false} ServeWithin(flag: Flags, order: seq<Task>, ws: Waiters)
    ensures Serve(flag, order, ws) <= flag
  {
    if order != [] {
      ServeWithin(After(flag, ws, order[0]), order[1..], ws);
    }
  }

  /** No waiter that stays has its condition met by the flags that are left. */
  lemma {:induction false} StayingUnmet(flag: Flags, order: seq<Task>, ws: Waiters, t: Task)
    requires t in Staying(flag, order, ws)
    ensures !Ready(Serve(flag, order, ws), ws, t)
  {
    var next := After(flag, ws, order[0]);
    if t in Staying(next, order[1..], ws) {
      StayingUnmet(next, order[1..], ws, t);
    } else {
      ServeWithin(flag, order, ws);
      if Ready(Serve(flag, order, ws), ws, t) {
        MetMonotone(Serve(flag, order, ws), flag, WaiterOf(ws, t).want, WaiterOf(ws, t).opt);
      }
    }
  }

  /** The flags a served waiter asked to clear are gone afterwards. */
  lemma {:induction false} ServedCleared(flag: Flags, order: seq<Task>, ws: Waiters, t: Task)
    requires t in Served(flag, order, ws) && !WaiterOf(ws, t).opt.keep
    ensures Serve(flag, order, ws) !! WaiterOf(ws, t).want
  {
    var next := After(flag, ws, order[0]);
    if t in Served(next, order[1..], ws) {
      ServedCleared(next, order[1..], ws, t);
    } else {
      ServeWithin(next, order[1..], ws);
    }
  }

  /** A waiter is served if and only if its condition is met by what those in front of it have left. */
  lemma {:induction false} ServedIff(flag: Flags, order: seq<Task>, ws: Waiters, i: nat)
    requires Distinct(order) && i < |order|
    ensures order[i] in Served(flag, order, ws) <==>
            Met(Serve(flag, order[..i], ws), WaiterOf(ws, order[i]).want, WaiterOf(ws, order[i]).opt)
  {
    var next := After(flag, ws, order[0]);
    if i == 0 {
      OnlyWaitersServed(next, order[1..], ws, order[0]);
      assert order[..0] == [];
    } else {
      ServedIff(next, order[1..], ws, i - 1);
      assert order[..i][1..] == order[1..][..i - 1];
      assert order[1..][i - 1] == order[i];
    }
  }

  /** A flag is cleared for a served waiter. */
  ghost predicate ClearedBy(flag: Flags, order: seq<Task>, ws: Waiters, f: nat, t: Task) {
    t in Served(flag, order, ws) && !WaiterOf(ws, t).opt.keep && f in WaiterOf(ws, t).want
  }

  /** After the walk a flag is up if and only if it was up before and no served waiter asked to clear it. */
  lemma {:induction false} ServeLeaves(flag: Flags, order: seq<Task>, ws: Waiters, f: nat)
    ensures f in Serve(flag, order, ws) <==> f in flag && forall t :: !ClearedBy(flag, order, ws, f, t)
  {
    if order != [] {
      ServeLeaves(After(flag, ws, order[0]), order[1..], ws, f);
      ClearedFirst(flag, order, ws, f);
    }
  }

  /** A flag is cleared for the first waiter or for one of the others. */
  lemma {:induction false} ClearedFirst(flag: Flags, order: seq<Task>, ws: Waiters, f: nat)
    requires order != []
    ensures var w := WaiterOf(ws, order[0]);
            (exists t :: ClearedBy(flag, order, ws, f, t)) <==>
              || (Ready(flag, ws, order[0]) && !w.opt.keep && f in w.want)
              || exists t :: ClearedBy(After(flag, ws, order[0]), order[1..], ws, f, t)
  {
    var first, next := order[0], After(flag, ws, order[0]);
    if t :| ClearedBy(flag, order, ws, f, t) {
      assert (t == first && Ready(flag, ws, first)) || ClearedBy(next, order[1..], ws, f, t);
    }
    if t :| ClearedBy(next, order[1..], ws, f, t) {
      assert ClearedBy(flag, order, ws, f, t);
    }
    if Ready(flag, ws, first) && !WaiterOf(ws, first).opt.keep && f in WaiterOf(ws, first).want {
      assert ClearedBy(flag, order, ws, f, first);
    }
  }

  predicate WantsAll(w: Waiter) {
    w.opt.all && !w.opt.any
  }

  lemma {:induction false} ServedHasAll(flag: Flags, order: seq<Task>, ws: Waiters, t: Task)
    requires t in Served(flag, order, ws) && WantsAll(WaiterOf(ws, t))
    ensures WaiterOf(ws, t).want <= flag
  {
    var next := After(flag, ws, order[0]);
    if t in Served(next, order[1..], ws) {
      ServedHasAll(next, order[1..], ws, t);
    }
  }

  /** No flag is handed out twice: what a served waiter clears is not among what
      a later one gets that waits for all its flags. */
  lemma {:induction false} NoFlagTakenTwice(flag: Flags, order: seq<Task>, ws: Waiters, i: nat, j: nat)
    requires i < j < |Served(flag, order, ws)|
    requires !WaiterOf(ws, Served(flag, order, ws)[i]).opt.keep && WantsAll(WaiterOf(ws, Served(flag, order, ws)[j]))
    ensures WaiterOf(ws, Served(flag, order, ws)[i]).want !! WaiterOf(ws, Served(flag, order, ws)[j]).want
  {
    var next := After(flag, ws, order[0]);
    var rest := Served(next, order[1..], ws);
    if !Ready(flag, ws, order[0]) {
      NoFlagTakenTwice(next, order[1..], ws, i, j);
    } else if i > 0 {
      NoFlagTakenTwice(next, order[1..], ws, i - 1, j - 1);
    } else {
      ServedHasAll(next, order[1..], ws, rest[j - 1]);
    }
  }

  // ---- The operations ----------------------------------------------------------------

  /** `dos_event_set`, which returns the flags that are left (none for no flags). The code walks the
      waiters under the scheduler lock but with interrupts enabled; here the walk is one step. */
  function SetFlags(s: State, bits: Flags): State
    requires s.pos <= |s.items|
  {
    if bits == {} then s
    else
      var u := Raise(s, bits);
      if u.items == [] then u else Walk(u, |u.items|)
  }

  function Raise(s: State, bits: Flags): State {
    s.(flag := s.flag + bits, ledger := s.ledger.(raised := s.ledger.raised + multiset(bits - s.flag)))
  }

  function Keys(items: seq<Task>, ws: Waiters): (keys: seq<nat>)
    ensures |keys| == |items|
  {
    seq(|items|, i requires 0 <= i < |items| => WaiterOf(ws, items[i]).value)
  }

  /** `dos_event_wait` up to the point where the caller has its answer or is
      blocked; it may give up instead of blocking. */
  function Wait(s: State, t: Task, w: Waiter, wait: Patience): State
    requires s.pos <= |s.items|
  {
    if w.want == {} || (w.opt.any && w.opt.all) then s
    else if Met(s.flag, w.want, w.opt) then
      s.(flag := Consumed(s.flag, w.want, w.opt), ledger := Booked(s.ledger, Cleared(s.flag, w.want, w.opt), false))
    else if wait == Never then s
    else
      var k := Slot(Keys(s.items, s.waiters), w.value);
      s.(items := Inserted(s.items, k, t), pos := if s.pos <= k then s.pos else s.pos + 1, waiters := s.waiters[t := w],
         waits := Called(s.waits, t, wait))
  }

  /** The wait of a task times out; it stays on the list. */
  function TimedOut(s: State, t: Task): State {
    s.(waits := s.waits.(late := s.waits.late + {t}))
  }

  /** The list without the k-th waiter; a cursor on it steps back. */
  function Leave(s: State, k: nat): State
    requires k < |s.items|
  {
    s.(items := Removed(s.items, k), pos := if s.pos <= k then s.pos else s.pos - 1)
  }

  /** A task whose wait has timed out runs again, leaves the list if it is still on it, and returns 0. */
  function GivenUp(s: State, t: Task): State {
    var k := Find(s.items, t);
    var r := if k < |s.items| then Leave(s, k) else s;
    r.(waits := r.waits.(late := r.waits.late - {t}))
  }

  /** What `dos_event_wait` returns when a task that was blocked runs again. */
  function Answer(s: State, t: Task): Flags {
    if t in s.waits.late || t !in s.got then {} else s.got[t]
  }

  /** No waiter's condition is met. */
  ghost predicate Quiet(s: State) {
    forall t :: t in s.items ==> !Ready(s.flag, s.waiters, t)
  }

  /** Every waiter waits for something. */
  ghost predicate Wanting(items: seq<Task>, ws: Waiters) {
    forall t :: t in items ==> WaiterOf(ws, t).want != {}
  }

  /** Every flag that was raised is still up or has been cleared, for a call that returned it or for one
      that did not. */
  ghost predicate Balanced(s: State) {
    s.ledger.raised == s.ledger.reported + s.ledger.lost + multiset(s.flag)
  }

  /** The priorities the waiters were created with. */
  function Values(ws: Waiters): (values: map<Task, nat>)
    ensures forall t :: Entry(values, t) == WaiterOf(ws, t).value
  {
    map t | t in ws :: ws[t].value
  }

  /** The waiters stand in order of creation priority, then of arrival. */
  ghost predicate Lined(s: State) {
    InLine(s.items, Values(s.waiters), s.waits.stamp, s.waits.arrivals)
  }

  ghost predicate Inv(s: State) {
    && s.pos <= |s.items| && Single(multiset(s.items)) && Quiet(s) && Wanting(s.items, s.waiters) && Balanced(s)
    && Lined(s)
  }

  lemma {:induction false} WalkLined(s: State, n: nat)
    requires s.pos <= |s.items| && n <= |s.items| && Lined(s)
    ensures Lined(Walk(s, n))
    decreases n
  {
    if n > 0 {
      InLineRemoved(s.items, Values(s.waiters), s.waits.stamp, s.waits.arrivals, NextPos(s.pos, |s.items|) - 1);
      WalkLined(VisitNext(s), n - 1);
    }
  }

  lemma {:induction false} WaitLined(s: State, t: Task, w: Waiter, wait: Patience)
    requires s.pos <= |s.items| && Lined(s) && t !in s.items
    ensures Lined(Wait(s, t, w, wait))
  {
    var values, values' := Values(s.waiters), Values(s.waiters[t := w]);
    InLineFrame(s.items, values, s.waits.stamp, s.waits.arrivals, values', s.waits.stamp, s.waits.arrivals);
    InLineInserted(s.items, values', s.waits.stamp, s.waits.arrivals, t);
    assert PendKeys(s.items, values') == Keys(s.items, s.waiters);
  }

  /** Each task is on the list at most once. */
  ghost predicate Single(m: multiset<Task>) {
    forall t :: m[t] <= 1
  }

  lemma {:induction false} SinglePart(a: multiset<Task>, b: multiset<Task>, m: multiset<Task>)
    requires Single(m) && m == a + b
    ensures Single(b)
  {
    forall t ensures b[t] <= 1 {
      assert m[t] == a[t] + b[t];
    }
  }

  lemma {:induction false} AheadMembers(items: seq<Task>, pos: nat)
    requires pos <= |items|
    ensures multiset(Ahead(items, pos)) == multiset(items)
  {
    assert items == items[..pos] + items[pos..];
  }

  /** Setting flags serves each waiter exactly once, from wherever the cursor
      stands: the list loses exactly the served ones, and none of the others has
      its condition met by the flags that are left. */
  lemma {:induction false} SetServesEachOnce(s: State, bits: Flags)
    requires s.pos <= |s.items| && bits != {}
    ensures var r, f, order := SetFlags(s, bits), s.flag + bits, Ahead(s.items, s.pos);
            && r.flag == Serve(f, order, s.waiters) && r.pos <= |r.items| && r.waiters == s.waiters && r.waits == s.waits
            && Ahead(r.items, r.pos) == Staying(f, order, s.waiters)
            && multiset(s.items) == multiset(Served(f, order, s.waiters)) + multiset(r.items)
            && Quiet(r)
  {
    var u := Raise(s, bits);
    var r, order := SetFlags(s, bits), Ahead(s.items, s.pos);
    WalkServes(u, |u.items|);
    assert order[..|order|] == order && order[|order|..] == [];
    AheadMembers(s.items, s.pos);
    AheadMembers(r.items, r.pos);
    ServedOrStaying(u.flag, order, s.waiters);
    forall t | t in r.items
      ensures !Ready(r.flag, r.waiters, t)
    {
      assert t in multiset(r.items);
      StayingUnmet(u.flag, order, s.waiters, t);
    }
  }

  /** Setting flags leaves exactly those up that were up or are set, and that no served waiter asked to
      clear. */
  lemma {:induction false} SetLeaves(s: State, bits: Flags, f: nat)
    requires s.pos <= |s.items| && bits != {}
    ensures f in SetFlags(s, bits).flag <==>
            (f in s.flag || f in bits) && forall t :: !ClearedBy(s.flag + bits, Ahead(s.items, s.pos), s.waiters, f, t)
  {
    SetServesEachOnce(s, bits);
    ServeLeaves(s.flag + bits, Ahead(s.items, s.pos), s.waiters, f);
  }

  /** What `dos_event_wait` returns at once. */
  function AtOnce(flag: Flags, w: Waiter): Flags {
    if Met(flag, w.want, w.opt) then w.want else {}
  }

  /** A call clears exactly the flags it returns, unless it asked to keep them; one that is not answered
      at once queues up, if it may, and leaves the flags alone. */
  lemma {:induction false} WaitOutcome(s: State, t: Task, w: Waiter, wait: Patience, f: nat)
    requires s.pos <= |s.items| && t !in s.items
    ensures var r := Wait(s, t, w, wait);
            && (f in r.flag <==> f in s.flag && (w.opt.keep || f !in AtOnce(s.flag, w)))
            && (t in r.items <==> AtOnce(s.flag, w) == {} && w.want != {} && !(w.opt.any && w.opt.all) && wait != Never)
            && (t in r.items ==> t in r.waiters && r.waiters[t] == w)
            && (forall x :: x in s.items ==> x in r.items)
  {
    InsertedMembers(s.items, Slot(Keys(s.items, s.waiters), w.value), t);
  }

  lemma {:induction false} TakenKeepsQuiet(s: State, flag: Flags)
    requires Quiet(s) && flag <= s.flag
    ensures Quiet(s.(flag := flag))
  {
    forall t | t in s.items
      ensures !Ready(flag, s.waiters, t)
    {
      if Ready(flag, s.waiters, t) {
        MetMonotone(flag, s.flag, WaiterOf(s.waiters, t).want, WaiterOf(s.waiters, t).opt);
      }
    }
  }

  lemma {:induction false} JoinKeepsInv(s: State, t: Task, w: Waiter, k: nat)
    requires Inv(s) && t !in s.items && k <= |s.items| && !Met(s.flag, w.want, w.opt)
    ensures var items := Inserted(s.items, k, t);
            && Single(multiset(items)) && Quiet(s.(items := items, waiters := s.waiters[t := w]))
            && (w.want != {} ==> Wanting(items, s.waiters[t := w]))
  {
    var items := Inserted(s.items, k, t);
    InsertedMembers(s.items, k, t);
    assert s.items == s.items[..k] + s.items[k..];
    assert multiset(items) == multiset(s.items)[t := 1];
  }

  lemma {:induction false} WaitKeepsInv(s: State, t: Task, w: Waiter, wait: Patience)
    requires Inv(s) && t !in s.items
    ensures Inv(Wait(s, t, w, wait))
  {
    if Met(s.flag, w.want, w.opt) {
      TakenKeepsQuiet(s, Consumed(s.flag, w.want, w.opt));
      BookedBalanced(s, w.want, w.opt, false);
      WaitLined(s, t, w, wait);
    } else {
      WaitLined(s, t, w, wait);
      JoinKeepsInv(s, t, w, Slot(Keys(s.items, s.waiters), w.value));
    }
  }

  /** What a call clears is entered. */
  lemma {:induction false} BookedBalanced(s: State, want: Flags, opt: Opt, late: bool)
    requires Balanced(s)
    ensures Balanced(s.(flag := Consumed(s.flag, want, opt), ledger := Booked(s.ledger, Cleared(s.flag, want, opt), late)))
  {
    assert multiset(s.flag) == multiset(Consumed(s.flag, want, opt)) + multiset(Cleared(s.flag, want, opt));
  }

  lemma {:induction false} WalkBalanced(s: State, n: nat)
    requires s.pos <= |s.items| && n <= |s.items| && Balanced(s)
    ensures Balanced(Walk(s, n))
    decreases n
  {
    if n > 0 {
      var t := s.items[NextPos(s.pos, |s.items|) - 1];
      BookedBalanced(s, WaiterOf(s.waiters, t).want, WaiterOf(s.waiters, t).opt, t in s.waits.late);
      WalkBalanced(VisitNext(s), n - 1);
    }
  }

  lemma {:induction false} RaiseBalanced(s: State, bits: Flags)
    requires Balanced(s)
    ensures Balanced(Raise(s, bits))
  {
    assert multiset(s.flag + bits) == multiset(s.flag) + multiset(bits - s.flag);
  }

  lemma {:induction false} LeaveKeepsInv(s: State, k: nat)
    requires Inv(s) && k < |s.items|
    ensures Inv(Leave(s, k))
  {
    var r := Leave(s, k);
    InLineRemoved(s.items, Values(s.waiters), s.waits.stamp, s.waits.arrivals, k);
    assert s.items == s.items[..k] + [s.items[k]] + s.items[k + 1..];
    SinglePart(multiset{s.items[k]}, multiset(r.items), multiset(s.items));
    assert forall t :: t in r.items ==> t in s.items;
  }

  lemma {:induction false} FindOnly(list: seq<Task>, t: Task, i: nat)
    requires i < |list| && list[i] == t && t !in Removed(list, i)
    ensures Find(list, t) == i && Without(list, t) == Removed(list, i)
  {
    if i > 0 {
      var first, rest := [list[0]], list[1..];
      assert list == first + rest;
      RemovedBack(first, rest, i - 1);
      assert list[0] in first + Removed(rest, i - 1);
      FindOnly(rest, t, i - 1);
    }
  }

  /** The k-th item leaves the order in which the cursor reaches the items. */
  lemma {:induction false} AheadRemoved(items: seq<Task>, pos: nat, k: nat)
    requires pos <= |items| && k < |items|
    ensures var p, i := if pos <= k then pos else pos - 1, if pos <= k then k - pos else |items| - pos + k;
            && p <= |Removed(items, k)| && Ahead(items, pos)[i] == items[k]
            && Ahead(Removed(items, k), p) == Removed(Ahead(items, pos), i)
  {
    var front, back := items[..pos], items[pos..];
    assert items == front + back;
    if pos <= k {
      LeavesBack(front, back, k - pos);
    } else {
      LeavesFront(front, back, k);
    }
  }

  lemma {:induction false} LeavesBack(front: seq<Task>, back: seq<Task>, i: nat)
    requires i < |back|
    ensures Ahead(Removed(front + back, |front| + i), |front|) == Removed(back + front, i)
  {
    RemovedBack(front, back, i);
    AheadOf(front, Removed(back, i));
    RemovedFront(back, front, i);
  }

  lemma {:induction false} LeavesFront(front: seq<Task>, back: seq<Task>, i: nat)
    requires i < |front|
    ensures Ahead(Removed(front + back, i), |front| - 1) == Removed(back + front, |back| + i)
  {
    RemovedFront(front, back, i);
    AheadOf(Removed(front, i), back);
    RemovedBack(back, front, i);
  }

  lemma {:induction false} AheadOf(front: seq<Task>, back: seq<Task>)
    ensures Ahead(front + back, |front|) == back + front
  {
  }

  lemma {:induction false} RemovedFront(a: seq<Task>, b: seq<Task>, i: nat)
    requires i < |a|
    ensures Removed(a + b, i) == Removed(a, i) + b
  {
  }

  lemma {:induction false} RemovedBack(a: seq<Task>, b: seq<Task>, i: nat)
    requires i < |b|
    ensures Removed(a + b, |a| + i) == a + Removed(b, i)
  {
  }

  lemma {:induction false} AheadWithout(items: seq<Task>, pos: nat, k: nat)
    requires pos <= |items| && k < |items| && items[k] !in Removed(items, k)
    ensures var p := if pos <= k then pos else pos - 1;
            p <= |Removed(items, k)| && Ahead(Removed(items, k), p) == Without(Ahead(items, pos), items[k])
  {
    var p, i := if pos <= k then pos else pos - 1, if pos <= k then k - pos else |items| - pos + k;
    AheadRemoved(items, pos, k);
    assert forall t :: t in Ahead(Removed(items, k), p) ==> t in Removed(items, k);
    FindOnly(Ahead(items, pos), items[k], i);
  }

  /** A task that gives up is off the list, and the others are reached in the order they were. */
  lemma {:induction false} GiveUpLeaves(s: State, t: Task)
    requires Inv(s)
    ensures var r := GivenUp(s, t);
            Parted(s.items, s.pos, r.items, r.pos, t) && t !in r.waits.late && r.flag == s.flag
  {
    var r, k := GivenUp(s, t), Find(s.items, t);
    if k < |s.items| {
      InLineRemoved(s.items, Values(s.waiters), s.waits.stamp, s.waits.arrivals, k);
    }
    LeaveOrder(s.items, s.pos, r.items, r.pos, k, t);
  }

  /** Item `t` is gone, and the others are reached in the order they were. */
  ghost predicate Parted(items: seq<Task>, pos: nat, items': seq<Task>, pos': nat, t: Task) {
    t !in items' && pos <= |items| && pos' <= |items'| && Ahead(items', pos') == Without(Ahead(items, pos), t)
  }

  lemma {:induction false} LeaveOrder(items: seq<Task>, pos: nat, items': seq<Task>, pos': nat, k: nat, t: Task)
    requires pos <= |items| && k <= |items|
    requires k == |items| ==> t !in items && items' == items && pos' == pos
    requires k < |items| ==> items[k] == t && items' == Removed(items, k) && pos' == if pos <= k then pos else pos - 1
    requires t !in items'
    ensures Parted(items, pos, items', pos', t)
  {
    if k < |items| {
      AheadWithout(items, pos, k);
    } else {
      WithoutAbsent(Ahead(items, pos), t);
    }
  }

  /** A task that queues up leaves the order of the others as it was. */
  lemma {:induction false} WaitKeepsOrder(s: State, t: Task, w: Waiter, wait: Patience)
    requires s.pos <= |s.items| && t !in s.items
    ensures SameOrder(s.items, s.pos, Wait(s, t, w, wait).items, Wait(s, t, w, wait).pos, t)
  {
    var r := Wait(s, t, w, wait);
    JoinOrder(s.items, s.pos, r.items, r.pos, Slot(Keys(s.items, s.waiters), w.value), t);
  }

  /** But for `t`, the items are reached in the same order. */
  ghost predicate SameOrder(items: seq<Task>, pos: nat, items': seq<Task>, pos': nat, t: Task) {
    pos <= |items| && pos' <= |items'| && Without(Ahead(items', pos'), t) == Ahead(items, pos)
  }

  lemma {:induction false} JoinOrder(items: seq<Task>, pos: nat, items': seq<Task>, pos': nat, k: nat, t: Task)
    requires pos <= |items| && k <= |items| && t !in items
    requires || (items' == items && pos' == pos)
             || (items' == Inserted(items, k, t) && pos' == if pos <= k then pos else pos + 1)
    ensures SameOrder(items, pos, items', pos', t)
  {
    if items' == items && pos' == pos {
      WithoutAbsent(Ahead(items, pos), t);
    } else {
      AheadInserted(items, pos, k, t);
    }
  }

  lemma {:induction false} WithoutAbsent(list: seq<Task>, t: Task)
    requires t !in list
    ensures Without(list, t) == list
  {
  }

  lemma {:induction false} AheadInserted(items: seq<Task>, pos: nat, k: nat, t: Task)
    requires pos <= |items| && k <= |items| && t !in items
    ensures SameOrder(items, pos, Inserted(items, k, t), if pos <= k then pos else pos + 1, t)
  {
    var more := Inserted(items, k, t);
    assert more[k] == t && Removed(more, k) == items;
    AheadWithout(more, if pos <= k then pos else pos + 1, k);
  }

  // ---- Runs ------------------------------------------------------------------------------

  datatype Op = Set(bits: Flags) | Await(t: Task, w: Waiter, wait: Patience) | TimeOut(t: Task) | GiveUp(t: Task)

  /** Only a waiter that does not wait for ever times out, and then it gives up before it waits again. */
  predicate Enabled(s: State, op: Op) {
    match op
    case Set(_) => true
    case Await(t, _, _) => t !in s.items && t !in s.waits.late
    case TimeOut(t) => t in s.items && t in s.waits.hasty
    case GiveUp(t) => t in s.waits.late
  }

  /** In every state between calls no remaining waiter's condition is met. */
  ghost function Step(s: State, op: Op): (r: State)
    requires Inv(s) && Enabled(s, op)
    ensures Inv(r)
  {
    match op
    case Set(bits) =>
      SetKeepsInv(s, bits);
      SetFlags(s, bits)
    case Await(t, w, wait) =>
      WaitKeepsInv(s, t, w, wait);
      Wait(s, t, w, wait)
    case TimeOut(t) => TimedOut(s, t)
    case GiveUp(t) =>
      if Find(s.items, t) < |s.items| then
        LeaveKeepsInv(s, Find(s.items, t));
        GivenUp(s, t)
      else GivenUp(s, t)
  }

  /** `dos_event_create`. */
  function Initial(): (s: State)
    ensures Inv(s)
  {
    State({}, [], 0, map[], map[], Waits(map[], 0, {}, {}), Ledger(multiset{}, multiset{}, multiset{}))
  }

  ghost predicate Feasible(s: State, run: seq<Op>)
    requires Inv(s)
    decreases |run|
  {
    run == [] || (Enabled(s, run[0]) && Feasible(Step(s, run[0]), run[1..]))
  }

  ghost function Exec(s: State, run: seq<Op>): (r: State)
    requires Inv(s) && Feasible(s, run)
    ensures Inv(r)
    decreases |run|
  {
    if run == [] then s else Exec(Step(s, run[0]), run[1..])
  }

  /** After every run of sets, waits and time-outs no task waits although its condition is met,
      and none waits twice. */
  lemma {:induction false} NobodyWaitsInVain(run: seq<Op>, i: nat)
    requires Feasible(Initial(), run) && i < |Exec(Initial(), run).items|
    ensures var s := Exec(Initial(), run);
            var w := WaiterOf(s.waiters, s.items[i]);
            && !Met(s.flag, w.want, w.opt) && (forall j :: 0 <= j < |s.items| && j != i ==> s.items[j] != s.items[i])
  {
    var s := Exec(Initial(), run);
    var t := s.items[i];
    assert t in s.items && !Ready(s.flag, s.waiters, t);
    forall j | 0 <= j < |s.items| && j != i ensures s.items[j] != t {
      if s.items[j] == t {
        TwicePresent(s.items, i, j);
      }
    }
  }

  /** After every run the waiters stand in order of creation priority, and those of the same priority in
      the order in which they came. */
  lemma {:induction false} WaitersInLine(run: seq<Op>, i: nat, j: nat)
    requires Feasible(Initial(), run) && i < j < |Exec(Initial(), run).items|
    ensures var s := Exec(Initial(), run);
            && WaiterOf(s.waiters, s.items[i]).value <= WaiterOf(s.waiters, s.items[j]).value
            && (WaiterOf(s.waiters, s.items[i]).value == WaiterOf(s.waiters, s.items[j]).value
                ==> Entry(s.waits.stamp, s.items[i]) < Entry(s.waits.stamp, s.items[j]))
  {
    var s := Exec(Initial(), run);
    assert Before(Values(s.waiters), s.waits.stamp, s.items[i], s.items[j]);
  }

  lemma {:induction false} TwicePresent(items: seq<Task>, i: nat, j: nat)
    requires i < |items| && j < |items| && i != j && items[i] == items[j]
    ensures multiset(items)[items[i]] >= 2
  {
    var a, b := if i < j then i else j, if i < j then j else i;
    assert items == items[..a] + [items[a]] + items[a + 1..b] + [items[b]] + items[b + 1..];
  }

  lemma {:induction false} SetKeepsInv(s: State, bits: Flags)
    requires Inv(s)
    ensures Inv(SetFlags(s, bits))
  {
    if bits != {} {
      var r := SetFlags(s, bits);
      SetServesEachOnce(s, bits);
      SinglePart(multiset(Served(s.flag + bits, Ahead(s.items, s.pos), s.waiters)), multiset(r.items), multiset(s.items));
      SetBalanced(s, bits);
      SetWanting(s, bits);
      WalkLined(Raise(s, bits), |s.items|);
    }
  }

  lemma {:induction false} SetBalanced(s: State, bits: Flags)
    requires s.pos <= |s.items| && Balanced(s)
    ensures Balanced(SetFlags(s, bits))
  {
    RaiseBalanced(s, bits);
    WalkBalanced(Raise(s, bits), |s.items|);
  }

  lemma {:induction false} SetWanting(s: State, bits: Flags)
    requires s.pos <= |s.items| && Wanting(s.items, s.waiters) && bits != {}
    ensures Wanting(SetFlags(s, bits).items, SetFlags(s, bits).waiters)
  {
    SetServesEachOnce(s, bits);
    forall t | t in SetFlags(s, bits).items
      ensures t in s.items
    {
      assert t in multiset(SetFlags(s, bits).items);
      assert t in multiset(s.items);
    }
  }

  // ---- Flags lost to waiters that have timed out ---------------------------------------------

  /** Over every run each raising of a flag is still up, was returned by the call it was cleared for, or
      was cleared for a call that returned 0. */
  lemma {:induction false} FlagsConserved(run: seq<Op>)
    requires Feasible(Initial(), run)
    ensures var s := Exec(Initial(), run); s.ledger.raised == s.ledger.reported + s.ledger.lost + multiset(s.flag)
  {
  }

  /** The flags the walk clears for the waiters among `late`. */
  function ClearedFor(flag: Flags, order: seq<Task>, ws: Waiters, late: set<Task>): multiset<nat> {
    if order == [] then multiset{}
    else ClearedOnce(flag, order[0], ws, late) + ClearedFor(After(flag, ws, order[0]), order[1..], ws, late)
  }

  function ClearedOnce(flag: Flags, t: Task, ws: Waiters, late: set<Task>): multiset<nat> {
    if Ready(flag, ws, t) && t in late then multiset(Cleared(flag, WaiterOf(ws, t).want, WaiterOf(ws, t).opt)) else multiset{}
  }

  lemma {:induction false} VisitLoses(s: State)
    requires s.pos <= |s.items| && s.items != []
    ensures VisitNext(s).ledger.lost == s.ledger.lost + ClearedOnce(s.flag, Ahead(s.items, s.pos)[0], s.waiters, s.waits.late)
  {
    AheadNext(s.items, s.pos);
  }

  /** The same for those that have not timed out. */
  lemma {:induction false} VisitReports(s: State, prompt: set<Task>)
    requires s.pos <= |s.items| && s.items != [] && (Ahead(s.items, s.pos)[0] in prompt <==> Ahead(s.items, s.pos)[0] !in s.waits.late)
    ensures VisitNext(s).ledger.reported == s.ledger.reported + ClearedOnce(s.flag, Ahead(s.items, s.pos)[0], s.waiters, prompt)
  {
    AheadNext(s.items, s.pos);
  }

  lemma {:induction false} VisitKeepsOnly(s: State)
    requires s.pos <= |s.items| && s.items != []
    ensures forall t :: t in VisitNext(s).items ==> t in s.items
  {
  }

  lemma {:induction false} WalkReports(s: State, n: nat, prompt: set<Task>)
    requires s.pos <= |s.items| && n <= |s.items|
    requires forall t :: t in s.items ==> (t in prompt <==> t !in s.waits.late)
    ensures Walk(s, n).ledger.reported == s.ledger.reported + ClearedFor(s.flag, Ahead(s.items, s.pos)[..n], s.waiters, prompt)
    decreases n
  {
    var order := Ahead(s.items, s.pos);
    if n > 0 {
      var v := VisitNext(s);
      VisitReports(s, prompt);
      VisitServes(s);
      AheadStep(s, n);
      VisitKeepsOnly(s);
      WalkReports(v, n - 1, prompt);
      assert order[..n][1..] == Ahead(v.items, v.pos)[..n - 1];
    }
  }

  /** Whom a flag is cleared for. */
  lemma {:induction false} ClearedForWhom(flag: Flags, order: seq<Task>, ws: Waiters, who: set<Task>, f: nat) returns (t: Task)
    requires f in ClearedFor(flag, order, ws, who)
    ensures t in who && f in flag && ClearedBy(flag, order, ws, f, t)
  {
    var next := After(flag, ws, order[0]);
    if f in ClearedOnce(flag, order[0], ws, who) {
      t := order[0];
    } else {
      t := ClearedForWhom(next, order[1..], ws, who, f);
    }
  }

  /** A flag that setting flags reports is among what a call returns that it serves. */
  lemma {:induction false} SetReports(s: State, bits: Flags, f: nat) returns (t: Task)
    requires s.pos <= |s.items| && bits != {} && SetFlags(s, bits).ledger.reported[f] > s.ledger.reported[f]
    ensures ClearedBy(s.flag + bits, Ahead(s.items, s.pos), s.waiters, f, t) && f in Answer(SetFlags(s, bits), t)
  {
    var order, prompt := Ahead(s.items, s.pos), (set t | t in s.items) - s.waits.late;
    WalkReports(Raise(s, bits), |s.items|, prompt);
    assert order[..|s.items|] == order;
    t := ClearedForWhom(s.flag + bits, order, s.waiters, prompt, f);
    ServedAnswer(s, bits, t);
  }

  /** What a call reports at once is what it returns of the flags that were up. */
  lemma {:induction false} WaitReports(s: State, t: Task, w: Waiter, wait: Patience, f: nat)
    requires s.pos <= |s.items| && Wait(s, t, w, wait).ledger.reported[f] > s.ledger.reported[f]
    ensures f in s.flag && f in AtOnce(s.flag, w)
  {
  }

  lemma {:induction false} WalkLoses(s: State, n: nat)
    requires s.pos <= |s.items| && n <= |s.items|
    ensures Walk(s, n).ledger.lost == s.ledger.lost + ClearedFor(s.flag, Ahead(s.items, s.pos)[..n], s.waiters, s.waits.late)
    decreases n
  {
    var order := Ahead(s.items, s.pos);
    if n > 0 {
      var v := VisitNext(s);
      VisitLoses(s);
      VisitServes(s);
      AheadStep(s, n);
      WalkLoses(v, n - 1);
      assert order[..n][1..] == Ahead(v.items, v.pos)[..n - 1];
    }
  }

  /** A waiter that has timed out is served and clears flags. */
  ghost predicate LosesTo(flag: Flags, order: seq<Task>, ws: Waiters, late: set<Task>, t: Task) {
    t in Served(flag, order, ws) && t in late && !WaiterOf(ws, t).opt.keep
  }

  lemma {:induction false} LostIff(flag: Flags, order: seq<Task>, ws: Waiters, late: set<Task>)
    requires Wanting(order, ws)
    ensures ClearedFor(flag, order, ws, late) == multiset{} <==> forall t :: !LosesTo(flag, order, ws, late, t)
  {
    if order != [] {
      var next := After(flag, ws, order[0]);
      assert forall t :: t in order[1..] ==> t in order;
      LostIff(next, order[1..], ws, late);
      ClearedOnceIff(flag, order[0], ws, late);
      assert forall t :: LosesTo(flag, order, ws, late, t) <==>
          || LosesTo(next, order[1..], ws, late, t)
          || (t == order[0] && Ready(flag, ws, t) && t in late && !WaiterOf(ws, t).opt.keep);
    }
  }

  lemma {:induction false} ClearedOnceIff(flag: Flags, t: Task, ws: Waiters, late: set<Task>)
    requires WaiterOf(ws, t).want != {}
    ensures ClearedOnce(flag, t, ws, late) == multiset{} <==> !(Ready(flag, ws, t) && t in late && !WaiterOf(ws, t).opt.keep)
  {
    var w := WaiterOf(ws, t);
    if Ready(flag, ws, t) && t in late && !w.opt.keep {
      var f :| f in flag * w.want;
      assert f in multiset(Cleared(flag, w.want, w.opt));
    }
  }

  /** Setting flags serves a waiter that has timed out, and clears flags for it. */
  ghost predicate Loses(s: State, op: Op)
    requires s.pos <= |s.items|
  {
    op.Set? && op.bits != {} && exists t :: LosesTo(s.flag + op.bits, Ahead(s.items, s.pos), s.waiters, s.waits.late, t)
  }

  /** A step loses flags if and only if it serves a waiter that has timed out and clears flags. */
  lemma {:induction false} FlagsKeptIff(s: State, op: Op)
    requires Inv(s) && Enabled(s, op)
    ensures s.ledger.lost <= Step(s, op).ledger.lost
    ensures Step(s, op).ledger.lost == s.ledger.lost <==> !Loses(s, op)
  {
    if op.Set? && op.bits != {} {
      SetLoses(s, op.bits);
    }
  }

  lemma {:induction false} SetLoses(s: State, bits: Flags)
    requires s.pos <= |s.items| && Wanting(s.items, s.waiters) && bits != {}
    ensures s.ledger.lost <= SetFlags(s, bits).ledger.lost
    ensures SetFlags(s, bits).ledger.lost == s.ledger.lost <==> !Loses(s, Set(bits))
  {
    var u, order := Raise(s, bits), Ahead(s.items, s.pos);
    AheadWanting(s);
    WalkLoses(u, |s.items|);
    assert order[..|s.items|] == order;
    LostIff(u.flag, order, s.waiters, s.waits.late);
    NothingAdded(s.ledger.lost, ClearedFor(u.flag, order, s.waiters, s.waits.late));
  }

  lemma {:induction false} AheadWanting(s: State)
    requires s.pos <= |s.items| && Wanting(s.items, s.waiters)
    ensures Wanting(Ahead(s.items, s.pos), s.waiters)
  {
  }

  lemma {:induction false} NothingAdded(a: multiset<nat>, b: multiset<nat>)
    ensures a + b == a <==> b == multiset{}
  {
    if a + b == a {
      assert forall f :: (a + b)[f] == a[f] + b[f];
    }
  }

  ghost predicate NeverLoses(s: State, run: seq<Op>)
    requires Inv(s) && Feasible(s, run)
    decreases |run|
  {
    run == [] || (!Loses(s, run[0]) && NeverLoses(Step(s, run[0]), run[1..]))
  }

  lemma {:induction false} LostGrows(s: State, run: seq<Op>)
    requires Inv(s) && Feasible(s, run)
    ensures s.ledger.lost <= Exec(s, run).ledger.lost
    decreases |run|
  {
    if run != [] {
      FlagsKeptIff(s, run[0]);
      LostGrows(Step(s, run[0]), run[1..]);
    }
  }

  /** So all flags a run clears are returned by the calls they are cleared for, if and only if no step
      clears flags for a waiter that has timed out. */
  lemma {:induction false} RunKeepsFlagsIff(s: State, run: seq<Op>)
    requires Inv(s) && Feasible(s, run)
    ensures Exec(s, run).ledger.lost == s.ledger.lost <==> NeverLoses(s, run)
    decreases |run|
  {
    if run != [] {
      FlagsKeptIff(s, run[0]);
      RunKeepsFlagsIff(Step(s, run[0]), run[1..]);
      LostGrows(Step(s, run[0]), run[1..]);
    }
  }

  /** Which is so if all calls wait for ever or not at all. */
  lemma {:induction false} PatientRunsKeepFlags(s: State, run: seq<Op>)
    requires Inv(s) && Feasible(s, run) && s.waits.hasty == {} && s.waits.late == {}
    requires forall op <- run :: op.Await? ==> op.wait != Ticks
    ensures NeverLoses(s, run)
    decreases |run|
  {
    if run != [] {
      StepPatient(s, run[0]);
      PatientRunsKeepFlags(Step(s, run[0]), run[1..]);
    }
  }

  lemma {:induction false} StepPatient(s: State, op: Op)
    requires Inv(s) && Enabled(s, op) && s.waits.hasty == {} && s.waits.late == {} && (op.Await? ==> op.wait != Ticks)
    ensures !Loses(s, op) && Step(s, op).waits.hasty == {} && Step(s, op).waits.late == {}
  {
    if op.Set? && op.bits != {} {
      SetServesEachOnce(s, op.bits);
    }
  }

  // ---- What the calls return ------------------------------------------------------------------

  /** Of `t` the answer is what it waited for, or stays what it was. */
  ghost predicate Gets(s: State, r: State, served: seq<Task>, t: Task) {
    if t in served then t in r.got && r.got[t] == WaiterOf(s.waiters, t).want
    else (t in r.got <==> t in s.got) && (t in s.got ==> r.got[t] == s.got[t])
  }

  lemma {:induction false} VisitGets(s: State, t: Task)
    requires s.pos <= |s.items| && s.items != []
    ensures var first := Ahead(s.items, s.pos)[0]; Gets(s, VisitNext(s), if Ready(s.flag, s.waiters, first) then [first] else [], t)
  {
    AheadNext(s.items, s.pos);
  }

  lemma {:induction false} GetsJoined(s: State, v: State, r: State, a: seq<Task>, b: seq<Task>, t: Task)
    requires Gets(s, v, a, t) && Gets(v, r, b, t) && v.waiters == s.waiters
    ensures Gets(s, r, a + b, t)
  {
  }

  lemma {:induction false} WalkGets(s: State, n: nat, t: Task)
    requires s.pos <= |s.items| && n <= |s.items|
    ensures Gets(s, Walk(s, n), Served(s.flag, Ahead(s.items, s.pos)[..n], s.waiters), t)
    decreases n
  {
    var order := Ahead(s.items, s.pos);
    if n > 0 {
      var v := VisitNext(s);
      VisitGets(s, t);
      VisitServes(s);
      AheadStep(s, n);
      var rest := Ahead(v.items, v.pos)[..n - 1];
      WalkGets(v, n - 1, t);
      ServedStep(s.flag, order[..n], rest, s.waiters);
      GetsJoined(s, v, Walk(v, n - 1), if Ready(s.flag, s.waiters, order[0]) then [order[0]] else [],
                 Served(v.flag, rest, v.waiters), t);
    }
  }

  lemma {:induction false} ServedStep(flag: Flags, order: seq<Task>, rest: seq<Task>, ws: Waiters)
    requires order != [] && order == [order[0]] + rest
    ensures Served(flag, order, ws)
         == (if Ready(flag, ws, order[0]) then [order[0]] else []) + Served(After(flag, ws, order[0]), rest, ws)
  {
    assert order[1..] == rest;
  }

  /** A served waiter's call returns what it waited for, or 0 if it has timed out. */
  lemma {:induction false} ServedAnswer(s: State, bits: Flags, t: Task)
    requires s.pos <= |s.items| && bits != {} && t in Served(s.flag + bits, Ahead(s.items, s.pos), s.waiters)
    ensures Answer(SetFlags(s, bits), t) == if t in s.waits.late then {} else WaiterOf(s.waiters, t).want
  {
    var order := Ahead(s.items, s.pos);
    assert order[..|s.items|] == order;
    WalkGets(Raise(s, bits), |s.items|, t);
    SetServesEachOnce(s, bits);
  }

  lemma {:induction false} OnlyWaitersServed(flag: Flags, order: seq<Task>, ws: Waiters, t: Task)
    requires t !in order
    ensures t !in Served(flag, order, ws)
  {
    ServedOrStaying(flag, order, ws);
    assert multiset(order)[t] == 0;
    assert multiset(Served(flag, order, ws))[t] == 0;
  }

  /** The answer of a task that is off the list waits for it until it runs. */
  lemma {:induction false} AnswerStays(s: State, op: Op, t: Task)
    requires Inv(s) && Enabled(s, op) && t !in s.items && op != GiveUp(t)
    ensures Answer(Step(s, op), t) == Answer(s, t)
  {
    match op
    case Set(bits) =>
      if bits != {} {
        SetAnswers(s, bits, t);
      }
    case Await(u, w, wait) => WaitAnswers(s, u, w, wait, t);
    case TimeOut(u) => assert u != t;
    case GiveUp(u) => GiveUpAnswers(s, u, t);
  }

  lemma {:induction false} WaitAnswers(s: State, u: Task, w: Waiter, wait: Patience, t: Task)
    requires s.pos <= |s.items|
    ensures Answer(Wait(s, u, w, wait), t) == Answer(s, t)
  {
  }

  lemma {:induction false} GiveUpAnswers(s: State, u: Task, t: Task)
    requires u != t
    ensures Answer(GivenUp(s, u), t) == Answer(s, t)
  {
  }

  lemma {:induction false} SetAnswers(s: State, bits: Flags, t: Task)
    requires s.pos <= |s.items| && t !in s.items && bits != {}
    ensures Answer(SetFlags(s, bits), t) == Answer(s, t)
  {
    var order := Ahead(s.items, s.pos);
    OnlyWaitersServed(s.flag + bits, order, s.waiters, t);
    assert order[..|s.items|] == order;
    WalkGets(Raise(s, bits), |s.items|, t);
    SetServesEachOnce(s, bits);
  }

  // ---- A run that loses a flag ----------------------------------------------------------------

  /** The run from `s` ends in `r`. */
  ghost predicate Ends(s: State, run: seq<Op>, r: State) {
    Inv(s) && Feasible(s, run) && Exec(s, run) == r
  }

  lemma {:induction false} EndsAfter(s: State, op: Op, n: State, rest: seq<Op>, r: State)
    requires Inv(s) && Enabled(s, op) && Step(s, op) == n && Ends(n, rest, r)
    ensures Ends(s, [op] + rest, r)
  {
    assert ([op] + rest)[1..] == rest;
  }

  /** A task that waits for any of `want`, which is cleared for it. */
  function AnyOf(want: Flags): Waiter {
    Waiter(want, Opt(true, false, false), 0)
  }

  /** Task 1 waits for flag 0, which is down. */
  ghost predicate Alone(s: State, late: set<Task>) {
    && Inv(s) && s.items == [1] && s.pos == 0 && s.flag == {} && 1 in s.waiters && s.waiters[1] == AnyOf({0})
    && s.waits.hasty == {1} && s.waits.late == late && s.ledger == Ledger(multiset{}, multiset{}, multiset{})
  }

  /** It has been served; the flag is down again. */
  ghost predicate Gone(s: State, late: set<Task>) {
    && Inv(s) && s.items == [] && s.flag == {} && s.waits.late == late
    && s.ledger == Ledger(multiset{0}, multiset{}, multiset{0})
  }

  lemma {:induction false} StartsToWait()
    ensures Enabled(Initial(), Await(1, AnyOf({0}), Ticks)) && Alone(Step(Initial(), Await(1, AnyOf({0}), Ticks)), {})
  {
    FirstWait(Initial());
  }

  lemma {:induction false} FirstWait(s: State)
    requires s == Initial()
    ensures var r := Wait(s, 1, AnyOf({0}), Ticks);
            && r.items == [1] && r.pos == 0 && r.flag == {} && 1 in r.waiters && r.waiters[1] == AnyOf({0})
            && r.waits.hasty == {1} && r.waits.late == {} && r.ledger == s.ledger
  {
    assert Inserted([], 0, 1) == [1] && {} + {1} == {1};
  }

  lemma {:induction false} TimesOut(s: State)
    requires Alone(s, {})
    ensures Enabled(s, TimeOut(1)) && Alone(Step(s, TimeOut(1)), {1})
  {
    assert {} + {1} == {1};
  }

  lemma {:induction false} ServedLate(s: State)
    requires Alone(s, {1})
    ensures Gone(Step(s, Set({0})), {1})
  {
    var u := Raise(s, {0});
    assert u.flag == {0} && {0} - {} == {0} && {0} * {0} == {0} && {0} - {0} == {};
    assert Walk(u, 1) == VisitNext(u);
  }

  lemma {:induction false} ReturnsNothing(s: State)
    requires Gone(s, {1})
    ensures Enabled(s, GiveUp(1)) && Gone(Step(s, GiveUp(1)), {})
  {
    assert {1} - {1} == {};
  }

  /** Task 1 waits for flag 0 and times out; the flag is raised before it runs. */
  function LosingRun(): seq<Op> {
    [Await(1, AnyOf({0}), Ticks)] + ([TimeOut(1)] + ([Set({0})] + ([GiveUp(1)] + [])))
  }

  /** After that run the flag, raised once, is down and nobody waits, but no call has returned it. */
  lemma {:induction false} TimeOutLosesFlag() returns (s: State)
    ensures Ends(Initial(), LosingRun(), s)
    ensures s.flag == {} && s.items == [] && s.ledger == Ledger(multiset{0}, multiset{}, multiset{0})
  {
    StartsToWait();
    var a := Step(Initial(), Await(1, AnyOf({0}), Ticks));
    s := LosesFlag(a);
    EndsAfter(Initial(), Await(1, AnyOf({0}), Ticks), a, [TimeOut(1)] + ([Set({0})] + ([GiveUp(1)] + [])), s);
  }

  lemma {:induction false} LosesFlag(a: State) returns (s: State)
    requires Alone(a, {})
    ensures Ends(a, [TimeOut(1)] + ([Set({0})] + ([GiveUp(1)] + [])), s) && Gone(s, {})
  {
    TimesOut(a);
    var b := Step(a, TimeOut(1));
    s := SetTooLate(b);
    EndsAfter(a, TimeOut(1), b, [Set({0})] + ([GiveUp(1)] + []), s);
  }

  lemma {:induction false} SetTooLate(b: State) returns (s: State)
    requires Alone(b, {1})
    ensures Ends(b, [Set({0})] + ([GiveUp(1)] + []), s) && Gone(s, {})
  {
    ServedLate(b);
    var c := Step(b, Set({0}));
    s := EndsEmpty(c);
    EndsAfter(b, Set({0}), c, [GiveUp(1)] + [], s);
  }

  lemma {:induction false} EndsEmpty(c: State) returns (s: State)
    requires Gone(c, {1})
    ensures Ends(c, [GiveUp(1)] + [], s) && Gone(s, {})
  {
    ReturnsNothing(c);
    s := Step(c, GiveUp(1));
    EndsAfter(c, GiveUp(1), s, [], s);
  }

  lemma {:induction false} AheadStep(s: State, n: nat)
    requires s.pos <= |s.items| && 0 < n <= |s.items|
    ensures var v := VisitNext(s);
            && n - 1 <= |v.items| && v.pos <= |v.items|
            && Ahead(s.items, s.pos)[..n] == [Ahead(s.items, s.pos)[0]] + Ahead(v.items, v.pos)[..n - 1]
  {
    VisitServes(s);
    var order, kept := Ahead(s.items, s.pos), Kept(s.flag, Ahead(s.items, s.pos)[0], s.waiters);
    assert |VisitNext(s).items| == |Ahead(VisitNext(s).items, VisitNext(s).pos)|;
    assert (order[1..] + kept)[..n - 1] == order[1..n];
    assert order[..n] == [order[0]] + order[1..n];
  }

  // ---- The event object --------------------------------------------------------------------

  class EventGroup {
    var flag: Flags
    var items: seq<Task>
    var pos: nat
    var waiters: Waiters
    var got: map<Task, Flags>
    var waits: Waits  // TIMEOUT in the tasks' status
    ghost var ledger: Ledger

    ghost function View(): State
      reads this
    {
      State(flag, items, pos, waiters, got, waits, ledger)
    }

    /** `dos_event_create` */
    constructor ()
      ensures View() == Initial() && Inv(View())
    {
      flag, items, pos, waiters, got, waits := {}, [], 0, map[], map[], Waits(map[], 0, {}, {});
      ledger := Ledger(multiset{}, multiset{}, multiset{});
    }

    /** `_dos_check_event` for a condition of any task. */
    method Check(want: Flags, opt: Opt) returns (ok: bool)
      modifies this`flag
      ensures ok <==> Met(old(flag), want, opt)
      ensures flag == if ok then Consumed(old(flag), want, opt) else old(flag)
    {
      ok := false;
      if opt.any && !opt.all {
        ok := flag * want != {};
      } else if opt.all && !opt.any {
        ok := flag * want == want;
      }
      if ok && !opt.keep {
        flag := flag - want;
      }
    }

    /** `dos_event_wait` up to the answer or the block. */
    method Await(t: Task, w: Waiter, wait: Patience) returns (answer: Flags)
      requires pos <= |items|
      modifies this
      ensures View() == Wait(old(View()), t, w, wait)
      ensures answer == if w.want != {} && Met(old(flag), w.want, w.opt) then w.want else {}
    {
      if w.want == {} || (w.opt.any && w.opt.all) {
        return {};
      }
      ghost var before := flag;
      var ok := Check(w.want, w.opt);
      if ok {
        ledger := Booked(ledger, Cleared(before, w.want, w.opt), false);
        return w.want;
      }
      if wait != Never {
        var k := Slot(Keys(items, waiters), w.value);
        items, pos, waiters := Inserted(items, k, t), if pos <= k then pos else pos + 1, waiters[t := w];
        waits := Called(waits, t, wait);
      }
      return {};
    }

    /** What the tick does to a waiter whose time is up. */
    method TimeOut(t: Task)
      modifies `waits
      ensures View() == TimedOut(old(View()), t)
    {
      waits := waits.(late := waits.late + {t});
    }

    /** The end of `dos_event_wait` for a task that was blocked and runs again. */
    method Resume(t: Task) returns (answer: Flags)
      requires pos <= |items|
      modifies this
      ensures answer == Answer(old(View()), t)
      ensures View() == if t in old(waits).late then GivenUp(old(View()), t) else old(View())
    {
      if t in waits.late {
        var k := Find(items, t);
        if k < |items| {
          items, pos := Removed(items, k), if pos <= k then pos else pos - 1;
        }
        waits := waits.(late := waits.late - {t});
        return {};
      }
      return if t in got then got[t] else {};
    }

    /** One round of the loop of `dos_event_set`. */
    method Next() returns (t: Task)
      requires pos <= |items| && items != []
      modifies this
      ensures View() == VisitNext(old(View())) && t == Ahead(old(items), old(pos))[0]
    {
      AheadNext(items, pos);
      pos := NextPos(pos, |items|);
      t := items[pos - 1];
      var w := WaiterOf(waiters, t);
      ghost var before := flag;
      var ok := Check(w.want, w.opt);
      if ok {
        ledger := Booked(ledger, Cleared(before, w.want, w.opt), t in waits.late);
        got := got[t := w.want];
        items, pos := Removed(items, pos - 1), pos - 1;
      }
    }

    /** A round with `value` waiters still to visit. */
    method Round(value: nat) returns (t: Task)
      requires pos <= |items| && 0 < value <= |items|
      modifies this
      ensures pos <= |items| && value - 1 <= |items|
      ensures Walk(View(), value - 1) == Walk(old(View()), value)
      ensures Ahead(old(items), old(pos))[..value] == [t] + Ahead(items, pos)[..value - 1]
    {
      AheadStep(View(), value);
      ghost var v := VisitNext(View());
      t := Next();
      assert View() == v;
    }

    /** The loop of `dos_event_set`, over all waiters. */
    method VisitAll() returns (visited: seq<Task>)
      requires pos <= |items|
      modifies this
      ensures View() == Walk(old(View()), |old(items)|)
      ensures visited == Ahead(old(items), old(pos))
    {
      visited := [];
      ghost var order := Ahead(items, pos);
      var value := |items|;
      assert order[..value] == order;
      while value > 0
        invariant pos <= |items| && 0 <= value <= |items|
        invariant Walk(View(), value) == Walk(old(View()), |old(items)|)
        invariant visited + Ahead(items, pos)[..value] == order
      {
        ghost var rest := Ahead(items, pos)[..value];
        var t := Round(value);
        assert visited + rest == (visited + [t]) + Ahead(items, pos)[..value - 1];
        visited := visited + [t];
        value := value - 1;
      }
      assert Ahead(items, pos)[..0] == [];
    }

    /** `dos_event_set`: `visited` lists the waiters in the order of the visits. */
    method SetEvent(bits: Flags) returns (left: Flags, visited: seq<Task>)
      requires pos <= |items|
      modifies this
      ensures View() == SetFlags(old(View()), bits)
      ensures left == if bits == {} then {} else flag
      ensures visited == if bits == {} then [] else Ahead(old(items), old(pos))
    {
      if bits == {} {
        return {}, [];
      }
      ledger := ledger.(raised := ledger.raised + multiset(bits - flag));
      flag := flag + bits;
      visited := VisitAll();
      left := flag;
    }
  }
}
