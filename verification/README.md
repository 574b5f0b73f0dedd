# DoraOS kernel and lwIP buffers in Dafny

This project models the timing, scheduling and communication core of the DoraOS kernel, its heap and
its byte fifo, and three lwIP components that ship with it: the first-fit heap, the packet buffers
(pbufs) and the Internet checksum. Each part is a value-level model of the state and of every
operation on it, theorems about all operations and all runs, and, where the code updates a structure
in place, a class whose methods follow the code step by step and are proved to do to the structure
what the value-level operation does to the value.

| files | part |
|---|---|
| `Machine`, `Cyclic`, `PendList`, `Runs` | bytes and wrapping words, positions in a ring, where a waiter goes in a pend list, runs as sequences |
| `TaskList` | the circular doubly linked list with sentinel and cursor |
| `Scheduler`, `Kernel` | ready lists, priority bitmap, the two sleep lists, the tick |
| `Mutex`, `MutexRuns` | recursive mutex with priority inheritance and hand-off |
| `MessageQueue`, `QueueClock`, `QueueRuns`, `Event` | message queue, the queue on the scheduler's clock, event group |
| `Fifo` | byte fifo with free-running 32-bit indices |
| `DoraHeap`, `DoraMem` | the kernel's best-fit heap |
| `LwipHeap`, `LwipMem` | lwIP's first-fit heap |
| `Checksum` | the three checksum algorithms, chains, pseudo headers |
| `PbufRefs`, `PbufTotals`, `PbufBytes`, `Pbuf`, `PbufState` | pbufs as values: counts, totals, contents, all of it at once |
| `PbufPool`, `PbufAlloc`, `PbufCopy`, `PbufRuns` | the pbuf operations in place, and runs that show what goes wrong |

Conventions. Integers are unbounded; a width that matters is written out (`WORD`, `HALF_WORD`,
`BYTE`, `Add32`, `Word`, `Count16`). A run is a sequence of operations, each of which meets the
conditions its callers guarantee (`Enabled`, `Allowed`); `Feasible` says that every step of a run
does, `Exec` is its end. Null arguments and failed allocations are modelled where the code handles
them. `dafny verify dfyconfig.toml` checks the whole project.

## Findings

Properties the code is meant to have and does not have in general. For each: a lemma that says
exactly when it holds, and a concrete input on which it fails.

| property | source | holds exactly if | fails |
|---|---|---|---|
| the mutex owner is never at a worse priority than one of its waiters | `src/mutex.c:99-102` | no waiter comes whose priority lies strictly between that of a task already waiting and the one the owner took the mutex with (`Mutex.InheritanceExact`, `Mutex.StepInheritance`) | `MutexRuns.CrossingBreaksInheritance`: a run from system start |
| the mutex count is the number of pends minus posts | `src/mutex.c:87-91` | the depth stays below 65536 (`Mutex.ReenterGood`) | `MutexRuns.ReenterWraps`: after 65535 pends |
| the mutex belongs to a task whose pend succeeded | `src/mutex.c:108-116`, `src/mutex.c:153-158` | no post hands it to a first waiter whose wait has timed out and that has not run since (`Mutex.StepCountedIff`, `Mutex.RunCountsIff`) | `MutexRuns.TimeOutLosesMutex`: a run from system start after which the mutex is lost for good |
| tokens and messages of a queue add up to its length | `src/queue.c:88-94`, `src/queue.c:102-110` | no signal goes to a first waiter whose wait has timed out and that has not run since (`MessageQueue.TokensKeptIff`, `MessageQueue.RunConservesIff`, `QueueClock.TokenLostIff`) | `QueueRuns.TimeOutLosesToken`: a message nobody can read |
| a flag that is cleared is returned by the call it is cleared for | `src/event.c:135-143`, `src/event.c:173-179` | no set serves a waiter whose wait has timed out, that has not run since and that clears its flags (`Event.FlagsKeptIff`, `Event.RunKeepsFlagsIff`) | `Event.TimeOutLosesFlag`: a run on a new event group |
| the nodes of the DoraOS heap tile it | `mem/mem.c:95-117` | the allocation finds no node or cuts the one it finds (`DoraHeap.AllocKeepsInvIff`, `DoraHeap.TakenSaneIffCut`) | `DoraHeap.UncutBreaksTiling` |
| an aligned request covers the request | `mem/mem.c:71` | the request is at most 0xFFFFFFFC (`DoraHeap.AlignCovers`) | the three larger ones, which align to 0 |
| a pbuf counts the references to it | `common/lwip/core/pbuf.c:828-836` | the count is below 255 (`PbufRefs.ReferencedInv`, `PbufState.RefTheorem`) | `PbufRuns.RefWraps`: after 255 references |
| `pbuf_dechain` answers NULL exactly if the rest is gone | `common/lwip/core/pbuf.c:912-940` | it freed no pbuf, or a number that is no multiple of 256 (`PbufRefs.DechainTells`) | `PbufRuns.DechainMisleads` |
| `tot_len` is `len` plus the successor's `tot_len`, after `pbuf_cat` | `common/lwip/core/pbuf.c:852-875` | the second chain is empty, or nothing else links into the first and the sum has 16 bits (`PbufState.CatTheorem`) | `PbufRuns.CatMiscounts`, `PbufRuns.CatOverflows16` |
| the same after `pbuf_dechain` | `common/lwip/core/pbuf.c:912-940` | the rest is empty or nothing links to the pbuf (`PbufState.DechainTheorem`) | `PbufRuns.DechainMiscounts` |
| the same after `pbuf_realloc` | `common/lwip/core/pbuf.c:401-459` | it keeps all bytes, or nothing else links into the pbufs kept (`PbufState.ReallocTheorem`) | `PbufRuns.ReallocMiscounts` |
| the same after `pbuf_free_header` | `common/lwip/core/pbuf.c:670-688` | each pbuf dropped had one reference or nothing behind it, and only dropped ones linked to the pbuf that loses bytes (`PbufState.FreeHeaderTheorem`) | `PbufRuns.FreeHeaderMiscounts` |
| `pbuf_copy` succeeds if the source is no longer than the destination | `common/lwip/core/pbuf.c:960-1012` | neither chain ends with empty pbufs, or they are placed as `PbufCopy.Succeeds` says (`PbufCopy.Copy`) | `PbufCopy.RefusesTrailingEmpty`, `PbufCopy.TrailingEmptyRefused` |

Where the code and its comments disagree, the model follows the code: `pbuf_copy`'s tests for a
packet queue take a chain that ends with empty pbufs for a queue, and `dos_mem_alloc` looks for a node
strictly larger than the request, so that its branch for one of exactly the size is never taken.

## Model

| member | source | states |
|---|---|---|
| TaskList.SlotUnique | src/list.c:26-32 | the place the walk stops at is the only one with no greater value in front and a greater one behind |
| TaskList.InsertedStable | src/list.c:26-37 | a place is that one if and only if insertion there keeps the list sorted and puts the item behind every equal one |
| TaskList.LinksInserted | src/list.c:34-41 | after the four pointer stores the ring is the old one with the item in its place, forwards and backwards |
| TaskList.LinksRemoved | src/list.c:49-60 | after the unlinking stores the ring is the old one without the item |
| TaskList.FullTurnVisitsEachOnce | src/task.c:499-508 | n successive steps of the cursor over n items visit every position once |
| TaskList.TaskList.constructor | src/list.c:79-89 | an empty ring, the cursor on the sentinel |
| TaskList.TaskList.Place | src/list.c:24-32 | the walk ends, for every value up to 0xFFFFFFFF, at the stable sorted place |
| TaskList.TaskList.Insert | src/list.c:21-42 | terminates; a stable sorted insertion that leaves the cursor where it was |
| TaskList.TaskList.Delete | src/list.c:45-66 | exactly that item leaves; a cursor on it steps back; nothing happens to an unlinked item |
| TaskList.TaskList.GetFirst | src/task.c:486-493 | the first item, or the sentinel of an empty list |
| TaskList.TaskList.GetNext | src/task.c:499-508 | the item behind the cursor, stepping over the sentinel |
| TaskList.TaskList.FullTurn | src/task.c:499-508 | as many calls as there are items return a permutation of them, in list order from behind the cursor |
| Scheduler.ApplyKeepsInv | src/task.c:158-707 | every operation keeps: a task is on a list if and only if its list field names it, lists are sorted, bit p set iff ready list p is not empty, READY iff on the ready list of the current priority, DELAY iff on a sleep list, wake times within one turn of the counter and not before the cached next wake tick |
| Scheduler.WrapFindsListEmpty | src/task.c:260-283 | when the tick wraps, the current sleep list is empty, so the lists are always swapped |
| Scheduler.TickSpec | src/task.c:656-707 | a tick makes ready exactly the tasks with one tick left, marks those that waited as timed out, and takes one tick off every other |
| Scheduler.WakeDueWakes | src/task.c:674-703 | the wake loop wakes exactly the tasks due and leaves the cached next wake tick a lower bound of the rest |
| Scheduler.WakesExactlyOnTime | src/task.c:170-205 | a task that sleeps n ticks, 1 <= n < 2^32, or waits with a timeout of n ticks, in any run in which it is not woken or deleted, is not ready before the n-th tick and is ready right after it, across any number of wraps |
| Scheduler.StaysDelayed | src/task.c:656-707 | over every run a delayed task keeps exactly as many ticks as it had minus those that passed |
| Scheduler.RunRefinesDeadlines | src/task.c:170-283 | over every run the two sleep lists with wrapping values behave as one map of deadlines over a clock that never wraps |
| Scheduler.ApplyRefinesStanding | src/task.c:310-707 | every operation changes the priority and the READY, SUSPEND and TIMEOUT bits of the tasks as a plain map of them would: a new task is ready, a deleted one gone, a woken one ready and not suspended, one whose time is up ready and timed out if it was suspended |
| Scheduler.HighestPriorityLeast | src/task.c:135-152 | the table look-up finds the lowest set bit of every non-zero 32-bit word |
| Scheduler.PicksFirstReadyList | src/task.c:616-628 | in every state that satisfies the invariant the priority picked is that of the first non-empty ready list |
| Scheduler.NoSwitchRunsHighest | src/task.c:616-645 | if no switch is asked for, the running task is ready and no ready task is better |
| Scheduler.SwitchIff | src/task.c:616-645 | a switch is asked for if and only if the running task is not ready, a ready task is better, or the slice is over and another ready task has the same priority |
| Scheduler.DispatchBest | src/task.c:601-614 | a ready task than which no other is better is on the list the scheduler picks from |
| Scheduler.SuspendedFrame | src/task.c:523-549 | a task suspended for ever changes only by its own wake-up, deletion or change of priority |
| PendList.InLineInserted | src/list.c:26-37 | a newcomer goes behind every waiter of the same or a better creation priority, so that waiters of the same priority stand in order of arrival |
| PendList.InLineWithout | src/list.c:45-66 | a waiter that leaves keeps the others in that order |
| Scheduler.PriorityFrame | src/task.c:567-584 | nothing but dos_set_task_priority changes a priority |
| Scheduler.ResumeKeepsInv | src/queue.c:87-94 | a running task that clears TIMEOUT and SUSPEND after a timed-out wait keeps the invariant |
| Kernel.Kernel.InsertPriorityList | src/task.c:158-168 | does to lists, bitmap and status what the value-level operation says |
| Kernel.Kernel.InsertSleepList | src/task.c:170-205 | the same; the idle task does not sleep |
| Kernel.Kernel.TaskWait | src/task.c:523-549 | the same, with and without a timeout |
| Kernel.Kernel.TaskWake | src/task.c:555-564 | the same |
| Kernel.Kernel.TaskResume | src/mutex.c:108-116 | answers whether the wait timed out, and then clears the status |
| Kernel.Kernel.SetTaskPriority | src/task.c:567-584 | the same, for a ready task and for one that is not |
| Kernel.Kernel.TaskDelete | src/task.c:378-434 | the same, for lists, bitmap and status |
| Kernel.Kernel.SwitchSleepList | src/task.c:260-283 | the same |
| Kernel.Kernel.TickUpdate | src/task.c:656-707 | the same, wake loop included |
| Mutex.MutualExclusion | src/mutex.c:65-169 | over every run, with waits of any length and hand-offs to waiters that have timed out, at most one task holds the mutex; it is the owner, and the count is what it holds or one more; nobody waits while the mutex is free |
| Mutex.StepCountedIff | src/mutex.c:122-169 | a step leaves the count equal to the owner's pends minus posts if and only if it is not a post that hands the mutex to a waiter that has timed out |
| Mutex.RunCounts | src/mutex.c:65-169 | in every run without such a post the count is the owner's pends minus posts |
| Mutex.HeldIsPendsMinusPosts | src/mutex.c:65-169 | over every run in which tasks post only what they hold, what a task holds is its pends that succeeded less its posts that were accepted, both counted from the calls and their answers |
| Mutex.EvenRunsFree | src/mutex.c:65-169 | a mutex that was free and that each task has posted as often as its pends succeeded is free again, in runs without such a post |
| Mutex.PendBlocks | src/mutex.c:93-106 | a pend on a mutex of another task is refused without a timeout; with one its task, whatever its priority, goes to its place in the pend list and is suspended for so many ticks or for ever |
| Mutex.RunCountsIff | src/mutex.c:65-169 | if tasks post only what they hold, it is so at the end of a run if and only if the run has no such post |
| Mutex.LostForEver | src/mutex.c:108-116 | after such a post the mutex stays with its owner in every run in which tasks post only what they hold |
| Mutex.PatientRunsCount | src/mutex.c:65-169 | runs whose waits are of zero or for ever have no such post |
| Mutex.HandsToFirstWaiter | src/mutex.c:143-164 | the last post makes owner, at count one, the waiter created with the best priority, of those the one that came first |
| Mutex.WaiterLends | src/mutex.c:99-102 | a waiter better than the owner was when it took the mutex leaves the owner at its own priority |
| Mutex.HandOffGood | src/mutex.c:153-158 | a hand-off keeps the invariant, and leaves the count right if and only if the first waiter has not timed out |
| Mutex.GiveUpGood | src/mutex.c:108-116 | a waiter that has timed out and leaves the pend list keeps it |
| Mutex.WaiterFrame | src/task.c:656-707 | a waiter that is not woken, deleted or running stays suspended, and is ready only if timed out |
| Mutex.ReleaseRestoresPriority | src/mutex.c:148-151 | the last post brings the owner back to the priority it was created with |
| Mutex.InheritanceExact | src/mutex.c:99-106 | blocking keeps the owner at least as good as every waiter, if and only if the newcomer does not cross |
| Mutex.StepInheritance | src/mutex.c:65-169 | the same for every step of a run |
| Mutex.RunInheritance | src/mutex.c:65-169 | in every run without a crossing pend the owner is never worse than a waiter nor than it was created |
| Mutex.ReenterGood | src/mutex.c:87-91 | taking it again keeps the invariant if and only if the 16-bit count does not wrap |
| Mutex.FreshMutexGood | src/mutex.c:20-40 | a new mutex satisfies the invariant, and what the theorems on runs ask of the first state |
| Mutex.MutexLock.Pend | src/mutex.c:65-106 | does what the value-level pend says to mutex and kernel, for every timeout; whether the caller holds it on return |
| Mutex.MutexLock.Resume | src/mutex.c:108-118 | tells a task that blocked and runs again whether it has timed out, and takes it off the pend list if so |
| Mutex.MutexLock.Post | src/mutex.c:122-169 | does what the value-level post says; refused for all but the owner |
| MutexRuns.CrossingBreaksInheritance | src/mutex.c:99-102 | a feasible run from system start ends with the owner at priority 5 and a waiter at 3 |
| MutexRuns.ReenterWraps | src/mutex.c:87-91 | after 65535 pends, all within the invariant, the next one makes the count of the held mutex zero |
| MutexRuns.TimeOutLosesMutex | src/mutex.c:108-116 | a feasible run from system start, in which a wait times out, the owner posts and the waiter runs and returns DOS_NOK, leaves the mutex with it at count one, and so does every later run in which tasks post only what they hold |
| MessageQueue.ReadsArePrefixOfWrites | src/queue.c:15-113 | over every interleaving there are as many reads as readers have copied and at most a queue length more messages, and the j-th read delivers as many bytes as its call asked for, at most a slot, of the j-th message a writer was called with, calls and messages being taken from the operations of the run |
| MessageQueue.RunNotes | src/queue.c:15-40 | what the buffer records as sent and asked for is what the calls of the run were made with, in the order of their copies |
| MessageQueue.CallOutcome | src/queue.c:51-97 | a call of no bytes is refused; any other gets a token if there is one, and otherwise waits or, without a timeout, is refused |
| MessageQueue.TokensConserved | src/queue.c:66-113 | over every interleaving, waits of any length included, free places, reserved writers, unsignalled readers, stored messages and lost tokens add up to the length, and nobody waits while its counter is not zero |
| MessageQueue.TokensKeptIff | src/queue.c:102-110 | a step keeps the tokens if and only if it does not signal a first waiter that has timed out |
| MessageQueue.RunLoses | src/queue.c:66-113 | a run loses exactly as many tokens as it wakes waiters too late |
| MessageQueue.RunConservesIff | src/queue.c:66-113 | so it keeps the tokens if and only if it wakes none too late |
| MessageQueue.PatientRunsConserve | src/queue.c:66-113 | which it never does if all calls wait for ever or not at all |
| MessageQueue.WakesBestWaiter | src/queue.c:102-110 | a token goes to the waiter created with the best priority, of those with the same to the one that came first |
| MessageQueue.WritesFreeSlot | src/queue.c:26-38 | a writer never writes into a slot that is still to be read |
| MessageQueue.GrantedReaderHasMessage | src/queue.c:66-98 | a reader with a token finds a message |
| MessageQueue.GrantedWriterHasRoom | src/queue.c:66-98 | a writer with a token finds a free slot |
| MessageQueue.Queue.constructor | src/queue.c:121-160 | an empty queue with all places free |
| MessageQueue.Queue.Begin | src/queue.c:51-97 | takes a token, queues up, or is refused, as the value-level step says, for waits of any length |
| MessageQueue.Queue.CopyOut | src/queue.c:15-40 | delivers the slot at the read pointer, cut to the reader's size, and moves on |
| MessageQueue.Queue.CopyIn | src/queue.c:15-40 | overwrites the first bytes of the slot at the write pointer and moves on |
| MessageQueue.Queue.Finish | src/queue.c:102-110 | wakes the first waiter of the other side or raises its counter |
| MessageQueue.Queue.Resume | src/queue.c:87-94 | tells a waiter that runs again whether it has timed out, and takes it off its pend list if so |
| QueueRuns.TimeOutLosesToken | src/queue.c:87-110 | a feasible run on a new queue after which a message is stored, nobody is in a call, and the next reader is refused or blocks |
| QueueClock.StepTied | src/queue.c:84-110 | the queue's waiters and the status bits of their tasks agree after every section of a call, tick, or other operation of the scheduler |
| QueueClock.RunRefinesQueue | src/queue.c:51-113 | every run on the scheduler's clock does to the queue what a run of the queue by itself does |
| QueueClock.TimesOutExactlyOnTime | src/queue.c:84-94 | a call with n ticks to wait that no signal reaches waits through n - 1 of the following ticks and has timed out right after the n-th, whatever else happens |
| QueueClock.TokenLostIff | src/queue.c:102-110 | a step loses a token if and only if it signals a waiter that the tick has marked TIMEOUT |
| QueueClock.FreshTied | src/queue.c:121-160 | a new queue agrees with any kernel |
| Event.SetServesEachOnce | src/event.c:167-187 | from any cursor position each waiter is visited exactly once, although served ones leave during the walk; the list loses exactly the served ones, and none of the others is satisfied by the flags left |
| Event.ServedCleared | src/event.c:40-45 | the flags a served waiter asked to clear are gone after the walk |
| Event.NoFlagTakenTwice | src/event.c:40-45 | what a served waiter clears is not among what a later one gets that waits for all its flags |
| Event.NobodyWaitsInVain | src/event.c:91-187 | after every run of sets, waits and time-outs no waiter's condition is met, and none waits twice |
| Event.FlagsConserved | src/event.c:91-187 | over every run, each raising of a flag is still up, was cleared for a call that returned it (by SetReports and WaitReports), or was cleared for a call that returned 0 |
| Event.SetReports | src/event.c:173-179 | a flag that a set counts as returned is among what a call returns that the set serves and that asked to clear it |
| Event.WaitReports | src/event.c:40-45 | a flag that a call counts as returned was up and is among what the call returns |
| Event.SetLeaves | src/event.c:40-45 | after a set a flag is up if and only if it was up or is set, and no served waiter asked to clear it |
| Event.WaitOutcome | src/event.c:91-131 | a call clears exactly the flags it returns, unless it keeps them; one that is not answered queues up if it may, and clears nothing |
| Event.MetMeans | src/event.c:23-33 | a call for any flag needs one of them up, a call for all needs all, a call for neither or both never succeeds |
| Event.ServedIff | src/event.c:173-181 | a waiter is served if and only if its condition is met by what those in front of it have left |
| Event.WaitersInLine | src/event.c:130 | over every run the waiters stand in order of creation priority, those of the same in the order in which they came |
| Event.GiveUpLeaves | src/event.c:135-143 | a task that gives up is off the list, and the cursor reaches the others in the order it would have |
| Event.WaitKeepsOrder | src/list.c:26-37 | the same for a task that queues up |
| Event.FlagsKeptIff | src/event.c:167-187 | a step does the last if and only if it serves a waiter that has timed out and clears flags |
| Event.RunKeepsFlagsIff | src/event.c:91-187 | the same for runs |
| Event.PatientRunsKeepFlags | src/event.c:91-187 | runs whose waits are for ever or not at all never do |
| Event.ServedAnswer | src/event.c:173-179 | a served waiter's call will return what it waited for, or 0 if it has timed out |
| Event.AnswerStays | src/event.c:135-146 | no other step changes what a task that is off the list will return |
| Event.TimeOutLosesFlag | src/event.c:135-143 | a feasible run on a new event group after which the flag, raised once, is down, nobody waits, and no call has returned it |
| Event.EventGroup.Check | src/event.c:17-45 | answers whether the condition is met, and only then takes the flags |
| Event.EventGroup.Await | src/event.c:91-131 | answers at once, is refused or queues up, as the value-level step says |
| Event.EventGroup.Resume | src/event.c:133-146 | returns what the value-level step says, and takes a task that has timed out off the list |
| Event.EventGroup.SetEvent | src/event.c:152-187 | does what the value-level step says, visiting the waiters in the order of the list from the cursor |
| Fifo.FindLastBitSet | common/salof/fifo.c:11-43 | the number of bits of every 32-bit word |
| Fifo.FifoSize | common/salof/fifo.c:45-66 | the greatest power of two not above the request |
| Fifo.NestedPos | common/salof/fifo.c:107-109 | masking an index that has wrapped at 2^32 gives the cell of the running total |
| Fifo.BytesInOrder | common/salof/fifo.c:94-140 | over every interleaving of one writer and one reader, byte by byte and across all wraps, what came out is a prefix of what went in, and the rest, at most a bufferful, is in the buffer in order |
| Fifo.RunRefinesPlain | common/salof/fifo.c:94-140 | over every such interleaving it takes in and gives out the bytes that a plain queue of that size does, which sizes a write and a read when they begin |
| Fifo.CopiedInStores | common/salof/fifo.c:107-109 | copying byte by byte comes to the same as the two copies in one go |
| Fifo.ByteFifo.constructor | common/salof/fifo.c:50-92 | an empty fifo of that size |
| Fifo.ByteFifo.Write | common/salof/fifo.c:94-116 | appends the beginning of the data, as much as there is room for |
| Fifo.ByteFifo.Read | common/salof/fifo.c:118-140 | takes the oldest bytes, as many as there are |
| DoraHeap.AlignCovers | mem/mem.c:71 | the aligned request covers the request if and only if the 32-bit sum does not wrap |
| DoraHeap.Best | mem/mem.c:73-84 | the node found is a smallest free one strictly larger than the request, of equal ones the nearest to the tail; none if there is none |
| DoraHeap.TakenSaneIffCut | mem/mem.c:95-117 | an allocation keeps the heap tiled with no two free neighbours if and only if it cuts the node, and it cuts if and only if more than a header is left |
| DoraHeap.ReleasedSane | mem/mem.c:162-178 | a release keeps it so and gives back exactly the bytes of the node |
| DoraHeap.ReleaseUndoesTake | mem/mem.c:95-178 | a release right after an allocation that cut restores the nodes |
| DoraHeap.AllocKeepsInvIff | mem/mem.c:54-123 | the free count stays right in any case, the rest if and only if no node was found or it was cut |
| DoraHeap.UncutBreaksTiling | mem/mem.c:96-114 | a heap of 100 bytes and a request of 88 that leave the nodes not tiling it |
| DoraHeap.RunKeepsHeap | mem/mem.c:54-181 | in every run whose allocations cut, no two nodes overlap, all lie in the heap, no two free ones are neighbours |
| DoraHeap.HeldExactly | mem/mem.c:54-181 | a step adds exactly the node allocated to those in use, or removes exactly the one released |
| DoraMem.Heap.constructor | mem/mem.c:195-233 | one free node over the whole heap |
| DoraMem.Heap.Search | mem/mem.c:73-84 | walking the links from the tail finds that node |
| DoraMem.Heap.NextNode | mem/mem.c:32-40 | for the k-th node of the list the (k+1)-th, and none for the last, found from its size alone |
| DoraMem.Heap.Alloc | mem/mem.c:54-123 | the stores into the headers do what the value-level allocation says |
| DoraMem.Heap.Free | mem/mem.c:137-181 | null and unused nodes are refused; otherwise the stores do what the value-level release says |
| LwipHeap.RoundedLeast | common/lwip/core/mem.c:844-857 | a 16-bit size is refused exactly if it exceeds the heap, and otherwise becomes the least legal size that holds it |
| LwipHeap.TakenSane | common/lwip/core/mem.c:886-950 | an allocation keeps the heap sane and the lowest free block what lfree says |
| LwipHeap.ReleasedSane | common/lwip/core/mem.c:669-686 | a release keeps the heap sane, with the lower of the released and the lowest free block as the new one |
| LwipHeap.TrimmedSane | common/lwip/core/mem.c:699-820 | trimming keeps the heap sane, and its rule for lfree gives the lowest free block |
| LwipHeap.TakenUses | common/lwip/core/mem.c:891-930 | an allocation uses up the size and a header of the unused bytes, or the whole block if what is left cannot hold a header and the minimum |
| LwipHeap.ReleasedGives | common/lwip/core/mem.c:474-510 | a release gives back the block's bytes, and a header for each unused neighbour |
| LwipHeap.TrimmedGives | common/lwip/core/mem.c:753-815 | trimming gives back all that is beyond the size to an unused successor, all but a header otherwise, and nothing if that is too small |
| LwipHeap.HoldsDisjoint | common/lwip/core/mem.c:568-607 | two held blocks never overlap, headers included |
| LwipHeap.ApplyInv | common/lwip/core/mem.c:616-976 | every operation keeps: blocks tile the heap, none below the minimum size, no two unused neighbours, lfree the lowest unused block, the blocks in use are those held and hold what was asked for |
| LwipHeap.HeldNeverOverlaps | common/lwip/core/mem.c:616-976 | over every run what callers hold is aligned, inside the heap and disjoint |
| LwipHeap.HeldNeverWastes | common/lwip/core/mem.c:616-976 | over every run, what is left of a held block behind the bytes asked for, rounded, cannot hold a header and the minimum size |
| LwipHeap.OthersStay | common/lwip/core/mem.c:616-976 | an operation changes what is held at one offset only |
| LwipHeap.UsedIsHeld | common/lwip/core/mem.c:616-976 | the blocks marked used are those held |
| LwipHeap.FreeUndoesMalloc | common/lwip/core/mem.c:669-950 | releasing what was just allocated restores blocks, lfree and what is held exactly |
| LwipMem.BlocksLinked | common/lwip/core/mem.c:551-564 | every block of a sane heap passes mem_link_valid |
| LwipMem.Heap.constructor | common/lwip/core/mem.c:516-545 | one unused block up to the end marker |
| LwipMem.Heap.PlugHoles | common/lwip/core/mem.c:474-510 | the pointer stores merge the block with its unused neighbours and fix lfree |
| LwipMem.Heap.LinkValid | common/lwip/core/mem.c:551-564 | the test on the stored links |
| LwipMem.Heap.Free | common/lwip/core/mem.c:617-686 | null, misaligned and outside pointers and those behind an unused header, be it of a block or left over from one merged, are refused; a held block is released as the value-level operation says and its header left unused |
| LwipMem.Heap.FreeTwice | common/lwip/core/mem.c:617-686 | releasing a held block twice comes to releasing it once |
| LwipMem.Heap.Scan | common/lwip/core/mem.c:866-890 | although it starts at lfree and stops near the end, the scan finds the lowest block that fits, if there is one |
| LwipMem.Heap.Malloc | common/lwip/core/mem.c:831-976 | NULL if and only if the size is 0 or exceeds the heap or no block fits; otherwise the lowest one |
| LwipMem.Heap.Trim | common/lwip/core/mem.c:699-820 | NULL if and only if the new size does not fit into the block; otherwise as the value-level operation says |
| Checksum.SumFits | common/lwip/core/inet_chksum.c:116-173 | up to 0x20000 bytes the 32-bit accumulator does not overflow |
| Checksum.WireIsSwapped | common/lwip/core/inet_chksum.c:74-114 | the sum in network order is the byte-swapped sum in host order, in ones' complement (section 2 of RFC 1071) |
| Checksum.Version1 | common/lwip/core/inet_chksum.c:80-114 | the ones' complement sum of the bytes |
| Checksum.Version2 | common/lwip/core/inet_chksum.c:133-173 | the same value, at even and odd addresses |
| Checksum.Version3 | common/lwip/core/inet_chksum.c:189-255 | the same value, at any address and for any length |
| Checksum.ChainChecksum | common/lwip/core/inet_chksum.c:568-588 | the checksum of the concatenated bytes, however cut into fragments, odd and empty ones included |
| Checksum.PseudoChecksum | common/lwip/core/inet_chksum.c:260-327 | the checksum of pseudo header and data as one buffer |
| Checksum.PartialChecksum | common/lwip/core/inet_chksum.c:399-473 | the same over the first chksum_len bytes, although the swap is decided by the uncut length |
| PbufRefs.FreedExactly | common/lwip/core/pbuf.c:725-800 | pbuf_free deallocates exactly the longest run at the head whose counts reach zero, takes one reference off the pbuf behind it and changes nothing else |
| PbufRefs.ReferencedInv | common/lwip/core/pbuf.c:829-836 | the count stays right if and only if it is below 255 |
| PbufRefs.DechainTells | common/lwip/core/pbuf.c:912-940 | the answer is right if and only if the number of pbufs freed is 0 or no multiple of 256 |
| PbufRefs.RunKeepsCounts | common/lwip/core/pbuf.c:670-940 | over every run each live pbuf counts its handles and the pbufs linked to it, no link leads to a freed pbuf, and a caller can reach every live one |
| PbufRefs.StepHolds | common/lwip/core/pbuf.c:670-940 | a step changes what callers hold by the reference it gives and the one it takes |
| PbufRefs.NothingHeldNothingLeft | common/lwip/core/pbuf.c:725-800 | once callers hold nothing, nothing is allocated |
| PbufState.CatTheorem | common/lwip/core/pbuf.c:853-875 | the new chain, its bytes are those of both, all other pbufs are untouched, and all totals right if and only if the condition |
| PbufState.DechainTheorem | common/lwip/core/pbuf.c:912-940 | the pbuf alone with its bytes, the rest as it was if still held, all other pbufs untouched, and all totals right if and only if the condition |
| PbufState.ReallocTheorem | common/lwip/core/pbuf.c:402-459 | never longer; the first n bytes in the fewest pbufs that have them, but one at least, all other pbufs untouched, and all totals right if and only if the condition |
| PbufState.FreeHeaderTheorem | common/lwip/core/pbuf.c:671-688 | the chain without its first n bytes and without the pbufs, from the head on, that these use up; only the new head is touched, and all totals right if and only if the condition |
| PbufState.FreeTheorem | common/lwip/core/pbuf.c:725-800 | no total that stays becomes wrong, and what is left of the chain is as it was |
| PbufState.RefTheorem | common/lwip/core/pbuf.c:829-836 | totals stay right, counts if and only if below 255 |
| PbufState.AllocTheorem | common/lwip/core/pbuf.c:235-269 | a new chain stands for its payloads, with all totals right |
| PbufState.RunKeepsTotals | common/lwip/core/pbuf.c:224-940 | over every run whose steps meet those conditions tot_len of each live pbuf is the number of bytes of the chain it heads |
| PbufPool.Pool.Ref | common/lwip/core/pbuf.c:829-836 | the count in eight bits |
| PbufPool.Pool.Free | common/lwip/core/pbuf.c:725-800 | the loop does what the value-level operation says and returns the number freed in eight bits |
| PbufPool.Pool.Cat | common/lwip/core/pbuf.c:853-875 | the loop raises every total of the first chain and links it; null arguments change nothing |
| PbufPool.Pool.Chain | common/lwip/core/pbuf.c:895-901 | the same, and the caller keeps its reference; without a first chain only the reference is added |
| PbufPool.Pool.Dechain | common/lwip/core/pbuf.c:912-940 | the stores do what the value-level operation says, with the eight-bit answer |
| PbufPool.Pool.Realloc | common/lwip/core/pbuf.c:402-459 | the loop and the stores do what the value-level operation says |
| PbufPool.Pool.RemoveHeader | common/lwip/core/pbuf.c:582-613 | refused, with nothing changed, if and only if there is no pbuf or it has fewer bytes; otherwise both lengths shrink and the payload starts later |
| PbufPool.Pool.FreeHeader | common/lwip/core/pbuf.c:671-688 | the loop does what the value-level operation says and returns the new head |
| PbufPool.Pool.Skip | common/lwip/core/pbuf.c:1152-1166 | the pbuf that holds the byte at an offset and its place there; NULL if and only if there is none |
| PbufPool.Pool.GetAt | common/lwip/core/pbuf.c:1389-1399 | the byte at an offset of the concatenated bytes, if any |
| PbufPool.Pool.CopyPartial | common/lwip/core/pbuf.c:1027-1057 | those bytes of the concatenation, as many as there are; the rest of the buffer stays |
| PbufPool.Pool.Take | common/lwip/core/pbuf.c:1196-1226 | refused if too long; otherwise the chain's first bytes are the given ones and nothing else changes |
| PbufPool.Pool.TakeAt | common/lwip/core/pbuf.c:1240-1262 | the same at an offset |
| PbufPool.Pool.MemCmp | common/lwip/core/pbuf.c:1434-1461 | 0 if and only if the bytes are equal, one more than the first difference, 0xFFFF if too short |
| PbufPool.Pool.MemFind | common/lwip/core/pbuf.c:1476-1489 | the first occurrence from the offset on, or 0xFFFF if there is none |
| PbufPool.Pool.WriteThenRead | common/lwip/core/pbuf.c:1027-1262 | pbuf_copy_partial after pbuf_take_at at the same offset returns the bytes written; the chain is as long as before, and every byte in front and behind is unchanged |
| PbufAlloc.AllocPool | common/lwip/core/pbuf.c:235-269 | NULL, with everything given back, if and only if there are fewer pbufs than it takes; otherwise a chain of exactly that many, all but the last full, of the length asked for, with all counts and totals right |
| PbufAlloc.NeededFewest | common/lwip/core/pbuf.c:235-269 | that number is the least whose capacities add up to the length, but one at least |
| PbufCopy.Judged | common/lwip/core/pbuf.c:985-1009 | after every round the tests refuse only copies that do not succeed, and let nothing else through |
| PbufCopy.Copy | common/lwip/core/pbuf.c:961-1012 | refused if a chain is missing or the destination too short; otherwise it succeeds if and only if the condition holds, and then the front of the destination is the source; nothing else changes |
| PbufCopy.TrailingEmptyRefused | common/lwip/core/pbuf.c:996-1008 | lengths 3, 0 into 3 and 3 into 4, 0 do not meet the condition |
| PbufCopy.RefusesTrailingEmpty | common/lwip/core/pbuf.c:961-1012 | so a call with such chains fails although the source fits |
| PbufRuns.RefWraps | common/lwip/core/pbuf.c:829-836 | a run after which one more reference makes a count zero |
| PbufRuns.DechainMisleads | common/lwip/core/pbuf.c:912-940 | a run of single allocations and pbuf_cat after which pbuf_dechain answers with a pbuf that is gone |
| PbufRuns.ReachesShared | common/lwip/core/pbuf.c:853-901 | a run that keeps everything right leads to chains that share pbufs |
| PbufRuns.CatMiscounts | common/lwip/core/pbuf.c:853-875 | there pbuf_cat leaves a wrong total |
| PbufRuns.DechainMiscounts | common/lwip/core/pbuf.c:912-940 | so does pbuf_dechain |
| PbufRuns.ReallocMiscounts | common/lwip/core/pbuf.c:402-459 | so does pbuf_realloc |
| PbufRuns.FreeHeaderMiscounts | common/lwip/core/pbuf.c:671-688 | so does pbuf_free_header |
| PbufRuns.CatOverflows16 | common/lwip/core/pbuf.c:853-875 | a run after which pbuf_cat makes the total of 65536 bytes zero |

## Left out

- Atomic steps: a critical section is one step. Three stretches that run with interrupts enabled are
  one step too: signalling the other side of a queue (src/queue.c:102-110), the walk of dos_event_set
  under the scheduler lock (src/event.c:170-184), and clearing the status after a timed-out wait
  (src/queue.c:89-93). The fifo's copies are steps of one byte each.
- Context switch, stack set-up, PendSV and SysTick, interrupt masks, `hard_ware_clz`: port code; the
  software bit table is modelled.
- The time-slice counter and the cursor of the ready lists: `Dispatch` may pick any task of the best
  ready list.
- Task creation's memory, the recycle list and the freeing of task blocks; a task that deletes itself
  keeps an unused block.
- More than 32 priorities (include/task.h:25-31): not the configured build; priorities are below 32.
- src/swtmr.c, src/sem.c, mem/memp.c: easier relatives of the sleep lists, the queue and the heaps.
- `dos_fifo_read_able` and `dos_fifo_write_able`: not used by reading or writing.
- Logs, formatting, the shell, the rest of lwIP, and the IPv6 pseudo header: easy members or protocol
  code without whole-run invariants.
- Interrupt-context and scheduler-lock refusals: a parameter says whether a call may wait.
- Mutex.MutualExclusion: the depth stays below 65536, as in ReenterGood; the run changes no priority
  except through the mutex and does not delete the task that holds it, which would leave it held for
  ever; other objects do not wake its waiters.
- Mutex.MutexLock.Pend: null arguments and calls from interrupts, which are refused, are not modelled.
- Mutex.MutexLock.Post: the same.
- MessageQueue.TokensConserved: tasks are not deleted in the middle of a call. A wait of finite length
  may time out at any step; QueueClock puts it on the clock.
- MessageQueue.Queue.Begin: null arguments, which are refused, are not modelled.
- MessageQueue.Queue.constructor: a queue of no places or no size and a failed allocation, for which
  there is no queue, are not modelled.
- Kernel.Kernel.TaskWait: the pend item, here and in TaskWake, TaskResume and TaskDelete, is part of the
  mutex, the queue and the event group.
- Kernel.Kernel.TaskWake: as TaskWait.
- Kernel.Kernel.TaskResume: as TaskWait.
- Kernel.Kernel.TaskDelete: as TaskWait; refusals of tasks that are null or unused are not modelled.
- Event.NobodyWaitsInVain: a walk of dos_event_set is one step, see above; a wait of finite length may
  time out at any step.
- MessageQueue.Queue.CopyIn: the buffer is a sequence of slots, not of byte offsets.
- TaskList.TaskList.Delete: item fields are maps per list; an item on another list is one that is not
  a member. Scheduler lists are sequences with the operations proved for the linked list.
- Fifo.ByteFifo.constructor: a request of zero and failed allocations, for which there is no fifo, are
  not modelled.
- Fifo.ByteFifo.Write: the two memcpys are one store; a refused mutex is not modelled.
- Fifo.ByteFifo.Read: a refused mutex is not modelled.
- Fifo.FindLastBitSet: bit masks are comparisons and shifts that lose no bit are multiplications.
- Event.EventGroup.Check: a flag word is the set of its set bits.
- DoraHeap.RunKeepsHeap: runs whose allocations cut; after one that does not the nodes do not tile
  the heap, and nothing is said of later steps.
- DoraMem.Heap.Search: without the branch for a node of exactly the size, which is never taken.
- DoraHeap.HeldExactly: allocations that cut, as in RunKeepsHeap.
- DoraMem.Heap.Free: a pointer that is neither null nor that of a node is not modelled.
- LwipMem.Heap.Free: an aligned pointer into the heap behind which there is no header, where the code
  reads what users have stored, and headers damaged by users are not modelled.
- LwipMem.Heap.Trim: of held blocks; the code asserts that the pointer is in the heap.
- LwipMem.Heap.Malloc: without overflow checks and statistics; mem_sanity itself is the invariant, not
  a method.
- PbufPool.Pool.Realloc: of chains whose totals are right; cuts the link before it releases what is
  behind it, the code does so after.
- PbufPool.Pool.FreeHeader: of chains whose totals are right.
- PbufAlloc.AllocPool: the pool is a sequence of free pbufs with their memory; alignment of the offset
  is in the two sizes.
- PbufCopy.Copy: source and destination share no pbuf.
- Pbuf payloads: a payload is the `len` bytes it has, not a pointer into memory; pbuf types, flags and
  custom free functions are not modelled.
