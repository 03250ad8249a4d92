# libezthread in Dafny

A model of the four parts of libezthread that carry real invariants, with proofs of what they keep.

**The page allocator** (`CPacketManager`). `Binary` and `Buddy` say what the free rings mean: with `F` the
set of free pages, the free nodes are exactly the *maximal aligned blocks* inside `F`. This one equation
gives complete coalescing, canonical form, disjointness and conservation. The point of the proofs is that
it holds not only between calls but at every intermediate state of a get or a put, where `F` is the set of
pages that are free at that moment: each ring operation is a `Take` or a `Give`. `Levels`, `Runs` and `Cuts`
hold the arithmetic of level sizes, of the three-state walk that returns a run and of the walk that cuts one.
`FreeRing` has the circular doubly linked rings, `PageArea` the arrays and the loops over the levels,
`PacketManager` the packets, and `PacketRefs` the reference counts under interleaving. (`Arithmetic`,
`Sequences` and `Options` are small helpers for all parts.)

**The message queue** (`CEZMsgQue`). `MsgMachine` gives each thread a program point and each lock, test, push,
post, wait and pop its own step; `MsgTheorems` and `MsgSources` have what holds over whole runs, and `MsgDiscipline` which
threads may make which calls; `MsgQueue` is the class, whose step methods refine the machine, so that it follows every run
of it, and whose calls are built from them.

**The timers** (`CEZTimer`, `CEZTimerManager`). `TimerClock` has the two-word times and the extension of the
32-bit counter, `TimerSpec` the queue as a sequence with the catch-up loop as a function, `TimerRuns` what many
rounds come to, and `TimerQueue` the doubly linked list and the methods that refine them.

**The hand-off to pooled threads** (`CEZThreadlet`, `CEZPooledThread`). `PoolMachine`, `PoolInvariant` and
`PoolTheorems` are the step machine over the objects of `PooledObjects`, its invariant and its theorems;
`PoolSources` traces each job back to the call that gave it;
`PoolSections` has its critical sections as one piece, and `PooledThread` the methods on linked objects that do
the same, read off by an abstraction function.

## Assumptions

- `m_nPages < 2^30`: beyond that the constructor's `1 << m_nTypes` overflows an `int` before its loop ends. A request
  is small enough that its page count and byte offsets fit an `int`. Indices and sizes are unbounded numbers here.
  Reference counts do not wrap.
- The semaphore is a counting one, as on POSIX, and `Wait` returns only with a token. The Windows build caps it
  at 1, and the queue's token account does not hold there.
- Mutexes exclude. Fields read and written only under one mutex change in one step of the machines where the
  code makes several assignments in a row (a push and its count, a pop and its count).
- The millisecond counter, message time stamps and new object addresses are parameters.
- A timer callback does not start or stop the same timer from inside `Stop(TRUE)`; deadlines do not pass `2^64`.
- Nobody calls `DestroyThread` on a pooled thread, and making a thread succeeds. Nobody uses a threadlet whose
  destructor has been called, or destroys one while a call on it is under way. A callback that itself calls
  `run` acts as one of the clients.
- Clients call `AddRef` and `Release` on a packet only while they hold a reference to it.

## Findings

- A wait for a token under the mutex of the message queue can be for ever. Whether it can is decided by which
  threads make which calls, and can be checked before any call is made (`SafeIff`): it never happens if and only
  if nobody sends, or no thread makes waiting receives while another one receives without waiting or clears. So
  any number of waiting receivers is safe, any number of clearing and polling threads is safe, and one thread
  may do all the consuming; any other mixture deadlocks (`TwoConsumersCanDeadlock`), whichever thread sends.
- The extended clock is right over a tick exactly when less than `2^32` ms passed and a wrap of the counter is
  seen within its first 10000 ms (`TickTracksIff`, `ClockTracksIff`); otherwise it falls back (`LateWrapIsLost`).
- Since the page count of a request is rounded up to a power of two (Packet.cpp line 510), the branches that cut
  and return odd runs are never taken. They are proved right all the same, for every page count (`Carve`,
  `GiveBack`).

## Model

| member | source | states |
|---|---|---|
| `Buddy.CoalescingComplete` | tutorial_libezthread/ezPacket/Packet.cpp:512-525 | a free node of some level from `t` up exists if and only if some aligned run of `2^t` pages is entirely free |
| `Buddy.MaximalDisjoint` | tutorial_libezthread/ezPacket/Packet.cpp:646-662 | two different free nodes share no page |
| `Buddy.NoTwoFreeSiblings` | tutorial_libezthread/ezPacket/Packet.cpp:650-662 | the sibling of a free node is never free, nor wholly made of free pages |
| `Buddy.TakeKeepsCanon` | tutorial_libezthread/ezPacket/Packet.cpp:527-529 | taking a node off its ring leaves on the rings exactly the maximal blocks of the pages that remain |
| `Buddy.GiveKeepsCanon` | tutorial_libezthread/ezPacket/Packet.cpp:646-665 | returning a node whose sibling is not free leaves on the rings exactly the maximal blocks of the larger page set |
| `Buddy.MaximalPartition` | tutorial_libezthread/ezPacket/Packet.cpp:387-424 | every free page lies in exactly one free node |
| `Buddy.RealBlock` | tutorial_libezthread/ezPacket/Packet.cpp:410-421 | a node consists of pages that exist if and only if its index is below `m_nPages >> level`; no other node is ever free |
| `Buddy.BinaryDecomposition` | tutorial_libezthread/ezPacket/Packet.cpp:409-421 | with all pages free, level `i` has the one node `(m_nPages >> i) - 1` if bit `i` of the page count is set, and none otherwise |
| `Buddy.PagesConserved` | tutorial_libezthread/ezPacket/Packet.cpp:387-424 | the sum over the levels of `2^level` times the number of free nodes is the number of free pages |
| `Levels.LevelSizeIsEvenCeiling` | tutorial_libezthread/ezPacket/Packet.cpp:387-424 | rounding up to even and halving, level by level, gives level `i` the even round-up of `ceil(m_nPages / 2^i)` nodes, for every page count |
| `Levels.NodeExists` | tutorial_libezthread/ezPacket/Packet.cpp:535-540 | the node of any existing pages, and its sibling, are inside the array of their level |
| `Levels.InitialNodesAreMaximal` | tutorial_libezthread/ezPacket/Packet.cpp:409-421 | the nodes the constructor starts with are exactly the maximal blocks of all pages |
| `Runs.RunInterval` | tutorial_libezthread/ezPacket/Packet.cpp:501-533 | a granted run is exactly the pages `start .. start + pages` |
| `Runs.StepTake0` | tutorial_libezthread/ezPacket/Packet.cpp:612-616 | state 0, odd node that is free: taking it starts the merge |
| `Runs.StepGive0` | tutorial_libezthread/ezPacket/Packet.cpp:617-621 | state 0, odd node that is not free: its left sibling belongs to the run and may go on its ring |
| `Runs.StepUp1` | tutorial_libezthread/ezPacket/Packet.cpp:608-611 | state 1, odd node: the node in hand grows by its left sibling, which belongs to the run |
| `Runs.StepTake1` | tutorial_libezthread/ezPacket/Packet.cpp:630-635 | state 1, even node with a free right sibling: merging them keeps the walk right |
| `Runs.StepGive1` | tutorial_libezthread/ezPacket/Packet.cpp:636-640 | state 1, even node without one: the node in hand goes on its ring and nothing more can merge |
| `Runs.StepGive2` | tutorial_libezthread/ezPacket/Packet.cpp:623-626 | state 2, odd node: its left sibling belongs to the run and may go on its ring |
| `Runs.TailDone` | tutorial_libezthread/ezPacket/Packet.cpp:605-647 | after the last level the walk has either returned just the run, or holds the whole block for merging; it never ends in state 0 |
| `Runs.MergeSibling` | tutorial_libezthread/ezPacket/Packet.cpp:650-662 | merging with a free sibling doubles the node in hand and keeps the page account |
| `Runs.MergeStops` | tutorial_libezthread/ezPacket/Packet.cpp:656-660 | if the sibling is not a free node, it is not wholly free either, so the node in hand may go on its ring |
| `Runs.TopHasNoSibling` | tutorial_libezthread/ezPacket/Packet.cpp:650-665 | at the top level a sibling would pass the page count, so stopping there is right |
| `Cuts.CutStep` | tutorial_libezthread/ezPacket/Packet.cpp:545-562 | one level of cutting the surplus: the half put on a ring is free pages beyond the run, and the remainder counts down with the bits of the page count |
| `FreeRing.DropBypassed` | tutorial_libezthread/ezPacket/Packet.cpp:685-687 | once the neighbours bypass a node, the rest is a closed ring again |
| `FreeRing.PBA.constructor` | tutorial_libezthread/ezPacket/Packet.cpp:395-408 | a new level has all nodes off the ring and numbered |
| `FreeRing.PBA.StartRing` | tutorial_libezthread/ezPacket/Packet.cpp:411-417 | a level starts with a ring of one node |
| `FreeRing.PBA.InsertFree` | tutorial_libezthread/ezPacket/Packet.cpp:691-707 | the ring gains the node in front, the set of free nodes gains exactly its index, for the empty ring too |
| `FreeRing.PBA.RemoveFree` | tutorial_libezthread/ezPacket/Packet.cpp:672-688 | the ring loses just that node, be it the header, the only one or another, and the set of free nodes loses exactly its index |
| `PageArea.Log2i` | tutorial_libezthread/ezPacket/Packet.cpp:202-211 | the highest set bit: `2^ret <= value < 2^(ret+1)`, and -1 for 0 |
| `PageArea.OrderOf` | tutorial_libezthread/ezPacket/Packet.cpp:504-509 | the least order whose block holds the run |
| `PageArea.SamePagesSameNodes` | tutorial_libezthread/ezPacket/Packet.cpp:568-669 | canonical form: two areas with the same free pages have the same free nodes on every level |
| `PageArea.PageArea.constructor` | tutorial_libezthread/ezPacket/Packet.cpp:387-424 | for every page count the rings list exactly the maximal blocks of all pages, and the levels reach just past the page count |
| `PageArea.PageArea.RemoveFree` | tutorial_libezthread/ezPacket/Packet.cpp:672-688 | taking node `k` of level `i` removes its pages from the free ones and keeps all rings canonical |
| `PageArea.PageArea.InsertFree` | tutorial_libezthread/ezPacket/Packet.cpp:691-707 | putting a node on its ring adds its pages and keeps all rings canonical, given that its sibling is not free |
| `PageArea.PageArea.IsFree` | tutorial_libezthread/ezPacket/Packet.cpp:653-653 | `pNext != NULL` holds exactly for the maximal blocks of the free pages |
| `PageArea.PageArea.FindLevel` | tutorial_libezthread/ezPacket/Packet.cpp:512-519 | no level between the wanted one and the result has a free node |
| `PageArea.PageArea.TakeNode` | tutorial_libezthread/ezPacket/Packet.cpp:512-529 | succeeds if and only if an aligned run of that order is free, and then takes a node of the least level that has one |
| `PageArea.PageArea.Carve` | tutorial_libezthread/ezPacket/Packet.cpp:503-563 | for every page count, power of two or not: the run taken starts the smallest free node that can hold it, of those of its size the one its ring starts with, and exactly its pages leave the free ones |
| `PageArea.PageArea.SplitDown` | tutorial_libezthread/ezPacket/Packet.cpp:535-540 | splitting keeps the start of the node and returns everything but the wanted block |
| `PageArea.PageArea.CutSurplus` | tutorial_libezthread/ezPacket/Packet.cpp:543-563 | of a whole block only the first `pages` pages stay taken |
| `PageArea.PageArea.GiveBack` | tutorial_libezthread/ezPacket/Packet.cpp:588-665 | for every page count, the run becomes free and the rings are canonical again |
| `PageArea.PageArea.ReturnTail` | tutorial_libezthread/ezPacket/Packet.cpp:605-644 | the three-state walk returns the run, or hands over its whole block for merging |
| `PageArea.PageArea.MergeUp` | tutorial_libezthread/ezPacket/Packet.cpp:650-665 | merging ends with exactly the target pages free and canonical rings |
| `PacketManager.ByteFigures` | tutorial_libezthread/ezPacket/Packet.cpp:532-533 | byte offsets and sizes of runs convert back to pages exactly |
| `PacketManager.GrantedSize` | tutorial_libezthread/ezPacket/Packet.cpp:503-510 | the rounded size is at least what was asked, and one page or less than twice what was asked |
| `PacketManager.CPacketManager.AllocPacket` | tutorial_libezthread/ezPacket/Packet.cpp:442-465 | the first idle shell, or one of 1024 new ones whose other 1023 become the idle list |
| `PacketManager.CPacketManager.FreePacket` | tutorial_libezthread/ezPacket/Packet.cpp:467-473 | the shell becomes the first idle one |
| `PacketManager.CPacket.Init` | tutorial_libezthread/ezPacket/Packet.cpp:222-229 | reference count one, no buffer |
| `PacketManager.CPacketManager.GetPacket` | tutorial_libezthread/ezPacket/Packet.cpp:475-566 | null if and only if no aligned free run of the rounded order exists, and then nothing has changed; otherwise a buffer of sufficient size at the start of a smallest sufficient free node, whose pages leave the free ones, in the first idle shell |
| `PacketManager.CPacketManager.PutPacket` | tutorial_libezthread/ezPacket/Packet.cpp:568-669 | exactly the pages of the packet become free, its shell becomes idle, and all else stays |
| `PacketManager.CPacketManager.AddRef` | tutorial_libezthread/ezPacket/Packet.cpp:315-321 | counts one more reference |
| `PacketManager.CPacketManager.Release` | tutorial_libezthread/ezPacket/Packet.cpp:292-313 | counts one less; with the last one the packet goes back; a count of zero is left alone |
| `PacketManager.CPacketManager.PagesAccounted` | tutorial_libezthread/ezPacket/Packet.cpp:475-669 | at all times the pages in free nodes and the pages of live packets add up to `m_nPages` |
| `PacketManager.CPacketManager.AllReturned` | tutorial_libezthread/ezPacket/Packet.cpp:409-421 | whatever the order of returns, once no packet holds pages each ring is what the constructor made it |
| `PacketManager.CPacketManager.GetThenPut` | tutorial_libezthread/ezPacket/Packet.cpp:475-669 | getting a packet and putting it back leaves the free pages, the live packets and the free nodes of every level as they were |
| `PacketRefs.RunKeepsInv` | tutorial_libezthread/ezPacket/Packet.cpp:292-321 | over every interleaving: counts are the references held, dead packets have one client each to put them, pages are kept apart, and each lifetime is put once |
| `PacketRefs.ReferencedPagesNotFree` | tutorial_libezthread/ezPacket/Packet.cpp:292-321 | a packet to which anyone holds a reference has not been put back, its count is the number of its references, and none of its pages is in a free node |
| `PacketRefs.PutOncePerLifetime` | tutorial_libezthread/ezPacket/Packet.cpp:304-312 | as many puts as gets of each packet, but for a lifetime still going on; and a packet without references is just one that some client is about to put |
| `PacketRefs.PutOnlyAtZero` | tutorial_libezthread/ezPacket/Packet.cpp:304-312 | whoever is about to call `PutPacket` is alone in that, and the packet is alive, unreferenced and at count zero |
| `PacketRefs.PagesConserved` | tutorial_libezthread/ezPacket/Packet.cpp:292-321 | over every interleaving the free pages and those behind the packets out are together always the pages free at the start |
| `PacketRefs.HeldAsCalled` | tutorial_libezthread/ezPacket/Packet.cpp:292-321 | each client holds just the references that the calls gave it, less those it released |
| `MsgMachine.StepKeepsMutex` | src/EZMsgQue.cpp:38-91 | each step keeps mutual exclusion |
| `MsgMachine.StepKeepsAccounts` | src/EZMsgQue.cpp:88-93 | each step keeps: `m_nMsg` = queue length = semaphore + messages not posted yet + tokens taken but not used |
| `MsgMachine.StepKeepsLocal` | src/EZMsgQue.cpp:139-192 | each step keeps what every thread under the mutex relies on |
| `MsgMachine.StepKeepsFifo` | src/EZMsgQue.cpp:88-89 | each step keeps: popped messages followed by the queue are the accepted ones in order |
| `MsgMachine.RunKeepsInv` | src/EZMsgQue.cpp:33-192 | the invariant holds over every interleaving of any number of threads |
| `MsgTheorems.TokensAccountForQueue` | src/EZMsgQue.cpp:88-93 | token accounting in every reachable state |
| `MsgTheorems.MutualExclusion` | src/EZMsgQue.cpp:38-38 | at most one thread is between lock and unlock |
| `MsgTheorems.NeverPopsEmpty` | src/EZMsgQue.cpp:165-167 | a thread about to pop finds a message: `assert(m_nMsg)` never fails and `back()` is defined |
| `MsgTheorems.WaitingReceiveSucceeds` | src/EZMsgQue.cpp:147-171 | a waiting receive never returns FALSE, and any receive returns the message it popped |
| `MsgSources.AcceptedWereSent` | src/EZMsgQue.cpp:82-93 | every accepted message is the argument of a `SendMessage` call as its caller gave it, no call has two accepted, and a call returns TRUE just when its message has been |
| `MsgTheorems.ReceivedInOrder` | src/EZMsgQue.cpp:88-93 | without clears, the received messages followed by the queue are exactly the accepted ones, in order |
| `MsgTheorems.ClearDiscardsTheQueue` | src/EZMsgQue.cpp:181-192 | a clear discards exactly what was queued when it took its count, oldest first, and ends with an empty queue |
| `MsgTheorems.NothingAcceptedAfterQuit` | src/EZMsgQue.cpp:49-53 | once the flag is cleared no run ever accepts another message |
| `MsgSources.QuitIsFinal` | src/EZMsgQue.cpp:174-179 | the step of `QuitMessage` under the mutex ends accepting for good |
| `MsgSources.AcceptingUntilQuit` | src/EZMsgQue.cpp:174-179 | and nothing but a call of `QuitMessage` does |
| `MsgSources.ResizeSetsSize` | src/EZMsgQue.cpp:208-213 | the step of `SetMessageSize` sets the size its caller gave, and nothing else |
| `MsgTheorems.NeverOverfull` | src/EZMsgQue.cpp:39-43 | the queue never holds more than the largest size it was ever given |
| `MsgDiscipline.SafeIff` | src/EZMsgQue.cpp:161-164 | the exact condition on which threads make which calls: no run leaves a thread waiting under the mutex for ever if and only if nobody sends, or no thread makes waiting receives while another receives without waiting or clears |
| `MsgDiscipline.SafeGetsToken` | src/EZMsgQue.cpp:181-192 | under such a discipline, with any number of threads, whoever waits under the mutex can get on |
| `MsgDiscipline.SafeNeverStuck` | src/EZMsgQue.cpp:139-192 | under such a discipline no reachable state with a call under way is stuck |
| `MsgDiscipline.SoleConsumerGetsToken` | src/EZMsgQue.cpp:161-164 | in particular with one consumer: a token is there or a post is on its way |
| `MsgDiscipline.SoleConsumerNeverStuck` | src/EZMsgQue.cpp:139-192 | in particular with one consumer: no reachable state with a call under way is stuck |
| `MsgTheorems.RestingMeansEmpty` | src/EZMsgQue.cpp:88-92 | no lost wakeup: when all rest and somebody waits, the queue is empty |
| `MsgTheorems.BlockedCanGetOnIff` | src/EZMsgQue.cpp:161-164 | with any number of consumers, a thread waiting under the mutex can ever get on if and only if fewer tokens are held than messages are queued |
| `MsgTheorems.StuckForever` | src/EZMsgQue.cpp:185-188 | without that, no continuation moves the waiting thread |
| `MsgDiscipline.TwoConsumersCanDeadlock` | src/EZMsgQue.cpp:147-164 | every other discipline deadlocks: one message, a waiting receiver with its token, and another thread that clears or receives without waiting, for any such threads |
| `MsgQueue.CEZMsgQue.constructor` | src/EZMsgQue.cpp:22-27 | an empty queue that accepts messages |
| `MsgQueue.CEZMsgQue.Wait` | src/EZMsgQue.cpp:147-150 | taking a token is a step of the machine, before the mutex or under it |
| `MsgQueue.CEZMsgQue.Post` | src/EZMsgQue.cpp:92-92 | posting the token is a step of the machine |
| `MsgQueue.CEZMsgQue.CheckSend` | src/EZMsgQue.cpp:39-53 | the three refusals, as a step of the machine |
| `MsgQueue.CEZMsgQue.PushFront` | src/EZMsgQue.cpp:88-90 | the message as it was given is in front and counted; a step of the machine |
| `MsgQueue.CEZMsgQue.PopBack` | src/EZMsgQue.cpp:165-169 | the pop is a step of the machine and meets the `assert` |
| `MsgQueue.CEZMsgQue.Run` | src/EZMsgQue.cpp:33-213 | the class follows the machine along every run of any number of threads |
| `MsgQueue.CEZMsgQue.SendMessage` | src/EZMsgQue.cpp:33-94 | whatever others do before it gets the mutex: TRUE exactly with room then, a priority below 10 and no quit, and then the message is in front and one token more |
| `MsgQueue.CEZMsgQue.SendUserData` | src/EZMsgQue.cpp:96-136 | the same without a priority, for message 1 with the pointer |
| `MsgQueue.CEZMsgQue.RecvMessage` | src/EZMsgQue.cpp:139-172 | whatever others do while it waits: the message that is oldest when it gets its token or the mutex, or FALSE exactly when there is none, which a waiting one never meets |
| `MsgQueue.CEZMsgQue.ClearMessage` | src/EZMsgQue.cpp:181-192 | whatever others do before it gets the mutex, and waiting for posts still to come: exactly the queued messages are discarded, and no message, token or pending post is left |
| `MsgQueue.CEZMsgQue.OtherCall` | src/EZMsgQue.cpp:174-213 | only a quit clears the flag, only a resize sets the size, to what its caller gave; count and size are answered; all else stays |
| `TimerClock.PlusIsAddition` | src/EZTimer.cpp:40-47 | `+=` on two words is addition modulo `2^64` |
| `TimerClock.CompareIsOrder` | src/EZTimer.cpp:49-84 | `compare`, `<` and `>` are the order of the 64-bit values |
| `TimerClock.TickTracksIff` | src/EZTimer.cpp:313-330 | a tick keeps the clock equal to the true count if and only if less than `2^32` ms passed and a wrap is seen within its first 10000 ms |
| `TimerClock.ClockTracksIff` | src/EZTimer.cpp:313-330 | over a whole run, the clock is right after every tick if and only if every gap between ticks is such a one |
| `TimerClock.LateWrapIsLost` | src/EZTimer.cpp:326-329 | a wrap first seen at 10000 ms is lost and the clock falls back by `2^32`; one seen at 9999 ms is kept |
| `TimerSpec.FireLessLate` | src/EZTimer.cpp:139-154 | firing a late timer makes the queue strictly less late, so the catch-up loop ends |
| `TimerSpec.InsertSorted` | src/EZTimer.cpp:206-236 | insertion keeps the deadline order |
| `TimerSpec.InsertAt` | src/EZTimer.cpp:213-217 | the place where the search loop stops is the place of ordered insertion |
| `TimerSpec.FireKeeps` | src/EZTimer.cpp:139-154 | firing keeps the order and the identities, and no deadline falls below that of the timer fired |
| `TimerSpec.CatchUpSettles` | src/EZTimer.cpp:332-335 | after a tick no queued deadline is below now |
| `TimerSpec.FiringOrder` | src/EZTimer.cpp:332-335 | the deadlines fired in one tick never decrease, and all lie before now |
| `TimerSpec.CatchUpExact` | src/EZTimer.cpp:139-151 | a tick fires each queued timer at exactly the deadlines of its plan; timers not due are left alone, one-shot ones go, periodic ones end at their first deadline not before now |
| `TimerSpec.PlanCount` | src/EZTimer.cpp:142-146 | a periodic timer due at `c` with period `P` fires `ceil((now - c) / P)` times, at `c + i * P`, and ends at `c + n * P` |
| `TimerSpec.CatchUpComposes` | src/EZTimer.cpp:332-335 | a tick at an earlier time in between changes neither the firings nor the final queue |
| `TimerSpec.AbsentNeverFires` | src/EZTimer.cpp:332-335 | a timer that is not queued is not fired |
| `TimerRuns.RoundsAreOneCatchUp` | src/EZTimer.cpp:307-336 | clock and queue together: while the gaps are good, any number of rounds comes to one catch-up at the last true count |
| `TimerRuns.FiredByTheTrueClock` | src/EZTimer.cpp:307-336 | so after any rounds each timer queued at the start has fired at exactly the deadlines of its plan up to the true time, in order of deadline, and nothing is late |
| `TimerQueue.CEZTimerManager.AddTimer` | src/EZTimer.cpp:206-236 | the linked list becomes the ordered insertion |
| `TimerQueue.CEZTimerManager.RemoveTimer` | src/EZTimer.cpp:238-256 | the list loses exactly that timer, wherever it stands and whatever its deadline has become |
| `TimerQueue.CEZTimerManager.Start` | src/EZTimer.cpp:103-120 | a timer, started already or not, is queued once with its new deadline and callback; the list stays sorted and holds exactly the started timers |
| `TimerQueue.CEZTimerManager.Stop` | src/EZTimer.cpp:122-137 | a started timer leaves the list and nothing else changes; the callback is made exactly for a one-shot timer on request |
| `TimerQueue.CEZTimerManager.Destroy` | src/EZTimer.cpp:93-101 | a timer that goes away while started leaves the list first |
| `TimerQueue.CEZTimerManager.run` | src/EZTimer.cpp:139-154 | the first timer is fired: a one-shot one is over, a periodic one queued a period later, and its callback goes to its threadlet |
| `TimerQueue.CEZTimerManager.FireDue` | src/EZTimer.cpp:332-335 | the loop over the linked list ends and does exactly what the catch-up function says; each firing hands over the callback of its own timer, in order; the one-shot timers fired are marked as called |
| `TimerQueue.CEZTimerManager.OnTick` | src/EZTimer.cpp:313-335 | one round: the clock ticks, and unless the counter stood still every late timer is caught up and its callbacks handed over |
| `TimerQueue.CEZTimerManager.ThreadProc` | src/EZTimer.cpp:305-337 | the loop of the timer thread over the linked list does exactly the rounds of `TimerRuns`, and hands over just the callbacks of the timers fired, in order |
| `TimerQueue.CEZTimerManager.QueuedOnce` | src/EZTimer.cpp:116-118 | no timer is queued twice |
| `TimerQueue.CEZTimerManager.constructor` | src/EZTimer.cpp:185-194 | an empty list, and the counter as current time |
| `PoolInvariant.ReachableInv` | src/EZThread.cpp:311-369 | from the start, the invariant of the hand-off holds over every interleaving of clients and workers |
| `PoolInvariant.PostKeepsJobs` | src/EZThread.cpp:362-367 | a post makes its job pending and disturbs no other |
| `PoolInvariant.CallKeepsJobs` | src/EZThread.cpp:315-316 | a callback turns its pending job into an executed one |
| `PoolInvariant.ClientKeepsLets` | src/EZThread.cpp:353-368 | the steps of `run` and of the destructor keep every threadlet linked to the thread at work for it |
| `PoolInvariant.WorkerKeepsLinks` | src/EZThread.cpp:319-325 | the two assignments that unlink keep all other links |
| `PoolTheorems.JobsAreConserved` | src/EZThread.cpp:311-369 | accepted jobs = executed + pending |
| `PoolSources.ClientsCarryTheirCalls` | src/EZThread.cpp:351-367 | a client in `run` or a destructor works for the threadlet, and with the job, of the last call it made |
| `PoolSources.AcceptedWereGiven` | src/EZThread.cpp:351-368 | every accepted job is that of a call of `run` as its caller gave it, no call has two accepted, and a call returns TRUE just when its job has been |
| `PoolSources.CallbacksWereGiven` | src/EZThread.cpp:315-316 | from call to callback: every callback runs the job of a call of `run`, and no call has two callbacks |
| `PoolTheorems.CallbacksAreGenuine` | src/EZThread.cpp:315-316 | each callback runs an accepted job, on the thread it was given to, with exactly the stored fields |
| `PoolTheorems.AtMostOneCallback` | src/EZThread.cpp:315-316 | no accepted job is called twice |
| `PoolTheorems.PendingJobsAreIntact` | src/EZThread.cpp:360-367 | a job not called yet still stands in its thread's fields, and the thread can go on |
| `PoolTheorems.SemaphoreAtMostOne` | src/EZThread.cpp:367-367 | the semaphore of a pooled thread never exceeds 1 |
| `PoolTheorems.LinksMirror` | src/EZThread.cpp:319-324 | while the mutex is free, `L.m_thread` is `T` if and only if `T.m_caller` is `L` |
| `PoolTheorems.IdleThreadsAreFree` | src/EZThread.cpp:456-481 | threads on the idle stack appear once, are unlinked and have nothing posted |
| `PoolTheorems.CallerIsAlive` | src/EZThread.cpp:340-349 | `m_caller` of a thread with a job never refers to a destroyed threadlet, even one destroyed while the job runs |
| `PoolTheorems.OneThreadPerThreadlet` | src/EZThread.cpp:355-360 | no two threads work for one threadlet |
| `PoolTheorems.RefusedWhileRunning` | src/EZThread.cpp:355-358 | `run` is refused exactly while a thread in use has this threadlet as caller |
| `PoolTheorems.AllThreadsReturn` | src/EZThread.cpp:474-481 | when all is quiet every thread made is back on the stack, every threadlet unlinked and every job executed |
| `PoolTheorems.HolderGoesOn` | src/EZThread.cpp:351-369 | whoever holds the mutex has a step to take |
| `PoolTheorems.NobodyIsStuck` | src/EZThread.cpp:311-369 | while the mutex is free, every worker with a job and every client in a call has a step to take |
| `PoolSections.RunRefused` | src/EZThread.cpp:355-358 | the steps of a refused `run`, in one piece, change nothing |
| `PoolSections.RunSection` | src/EZThread.cpp:351-369 | the steps of an accepted `run`, in one piece: one thread leaves the stack, linked, filled and posted |
| `PoolSections.DropSection` | src/EZThread.cpp:340-349 | the steps of the destructor, in one piece: exactly the thread at work for the threadlet forgets it |
| `PoolSections.WorkSection` | src/EZThread.cpp:315-326 | the steps of a worker's round, in one piece: its job executed, itself unlinked and first on the stack |
| `PooledThread.CEZThreadManager.ReachableMeansLinked` | src/EZThread.cpp:319-324 | in every reachable state of the machine with the mutex free the objects are linked as the methods require |
| `PooledObjects.CEZPooledThread.SetTimeout` | src/EZThread.cpp:278-293 | the expected time is now plus the timeout, and none for no timeout or when that passes 32 bits |
| `PooledThread.CEZThreadManager.GetPooledThread` | src/EZThread.cpp:456-472 | the first idle thread, or a new one if there is none |
| `PooledThread.CEZThreadManager.ReleasePooledThread` | src/EZThread.cpp:474-481 | the thread becomes the first idle one |
| `PooledThread.CEZThreadManager.run` | src/EZThread.cpp:351-369 | FALSE exactly when the threadlet has a thread; otherwise the objects change as in `RunSection`, and name and expected time are set; no other thread changes |
| `PooledThread.CEZThreadManager.Destroy` | src/EZThread.cpp:340-349 | the objects change as in `DropSection` |
| `PooledThread.CEZThreadManager.Unlink` | src/EZThread.cpp:319-325 | the thread and its caller let go of each other, and no other link changes |
| `PooledThread.CEZThreadManager.Work` | src/EZThread.cpp:311-328 | one round: the callback gets the stored fields, the objects change as in `WorkSection`, and name and timeout are reset |
| `PooledThread.CEZThreadManager.RunAndWork` | src/EZThread.cpp:351-369 | a job handed over and worked off comes out as it went in, with the stack as it was |

## Left out

- PacketManager.CPacketManager.AddRef: does not wrap at `2^32`, by the assumption on reference counts.
- PacketManager.CPacketManager.Release: is one step here; the gap between its unlock and `PutPacket` is in `PacketRefs`, and the debug `assert` that a count is positive is not part of it.
- TimerQueue.CEZTimerManager.run: the callback is given to the timer's threadlet, whose `run` may refuse it while the last one still runs; whether it does is a matter of the hand-off, and the result is ignored by the code.
- PooledThread.CEZThreadManager.run: is a whole critical section; its single steps under interleaving are those of the machine, of which `PoolSections` shows that in one piece they come to the same.
- PooledThread.CEZThreadManager.Work: like `run`, a whole round in which nobody comes in between; the steps are in the machine.
- PooledThread.CEZThreadManager.RunAndWork: puts the two together, which the code does not do in one place.
- MsgQueue.CEZMsgQue.SendMessage: like the other whole calls it lets the others run until it gets the mutex, and then runs to its end; calls interrupted later too are runs of the machine, which `Run` follows.
- MsgQueue.CEZMsgQue.RecvMessage: is about calls that return, so the others must at last leave it a token or the mutex.
- MsgQueue.CEZMsgQue.ClearMessage: is about calls that return, so no other thread may hold a token when it gets the mutex.
- The array of level nodes is a fixed sequence of node objects, and two-word times are values; neither is aliased in the code.
- `m_PBAs` has 32 entries in the code, enough for the page counts assumed; here there are as many levels as needed.
- Failing allocations: `new` and thread creation always succeed.
- `CPacket::PutBuffer` copies to the start of the buffer while it advances the length, so it is no append; the packet contents, header and system time are not modelled.
- The dead `SUPPORT_MOUSE_MSG` branch and the unused ordering by priority.
- `DestroyThread` and its wait handshake, and the list of all threads: the exit flag is set without synchronisation.
- Deadlock freedom of the queue for every mixture of consumers: false of the code, see the findings for when it holds.
- `process_counter_ms`, `EZSignal`, `EZPoolAllocator`: small or simpler than what is here.
- Console, logging, daemon code and the dump functions: input and output.
