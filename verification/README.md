# Verification of Concurrency Kit and the Lua 5.1 core

A Dafny model of the parts of this repository whose correctness is hardest to see: the lock-free
structures, locks and barriers of Concurrency Kit (`modules/ck`) and the garbage collector, code
generator, table, pattern matcher and quoting of the Lua 5.1 interpreter (`modules/lua`), with
proofs of what they promise. `dafny verify dfyconfig.toml` checks everything.

**Concurrency Kit.** The concurrent algorithms are state machines: a step is one load, store or
atomic instruction of one thread, any number of threads interleave freely, and the theorems are
about every state of every run. History that no branch reads (logs, logical contents, counts)
states what the words in memory stand for. `CkFifo`, `CkStack` and `CkRing` are linearizable to an
atomic queue, stack and bounded queue; `CkCalls` is what their logs have in common. `CkPflock` and
`CkTflock` give exclusion and their two kinds of fairness. `CkDissemination` and `CkMcs` let nobody
leave an episode early, for any number of threads and episodes. `CkEpoch` runs no deferred callback
while a section that was open at its deferral is still open. The modules named after these with
`Progress` say that something comes of it: calls left alone end with the result they should have and
give up only on contention, threads that wait for a lock get in, barriers that all have entered
open, and a poll runs what it may. `CkSteps` says what can follow a state. `CkHs`, which has a
single writer, is a class whose methods refine a map.

**Lua.** The interpreter works on its data in place and so does the model: classes with loops,
proved against functions on values. `LuaNodes`, `LuaSizes`, `LuaTable`, `LuaTraversal` and `LuaRefs`
are the table, the sizing arithmetic of its rehash, its length and traversal, and the reference
allocator on top of it. `LuaVm`, `LuaJumps`, `LuaExp` and `LuaCode` are the instructions, the jump
lists threaded through unfinished code, what an expression descriptor stands for, and the one-pass
code generator. `LuaHeap`, `LuaGcState`, `LuaGcFirm`, `LuaGcSteps`, `LuaGcRuns`, `LuaGcReach` and
`LuaGc` are the incremental collector interleaved with the running program: it never frees what can
be reached, left alone it frees the rest, and weak tables keep what is held otherwise. `LuaPattern`,
`LuaChoices`, `LuaCut` and `LuaMatch` are patterns, their outcomes in order of preference, the cut of
a substitution, and the backtracking matcher; `LuaPatternText` is what section 5.4.1 of the Lua 5.1
Reference Manual says a pattern means. `LuaQuote` is `%q` and the string reader of the lexer, and
`LuaEscapes` what section 2.1 of the manual says a literal means.
`Arith` and `Ranges` hold arithmetic the others share.

Where the code does not keep a promise the model follows the code, gives a run that fails and says
exactly when it does not. A callback of `ck_epoch_poll` that defers again has its entry run by the
same poll if it lands on a list still to be dispatched, while a section may be open: `CkEpochDeferral`
has the failing run, and shows that the grace period holds exactly as long as callbacks do not do
that with a section open. A reader and a writer hold the task-fair lock together once some request
has completed and a multiple of 2^15 others are outstanding: `CkTflockBound` has the failing run and
when a new request is let in too early. `%q` is read back for every byte string unless the line
counter of the lexer runs out, and `LuaQuote` has a string for which it does.

## Model

| member | source | states |
|---|---|---|
| `CkFifo.EveryRunIsLinearizable` | modules/ck/include/ck_fifo.h:244-457 | every interleaving of any number of enqueuers and dequeuers refines an atomic FIFO queue: at each instant the log is a legal history whose result is the contents; along the run it is only added to; a call has exactly one operation in it from the moment it takes effect and none before, placed between its begin and its end with its result, and every operation belongs to a call; calls that follow each other have their operations in that order; a false return means the queue was empty at some instant of the call |
| `CkCalls.RunsFit` | modules/ck/include/ck_fifo.h:244-457 | of every run of calls, whatever the structure: the log only grows, every call has one operation in it or, while it has not taken effect or if it lost its only try, none, every operation was performed by a call in progress of its thread, and the log keeps the order of calls in real time |
| `CkFifo.RunInCalls` | modules/ck/include/ck_fifo.h:244-457 | the runs of the queue are such runs of calls |
| `CkCalls.RunsKeepOneEach` | modules/ck/include/ck_fifo.h:244-457 | of all histories in which an operation is logged by a call in progress that has none yet: each call has exactly one operation behind its begin, or none |
| `CkCalls.EveryOperationHasACall` | modules/ck/include/ck_fifo.h:244-457 | every logged operation was put there by a call in progress of its thread |
| `CkCalls.OrderIsKept` | modules/ck/include/ck_fifo.h:244-457 | if a thread is idle at or after an instant at which another call has taken effect, its own next call takes effect later in the log |
| `CkFifo.LegalLogsAreFifo` | modules/ck/include/ck_fifo.h:244-404 | a legal log dequeues the enqueued values in order, each once, and the rest is what is queued |
| `CkFifo.RunsKeepInv` | modules/ck/include/ck_fifo.h:224-457 | in every reachable state the tail is at the last node or the one before it, the head never passes the tail, and generations tell every word from its past values |
| `CkFifo.LinkKeepsShape` | modules/ck/include/ck_fifo.h:260-297 | the linking compare-and-swap succeeds only on the last node and appends exactly the new one |
| `CkFifo.CommitTakesTheFirst` | modules/ck/include/ck_fifo.h:365-403 | a successful swing of the head takes the oldest value, the one read before the compare-and-swap |
| `CkFifo.NullMeansEmpty` | modules/ck/include/ck_fifo.h:377-390 | a null successor of the head that was read proves the queue empty at that instant |
| `CkFifo.NextKeepsInv` | modules/ck/include/ck_fifo.h:244-457 | every step of every thread, and every new operation with a fresh entry, keeps the invariant |
| `CkFifoProgress.TryDequeueAlone` | modules/ck/include/ck_fifo.h:336-457 | a dequeue left alone ends: with nothing if the queue is empty, else with the oldest value, unless it is a try that finds the tail lagging at the head, and exactly then it gives up |
| `CkFifoProgress.EnqueueAlone` | modules/ck/include/ck_fifo.h:244-297 | an enqueue left alone with a tail that does not lag appends its value, in seven steps |
| `CkFifoProgress.FinishesAlone` | modules/ck/include/ck_fifo.h:244-457 | from every state of every run a call left alone ends; it has given up only if it is a try |
| `CkFifoProgress.LostMeansContention` | modules/ck/include/ck_fifo.h:300-457 | in every run a try gives up only if the tail lagged when it began or head or tail changed while it was going on |
| `CkStack.EveryRunIsLinearizable` | modules/ck/include/ck_stack.h:53-245 | with nodes freely reused after a pop every run refines an atomic LIFO: no node lost, none owned by two threads; the log is only added to, a call has exactly one operation in it once it has taken effect and none before, every operation belongs to a call, and calls that follow each other have their operations in that order |
| `CkStack.RunInCalls` | modules/ck/include/ck_stack.h:53-245 | the runs of the stack are runs of calls, each of which performs at most one operation |
| `CkStack.PopIsGood` | modules/ck/include/ck_stack.h:194-245 | no ABA: if head and generation both still match, the successor read earlier is the second node of the stack |
| `CkStack.PushIsGood` | modules/ck/include/ck_stack.h:53-87 | a push may succeed although the head has changed and come back, and still puts its node on top of exactly the stack there is |
| `CkStack.RunsKeepInv` | modules/ck/include/ck_stack.h:53-245 | the list from the head is the logical stack, its nodes are distinct and nobody holds them, in every reachable state |
| `CkStack.ClientKeepsInv` | modules/ck/include/ck_stack.h:53-68 | holders may write anything into their nodes, hand them on and push them again |
| `CkStackProgress.CallAlone` | modules/ck/include/ck_stack.h:53-245 | a call left alone ends: a push with its node on top, a pop with the top node, or with nothing exactly if there is none |
| `CkStackProgress.FinishesAlone` | modules/ck/include/ck_stack.h:53-245 | from every state of every run a call left alone ends; it has given up only if it is a try |
| `CkStackProgress.LostMeansContention` | modules/ck/include/ck_stack.h:89-245 | in every run a try gives up only if head or generation changed while it was going on |
| `CkRing.EveryRunIsLinearizable` | modules/ck/include/ck_ring.h:130-322 | one producer and any number of consumers: the items come out in order, each once and untorn, and at most size - 1 are held; the log is only added to, has exactly one operation for every call that took effect, a finding of full or empty included, and keeps the order of calls that follow each other |
| `CkRing.RunInCalls` | modules/ck/include/ck_ring.h:130-322 | the runs of the ring are runs of calls of the producer and the consumers, each of which performs at most one operation |
| `CkRing.TakeIsGood` | modules/ck/include/ck_ring.h:286-322 | a copy whose compare-and-swap succeeds was not overwritten while it was made |
| `CkRing.WriteIsGood` | modules/ck/include/ck_ring.h:130-156 | the slot the producer writes is not the slot of any item still in the ring, although fullness was tested against a stale head |
| `CkRing.FullExactly` | modules/ck/include/ck_ring.h:139-146 | the masked test of the counters says full exactly when size - 1 items are held |
| `CkRing.SlotIsMask` | modules/ck/include/ck_ring.h:139-152 | for a size that is a power of two the mask is the remainder |
| `CkRing.SlotsDiffer` | modules/ck/include/ck_ring.h:139-152 | counters less than one lap apart have different slots |
| `CkRing.RunsKeepInv` | modules/ck/include/ck_ring.h:130-322 | the buffer holds the log between head and tail in every reachable state |
| `CkRingProgress.TakenAlone` | modules/ck/include/ck_ring.h:286-322 | a dequeue left alone ends with the oldest item, or with nothing exactly if there is none |
| `CkRingProgress.EnqueueAlone` | modules/ck/include/ck_ring.h:130-156 | the producer stores its item exactly if fewer than size - 1 are held when it looks |
| `CkRingProgress.FinishesAlone` | modules/ck/include/ck_ring.h:249-322 | from every state of every run a dequeue left alone ends; it has given up only if it is a try |
| `CkRingProgress.LostMeansContention` | modules/ck/include/ck_ring.h:249-284 | in every run a try gives up only if the head moved while it was going on |
| `CkPflock.Exclusion` | modules/ck/include/ck_pflock.h:70-140 | a writer in its critical section is alone in it, in every run |
| `CkPflock.OvertakenOnce` | modules/ck/include/ck_pflock.h:84-140 | of all writers only the one whose phase a reader arrived in can be in its critical section before that reader has entered and left |
| `CkPflock.OvertakenByOneAcquisition` | modules/ck/include/ck_pflock.h:84-140 | two writers in their critical sections at two instants of one and the same read are one acquisition: no second writer passes a waiting reader |
| `CkPflock.DrainIsGood` | modules/ck/include/ck_pflock.h:84-108 | the wait of the writer ends only when exactly the readers that arrived before it have left |
| `CkPflock.RunsKeepInv` | modules/ck/include/ck_pflock.h:57-140 | the four words hold the counts of arrivals and departures and the phase of the current writer |
| `CkPflockProgress.CountsAreThreads` | modules/ck/include/ck_pflock.h:57-140 | in every run the arrivals without a departure are exactly those of readers there are, and the tickets taken and not served exactly those of writers |
| `CkPflockProgress.IdleMeansFree` | modules/ck/include/ck_pflock.h:57-140 | when all threads are idle the counts of arrivals and departures are equal and no phase is announced |
| `CkPflockProgress.ReaderPassesExactly` | modules/ck/include/ck_pflock.h:118-140 | a waiting reader gets in exactly when the phase it arrived in is over |
| `CkPflockProgress.TurnComesExactly` | modules/ck/include/ck_pflock.h:84-96 | a writer gets its turn exactly when all writers with earlier tickets have left |
| `CkPflockProgress.DrainEndsExactly` | modules/ck/include/ck_pflock.h:97-108 | it gets in exactly when all readers that arrived before its announcement have left |
| `CkPflockProgress.SomeoneCanMove` | modules/ck/include/ck_pflock.h:57-140 | unless all are idle some thread has a step that takes it further |
| `CkPflockProgress.NobodyWaitsInVain` | modules/ck/include/ck_pflock.h:57-140 | from every state of every run steps of threads already inside the lock bring a waiting thread into its critical section |
| `CkTflock.WriterIsAloneAndFirst` | modules/ck/include/ck_tflock.h:81-131 | a writer holding the lock holds it alone, and every other outstanding request came after its own |
| `CkTflock.ReadersKeepTheirTurn` | modules/ck/include/ck_tflock.h:106-131 | every writer outstanding while a reader holds the lock requested it after that reader |
| `CkTflock.WordsHoldTheCounts` | modules/ck/include/ck_tflock.h:55-131 | the words hold the counts modulo 2^15 in every state, however many requests there have been |
| `CkTflock.HalvesStayApart` | modules/ck/include/ck_tflock.h:55-70 | an increment of one half never carries into the other nor overflows the word |
| `CkTflock.HalfInjective` | modules/ck/include/ck_tflock.h:55-70 | counts less than 2^15 apart are told apart by their halves, and zero from any other count |
| `CkTflock.HalvesAgree` | modules/ck/include/ck_tflock.h:55-70 | two counts have the same half exactly if they are equal or a positive one is a multiple of 2^15 below the other |
| `CkTflock.WriterEnters` | modules/ck/include/ck_tflock.h:81-94 | a writer gets in only when exactly the earlier readers and writers have completed |
| `CkTflockProgress.CountsAreThreads` | modules/ck/include/ck_tflock.h:55-131 | in every run the requests not completed are exactly those of the readers and writers there are |
| `CkTflockProgress.IdleMeansFree` | modules/ck/include/ck_tflock.h:55-131 | when all threads are idle everything requested has completed and the two words are equal |
| `CkTflockProgress.FewThreadsAreSafe` | modules/ck/include/ck_tflock.h:55-131 | with fewer than 2^15 threads every run is one of those the theorems are about, without any further restriction |
| `CkTflockProgress.SomeoneCanMove` | modules/ck/include/ck_tflock.h:55-131 | unless all are idle some thread can go on |
| `CkTflockProgress.NobodyWaitsInVain` | modules/ck/include/ck_tflock.h:55-131 | with fewer than 2^15 threads inside, their steps bring every waiting thread into its critical section |
| `CkTflockBound.NewcomerEntersExactly` | modules/ck/include/ck_tflock.h:81-131 | a new writer gets in at once exactly if both counts of completed requests look like those of requests, a new reader exactly if that of writers does |
| `CkTflockBound.WaitEndsExactly` | modules/ck/include/ck_tflock.h:81-131 | in every run, however many requests are outstanding, a waiting writer gets in exactly if both counts of completed requests look like those of its ticket, a waiting reader exactly if that of writers does |
| `CkTflockBound.AlikeMeansSame` | modules/ck/include/ck_tflock.h:81-131 | within the bound that means nothing is outstanding; before the first completion there is no bound |
| `CkTflockBound.TooManyReaders` | modules/ck/include/ck_tflock.h:81-94 | beyond it, from any state with a reader inside, some reader completed and a multiple of 2^15 readers outstanding: an idle writer requests the lock and is inside with the reader |
| `CkTflockBound.TooManyWriters` | modules/ck/include/ck_tflock.h:106-131 | the same for a reader, with a multiple of 2^15 writers outstanding |
| `CkTflockBound.TooManyWritersForAWriter` | modules/ck/include/ck_tflock.h:81-94 | and for a second writer if no reader is outstanding |
| `CkTflockBound.ExclusionCanFail` | modules/ck/include/ck_tflock.h:49-131 | such a state is reached: a run from the initial lock ends with a reader and a writer inside |
| `CkDissemination.NobodyLeavesEarly` | modules/ck/src/ck_barrier_dissemination.c:96-123 | for every number of threads, no thread has left an episode that some thread has not entered |
| `CkDissemination.SignalsAreNeverConfused` | modules/ck/src/ck_barrier_dissemination.c:96-123 | a waiting thread finds its sense in its flag exactly when its partner has signalled in this round of this episode |
| `CkDissemination.FlagMeansSignal` | modules/ck/src/ck_barrier_dissemination.c:96-123 | two parities with sense reversal suffice: the awaited value means a signal of this very episode |
| `CkDissemination.WaitDoubles` | modules/ck/src/ck_barrier_dissemination.c:96-123 | passing the wait of round k means having heard, directly or not, from the 2^(k+1) threads behind |
| `CkDissemination.Rounds` | modules/ck/src/ck_barrier_dissemination.c:35-76 | the number of rounds is the least one whose power of two covers all threads |
| `CkDissemination.PartnerByMask` | modules/ck/src/ck_barrier_dissemination.c:44-62 | the mask used for powers of two gives the same partner as the remainder |
| `CkDissemination.RunsKeepInv` | modules/ck/src/ck_barrier_dissemination.c:78-123 | what flags, parities and senses mean, kept by every step of every run |
| `CkDisseminationProgress.EverybodyLeaves` | modules/ck/src/ck_barrier_dissemination.c:96-123 | the barrier opens: from every state of every run in which all threads have entered an episode, steps of threads inside the barrier bring all of them out of it |
| `CkDisseminationProgress.LastCanMove` | modules/ck/src/ck_barrier_dissemination.c:96-123 | of the threads of an episode that all have entered, the one with most to do never waits |
| `CkMcs.InitLinks` | modules/ck/src/ck_barrier_mcs.c:33-73 | the loop fills in, for every thread, the links of the specification |
| `CkMcs.ArrivalLinksAreATree` | modules/ck/src/ck_barrier_mcs.c:33-73 | the arrival links are a spanning tree rooted at thread 0, with exactly one parent slot for every other thread |
| `CkMcs.WakeLinksAreATree` | modules/ck/src/ck_barrier_mcs.c:33-73 | so are the wake-up links: each sense word but that of the root is the target of exactly one link |
| `CkMcs.RootSpeaksForAll` | modules/ck/src/ck_barrier_mcs.c:84-140 | a notification speaks for a whole subtree, so that of the root speaks for everybody |
| `CkMcs.NobodyLeavesEarly` | modules/ck/src/ck_barrier_mcs.c:111-140 | no thread leaves an episode before all have arrived, over any number of episodes and threads |
| `CkMcs.RunsKeepInv` | modules/ck/src/ck_barrier_mcs.c:75-140 | what child slots and senses mean in every reachable state |
| `CkMcsProgress.EverybodyLeaves` | modules/ck/src/ck_barrier_mcs.c:111-140 | the barrier opens: from every state of every run in which all threads have entered an episode, steps of threads inside the barrier bring all of them out of it |
| `CkMcsProgress.SomeoneCanMove` | modules/ck/src/ck_barrier_mcs.c:111-140 | in an episode that all have entered, unless all have left it, somebody is not waiting |
| `CkEpoch.GracePeriod` | modules/ck/src/ck_epoch.c:397-431 | in every run whose callbacks do not, with a section open, defer onto a list still to be dispatched by the same poll: when a poll executes a callback, no read section that was open when the callback was deferred is still open |
| `CkEpoch.EachEntryRunsOnce` | modules/ck/src/ck_epoch.c:256-280 | no deferred callback is executed twice, and none that was not deferred, wherever callbacks defer |
| `CkEpochProgress.PollAlone` | modules/ck/src/ck_epoch.c:397-431 | in every run a poll that is left alone fails without running anything exactly if a thread is in a section of another epoch; else, if threads are in sections, it ticks and runs exactly the list of the next epoch; else it runs every deferred callback; the lists it runs end up empty, and nothing else changes |
| `CkEpochProgress.ScanAlone` | modules/ck/src/ck_epoch.c:219-253 | the scan tells the three cases apart |
| `CkEpochProgress.DispatchAlone` | modules/ck/src/ck_epoch.c:256-280 | every entry of the chosen lists is run, first to last, and they are emptied |
| `CkEpochDeferral.DeferralIsSafeExactly` | modules/ck/src/ck_epoch.c:397-431 | the restriction is exact: after a run that has kept to it, a callback may defer exactly if nothing that can follow, with the restriction kept from then on, runs a callback while a section open at its deferral is still open |
| `CkEpochDeferral.DeferringAheadBreaksGrace` | modules/ck/src/ck_epoch.c:256-280 | from every state of a run whose callback defers onto any list still to be dispatched, with a section open, whatever is left of the list and of the lists in between, the poll comes to run the new entry with that section open |
| `CkEpochDeferral.DeferringAheadFails` | modules/ck/src/ck_epoch.c:397-431 | every run that comes to such a callback goes on to a failure of the grace period |
| `CkEpochDeferral.GraceCanFail` | modules/ck/src/ck_epoch.c:397-431 | there is such a run: from the initial state to a callback that is executed while a section open at its deferral is still open |
| `CkEpochDeferral.CallbackCanTell` | modules/ck/src/ck_epoch.c:397-425 | what a callback can know: in the dispatch of all lists it runs from list k, and with a section open it may defer exactly if the epoch modulo 4 is at most k |
| `CkEpoch.TickDispatchMayDefer` | modules/ck/src/ck_epoch.c:397-431 | after a tick a callback may always defer again |
| `CkEpoch.NewEntryInv` | modules/ck/include/ck_epoch.h:138-151 | a section open at a deferral is at an epoch no later than the one the deferral observes |
| `CkEpoch.PassFront` | modules/ck/src/ck_epoch.c:218-254 | what passing one record establishes, even if records come and go during the scan |
| `CkEpoch.NobodyActive` | modules/ck/src/ck_epoch.c:397-425 | at the end of a scan that met no active record every waiting entry is safe |
| `CkEpoch.OldListIsSafe` | modules/ck/src/ck_epoch.c:397-431 | after any successful scan only entries of the epoch of the poll can be unsafe |
| `CkEpoch.RunsKeepInv` | modules/ck/include/ck_epoch.h:86-151 | the invariant holds in every state of every run, although begin loads the epoch and raises its flag in separate steps |
| `CkEpoch.RunsKeepOnce` | modules/ck/src/ck_epoch.c:256-280 | every entry is in exactly one place: a pending list, a dispatch, executed, or dropped, wherever callbacks defer |
| `CkHs.FoundIffPresent` | modules/ck/src/ck_hs.c:391-499 | a key is in the set exactly when a probe within the bound of its bucket meets it before an empty slot |
| `CkHs.InsertKeeps` | modules/ck/src/ck_hs.c:785-825 | storing a new object on its probe sequence keeps every other one findable |
| `CkHs.EraseKeeps` | modules/ck/src/ck_hs.c:872-890 | turning a slot into a tombstone keeps every other object findable |
| `CkHs.ReplaceKeeps` | modules/ck/src/ck_hs.c:611-642 | storing an object again earlier on its probe sequence and dropping the old slot keeps the set with the new object |
| `CkHs.RaiseCovers` | modules/ck/src/ck_hs.c:261-280 | after the bound has been raised it covers the probe count, saturated at 255 |
| `CkHs.ProbesCoverTheBucket` | modules/ck/src/ck_hs.c:391-499 | the eight probes of one level look at each slot of one cache line, and at each once |
| `CkHs.RenewedKeeps` | modules/ck/src/ck_hs.c:521-609 | the bounds collected by a full garbage collection are enough for every object |
| `CkHs.Map.constructor` | modules/ck/src/ck_hs.c:165-219 | the sizes of a new map, and that it is empty |
| `CkHs.Map.Search` | modules/ck/src/ck_hs.c:391-499 | the probe stops at the first match, at an empty slot, or at the limit after that many slots that are neither; it reports the first tombstone, with none before it on the probe sequence, and the number of probes |
| `CkHs.Map.BoundSet` | modules/ck/src/ck_hs.c:261-280 | only raises the bound of the bucket, saturated, and the maximum |
| `CkHs.Map.BoundGet` | modules/ck/src/ck_hs.c:282-297 | the bound, or the maximum if the bucket is saturated or bounds are not kept |
| `CkHs.Map.Replace` | modules/ck/src/ck_hs.c:611-642 | new slot first, tombstone afterwards; the counters follow |
| `CkHs.Map.Place` | modules/ck/src/ck_hs.c:329-357 | an object goes to the first empty slot of its probe sequence within the limit, and nothing else changes but its bound; it is refused exactly if there is none |
| `CkHs.HashSet.Get` | modules/ck/src/ck_hs.c:845-870 | the object with the key exactly when it is in the set, else nothing |
| `CkHs.HashSet.Put` | modules/ck/src/ck_hs.c:785-843 | adds exactly the object if its key is new; false if the key is there or memory ran out, and then the set is unchanged |
| `CkHs.HashSet.Set` | modules/ck/src/ck_hs.c:728-783 | inserts or replaces, and returns what was there before |
| `CkHs.HashSet.Fas` | modules/ck/src/ck_hs.c:611-642 | replaces an object that is there and returns it; false and unchanged otherwise |
| `CkHs.HashSet.Remove` | modules/ck/src/ck_hs.c:872-890 | removes exactly the object with the key and returns it |
| `CkHs.HashSet.Gc` | modules/ck/src/ck_hs.c:521-609 | a full or partial garbage collection leaves the set unchanged |
| `CkHs.HashSet.Compact` | modules/ck/src/ck_hs.c:539-581 | one object moves to the first tombstone before it on its probe sequence, or stays if there is none, and all stay findable |
| `CkHs.HashSet.Grow` | modules/ck/src/ck_hs.c:299-370 | a larger map with the same set, or no change without memory |
| `CkHs.HashSet.Rebuild` | modules/ck/src/ck_hs.c:383-388 | the same set in a map without tombstones, or no change without memory |
| `CkHs.HashSet.PostInsert` | modules/ck/src/ck_hs.c:372-381 | the load stays at most one half as long as memory allows |
| `CkHs.HashSet.Count` | modules/ck/src/ck_hs.c:142-147 | the cardinality of the set |
| `CkHs.HashSet.constructor` | modules/ck/src/ck_hs.c:912-933 | the empty set |
| `LuaNodes.Main` | modules/lua/src/ltable.c:84-113 | the main position of a key lies within the node vector |
| `LuaNodes.Acyclic` | modules/lua/src/ltable.c:399-429 | a chain never comes back to a node it has passed |
| `LuaNodes.TakeOverKeeps` | modules/lua/src/ltable.c:399-429 | a key put into its free main position keeps all chains complete and every main position with a key of its own |
| `LuaNodes.InsertAfterKeeps` | modules/lua/src/ltable.c:421-425 | so does a free node linked in behind the main position |
| `LuaNodes.MoveAwayKeeps` | modules/lua/src/ltable.c:410-420 | so does moving a colliding node away to make room for the owner of the position |
| `LuaNodes.RoomLeft` | modules/lua/src/ltable.c:382-388 | with fewer keys than nodes some node has never been used |
| `LuaSizes.ComputeSizes` | modules/lua/src/ltable.c:189-208 | the largest power of two n with more than n/2 of 1..n in use, and exactly the number of keys up to n |
| `LuaSizes.CountInt` | modules/lua/src/ltable.c:211-219 | a key that could go to the array part is counted in its slice, any other is not |
| `LuaSizes.SliceAbove` | modules/lua/src/ltable.c:189-219 | the slices split the candidates at the powers of two |
| `LuaTable.Table.constructor` | modules/lua/src/ltable.c:358-371 | an empty table |
| `LuaTable.Table.Get` | modules/lua/src/ltable.c:435-491 | the value the map has for the key, nil if there is none |
| `LuaTable.Table.Set` | modules/lua/src/ltable.c:494-529 | the map changes at the key and nowhere else, whatever collisions, rehashes and resizes that takes; nil and NaN are refused; a key that has a cell keeps it, and so do all others |
| `LuaTable.Table.NewKey` | modules/lua/src/ltable.c:399-429 | a key that is not there gets a node without changing the map; a rehash happens only if no node is free |
| `LuaTable.Table.GetFreePos` | modules/lua/src/ltable.c:382-388 | the free pointer goes down to a node that has never been used; all nodes above it are in use |
| `LuaTable.Table.Evict` | modules/lua/src/ltable.c:410-420 | the colliding node moves to the free one, and the new key takes its place |
| `LuaTable.Table.ChainFree` | modules/lua/src/ltable.c:421-425 | the free node is linked in behind the main position |
| `LuaTable.Table.Resize` | modules/lua/src/ltable.c:297-324 | the same map in parts of the new sizes, re-inserting without another rehash |
| `LuaTable.Table.VanishingSlice` | modules/lua/src/ltable.c:310-317 | the cells beyond the new array size are stored again, none lost |
| `LuaTable.Table.OldNodes` | modules/lua/src/ltable.c:318-323 | the nodes of the old hash part are stored again, none lost |
| `LuaTable.Table.SetNodeVector` | modules/lua/src/ltable.c:272-294 | the least power of two of empty nodes that is enough |
| `LuaTable.Table.NumUseArray` | modules/lua/src/ltable.c:222-244 | exactly the keys in use in the array part, by slices |
| `LuaTable.Table.NumUseHash` | modules/lua/src/ltable.c:247-260 | all keys in use in the hash part, and by slices those that could go to the array part |
| `LuaTable.Table.Rehash` | modules/lua/src/ltable.c:333-349 | the same map with room for one more key, and the array part is the best one for the keys with the new one |
| `LuaTable.Table.ResizeArray` | modules/lua/src/ltable.c:327-330 | a larger array part with the same map |
| `LuaTable.Table.FindIndex` | modules/lua/src/ltable.c:137-159 | the place of a key in the traversal, before the first for nil, an error for a key that is not there |
| `LuaTable.Table.Next` | modules/lua/src/ltable.c:162-179 | the first live cell after that of the key |
| `LuaTable.TraversalIsComplete` | modules/lua/src/ltable.c:162-179 | a traversal from nil meets every key of the map |
| `LuaTable.TraversalRepeatsNothing` | modules/lua/src/ltable.c:162-179 | and none twice |
| `LuaTraversal.ChangedTraversalIsComplete` | modules/lua/src/ltable.c:162-179 | a traversal during which existing fields are assigned to or cleared meets every key that has a value all the time |
| `LuaTraversal.ChangedTraversalRepeatsNothing` | modules/lua/src/ltable.c:162-179 | and no key twice |
| `LuaTraversal.FieldsHaveCells` | modules/lua/src/ltable.c:494-503 | every existing field has a cell, so that assigning to it moves no key |
| `LuaTraversal.MetKeysAreThere` | modules/lua/src/ltable.c:162-179 | every key it meets has a value at that time |
| `LuaTraversal.MetKeysKeepTheirCells` | modules/lua/src/ltable.c:137-159 | and is still found at the next call, also if it has been cleared, so the traversal is not broken off |
| `LuaTable.Table.GetN` | modules/lua/src/ltable.c:560-576 | always a border: the index is zero or present and the next one is absent |
| `LuaTable.Table.UnboundSearch` | modules/lua/src/ltable.c:532-553 | a border in the hash part, also when doubling runs into the largest integer |
| `LuaRefs.OnlyBorder` | modules/lua/src/lauxlib.c:479-499 | without free cells a table of references has one border only, so the length does not depend on how it is found |
| `LuaRefs.References.Ref` | modules/lua/src/lauxlib.c:479-499 | a reference that was not live, now live with the value; all live ones keep theirs; nil gets the fixed reference |
| `LuaRefs.References.Unref` | modules/lua/src/lauxlib.c:502-510 | exactly the reference is given back, and negative ones are ignored |
| `LuaRefs.References.Read` | modules/lua/src/lauxlib.c:479-510 | a live reference has the value it was given |
| `LuaRefs.ReuseKeeps` | modules/lua/src/lauxlib.c:486-492 | taking the first free cell leaves the rest of the free list |
| `LuaRefs.ExtendKeeps` | modules/lua/src/lauxlib.c:493-497 | an index behind the border is new, although the last cell of the free list is a hole |
| `LuaRefs.FreeKeeps` | modules/lua/src/lauxlib.c:502-510 | a cell put in front of the free list |
| `LuaCode.FuncState.CompileToNextReg` | modules/lua/src/lcode.c:390-419 | for every expression of constants, locals, comparisons, not, and, or: the emitted code leaves the value of direct short-circuit evaluation in the next register and changes no local, whatever the registers hold |
| `LuaCode.FuncState.Compile` | modules/lua/src/lparser.c:828-853 | the descriptor, with its pending code and two jump lists, stands for the value of the expression |
| `LuaCode.FuncState.CompileAssignment` | modules/lua/src/lcode.c:472-500 | an assignment to a local leaves in it the value computed from the old one |
| `LuaCode.FuncState.Exp2Reg` | modules/lua/src/lcode.c:390-411 | whatever way the code takes, the value ends up in the register and both lists are closed |
| `LuaCode.FuncState.Discharge2Reg` | modules/lua/src/lcode.c:343-379 | the value of a descriptor without jumps goes to the register |
| `LuaCode.FuncState.Exp2AnyReg` | modules/lua/src/lcode.c:422-433 | the value is in some register, an existing one if it is there already |
| `LuaCode.FuncState.Exp2RK` | modules/lua/src/lcode.c:444-469 | an operand that is a register or a small constant and has the value |
| `LuaCode.FuncState.GoIf` | modules/lua/src/lcode.c:539-583 | control goes through exactly if the value is true (or false), and otherwise leaves by the list with the value kept |
| `LuaCode.FuncState.JumpOnCond` | modules/lua/src/lcode.c:524-536 | the jump is taken exactly on the given outcome; a negation just emitted is taken back |
| `LuaCode.FuncState.CodeNot` | modules/lua/src/lcode.c:586-618 | the descriptor stands for the negated value; the lists are exchanged and keep no values |
| `LuaCode.FuncState.CompileComparison` | modules/lua/src/lcode.c:673-686 | the jump of the comparison is taken exactly if the comparison holds, with operands exchanged for > and >= |
| `LuaCode.FuncState.JoinLists` | modules/lua/src/lcode.c:737-752 | and / or: the lists of both operands together stand for the value of the whole |
| `LuaCode.FuncState.AddK` | modules/lua/src/lcode.c:229-247 | the index of the constant, which is entered only if it is not there already |
| `LuaCode.NextInstruction` | modules/lua/src/lcode.c:163-166 | in the code completed by the next instruction every run arrives there with the same registers |
| `LuaJumps.CodeState.Concat` | modules/lua/src/lcode.c:185-196 | the second list becomes the end of the first |
| `LuaJumps.CodeState.PatchListAux` | modules/lua/src/lcode.c:150-160 | every jump of the list goes to the one or the other target, as its test keeps a value or not, and nothing else changes |
| `LuaJumps.CodeState.PatchTestReg` | modules/lua/src/lcode.c:131-141 | a test that keeps its value gets the register, or becomes one that keeps none |
| `LuaJumps.CodeState.RemoveValues` | modules/lua/src/lcode.c:144-147 | no test on the list keeps a value any more |
| `LuaJumps.CodeState.NeedValue` | modules/lua/src/lcode.c:122-128 | true exactly if some jump of the list has no value to keep |
| `LuaJumps.CodeState.Jump` | modules/lua/src/lcode.c:59-66 | jumps waiting for this place are put on the list of the new jump |
| `LuaJumps.CodeState.Emit` | modules/lua/src/lcode.c:789-801 | waiting jumps go to the new instruction |
| `LuaJumps.CodeState.PatchToHere` | modules/lua/src/lcode.c:179-182 | the list joins the jumps that wait for the next instruction |
| `LuaJumps.ChainJoin` | modules/lua/src/lcode.c:185-196 | two lists threaded through the code become one by the last link of the first |
| `LuaJumps.PatchMore` | modules/lua/src/lcode.c:150-160 | patching one jump does not disturb the links of those that follow |
| `LuaVm.CompletedRuns` | modules/lua/src/lvm.c:407-589 | completing code does not change its runs, except that they go on |
| `LuaVm.TruthIs` | modules/lua/src/lobject.h:103 | nil and false are false and all other values true; what and, or and not yield follows that |
| `LuaVm.TestsAre` | modules/lua/src/lopcodes.h:185-189 | the jump behind a test or comparison is taken exactly if its outcome is the one asked for |
| `LuaVm.TestSetIs` | modules/lua/src/lopcodes.h:190 | a test that keeps the value copies it exactly if the jump is taken |
| `LuaVm.LoadsAre` | modules/lua/src/lopcodes.h:154-178 | what the loads and the negation put where, and which of them skip |
| `LuaExp.JoinMeans` | modules/lua/src/lcode.c:737-752 | joining the lists of two operands gives short-circuit evaluation |
| `LuaExp.SwapMeans` | modules/lua/src/lcode.c:586-618 | exchanging the lists and dropping their values negates |
| `LuaExp.ClosingResults` | modules/lua/src/lcode.c:390-411 | with the lists closed every way through the code ends behind it with the value in the register |
| `LuaExp.CompareMeans` | modules/lua/src/lcode.c:673-686 | the test behind two operands branches on the comparison of their values |
| `LuaExp.HereBranches` | modules/lua/src/lcode.c:539-583 | patching the list of the outcome that goes through to here |
| `LuaExp.RelocMeans` | modules/lua/src/lcode.c:343-379 | a relocatable instruction computes the same once it has its register |
| `LuaGc.Collector.Run` | modules/lua/src/lgc.c:556-709 | in every interleaving of collector steps and program steps each step does what its command says, the invariant holds in every state, no step frees an object reachable before it, no field of an object that is alive refers to an object that is not there, and userdata are finalized in the order in which they are listed |
| `LuaGcSteps.NoBlackToWhite` | modules/lua/src/lgc.c:661-682 | while marking, no black object refers to a white one, userdata waiting for their finalizer excepted |
| `LuaGcSteps.ReachableAlive` | modules/lua/src/lgc.c:407-428 | in every state, also in the middle of a sweep, whatever is reachable from the main or running thread, the registry, the basic metatables or the userdata to be finalized, by any field of any object, strong or weak, is alive |
| `LuaHeap.ValsAreFields` | modules/lua/src/lgc.c:158-320 | the references of an object are those in its fields, kind by kind, and the strong ones those that no weak key or value holds |
| `LuaGcSteps.NoneDangle` | modules/lua/src/lgc.c:407-428 | in every state a reference in a field of an object that is alive names an object that is there |
| `LuaGcSteps.NoneDangleInPause` | modules/lua/src/lgc.c:407-428 | in the pause that is so for all objects |
| `LuaGcSteps.HeldStays` | modules/lua/src/lgc.c:525-607 | a collector step keeps every chain of references that goes through no weak table |
| `LuaGcFirm.FirmStays` | modules/lua/src/lgc.c:525-607 | a collector step keeps all that is firm: held by references that may go through weak tables, where an entry counts if its other side is firm or no object that could go |
| `LuaGcFirm.KeptSpares` | modules/lua/src/lgc.c:337-375 | weak tables lose only entries with a side that is not firm, or with a value that has been finalized, and no firm userdatum is finalized |
| `LuaGcFirm.FirmMarked` | modules/lua/src/lgc.c:525-545 | when the userdata are separated all that is firm is marked |
| `LuaGcFirm.FirmMore` | modules/lua/src/lgc.c:556-607 | so it is over any number of steps |
| `LuaGcSteps.HeldIsFirm` | modules/lua/src/lgc.c:501-512 | with no finalizer to be called whatever is held without weak tables is firm |
| `LuaGcSteps.HeldButSeparated` | modules/lua/src/lgc.c:543-544 | otherwise it need not be: with all marking done a userdatum held by way of one that waits for its finalizer may be white, and is separated to be finalized too |
| `LuaGc.Collector.FullGc` | modules/lua/src/lgc.c:635-658 | a full collection, started in any phase, ends in the pause with everything the program held without weak tables or firmly through them, weak tables with all entries whose sides are firm, and nothing that was not wanted at its start: all garbage is gone, and no field of any object refers to anything that is gone |
| `LuaGc.Collector.Cycle` | modules/lua/src/lgc.c:556-607 | a collection from pause to pause without interruption leaves only objects that a trail of strong references leads to from the roots or a finalizer still to be called, and all that is held or firm, entries of weak tables included |
| `LuaGcSteps.FinalizedFirst` | modules/lua/src/lgc.c:128-155 | no userdatum is freed while its finalizer is still to be called |
| `LuaGcReach.WantedEnough` | modules/lua/src/lgc.c:501-553 | what is wanted is closed under the references the collector follows and contains all it starts from |
| `LuaGcReach.SweepWants` | modules/lua/src/lgc.c:565-596 | a step of a sweep makes nothing wanted that was not |
| `LuaGcReach.MarkInside` | modules/lua/src/lgc.c:69-112 | marking an object of a closed set stays within the set |
| `LuaGc.Collector.constructor` | modules/lua/src/lstate.c:143-190 | a new state satisfies the invariant |
| `LuaGc.Collector.ReallyMark` | modules/lua/src/lgc.c:69-112 | marks nothing that strong references do not lead to; everything that turns from white is black with its references marked, gray on the list, or a gray string or open upvalue |
| `LuaGc.Collector.PropagateMark` | modules/lua/src/lgc.c:277-320 | one gray object is traversed, the tri-colour invariant is kept, and marking comes closer to its end |
| `LuaGc.Collector.MarkRoot` | modules/lua/src/lgc.c:501-512 | starts a collection from any state that has swept |
| `LuaGc.Collector.RemarkUpvals` | modules/lua/src/lgc.c:515-522 | the values of all marked open upvalues are marked, also those of dead threads |
| `LuaGc.Collector.SeparateUdata` | modules/lua/src/lgc.c:128-155 | exactly the white userdata not yet finalized are flagged, and exactly those of them with a finalizer join the list of userdata to be finalized, behind those already there and in the order of the list they come from |
| `LuaHeap.PickedInOrder` | modules/lua/src/lgc.c:128-155 | the separated userdata are in the order of the list they come from |
| `LuaGc.Collector.MarkTmu` | modules/lua/src/lgc.c:115-124 | every userdatum to be finalized is black with all its references marked |
| `LuaGc.Collector.ClearTables` | modules/lua/src/lgc.c:337-375 | no table refers to a white object any more; only weak entries are removed, and only those with a white or finalized object |
| `LuaGc.Collector.Atomic` | modules/lua/src/lgc.c:525-553 | after the flip everything reachable is alive and everything outside a closed set around the roots is dead, no object has lost anything but cleared weak entries, all that is firm is marked and not newly finalized, and all but the userdata to be finalized wait for the sweep |
| `LuaGc.Collector.SweepObject` | modules/lua/src/lgc.c:407-428 | a dead object is freed, any other turns to the current white |
| `LuaGc.Collector.SweepThread` | modules/lua/src/lgc.c:407-428 | the dead upvalues of the thread go, the others turn white; if the thread is dead they take their values along |
| `LuaGc.Collector.CallFinalizer` | modules/lua/src/lgc.c:445-471 | the first userdatum is an ordinary object again and, with its finalizer, on top of the stack |
| `LuaGc.Collector.SingleStep` | modules/lua/src/lgc.c:556-607 | keeps the invariant, frees only garbage, keeps what is held, and brings the collection closer to its end |
| `LuaGc.Collector.Store` | modules/lua/src/lgc.c:661-671 | a store with the forward barrier keeps the invariant in every phase and changes no other object but colours |
| `LuaGc.Collector.StoreTable` | modules/lua/src/lgc.c:674-682 | a store into a table with the backward barrier keeps the invariant in every phase |
| `LuaGc.Collector.NewObject` | modules/lua/src/lgc.c:685-691 | a new object of the current white, in every phase |
| `LuaGc.Collector.SetSlot` | modules/lua/src/lfunc.c:53-79 | a stack slot, also of a dead thread behind a living upvalue, is written without a barrier |
| `LuaGc.Collector.SetUpvalue` | modules/lua/src/lvm.c:451-457 | the upvalue has the new value, on a stack or of its own |
| `LuaGc.Collector.Intern` | modules/lua/src/lstring.c:75-93 | a dead string that is found again is alive |
| `LuaGc.Collector.FindUpval` | modules/lua/src/lfunc.c:53-79 | an upvalue for the slot, an old one, dead or alive, if there is one |
| `LuaGc.Collector.CloseUpvals` | modules/lua/src/lfunc.c:96-112 | no upvalue of the thread is open from the level up, and every upvalue left has the value it had |
| `LuaGc.Collector.CloseGray` | modules/lua/src/lgc.c:694-709 | a gray upvalue closed while marking turns black with its value, which is marked |
| `LuaGc.Collector.SetMetatable` | modules/lua/src/lgc.c:493-497 | the metatables of the basic types need no barrier |
| `LuaGcSteps.BackInv` | modules/lua/src/lgc.c:674-682 | turning a black table gray again restores the invariant, in the sweep too |
| `LuaGcSteps.ForwardInv` | modules/lua/src/lgc.c:661-671 | marking the stored value restores the invariant |
| `LuaGcSteps.WhitenInv` | modules/lua/src/lgc.c:661-671 | outside the marking the object may turn white instead |
| `LuaGcSteps.RescuedInv` | modules/lua/src/lfunc.c:62-63 | a dead string or open upvalue the sweep has not reached may be used again |
| `LuaGcSteps.ThreadSweptInv` | modules/lua/src/lgc.c:407-428 | sweeping a thread with its upvalues keeps the invariant |
| `LuaGcSteps.ResetInv` | modules/lua/src/lgc.c:635-647 | a marking may be given up at any point and swept as if finished |
| `LuaHeap.ClearedVals` | modules/lua/src/lgc.c:337-375 | after clearing, a table refers to strings and marked objects only |
| `LuaMatch.MatchState.Match` | modules/lua/src/lstrlib.c:365-440 | for every pattern and subject: exactly the first outcome of the list, its end and captures; without an outcome the captures are as they were; the errors of malformed patterns at the point where the search meets them |
| `LuaPatternText.OutcomesMean` | modules/lua/src/lstrlib.c:365-440 | for every pattern written by the manual, from single characters, classes, sets, repetitions, captures, places, balanced strings, frontiers and back references, and every subject: the outcomes, in order, are those that the manual gives to what is written |
| `LuaPatternText.WholeMeans` | modules/lua/src/lstrlib.c:507-530 | the same for whole patterns, anchored or not |
| `LuaPatternText.SetIs` | modules/lua/src/lstrlib.c:202-265 | a set written with members stands for exactly the bytes of its members, or all others in a complement |
| `LuaPatternText.CharsAre` | modules/lua/src/lstrlib.c:202-275 | so does every other single character item: itself, escaped, any, or a class by its table of bytes |
| `LuaPatternText.ClassMatches` | modules/lua/src/lstrlib.c:225-242 | a class on a subject of one byte matches exactly the bytes of the class, in upper case exactly the others |
| `LuaPatternText.RepetitionsMatch` | modules/lua/src/lstrlib.c:421-435 | the repetitions on n copies of a byte: star n down to 0, plus n down to 1, minus 0 up to n, question mark 1 and 0 |
| `LuaPatternText.EndMatches` | modules/lua/src/lstrlib.c:406-411 | a final dollar matches exactly at the end of the subject |
| `LuaPatternText.BorderMatches` | modules/lua/src/lstrlib.c:382-396 | a frontier matches exactly between a byte outside the set and one in it |
| `LuaPatternText.TwiceMatches` | modules/lua/src/lstrlib.c:397-405 | a back reference matches exactly the captured text again |
| `LuaChoices.OutcomesAreChoices` | modules/lua/src/lstrlib.c:296-440 | the outcomes are exactly those of all choices of how often each item is repeated |
| `LuaChoices.FirstChoice` | modules/lua/src/lstrlib.c:296-440 | the first outcome is that of a choice preferred to all others: more repetitions first, fewer after a minus |
| `LuaPattern.OutcomesSound` | modules/lua/src/lstrlib.c:329-440 | a match and its captures lie within the subject, and finished captures are not changed |
| `LuaPattern.BalanceEndIs` | modules/lua/src/lstrlib.c:281-293 | a balanced match ends at the first place where as many closing as opening characters have been seen |
| `LuaMatch.MatchState.MaxExpand` | modules/lua/src/lstrlib.c:296-313 | the first outcome with the most repetitions that have one |
| `LuaMatch.MatchState.MinExpand` | modules/lua/src/lstrlib.c:316-326 | the first outcome with the fewest repetitions that have one |
| `LuaMatch.MatchState.StartCapture` | modules/lua/src/lstrlib.c:329-340 | a new capture, taken back if the rest fails; too many are an error |
| `LuaMatch.MatchState.EndCapture` | modules/lua/src/lstrlib.c:343-351 | the last open capture is closed, and opened again if the rest fails |
| `LuaMatch.MatchState.MatchCapture` | modules/lua/src/lstrlib.c:186-191 | an open or missing capture is an error |
| `LuaMatch.MatchState.MatchItem` | modules/lua/src/lstrlib.c:412-438 | a single character item with its repetition |
| `LuaMatch.MatchState.MatchEscape` | modules/lua/src/lstrlib.c:377-405 | balanced strings, frontiers and back references |
| `LuaMatch.MatchState.ClassEnd` | modules/lua/src/lstrlib.c:202-223 | the end of a set is the first closing bracket that is neither escaped nor first |
| `LuaMatch.MatchState.MatchBracketClass` | modules/lua/src/lstrlib.c:245-265 | a character is in the set exactly if one of its ranges, classes or characters has it, or none in a complement |
| `LuaMatch.MatchState.MatchBalance` | modules/lua/src/lstrlib.c:278-293 | the end of the balanced text, if there is one |
| `LuaMatch.MatchState.CaptureToClose` | modules/lua/src/lstrlib.c:194-199 | the last unfinished capture |
| `LuaMatch.MatchState.Find` | modules/lua/src/lstrlib.c:507-530 | the leftmost start with an outcome, and the first outcome there; only the first start if the pattern is anchored; a match that leaves a capture open is an error |
| `LuaMatch.MatchState.PushCaptures` | modules/lua/src/lstrlib.c:466-492 | the captures can be delivered exactly if all are closed |
| `LuaMatch.MatchState.Substitute` | modules/lua/src/lstrlib.c:644-680 | the subject is cut in order, without gap or overlap, into kept text and matches; the matches are chosen from the left, each the first outcome at its start, none passed over and none taken twice, up to the limit or the end, only at the start if the pattern is anchored; an error is raised exactly where the choice comes to one |
| `LuaCut.OneSubstitution` | modules/lua/src/lstrlib.c:644-680 | this determines the result: the matches, their number, the error and, for every replacement, the text are the same for every way of cutting that satisfies it |
| `LuaCut.TextIsRendered` | modules/lua/src/lstrlib.c:644-680 | the text is that of the matches with the subject between them, however the kept text is cut |
| `LuaCut.TextKept` | modules/lua/src/lstrlib.c:644-680 | replacing every match by itself gives the subject back |
| `LuaQuote.QuoteRoundTrip` | modules/lua/src/llex.c:278-331 | reading the quoted form of any byte string, anywhere in a chunk, gives the string back and counts its lines, exactly if the line numbers do not run out; otherwise that is the error |
| `LuaQuote.TooManyLinesFail` | modules/lua/src/llex.c:129-137 | they do run out: 2^31 - 4 line ends are quoted but not read back from line 1 |
| `LuaQuote.AddQuoted` | modules/lua/src/lstrlib.c:696-723 | the loop writes the quoted form |
| `LuaQuote.LexState.ReadString` | modules/lua/src/llex.c:278-331 | the reader returns the string up to the first delimiter that is not escaped, or the error |
| `LuaEscapes.LiteralRead` | modules/lua/src/llex.c:278-331 | a literal written with plain bytes, the seven letters, one to three digits, line ends and other escaped bytes is read as the bytes these mean, and its lines are counted |
| `LuaEscapes.LiteralFails` | modules/lua/src/llex.c:278-331 | where the parts end with neither a part nor the delimiter the reader fails with that error: end of input, raw line end, escape above 255 |
| `LuaEscapes.LiteralOrNot` | modules/lua/src/llex.c:278-331 | every input is one or the other, so exactly the literals are read |
| `LuaEscapes.NamedRead` | modules/lua/src/llex.c:288-299 | the seven letters name the bytes 7, 8, 9, 10, 11, 12 and 13 |
| `LuaQuote.LexState.ReadDigits` | modules/lua/src/llex.c:309-318 | at most three digits, and their value |
| `LuaQuote.LexState.IncLineNumber` | modules/lua/src/llex.c:129-137 | one line end of one or two different characters is skipped and counted |
| `LuaQuote.ReadBack` | modules/lua/src/lstrlib.c:696-723 | writing and reading back in sequence returns the string |

## Left out

- Memory orders weaker than sequential consistency, fences, cache-line layout and transactional
  elision in Concurrency Kit; every primitive is one atomic step.
- Reuse of queue entries in `ck_fifo_mpmc`, which resets their generation: entries are fresh.
- `ck_stack_batch_pop_mpmc`, which does not advance the generation, and the variants of stack,
  queue and ring for a single producer and consumer.
- `ck_epoch_synchronize`, `ck_epoch_barrier` and `ck_epoch_reclaim`: a resumed scan clears the
  record of active sections, so the grace period does not follow for them.
- CkEpoch.GracePeriod: for callers that poll outside their own read sections, and callbacks that do
  not defer, with a section open, onto a list the same poll dispatches later, which
  `CkEpochDeferral.DeferralIsSafeExactly` shows to be the exact condition.
- Callbacks of `ck_epoch_poll` that open read sections or poll again inside the poll that runs them;
  a callback may defer any number of times.
- Wrap-around of the 32-bit and 64-bit counters of `CkPflock`, `CkFifo`, `CkStack`, `CkRing` and
  `CkEpoch`, which are unbounded here; that of `CkTflock` is modelled.
- Schedulers: progress is stated as what a call does when left alone, and as what the threads inside
  a lock or barrier can bring about; that some call always succeeds under contention is not.
- CkTflockProgress.NobodyWaitsInVain: for fewer than 2^15 threads inside the lock, as its words can
  tell apart.
- CkEpochProgress.PollAlone: the callbacks it runs do not defer again.
- Termination of `ck_hs_grow` beyond the allocations granted: it depends on how the hash spreads.
- `ck_hs_apply`, iteration, statistics and `ck_hs_move`; pointer packing of hash bits; readers
  concurrent with the writer of `ck_hs`; a failing `ck_hs_init`.
- `ck_ht.c`, `ck_rhs.c`, `ck_hp.c` and the simple locks, which would add easier members of families
  already here or do not refine what they should.
- LuaTable.Table.Resize: for array parts of at most 2^26 cells, the bound of `rehash`; the error for
  node vectors that are too large is not modelled.
- LuaTable.Table.ResizeArray: for growing, the only way the virtual machine and the API use it.
- LuaTable.Table.SetNodeVector: an empty hash part has no node instead of the shared dummy node.
- Keys of tables are compared as values: hashing of numbers, strings and pointers is one function
  that depends on the key only. Dead keys, which the collector leaves behind, are not table keys here.
- LuaCode.FuncState.Compile: expressions of constants, locals, comparisons, `not`, `and` and `or`;
  no arithmetic, calls, indexing, upvalues and globals, no metamethods behind comparisons. Loads of
  nil are not merged with the ones before them.
- The limits of the code generator (registers, constants, jump distances) and line information.
- LuaGc.Collector.SingleStep: sweeps one object at a time, in any order, instead of a bucket of
  strings or forty objects of a list; the steps of the source are sequences of these. Objects created
  during a sweep count as swept.
- LuaGcFirm.FirmStays: references of userdata that wait for their finalizer make nothing firm, because
  the collector separates other userdata before it follows them (`LuaGcSteps.HeldButSeparated`).
- LuaGc.Collector.CallFinalizer: up to the call; the body of a finalizer is any sequence of steps.
- LuaGc.Collector.FindUpval: searches all open upvalues instead of the sorted list of the thread.
- The pace of the collector, stack shrinking, resizing of the string table, `luaC_freeall`, and
  fixed strings. Operands of program steps are alive, which everything the program can reach is.
- `lua_State` creation of other library roots, threads of the API, hooks and error unwinding.
- LuaMatch.MatchState.Substitute: cuts the subject; what a replacement string, table or function
  makes of a match, with the error for a capture it uses and the match left open, is a parameter of
  `LuaMatch.Text`.
- `string.gmatch`, plain search, `posrelat`, and the C stack that deep patterns need.
- Locales other than "C" for character classes; bytes are unsigned.
- LuaQuote.LexState.ReadString: the buffer of the lexer does not run out of memory.
- The other formats of `string.format`, long strings and the rest of the lexer and grammar.
