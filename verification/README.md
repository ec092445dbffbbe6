# Verified model of the front-haul sample application and its shared-memory library

The project models three parts of the repository and proves what they are for.

**The event-chain scheduler** of the sample application. A slot of one cell is a graph of tasks. The
callback of a TTI resets two arrays of counters and generates the first events; every finishing split of
an event then adds one to the status of each successor, loads the successor's count in a separate
access, and generates the successor when the two agree; generating an event that splits first raises the
counts of its successors. `Scheduler` is the state machine of these accesses: threads are deterministic,
a run is a schedule, and all schedules are considered. `Ledger` holds the counter equations of every
reachable state. `RootFiring` and `OncePerSlot` treat slots in which only events without predecessors are
injected: any acyclic graph, any split counts. `Reinjection` and `CallbackSlot` treat the callback's own
list, which also injects events that have predecessors, and `OrderExactly` says when the order of the
graph can be relied on. `Termination` is the measure both use. `EventChain` has the tables and loops of
the program, tied to the state machine. `GnbTaskMap` is the real task map for both builds, and `MapOrder`
what each of its events may rely on; `HaltedRun` finds how far a slot gets when some splits are kept
waiting, and `OutOfOrder` which events of the real map re-injection lets run too early.

**The shared-memory transport**: rings (`Ring`, `MsgQueue`), the ring under field-by-field interleaving of
its two sides (`SpscRing`), the two-queue link with its drain loop (`WlsLink`, `LinkRun`, `LinkOrder`,
`LinkLists`), the block allocator (`BlockPool`), the loan of blocks from master to slave (`Lending` for the
loop that lends; `LoanSteps`, `LoanCalls` and `BlockLoan` for both programs running side by side), and
address translation (`PageTable`).

**Front-haul helpers**: the packer of multi-section U-plane messages of section 6.3 of O-RAN.WG4.CUS.0
(`SectionTiling`, `SectionWriter`, `SectionPacker`, `PacketLayout`, `PacketReads`, `PacketMtu`), the symbol
clock of all numerologies (`SymbolClock`, `ClockSync`, `ClockStart`), the layer splits of the tasks
(`LayerSplits`), and the TDD slot classifier of section 11.1 of 3GPP TS 38.213 (`SlotTypes`). `Arith`,
`Counting` and `Sums` serve several of these.

Where the code does not keep a promise on all inputs, a theorem says exactly when it does:

- a drain that meets a full peer puts the message it holds behind the others: messages arrive in the order
  they were put as long as no more than one over the peer's capacity are under way, and with no larger
  bound once the sender queues two (`LinkOrder.OrderExactly`, `LinkRun.FifoExactly`, `WlsLink.DrainOrder`;
  `LinkOrder.Overtaking` is such a run);
- no event runs before its predecessors are done if and only if the callback injects only events without
  predecessors (`OrderExactly.OrderExactly`). The real callback injects others: seven events of the map can
  then be unlocked before a predecessor has signalled, and no other below the configuration events
  (`OutOfOrder.OutOfTurnExactly`; `OutOfOrder.SymBeforeRs` is such a run); none is unlocked twice
  (`CallbackSlot.UnlockedOnce`);
- the pool lists every block once only while the last block's offset fits 32 bits
  (`BlockPool.InitListsEachOnce`);
- translation there and back needs aligned, distinct physical pages (`PageTable.RoundTripExactly`), and the
  table of pages is overrun from 32 pages on (`PageTable.Mapping.Alloc`);
- sections tile an element only for the counts of `SectionTiling.TilesExactly`; packets of several elements
  are within the MTU when the packer counts enough for each, which `PacketMtu.TrackedCovers` characterises,
  and only then (`PacketMtu.MtuExactly`); uncompressed data is not counted at all
  (`PacketMtu.UncompressedExceedsMtu`);
- the symbol clock is in step from the first second boundary on (`ClockSync.EveryIteration`); without one,
  exactly once a counter has met the current symbol (`ClockStart.InStepExactly`), so that after the start
  the timer's own numerology leaves out 13 symbols while the lower ones are in step at once
  (`ClockStart.FirstSymbols`); its tuning to the second boundary is 8154 ns off at numerology 1
  (`ClockSync.SecondDrift`).

## Model

| member | source | states |
|---|---|---|
| Ledger.StatStep | fhi_lib/app/src/app_bbu_pool.c:463 | every step keeps: the status of each event is the number of signals its predecessors' splits have executed, and of fetch-adds on record |
| Ledger.CountStep | fhi_lib/app/src/app_bbu_pool.c:509-514 | every step that raises counts in row order keeps: each count is the external wake-ups plus, per edge, the split count of the predecessor once its increment was made and 1 before |
| Ledger.TicketStep | fhi_lib/app/src/app_bbu_pool.c:463-464 | a thread between its fetch-add and its load still holds the value its own fetch-add returned, whatever the others did meanwhile |
| Ledger.InitCount | fhi_lib/app/src/app_bbu_pool.c:328-344 | the counts after a reset are the in-degrees, in the form of the count equation |
| RootFiring.StatVsCount | fhi_lib/app/src/app_bbu_pool.c:463-464 | the status never passes the count, and meets it only when every split of every predecessor has signalled |
| RootFiring.FiringMoment | fhi_lib/app/src/app_bbu_pool.c:463-466 | a thread whose loaded count equals its fetch-add result is the last signaller of an event not generated before, with all predecessors done, although the two values were read at different moments |
| RootFiring.InvStep | fhi_lib/app/src/app_bbu_pool.c:455-468 | every step of every thread keeps the invariant of slots with root injections only |
| RootFiring.InvRun | fhi_lib/app/src/app_bbu_pool.c:455-468 | the invariant holds after every schedule |
| OncePerSlot.EveryState | fhi_lib/app/src/app_bbu_pool.c:455-468 | in every reachable state each event was generated at most once, has all its splits or none, and status equals count only with all predecessors done |
| OncePerSlot.PathRespected | fhi_lib/app/src/app_bbu_pool.c:455-468 | when a split of an event exists, every split of every transitive predecessor has been sent and has signalled the next event of the path |
| OncePerSlot.DependencySafety | fhi_lib/app/src/app_bbu_pool.c:455-468 | the same, stated for every schedule |
| OncePerSlot.ExactlyOnce | fhi_lib/app/src/app_bbu_pool.c:455-468 | at the end of any complete run an event was generated once if it is live and never otherwise, by the thread with the last fetch-add on it, and all its splits finished |
| OncePerSlot.OnlyLive | fhi_lib/app/src/app_bbu_pool.c:455-468 | nothing but live events is generated in any reachable state |
| OncePerSlot.LiveBorn | fhi_lib/app/src/app_bbu_pool.c:455-468 | at quiescence every live event has been generated: no signal is lost between the fetch-add and the load |
| OncePerSlot.RunsEnd | fhi_lib/app/src/app_bbu_pool.c:435-471 | every run is no longer than a bound known from the configuration |
| OncePerSlot.Completes | fhi_lib/app/src/app_bbu_pool.c:435-471 | from every reachable state some schedule completes the slot |
| Termination.MeasureStep | fhi_lib/app/src/app_bbu_pool.c:435-545 | every step of a thread lowers a measure over ungenerated events and unfinished splits |
| Reinjection.InvStep | fhi_lib/app/src/app_bbu_main.c:194-214 | every step keeps the invariant of slots whose callback also injects events with predecessors |
| Reinjection.InvRun | fhi_lib/app/src/app_bbu_main.c:194-214 | that invariant holds after every schedule |
| Reinjection.CountFrozen | fhi_lib/app/src/app_bbu_pool.c:463-464 | from the first split of any predecessor on, no step of any thread changes the count a successor is compared with: loading it before or after the own fetch-add gives the same |
| CallbackSlot.EveryState | fhi_lib/app/src/app_bbu_pool.c:463-466 | with re-injection an event is still unlocked at most once, by the one thread whose fetch-add returned the final count, and has the splits its generations account for |
| CallbackSlot.LiveReached | fhi_lib/app/src/app_bbu_pool.c:463-466 | at quiescence every live event was sent, and one that waits for live predecessors was unlocked exactly once |
| CallbackSlot.UnlockedOnce | fhi_lib/app/src/app_bbu_main.c:194-214 | how a complete run leaves each event: splits of its injections and of at most one unlock, all finished, even where the status overshoots the count |
| HaltedRun.SinglesAreWaitedFor | fhi_lib/app/src/app_bbu_pool.c:463-466 | an event none of whose predecessors the callback can cause to be generated twice is never unlocked before all of them have signalled, in any reachable state |
| HaltedRun.OnlyOneIsWaitedFor | fhi_lib/app/src/app_bbu_pool.c:463-466 | neither is an event with a single predecessor, however often that one runs |
| HaltedRun.UnlockedWithout | fhi_lib/app/src/app_bbu_pool.c:463-466 | a predecessor that runs twice makes up for one that has a signal to go: the event is unlocked and sent without it |
| OrderExactly.OrderExactly | fhi_lib/app/src/app_bbu_main.c:194-214 | for any graph, split counts and injection list, no schedule ever gives an event splits before all its predecessors are done, if and only if every injected event is without predecessors |
| CallbackSlot.RunsEnd | fhi_lib/app/src/app_bbu_main.c:194-214 | every run with re-injection ends |
| CallbackSlot.RunsUntil | fhi_lib/app/src/app_bbu_main.c:194-214 | from any reachable state a slot can run to the end of every other thread while chosen splits wait to be picked up, or have stopped before one of their signals |
| CallbackSlot.Completes | fhi_lib/app/src/app_bbu_main.c:194-214 | from every reachable state some schedule completes the slot |
| EventChain.MapCountIsInDegree | fhi_lib/app/src/app_bbu_pool.c:334-344 | counting the entries of the padded map gives the in-degrees of the graph its rows describe |
| EventChain.ChainDesc.Gen | fhi_lib/app/src/app_bbu_pool.c:314-353 | the loops that copy the map leave the number of successors and, per event, the external wake-ups plus its occurrences in the map |
| EventChain.ChainDesc.Reset | fhi_lib/app/src/app_bbu_pool.c:355-368 | a reset zeroes all status values and restores all counts |
| EventChain.ChainDesc.GenAndReset | fhi_lib/app/src/app_bbu_pool.c:314-368 | a generated and re-armed chain is the initial state of the state machine |
| EventChain.ChainDesc.TestFuncGen | fhi_lib/app/src/app_bbu_pool.c:501-535 | generating an event, undisturbed, is a run of raise and send steps of the generating thread; the pool gets one control structure for each split, in order, and the machine that many more waiting splits of that event and of no other |
| EventChain.ChainDesc.NextEventUnlock | fhi_lib/app/src/app_bbu_pool.c:435-471 | unlocking, undisturbed, is exactly the run of the thread from its first signal to its end; what the pool gets meanwhile is every split of every event generated, as often as it was, and nothing else |
| GnbTaskMap.RowFits | fhi_lib/app/src/app_bbu_pool.c:156-285 | every row of the real map is left-packed and names existing events, in both builds |
| GnbTaskMap.MapShape | fhi_lib/app/src/app_bbu_pool.c:156-285 | the real map has a rank that grows along every edge, and its downlink and uplink parts are not connected |
| GnbTaskMap.MapRoots | fhi_lib/app/src/app_bbu_pool.c:156-285 | nothing leads to DL_CONFIG, UL_CONFIG, UL_TX or an unchained event |
| MapOrder.WaitsForExactly | fhi_lib/app/src/app_bbu_pool.c:156-285 | the literal list of the events that signal each event of the chain is that of the real map |
| MapOrder.CountsAfterReset | fhi_lib/app/src/app_bbu_pool.c:314-368 | after a reset each event of the chain waits for as many signals as events are listed |
| MapOrder.AheadExactly | fhi_lib/app/src/app_bbu_pool.c:156-285 | the literal list of events ahead of each event is that of the events from which the map leads to it |
| MapOrder.RunsAfter | fhi_lib/app/src/app_bbu_pool.c:156-285 | in every reachable state of a slot started by the two configuration events, an event that has a split runs after all events listed ahead of it: each was sent in full, and each of its splits has signalled every successor on the way |
| MapOrder.PostsRunLast | fhi_lib/app/src/app_bbu_pool.c:156-285 | DL_POST runs after every other downlink event of the chain, UL_POST after every other uplink event but UL_TX |
| GnbTaskMap.ChainRunsOnce | fhi_lib/app/src/app_bbu_pool.c:156-285 | injecting DL_CONFIG and UL_CONFIG, every complete run generates each event of the chain exactly once, DL_POST and UL_POST among them, and no other |
| GnbTaskMap.OnlyConfigsRaise | fhi_lib/app/src/app_bbu_pool.c:104-154 | with the pre-event functions of the event table and one split per cell, only the two configuration events raise counts |
| GnbTaskMap.CallbackStaged | fhi_lib/app/src/app_bbu_main.c:71-85 | the callback's lists inject each splitting event before anything of its part of the map, and none twice |
| GnbTaskMap.CallbackRuns | fhi_lib/app/src/app_bbu_main.c:194-214 | every complete run of the callback's slot unlocks each event below the configuration events exactly once; the re-injected ones run twice, the rest once |
| OutOfOrder.OutOfTurnExactly | fhi_lib/app/src/app_bbu_main.c:71-85 | of the events below the configuration events, exactly seven can be unlocked by some schedule before a predecessor has delivered the signals of one generation, for every build and split count |
| OutOfOrder.RunsOutOfTurn | fhi_lib/app/src/app_bbu_main.c:71-85 | for each of the seven a run in which it was unlocked and has finished while a named predecessor lacks a signal |
| OutOfOrder.SymBeforeRs | fhi_lib/app/src/app_bbu_main.c:71-85 | for every build and split count there is a run in which DL_PDSCH_SYM has finished while no split of its predecessor DL_PDSCH_RS has started |
| OutOfOrder.CallbackSends | fhi_lib/app/src/app_bbu_main.c:194-214 | the callback can be through before any split is picked up; then exactly nine named events have been sent, the seven that wait for a predecessor included, and none has begun |
| Ring.LevelIsCount | wls_lib/syslib.c:183-193 | the computed level is the number of items, at most size - 1; full and empty are recognised exactly |
| Ring.PushItems | wls_lib/syslib.c:368-391 | writing the free slot and advancing appends one item and changes no other |
| Ring.PopItems | wls_lib/syslib.c:421-433 | advancing past the oldest slot removes exactly the oldest item |
| MsgQueue.MessageQueue.constructor | wls_lib/syslib.c:343-355 | a new queue is empty |
| MsgQueue.MessageQueue.Enqueue | wls_lib/syslib.c:357-396 | a message is appended unless size - 1 are queued, which leaves the queue unchanged |
| MsgQueue.MessageQueue.Dequeue | wls_lib/syslib.c:398-438 | the oldest message is returned and removed; an empty queue, and a read index outside the ring, are left alone |
| MsgQueue.MessageQueue.NumItems | wls_lib/syslib.c:195-198 | the number of messages queued |
| MsgQueue.BlockQueue.constructor | wls_lib/syslib.c:172-181 | a queue of 8-byte words over the given bytes of storage, empty |
| MsgQueue.BlockQueue.Enqueue | wls_lib/syslib.c:84-110 | a block is appended unless size - 1 are queued |
| MsgQueue.BlockQueue.Dequeue | wls_lib/syslib.c:113-136 | the oldest block is returned and removed, 0 for an empty queue |
| SpscRing.StepInv | wls_lib/syslib.c:357-438 | every single access of either side keeps: the ring holds exactly what is enqueued and not yet dequeued |
| SpscRing.FifoUnderInterleaving | wls_lib/syslib.c:357-438 | for every interleaving of the accesses, what came out is a prefix of what went in, all fields intact, and the ring never holds more than size - 1 |
| SpscRing.NoOverwrite | wls_lib/syslib.c:384-391 | no field of an unread message is ever written |
| SpscRing.GivesUpRightly | wls_lib/syslib.c:374-421 | a side gives up exactly when the ring is full, or empty, at the moment it looks |
| SpscRing.NobodyWaits | wls_lib/syslib.c:357-438 | whatever the other side does, each access of a side brings its operation one nearer to its end or gives it up |
| SpscRing.OfferAlone | wls_lib/syslib.c:357-396 | the accesses of an enqueue, made with nobody in between, append the message unless the ring is full |
| SpscRing.TakeAlone | wls_lib/syslib.c:398-438 | those of a dequeue take the oldest message unless there is none |
| WlsLink.ListFlags | wls_lib/wls_lib.h:24-36 | how the flag words of single messages and lists are treated; the URLLC and LTE bits make no difference |
| WlsLink.AnyFlags | wls_lib/wls_lib_dpdk.c:490-536 | how each of the 65536 flag words is treated, by its bits |
| WlsLink.FlaggedLists | wls_lib/wls_lib.h:24-36 | messages flagged first, next, ..., last are a list |
| WlsLink.Client.OfferFront | wls_lib/wls_lib_dpdk.c:346-360 | one turn of the drain: the front message moves to the peer, or to the back of its own queue, which always has room |
| WlsLink.Client.ProcessPut | wls_lib/wls_lib_dpdk.c:343-383 | the drain moves what fits in order and puts the next message behind the rest |
| WlsLink.Client.Put | wls_lib/wls_lib_dpdk.c:481-544 | what each kind of put does to both queues and returns, with a full queue and with no peer |
| WlsLink.Client.Get | wls_lib/wls_lib_dpdk.c:546-564 | the oldest received message and its address, 0 for none |
| WlsLink.DrainConserves | wls_lib/wls_lib_dpdk.c:343-361 | a drain neither loses nor makes up messages, only extends the peer's queue, and empties the put queue exactly when everything fits |
| WlsLink.DrainOrder | wls_lib/wls_lib_dpdk.c:352-359 | a drain keeps the order of delivery exactly when at most one message is left behind |
| WlsLink.HeldBack | wls_lib/wls_lib_dpdk.c:495-509 | first and next puts of a list change nothing the peer can see |
| WlsLink.ListAppearsAtOnce | wls_lib/wls_lib_dpdk.c:495-522 | a list of any length that fits is invisible before its last put and then in the peer's queue as a whole and in order |
| LinkRun.RunInv | wls_lib/wls_lib_dpdk.c:343-361 | bounds, conservation and order of the link hold at every moment, also while the receiver reads during a drain |
| LinkLists.PutEvent | wls_lib/wls_lib_dpdk.c:481-544 | with nobody reading, a put and the drain steps after it leave both queues as the contract of `WlsLink.Client.Put` says; a message held back starts no drain |
| LinkLists.HeldStaysHeld | wls_lib/wls_lib_dpdk.c:495-509 | while only messages of unfinished lists are put, nothing becomes visible to the receiver, however it reads; the put queue takes what fits, in order |
| LinkLists.NothingBeforeTheEnd | wls_lib/wls_lib_dpdk.c:495-509 | from the start, such a run delivers nothing at all |
| LinkLists.ListArrives | wls_lib/wls_lib_dpdk.c:495-522 | in any run that puts one list that fits, the receiver reading as it likes, exactly the list has become visible when the sender is through, whole and in order |
| LinkRun.Conserved | wls_lib/wls_lib_dpdk.c:343-361 | over any run, messages accepted are, as a multiset, those delivered and those on their way; in order unless one was put back behind others |
| LinkRun.FifoExactly | wls_lib/wls_lib_dpdk.c:352-359 | distinct messages stay in order at every moment of a run exactly when no drain met a full peer with more messages waiting |
| LinkOrder.OrderExactly | wls_lib/wls_lib_dpdk.c:343-361 | all runs with at most so many messages under way deliver in order if and only if that bound is at most the peer's capacity plus one, or the sender queues at most one |
| LinkOrder.Overtaking | wls_lib/wls_lib_dpdk.c:352-359 | for every capacity from two messages at the sender and one at the peer, a run in which a message reaches the peer before the one put ahead of it |
| LinkRun.OfferInv | wls_lib/wls_lib_dpdk.c:352-359 | the message that does not fit always finds room in its own queue, also with the receiver reading |
| LinkRun.DrainStepsAreDrained | wls_lib/wls_lib_dpdk.c:343-361 | with nobody reading, the single steps of a drain come to what the drain method does |
| BlockPool.Pool.constructor | wls_lib/testapp/pool.c:57-87 | the ring after initialisation lists the index of every block's offset, the offset computed in 32 bits |
| BlockPool.Pool.Alloc | wls_lib/testapp/pool.c:89-123 | the address of the oldest free block, which leaves the ring; NULL and no change when there is none |
| BlockPool.Pool.PutBack | wls_lib/testapp/pool.c:125-149 | the index of the block an address lies in is appended, also by a free too many, which empties the ring |
| BlockPool.Pool.GetFreeNum | wls_lib/testapp/pool.c:151-171 | the number of free blocks |
| BlockPool.AddressRoundTrip | wls_lib/testapp/pool.c:114-135 | any address inside a block maps back to the block it was handed out for |
| BlockPool.InitListsEachOnce | wls_lib/testapp/pool.c:80-84 | initialisation lists every block exactly once if and only if the last offset fits 32 bits |
| BlockPool.EveryRun | wls_lib/testapp/pool.c:89-149 | over any sequence of allocations and frees of held blocks, ring and held blocks partition the pool and their numbers add up |
| BlockPool.DoKeepsPartition | wls_lib/testapp/pool.c:89-149 | each operation keeps the partition, and a free of a held block finds room |
| BlockPool.InitialPartition | wls_lib/testapp/pool.c:57-87 | a fresh pool starts such runs if and only if its last offset fits 32 bits |
| Lending.EnqueueBlock | wls_lib/wls_lib_dpdk.c:1093-1127 | 1, 0 or -1, and when the block is queued |
| Lending.Turn | wls_lib/testapp/testapp.c:246-256 | one turn of the lending loop on pool and queue |
| Lending.Replenish | wls_lib/testapp/testapp.c:645-656 | the lending loop moves blocks as the recursive description says, in every case of the enqueue |
| Lending.LendFills | wls_lib/testapp/testapp.c:246-256 | with a peer, the loop fills the queue in order, returns the one block too many, and ends the program exactly when the pool has no block more than the queue has room |
| Lending.LendWithoutPeer | wls_lib/testapp/testapp.c:246-256 | without a peer the loop takes every block out of the pool and ends the program |
| Lending.MemoryInit | wls_lib/testapp/testapp.c:218-262 | for memories of any size, which of the ring's blocks are lent and which stay, in order, and exactly when the program survives |
| Lending.LentBlocks | wls_lib/testapp/testapp.c:241-256 | while offsets fit 32 bits the blocks lent are the first ones and those that stay are the rest, the one too many last |
| Lending.BlocksFill | wls_lib/testapp/testapp.c:225 | while the number of blocks fits 32 bits the pool has all blocks of the memory but one |
| BlockLoan.OneOwner | wls_lib/testapp/testapp.c:536-659 | after any run of both programs every block is in exactly one place, once |
| BlockLoan.NeverTwice | wls_lib/testapp/testapp.c:536-659 | no block is in two of the places, nor twice in one |
| LoanSteps.StepBalance | wls_lib/testapp/testapp.c:179-216 | each statement of either program moves a block from one place to another at most |
| LoanCalls.QueueBounded | wls_lib/wls_lib_dpdk.c:1093-1127 | after any run of both programs the queue of lent blocks is within its capacity |
| LoanCalls.StartAlone | wls_lib/testapp/testapp.c:243-259 | how the programs start: which blocks are lent and which stay, in order, and when the master ends |
| LoanCalls.ReplenishAlone | wls_lib/testapp/testapp.c:645-656 | taken alone, the master's statements from the head of the replenish loop come to what `Lending.Lend` says, with and without a peer |
| LoanCalls.ReceivedThenLent | wls_lib/testapp/testapp.c:640-656 | after each message received its block is freed and blocks are lent until the queue is full again, in the order of the ring; or the pool runs dry and the program ends |
| LoanCalls.ReceiveAll | wls_lib/testapp/testapp.c:594-661 | a whole call of the receiver, alone, takes every message in flight, loses nothing, and leaves the queue of lent blocks full or the program ended |
| LoanCalls.DropAll | wls_lib/testapp/testapp.c:614-620 | messages whose addresses do not translate are taken and their blocks lost |
| LoanCalls.TransmitAlone | wls_lib/testapp/testapp.c:484-586 | a call of the master's transmitter, alone, needs as many free blocks as messages and frees them all behind the others; without them, or after a failed put, the program ends |
| LoanCalls.SlaveTransmitAlone | wls_lib/testapp/testapp.c:484-586 | a call of the slave's transmitter, alone, sends the oldest blocks lent, for every way a put can end, and ends the program at an address that does not translate |
| BlockLoan.FreesAreWellFormed | wls_lib/testapp/testapp.c:204-216 | under every interleaving the programs free only blocks of the pool that are not free, with room in the ring |
| BlockLoan.LostExactly | wls_lib/testapp/testapp.c:536-659 | over any run of both programs blocks are lost exactly when one of the listed events occurs: no peer, an address that does not translate, an allocation or a put that fails midway |
| BlockLoan.NothingLost | wls_lib/testapp/testapp.c:607-659 | no block is lost while both programs run, the peer is connected, every address received translates and no put of the slave fails |
| BlockLoan.PoolAccounted | wls_lib/testapp/testapp.c:607-659 | between calls the pool is what is free, lent and on its way back |
| PageTable.Mapping.Alloc | wls_lib/wls_lib_dpdk.c:824-854 | the table holds the physical page of every page from the one of the buffer to the end of the memory; a failed lookup leaves nothing allocated; the table is overrun exactly from 32 pages on |
| PageTable.Mapping.VA2PA | wls_lib/wls_lib_dpdk.c:1001-1045 | the entry of the page, cut to 32 bits, filled or not |
| PageTable.Mapping.PA2VA | wls_lib/wls_lib_dpdk.c:1047-1091 | the first filled entry with the physical page |
| PageTable.VirtualRoundTrip | wls_lib/wls_lib_dpdk.c:1019-1033 | a mapped virtual address comes back from its physical one |
| PageTable.PhysicalRoundTrip | wls_lib/wls_lib_dpdk.c:1067-1083 | a mapped physical address comes back from its virtual one |
| PageTable.RoundTripExactly | wls_lib/wls_lib_dpdk.c:1012-1083 | every mapped virtual address comes back if and only if the physical pages are aligned and pairwise distinct |
| PageTable.OutsideIsZero | wls_lib/wls_lib_dpdk.c:1001-1091 | virtual addresses past the table, and physical ones on no filled page, translate to nothing |
| PageTable.Aliases | wls_lib/wls_lib_dpdk.c:1026-1033 | addresses 2^62 apart translate alike |
| SectionTiling.TilesExactly | fhi_lib/app/src/app_io_fh_xran.c:1804-1809 | exactly which section counts and sizes make the sections cover an element's PRBs |
| SectionTiling.ElementSections | fhi_lib/app/src/app_io_fh_xran.c:1730-1809 | which sections an element is cut into, with and without beam-forming weights, and when they tile it |
| SectionWriter.WriteSections | fhi_lib/app/src/app_io_fh_xran.c:1804-1869 | the section loop writes these payloads, advances position and length by the element's bytes, and fails exactly on an unsupported compression |
| SectionWriter.WritesInSequence | fhi_lib/app/src/app_io_fh_xran.c:1841-1868 | the payloads read consecutive RBs and lie one section header apart |
| SectionPacker.PlaceElement | fhi_lib/app/src/app_io_fh_xran.c:1752-1870 | the three ways an element starts, continues or opens a packet, with its descriptor |
| SectionPacker.PackSymbol | fhi_lib/app/src/app_io_fh_xran.c:1710-1871 | the packer leaves the descriptors and writes of the element-by-element description, duplicates and unscheduled elements included |
| PacketLayout.PackInv | fhi_lib/app/src/app_io_fh_xran.c:1765-1801 | descriptors of a packet locate contiguous data: first offset plus recorded length is the end of each member; packets with several members are within the MTU as tracked and were closed only by an element that did not fit; each later packet starts at the first multiple of 64 behind the room for its headers |
| PacketLayout.FirstPacket | fhi_lib/app/src/app_io_fh_xran.c:1715-1716 | the first packet starts at the first multiple of 64 behind the room for its headers |
| PacketLayout.AllPlacedInOrder | fhi_lib/app/src/app_io_fh_xran.c:1718-1750 | every scheduled element that is no duplicate is in exactly one packet, in order |
| PacketLayout.PlacedExactly | fhi_lib/app/src/app_io_fh_xran.c:1722-1750 | an element goes into a packet if and only if it is scheduled and is not one for a set of resource elements repeating the PRBs and symbols of the one before |
| PacketLayout.DescriptorsRecorded | fhi_lib/app/src/app_io_fh_xran.c:1800-1846 | the descriptors left behind are those of the packets |
| PacketLayout.WritesWhereDescribed | fhi_lib/app/src/app_io_fh_xran.c:1799-1849 | everything written lies where the descriptors say, packet by packet, and nothing else is written |
| PacketReads.SectionCarried | fhi_lib/app/src/app_io_fh_xran.c:1799-1868 | for every placed element and each of its sections, the packer writes as many RBs as the section has, read from the element's first RB and the RBs of the sections before on, to where the descriptor and the sections before it say; and makes no other write |
| PacketReads.TiledReads | fhi_lib/app/src/app_io_fh_xran.c:1799-1868 | the sections of an element they tile read exactly its RBs, from UP_nRBStart on |
| PacketReads.ReadsOnce | fhi_lib/app/src/app_io_fh_xran.c:1799-1868 | no RB of an element is read by two of its sections |
| PacketLayout.OthersCleared | fhi_lib/app/src/app_io_fh_xran.c:1722-1750 | a duplicate keeps its descriptor, an unscheduled element's is emptied, later ones are untouched |
| PacketLayout.OffsetsWithinBuffer | fhi_lib/app/src/app_io_fh_xran.c:1800-1870 | offsets and lengths of all descriptors lie between 0 and what is used of the symbol buffer |
| PacketMtu.TrackedExactly | fhi_lib/app/src/app_io_fh_xran.c:1757-1764 | the length counted for an element is its length on the wire exactly under these conditions |
| PacketMtu.TrackedCovers | fhi_lib/app/src/app_io_fh_xran.c:1757-1764 | the length counted is no less than that on the wire exactly when the sections cover no more than the compressed element, or nothing is sent |
| PacketMtu.LengthOnWire | fhi_lib/app/src/app_io_fh_xran.c:1846-1870 | a packet's last recorded length plus its headers is the packet on the wire |
| PacketMtu.PacketsWithinMtu | fhi_lib/app/src/app_io_fh_xran.c:1752-1870 | when the packer counts enough for every placed element, every packet of several elements is within the MTU on the wire, and the tracked length covers the last packet |
| PacketMtu.LengthTracked | fhi_lib/app/src/app_io_fh_xran.c:1765-1797 | when every placed element is counted exactly, the tracked length is that of the packet being filled |
| PacketMtu.MtuExactly | fhi_lib/app/src/app_io_fh_xran.c:1752-1797 | for every element the packer supports: two of it stay within the MTU, whatever the MTU, if and only if the packer counts enough for it |
| PacketMtu.PairShares | fhi_lib/app/src/app_io_fh_xran.c:1757-1797 | two of an element share a packet of twice its length on the wire whenever twice its counted length fits |
| PacketMtu.UncompressedExceedsMtu | fhi_lib/app/src/app_io_fh_xran.c:1758-1764 | at every MTU from 34 bytes on, two uncompressed elements of one section share a packet however much data they have |
| SymbolClock.TimerCtx.CatchUp | fhi_lib/app/src/app_bbu_pool.c:870-960 | the loop runs as many iterations as bring the lag below the threshold, the first of which may start a second |
| SymbolClock.TimerCtx.CountSymbol | fhi_lib/app/src/app_bbu_pool.c:909-931 | one symbol: the counters of all numerologies and the time of the symbol |
| SymbolClock.TimerCtx.AdvanceSymbols | fhi_lib/app/src/app_bbu_pool.c:941-957 | exactly the numerologies whose counter has reached the current symbol advance |
| SymbolClock.TimerCtx.StartSecond | fhi_lib/app/src/app_bbu_pool.c:878-886 | a second boundary resets all counters |
| ClockSync.EveryIteration | fhi_lib/app/src/app_bbu_pool.c:870-960 | from a second boundary on, for every numerology and NB-IoT, the symbols begun are each processed once, in order |
| ClockSync.CurrentSymbolFollows | fhi_lib/app/src/app_bbu_pool.c:949-956 | the current symbol is the counter's plus one, modulo 14, after every iteration |
| ClockSync.CatchUpIsAfterSecond | fhi_lib/app/src/app_bbu_pool.c:870-960 | the loop of one call that starts a second runs just these iterations |
| ClockSync.CatchUpContinues | fhi_lib/app/src/app_bbu_pool.c:870-960 | later calls in the same second go on from there, however many symbols each catches up |
| ClockStart.InStepExactly | fhi_lib/app/src/app_bbu_pool.c:908-957 | from any state, after any number of symbols without a second boundary, a numerology is in step if and only if some symbol found the current symbol at its counter or one ahead; until then it processes nothing |
| ClockStart.Following | fhi_lib/app/src/app_bbu_pool.c:949-956 | from the first such symbol on, every symbol is processed once, in order: how many, and which |
| ClockStart.FirstSymbols | fhi_lib/app/src/app_bbu_pool.c:908-957 | after the start, before a second boundary: what counts at the timer's rate is in step exactly from the 13th symbol on and has left out 13 for good; everything else is in step and complete from the first |
| ClockSync.WrapAtFour | fhi_lib/app/src/app_bbu_pool.c:909-916 | with the table entry of numerology 4, a full period without a second boundary puts numerology 0 out of step |
| ClockSync.StoppedClock | fhi_lib/app/src/app_bbu_pool.c:938-957 | while the unit does not run, counters and attributed time go on as if it did and nothing is processed |
| ClockSync.TimeOfSymbols | fhi_lib/app/src/app_bbu_pool.c:920-931 | closed form of the time attributed to n symbols |
| ClockSync.TimeAhead | fhi_lib/lib/src/xran_timer.c:74-81 | at the supported numerologies, exactly how far the time attributed to any number of symbols is ahead of their real duration, which it never falls behind |
| ClockSync.SecondDrift | fhi_lib/lib/src/xran_timer.c:74-81 | how far a second's symbols miss the second boundary at each supported numerology |
| LayerSplits.FillSplits | fhi_lib/app/src/app_dl_bbu_pool_tasks.c:89-117 | the splits are consecutive, disjoint and cover all layers, also when there are more groups than entries |
| LayerSplits.PreTask | fhi_lib/app/src/app_ul_bbu_pool_tasks.c:89-133 | category A and B splits cover all layers with at least one each; the number of tasks fits the table exactly up to 55 layers |
| LayerSplits.SymMask | fhi_lib/app/src/app_dl_bbu_pool_tasks.c:493-494 | the symbol mask holds the symbols of the split |
| LayerSplits.PackSplit | fhi_lib/app/src/app_dl_bbu_pool_tasks.c:375-410 | the calls one split makes, CSI-RS included |
| LayerSplits.InitialisedOnce | fhi_lib/app/src/app_dl_bbu_pool_tasks.c:375-392 | over the splits of an event every symbol of every layer of a carrier is initialised exactly once, and nothing else |
| LayerSplits.CsiOnce | fhi_lib/app/src/app_dl_bbu_pool_tasks.c:395-410 | the CSI-RS content is initialised by exactly one split, and by none when the unit sends none |
| SlotTypes.SlotLimit | fhi_lib/app/src/common.c:410-421 | the loops compute the Euclidean residue, also of negative indices |
| SlotTypes.SlotTable.SetTdd | fhi_lib/app/src/common.c:446-516 | types and symbol counts of every slot of the pattern; the rates are the shares of slots that have each direction, no number for an empty pattern |
| SlotTypes.SlotTable.SetFdd | fhi_lib/app/src/common.c:453-462 | all slots are FDD, the loop has one, and both rates are 1 |
| SlotTypes.SlotTable.GetSlotType | fhi_lib/app/src/common.c:554-583 | the answer for every kind of query and slot |
| SlotTypes.SlotTable.QueryTdd | fhi_lib/app/src/common.c:554-583 | a direction query answers 1 exactly when the slot at the residue has a symbol of that direction |
| SlotTypes.SlotTable.QueryFdd | fhi_lib/app/src/common.c:554-583 | on an FDD cell every slot answers every query with 1 |
| SlotTypes.AnswerBySymbols | fhi_lib/app/src/common.c:465-516 | classification and counts keep all that a query of any type needs to know of the symbols |
| SlotTypes.RateIsShare | fhi_lib/app/src/common.c:514-516 | the rate of a direction is the share of the slots that have a symbol of it |
| SlotTypes.PeriodicExactly | fhi_lib/app/src/common.c:558 | the pattern repeats over all indices if and only if its length divides the slots of a cycle or is a multiple of them |

## Left out

Assumptions of the scheduler results:

- The previous user of a chain has finished when the chain is reset; a reset of a chain in flight is not modelled.
- Sends succeed, and every task body reaches its unlock; the early returns on a bad port, which skip it, are not modelled.
- The pool's queues, priorities, core masks and context counters: a sent split waits until some consumer picks it, in any order. UL_POST, which its sender executes at once, is one such order.
- A split adds to the status of a successor before it loads the successor's count; the two are operands of one comparison, whose order C leaves open. In the callback's slots `Reinjection.CountFrozen` makes the order irrelevant; elsewhere it is an assumption.
- Memory is sequentially consistent at the granularity of the accesses listed in `Scheduler` and `SpscRing`; fences are not modelled.
- The state machines (`Scheduler`, `SpscRing`, `LinkRun`, `LoanSteps`) are over values, because their steps interleave; the methods of the classes are the same operations in place, running alone.

Contracts and parts that say less than the source does:

- EventChain.ChainDesc.TestFuncGen: the pre-event function is a parameter, the split count of the configuration; event control structures are reduced to their names.
- MsgQueue.BlockQueue.Enqueue: the interleaved accesses of the block queue, which are those of the message queue with one word per slot, are not repeated in `SpscRing`.
- WlsLink.Client.Put: the check for a buffer crossing a page, which only prints, and waking the peer are not modelled; a peer without a process id is.
- BlockLoan.OneOwner: messages from master to slave, which lend nothing, do not appear.
- Lending.MemoryInit: the allocation of the index arrays is left out; a memory whose number of blocks vanishes in 32 bits, for which the source allocates no arrays, is excluded.
- BlockPool.Pool.PutBack: the lock is left out, each operation being atomic; the second ring of used blocks is never written by the source.
- PageTable.Mapping.Alloc: waiting for the peer and the page fault on each page are left out; the physical address of a page is a parameter; what the write past the table does is not modelled.
- SectionPacker.PackSymbol: offsets and lengths are unbounded, the source keeps them in 16 signed bits: by `PacketLayout.OffsetsWithinBuffer` they agree while less than 32768 bytes of the symbol buffer are used, and the tracked length by `PacketLayout.PackInv` while the MTU and the bytes counted for each element stay below that. Compression is represented by its source, place and length, and the samples by their position.
- SectionPacker.PlaceElement: the same.
- SymbolClock.TimerCtx.CatchUp: reading the clock, the GPS correction, warnings and the symbol callbacks are left out; the debug stop is a parameter.
- SlotTypes.SlotTable.SetTdd: the rates are quotients of reals, without floating-point rounding.
- SymbolClock.TimerCtx.StartSecond: the per-port TTI counters, which the callbacks advance, are not modelled.
- LayerSplits.FillSplits: a unit of category B without layers divides by zero in the source; the method requires a group.

Not modelled:

- The single-section packer, the PRACH, SRS and up-link variants of the packer, and the compression itself: they would add members of the same kind.
- Opening, closing and waiting on the shared-memory library, its semaphores and process bookkeeping: operating-system plumbing.
- CRC, statistics, command lines, configuration files and profiling.
- FAPI and AAL headers, RB tables and channel numbers: declarations and single look-ups.
- 32-bit overflow of the scheduler's and the clock's counters, which are reset every slot and every second.
