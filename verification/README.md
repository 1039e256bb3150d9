# Verified model of the kernel's allocator, scheduler, pipes and process table

This project models the parts of the kernel whose correctness is hardest to see from the code, and proves what they
keep over every history. Code that changes state step by step is a class whose methods follow the C functions branch by
branch; each method is tied to a function on values, and the theorems are about those functions. Addresses and 64-bit
sizes are natural numbers; wrap-around is written out where the code relies on it.

**Buddy allocator and memory manager.** `BuddyTree` is the tree as a value (`low` is the C field `right`, `high` the C
field `left`), with first fit, complete coalescing, and the theorem everything else rests on: a coalesced tree is
determined by its granted blocks. `BuddyRuns` lifts it to every history of allocations and frees. `AllocationEnds` says
which requests are answered at all: size 0 splits a free block for ever. `BuddySystem` is the same tree on the heap,
split and merged in place. `MathLib` is the bit-smearing rounding with its exact domain,
`MemoryBanks`, `MemoryManager` and `ManagerRuns` the up to eight trees behind `requestPages` and `freePages`.

**Scheduler.** `Scheduler` is the state machine of `roundRobin.c` and of the priority and state changes of `process.c`.
`LinkedQueue` is one doubly linked queue with sentinels, `RoundRobin` the kernel itself on the heap: fourteen queues, the
vector of nodes and the running node. Every operation keeps all links in order (`Valid`) and is, method by method, the
step of the state machine (`Model`). `SchedulerInvariant`, `SchedulerEvents` and `SchedulerRuns` prove that the queues
partition the nodes, or exactly which request breaks that, and `SchedulerHazards` reaches each of those requests from
the state `rrInit` leaves. `Requests` and `Waking` say what a request or a key comes to for the process itself: who dies
and who cannot, where a blocked or woken process stands, how long a given priority lasts, and that lines of waiters are
first come, first woken. `Epochs`, `EpochOrder`, `AgeingLaw` and `Arrivals` are about time: exact CPU shares, exact
waiting times, the order of the next epoch, the end of ageing and the periodic schedule after it.

**Mutexes and pipes.** `BoundedQueue` and `Mutexes` are the circular queue and the mutex with its hand-off. `PipeRing` is
the ring of a pipe. `PipeProtocol` runs any number of readers and writers over one ring and three mutexes, one lock call
at a time; `PipeLocks`, `PipeSafety` and `PipeSignals` prove what holds in every interleaving. `PipeReaders`,
`PipeWriters` and `PipeDeadlock` give the exact conditions under which a sleeping reader or writer is forgotten and under
which a write deadlocks.

**Processes.** `ProcessTable` has pids reused in circular order and child lists with stale entries. Birth stamps, kept by
every operation, make the recursive kill terminate; `KillRecursion` says for any child lists exactly when it does.

**Printing.** `Printf` is the integer printer, whose digits stand for the number in every base, the kernel's parser, and
the exact condition under which it reads a printed number back.

Results that came out negative are stated with their exact condition: `AllocationEnds.AllocationEndsIff`,
`MathLib.RoundsDownIffCovered`, `MemoryManager.PiecesAreRegionsIff`, `SchedulerEvents.SetStateKeepsInvIff`,
`SchedulerEvents.SetPriorityKeepsInvIff`, `SchedulerEvents.UnblockKeepsInvIff`, `SchedulerRuns.BirthKeepsInvIff`,
`Mutexes.CallKeepsExclusionIff`, `PipeReaders.LosesIffTwoReaders`, `PipeWriters.RoomLostIffTwoWriters`,
`PipeDeadlock.DeadlocksIffTooLong`, `ProcessTable.Table.CreateProcess`, `KillRecursion.ReturnsIffNoCircle`,
`Printf.RoundTripIff`.

## Model

| member | source | states |
|---|---|---|
| BuddyTree.LiveAreBlocks | Kernel/buddySystem.c:65-132 | every granted slot lies in the managed range, is a power of two, is aligned to its own size relative to the base, and less than twice what was asked for |
| BuddyTree.LiveDisjoint | Kernel/buddySystem.c:65-132 | two different granted slots never overlap |
| BuddyTree.AllocIsFirstFit | Kernel/buddySystem.c:65-108 | allocateMemory grants the base of the lowest free leaf that is big enough, and NULL exactly when no leaf is |
| BuddyTree.AllocFailureFrame | Kernel/buddySystem.c:65-108 | a failed allocation leaves the tree unchanged |
| BuddyTree.AllocAddsSlot | Kernel/buddySystem.c:65-132 | a successful allocation adds exactly one slot, of the requested size rounded up to a power of two, that touches none granted before |
| BuddyTree.AllocCoalesced | Kernel/buddySystem.c:65-132 | allocation never leaves two free buddies side by side |
| BuddyTree.AllocInRange | Kernel/buddySystem.c:65-108 | a granted address lies inside the managed range, so it is never NULL |
| BuddyTree.UntouchedBlockIsInOneLeaf | Kernel/buddySystem.c:134-186 | complete coalescing: an aligned power-of-two block that touches no granted slot lies inside one FREE leaf |
| BuddyTree.AllocFailsIffNoBlock | Kernel/buddySystem.c:65-108 | NULL comes back exactly when no aligned free block of the rounded-up size exists |
| BuddyTree.ReleaseRemovesSlot | Kernel/buddySystem.c:134-186 | freeing the start of a granted slot removes exactly that slot and keeps the tree coalesced; the return code is 1 exactly when the whole tree became free |
| BuddyTree.ReleaseRejects | Kernel/buddySystem.c:134-168 | freeing any other address returns -1 and changes nothing |
| BuddyTree.OffsetOnlyGuards | Kernel/buddySystem.c:134-168 | a free below the managed range changes nothing and returns 0; from inside it the start of the range has no influence |
| BuddyTree.LiveDeterminesTree | Kernel/buddySystem.c:65-186 | two coalesced trees of one size with the same granted slots are identical |
| BuddyTree.ReleaseUndoesAlloc | Kernel/buddySystem.c:65-186 | freeing the address just granted restores the identical tree |
| AllocationEnds.AllocationEndsIff | Kernel/buddySystem.c:65-132 | allocateMemory comes back exactly when the size is not 0 or nothing is free |
| AllocationEnds.RequestEnds | Kernel/buddySystem.c:65-132 | a request of at least one byte is answered within finitely many calls, with the answer of the value-level allocation |
| AllocationEnds.ZeroSplitsForEver | Kernel/buddySystem.c:65-132 | size 0 on a tree with a free leaf is never answered, however many calls are made |
| BuddyRuns.StepKeepsLedger | Kernel/buddySystem.c:65-186 | after any request the granted slots of the tree are exactly what its clients were told, and the tree stays well formed |
| BuddyRuns.RunIsSafe | Kernel/buddySystem.c:14-186 | after every history, frees of unknown addresses included, granted slots are aligned, tight, in range and pairwise disjoint |
| BuddyRuns.RunIsCoalesced | Kernel/buddySystem.c:65-186 | after every history coalescing is complete and the next allocation fails exactly when no block of its size is free |
| BuddyRuns.SameBlocksSameTree | Kernel/buddySystem.c:65-186 | two histories that leave the same slots granted leave the identical tree |
| BuddyRuns.FreeingAllRestoresRoot | Kernel/buddySystem.c:134-186 | freeing all granted slots in any order, repetitions and strangers included, returns the single FREE root |
| BuddyRuns.FragmentationIsTheRest | Kernel/buddySystem.c:209-223 | reported internal fragmentation plus the bytes asked for is the size of the tree |
| BuddyRuns.RunConserves | Kernel/buddySystem.c:94-146 | the same conservation law after every history |
| BuddySystem.BinaryTree.constructor | Kernel/binaryTree.c:3-14 | a new node is a leaf on its slot record |
| BuddySystem.BinaryTree.SplitTree | Kernel/buddySystem.c:110-132 | a free node becomes a split one with two new free halves |
| BuddySystem.BinaryTree.AllocateMemory | Kernel/buddySystem.c:65-108 | on every call that comes back, the in-place recursion leaves the tree of the value-level allocation and returns its address, 0 for NULL; it terminates |
| BuddySystem.BinaryTree.MergeChildren | Kernel/buddySystem.c:170-186 | two free children disappear and the node is free; otherwise nothing changes |
| BuddySystem.BinaryTree.FreeMemory | Kernel/buddySystem.c:134-168 | the in-place recursion leaves the tree of the value-level release and returns its code |
| BuddySystem.BinaryTree.CalculateInternalFragmentation | Kernel/buddySystem.c:209-223 | the sum over the leaves of slot size minus requested size |
| MathLib.RoundsDownIffCovered | Kernel/mathLib.c:16-25 | nextLowerPowerOf2(x) is the largest power of two at most x exactly when every 32 consecutive bits of x, from any bit up to the highest set one, contain a set bit |
| MathLib.LowerIsPart | Kernel/mathLib.c:16-25 | right or wrong, the result for a positive argument is positive and at most the argument, so startBuddies never hands out more than is left |
| MathLib.RoundsDownBelow32 | Kernel/mathLib.c:16-25 | for 0 < x < 2^32 it always is |
| MathLib.FailsOnZeroLowWord | Kernel/mathLib.c:16-25 | from 2^32 on it is not for any x whose low 32 bits are zero, because there is no smear step of 32 |
| MathLib.CoveredRest | Kernel/memoryManager.c:32-39 | what is left after taking the largest power off a good size is a good size again, so every round of startBuddies rounds correctly |
| MemoryBanks.RegionsDecrease | Kernel/memoryManager.c:24-42 | the regions of startBuddies are strictly decreasing powers of two |
| MemoryBanks.RegionsLeaveLittle | Kernel/memoryManager.c:24-42 | what n regions leave over, times 2^n, is less than the total, and nothing is left when fewer than n were needed |
| MemoryBanks.StartLeavesLittle | Kernel/memoryManager.c:24-42 | eight regions leave less than one part in 256 |
| MemoryBanks.WrappingTest | Kernel/memoryManager.c:91-102 | the 64-bit test address - offset < memSize accepts exactly the addresses of that buddy, also from below it |
| MemoryBanks.ReleasePicksOwner | Kernel/memoryManager.c:91-102 | freePages reaches exactly the buddy that contains the address |
| MemoryBanks.RequestGrants | Kernel/memoryManager.c:68-85 | a granted request adds one slot of the rounded-up size, disjoint from those of all buddies, and keeps the layout |
| MemoryBanks.RequestPrefersSmallest | Kernel/memoryManager.c:68-85 | the smallest buddy that has a free aligned block of the rounded-up size serves the request, at its lowest free leaf that is big enough |
| MemoryBanks.RequestRefuses | Kernel/memoryManager.c:68-85 | 0 comes back exactly when no buddy has a free aligned block of the rounded-up size, and then nothing changes |
| MemoryBanks.ReleaseRemoves | Kernel/memoryManager.c:91-102 | freeing the start of a granted slot removes exactly that slot from the whole allocator |
| MemoryBanks.ReleaseIgnores | Kernel/memoryManager.c:91-102 | freeing any other address changes nothing |
| MemoryBanks.ReleaseUndoesRequest | Kernel/memoryManager.c:68-102 | freePages of the address requestPages just returned restores every tree |
| MemoryManager.StartMemoryManager | Kernel/memoryManager.c:7-42 | NULL exactly without an offset or without memory; otherwise, for every total, the buddies lie side by side from the offset, nothing is granted, and each takes what nextLowerPowerOf2 says of what the ones before it left |
| MemoryManager.PiecesAreRegionsIff | Kernel/memoryManager.c:24-42 | those sizes are the decomposition into largest powers of two exactly when the total is one nextLowerPowerOf2 rounds correctly |
| MemoryManager.StartedIsContiguous | Kernel/memoryManager.c:7-42 | from such a total the manager starts in the layout that all results about requestPages and freePages need |
| MemoryManager.Manager.RequestPages | Kernel/memoryManager.c:68-85 | the loop over the buddies, smallest first, grants what the value-level request grants and changes one tree |
| MemoryManager.Manager.FreePages | Kernel/memoryManager.c:91-102 | the loop over the buddies frees in the first whose wrapping test accepts the address |
| ManagerRuns.RunIsSafe | Kernel/memoryManager.c:68-102 | after every history of requestPages and freePages, slots granted by any buddy are tight, aligned inside one buddy, and pairwise disjoint across buddies |
| ManagerRuns.SameBlocksSameBanks | Kernel/memoryManager.c:68-102 | two histories that leave the same slots granted leave identical trees in every buddy |
| ManagerRuns.AllGivenBack | Kernel/memoryManager.c:68-102 | once everything is given back, every buddy is as it was at the start |
| LinkedQueue.RRQueue.AddNodeHead | Kernel/roundRobin.c:559-574 | relinking puts the node first and keeps the chain from sentinel to sentinel |
| LinkedQueue.RRQueue.AddNodeTail | Kernel/roundRobin.c:486-498 | relinking puts the node last and keeps the chain |
| LinkedQueue.RRQueue.Pop | Kernel/roundRobin.c:525-544 | the first node is unlinked and returned with its links cleared, NULL from an empty queue; the rest stays chained |
| LinkedQueue.RRQueue.RemoveNode | Kernel/roundRobin.c:546-551 | given the node alone, its neighbours are relinked and every other node of its queue keeps its place |
| LinkedQueue.RemovalIsWithout | Kernel/roundRobin.c:546-551 | that removal is the one the state machine performs |
| RoundRobin.Kernel.constructor | Kernel/roundRobin.c:32-51 | after resetAllQueues the fourteen queue records are different, well linked and empty, and no process has a node |
| RoundRobin.Kernel.RrInit | Kernel/roundRobin.c:59-68 | rrInit queues the first process: links in order, and the state from which SchedulerRuns proves the partition |
| RoundRobin.Kernel.NodesAreApart | Kernel/roundRobin.c:29-51 | in every valid kernel no node is in two queues, a queued node is the one its process is known by, and a node outside the queues has no stale links |
| RoundRobin.Kernel.NormalQueueRemoveNode | Kernel/roundRobin.c:546-551 | unlinking a process's node takes it out of the one queue that holds it and leaves the other thirteen and all other links alone |
| RoundRobin.Kernel.CreateNewNode | Kernel/roundRobin.c:500-516 | a process without a node gets a new one with a full quantum and no turns, which is in no queue |
| RoundRobin.Kernel.UpdatePriority | Kernel/roundRobin.c:178-189 | one turn more, and one priority level down on every tenth turn of a NORMAL process above the lowest level |
| RoundRobin.Kernel.Handle | Kernel/roundRobin.c:59-409 | every event the kernel raises, whole, keeps all links and the partition and is the state machine's step, so SchedulerRuns.RunKeepsInv and everything about time is about this heap |
| RoundRobin.Kernel.RrAddProcess | Kernel/roundRobin.c:70-78 | a new node is made and linked as the state machine says; failure for a process that has a node or runs; links stay in order unless the process is unborn or runs |
| RoundRobin.Kernel.ChangeToRespectiveQueue | Kernel/roundRobin.c:259-301 | the node in hand is linked at the end of the queue its state asks for, or leaves the vector; for state RUNNING or UN_BORN it stays in hand |
| RoundRobin.Kernel.RrNotifyProcessStateChange | Kernel/roundRobin.c:372-389 | the notification relinks as the state machine says and keeps all links in order, and updates a NULL node exactly when a process is given up while nobody runs |
| RoundRobin.Kernel.SetProcessState | Kernel/process.c:380-427 | setProcessState on the heap is the state machine's step, of which Requests says what each request comes to; all links stay in order unless state RUNNING is asked for |
| RoundRobin.Kernel.SetProcessPriority | Kernel/process.c:571-593 | setProcessPriority on the heap is the state machine's step, of which Requests says what it stores and who moves; from a state with the partition the links stay in order exactly when no negative code is stored |
| RoundRobin.Kernel.RrNotifyProcessPriorityChange | Kernel/roundRobin.c:394-409 | a queued node moves to the queue of its new priority; the running, blocked and dead ones stay |
| RoundRobin.Kernel.RrUnblockWaiters | Kernel/roundRobin.c:315-365 | the first waiter's node is popped and queued, or runs at once when it waited for the keyboard; from a state with the partition the links stay in order exactly when no process that lost its node is displaced |
| RoundRobin.Kernel.PreemptProcess | Kernel/roundRobin.c:354-365 | the running node goes to the front of its level and the woken one runs; the links stay in order exactly when the running process still has its node |
| RoundRobin.Kernel.GetNextQueue | Kernel/roundRobin.c:231-256 | the first level that is not empty, after swapping the structures when there is none |
| RoundRobin.Kernel.GetNextReadyNode | Kernel/roundRobin.c:111-138 | nodes are popped from that level until one may run; blocked and dead ones are put where they belong |
| RoundRobin.Kernel.HandleCurrent | Kernel/roundRobin.c:143-172 | the running process goes on while its quantum lasts; then it ages and its node goes to the end of a finished queue |
| RoundRobin.Kernel.RrNextAvailableProcess | Kernel/roundRobin.c:83-172 | the timer tick on the linked nodes is the state machine's step, keeps all links in order, and returns the node that runs |
| SchedulerInvariant.ChangePlaces | Kernel/roundRobin.c:259-301 | changeToRespectiveQueue puts the process in hand into exactly one place, the right one, or gives it up |
| SchedulerEvents.SetStateKeepsInvIff | Kernel/process.c:380-427 | for every request, setProcessState keeps the partition exactly when it does not ask for RUNNING, does not make the running process ready on a turn on which it ages (it is queued under the old priority), and does not wake a running process whose node is gone. READY for the running process comes only from unlockMutex (ipc.c:242) on a stale pid in the line: a killed waiter's pid given out again, or one that a key woke while still queued by lockMutexKeyboard (ipc.c:208-226); the other READY calls test for BLOCKED first |
| SchedulerEvents.AddKeepsInvIff | Kernel/roundRobin.c:70-78 | adding keeps the partition exactly when the process has been born or has a node already |
| SchedulerEvents.SetPriorityKeepsInvIff | Kernel/process.c:571-600 | setProcessPriority keeps the partition exactly when it does not store one of the negative codes it accepts as a priority |
| SchedulerEvents.UnblockKeepsInvIff | Kernel/roundRobin.c:315-350 | waking a waiter keeps the partition exactly when it is not a keyboard wake-up that displaces a running process whose node is gone |
| SchedulerEvents.PreemptKeeps | Kernel/roundRobin.c:354-365 | keyboard preemption of a process that has its node keeps the partition: the displaced process is queued and the woken one runs |
| SchedulerEvents.TickPicksFirst | Kernel/roundRobin.c:83-172 | a tick that ends a turn dispatches the head of the first level that is not empty, after swapping when the running queues are drained |
| SchedulerEvents.TickKeepsInv | Kernel/roundRobin.c:83-172 | a timer tick keeps the partition, and the process that runs after it has its node |
| SchedulerRuns.EventKeepsInv | Kernel/roundRobin.c:59-409 | every event the rest of the kernel raises keeps the partition |
| SchedulerRuns.BirthKeepsInvIff | Kernel/process.c:230-244 | of the priorities createProcess accepts, a birth keeps the partition exactly when the number is not -1 or -3, the codes of two kinds, which are stored as the priority itself |
| SchedulerRuns.RunKeepsInv | Kernel/roundRobin.c:59-409 | the partition holds after every history of events |
| SchedulerRuns.ExactlyOnePlace | Kernel/roundRobin.c:59-409 | after every history a process with a node is in exactly one of running, finished, blocked or current, its ready queue is the level of its priority, and no blocked or dead process is ready |
| SchedulerHazards.HazardIsReachable | Kernel/process.c:380-427 | from the state after rrInit, raised events lead to the tenth turn on which making the running process ready breaks the partition |
| SchedulerHazards.ZombieWakeIsReachable | Kernel/process.c:380-427 | a process blocked on a mutex and woken before the next tick gets a second node |
| SchedulerHazards.LeavingLevelsIsReachable | Kernel/process.c:571-600 | a negative priority is stored in the very first state |
| SchedulerHazards.ZombiePreemptionIsReachable | Kernel/roundRobin.c:354-365 | raised events lead to a key that displaces a running process that has just died |
| Requests.OthersChangeNothing | Kernel/process.c:380-406 | a request for a state is carried out exactly if the process was born, is in another state and is not the genesis process that somebody else wants dead; otherwise nothing changes |
| Requests.DeathIsComplete | Kernel/process.c:412-418 | a process asked to die, or asking for the keyboard from the background, is DEAD afterwards, in no queue and without a node; nobody else is touched |
| Requests.WaitsInLine | Kernel/process.c:412-418 | a foreground process asking for the keyboard, or one blocked for no reason, is BLOCKED and last in that line and in no other queue |
| Requests.LeftToOthers | Kernel/roundRobin.c:259-301 | a process blocked on a mutex or a message is BLOCKED with that reason, in no queue and without a node |
| Requests.BecomesReady | Kernel/roundRobin.c:259-281 | a process made ready, or asked to be BORN again, is READY and last of the level of its priority and in no other queue |
| Requests.NodeAfterChange | Kernel/roundRobin.c:372-389 | through a change of state a process keeps what is left of its quantum; one without a node gets a full quantum and no turns |
| Requests.WhoRuns | Kernel/roundRobin.c:372-389 | a change of state stops the running process exactly if it is about that process and leaves it its node; nobody else starts or stops |
| Requests.OnlyRequestsKill | Kernel/process.c:380-427 | whatever the kernel raises, a process is DEAD afterwards exactly if a request that it die, or its own for the keyboard from the background, was carried out |
| Requests.GenesisLives | Kernel/process.c:398-406 | the genesis process outlives every history in which it does not ask for its own death, whoever else asks for it |
| Requests.DeadWaiterIsDropped | Kernel/roundRobin.c:330-333 | in every state, with the partition or not, a waiter killed in line loses its node and nobody is woken in its place |
| Requests.GoneEndsItsTurn | Kernel/roundRobin.c:143-156 | in every state the turn of a running process that died or blocked ends, and its node is freed or joins its line |
| Requests.SkipsGone | Kernel/roundRobin.c:111-138 | in every state the pop loop takes the first process of the level that may run; the dead and blocked ones before it are freed or join their lines, those behind it stay |
| Requests.PriorityChangesIffItFits | Kernel/process.c:571-584 | setProcessPriority changes something exactly for a process that was born, is not interactive and has another priority, and a value from -3 to 4 |
| Requests.PriorityIsStored | Kernel/process.c:586-592 | the new priority is stored for the running, ready, blocked and unlinked process alike; with nice the kind becomes DO_NOT_CHANGE, otherwise it stays; nobody else is touched |
| Requests.WhoMoves | Kernel/roundRobin.c:394-409 | a queued process goes to the end of its new level and out of all other queues; for the running, blocked and unlinked one no queue changes |
| Requests.NiceStays | Kernel/syscaller.c:206-209 | the priority given by the nice system call is the one the process has after every history in which nobody gives it another, however many turns it takes |
| Requests.AssignedStays | Kernel/roundRobin.c:178-189 | the same for every priority that is not NORMAL |
| Requests.InteractiveStays | Kernel/process.c:583-584 | the priority of an interactive process is the same after every history in which it is not born anew, whoever asks for another |
| Requests.BornFor | Kernel/process.c:191-262 | a newborn is BORN with the given priority and touches nobody; it is in the foreground or not through every later history, and a priority that is not NORMAL stays until another is assigned |
| Waking.KeyRunsFirstInLine | Kernel/roundRobin.c:315-365 | a key runs the first in line at once, with a full quantum and its turns; the process that ran is READY and first of its level with what is left of its quantum; nothing else changes |
| Waking.WakesFirstInLine | Kernel/roundRobin.c:341-347 | any other wake-up makes the first in line READY and last of its level, with its node as it was; nothing else changes |
| Waking.LineMoves | Kernel/roundRobin.c:315-350 | every event leaves a waiting process in its line and at its place or nearer to the front, a wake-up of that line exactly one nearer, unless the event is a request about that process |
| Waking.FirstComeFirstWoken | Kernel/roundRobin.c:315-350 | through every history a waiter with i others ahead of it is at the front when one of the next i + 1 wake-ups of its line comes |
| Epochs.TickPaysOwed | Kernel/roundRobin.c:83-172 | a tick that does not swap runs the first process the epoch owes a tick to, leaves exactly the other ticks owed, and does not change which finished queues the epoch ends with |
| Epochs.EpochPaysOwed | Kernel/roundRobin.c:83-256 | the rest of an epoch runs exactly the owed ticks in exactly their order, one per tick |
| Epochs.EveryReadyProcessGetsItsShare | Kernel/roundRobin.c:191-194 | every ready process gets exactly rrQuantum + 5 - priority ticks per epoch, so none starves |
| Epochs.ShareIsExact | Kernel/roundRobin.c:191-194 | in any run order without repetitions a listed process gets its share and any other gets nothing |
| EpochOrder.NextEpochIsStableSort | Kernel/roundRobin.c:143-256 | the next epoch's queues are this epoch's run order filtered by aged priority: its order is the stable sort |
| EpochOrder.TickAges | Kernel/roundRobin.c:143-189 | a tick counts a turn for the process whose quantum is used up and for nobody else |
| EpochOrder.OneTurnPerEpoch | Kernel/roundRobin.c:178-189 | over one epoch every process of it takes exactly one turn and nobody else does |
| AgeingLaw.EventAges | Kernel/roundRobin.c:178-189 | what each kernel event does to the age of a process that keeps its node: one turn more exactly when the event ends its turn, and nothing otherwise |
| AgeingLaw.RunFollowsLaw | Kernel/roundRobin.c:178-189 | a NORMAL process added at priority p has priority min(4, p + turns/10) after every history, wake-ups, arrivals and preemptions included, while it keeps its node and nobody assigns it another priority |
| AgeingLaw.NewcomerFollowsLaw | Kernel/roundRobin.c:500-516 | a new process starts under that law |
| EpochOrder.TurnCountsDown | Kernel/process.c:603-614 | each turn brings a process one closer to its final priority, which is at most 40 turns away |
| EpochOrder.AfterEpochs | Kernel/roundRobin.c:178-256 | n epochs later the same processes run, and none has more than 40 - n turns to its final priority |
| EpochOrder.NoAgeingRepeats | Kernel/roundRobin.c:225-256 | an epoch in which nobody ages is followed by one with the same queues |
| EpochOrder.PeriodicAfter40 | Kernel/roundRobin.c:83-256 | from the 40th epoch on every epoch gives the same processes the same ticks in the same order |
| Arrivals.NewcomerJoins | Kernel/roundRobin.c:70-78 | a new process is placed behind all of its level or better and before all others, moves nobody, and gets its full share in the epoch it arrives in |
| Arrivals.WokenJoins | Kernel/roundRobin.c:372-389 | so is a blocked process that is made ready |
| Arrivals.PriorityChangeGivesAnotherTurn | Kernel/roundRobin.c:394-409 | a process that has had its turn and changes priority gets a second full share in the same epoch |
| Arrivals.DisplacedRunsFirstOfItsLevel | Kernel/roundRobin.c:354-365 | after keyboard preemption the displaced process is first of its level and gets a full share again |
| Arrivals.NewQuantumReachesTheWaiting | Kernel/roundRobin.c:191-207 | a new quantum that is positive gives every waiting process its new share in the same order and leaves the running one the rest of the old; any other is refused |
| Arrivals.WaitIsExact | Kernel/roundRobin.c:83-172 | a queued process first runs after exactly the ticks of the running process and of those ahead of it |
| Arrivals.WaitIsBounded | Kernel/roundRobin.c:191-194 | each process ahead costs at most rrQuantum + 5 ticks of waiting |
| BoundedQueue.Queue.constructor | Kernel/queue.c:7-15 | a new queue holds nothing |
| BoundedQueue.Queue.Enqueue | Kernel/queue.c:31-38 | the circular array appends, and ignores the item when full |
| BoundedQueue.Queue.Dequeue | Kernel/queue.c:42-52 | the oldest item leaves; EMPTY_QUEUE when there is none |
| BoundedQueue.Queue.Front | Kernel/queue.c:55-58 | the oldest item |
| BoundedQueue.Queue.Rear | Kernel/queue.c:61-64 | the newest item |
| Mutexes.KernelMutex.LockMutex | Kernel/ipc.c:182-206 | -1 on an unused mutex; otherwise exchanges the word, queues the caller on contention, or lets it through when five are waiting, and boosts its priority exactly when somebody waits then |
| Mutexes.KernelMutex.TryToLockMutex | Kernel/ipc.c:173-180 | -1 on an unused mutex; otherwise exchanges the word and queues nobody |
| Mutexes.KernelMutex.UnlockMutex | Kernel/ipc.c:228-254 | -1 on an unused or free mutex; otherwise hands it to the first waiter, or clears the word |
| Mutexes.KernelMutex.DestroyMutex | Kernel/ipc.c:317-326 | a free mutex becomes unused; a taken or unused one stays and -1 is returned |
| Mutexes.AttemptTakesIfFree | Kernel/ipc.c:173-180 | a caller to whom tryToLockMutex returns 0 is the only holder, and it returns 0 exactly when nobody holds the mutex; it never joins the line |
| Mutexes.CallKeepsExclusionIff | Kernel/ipc.c:173-254 | with only holders unlocking, a call of lockMutex, tryToLockMutex or unlockMutex keeps "at most one holder, and word 0 exactly when free with nobody waiting" exactly when it does not find five waiters |
| Mutexes.SixthWaiterGoesOn | Kernel/ipc.c:182-206 | seven calls on a new mutex reach it: the seventh process goes on beside the holder |
| Mutexes.RunIsExclusive | Kernel/ipc.c:182-254 | exclusion after every history of calls |
| Mutexes.WaiterMovesUp | Kernel/ipc.c:228-254 | FIFO hand-off: a waiter at position k moves up one place per unlock and owns the mutex after exactly k + 1 unlocks, whoever else calls in between |
| PipeRing.PutAppends | Kernel/pipes.c:177-184 | a written byte is appended to the bytes to read |
| PipeRing.GetTakesOldest | Kernel/pipes.c:242-249 | a read takes the oldest byte |
| PipeRing.MarkIsHarmless | Kernel/pipes.c:187-190 | the EOF mark only ever lands in a free slot |
| PipeRing.MarkStandsBehind | Kernel/pipes.c:187-190 | it lands right behind the last byte exactly when two slots are free, and nowhere otherwise |
| PipeRing.Pipe.WriteByte | Kernel/pipes.c:177-184 | the in-place write is the append |
| PipeRing.Pipe.ReadByte | Kernel/pipes.c:242-249 | the in-place read takes the oldest byte |
| PipeLocks.StepKeepsLocks | Kernel/pipes.c:143-265 | every step of every reader and writer keeps mutual exclusion on the pipe's mutex and the waiters of all three mutexes right behind their lock calls |
| PipeSafety.StepKeepsIntegrity | Kernel/pipes.c:143-265 | bytes read so far followed by buffered bytes are the bytes written, in the order of the critical sections, and both histories are exactly what each process moved |
| PipeSafety.RunIsSafe | Kernel/pipes.c:143-265 | locks and integrity, with 0 <= charsToRead <= 1024 and writePos = readPos + charsToRead mod 1024, in every reachable state with any number of readers and writers |
| PipeSafety.RunEndsMarked | Kernel/pipes.c:187-190 | in every reachable state a write that has put everything has left the mark behind its last byte, if two slots are free |
| PipeSafety.RunIsExclusive | Kernel/pipes.c:143-265 | no two processes ever execute inside the pipe's critical section |
| PipeSafety.ReaderGetsWhatWasSent | Kernel/pipes.c:143-265 | in every run of a new pipe in which one process writes and one reads, what was sent is what was received followed by what is buffered |
| PipeSafety.StepLosesNoWakeUp | Kernel/pipes.c:185-252 | one step of anybody loses no wake-up of the single reader |
| PipeSafety.RunLosesNoWakeUp | Kernel/pipes.c:185-252 | in no reachable state with one reader is it queued on readMutex, or about to be, while bytes wait and no write is under way |
| PipeReaders.TwoReadersLoseAWakeUp | Kernel/pipes.c:220-257 | whatever the number of processes, any two of them as readers can bring a new pipe to a state with one asleep beside a waiting byte |
| PipeReaders.LosesIffTwoReaders | Kernel/pipes.c:185-257 | a set of readers can lose a wake-up exactly when it holds two processes |
| PipeWriters.RunLosesNoRoom | Kernel/pipes.c:164-196 | in no reachable state of a new pipe with one writer and any number of readers is the writer queued on writeMutex, or on its way there with the word taken, while there is room and no read that took a byte is under way |
| PipeWriters.TwoWritersLoseASignal | Kernel/pipes.c:164-265 | whatever the number of processes, any two of them as writers can bring a new pipe to a state with one asleep beside free room and everybody else idle |
| PipeWriters.RoomLostIffTwoWriters | Kernel/pipes.c:164-265 | a set of writers can lose the signal exactly when it holds two processes, whoever reads |
| PipeSignals.RunSignalsTheTruth | Kernel/pipes.c:164-257 | with any number of readers and writers, an open readMutex means that bytes wait and an open writeMutex that there is room, unless the process that changed that has still to close it; and a process that has moved a byte is back at the head of its loop only with its own signal closed |
| PipeDeadlock.OnlyTheWriter | Kernel/pipes.c:164-196 | once the reader waits and the writer is inside, only the writer can move, and its step is determined |
| PipeDeadlock.DeadlocksIffTooLong | Kernel/pipes.c:164-196 | a writer and a reader waiting on an empty pipe: after the steps it takes the writer to sleep or to signal, in every run, nothing can happen any more exactly when the write has more than 1024 bytes; otherwise the reader is awake and finds them all |
| PipeDeadlock.RunsThatFar | Kernel/pipes.c:164-196 | such a run always gets that far, so a write of more than 1024 bytes always ends in the deadlock |
| PipeDeadlock.NoLongerRun | Kernel/pipes.c:164-196 | no run of a write of more than 1024 bytes gets further |
| PipeDeadlock.WriterEnters | Kernel/pipes.c:143-265 | a new pipe reaches that starting point with any write |
| ProcessTable.BelowIsYounger | Kernel/process.c:114-183 | whoever is reached through child lists was born later |
| ProcessTable.OrderIsBelow | Kernel/process.c:168-183 | the order in which killAllDescendants comes to processes holds exactly those reachable through child lists |
| KillRecursion.ReturnsIffNoCircle | Kernel/process.c:168-183 | for any child lists, killAllDescendants comes back exactly when no circle of child lists can be reached from the process |
| KillRecursion.ValidTableReturns | Kernel/process.c:168-183 | in every table ordered by birth it comes back for every process, within as many nested calls as births came after that process |
| KillRecursion.SelfAdoptedNeverReturns | Kernel/process.c:83-183 | it never does for a process that createProcess made its own child |
| ProcessTable.Table.constructor | Kernel/process.c:44-76 | the table starts with the genesis process, its busy-waiting child and unborn slots |
| ProcessTable.Table.ValidIsRising | Kernel/process.c:114-183 | in every table the operations leave, whoever a child list names was born after the owner of the list |
| ProcessTable.Table.GetNextPid | Kernel/process.c:352-372 | the first reusable pid in circular order from nextPid, never 0, PID_ERROR exactly when there is none; nextPid moves on by one and stays in 1..maxPid |
| ProcessTable.Table.AddChildToParentList | Kernel/process.c:114-164 | fails exactly for a parent with fifty entries; otherwise the child takes the first slot that is empty or names a process that is gone, and nothing else changes |
| ProcessTable.TakesSlotFacts | Kernel/process.c:114-164 | after that the child is listed and living children keep their slots; the list only grows when no entry is stale |
| ProcessTable.TakingUsesRoom | Kernel/process.c:114-164 | a list that takes a living child has room for exactly one less, stale entries counted as room |
| ProcessTable.Table.NewProcess | Kernel/process.c:191-262 | PID_ERROR exactly without memory, without a reusable pid, or for a parent with fifty entries that is not the pid found; otherwise the first reusable pid is born, without children, in the parent's list |
| ProcessTable.Table.CreateProcess | Kernel/process.c:83-109 | PID_ERROR exactly without an instruction, parent, valid priority, memory or reusable pid, or for a parent with fifty entries that is not the pid found; otherwise the first reusable pid from nextPid on is born under its parent and no other record changes; the table stays ordered by birth exactly when the call is not one on a dead parent whose own slot is the next free one, which makes it its own child |
| ProcessTable.Table.KillAllDescendants | Kernel/process.c:168-183 | terminates for every history of pid reuse and reparenting and kills exactly the processes reachable through child lists, or, when the caller is among them, those that come before it and the caller, which then halts |
| ProcessTable.Table.ProcsDeathCleanUp | Kernel/process.c:520-542 | the process is dead; its living children, in order, live on under the genesis process, with that ppid and in that list, as long as it has room, and all of them exactly when it has room for all; those after that die; no other record changes |
| Printf.Prints | Kernel/printf.c:57-86 | pads left or right with blanks or zeros and counts what it printed |
| Printf.WriteDigits | Kernel/printf.c:108-117 | the backwards digit loop stays inside the 64-byte buffer and leaves the digits of the number in any base |
| Printf.SimpleOutputi | Kernel/printf.c:90-131 | every 32-bit number in every base prints its digits, with a sign only as a signed decimal and otherwise modulo 2^32, with the padding as specified, and is counted right |
| Printf.KernelToInt | Kernel/system.c:50-81 | the pointer stops behind an optional sign and all the digits that follow, and the number is the one they stand for; the response flag is set exactly if the text begins with a digit or a minus, even one without a digit |
| Printf.DigitsRoundTrip | Kernel/printf.c:111-117 | reading the printed digits gives the number |
| Printf.DigitsStandFor | Kernel/printf.c:108-117 | in every base from 2 to 36, with small or capital letters, the printed digits stand for the number, without leading zeros |
| Printf.RoundTripIff | Kernel/system.c:50-81 | kernelToInt reads back a printed number, for every width and flags, exactly when the padding put no blanks in front of it and no zeros behind a number that is not 0 |
| Printf.CountIsMax | Kernel/printf.c:57-131 | the reported count is the larger of the width and the length of the number with its sign |

## Left out

- BuddySystem.BinaryTree.AllocateMemory: calls that never come back, size 0 while something is free, are the subject of AllocationEnds.
- BuddySystem.BinaryTree.SplitTree: node creation always succeeds; the path that leaves a SPLIT node without children when memory runs out is not modelled, nor is the node pool of allocator.c.
- MemoryManager.StartMemoryManager: the region must end inside the 64-bit address space, as memory that exists does; the function pointers are not modelled, so allocation of the records does not fail.
- MemoryManager.Manager.RequestPages: the results about runs are about totals that nextLowerPowerOf2 rounds correctly and requests of at least one byte.
- RoundRobin.Kernel.RrNotifyProcessStateChange: the update of a NULL node is reported, and changes nothing here.
- RoundRobin.Kernel.ChangeToRespectiveQueue: a process whose priority is on no level is written outside the array by the code; here its node stays in hand.
- RoundRobin.Kernel.NormalQueueRemoveNode: on a node without links, that of the running process, the code writes through NULL; here nothing happens.
- RoundRobin.Kernel.RrNextAvailableProcess: starts from a state with the partition, which RoundRobin.Kernel.Handle keeps; a node that was freed keeps its content as long as `current` points to it, because reuse of its memory by the allocator is not modelled, nor is its second release; the busy-waiting process that runs when a tick finds nobody is outside the model.
- RoundRobin.Kernel.SetProcessState: after a request for RUNNING nothing is promised about the links, because the node is unlinked and keeps its old ones.
- LinkedQueue.RRQueue.RemoveNode: the node must be linked in some queue.
- SchedulerRuns.EventKeepsInv: a new process gets a priority on one of the five levels (SchedulerRuns.BirthKeepsInvIff says which numbers give it one), and no process that runs or was never born is added.
- Mutexes.KernelMutex.LockMutex: one mutex of the table, so the bounds of the index are not modelled; blocking, waking and boosting are returned outcomes. Its queue is a record of its own.
- PipeSafety.RunIsSafe: assumes that no lock call finds five waiters; STDIN and STDOUT branches, the EOF return value, the NULL checks and the delay loop after a wait are not modelled, and a write of size 0 does nothing.
- ProcessTable.Table.CreateProcess: heap and stack, pipes, message queue, name and arguments of a new process are not modelled, and its priority is checked but not stored; whether its allocations succeed is a parameter.
- ProcessTable.Table.AddChildToParentList: the second scan repeats the tests of the first, so it is never reached.
- ProcessTable.Table.ProcsDeathCleanUp: not for the genesis process.
- Printf.KernelToInt: the number is unbounded here; the C int overflows on longer texts.
- Printf.SimpleOutputi: format parsing and the other conversions are not modelled.
- Semaphores and message passing.
- endBuddySystem and endMemoryManager, interrupts and assembly beyond the atomic exchange, video, font, keyboard, timer, syscall marshalling, module loading, the shell and the user programs, and the file system tool.
