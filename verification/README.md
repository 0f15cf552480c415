# Green threads: a model of the cooperative runtime

The system is a single-threaded cooperative runtime in C: `init`, `create`, `run`, `yield`, `exit`, `destroy` over a
FIFO ready queue, two task lists, a bitmap of identifiers, guarded stacks and an x86-64 context switch. This project
models it twice and joins the two:

- **The simple machine** (`Machine.dfy`): a sequence of waiting tasks, a set of identifiers, and a trace of dispatches.
  A task is a finite program that yields, asks for a child task (going on in one of two ways, depending on the answer)
  or returns. The only open choice is what the operating system answers to each creation attempt; one verdict per
  attempt fixes it.
- **The runtime as it is** (`Runtime.dfy` over `List.dfy`, `Bitmap.dfy`, `IdPool.dfy`, `Task.dfy`, `Stack.dfy`):
  classes whose methods rewrite links, words, counters and states in place, statement by statement. It keeps
  records of what it does: `dispatched`, to which each dispatch appends the task's identifier, `answered`, to which
  each creation attempt appends its outcome, and `events`, which has both in one order, with who asked for a stack of
  what size. The layers it calls (heap, virtual memory, contexts, scheduler) note every
  answer they give in a journal.

Every runtime operation keeps one invariant (`Runtimes.Runtime.Valid`) and moves the simple machine by exactly the
corresponding step. The invariant ties the machine's trace, replies and events to these records, and the verdicts
it is given to the journal: what stands there since init is exactly what these verdicts mean, layer by layer
(`Machine.Transcript`), and the layers can have said it: no refusal is a success, and with no identifier free nobody is
asked beyond the heap (`Machine.Credible`). Such a journal has one reading only: commands and journal decide every
verdict, every answer and every dispatch (`Evidence.SessionDecided`, `Evidence.LifetimeDecided`). So a whole session of the runtime dispatches and answers what the machine does for what the
layers have said (`Runtimes.Runtime.PerformAll`, `Runtimes.Runtime.Lifetime`), and what is proved about all runs of the
machine (`Guarantees.dfy`: conservation, draining, bounded waiting, rounds, dense identifiers) holds of the runtime;
`Runtimes.Runtime.Run` and `Runtimes.Runtime.PerformAll` state order, rounds and density on the runtime's own records.

What a run is, is said once more without the machine's steps (`Walk.dfy`): each task that waits, and each task created
meanwhile, goes through its program from the root to exactly one leaf, comes back after each yield, asks for the stack
the program says, takes the branch it is told, and leaves children that run what the program says; and nothing else
happens (`Walks.RunWalks`, and `Runtimes.Runtime.Run` for the recorded events).

`Memory.dfy` and `Context.dfy` are a small machine of registers over byte-addressed memory for the context switch. The
runtime's creation writes each task's first frame into the task's stack, in the same memory; the invariant keeps the
frames of all tasks that have not run yet, and `Bootstrap.dfy` concludes that their first load reaches the trampoline.
Blocks of the heap and mappings never overlap, so the contexts in the tasks' structures are apart from each other and
from all first frames. `Numerals.dfy` joins bit masks and numbers, and `Pipeline.dfy` is the client protocol of the pipeline example.

How to read the concrete side:

- Control never comes back from `__gt_runtime_schedule`; `Schedule` ends in the state in which `current`, or main, has
  the processor. "Resume" means: go on with the rest of the task's program (`Task.rest`).
- A node knows the structure it is embedded in (`Node.owner`), which the source finds by address arithmetic. The ghost
  fields `Node.home` (the list it is in) and `Node.live` (its memory has not been freed) let every list primitive demand
  live nodes, so no link of a freed task is ever followed.
- The internal assertions of the source (admitted tasks are ready, released identifiers are held, the count is positive
  before it is decremented, there is a current task on yield and exit) are preconditions or `assert` statements; that
  they hold at every call from `Init`, `CreateTask`, `Run` and `Destroy` is part of what is proved.

Code and documents disagree in three places; the model follows the code. A stopped runtime can run again
(src/runtime/runtime_execution.c:91-92 against design/invariants.md:92), tasks can be created in every state but the
uninitialized one (src/runtime/runtime.c:35-39 against design/invariants.md:94), and there is no SHUTDOWN state
(internal/gt_internal/common/types.h:14-20 against design/invariants.md:86).

Some properties hold up to a boundary. The initial frame takes 24 bytes, but the stack checks admit a usable stack of
16 bytes, where it would reach 8 bytes below the stack: `Contexts.FrameStaysInside` shows that the frame fits if and
only if the stack has 24 bytes, and `Stacks.RoomyIsUsable` that only requests of 1 to 16 bytes on pages of 16 bytes fall
short; `Stacks.SmallestStackIsNotUsable` is such a stack. Saving a context keeps its registers and stack pointer for good, but not its return address: the very next call
the saving function makes, the one to the scheduler, takes that slot for itself (`Contexts.NextCallTakesTheSlot`). What
survives the scheduler is therefore stated for the records (`Contexts.SwitchKeepsAllRecords`), and a load resumes at
whatever the slot holds by then. `Bitmaps.TotalWordsExact` and `Pages.AlignUpExact` give the exact ranges in which the
64-bit roundings do not wrap, and `Pipelines.Pipeline.Run` the exact number of items (46340) up to which no square
overflows an `int`.

## Model

| member | source | states |
|---|---|---|
| Words.SetBit | internal/gt_internal/ds/bitmap/bitmap.h:196-199 | or-ing the mask sets one bit and leaves the 63 others |
| Words.ClearBit | internal/gt_internal/ds/bitmap/bitmap.h:210-213 | and-ing the inverted mask clears one bit and leaves the others |
| Words.LowBit | internal/gt_internal/ds/bitmap/bitmap.h:57-62 | of `(1 << k) - 1` exactly the bits below k are set |
| Words.PowerOfTwoTest | internal/gt_internal/common/bits.h:24 | the test for a power of two passes if and only if at most one bit is set; zero passes as well |
| Words.SameBitsIsSame | internal/gt_internal/ds/bitmap/bitmap.h:123-138 | two words with the same bits are equal, so comparing words compares sets |
| Words.Ctz | internal/gt_internal/ds/bitmap/bitmap.h:254-272 | counting trailing zeros yields the lowest set bit |
| Numerals.MaskTestIsPowerOfTwo | internal/gt_internal/common/bits.h:24 | for every number from 1 to 2^64 - 1 the mask test passes if and only if the number is a power of two, as the page size is required to be |
| Numerals.MaskRoundsDown | internal/gt_internal/common/align.h:15 | masking off four bits takes away the remainder modulo 16 |
| Bitmaps.TotalWordsExact | internal/gt_internal/ds/bitmap/bitmap.h:51-55 | the number of words is the rounded-up quotient if and only if the addition does not wrap, which fails only for the last 63 sizes |
| Bitmaps.SetWord | internal/gt_internal/ds/bitmap/bitmap.h:188-200 | storing the changed word adds one index to the set and keeps the trailing bits zero |
| Bitmaps.ClearWord | internal/gt_internal/ds/bitmap/bitmap.h:202-214 | storing the changed word removes one index from the set and keeps the trailing bits zero |
| Bitmaps.MembersDetermineWords | internal/gt_internal/ds/bitmap/bitmap.h:22-26 | a well-formed array of words is determined by its set of indices: undone operations restore the very words |
| Bitmaps.LastWordMaskIsLow | internal/gt_internal/ds/bitmap/bitmap.h:57-62 | the last-word mask has exactly the bits in range, also when the size is a multiple of 64 |
| Bitmaps.Bitmap.Init | internal/gt_internal/ds/bitmap/bitmap.h:106-121 | the bitmap represents the empty set over the given size |
| Bitmaps.Bitmap.IsEmpty | internal/gt_internal/ds/bitmap/bitmap.h:123-138 | true if and only if no index is in the set |
| Bitmaps.Bitmap.IsFull | internal/gt_internal/ds/bitmap/bitmap.h:140-168 | true if and only if every index in range is in the set, whether or not the last word is partial |
| Bitmaps.Bitmap.IsSet | internal/gt_internal/ds/bitmap/bitmap.h:170-182 | tests membership |
| Bitmaps.Bitmap.Add | internal/gt_internal/ds/bitmap/bitmap.h:188-200 | adds exactly one index |
| Bitmaps.Bitmap.Remove | internal/gt_internal/ds/bitmap/bitmap.h:202-214 | removes exactly one index |
| Bitmaps.Bitmap.AddAll | internal/gt_internal/ds/bitmap/bitmap.h:225-234 | the set is everything in range and the trailing bits are zero again |
| Bitmaps.Bitmap.ClearAll | internal/gt_internal/ds/bitmap/bitmap.h:236-243 | the set is empty |
| Bitmaps.Bitmap.FindFirstSet | internal/gt_internal/ds/bitmap/bitmap.h:254-272 | the least index in the set, or failure if and only if there is none |
| Bitmaps.Bitmap.FindFirstClear | internal/gt_internal/ds/bitmap/bitmap.h:279-308 | the least index in range that is not in the set, or failure if and only if there is none |
| IdPools.LeastFreeIsUnique | internal/gt_internal/ds/id_pool/id_pool.h:98-103 | an identifier that is free while all smaller ones are held is the lowest free one, which is at most the number held |
| IdPools.IdPool.Init | internal/gt_internal/ds/id_pool/id_pool.h:84-92 | nothing is held |
| IdPools.IdPool.Allocate | internal/gt_internal/ds/id_pool/id_pool.h:104-117 | hands out the least free identifier and marks it; fails if and only if all are held, changing no word |
| IdPools.IdPool.Release | internal/gt_internal/ds/id_pool/id_pool.h:124-132 | exactly the given identifier, which must be held, becomes free |
| IdPools.IdPool.IsAllocated | internal/gt_internal/ds/id_pool/id_pool.h:141-148 | whether an identifier is held |
| IdPools.IdPool.IsEmpty | internal/gt_internal/ds/id_pool/id_pool.h:153-159 | true if and only if nothing is held |
| IdPools.IdPool.IsFull | internal/gt_internal/ds/id_pool/id_pool.h:164-170 | true if and only if the least free number is the capacity |
| IdPools.HandedBelowPeak | internal/gt_internal/ds/id_pool/id_pool.h:104-132 | over any history of a pool every identifier handed out is below the most ever held at once |
| IdPools.FreshPoolCounts | internal/gt_internal/ds/id_pool/id_pool.h:104-117 | k allocations from an empty pool yield 0, ..., k-1 in order |
| Lists.LinksDetermineNodes | internal/gt_internal/ds/list/list.h:41-58 | the links determine the sequence of nodes: no two sequences fit the same links |
| Lists.List.Init | internal/gt_internal/ds/list/list.h:93-98 | an empty list whose sentinel points to itself |
| Lists.List.EmptyMeansNone | internal/gt_internal/ds/list/list.h:115-119 | the sentinel points to itself if and only if no node is linked |
| Lists.List.Front | internal/gt_internal/ds/list/list.h:134-138 | the first node, or null if and only if the list is empty |
| Lists.List.Back | internal/gt_internal/ds/list/list.h:144-148 | the last node, or null if and only if the list is empty |
| Lists.Link | internal/gt_internal/ds/list/list.h:63-79 | the four stores splice a node in, also when both neighbours are the same node |
| Lists.Unlink | internal/gt_internal/ds/list/list.h:81-88 | from the node alone, its neighbours are joined and its links are null |
| Lists.InsertBefore | internal/gt_internal/ds/list/list.h:153-157 | the sequence with the node put in before a position; every other valid list is untouched |
| Lists.InsertAfter | internal/gt_internal/ds/list/list.h:162-166 | the sequence with the node put in after a position; every other valid list is untouched |
| Lists.PushFront | internal/gt_internal/ds/list/list.h:171-175 | the node comes first; every other valid list is untouched |
| Lists.PushBack | internal/gt_internal/ds/list/list.h:180-184 | the node comes last; every other valid list is untouched |
| Lists.Remove | internal/gt_internal/ds/list/list.h:189-193 | the sequence without the node, which is left with null links; every other valid list is untouched |
| Lists.MoveFront | internal/gt_internal/ds/list/list.h:198-203 | the node moves to the front, from the same list or another one |
| Lists.MoveBack | internal/gt_internal/ds/list/list.h:208-213 | the node moves to the back, from the same list or another one |
| Lists.BackwardReversesForward | internal/gt_internal/ds/list/list.h:41-58 | walking along `prev` is the reverse of walking along `next`, and both come back to the sentinel after all nodes |
| Lists.ForEachSafe | internal/gt_internal/ds/list/list.h:229-231 | safe iteration that removes any set of nodes visits the original sequence once in order and keeps the others linked in order |
| Queues.Queue.Init | internal/gt_internal/ds/queue/queue.h:39-45 | an empty queue |
| Queues.Queue.IsEmpty | internal/gt_internal/ds/queue/queue.h:50-56 | true if and only if nothing is queued |
| Queues.Queue.Peek | internal/gt_internal/ds/queue/queue.h:65-71 | the front node without removing it |
| Queues.Queue.Enqueue | internal/gt_internal/ds/queue/queue.h:78-84 | the node goes to the back, other lists are untouched |
| Queues.Queue.Dequeue | internal/gt_internal/ds/queue/queue.h:91-104 | the front node leaves with null links, or null if and only if the queue is empty |
| Pages.BoundIsModulusLessAlign | src/platform/page/backend/linux/page.c:84 | the cached bound is 2^64 less one page |
| Pages.AlignUpExact | src/platform/page/backend/linux/page.c:115-122 | rounding up is exact if and only if the size is at most the cached bound; every larger size wraps to something smaller |
| Pages.Page.Init | src/platform/page/backend/linux/page.c:60-89 | the first reported page size is kept for good; a size that is not positive is refused |
| Pages.Page.AlignUp | src/platform/page/backend/linux/page.c:115-122 | the least page multiple that is not below the size |
| VirtualMemory.Vm.Reserve | src/platform/vm/backend/linux/vm.c:90-119 | a closed, page-aligned region apart from all other regions and all heap blocks, or a refusal that changes nothing; the journal has the answer |
| VirtualMemory.Vm.Open | src/platform/vm/backend/linux/vm.c:121-139 | opens part of a region, or refuses and changes nothing; the journal has the answer |
| VirtualMemory.Vm.Release | src/platform/vm/backend/linux/vm.c:141-160 | exactly one region is unmapped |
| Stacks.StackInit | src/memory/stack/stack.c:39-104 | a mapping with a usable region of the least fitting page multiple (64 KiB for 0), 16-aligned, one closed page on each side; on failure nothing stays mapped |
| Stacks.RoomyIsUsable | src/memory/stack/stack.c:53-59 | the stack has room for the first frame if and only if pages are larger than 16 bytes or the request is 0 or more than 16 bytes |
| Stacks.SmallestStackIsNotUsable | src/memory/stack/stack.c:53-101 | a request of one byte on pages of 16 bytes passes all checks and leaves no room for the first frame |
| Stacks.StackDestroy | src/memory/stack/stack.c:106-114 | exactly the stack's mapping is released |
| Stacks.GuardPagesAreClosed | src/memory/stack/stack.c:70-86 | of a stack's mapping exactly the usable region is accessible, so exactly one page on each side is not |
| Stacks.StacksAreApart | src/memory/stack/stack.c:61-71 | the usable regions of two live stacks are at least two pages apart |
| Tasks.Task.Clear | src/task/task.c:26-30 | everything is zero, the links of both nodes included |
| Tasks.Task.Init | src/task/task.c:32-63 | a new task with its stack, whose base and size meet what the context demands, or a refusal with the first failing layer's status and nothing mapped |
| Tasks.ContextInit | src/platform/context/backend/x86_64/context.c:91-112 | for a base and size that meet the assertions, the stack pointer is the stack's end; the journal has the answer |
| Tasks.ContextConfigure | src/platform/context/backend/x86_64/context.c:64-123 | the three words of the first frame are stored where the stack can be accessed, with the trampoline as entry, or a refusal writes nothing |
| Tasks.Task.Destroy | src/task/task.c:65-74 | exactly the task's mapping is released, and the structure is zero |
| Tasks.Heap.Alloc | src/platform/heap/heap.c:22-40 | a fresh zeroed block that overlaps neither another block nor a mapping, not at null, or nothing; the journal has the answer |
| Tasks.Heap.Free | src/platform/heap/heap.c:42-46 | an owned block is freed, at most once, and its nodes are dead |
| Tasks.Acquire | src/runtime/runtime_task.c:80-111 | heap, identifier, stack and context are taken in this order with the least free identifier, the stack is laid out for the size asked for, and the first frame is in place; or a refusal at any of them leaves blocks, mappings, memory and bitmap words as they were; the journal has grown by just the answers up to the refusal |
| Tasks.Release | src/runtime/runtime_task.c:159-165 | the task's identifier, mapping and block are given back, each once |
| Tasks.Scheduler.Init | src/scheduler/scheduler.c:37-46 | succeeds with an empty queue |
| Tasks.Scheduler.Destroy | src/scheduler/scheduler.c:48-54 | wipes the sentinel and touches no queued node |
| Tasks.Scheduler.Consider | src/runtime/runtime_task.c:114-115 | creation is prepared for any answer to an admission; the journal has it |
| Tasks.Scheduler.Admit | src/scheduler/scheduler.c:56-66 | a ready task that is not queued goes to the back, always with success |
| Tasks.Scheduler.Next | src/scheduler/scheduler.c:68-76 | the owner of the front node leaves the queue, or null if and only if nobody waits |
| Machine.StepUsesWork | src/runtime/runtime_execution.c:65-80 | every action of a task uses up work, so every run of finite programs, spawned children included, ends |
| Machine.ReapInTurn | src/runtime/runtime_task.c:131-150 | destroying the zombies one by one from the front takes exactly their identifiers |
| Conservation.StepKeeps | src/runtime/runtime_execution.c:32-133 | after every action the held identifiers are exactly those of the owned tasks, all distinct and below capacity |
| Conservation.RunKeeps | src/runtime/runtime_execution.c:88-108 | a run ends stopped, with nobody waiting or unburied and no identifier held |
| Conservation.DrainStops | src/runtime/runtime_scheduler.c:85-95 | main gets the processor back only when nobody is ready, and then the runtime is stopped |
| Conservation.PhaseFollows | src/runtime/runtime_scheduler.c:41-68 | no action of a task changes the state of the runtime, unless main is resumed, and then it is stopped |
| Conservation.SessionKeeps | src/runtime/runtime.c:47-105 | the same balance holds after any sequence of creations and runs |
| Conservation.OwnedCount | src/runtime/runtime_task.c:126-169 | there are as many owned tasks as held identifiers |
| Fairness.WaitingTasksComeNext | src/runtime/runtime_scheduler.c:76-99 | whatever running tasks do, the waiting tasks are the next to be dispatched, in their order |
| Fairness.OrderFromAnywhere | src/runtime/runtime_scheduler.c:76-99 | the same from any point, main before a run included |
| Fairness.DispatchedInTurn | src/runtime/runtime_scheduler.c:85-98 | a task with k tasks ahead gets exactly the (k+1)-th following dispatch and none before, whether a task or main has the processor |
| Fairness.ChildBeforeParent | src/runtime/runtime_task.c:111-114 | a spawned child runs after all tasks already queued and before its parent's next turn |
| Fairness.StepExtendsOrder | src/runtime/runtime_scheduler.c:85-95 | an action only adds to the end of the order of past and coming dispatches, and main is resumed only by an exit with nobody ready, never by a yield |
| Fairness.FinishedStaysFinished | src/runtime/runtime_execution.c:49-54 | a zombie is never dispatched again |
| Rounds.DrainFollowsQueue | src/runtime/runtime_scheduler.c:85-98 | for tasks that only yield, the dispatch order is read off the queue alone |
| Rounds.RoundIsLater | src/runtime/runtime_scheduler.c:85-98 | the tasks left after r rounds are, in creation order, those that yield at least r times |
| Rounds.RunGoesInRounds | src/runtime/runtime_execution.c:88-108 | the dispatches of a run of such tasks are the rounds 0, 1, 2, ..., round r holding the tasks that yield at least r times in creation order |
| Density.SessionDense | src/runtime/runtime_task.c:44-63 | in any session, spawning tasks included, every identifier given out is below the most ever held at once |
| Density.FreshRuntimeCounts | src/runtime/runtime_task.c:44-57 | creations in a fresh runtime get 0, 1, 2, ... up to capacity, then exhaustion |
| Walks.RunWalks | src/runtime/runtime_execution.c:32-133 | in a run each task, and each task born meanwhile, gets the processor and follows its program from the root to one leaf: back after each yield, asking for the stack size the program says, on the branch it was told; children run what the program says; nothing else happens |
| Walks.SessionWalks | src/runtime/runtime.c:83-89 | in any session a creation by main asks for the size of the command, and a granted task waits behind the others with the entry of the command; a run is walked through to the end |
| Walks.SessionTallies | src/runtime/runtime_scheduler.c:55-68 | the trace lists exactly the dispatches among the events, the replies exactly the answers |
| Evidence.TranscriptDecides | src/runtime/runtime_task.c:80-128 | what the layers say in a series of creation attempts has one reading: equal journals come from equal verdicts |
| Evidence.SessionMatches | src/runtime/runtime_task.c:71-129 | in a session with credible verdicts an attempt is refused with the status of the first layer that refuses, which is no success, or granted if all agree or the identifiers are used up |
| Evidence.RunDecided | src/runtime/runtime_execution.c:88-108 | a run from a given state is a function of the journal |
| Evidence.SessionDecided | src/runtime/runtime.c:83-89 | a session is a function of its commands and the journal |
| Evidence.LifetimeDecided | src/runtime/runtime.c:47-105 | all generations are a function of their commands and the one journal, which does not say where one ends and the next begins |
| Runtimes.Runtime.EveryTaskHasItsPlace | src/runtime/runtime_scheduler.c:41-99 | ready tasks are exactly those in the queue, the running one is exactly `current`, zombies are exactly those in the zombie list, no new task is visible |
| Runtimes.Runtime.EveryNodeHasItsList | src/runtime/runtime_execution.c:41-47 | each node is linked in the list its task's state calls for and in no other, each once |
| Runtimes.Runtime.BooksBalance | src/runtime/runtime_task.c:126-169 | count, lists and set bits agree; the bits are exactly the owned tasks' distinct identifiers, below capacity |
| Runtimes.Runtime.ModelIsConsistent | src/runtime/runtime_execution.c:32-133 | in every state of the runtime the machine it stands for balances: held identifiers are those of running, waiting and finished tasks, each once |
| Runtimes.Runtime.WaitingTasksRunInTurn | src/runtime/runtime_scheduler.c:85-98 | the k-th task of the linked queue gets exactly the (k+1)-th dispatch from now on, whatever tasks do and the system answers, whether a task or main has the processor |
| Runtimes.Runtime.StructuresKeepApart | src/runtime/runtime_task.c:32-42 | the structures of two owned tasks overlap neither each other nor any owned stack, guard pages included; so different tasks have different addresses |
| Runtimes.Runtime.StackServes | src/memory/stack/stack.c:53-59 | the stack of every owned task is laid out for the size that was asked for: 64 KiB for 0, else the least page multiple that is not below it |
| Runtimes.Runtime.OthersUntouched | src/runtime/runtime_task.c:93-109 | making a task writes no byte that was accessible before |
| Runtimes.Runtime.StacksKeepApart | src/memory/stack/stack.c:61-71 | the stacks of any two owned tasks are at least two pages apart |
| Runtimes.Runtime.StackIsGuarded | src/memory/stack/stack.c:77-86 | of an owned task's mapping exactly the usable stack is accessible, one page on each side is not |
| Runtimes.Runtime.ResumeMain | src/runtime/runtime_scheduler.c:41-50 | main gets the processor in the stopped state, and only with nobody ready |
| Runtimes.Runtime.ResumeTask | src/runtime/runtime_scheduler.c:55-68 | the dispatched task is the one running task and goes on behind its last yield, or, the first time, with its entry function; the records grow by its dispatch |
| Runtimes.Runtime.Schedule | src/runtime/runtime_scheduler.c:76-99 | re-admits a task that gave way and dispatches the front of the queue, or main, as the machine does |
| Runtimes.Runtime.GiveWay | src/runtime/runtime_execution.c:110-133 | a yield keeps the invariant and is the machine's step; what other tasks have saved is as it was |
| Runtimes.Runtime.Exit | src/runtime/runtime_execution.c:32-57 | an exit moves the task from the task list to the zombies for good and is the machine's step |
| Runtimes.Runtime.FrameStands | src/runtime/runtime_task.c:102-111 | writing the first frame of a new task leaves the first frames of all others as they are |
| Runtimes.Runtime.Join | src/runtime/runtime_task.c:112-129 | a task that has all it needs is linked into both lists and counted, and its fields, the entry function among them, are left alone; or, admission refused, it is unlinked again and everything it held is given back |
| Runtimes.Runtime.Withdraw | src/runtime/runtime_task.c:115-124 | the rollback of a refused admission: task list, identifiers, mappings and blocks are those without the task |
| Runtimes.Runtime.MakeTask | src/runtime/runtime_task.c:71-129 | all or nothing: on success lists, queue, count, blocks and identifiers grow by one task at the tail with the least free identifier, the entry function asked for and a stack laid out for the size asked for; on any refusal, that of an admission included, everything, bitmap words included, is as before; no byte of another task's stack is written |
| Runtimes.Runtime.CreateTask | src/runtime/runtime.c:83-89 | a creation from main or from a task keeps the invariant and is the machine's step for the verdict the layers have given according to the journal, one they can have given; status and recorded answer are the machine's reply, refusals with their status; the new last task of the queue has the entry function and the stack that were asked for, all others are as they were |
| Runtimes.Runtime.Act | src/runtime/runtime_execution.c:65-80 | one action of the current task, whatever it is, is the machine's step; a request gets the stack size the program says; other tasks are left alone |
| Runtimes.Runtime.TaskDestroy | src/runtime/runtime_task.c:152-170 | any task of the task list or the zombies leaves its list at its position, its identifier, stack and block are released once, the count goes down with the lists |
| Runtimes.Runtime.DestroyTaskList | src/runtime/runtime_task.c:131-144 | terminates with the list empty; for zombies under an orderly queue it is the machine's reaping |
| Runtimes.Runtime.ReapZombies | src/runtime/runtime_task.c:146-150 | after a run it is the machine's reaping and keeps the invariant |
| Runtimes.Runtime.Run | src/runtime/runtime_execution.c:88-108 | a whole run, programs that spawn included: what has been dispatched and answered is what the machine says for credible verdicts, which are what the journal says; each task goes through its program exactly once; the tasks that wait come first, in their order; if tasks only yield, the dispatches go in rounds; it ends stopped with no task, no identifier, no mapping, no block |
| Runtimes.Runtime.PerformOne | src/runtime/runtime.c:83-89 | a creation by main queues a task with the entry function and the stack size of the command if it is granted, and changes nothing if not; a run walks all waiting tasks through their programs |
| Runtimes.Runtime.Init | src/runtime/runtime.c:47-81 | from any uninitialized state the same fresh state, or a page size failure that leaves everything wiped |
| Runtimes.Runtime.Destroy | src/runtime/runtime.c:91-105 | with any mix of waiting and finished tasks it ends wiped, with every block, mapping and identifier released |
| Runtimes.Runtime.PerformAll | src/runtime/runtime.c:83-89 | for any sequence of creations and runs from main, all dispatches, answers and events are those of the machine's session for credible verdicts, the journal has grown by exactly what these mean, and no identifier given out reaches the most held at once |
| Runtimes.Runtime.Generation | src/runtime/runtime.c:47-105 | from init to destroy: the dispatches and answers returned are those of a session on its own for credible verdicts, which are what the journal has grown by, and nothing is left |
| Runtimes.Runtime.Lifetime | src/runtime/runtime.c:47-105 | any number of generations: the dispatches and answers of each are those of a session of its own for credible verdicts, whatever came before, and the journal has grown by what the verdicts of all of them mean, in order |
| Contexts.Processor.Save | src/platform/context/backend/x86_64/switch.S:17-37 | the instruction sequence has the stated effect on registers and memory; rdi and the callee-saved registers but rsp are as before, eax is 0 |
| Contexts.Processor.Load | src/platform/context/backend/x86_64/switch.S:50-70 | the instruction sequence has the stated effect on registers; rdi and memory are as before, eax is 1 |
| Contexts.Processor.Start | src/platform/context/backend/x86_64/switch.S:89-107 | the instruction sequence up to the entry function has the stated effect, and leaves the callee-saved registers but rsp alone |
| Contexts.Processor.ContextInit | src/platform/context/backend/x86_64/context.c:91-112 | the record holds the aligned top of the stack, and zeros for all other registers |
| Contexts.InitializedClears | src/platform/context/backend/x86_64/context.c:107-109 | a fresh record reads the aligned top of the stack and six zeros, and no other byte is written |
| Contexts.Processor.ContextConfigure | src/platform/context/backend/x86_64/context.c:58-123 | argument, entry and start routine are pushed and the record points below them |
| Contexts.ConfiguredFacts | src/platform/context/backend/x86_64/context.c:64-123 | configuring any context pushes its frame below the stack pointer of the record and points the record to it; no other byte is written |
| Memories.ReadWritten | src/platform/context/backend/x86_64/switch.S:22-28 | eight bytes read where a word was written give the word, at any address |
| Memories.ReadAll | src/platform/context/backend/x86_64/switch.S:22-28 | words stored one behind the other from any address, aligned or not, can all be read back, and no byte outside is written |
| Contexts.PutAndGet | src/platform/context/backend/x86_64/switch.S:21-28 | the seven words of a record can be read back and no byte outside its 56 is written |
| Contexts.SaveWrites | src/platform/context/backend/x86_64/switch.S:17-37 | a save writes only the bytes of its record, and returns to its caller if these do not overlap the return address |
| Contexts.LoadResumesSave | src/platform/context/backend/x86_64/switch.S:17-70 | both returns of a save, the first and, the record being as it was, any later one by a load, have the same stack pointer, rdi and callee-saved registers, with 0 and 1 in eax; the later one resumes where the first returned if and only if the return slot says so still |
| Contexts.NextCallTakesTheSlot | src/runtime/runtime_execution.c:94-105 | the next call of the function that saved overwrites the save's return address: a load then resumes behind that call |
| Contexts.SwitchKeepsAllRecords | src/runtime/runtime_execution.c:121-132 | a switch with the scheduler between save and load keeps the records of all suspended contexts, the one just saved included, if task and scheduler left the records alone; the loaded context has its stack pointer and registers back and goes on where its slot says |
| Contexts.PushedFacts | src/platform/context/backend/x86_64/context.c:64-83 | the three words of the initial frame, one below the other, and that no other byte is written |
| Contexts.PreparedFacts | src/platform/context/backend/x86_64/context.c:64-112 | what a configured context leaves in memory, zeros for the callee-saved registers included, record and frame not overlapping, and that nothing else is written |
| Contexts.FieldStandsForRecord | src/platform/context/backend/x86_64/context.c:64-112 | setting up a context in memory leaves in its record the stack pointer that the task's set-up keeps in a field, and the same bytes everywhere outside the record |
| Contexts.FrameLeadsToEntry | src/platform/context/backend/x86_64/switch.S:50-107 | from any memory that holds the frame, and a record that points to it, a load leads into the entry function with its argument in rdi, the record's values in the callee-saved registers and rsp + 8 a multiple of 16 |
| Contexts.FirstLoadReachesEntry | src/platform/context/backend/x86_64/switch.S:50-107 | the first load of a prepared context does so, with zeros in the callee-saved registers, as long as record and frame are left alone |
| Contexts.FrameStaysInside | src/platform/context/backend/x86_64/context.c:36-83 | only the record and the top 24 bytes of the stack are written; they fit if and only if the stack has 24 bytes |
| Bootstraps.FirstFrameIsItsOwn | src/runtime/runtime_task.c:93-109 | each byte of the first frame of an owned task can be accessed and lies in no other task's mapping, guard pages included |
| Bootstraps.RecordsKeepApart | internal/gt_internal/task/task.h:18-59 | the contexts of two owned tasks share no byte, and none shares one with the first frame of any task, as switching and preparing demand |
| Bootstraps.FirstDispatchReachesTrampoline | src/runtime/runtime_task.c:93-111 | in every state of the runtime, a load of a waiting task that has not run yet leads through the start routine into the trampoline with that task as its argument, not null and no other task's address, and the stack aligned; the entry function of that task is the program the machine has for it |
| Pipelines.Pipeline.ProducerTurn | examples/10_pipeline.c:17-34 | one turn of the producer's loop |
| Pipelines.Pipeline.ProcessorTurn | examples/10_pipeline.c:36-58 | one turn of the processor's loop, undefined if and only if the square overflows |
| Pipelines.Pipeline.ConsumerTurn | examples/10_pipeline.c:60-78 | one turn of the consumer's loop |
| Pipelines.Pipeline.Run | examples/10_pipeline.c:80-125 | for N items, if and only if N is at most 46340, all three tasks finish, the consumer has printed 1, 4, ..., N * N in order, and the turns are those the runtime deals out |
| Pipelines.SessionTurns | examples/10_pipeline.c:103-117 | the runtime dispatches three tasks that yield N times in N + 1 laps of creation order |

## Left out

- Compiled C code: which memory the frames above a saved context use depends on the compiler. That tasks and scheduler leave records and first frames alone is a hypothesis of `Contexts.SwitchKeepsAllRecords` and `Bootstraps.FirstDispatchReachesTrampoline`; in the runtime, resuming means going on with the rest of the program, and the saved stack pointer of a task that has run is any word.
- Tasks.ContextInit: any status may come back, as from any context backend; the only backend there is always succeeds, and is modelled in `Context.dfy`.
- Tasks.ContextConfigure: any status may come back here too; the record itself lies in the task's structure, of which only the stack pointer is a field of the model.
- Tasks.Scheduler.Consider: any status may come back, so that the rollback is covered; the scheduler there is admits every task (`Tasks.Scheduler.Admit`).
- Stacks.Supported: page sizes below 16 and page sizes that do not divide the default stack size of 64 KiB are excluded; the source checks only for a power of two.
- Stacks.Fitting: sizes for which the addition of the guard pages wraps are excluded; the source does not check them.
- Stacks.Roomy: requests of 1 to 16 bytes on pages of 16 bytes are excluded in the runtime, because the first frame would be written into the lower guard page; the source does not check them.
- `mmap`, `mprotect`, `munmap`, `calloc`, `sysconf`: replaced by nondeterministic answers; unmapping is taken to succeed, as the source ignores its status.
- Destroying the runtime from inside a task, yielding from main, and using a task after it was destroyed: preconditions exclude them.
- The address arithmetic from an embedded node to its structure; the owner is a field of the node.
- `gt_list_node_init`, `gt_list_node_is_linked`, the plain iteration macros, the alignment queries on pages and `gt_context_destroy`: one assignment, one comparison or one read each, on which nothing else in the model depends.
- Programs that do not end: a task's program is a finite tree, so an entry function that never returns is not modelled.
- Logging, panic messages, status strings, version queries and the public wrappers: they neither read nor change the state that is modelled. The other examples and the tests use the operations that are covered in ways that are special cases of a session.
