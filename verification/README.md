# Verified models of the operating-systems exercises

A Dafny model of the concurrent programs, allocators and small algorithms of the exercise
repository, with proofs of what they promise. `dafny verify dfyconfig.toml` checks it.

Code that changes state in place is modelled in place: a class or array, and methods with the
loops of the C code, each proved against a function on values. The concurrent programs are
also step systems: one step per section between taking and leaving a lock, run by any number
of threads in any order, with spurious wake-ups and with random numbers as free choices. The
steps use the same functions that the methods are proved against. The loops of `run_player`,
`consumer` and `bee_work` exist as step systems only.

| file | what it models |
|---|---|
| `Barrier.dfy` | the hand-written reusable barrier: the object, and N threads waiting in a loop |
| `DiceGame.dfy`, `DiceRuns.dfy` | the dice game on that barrier, down to the clean-up loop of `main`, and runs of it |
| `Consumers.dfy` | one producer, many consumers, a condition variable; and the spinning variant |
| `FlowerField.dfy`, `Beehive.dfy` | the flower field and the bees |
| `FreeList.dfy`, `AllocatorClients.dfy` | the fixed-block allocator, and two programs that use it |
| `BlockLists.dfy`, `BackLinks.dfy`, `BlockAllocator.dfy`, `BlockRuns.dfy` | the splitting and merging allocator: as lists of blocks, the back links of its code, as headers in memory, and runs with clients that write |
| `BubbleSort.dfy`, `AppendNumber.dfy`, `GameOfLife.dfy` | three sequential programs |
| `Arithmetic.dfy`, `Sums.dfy` | shared facts about division and sums |

## Main results

* **Barrier.** In every run of any number of threads nobody returns from its k-th wait before
  all have entered theirs, exactly one of the k-th calls returns the serial value
  (`BarrierSafety`), namely that of the last to call (`SerialIsLastCaller`), no sleeper is ever
  missed, and somebody can always move (`NoLostWakeupRun`). The runs with a generation counter that wraps after two values or more
  are those of an unbounded counter (`RunWraps`), so the overflow of the `int` does no harm.
* **Dice game.** Every run plays the sequential game: round k is judged by the values of the k-th
  `Roll` actions of the players still in (`RunRefines`, `GameTheorem`). Conversely every sequential
  game is played by some run (`EveryGame`). Eliminations overlap nothing (`NoOverlap`); exactly one
  thread announces.
* **Consumers.** Conservation modulo 2^32 and the final sum (`FinalSum`); each consumer's own sum is
  what its turns at the lock have given it (`EachConsumer`); at most 3(n+c) steps of progress, one
  always possible until all have finished (`EveryRunFinishes`, and `SpinRunFinishes` without sleep).
* **Beehive.** The frontier invariant, connectivity of the grid and a measure of the work left
  bound every run by 8*width*height + 2 cycles and a fixed number of steps; no bee is left at a
  barrier; each flower is collected once; the hive is destroyed exactly if some fight of the run
  was lost, and otherwise all flowers are collected (`BeehiveTheorem`). Bees set out in the order
  of the reports (`FirstInFirstOut`).
* **Fixed-block allocator.** The intrusive list is the ascending sequence of the free blocks,
  whatever the history, repeated frees included (`HistoryIndependence`, `FreesCommute`); each
  request takes exactly the lowest block not held (`NextCall`). The methods record their calls:
  a benchmark thread that ends has had exactly its number of requests granted and has released
  each of them exactly once (`ThreadFn`, `ThreadCalls`).
* **Block allocator.** Memory that is not a header of the chain may be written by clients between
  the calls. As written, `my_free` is right whatever is held there if and only if the back links of
  the free run agree, the run is preceded by nothing or by a block in use, and the merged size is
  an `int` (`FreeSafeIff`). That condition follows from the calls alone, so it says exactly which
  sequences of calls are always right (`WrittenRunsIff`); those without a split of a block that has
  a successor are (`NoneSplittingAlwaysRight`). With one assignment added, every sequence of
  calls is, with all links agreeing (`RelinkedRuns`); the list depends only on the blocks in use
  (`RunTheorem`), and freeing all of them in any order restores the initial header
  (`FreeEverythingInPool`).

## Where the code does not do what it should

Each is proved. Where it depends on the input, the condition is exact and a failing input is given.

* `exercise10/task_2/best_fit_allocator.c:117-125` does not set the back link of the block
  behind the remainder. Links agree after `my_malloc` if and only if no block with a successor is
  split (`MallocBackLinks`); `WrittenRunsIff` says which calls can then go wrong. Nine calls end in
  the headers of an empty pool while a block is in use (`LostBlock`); ten calls keep the chain and
  write into the payload of a block in use (`StrayWrite`). The one ADDED assignment is in
  `RelinkedCarve` and `RelinkedSplitOff` and nowhere else.
* `merge_size` at line 155 is an `int`: the merged size is stored correctly if and only if it is
  at most 2^31 - 1 (`MergeSizeLimit`). Allocating and freeing all of a pool of 2^31 bytes stores
  2^64 - 2^31 (`MergeSizeOverflows`).
* `size + sizeof(header_t)` at line 84 wraps: if a free block holds the sum, the request gets a
  large enough block without one header being written over another if and only if the sum stays
  below 2^64 (`GrantedIsLargeEnough`). Both failures occur (`GrantedTooSmall`, `HeadersOverlap`).
* `exercise10/README.md` asks for the block closest in size; the code takes the first that fits.
  After three calls the next request takes the larger of two blocks (`FirstFitIsNotBestFit`). As a
  note, the block taken is a closest one exactly if none behind it is closer
  (`FirstFitIsBestFitIff`). The model follows the code.
* `exercise09/task_3/task_3.c:199-212` frees the record of each player as soon as its thread is
  joined, while the announcing thread may still read the table record by record. While thread t
  is about to read record i, some continuation reads a freed record if and only if i < t; before
  the scan, if and only if t is not thread 0 (`StaleReadIff`). `StaleReadRun` gives such
  a run from the start of the program for every number of players.
* `exercise10/task_1/free_list_allocator.c:145-147` keeps the mutex locked if and only if the
  block was free already (`LockedAllocator.Free`; `FreeTwice` gives the calls).
* The initialisation loop of the fixed-block allocator links blocks 1 to n-1; block 0 of the n
  that fit is never used (`Allocator.Init`).
* `exercise06/README.md` gives the final sum as n/2 for odd n; the code computes (n+1)/2.

## Model

| member | source | states |
|---|---|---|
| Barrier.BarrierObject.Init | exercise09/task_3/my_pthread_barrier.c:7-41 | refuses a count below 1 and changes nothing, else starts an empty barrier of generation 0 |
| Barrier.BarrierObject.WaitEnter | exercise09/task_3/my_pthread_barrier.c:48-64 | the locked section up to the first sleep or the serial return is the step `Enter` of the step system, with a wrapping generation |
| Barrier.BarrierObject.WaitWoken | exercise09/task_3/my_pthread_barrier.c:54-67 | a woken waiter sleeps again or returns 0 as the step `Recheck` says |
| Barrier.BarrierObject.Destroy | exercise09/task_3/my_pthread_barrier.c:70-85 | refuses exactly while threads are waiting |
| Barrier.StepInv | exercise09/task_3/my_pthread_barrier.c:43-68 | every step, spurious wake-ups included, keeps: the waiting count is the number of threads that entered this generation and is below the maximum; sleepers wait for this generation; results name one leader per generation |
| Barrier.WrappedComparison | exercise09/task_3/my_pthread_barrier.c:50-54 | a captured generation is current or one old, so comparing wrapped values decides the same |
| Barrier.RunWraps | exercise09/task_3/my_pthread_barrier.c:50-59 | a run with a counter that wraps after m >= 2 values is legal exactly when the unbounded run is, and is its image |
| Barrier.BarrierSafety | exercise09/task_3/my_pthread_barrier.c:43-68 | in every run nobody returns from wait k before all have entered it, exactly one call of wait k returns the serial value and the others 0, and 0 <= waiting < maximum |
| Barrier.SerialIsLastCaller | exercise09/task_3/my_pthread_barrier.c:48-64 | in every run, with or without wrapping, the calls come in rounds of one per thread, wait k returns only when round k of the calls is complete, and returns the serial value to its last caller and 0 to the others; rounds are counted in the sequence of the calls |
| Barrier.SpuriousWakeup | exercise09/task_3/my_pthread_barrier.c:53-55 | a sleeper woken for nothing tests again and leaves the state as it was |
| Barrier.NoLostWakeup | exercise09/task_3/my_pthread_barrier.c:53-60 | no sleeper has a stale generation, every thread of an older generation can leave, and some thread can always move |
| Barrier.NoLostWakeupRun | exercise09/task_3/my_pthread_barrier.c:53-60 | the same in every run, with an unbounded counter and with one that wraps after two or more values |
| DiceGame.MinResult | exercise09/task_3/task_3.c:34-44 | the loop computes the least result among players still in |
| DiceGame.MaxResult | exercise09/task_3/task_3.c:47-57 | the loop computes the greatest result among players still in |
| DiceGame.Extremes | exercise09/task_3/task_3.c:34-57 | these are bounds of all results still in and are attained, INT_MAX and INT_MIN exactly if nobody is in |
| DiceGame.GetWinnerId | exercise09/task_3/task_3.c:59-67 | the first player still in, -1 exactly if there is none |
| DiceGame.EliminatePlayers | exercise09/task_3/task_3.c:69-86 | the table becomes that of the sequential elimination and the counter drops by the number of players eliminated |
| DiceGame.EliminateMeaning | exercise09/task_3/task_3.c:69-83 | a player stays exactly if somebody still in rolled more or all rolled the same; somebody always stays; the number drops unless the round is repeated |
| DiceGame.StepInv | exercise09/task_3/task_3.c:99-128 | every step of threads, barrier and clean-up keeps the invariant: active_players is the number still in and at least 1, and where each thread is fits the parity of the generation |
| DiceGame.NoOverlap | exercise09/task_3/task_3.c:100-116 | while one thread eliminates, every other is at the top of the loop or inside a wait |
| DiceGame.SameRound | exercise09/task_3/task_3.c:103-105 | once a thread has left the loop, all others have or will at their next look, and the table is final |
| DiceGame.SerialIsLeader | exercise09/task_3/task_3.c:112-119 | among the threads that leave, `res` holds the serial value exactly for the one that judged the last round |
| DiceGame.JudgeRefines | exercise09/task_3/task_3.c:107-116 | the elimination that ends round k is one round of the sequential game, in which each player still in has the value of the k-th `Roll` action of its thread |
| DiceGame.RunRefines | exercise09/task_3/task_3.c:99-117 | every run is a play of the sequential game with one round per elimination; for each player still in before round k the roll is the value of its k-th `Roll` in the actions |
| DiceGame.GameTheorem | exercise09/task_3/task_3.c:90-131 | for any number of players, garbage in `res` and interleaving, with the announcing scan one step per record: the table is that of the sequential game with the rolls read off the actions, each round being played by two players at least; active_players = number still in >= 1; and at the end an empty barrier and exactly one announcement, which names the only player left unless it read a freed record |
| DiceGame.StaleReadIff | exercise09/task_3/task_3.c:59-67 | from a state in which thread t is about to read record i of its scan, some continuation reads a freed record if and only if i < t; before the scan, if and only if t is not thread 0 |
| DiceRuns.EveryGame | exercise09/task_3/task_3.c:99-117 | every sequence of legal rounds, none of them played by fewer than two, is played by some run from the start of the program in which thread t rolls in round k what player t rolls there |
| DiceRuns.StaleReadRun | exercise09/task_3/task_3.c:199-213 | for every number of players from 2 on and every garbage in `res`, a run from the start of the program in which the announcement reads a freed record |
| DiceGame.NoDeadlock | exercise09/task_3/task_3.c:99-131 | until all threads are done some thread can make progress |
| Consumers.SharedQueue.Produce | exercise06/task_3/task_3.c:78-90 | round k of the producer's loops appends the k-th item, data first and sentinels after it |
| Consumers.SharedQueue.TakeOrSleep | exercise06/task_3/task_3.c:28-35 | the locked section of a consumer is the step `Take` |
| Consumers.ConsumerObject.Handle | exercise06/task_3/task_3.c:37-42 | a sentinel ends the consumer, data is added in wrapping arithmetic |
| Consumers.JoinAll | exercise06/task_3/task_3.c:92-102 | adding up with wrap-around gives the wrapped sum of all sums |
| Consumers.StepInv | exercise06/task_3/task_3.c:27-43 | every step keeps conservation, queue order, the sentinel count and the wake-up invariant |
| Consumers.NoLostWakeup | exercise06/task_3/task_3.c:78-90 | with one signal per push, until all have finished some step makes progress |
| Consumers.WorkShrinks | exercise06/task_3/task_3.c:27-43 | each progress step does one unit of work, sleeping and waking undo none |
| Consumers.EveryRunFinishes | exercise06/task_3/task_3.c:78-100 | a run has at most 3(n+c) progress steps, can always make another until all consumers have finished, and has finished exactly when it has made all |
| Consumers.FinalSum | exercise06/task_3/task_3.c:78-104 | shares equal the data taken modulo 2^32, one sentinel per consumer, nothing but sentinels behind a sentinel; at the end the sum is -n/2 for even n and (n+1)/2 for odd n |
| Consumers.EachConsumer | exercise06/task_3/task_3.c:28-43 | in every run each consumer's sum is an `int`, the wrapped sum of the data it has taken and added, where the k-th turn at the lock that finds something takes the k-th value pushed; it finishes by its sentinel and by nothing else |
| Consumers.SpinRunFinishes | exercise06/task_2/task_2.c:26-42 | a spinning run takes 3(n+c) steps besides looks at an empty queue, can always make the next until all have finished, and ends with the same sum |
| Consumers.SpinSimulated | exercise06/task_2/task_2.c:26-42 | every run of the spinning program is a run of the one with the condition variable |
| FlowerField.FrontierBetween | exercise12/task_3/beehive.c:176-179 | between a harvested and an unharvested flower some harvested flower has an unharvested neighbour in the field |
| FlowerField.CountIsFull | exercise12/task_3/beehive.c:76-108 | the number of harvested flowers is width * height exactly if all are harvested |
| FlowerField.Field.constructor | exercise12/task_3/beehive.c:23-55 | the new field has nothing harvested |
| FlowerField.Field.Harvest | exercise12/task_3/beehive.c:70-74 | adds exactly that flower, and nothing outside the field |
| FlowerField.Field.CountHarvested | exercise12/task_3/beehive.c:76-88 | counts the harvested flowers; width * height exactly if all are harvested |
| FlowerField.Field.IsFlowerHarvested | exercise12/task_3/beehive.c:90-96 | positions outside the field count as harvested |
| FlowerField.Field.AllIsHarvested | exercise12/task_3/beehive.c:98-108 | true exactly if every flower of the field is harvested |
| Beehive.Hive.constructor | exercise12/task_3/beehive.c:262-295 | an unharvested field and the seed in the queue |
| Beehive.Hive.PopSection | exercise12/task_3/beehive.c:158-167 | the queue section is the step `PopTask` |
| Beehive.Hive.NeighbourLoop | exercise12/task_3/beehive.c:181-194 | the loop drops the field lock at the next unharvested neighbour, or ends the collection |
| Beehive.Hive.CollectSection | exercise12/task_3/beehive.c:169-201 | the field section is the step `Collect` |
| Beehive.Hive.ReportSection | exercise12/task_3/beehive.c:185-188 | the neighbour is queued at the tail and the bee goes on behind it |
| Beehive.Hive.InspectSection | exercise12/task_3/beehive.c:207-209 | all_harvested becomes true exactly if the field is |
| Beehive.CoveredKept | exercise12/task_3/beehive.c:157-201 | a position that is queued, targeted or ahead in a neighbour loop stays so until it is harvested |
| Beehive.StepFrontier | exercise12/task_3/beehive.c:171-192 | every step keeps: each unharvested flower next to a harvested one is queued, targeted or ahead |
| Beehive.NoPendingMeansDone | exercise12/task_3/beehive.c:157-201 | nothing queued and nobody collecting implies that the whole field is harvested |
| Beehive.WorkMeasure | exercise12/task_3/beehive.c:157-201 | no step raises the work left, and a pop or a visit lowers it |
| Beehive.CycleDoesWork | exercise12/task_3/beehive.c:154-227 | every completed cycle has lowered the work left |
| Beehive.StepPhases | exercise12/task_3/beehive.c:205-227 | every step keeps the bees on one side of each barrier, with at most one serial bee |
| Beehive.StepRecord | exercise12/task_3/beehive.c:171-172 | the successful collections are distinct and are exactly the harvested flowers |
| Beehive.LeaveTogether | exercise12/task_3/beehive.c:154-228 | once a bee has left the loop no other is past its test of the flags |
| Beehive.NoDeadlock | exercise12/task_3/beehive.c:154-230 | until all bees have left some bee can go on |
| Beehive.StepsShrink | exercise12/task_3/beehive.c:154-227 | every step lowers the bound on the steps still to come |
| Beehive.DestroyedIffBearWon | exercise12/task_3/beehive.c:211-221 | the hive is destroyed exactly if some `Fight` in the actions was lost |
| Beehive.NothingAfterDefeat | exercise12/task_3/beehive.c:154-221 | once the hive is destroyed no continuation collects or queues anything more |
| Beehive.FirstInFirstOut | exercise12/task_3/beehive.c:158-188 | in every run the bees set out for the reported positions in the order of the reports, and the rest is queued in that order |
| Beehive.LoneBee | exercise12/task_3/beehive.c:154-201 | a run of a single bee in any field, which collects the seed and queues what lies inside the field to its right, left, below and above, in this order |
| Beehive.BeehiveTheorem | exercise12/task_3/beehive.c:143-232 | for every field, number of bees and interleaving: at most 8*width*height + 2 cycles, bounded length, no deadlock, distinct collections equal in number to the harvested flowers, the hive destroyed exactly if some `Fight` in the actions was lost, and all flowers collected at the end of every run without one |
| FreeList.Allocator.Init | exercise10/task_3/free_list_allocator.c:28-62 | links exactly the blocks 1 .. n-1 in order, for every total size; does nothing if initialised |
| FreeList.Allocator.Destroy | exercise10/task_3/free_list_allocator.c:64-79 | leaves an uninitialised allocator |
| FreeList.Allocator.Malloc | exercise10/task_3/free_list_allocator.c:81-100 | fails exactly for a large request or an empty list, else takes the first block of the list; it makes the step of the run model and records the call |
| FreeList.Allocator.Free | exercise10/task_3/free_list_allocator.c:102-129 | the list becomes the ascending list with the block inserted; a block found free is left and reported; it makes the step of the run model and records the call |
| FreeList.LockedAllocator.Init | exercise10/task_1/free_list_allocator.c:29-69 | leaves the blocks of a new pool on the list and the mutex free |
| FreeList.LockedAllocator.Malloc | exercise10/task_1/free_list_allocator.c:94-120 | fails exactly for a large request or an empty list, else takes the head, and leaves the mutex free |
| FreeList.LockedAllocator.Free | exercise10/task_1/free_list_allocator.c:122-154 | the mutex stays locked if and only if the block was free already |
| FreeList.FreeTwice | exercise10/task_1/free_list_allocator.c:122-154 | initialising, allocating and freeing the same block twice leaves the mutex locked |
| FreeList.InsertKeeps | exercise10/task_3/free_list_allocator.c:113-128 | insertion keeps the list ascending and adds exactly the block |
| FreeList.HistoryIndependence | exercise10/task_3/free_list_allocator.c:81-129 | after any calls the list is the ascending sequence of the blocks not held, depends on those alone, and starts with the lowest |
| FreeList.NextCall | exercise10/task_3/free_list_allocator.c:81-129 | after any calls, a request of at most 1024 bytes adds exactly the lowest block not held to the blocks held if there is one, any other request adds none, and a release takes away its block |
| FreeList.FreesCommute | exercise10/task_3/free_list_allocator.c:102-129 | freeing the same blocks in any order, and any number of times, gives the same list |
| FreeList.PayloadsDisjoint | exercise10/task_3/free_list_allocator.c:15-21 | payloads are inside the pool, disjoint from each other and from every header |
| AllocatorClients.FindMaximumBlockSize | exercise10/task_3/allocator_tests.c:20-34 | ends without leaving the range of size_t, finds 1024 if a block is free and 0 otherwise, and leaves the list unchanged |
| AllocatorClients.ThreadFn | exercise10/task_3/membench.c:48-83 | the calls recorded are those of the two loops on these draws; the allocation loop ends exactly if the draws suffice, and then num_allocations requests have been granted, each followed by one release of its pointer and no other released, and the list is as before |
| AllocatorClients.ThreadCalls | exercise10/task_3/membench.c:50-74 | the calls of the two loops, when the draws suffice: exactly n grants, each released exactly once, and the list restored |
| AllocatorClients.EachReleasedOnce | exercise10/task_3/membench.c:50-74 | in a record of calls without misuse at whose end nothing is held, every grant is followed by exactly one release of its pointer before that block is granted again |
| AllocatorClients.FirstPass | exercise10/task_3/membench.c:51-68 | with enough blocks and empty slots, n draws make n grants: the first n blocks of the list in order, for the sizes drawn |
| AllocatorClients.FreeingSuffices | exercise10/task_3/membench.c:50-68 | if all draws free, a pass over the buffer per allocation suffices, however few blocks there are |
| BlockLists.Ordered | exercise10/task_2/best_fit_allocator.c:46-55 | tiling blocks lie in the pool in the order of their addresses |
| BlockLists.PayloadsDisjoint | exercise10/task_2/best_fit_allocator.c:132 | payloads are inside the pool, disjoint from other blocks and from every header |
| BlockLists.FitIndex | exercise10/task_2/best_fit_allocator.c:99-108 | the block taken is free and large enough and none before it is |
| BlockLists.FirstFitIsNotBestFit | exercise10/task_2/best_fit_allocator.c:99-108 | a run of three calls after which the next request does not get the block closest in size |
| BlockLists.TakeTiled | exercise10/task_2/best_fit_allocator.c:115-128 | splitting keeps the pool tiled |
| BlockLists.TakeWaste | exercise10/task_2/best_fit_allocator.c:115-128 | the block taken has the size asked for, and less than a header more |
| BlockLists.TakeLive | exercise10/task_2/best_fit_allocator.c:115-128 | allocation adds exactly its block to the blocks in use |
| BlockLists.ReleaseCoalesced | exercise10/task_2/best_fit_allocator.c:153-176 | releasing leaves no two adjacent free blocks |
| BlockLists.ReleaseLive | exercise10/task_2/best_fit_allocator.c:153-176 | releasing removes exactly its block from the blocks in use |
| BlockLists.LiveDetermines | exercise10/task_2/best_fit_allocator.c:153-176 | a coalesced tiling is determined by the blocks in use |
| BlockLists.RunTheorem | exercise10/task_2/best_fit_allocator.c:83-179 | every run tiles and coalesces; runs with the same blocks in use end in the same list; with none in use it is the initial one |
| BlockLists.FreeEverything | exercise10/task_2/best_fit_allocator.c:135-179 | freeing all blocks in use in any order restores the single initial block |
| BlockLists.SizesAddUp | exercise10/task_2/best_fit_allocator.c:115-176 | the sizes always add up to the pool |
| BackLinks.TakeAgrees | exercise10/task_2/best_fit_allocator.c:115-125 | a split leaves all links agreeing if and only if the block split is the last |
| BackLinks.CallAgrees | exercise10/task_2/best_fit_allocator.c:83-179 | a call leaves links that agree agreeing if and only if it does not split a block with a successor |
| BackLinks.NoneSplittingIsSafe | exercise10/task_2/best_fit_allocator.c:83-179 | in a pool of at most 2^31 - 1 bytes, calls that never do are all safe |
| BlockAllocator.Allocator.Init | exercise10/task_2/best_fit_allocator.c:29-58 | one free block of the whole pool; does nothing if initialised |
| BlockAllocator.Allocator.FindFit | exercise10/task_2/best_fit_allocator.c:99-108 | the search loop finds the first free block on the chain that is large enough |
| BlockAllocator.Allocator.SplitOff | exercise10/task_2/best_fit_allocator.c:115-128 | the writes of the split are those of `Carve`; the headers are corrupt exactly if a block size below that of a header is split off |
| BlockAllocator.Allocator.TakeBlock | exercise10/task_2/best_fit_allocator.c:83-133 | on any headers that the search can follow: whether one header is written over another, and if not what is written and granted |
| BlockAllocator.Allocator.Malloc | exercise10/task_2/best_fit_allocator.c:83-133 | as written: for requests that do not wrap keeps any correct forward chain whatever the back links, grants the first fit, changes nothing off the chain but the new header, leaves the back links that BackLinks says, and keeps the pool consistent exactly if it does not split a block with a successor |
| BlockAllocator.Allocator.RelinkedSplitOff | exercise10/task_2/best_fit_allocator.c:115-128 | the split with the assignment added writes what `RelinkedCarve` says |
| BlockAllocator.Allocator.RelinkedMalloc | exercise10/task_2/best_fit_allocator.c:83-133 | with the assignment added: always keeps the pool consistent |
| BlockAllocator.Allocator.MergeForward | exercise10/task_2/best_fit_allocator.c:155-164 | the forward loop stops at the end of the free run with its sizes in the `int` |
| BlockAllocator.Allocator.MergeBackward | exercise10/task_2/best_fit_allocator.c:166-170 | the backward loop stops at the start of the free run with its sizes in the `int` |
| BlockAllocator.Allocator.Free | exercise10/task_2/best_fit_allocator.c:135-179 | as written: what it does wherever its accesses are defined; a safe release on any correct chain releases the block, keeps the chain and changes nothing off it; a consistent pool of at most 2^31 - 1 bytes stays consistent |
| BlockAllocator.FirstFitRefines | exercise10/task_2/best_fit_allocator.c:99-108 | the walk along next finds the block of the lowest fitting index |
| BlockAllocator.MallocRefines | exercise10/task_2/best_fit_allocator.c:83-133 | from any correct forward chain, stale back links or not, the chain spells out the blocks after a first-fit allocation, and nothing off the chain changes but the new header |
| BlockAllocator.MallocBackLinks | exercise10/task_2/best_fit_allocator.c:117-125 | the back links agree afterwards if and only if no block with a successor is split |
| BlockAllocator.GrantedIsLargeEnough | exercise10/task_2/best_fit_allocator.c:84-128 | if a free block holds the sum of size and header, it is granted without overlapping headers and with room for the bytes asked for if and only if the sum does not wrap |
| BlockAllocator.GrantedTooSmall | exercise10/task_2/best_fit_allocator.c:84-128 | in a pool of 40 bytes a request of 2^64 - 1 bytes gets a block of 40 |
| BlockAllocator.HeadersOverlap | exercise10/task_2/best_fit_allocator.c:117-124 | in a pool of 300 bytes the same request writes one header over another |
| BlockAllocator.RelinkedMallocRefines | exercise10/task_2/best_fit_allocator.c:115-128 | with the assignment added all links agree after every allocation |
| BlockAllocator.PayloadIsPrivate | exercise10/task_2/best_fit_allocator.c:132 | the payload of a block in use is memory that the allocator has given away |
| BlockAllocator.WriteKeepsLinked | exercise10/task_2/best_fit_allocator.c:132 | whatever clients write to memory that is not a header of the chain leaves the chain as it is |
| BlockAllocator.FreeRefines | exercise10/task_2/best_fit_allocator.c:148-176 | from any correct forward chain a safe release merges the block with the free runs on both sides; the block behind then points back to it, every other keeps the link it had, right or wrong, and nothing off the chain changes |
| BlockAllocator.FreeSafeIff | exercise10/task_2/best_fit_allocator.c:148-176 | from any correct forward chain, `my_free` leaves the chain of the released block and changes no memory given away, whatever is held off the chain, if and only if the links of the free run agree, its first points to nothing or to a block in use before it, and the merged size is an `int` |
| BlockAllocator.MergeSizeLimit | exercise10/task_2/best_fit_allocator.c:155-176 | where the links can be relied on, the size written is right if and only if it is at most 2^31 - 1 |
| BlockAllocator.MergeSizeOverflows | exercise10/task_2/best_fit_allocator.c:155-176 | a request for all of a pool of 2^31 bytes and its release store the size 2^64 - 2^31 |
| BlockRuns.RelinkedCall | exercise10/task_2/best_fit_allocator.c:83-179 | with the assignment added, a call from a pool whose links agree can be made, does what the block lists say, and changes nothing off the chain but the new header |
| BlockRuns.RelinkedRuns | exercise10/task_2/best_fit_allocator.c:83-179 | with the assignment added, every sequence of calls is right whatever clients write in between, leaves their memory alone, keeps tiling, agreeing links and coalescing, and ends in the initial header when nothing is in use |
| BlockRuns.FreeEverythingInPool | exercise10/task_2/best_fit_allocator.c:83-179 | with the assignment added, after any calls and client writes, freeing all blocks in use once each in any order can be done and restores the initial header |
| BlockRuns.WrittenCall | exercise10/task_2/best_fit_allocator.c:83-179 | as written, from any correct chain a safe call can be made, does what the block lists say, leaves the back links that BackLinks says, and changes nothing off the chain but the new header |
| BlockRuns.WrittenRunsIff | exercise10/task_2/best_fit_allocator.c:83-179 | as written, for every sequence of calls: whatever clients write in between, all calls can be made, do what the block lists say and leave the memory of clients alone, if and only if every release is safe, which is decided by the calls alone |
| BlockRuns.WrittenRunsAgreeIff | exercise10/task_2/best_fit_allocator.c:83-179 | as written, all links agree after every call of a run with client writes if and only if no call splits a block with a successor |
| BlockRuns.NoneSplittingAlwaysRight | exercise10/task_2/best_fit_allocator.c:83-179 | as written, calls without such a split are always right |
| BlockRuns.LostBlock | exercise10/task_2/best_fit_allocator.c:115-176 | as written, a run of nine allowed calls that are not all safe ends in the headers of an empty pool while a block is in use |
| BlockRuns.StrayWrite | exercise10/task_2/best_fit_allocator.c:115-176 | as written, a run of ten allowed calls that are not all safe keeps the chain right and changes memory inside a block in use |
| BubbleSort.SwapInversions | exercise11/task_1/my_program.c:22-26 | swapping neighbours in the wrong order removes exactly one inversion |
| BubbleSort.SortedIffNoInversion | exercise11/task_1/my_program.c:17-34 | a sequence is sorted exactly if it has no inversion |
| BubbleSort.Pass | exercise11/task_1/my_program.c:19-32 | one pass settles one more element; without a swap the array is sorted |
| BubbleSort.Sort | exercise11/task_1/my_program.c:17-34 | the array ends sorted with the same elements after as many swaps as it had inversions |
| AppendNumber.Append | exercise11/task_3/malloc_spy.c:6-32 | writes only within the given length, exactly the leading digits that fit and a NUL if there is room, and returns where it ended |
| AppendNumber.StoredDigit | exercise11/task_3/malloc_spy.c:22-25 | byte i of those that fit is 48 plus the digit number / 10^j % 10, with j the number of digits behind it |
| AppendNumber.StoredElsewhere | exercise11/task_3/malloc_spy.c:22-29 | behind the last digit stands a NUL if there is room, and nothing else changes, least of all outside the room |
| AppendNumber.DigitsAre | exercise11/task_3/malloc_spy.c:11-24 | the digits that the recursion peels off are those of division by powers of ten |
| AppendNumber.DigitCount | exercise11/task_3/malloc_spy.c:11-24 | there are as many digits as the number needs and no leading 0 |
| AppendNumber.ReadBack | exercise11/task_3/malloc_spy.c:6-32 | what is stored reads back as the number without the digits that did not fit |
| AppendNumber.TerminatedIffShorter | exercise11/task_3/malloc_spy.c:27-29 | the room contains a NUL exactly if there are fewer digits than bytes |
| AppendNumber.BitLengthIsBits | exercise11/task_3/malloc_spy.c:38-40 | the loop counts the bits: 2^(b-1) <= n < 2^b |
| AppendNumber.DigitsFitBits | exercise11/task_3/malloc_spy.c:38-40 | a number has at least as many bits as digits |
| AppendNumber.BuildMessage | exercise11/task_3/malloc_spy.c:34-44 | the buffer holds the message, all writes being inside it |
| AppendNumber.MessageShowsSize | exercise11/task_3/malloc_spy.c:36-43 | for every size but 0 no digit is lost |
| AppendNumber.MessageDigit | exercise11/task_3/malloc_spy.c:36-44 | for every size but 0, byte 10 + i of the message is the character of the i-th digit of the size, as given by division |
| AppendNumber.MessageText | exercise11/task_3/malloc_spy.c:36-44 | for every size the words stand around the number and everything else is NUL; for 0 no number stands between them |
| GameOfLife.IndexInjective | exercise01/task1/template/game.c:68 | different cells of the field have different indices |
| GameOfLife.Field.GetValue | exercise01/task1/template/game.c:59-69 | cells outside the field are dead |
| GameOfLife.Field.SetValue | exercise01/task1/template/game.c:72-82 | changes exactly that cell, and nothing outside the field |
| GameOfLife.Field.AliveNeighbours | exercise01/task1/template/game.c:86-100 | the loop over directions counts the living among the eight cells around |
| GameOfLife.StepField | exercise01/task1/template/game.c:104-125 | the destination becomes the next generation by Conway's rule in every cell, the source is untouched |
| GameOfLife.RuleOfLife | exercise01/task1/template/game.c:104-125 | in the next generation a living cell lives on exactly with two or three living neighbours, a dead one comes to life exactly with three, the neighbours counted as the set of living cells at most one away |
| GameOfLife.FollowsUnique | exercise01/task1/template/game.c:104-125 | a generation has exactly one successor |
| GameOfLife.Simulate | exercise01/task1/template/game.c:182-192 | frame k is the k-th generation after the populated field, on two buffers |
| GameOfLife.FilmUnique | exercise01/task1/template/game.c:182-192 | the frames are determined by the first one |

## Left out

- Mutexes, condition variables and the barriers of pthreads: taken as primitives with spurious wake-ups; sys/queue.h is not part of this model, so queues are sequences with push at the tail and pop at the head.
- `mmap`, `munmap`, `malloc` and thread creation: results are parameters or always succeed; a mapping of no bytes fails. The unaligned header addresses that arbitrary sizes give are plain addresses here.
- Thread creation order: all threads exist from the start, which adds no behaviour since none passes its first barrier, and none pops, before all that matter exist. `myqueue_init` after the consumers have started sets the tail pointer of the zeroed queue, which is harmless: an empty test reads only the head, and no push comes before it.
- Printing, sleeping, files, argument parsing, signal handling and random number generation: random numbers are free choices.
- DiceGame.GameTheorem: an elimination is one step, which NoOverlap justifies; after the first read of a freed record nothing is modelled of the scan; the game need not end, so its end is conditional. The step system counts generations without bound, which Barrier.RunWraps justifies for the `int`.
- Consumers.FinalSum: n is below INT_MAX, since at INT_MAX the producer's `int` loop counter overflows and data equals the sentinel; signed overflow of the sums is taken as wrap-around.
- AllocatorClients.ThreadFn: the random draws are a finite sequence, and the method returns false when they are used up before the allocation loop ends; which draws suffice is said by running `Visits` on them, and for two families in closed form (FirstPass, FreeingSuffices).
- FreeList.Allocator.Init: the `int` block count is unbounded, so pools of 2^31 blocks and more are not covered.
- BlockAllocator.Allocator.Free: nothing is claimed where the links lead out of the headers or in a circle, which in C are undefined accesses or an endless loop; FreeSafeIff counts both as going wrong.
- BlockAllocator.FreeSafeIff: all memory that is not a header of the chain may hold anything, freed memory included, so a release that would only go wrong through what the allocator did not itself leave in a free block counts as one that can.
- BlockAllocator.Allocator.Malloc: after a call that writes one header over another (`corrupt`) nothing is modelled; addresses behind the pool are not wrapped, since blocks lie in the lower half of the address range.
- GameOfLife.Simulate: fields with width or height below 1, for which the program works on NULL.
- The scenario tests of the allocators beyond the binary search, the socket, pipe and message-queue programs, the spin lock, the string rotation, the signal flags and the fork programs: they would only add easy members.
