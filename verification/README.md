# Goethe, verified

Goethe is a Go library of threading utilities: threads with ids, recursive
reader/writer locks, thread pools, timers, and caches and stashes built on them.
This project models its stateful data structures and its lock-based protocols in
Dafny and proves what they keep. `dafny verify dfyconfig.toml` checks everything.

| file | models |
|---|---|
| `Heap.dfy` | the binary heap under every timer (`queues/heap.go`) |
| `Basics.dfy`, `Sequences.dfy` | options; sequences, sweeps over them and maps that index them, shared by the linked structures |
| `LruKeyMap.dfy`, `CarClock.dfy` | the linked key history and the linked clock (`cache/lru_map.go`, `cache/car_clock.go`) |
| `Car.dfy`, `CarPolicy.dfy`, `CarRuns.dfy` | the CAR policy while its clocks are whole, and so no more than sequences: `replace`, the rest of a miss, and whole runs of the cache (`cache/car.go`) |
| `CarFull.dfy` | the same cache on clocks that may be damaged: it agrees with the two above up to the first damage, and goes on |
| `CarCache.dfy` | the CAR cache itself over the linked structures, refining `CarFull.dfy` |
| `ComputeCache.dfy` | the recursive computable cache with cycle detection (`cache/cache.go`) |
| `GoetheLock.dfy` | the recursive reader/writer lock (`goethe_lock_impl.go`) |
| `StashList.dfy`, `Stash.dfy` | the stash's list and its refill protocol (`cache/fixed_size_stash.go`) |
| `TimerHeap.dfy` | the timer heap (`timers/timers.go`) |
| `Scheduler.dfy` | the periodic scheduler (`timer_impl.go`) |
| `ThreadId.dfy` | the thread id kept on the call stack (`goethe_factory.go`) |
| `Pool.dfy` | thread accounting of pools (`pool_impl.go`) |

## How the source is modelled

- Objects that the source updates in place are classes with the same fields: the
  heap, the two linked lists of the CAR cache, the CAR cache, the computable cache
  and the stash's list. Their methods are proved against functions on sequences,
  multisets and maps, or on the value of a whole or damaged clock, which `Valid()` ties to the fields.
- The lock, the refill protocol, the two timers and the pool are concurrent. Each is
  a step system: a step is what one thread does while it holds the mutex, and
  `cond.Wait`, a started goroutine or an unlocked call splits steps. A run is a
  sequence of events, so a lemma about every event sequence is a lemma about every
  interleaving. Events that are not enabled leave the state as it is.
- A panic is a value (`Panic`, `Panicked`, `Stuck`, an answer of `false` or `None`),
  so that its absence is proved and not assumed.
- A call on the CAR cache is a tree: a miss carries the calls its calculator makes
  before it answers and the calls its destructor makes in the middle of `replace`. Both may
  do anything, so the lemmas hold for every tree, or for every tree whose destructors call nothing where they say so.
- The calculator of the computable cache gives its next move, a question or its answer, from the values of
  its questions so far, so that a question may depend on earlier answers.
- Clocks, timers that ring, the size of a pool's queue and what a calculator or a
  removal function answers are parameters of events, calls and methods.

## Where the code falls short of its obvious property

Each of these is proved, with a run or an input that shows it and a condition under which the property holds,
which is exact where it says "if and only if".

- `carClockData.RemoveAll` leaves `prior` on a node it has just unlinked. The list becomes the walk of
  `Sequences.Walk`, and the tail may come off it. List and map stay in agreement if and only if no two neighbours
  are selected (`CarFull.WholeSweptIff`). It also hands the removal function the clock's own node,
  not the user's value; the model's removal function takes that node's contents, or nothing for a key the map has lost.
- So a CAR cache never panics if and only if its capacity is one and its destructors do not call back
  (`CarFull.NeverPanicsIff`). Below one its first miss panics. Above one, Remove two neighbours of which the second is
  referenced and fill the cache again: what is added hangs from a tail that the head does not lead to, and `replace`
  reads the head of an empty clock (`CarFull.DamagePanics`). At one, a destructor that computes a key leaves the two
  entries this takes (`CarFull.DestructorPanics`). For every positive capacity no run panics whose Removes select no
  neighbours, whatever its destructors call (`CarFull.NewCacheBehaves`).
- The destructor is called in the middle of `replace`, and the capacity is not looked at again before the value is
  inserted. So the cache holds more than its capacity, by exactly as much at worst as the calls of destructors are
  nested in each other: `CarRuns.RunSound` is the bound, and `CarRuns.NewCacheOverfills` meets it for every capacity and
  every depth. The four lists stay disjoint.
- Remove keeps the shape of the directory if and only if the cache was not full, nothing resident is selected, or
  everything remembered is (`CarRuns.RemoveDirectoryIff`, with a run in `CarRuns.RemoveBreaksDirectory`).
- A writer that times out lowers `writersWaiting` without a broadcast, so a reader can sleep
  on for nothing; no run loses a wake-up if and only if no writer may ask for a positive
  duration (`GoetheLock.NoLostWakeupIff`).
- A thread that holds a read lock and reads again while a writer waits blocks itself and that writer for ever. In
  runs without durations some pair is so entangled if and only if some read was of that kind
  (`GoetheLock.EntangledIff`); without such reads and without timed writes nothing deadlocks, however often threads
  read again (`GoetheLock.NewLockNeverDeadlocks`).
- A creator that gives neither an element nor an error blocks its worker for ever when nobody receives the error
  reported for it. The stash always keeps a worker or builder that can move if and only if no creation may block
  (`Stash.RefillMovesIff`).
- The documentation of `SetMaximumConcurrency` says that zero stops the creation of elements. Workers
  that are already there go on; creation stops if and only if none is left that can move, or every element is waiting for
  one that cannot (`Stash.ZeroStopsIff`).
- `AddJobByTime` adds without the timer heap's lock. An earlier job that lands between Peek and
  Get is removed in place of the one that was peeked and never runs
  (`TimerHeap.RaceLosesEarlierJob`). A run loses no job if and only if no Get comes after an addition, since the Peek of
  its pass, of a job earlier than the head (`TimerHeap.NoneLostIff`).
- A pool thread that leaves over bad arguments stays counted. A started pool can have a thread again if and only if
  fewer than `maxThreads` have left that way (`Pool.CanRunIff`), and every pool has a run that wears it out
  (`Pool.EveryPoolCanWearOut`). A pool stays at or above its minimum if and only if no thread leaves over a queue that
  fails other than by being empty while the pool is at the minimum (`Pool.NewPoolAccounts`).

## Model

| member | source | states |
|---|---|---|
| Heap.HeapData.Add | queues/heap.go:129-153 | under any comparator the queue gains exactly the payload; under a total preorder heap order is kept and the payload becomes the root exactly when it precedes the old one; at most floor(log2(n+1)) swaps on n items |
| Heap.HeapData.Get | queues/heap.go:155-218 | hands out what Peek shows, loses exactly that, keeps heap order, and nothing left precedes it; at most floor(log2 n) swaps; nothing from an empty heap |
| Heap.HeapData.ChooseChild | queues/heap.go:183-211 | the child chosen for the swap moves the disorder one level down, and stopping leaves the whole queue in order |
| Heap.HeapData.SiftDown | queues/heap.go:182-217 | the open-ended loop ends, permutes the queue and restores order from disorder at the root only |
| Heap.HeapData.Peek | queues/heap.go:220-231 | shows the root, which precedes everything held, or nothing when the heap is empty |
| Heap.HeapData.Drain | queues/heap.go:129-218 | emptying a heap with Get yields a sorted permutation of what it held |
| Heap.RootPrecedes | queues/heap.go:97-123 | in an ordered queue the root may be returned before every other entry |
| Heap.RunConserves | queues/heap.go:129-231 | over every mix of Add and Get, what was added is what was handed out plus what is held |
| Heap.RunStaysOrdered | queues/heap.go:129-218 | over every mix of Add and Get heap order holds |
| Heap.RunHandsOutFirst | queues/heap.go:155-218 | every Get in every run hands out an entry that precedes all that was held then |
| LruKeyMap.LruKeyMapData.AddMRU | cache/lru_map.go:84-107 | the key goes in front of the sequence and is refused exactly when present; chain, back links, ends and map stay in agreement |
| LruKeyMap.LruKeyMapData.RemoveLRU | cache/lru_map.go:109-128 | the last key of the sequence goes, none when it is empty |
| LruKeyMap.LruKeyMapData.Remove | cache/lru_map.go:130-153 | the key goes from wherever it is, and an absent key changes nothing |
| LruKeyMap.LruKeyMapData.GetCurrentSize | cache/lru_map.go:155-160 | the length of the sequence |
| LruKeyMap.LruKeyMapData.Contains | cache/lru_map.go:162-168 | membership in the sequence |
| LruKeyMap.LruKeyMapData.RemoveAll | cache/lru_map.go:170-194 | for any predicate on the key the sequence becomes its exact filter, neighbours included |
| CarClock.CarClockData.AddTail | cache/car_clock.go:76-99 | the key enters the map, and the chain too if the tail is on it; refused exactly when the map has the key; chain, map and tail are those of the new clock |
| CarClock.CarClockData.Get | cache/car_clock.go:101-111 | the value the map holds under the key, if any |
| CarClock.CarClockData.Size | cache/car_clock.go:113-118 | the size of the map, whatever is on the chain |
| CarClock.CarClockData.GetPageReferenceOfHead | cache/car_clock.go:120-129 | the bit of the first node of the chain, and the panic exactly when there is none |
| CarClock.CarClockData.RemoveHead | cache/car_clock.go:131-148 | the first node leaves the chain and its key the map, even if the map led elsewhere; an emptied chain has no tail |
| CarClock.CarClockData.SetPageReference | cache/car_clock.go:150-160 | sets the bit of the node the map leads to and changes nothing else |
| CarClock.CarClockData.RemoveAll | cache/car_clock.go:162-195 | for every clock, whole or damaged, and every removal function: which keys leave the map, which nodes the chain still runs through, and whether the tail is on it |
| CarClock.SweptChain | cache/car_clock.go:172-193 | the links a whole sweep leaves lead exactly along the walk |
| CarClock.SweptTail | cache/car_clock.go:182-188 | a sweep that picks the last node leaves the tail off the chain exactly when the walk ends on that node |
| CarFull.WholeSweptIff | cache/car_clock.go:162-195 | RemoveAll turns a whole clock into its exact filter if and only if no two neighbours are selected, and otherwise into none that is whole |
| Sequences.WalkIsKeepIff | cache/car_clock.go:170-193 | the walk is the filter if and only if no two neighbours are selected |
| Car.TurnOf | cache/car.go:389-427 | one iteration of replace that neither evicts nor panics lowers the number of reference bits set |
| Car.ReplaceConserves | cache/car.go:386-429 | on distinct keys replace reaches no panic, keeps every key with its value but the victim, and takes at most one iteration more than there are bits set |
| Car.ReplaceIsAtOnce | cache/car.go:386-429 | the loop equals its closed form, iterations included |
| Car.ReplaceRespectsTarget | cache/car.go:392-424 | T1 loses its unreferenced head only while it holds at least the target, T2 is turned to only once T1 holds less |
| CarPolicy.Grown | cache/car.go:294-295 | a hit in B1 raises the target by one, or by as often as B2 holds B1, unless that reaches the capacity, with a nonzero divisor |
| CarPolicy.Shrunk | cache/car.go:301-302 | a hit in B2 lowers the target by one, or by as often as B1 holds B2, unless that reaches zero, with a nonzero divisor |
| CarPolicy.EvictSafe | cache/car.go:386-429 | replace on a full or overfull cache panics nowhere and only moves keys between the four lists |
| CarPolicy.EvictIsAtOnce | cache/car.go:386-429 | and it is the closed form with the target of the cache: the victim becomes the most recent key of the history of the clock it left, which is T1 only while T1 holds the target and T2 only once it holds less |
| CarPolicy.TrimSafe | cache/car.go:267-284 | RemoveLRU is only asked of a history that has something to lose, and restores the bound |
| CarPolicy.TrimForgets | cache/car.go:267-284 | for an unknown key the last key of B1 goes exactly when T1 and B1 hold the capacity, else the last of B2 exactly when all four lists hold twice that, else nothing; for a remembered key nothing goes |
| CarPolicy.InstallSafe | cache/car.go:262-310 | the end of a miss whose destructor calls nothing panics nowhere, keeps the four lists disjoint and every bound, and loses no entry but the victim |
| CarPolicy.MissPolicy | cache/car.go:287-308 | an unknown key enters T1 and leaves the target alone; a remembered one enters T2, is forgotten by its history while everything else stays known, and moves the target the way of its history by the ratio of the two after the eviction |
| CarPolicy.MissForgets | cache/car.go:262-289 | a miss of an unknown key forgets nothing while there is room, and on a full cache nothing, or one last key, and that only while the directory is full even without it |
| CarRuns.ComputeWithoutMiss | cache/car.go:234-260 | a hit hands out the value held and sets the reference bit of its key, which is all it changes; a cycle and a failed calculator change nothing |
| CarRuns.RemoveSafe | cache/car.go:372-380 | filtering all four lists keeps them disjoint and bounded |
| CarRuns.RunSafe | cache/car.go:230-311 | no call whose destructors call nothing, however deeply its calculators call back, panics or breaks disjointness or a bound before a Remove selects two neighbours of a clock; at capacity one none can |
| CarRuns.RunAllSafe | cache/car.go:230-380 | nor does any sequence of such calls |
| CarRuns.RunSound | cache/car.go:230-429 | whatever calculators and destructors call, and however deeply: before a Remove selects two neighbours no call panics, the four lists stay disjoint, the target stays within the capacity, and the cache is overfull by no more than the depth to which calls of destructors are nested |
| CarRuns.Overfills | cache/car.go:262-288 | on every full cache there is a call, for every depth, that leaves it overfull by exactly that |
| CarRuns.NewCacheOverfills | cache/car.go:262-288 | so for every capacity and every depth a run of a new cache meets the bound |
| CarRuns.RunDirectory | cache/car.go:262-308 | without Remove, T1 and B1 stay within the capacity and the histories stay empty until the cache is full; without Clear a full cache stays full |
| CarRuns.RemoveDirectoryIff | cache/car.go:372-380 | Remove keeps that shape if and only if the cache was not full, nothing resident is selected, or all that the histories remember is |
| CarRuns.RemoveBreaksDirectory | cache/car.go:372-380 | a run of four calls after which a cache that is not full remembers a key |
| CarFull.TurnOn | cache/car.go:389-427 | an iteration of replace on any two clocks, damaged or not, lowers the number of bits set on the chains unless it evicts or panics, so the loop always ends |
| CarFull.ReplaceAgrees | cache/car.go:386-429 | on whole clocks replace does what it does on sequences, iterations and panics included |
| CarFull.InstallAgrees | cache/car.go:262-310 | and so does the end of a miss, the calls of its destructor included |
| CarFull.RunAgrees | cache/car.go:230-380 | and so does every call until a Remove selects two neighbours of a clock |
| CarFull.NewCacheBehaves | cache/car.go:71-84 | for every sequence of calls on a new cache whose Removes select no neighbours: no panic, whole clocks, four disjoint lists, and no more entries than the capacity plus the depth of the calls of destructors; if those call nothing every bound, and without Remove too the directory shape |
| CarFull.RunTransparent | cache/car.go:234-310 | with calculators that answer f, every Compute that returns a value returns f of its key, whatever is evicted, recalled, damaged or reported by the destructor |
| CarFull.ClearIsNew | cache/car.go:332-341 | whatever happened before, damage included, after Clear the cache is a new one |
| CarFull.DamagePanics | cache/car.go:389-405 | for every capacity above one, a run with one Remove of two neighbours that ends in a read of the head of an empty clock |
| CarFull.DestructorPanics | cache/car.go:398-416 | at capacity one, such a run whose destructor has computed a key |
| CarFull.NeverPanicsIff | cache/car.go:230-429 | over every sequence of calls, damaging ones included, a new cache never panics if and only if its capacity is one and its destructors call nothing |
| CarCache.CarCacheData.Choose | cache/car.go:386-427 | the loop over the linked clocks ends and does what the model's loop does, on damaged clocks too, panics included |
| CarCache.CarCacheData.Replace | cache/car.go:386-429 | replace over the linked structures is eviction in the model |
| CarCache.CarCacheData.TrimHistories | cache/car.go:267-284 | the histories are trimmed as in the model |
| CarCache.CarCacheData.InsertValue | cache/car.go:287-308 | the value is inserted as in the model |
| CarCache.CarCacheData.SettleValue | cache/car.go:267-308 | what follows the destructor is as in the model, the panics included |
| CarCache.CarCacheData.InstallValue | cache/car.go:262-310 | the end of a miss is installation in the model, the calls of the destructor and the panics included |
| CarCache.CarCacheData.LookUp | cache/car.go:234-246 | T1 is asked before T2 and a hit sets its reference bit |
| CarCache.CarCacheData.HasKey | cache/car.go:349-364 | true exactly for the keys in the maps, which on whole clocks are the resident ones |
| CarCache.CarCacheData.Size | cache/car.go:319-324 | the sizes of the maps, on whole clocks the number of resident keys |
| CarCache.CarCacheData.ClearAllValues | cache/car.go:332-341 | an empty cache with target zero, whatever it held |
| CarCache.CarCacheData.RemoveSelected | cache/car.go:372-380 | both clocks are swept and both histories filtered, whatever is selected |
| CarCache.CarCacheData.Execute | cache/car.go:230-380 | Compute with a calculator and a destructor that call back, Clear and Remove carry out every run of the model, on damaged clocks too and panics included, and restore the in-progress set |
| ComputeCache.CacheData.Compute | cache/cache.go:242-269 | on finitely many keys, with a calculator that stops on each and may let its questions depend on earlier answers, it terminates with the value or the first error of plain recursion, reports a cycle if and only if the calculator asks in circles, and leaves nothing in progress; without errors of its own the calculator succeeds if and only if it does not ask in circles, and with questions that depend on the key alone if and only if no cycle of dependencies can be reached |
| ComputeCache.CacheData.InternalCompute | cache/cache.go:242-269 | the same promise for a call in the middle of others, over the keys in progress |
| ComputeCache.CacheData.RunCalculator | cache/cache.go:259-263 | a calculator that passes on nested errors gives the answer of plain recursion or a cycle its key reaches |
| ComputeCache.StackCycle | cache/cache.go:316-327 | asking for a key in progress closes a cycle of questions |
| ComputeCache.AnswerOrCycle | cache/cache.go:242-269 | where the calculator gets to ask in circles plain recursion gives neither value nor error |
| ComputeCache.ValueOrCycle | cache/cache.go:242-269 | with questions that depend on the key alone, a key from which a cycle of dependencies can be reached has no value |
| ComputeCache.AnswerUnique | cache/cache.go:242-269 | plain recursion gives one answer |
| ComputeCache.FirstError | cache/cache.go:259-263 | the first error among the answers to its questions is the answer of a key |
| ComputeCache.LastMove | cache/cache.go:259-266 | without one the answer is what the calculator ends with |
| ComputeCache.CacheData.Clear | cache/cache.go:193-199 | the cache is empty |
| ComputeCache.CacheData.Remove | cache/cache.go:222-231 | the deleting loop leaves exactly what the removal function spares |
| GoetheLock.GetAllOtherReadCount | goethe_lock_impl.go:206-216 | the sum is positive exactly when some other thread, or for -1 any thread, holds a read lock |
| GoetheLock.NextInv | goethe_lock_impl.go:100-329 | every step, timeouts included, keeps the lock's invariant |
| GoetheLock.MutualExclusion | goethe_lock_impl.go:100-329 | in every run no other thread reads while a writer holds the lock, every count is acquires minus releases, and writersWaiting is the number of threads in the write loop |
| GoetheLock.RunAccounts | goethe_lock_impl.go:164-203 | from any reachable state a thread's read and write counts change by acquires minus releases |
| GoetheLock.GrantedIff | goethe_lock_impl.go:100-302 | in every run of a new lock a read is granted exactly when the thread holds the write lock, or nobody does and no writer waits; a write of a thread that does not read exactly when it holds the lock, or nobody holds it and nobody else reads; otherwise it is refused at once without a duration and sleeps with one; a waiter that looks again gets a free lock however late, and is refused only if it is not free and its time is up |
| GoetheLock.IllegalCallsChangeNothing | goethe_lock_impl.go:100-329 | illegal durations and threads get their error and change nothing; only its holder gives the write lock back |
| GoetheLock.TimedSleepersWake | goethe_lock_impl.go:137-152 | a thread that sleeps with the fudge factor or more left has a timer, and when that rings nobody sleeps on |
| GoetheLock.WaitingWriterBarsReaders | goethe_lock_impl.go:119-162 | while a writer waits nobody gets a read lock but the holder of the write lock |
| GoetheLock.HolderReenters | goethe_lock_impl.go:119-123 | in every run the holder of the write lock never waits: it may read, and write again unless it reads |
| GoetheLock.RunNoLost | goethe_lock_impl.go:132-152 | with no timed write, every thread asleep has a guard that blocks it, in every run |
| GoetheLock.TimedOutWriterLoses | goethe_lock_impl.go:275-278 | for every positive duration, however short, a run in which the writer times out leaves a reader asleep for nothing |
| GoetheLock.NoLostWakeupIff | goethe_lock_impl.go:273-302 | no run loses a wake-up if and only if no writer may ask for a positive duration |
| GoetheLock.SleepersAreWaitedFor | goethe_lock_impl.go:132-152 | a sleeper implies an awake thread that holds the lock or is re-checking, unless a sleeper holds a read lock |
| GoetheLock.NewLockNeverDeadlocks | goethe_lock_impl.go:100-329 | no run of a new lock without timed writes, and without a reader that reads again while a writer waits, reaches a deadlock |
| GoetheLock.EntangledForever | goethe_lock_impl.go:132-152 | nothing anyone does frees a re-reading reader and the writer that waits for it |
| GoetheLock.CarelessReadEntangles | goethe_lock_impl.go:119-152 | reading again under a read lock while a writer waits entangles the thread with that writer |
| GoetheLock.EntangledIff | goethe_lock_impl.go:100-329 | over runs of a new lock without durations, some pair is blocked for ever if and only if some step was such a read |
| StashList.Dll.Add | cache/fixed_size_stash.go:486-504 | the element joins the end of the queue, and size is its length |
| StashList.Dll.Remove | cache/fixed_size_stash.go:506-532 | the oldest element is handed out and leaves, once |
| StashList.Dll.DestroyElement | cache/fixed_size_stash.go:566-597 | true if and only if the element was still present, and exactly that one leaves |
| Stash.Builder | cache/fixed_size_stash.go:348-362 | the loop starts no worker beyond the concurrency or the elements missing, and stops short of neither |
| Stash.NextAlive | cache/fixed_size_stash.go:344-424 | every step keeps the bounds and the refill |
| Stash.NewIsAlive | cache/fixed_size_stash.go:134-162 | in every run of a new stash size plus outstanding creations stays within the desired size, outstanding creations are the workers inside createOne, workers stay within the largest concurrency set, no clamp fires, and a builder is on its way or there are workers enough for what is missing and allowed |
| Stash.RefillMovesIff | cache/fixed_size_stash.go:426-452 | in every run that worker or builder can move if and only if no creation may block for ever |
| Stash.RefillCompletes | cache/fixed_size_stash.go:344-424 | left alone, builders and workers stop after a bounded number of steps; then everything missing waits for a blocked worker or as many are blocked as may work, so the stash is exactly full if none is |
| Stash.ZeroStopsIff | cache/fixed_size_stash.go:230-240 | after setting the concurrency to zero no creation begins if and only if no worker was left that can move, or every element waits for one that cannot |
| Stash.RaisingStartsBuilder | cache/fixed_size_stash.go:230-240 | setting the concurrency starts a builder exactly when it raises it |
| Stash.SizeCounts | cache/fixed_size_stash.go:295-424 | in every run the stash holds what was created less what was taken and destroyed |
| Stash.DestroyOnlyPresent | cache/fixed_size_stash.go:566-597 | destroying an element that has left changes nothing; one that is there leaves and a builder is started |
| TimerHeap.OrderedQueueShows | timers/timers.go:406-418 | an ordered queue under the job comparator shows a job that none precedes |
| TimerHeap.AddedQueueShows | timers/timers.go:221-221 | Add on that queue shows the new job exactly when it is earlier than the head |
| TimerHeap.NextAlarmed | timers/timers.go:203-284 | every step keeps the alarm |
| TimerHeap.RunAlarmed | timers/timers.go:203-284 | while open and nonempty, in every run an arm step or a pass is pending or under way, or a live timer is set for the head |
| TimerHeap.RunRunsProperly | timers/timers.go:365-404 | in every run no job runs twice or before its time, and none runs after a pass has found it cancelled |
| TimerHeap.CancelledNeverRuns | timers/timers.go:306-387 | a job on which Cancel is called, with no pass past its decision to run it, never runs again in any run |
| TimerHeap.ClosedNeverRuns | timers/timers.go:365-371 | once the heap is closed with no pass under way no job ever runs |
| TimerHeap.OnlyCancelledByRequest | timers/timers.go:306-402 | what counts as cancelled was cancelled in the run or has run |
| TimerHeap.CancelledHeadIsDropped | timers/timers.go:381-387 | a cancelled job that a pass peeks leaves the heap without running, due or not |
| TimerHeap.HeadIsArmedOnce | timers/timers.go:267-270 | setting the timer again for the same head changes nothing |
| TimerHeap.NoneLostIff | timers/timers.go:375-397 | in a run of a new heap every job that left ran, is about to, or was found cancelled, if and only if every Get removed what its Peek showed, and if and only if no Get came after an addition, since the Peek of its pass, of a job earlier than the head; and what was found cancelled was cancelled or had run |
| TimerHeap.RaceLosesEarlierJob | timers/timers.go:221-221 | an earlier job that lands between Peek and Get is removed uncancelled and never runs |
| TimerHeap.NewHeapBehaves | timers/timers.go:121-129 | for every run of a new heap: the alarm, no job twice or early, and from any point of the run on none that was cancelled there before a pass decided to run it, and none at all if the heap was closed there with no pass under way |
| TimerHeap.CatchesUp | timers/timers.go:203-404 | while the clock stands still and nothing is added the heap comes to rest after a bounded number of steps, and then, while open, every job it holds lies in the future |
| TimerHeap.NewHeapCatchesUp | timers/timers.go:121-129 | that after every run of a new heap, races included |
| TimerHeap.AddedJobIsServed | timers/timers.go:203-226 | a job added for some time, whatever is called afterwards, is no longer held once that time has come and the heap, still open, rests |
| Scheduler.NextRingOnGrid | timer_impl.go:165-178 | the next ring of a fixed-rate job is the point of its grid in (now, now + period], now including the fudge factor |
| Scheduler.RunJobOk | timer_impl.go:148-186 | one turn of the scheduler keeps the job's tokens, grid, order and spacing; a cancelled job only loses its node, another starts a run, and a fixed-rate one is left with one node in (now, now + period] |
| Scheduler.EndRunOk | timer_impl.go:211-234 | the end of a run keeps them too |
| Scheduler.RunOk | timer_impl.go:118-291 | in every run each job has at most one token, fixed-rate rings strictly increase along the grid, and fixed-delay runs never overlap and are their delay apart, less the fudge factor |
| Scheduler.NewSchedulerBehaves | timer_impl.go:99-116 | all of that for a scheduler from its start: tokens, grid, order, no overlap, and spacing; and a job cancelled at any point of the run has not started since |
| Scheduler.CancelledStops | timer_impl.go:158-163 | once a job is cancelled it never starts again in any run |
| Scheduler.AbandonedStops | timer_impl.go:211-220 | nor does a fixed-delay job whose run is abandoned |
| Scheduler.AlwaysComesBack | timer_impl.go:118-291 | a job that nobody cancels and whose runs are not abandoned has exactly one token in every state of every run, and every start has ended or is in flight |
| Scheduler.AddedComesBack | timer_impl.go:236-263 | so from its addition on, with its first ring the initial delay later |
| Scheduler.AddedJobRuns | timer_impl.go:118-186 | once that has passed and no node is earlier, its first run starts two steps later |
| Scheduler.TurnStartsRun | timer_impl.go:148-186 | a turn on a due job that is not cancelled starts a run for that ring and leaves a fixed-rate job with the grid point in (now, now + period] |
| Scheduler.TurnsTakeEarliest | timer_impl.go:118-160 | a turn takes a due node that none held precedes, and while any node is due some job has a turn |
| Scheduler.EndedRunRunsAgain | timer_impl.go:211-234 | the end of a fixed-delay run starts the next one once its delay has passed and no node is earlier |
| ThreadId.GetThreadID | goethe_factory.go:163-190 | the loop over the stack trace reads the digits outermost first, and -1 exactly when there are none |
| ThreadId.InvokePushes | goethe_factory.go:452-496 | invoking pushes exactly the digits, most significant first, and never panics on them |
| ThreadId.RoundTrip | goethe_factory.go:429-496 | every id survives the trip through the stack, whatever frames lie above and below |
| Pool.Growth | pool_impl.go:257-300 | monitorOnce starts no more threads than the maximum and the queue allow, and stops short of neither limit |
| Pool.StartThreads | pool_impl.go:150-154 | the loop starts exactly that many threads |
| Pool.RunAccounts | pool_impl.go:136-351 | from any accounted state currentThreads stays live threads plus bad-argument exits, within the maximum |
| Pool.NewPoolAccounts | pool_impl.go:82-351 | that for every run of every pool newThreadPool makes, which starts with its minimum; an open pool stays at or above its minimum at every step if and only if no thread leaves over a broken queue while it is at the minimum, and so with a queue that fails only by being empty |
| Pool.AlwaysAboveIff | pool_impl.go:331-338 | the same from any accounted state |
| Pool.IdlePoolShrinks | pool_impl.go:320-329 | threads that find nothing to do leave until the minimum is reached, or what bad arguments have left of the pool |
| Pool.ClosedPoolDrains | pool_impl.go:308-315 | a closed pool lets all its threads go |
| Pool.ClosedNeverStarts | pool_impl.go:136-146 | a pool closed before it is started never has a thread |
| Pool.WornOut | pool_impl.go:342-346 | after as many bad-argument exits as the maximum the pool never has a thread again |
| Pool.CanRunIff | pool_impl.go:257-351 | a started, open pool can have a thread again if and only if there were fewer |
| Pool.EveryPoolCanWearOut | pool_impl.go:136-351 | every pool has a run that gets there |

## Left out

- CarCache.CarCacheData.Execute: where the source panics, nothing is said of the clocks and histories it leaves behind.
- CarRuns.RunSafe: follows a run up to the first Remove that selects two neighbours of a clock; what comes after is in CarFull.
- CarRuns.RunSound: does not bound the histories once destructors call back; their bound and the directory shape are proved for destructors that call nothing.
- CarFull.RunAgrees: a second cache that shares the thread's in-progress set is not modelled.
- ComputeCache.CacheData.Compute: the calculator passes on the first error it gets; the cycle handler, which only chooses the text of the error, is not modelled.
- Scheduler.RunOk: the wake-up of the scheduler thread is not modelled; a turn takes place whenever its guard holds.
- TimerHeap.NextAlarmed: the errors of jobs and the closing of the error channel are not modelled.
- ThreadId.RoundTrip: a negative id, on which the source panics, cannot occur since ids count up from ten.
- `sleeper.go`: the timer of a timed wait rings once or never, at any time; for less than the fudge factor none is set, as in the source.
- The timed waiting path of the stash's `WaitForElement`, which rests on which sleeper a Signal wakes.
- Real clocks, channels, goroutine start-up and the text of stack traces: integers, counters and sequences of frames stand for them.
- Overflow of lock counts, job numbers and durations: all integers are unbounded.
- Reflection, thread-local storage, and the function and error queues: simple maps and slices that would only add easy members.
- The trampolines that re-dispatch a call from a thread without an id.
