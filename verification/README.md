# RT-Thread kernel and Kconfig core: a verified model

This project models the single-core build of the RT-Thread 4.0.1 kernel (`RT_USING_SMP` undefined, 32-bit words) and the
value core of its bundled Kconfig library, and proves what they promise. `dafny verify dfyconfig.toml` checks everything.

**Intrusive lists** (`RtList`). Circular doubly linked lists as pairs of `next` and `prev` maps.

**Timers** (`TimerOrder`, `TimerRows`, `TimerViews`, `TimerPlans`, `TimerWheel`). The skip list of `timer.c` is kept in
place, row by row. Each timer has an unbounded deadline and a start stamp as ghosts; `timeout_tick` is the deadline's
residue modulo 2^32. The invariant says that the bottom row is the stable sort of the listed timers, that every upper
row is a sorted part of the row below, and that all listed deadlines lie in the window in which the wrapped comparisons
agree with the real order. It does not say that the listed timers are the ones marked active: that is a property of its
own, and `TimerPlans` says exactly when it is lost. The two locked regions of `rt_timer_start`, and the region of
`rt_timer_stop` and the clearing of the mark behind it, are separate operations, and ticks may come between them. The
number of ticks between the regions of a start, `late`, is bounded, and delays keep that far below `RT_TICK_MAX / 2`;
with `late = 0` all delays the source admits are covered. Timeout functions are scripts of start and stop commands.

**Heaps.** `MemHeapBlocks`, `MemHeapFree`, `MemHeapWrap`, `MemHeap`: the block ring of `memheap.c` with its free list
and size accounting; building a header wipes what the memory below it held, and payload bytes are tracked.
`SmallHeapBlocks`, `SmallHeapBytes`, `SmallHeap`: the offset-linked heap of `mem.c` with its lowest-free pointer and its
payload bytes. `PageRuns`, `PageAllocator`, `SlabGeometry`, `SlabState`, `SlabSteps`, `SlabCalls`, `SlabAlign`,
`SlabHeaps`: the page allocator of `slab.c` and the slab zones on top of it; free chunks are linked through their own
memory. `FreeBlocks` holds what the first two share. `RT_ALIGN_SIZE` is 4.

**Scheduler and threads** (`MachineWords`, `ReadyBitmap`, `WaitQueue`, `ThreadStates`, `ThreadSteps`, `ThreadRuns`,
`ThreadRegions`, `ThreadGaps`, `ThreadTimers`, `ThreadEffects`, `ThreadRotation`, `ThreadWaits`, `Kernel`). One- and
two-level ready bitmaps over bit vectors, the priority queues, thread states, wait lists and thread timers form one
state. Each interrupt-disabled region is one step, so a thread may run between suspending itself and calling
`rt_schedule`. `rt_thread_resume` tests the state, unlinks the thread in one locked region and inserts it in another;
`ThreadGaps` has a program counter for every such call under way, lets other threads and interrupt handlers act at each
of its points, and proves exactly which runs keep the invariant. `ThreadTimers` proves that the plain list of thread
timers used here is what the skip list holds of them, also when timeout functions of other timers resume threads.
`ThreadEffects` says of every step what it does to the threads, lists and timers, `ThreadRotation` what that makes of
the time slices, and `ThreadWaits` what it makes of bounded waits. The class `Kernel.Kernel` changes the state in place
and is proved against the step functions, region by region and for calls that nothing interrupts.

**IPC objects** (`MailboxSteps`/`Mailbox`, `MutexSteps`/`Mutexes`, `EventSteps`/`Events`,
`MessageQueueSteps`/`MessageQueues`). Each object is a state machine over its interrupt-disabled regions, with a phase
for every thread: outside, blocked, woken but not yet run, or in the middle of a copy. Lemmas whose names end in `Does`
say what every step does, in terms of the state before and of what the caller passed. The classes are proved against it.
A blocking call is two methods, before the suspension and after the wakeup.

**Kconfig** (`KconfigExpr`, `KconfigValues`, `KconfigMeaning`, `KconfigCache`). Expressions, their short-circuiting
evaluation, printer and token-index parser; symbols with lazily cached visibility, tristate and string values, and the
early-stopping recursive invalidation. The dependency order is a numbering of the symbols in which every definition
mentions only lower numbers; that is what an acyclic configuration outside choices allows. Values from scratch are
recursive functions along it, and the proofs track which values an evaluation looked at before it stopped.
`KconfigMeaning` says what these values are.

## Where the code falls short of its promise

* `rt_thread_resume` tests the thread's state before it locks, and unlocks between unlinking the thread and inserting it
  into the ready queue (`thread.c:716-735`). A thread that an interrupt handler resumes inside this gap, and that then goes
  to sleep, is made ready with its timer active, and the assertion at `thread.c:757` fails when the timer fires
  (`ThreadGaps.FailingRun`). `ThreadGaps.RunExact`, `ThreadGaps.SoundExact` and `ThreadGaps.GapExact` say exactly which runs
  are safe.
* `rt_timer_start` unlinks the timer in one locked region and links it in another. If a handler starts the same timer in
  between and leaves it listed, the second region links it twice and the list is broken: `TimerWheel.TimerWheel.StartEnd` and
  `TimerWheel.TimerWheel.StartLate` have the exact condition, `TimerWheel.StartTwice` a run in which the list then ends in
  the timer itself.
* A one-shot timer that its own timeout function leaves started stays listed without its active mark, and `rt_timer_stop`
  refuses it (`TimerWheel.StartItself`); so does one that a handler starts while `rt_timer_stop` is about to clear the mark
  (`TimerWheel.StopOvertaken`). `TimerPlans.StrayExact` and `TimerWheel.TimerWheel.StopLate` have the exact conditions.
* Wrapped sizes: `RT_ALIGN` wraps for requests within three bytes of 2^32 (`MemHeap.WantedEnough`,
  `SmallHeap.WantedEnough`). So does the sum in the growing `rt_memheap_realloc`, for requests within 12 bytes of 2^32:
  with an unused block behind, the heap is lost (`MemHeap.MemHeap.Realloc`, `MemHeap.LoseHeap`). A slab request within 4095
  bytes of 2^32 rounds to no pages and fails (`SlabCalls.MallocOk`).
* The search of `rt_malloc` in `mem.c` misses a last free block that fits exactly (`SmallHeapBlocks.MissedFit`,
  `SmallHeap.MallocFresh`), and a shrinking `rt_realloc` does not lower the lowest-free pointer
  (`SmallHeapBlocks.ShrinkLowest`, `SmallHeap.LoseLowest`).
* `slab.c` says in its comments (lines 149-152) that all power-of-two allocations are power-of-two aligned, and that
  `malloc(0)` returns a block. Allocations of up to a page are aligned. Larger ones are so exactly if the page they come
  from is (`SlabAlign.MallocAligned`): from the zone limit up, which is 8192 bytes with 32K zones, they are runs of pages,
  aligned to pages only (`SlabHeaps.OddPages`), and below it chunks, aligned as their zone is (`SlabHeaps.OddZone`). A
  request of 0 bytes gets null (`SlabCalls.MallocOk`).
* The 8-bit hold of a mutex wraps at 256 nested takes (`MutexSteps.RunExact`). A hand-over does not boost the new owner; it
  is urgent enough exactly if the first waiter was (`MutexSteps.HandOverExact`), which first-in-first-out waiting does not
  guarantee (`MutexSteps.FifoInversion`).
* More than 32768 nested `rt_enter_critical` calls wrap the counter, and one exit then unlocks everything
  (`ThreadRuns.NestingExact`).

## Model

| member | source | states |
|---|---|---|
| `RtList.InsertAfterRing` | rt-thread_reference/include/rtservice.h:58-65 | inserting a node behind a member of a circular list gives the circular list with the node at that place |
| `RtList.InsertBeforeRing` | rt-thread_reference/include/rtservice.h:73-80 | inserting a node before a member, or before the head, gives the circular list with the node in front of that member, or at the end |
| `RtList.RemoveRing` | rt-thread_reference/include/rtservice.h:86-92 | removing a member leaves the rest a circular list and the node a list of its own, so that it can be removed again or inserted |
| `RtList.RemoveLonely` | rt-thread_reference/include/rtservice.h:86-92 | removing a node that is linked only to itself changes nothing |
| `RtList.Len` | rt-thread_reference/include/rtservice.h:107-118 | the length loop counts every node but the head |
| `RtList.LinkTwice` | rt-thread_reference/include/rtservice.h:58-65 | inserting a node that is in the circular list already, at whatever place, leaves no circular list that holds the head |
| `TimerOrder.WrappedOrder` | rt-thread_reference/src/timer.c:359-366 | the 32-bit test `(a - b) < RT_TICK_MAX / 2` agrees with the order of unbounded instants inside a window of exactly stated width, and fails just outside it |
| `TimerOrder.WrappedLater` | rt-thread_reference/src/timer.c:359-366 | the comparison of rt_timer_start decides "strictly later" for all deadlines in the window, which is narrowed by as many ticks as a start may be late |
| `TimerOrder.WrappedDue` | rt-thread_reference/src/timer.c:517 | the comparison of rt_timer_check decides "due" for all deadlines in that window |
| `TimerOrder.InsertOrdered` | rt-thread_reference/src/timer.c:342-370 | inserting behind every timer due no later keeps the list sorted by deadline and, among equal deadlines, by start order |
| `TimerOrder.OrderUnique` | rt-thread_reference/src/timer.c:342-370 | a set of timers has only one such order: the list is determined by the timers and their unbounded deadlines |
| `TimerRows.SearchRow` | rt-thread_reference/src/timer.c:345-367 | one row of the search ends at the last node due no later than the new timer, wherever in the row it starts before that |
| `TimerRows.Descend` | rt-thread_reference/src/timer.c:343-370 | the node where a row is left also stands in the row below and not behind that row's own place: searching on from there is right |
| `TimerRows.FindRowHeads` | rt-thread_reference/src/timer.c:342-370 | the nested search loops leave in `row_head[]` the node each row must insert behind |
| `TimerRows.LinkRows` | rt-thread_reference/src/timer.c:376-391 | the timer is linked behind the nodes found into the densest row and as many rows above it as the insert counter says; the others stay |
| `TimerRows.RowsLinked` | rt-thread_reference/src/timer.c:376-391 | rows linked so, by a timer that is in none of them, are the plain sorted inserts |
| `TimerRows.UnlinkRows` | rt-thread_reference/src/timer.c:121-129 | every row loses the timer and nothing else |
| `TimerViews.LinkTimer` | rt-thread_reference/src/timer.c:327-394 | search and linking, for any timer: one in no row gets its sorted place in the rows its height gives; in the bottom row any timer is linked behind the node the search ends at |
| `TimerViews.LinkedTwice` | rt-thread_reference/src/timer.c:376-391 | linking a timer that the bottom row holds already, wherever the search ended, leaves rows that no list of timers fits |
| `TimerWheel.TimerWheel.constructor` | rt-thread_reference/src/timer.c:679-687 | an empty skip list: no timer is listed or marked active |
| `TimerWheel.TimerWheel.InitTimer` | rt-thread_reference/src/timer.c:80-105 | a new timer is known, unmarked and in no row; the others stay |
| `TimerWheel.TimerWheel.StartBegin` | rt-thread_reference/src/timer.c:310-324 | the first locked region of rt_timer_start and the calculation behind it: the timer is in no row, unmarked, and its deadline is noted; nothing else changes |
| `TimerWheel.TimerWheel.StartEnd` | rt-thread_reference/src/timer.c:327-396 | the second locked region, whatever became of the timer since the first: the invariant of all rows (bottom row the stable sort of the listed timers, each upper row a sorted part of the one below, wrapped ticks the residues of the deadlines) holds after it if and only if the timer was unlisted, which is then at its place; otherwise no list of timers fits the rows |
| `TimerWheel.StartTwice` | rt-thread_reference/src/timer.c:296-412 | a run from an empty skip list: a timer that is started again between the two regions ends up as its own successor, and no list of timers fits the rows |
| `TimerWheel.TimerWheel.StartLate` | rt-thread_reference/src/timer.c:296-412 | a start interrupted between its regions by up to the bound many ticks, whose timeout functions do as they like, also to this timer: the invariant holds after it if and only if the timers fired and their functions leave the timer unlisted, which is then listed with the deadline noted last; if they do not deal with it, that is the deadline it would have got at once |
| `TimerWheel.TimerWheel.Start` | rt-thread_reference/src/timer.c:296-412 | rt_timer_start without interruption: exactly this timer moves, to behind every timer due no later, and is marked |
| `TimerWheel.TimerWheel.Unlink` | rt-thread_reference/src/timer.c:433-439 | the locked region of rt_timer_stop takes the timer out of all rows and leaves the marks alone |
| `TimerWheel.TimerWheel.Unmark` | rt-thread_reference/src/timer.c:441-442 | the mark is cleared behind that region; nothing else changes |
| `TimerWheel.TimerWheel.Stop` | rt-thread_reference/src/timer.c:422-447 | rt_timer_stop without interruption takes a marked timer out of all rows and clears its mark, or refuses an unmarked one, listed or not, and changes nothing |
| `TimerWheel.TimerWheel.StopLate` | rt-thread_reference/src/timer.c:422-447 | rt_timer_stop with ticks behind its test and behind its region, whose timeout functions do as they like: the invariant of the rows holds, and the timer ends up listed and unmarked if and only if the functions have started it behind the region |
| `TimerWheel.StopOvertaken` | rt-thread_reference/src/timer.c:422-447 | a run from an empty skip list: a timer started between the region of its rt_timer_stop and the clearing of the mark stays listed and unmarked |
| `TimerWheel.TimerWheel.SetTime` | rt-thread_reference/src/timer.c:459-485 | changing the period touches no row |
| `TimerWheel.TimerWheel.NextDue` | rt-thread_reference/src/timer.c:507-517 | the head of the loop finds the first due timer in deadline order, or none is due |
| `TimerWheel.TimerWheel.Fire` | rt-thread_reference/src/timer.c:517-545 | one round, whatever the timeout function starts and stops: afterwards the timers are due, and marked, as the round says: a periodic timer still marked is due one period from now, any other that fired loses its mark; only it and the timers the function started or stopped move |
| `TimerWheel.TimerWheel.Rearm` | rt-thread_reference/src/timer.c:533-544 | the end of a round: exactly a periodic timer still marked is due again; any other is unmarked, also one that is listed |
| `TimerWheel.TimerWheel.Check` | rt-thread_reference/src/timer.c:494-553 | rt_timer_check ends, fires exactly the due timers that no earlier timeout function stopped or restarted, in deadline order with ties in start order, and leaves none due; afterwards each timer is due, and marked, when the timeout functions, taken in that order, and the periods say; all other timers are as before. Of the listed timers exactly those are then unmarked that were, or that are one-shot and restarted by their own function, and that nobody started since |
| `TimerWheel.TimerWheel.Tick` | rt-thread_reference/src/clock.c:72-98 | a tick, wrapping at 2^32, and the check after it deal with exactly the timers whose unbounded deadline is reached; between ticks no listed deadline is further in the past than starts may be late; which listed timers are unmarked is stated as for the check |
| `TimerWheel.TimerWheel.NextTimeout` | rt-thread_reference/src/timer.c:108-119 | the earliest wrapped deadline, or RT_TICK_MAX when no timer runs |
| `TimerWheel.StartItself` | rt-thread_reference/src/timer.c:533-544 | a run from an empty skip list: a one-shot timer that its own timeout function starts ends up listed but unmarked, and rt_timer_stop refuses it |
| `TimerPlans.StrayExact` | rt-thread_reference/src/timer.c:517-545 | over any firings and timeout functions: a timer is listed and unmarked at the end if and only if it was, or it is one-shot and its function left it started, and it neither fired nor was started since; no timer is marked and unlisted |
| `KconfigExpr.ExprValue` | rt-thread_reference/tools/kconfiglib.py:4986-5044 | the short-circuiting expr_value is the plain minimum, maximum and complement of tristates |
| `KconfigExpr.MakeAnd` | rt-thread_reference/tools/kconfiglib.py:2240-2252 | _make_and's simplifications keep the value under every assignment |
| `KconfigExpr.MakeOr` | rt-thread_reference/tools/kconfiglib.py:2254-2266 | _make_or's simplifications keep the value under every assignment |
| `KconfigExpr.RoundTrip` | rt-thread_reference/tools/kconfiglib.py:5059-5100 | parsing what expr_str prints gives an expression of the same value under every assignment, and the identical tree if and only if no && is the left operand of an && and no || that of an || |
| `KconfigExpr.OrPrinted` | rt-thread_reference/tools/kconfiglib.py:2737-2777 | whatever follows a printed expression without being able to extend it, the parser reads exactly the expression, regrouped to the right |
| `KconfigExpr.RegroupMeaning` | rt-thread_reference/tools/kconfiglib.py:2737-2787 | regrouping to the right keeps the value |
| `KconfigExpr.Parser.ParseFactor` | rt-thread_reference/tools/kconfiglib.py:2789-2821 | the token-index parser accepts, rejects and stops exactly as the recursive grammar says |
| `KconfigExpr.Parser.ParseAndExpr` | rt-thread_reference/tools/kconfiglib.py:2779-2787 | the loop for conjunctions accepts, rejects and stops exactly as the recursive grammar says, with the same right-nested tree |
| `KconfigExpr.Parser.ParseExpr` | rt-thread_reference/tools/kconfiglib.py:2737-2777 | the loop for disjunctions accepts, rejects and stops exactly as the recursive grammar says, with the same right-nested tree |
| `KconfigValues.ExprLocal` | rt-thread_reference/tools/kconfiglib.py:4986-5044 | evaluation depends on nothing but the values it looked at before it stopped |
| `KconfigValues.TriLocal` | rt-thread_reference/tools/kconfiglib.py:3585-3662 | the tristate value of a symbol depends only on the values looked at on the way |
| `KconfigValues.StrLocal` | rt-thread_reference/tools/kconfiglib.py:3444-3582 | the string value of a symbol depends only on the values looked at on the way |
| `KconfigMeaning.RelationMeans` | rt-thread_reference/tools/kconfiglib.py:5014-5041 | a comparison is y exactly if it holds between the symbols' texts, in dictionary order if both are strings or one is no number, and by number otherwise; else n |
| `KconfigMeaning.ExprMeans` | rt-thread_reference/tools/kconfiglib.py:4986-5044 | what the evaluation of an expression computes is its value in terms of the symbols' own values: minimum for &&, maximum for ||, the complement for !, and the comparison for a relation |
| `KconfigMeaning.VisibilityMeans` | rt-thread_reference/tools/kconfiglib.py:5215-5242 | a symbol is invisible exactly if all its prompts are n, and fully visible exactly if one is y, or is m and the symbol is no tristate |
| `KconfigMeaning.TriMeans` | rt-thread_reference/tools/kconfiglib.py:3585-3662 | the tristate value of a symbol is at least the value of its selects; beyond that it is the user value cut to the visibility, or without either the first default whose condition holds, cut to that condition, or the implies while the dependencies hold; it is never m for a bool symbol, and m becomes y exactly if the symbol is no tristate or an imply is y |
| `KconfigMeaning.StrMeans` | rt-thread_reference/tools/kconfiglib.py:3444-3582 | the text of a symbol: the name of its tristate value, or the user text if visible, or the first default whose condition holds; a number outside the first range that holds is moved to the bound, unless the user set it inside |
| `KconfigCache.SourcesKept` | rt-thread_reference/tools/kconfiglib.py:4001-4030 | a cached value survives an invalidation only if the cached values it looked at do, although the recursion stops at symbols with no cached visibility |
| `KconfigCache.InvisibleIgnoresUser` | rt-thread_reference/tools/kconfiglib.py:4032-4052 | skipping symbols without a prompt is right: their values ignore the user value |
| `KconfigCache.InvalidationSound` | rt-thread_reference/tools/kconfiglib.py:3995-4052 | everything still cached after an early-stopping invalidation equals the value recomputed from scratch under the new user values |
| `KconfigCache.Kconfig.constructor` | rt-thread_reference/tools/kconfiglib.py:2827-2884 | all dependents are recorded and nothing is cached |
| `KconfigCache.Kconfig.BuildDep` | rt-thread_reference/tools/kconfiglib.py:2827-2884 | every defined symbol is recorded with each non-constant symbol its prompts, defaults, ranges and reverse dependencies mention |
| `KconfigCache.Kconfig.MakeDependOn` | rt-thread_reference/tools/kconfiglib.py:5244-5260 | one symbol is added to the dependents of the symbols mentioned, and nobody else |
| `KconfigCache.Kconfig.InvalidateAll` | rt-thread_reference/tools/kconfiglib.py:2902-2910 | all defined symbols lose their cached values |
| `KconfigCache.Kconfig.RecInvalidate` | rt-thread_reference/tools/kconfiglib.py:4001-4030 | ends on any dependents graph, because the number of cached visibilities falls, and drops a set of symbols none of whose recorded dependents still has a cached visibility |
| `KconfigCache.Kconfig.RecInvalidateIfHasPrompt` | rt-thread_reference/tools/kconfiglib.py:4032-4048 | restores "every cached value is the recomputed one" after one user value changed |
| `KconfigCache.Kconfig.SetValue` | rt-thread_reference/tools/kconfiglib.py:3713-3796 | accepts, for each type, exactly the values of the right form, stores n, m and y as tristates and anything else as it is, and keeps every cached value right |
| `KconfigCache.Kconfig.UnsetValue` | rt-thread_reference/tools/kconfiglib.py:3798-3805 | removes the user value and keeps every cached value right |
| `KconfigCache.Kconfig.EvalExpr` | rt-thread_reference/tools/kconfiglib.py:4986-5044 | reading through the caches with short circuits gives the expression's value from scratch, and caches what it looked at |
| `KconfigCache.Kconfig.EvalVisibility` | rt-thread_reference/tools/kconfiglib.py:5215-5242 | the maximum over the prompts, read through the caches, is the visibility from scratch |
| `KconfigCache.Kconfig.VisValue` | rt-thread_reference/tools/kconfiglib.py:3675-3682 | the cached or newly computed visibility is the one from scratch |
| `KconfigCache.Kconfig.TriValue` | rt-thread_reference/tools/kconfiglib.py:3585-3662 | the cached or newly computed tristate value is the one from scratch, of which TriMeans says what it is |
| `KconfigCache.Kconfig.StrValue` | rt-thread_reference/tools/kconfiglib.py:3444-3582 | the cached or newly computed string value is the one from scratch, of which StrMeans says what it is |
| `MemHeap.WantedEnough` | rt-thread_reference/src/memheap.c:146-151 | the rounded request is big enough exactly for requests up to 2^32 - 4; beyond, RT_ALIGN wraps |
| `MemHeap.MemHeap.constructor` | rt-thread_reference/src/memheap.c:50-121 | the fresh heap is one unused block and the used tail, with nothing handed out and both totals right |
| `MemHeap.MemHeap.FirstFit` | rt-thread_reference/src/memheap.c:169-183 | the search stops at the first free block that is big enough |
| `MemHeap.MemHeap.Alloc` | rt-thread_reference/src/memheap.c:138-281 | null exactly if the total or every single free block is too small; otherwise the first fitting block of the free list is handed out: cut to the rounded size if 36 bytes are left for a block behind it, which comes first on the free list, and whole if not, so always less than 36 bytes too large; the free total falls by just that; no other block in use moves, changes its size or its bytes |
| `MemHeap.MemHeap.MergeBack` | rt-thread_reference/src/memheap.c:540-557 | a freed block with an unused block before it becomes one with it; without one nothing changes |
| `MemHeap.MemHeap.MergeForward` | rt-thread_reference/src/memheap.c:559-578 | a freed block takes over an unused block behind it, which leaves the free list; without one nothing changes |
| `MemHeap.MemHeap.Free` | rt-thread_reference/src/memheap.c:495-595 | exactly the block given back leaves the blocks in use; an unused block behind it leaves the free list, and the block comes first on it unless it joins an unused one before; bytes stay; null is ignored |
| `MemHeap.MemHeap.Grow` | rt-thread_reference/src/memheap.c:328-403 | growing in place into the unused block behind, also where the new free header overlaps the old one: the block has exactly the size asked for, all other blocks and the block's own bytes stay |
| `MemHeap.MemHeap.Shrink` | rt-thread_reference/src/memheap.c:419-488 | shrinking in place leaves a coalesced unused block behind and all bytes that are kept |
| `MemHeap.MemHeap.Move` | rt-thread_reference/src/memheap.c:408-416 | allocate, copy and free carries the bytes over, or fails with nothing changed |
| `MemHeap.MemHeap.Realloc` | rt-thread_reference/src/memheap.c:284-492 | for any request: the heap is lost if and only if the block has to grow, the block behind is unused and the wrapped sum of the guard takes it for big enough; otherwise there is a block with the first min(old, new) bytes, cut to the requested size exactly if 36 bytes are over, grown to it exactly, or moved to the first that fits, or null with everything as it was, exactly when each happens, and no other block in use moves, changes its size or its bytes |
| `MemHeap.MemHeap.Store` | rt-thread_reference/src/memheap.c:138-281 | a store through a pointer handed out stays inside its block: the heap and the bytes of all other blocks are untouched |
| `MemHeap.MemHeap.GrowWrapped` | rt-thread_reference/src/memheap.c:328-403 | past the wrapped guard the new header is built inside the block's own header and linked behind it; then no list of blocks and free list make a heap of the memory |
| `MemHeap.LoseHeap` | rt-thread_reference/src/memheap.c:328-403 | a run that does so: fresh heap, one allocation, one resize to 2^32 - 12 bytes |
| `MemHeapWrap.GrowGuardExact` | rt-thread_reference/src/memheap.c:350 | the guard for growing in place is right exactly while its 32-bit sum does not wrap, or the room is tiny |
| `MemHeapWrap.HeapLost` | rt-thread_reference/src/memheap.c:366-398 | whatever blocks and free list one looks for in the memory that the wrapped growth leaves, they are no heap |
| `MemHeapBlocks.SplitKeeps` | rt-thread_reference/src/memheap.c:192-217 | building a header inside one block spares the bytes of all others |
| `MemHeapFree.Close` | rt-thread_reference/src/memheap.c:580-591 | with no unused neighbour the block goes on the free list, and the list holds exactly the unused blocks again |
| `MemHeapFree.AllFree` | rt-thread_reference/src/memheap.c:495-595 | once nothing is handed out the heap is one unused block and the tail |
| `MemHeapFree.LiveApart` | rt-thread_reference/src/memheap.c:138-281 | blocks in use are disjoint and inside the pool |
| `SmallHeap.WantedEnough` | rt-thread_reference/src/mem.c:289-300 | the rounded request is big enough exactly for requests up to 2^32 - 4 |
| `SmallHeap.SmallHeap.constructor` | rt-thread_reference/src/mem.c:204-258 | the fresh heap is one unused block and heap_end, with the lowest-free pointer at the block |
| `SmallHeap.SmallHeap.PlugHoles` | rt-thread_reference/src/mem.c:156-194 | the block is joined to its unused neighbours on both sides; tiling, links, free total and the lowest-free pointer are kept |
| `SmallHeap.SmallHeap.Search` | rt-thread_reference/src/mem.c:305-311 | the loop stops at the first block from the lowest-free pointer on that it accepts, or passes all |
| `SmallHeap.SmallHeap.SearchesAll` | rt-thread_reference/src/mem.c:305-311 | when the pointer is exact, starting there overlooks nothing |
| `SmallHeap.SmallHeap.Advance` | rt-thread_reference/src/mem.c:380-386 | moves the lowest-free pointer to the next unused block or heap_end |
| `SmallHeap.SmallHeap.Malloc` | rt-thread_reference/src/mem.c:272-410 | the first block from the lowest-free pointer on that is unused, large enough and low enough for the search, cut to size if 24 bytes are over and else whole; in runs of malloc and free the lowest such block, and null exactly if there is none; the pointer stays the lowest unused block or heap_end; the bytes of all blocks in use stay |
| `SmallHeap.SmallHeap.Free` | rt-thread_reference/src/mem.c:546-609 | the block becomes unused and is coalesced; the pointer stays exact; pointers outside the heap are ignored |
| `SmallHeap.SmallHeap.MallocThenFree` | rt-thread_reference/src/mem.c:272-410 | freeing what malloc returned restores blocks, marks, lowest-free pointer and used total |
| `SmallHeap.SmallHeap.Shrink` | rt-thread_reference/src/mem.c:471-498 | the end of the block becomes unused and is joined to an unused block behind; the lowest-free pointer, which is not lowered, stays the lowest unused block if and only if it lay before the cut or at the block joined; all bytes kept stay |
| `SmallHeap.SmallHeap.Realloc` | rt-thread_reference/src/mem.c:421-510 | null changes nothing (unless the request rounds to zero, which frees); otherwise there is room for the request and the first min(old, new) bytes are there; exactly when the block stays, is cut, and to what, or has to move; no other block in use moves, changes its size or its bytes; exactly when the lowest-free pointer is lost |
| `SmallHeap.SmallHeap.Store` | rt-thread_reference/src/mem.c:272-410 | a store by the owner of a block leaves the heap and the bytes of all other blocks alone |
| `SmallHeap.MallocFresh` | rt-thread_reference/src/mem.c:305-311 | of a fresh heap a request for all the room of its one block gets null, as larger ones do: every request that fails there, and this one fits |
| `SmallHeap.LoseLowest` | rt-thread_reference/src/mem.c:471-498 | a run of two allocations and one shrinking realloc after which the pointer is not the lowest unused block |
| `SmallHeapBlocks.LowestUnique` | rt-thread_reference/src/mem.c:156-194 | the exact lowest-free pointer is determined by the blocks and their marks |
| `SmallHeapBlocks.ShrinkLowest` | rt-thread_reference/src/mem.c:471-498 | exactly when the pointer is still the lowest unused block after a shrinking realloc, which does not lower it |
| `SmallHeapBlocks.MissedFit` | rt-thread_reference/src/mem.c:305-311 | the only adequate block the search can miss is the last one when it fits exactly |
| `SmallHeapBlocks.RoundTrip` | rt-thread_reference/src/mem.c:546-609 | the partition after malloc and free is the old one |
| `SmallHeapBlocks.AllFree` | rt-thread_reference/src/mem.c:546-609 | once nothing is in use the heap is one unused block and heap_end |
| `PageRuns.AllocOk` | rt-thread_reference/src/slab.c:236-270 | first fit: null exactly if every run is too short; otherwise exactly the granted pages leave the free set and the runs stay sorted, disjoint and maximal |
| `PageRuns.AllocExact` | rt-thread_reference/src/slab.c:236-270 | the pages granted are the first of the first run that has as many, and exactly they leave the free set |
| `PageRuns.FreeOk` | rt-thread_reference/src/slab.c:272-322 | exactly the freed pages join the free set, merged on both sides into maximal runs |
| `PageRuns.RunsUnique` | rt-thread_reference/src/slab.c:236-322 | the list of maximal runs is determined by the set of free pages |
| `PageRuns.AllocFree` | rt-thread_reference/src/slab.c:236-322 | allocating and freeing restores the identical list |
| `PageAllocator.PageAllocator.constructor` | rt-thread_reference/src/slab.c:327-334 | the list starts as one linked run of all the pages |
| `PageAllocator.PageAllocator.PageAlloc` | rt-thread_reference/src/slab.c:236-270 | the loop over the linked page heads: null exactly if every run is too short, else the first pages of the first run that has enough, which are then no longer free |
| `PageAllocator.PageAllocator.PageFree` | rt-thread_reference/src/slab.c:272-322 | the loop over the linked page heads inserts or merges the pages: exactly they become free, in sorted maximal runs |
| `SlabGeometry.Zoneindex` | rt-thread_reference/src/slab.c:401-459 | zoneindex returns the index of, and stores, the rounded chunk size |
| `SlabGeometry.ZoneIndexOk` | rt-thread_reference/src/slab.c:401-459 | one of 72 chunk sizes, at least the request, wasting less than eight bytes or an eighth of it |
| `SlabGeometry.SameClass` | rt-thread_reference/src/slab.c:401-459 | equal indices exactly for equal chunk sizes |
| `SlabGeometry.PowerTest` | rt-thread_reference/src/slab.c:631-638 | the bit test holds exactly for the words whose number is a power of two |
| `SlabAlign.MallocAligned` | rt-thread_reference/src/slab.c:478-667 | in every state and for every power of two: a block of up to a page is aligned to its size; a larger one is if and only if the page it comes from, which the state tells before the call, is: the start of the first listed zone, of the first retired zone, or of the first run of pages that is long enough |
| `SlabHeaps.FirstBlock` | rt-thread_reference/src/slab.c:344-667 | the first block of a fresh heap of any size, for every power of two above a page: null exactly if the pages are too few, aligned exactly if the first page behind the tags is |
| `SlabHeaps.OddPages` | rt-thread_reference/src/slab.c:344-667 | a run against the comment in lines 149-150: a fresh heap of 20 pages, in which no zone exists, grants 8192 bytes that are not aligned to 8192 |
| `SlabHeaps.OddZone` | rt-thread_reference/src/slab.c:344-667 | the same for a chunk of 8192 bytes in the first 64K zone of a larger heap |
| `SlabGeometry.ChunkInside` | rt-thread_reference/src/slab.c:635-648 | chunks lie inside their zone past its header |
| `SlabState.TagLeadsBack` | rt-thread_reference/src/slab.c:825-828 | the page tag of every live chunk leads back to its zone |
| `SlabState.LiveDisjoint` | rt-thread_reference/src/slab.c:478-667 | live chunks and large blocks are pairwise disjoint |
| `SlabSteps.TakeOk` | rt-thread_reference/src/slab.c:539-577 | a chunk from the first zone of a list, never used or from its free list, keeps the slab invariant: counts, lists, tags, live set, used total |
| `SlabSteps.LargeOk` | rt-thread_reference/src/slab.c:493-521 | granting a large block, with its length in the page tag, keeps the slab invariant |
| `SlabSteps.NewZoneOk` | rt-thread_reference/src/slab.c:587-659 | setting up a zone taken from zone_free for a chunk size keeps the slab invariant |
| `SlabSteps.ZonePagesOk` | rt-thread_reference/src/slab.c:597-623 | tagging fresh pages as a zone keeps the slab invariant |
| `SlabSteps.PutOk` | rt-thread_reference/src/slab.c:830-846 | giving a chunk back to its zone, which returns to its list if it was full, keeps the slab invariant |
| `SlabSteps.AllFree` | rt-thread_reference/src/slab.c:854-855 | a zone with z_nfree = z_nmax holds no live chunk |
| `SlabSteps.RetireOk` | rt-thread_reference/src/slab.c:854-874 | retiring a totally free zone keeps the invariant |
| `SlabSteps.ReleaseOk` | rt-thread_reference/src/slab.c:876-900 | returning the pages of a retired zone keeps the slab invariant |
| `SlabSteps.LargeFreeOk` | rt-thread_reference/src/slab.c:797-820 | giving a large block back keeps the slab invariant |
| `SlabCalls.MallocOk` | rt-thread_reference/src/slab.c:478-667 | fresh memory of at least the size asked for with all live blocks kept, or null with nothing changed exactly if the request is empty or no zone, retired zone or page run is left for it |
| `SlabCalls.ChunkComes` | rt-thread_reference/src/slab.c:524-667 | a small request takes its chunk from the first zone listed for its size, the next chunk never used or else the first free one, and the zone leaves its list with its last free chunk; with no zone listed the first retired zone is laid out anew, or else the first run of pages that makes one, and gives its first chunk |
| `SlabCalls.LargeComes` | rt-thread_reference/src/slab.c:493-520 | a large request takes the first pages of the first run that has enough, whose number is kept in the tag of the first page |
| `SlabCalls.ChunkGoes` | rt-thread_reference/src/slab.c:825-904 | a chunk becomes the first free one of its zone; a zone that had none is listed first again; one that is now totally free leaves its list if that has another, and comes first among the retired ones, or, if there are two of these already, goes back to the free pages |
| `SlabCalls.LargeGoes` | rt-thread_reference/src/slab.c:795-820 | exactly the pages of a large block become free, and its tag has no length |
| `SlabCalls.FreeKeeps` | rt-thread_reference/src/slab.c:771-904 | the tags suffice to free every live block; it leaves the live set and the invariant stays |
| `SlabCalls.EmptyOk` | rt-thread_reference/src/slab.c:344-395 | the state after initialisation satisfies the invariant whatever the page-tag memory holds |
| `SlabCalls.HistoryOk` | rt-thread_reference/src/slab.c:478-904 | after any sequence of calls live blocks are disjoint and used_mem is the sum of their sizes |
| `SlabHeaps.FreeReady` | rt-thread_reference/src/slab.c:795-828 | what rt_free reads from the tag of a live block is its length, or its zone, and the block's recorded size |
| `SlabHeaps.ChooseZoneSize` | rt-thread_reference/src/slab.c:374-377 | zones of 32K, 64K or 128K by heap size |
| `SlabHeaps.SlabHeap.constructor` | rt-thread_reference/src/slab.c:344-395 | after initialisation all pages but those of the tags are free, and the zone size fits the heap size |
| `SlabHeaps.SlabHeap.Malloc` | rt-thread_reference/src/slab.c:478-667 | rt_malloc over the linked page allocator and the free chunks linked through their own memory is the function proved right in SlabCalls; no word in the heap changes; power-of-two blocks are aligned exactly as stated there |
| `SlabHeaps.SlabHeap.FreeBlock` | rt-thread_reference/src/slab.c:771-904 | rt_free over the linked page allocator and the linked free chunks is the function proved right in SlabCalls; no word of another live block changes; null is ignored |
| `SlabHeaps.FreeApart` | rt-thread_reference/src/slab.c:830-846 | a chunk on a list of free chunks, whose first word links the list, overlaps no live block |
| `SlabHeaps.SlabHeap.Store` | rt-thread_reference/src/slab.c:478-667 | a store anywhere in a live block leaves all lists of free chunks and the contents of all other live blocks as they are |
| `ReadyBitmap.FfsIs` | rt-thread_reference/src/kservice.c:1286-1331 | __rt_ffs and its table find the lowest set bit of every 32-bit word |
| `ReadyBitmap.MarkHas` | rt-thread_reference/src/scheduler.c:703-810 | setting and clearing a thread's bits adds and removes exactly its priority, in one or two levels |
| `ReadyBitmap.HighestIs` | rt-thread_reference/src/scheduler.c:162-184 | the group word is zero exactly if no priority is marked; otherwise the decode step finds the most urgent one |
| `WaitQueue.Search` | rt-thread_reference/src/ipc.c:79-122 | the loop finds the place behind every thread at least as urgent, or the end |
| `WaitQueue.EnqueueSorted` | rt-thread_reference/src/ipc.c:79-122 | insertion by priority is stable and keeps the list sorted |
| `ThreadRuns.ScheduleHighest` | rt-thread_reference/src/scheduler.c:410-522 | after rt_schedule, unless scheduling is locked, no ready thread is strictly more urgent than the running one |
| `ThreadRuns.ScheduleSame` | rt-thread_reference/src/scheduler.c:410-522 | rt_schedule leaves exactly the same threads able to run: also one resumed between suspending itself and rt_schedule |
| `ThreadRuns.StepOk` | rt-thread_reference/src/scheduler.c:410-814 | every step that is one region, of scheduler, threads, waits and ticks, keeps bitmap = non-empty queues, each thread in the one place its state says, and "timer active implies suspended" |
| `ThreadRuns.BootOk` | rt-thread_reference/src/scheduler.c:191-238 | the state after initialisation satisfies the invariant |
| `ThreadRuns.DueThread` | rt-thread_reference/src/thread.c:749-771 | in every state that satisfies the invariant the state assertion of rt_thread_timeout holds for the timer that fires |
| `ThreadRuns.FireDueExact` | rt-thread_reference/src/timer.c:494-553 | the check wakes exactly the threads whose timers are due, earliest first, with -RT_ETIMEOUT, and leaves no thread timer due; its plain list is the skip list's by ThreadTimers.TickAlone |
| `ThreadRuns.TickedExact` | rt-thread_reference/src/clock.c:72-98 | a tick wakes exactly the threads whose waits have run out, and keeps the invariant; for timeout functions that resume threads see ThreadTimers.TickRefines |
| `ThreadRuns.StepCalm` | rt-thread_reference/src/thread.c:706-771 | the timer of a thread that does not begin to wait stays off under every step, and its error code is what it was, -RT_ERROR if rt_ipc_list_resume_all wakes it, or what it stores itself |
| `ThreadRuns.NestingExact` | rt-thread_reference/src/scheduler.c:854-939 | at every depth of nested calls the 16-bit counter unlocks exactly at the multiples of 65536; an exit undoes one enter exactly up to a depth of 32768 within 65536, and leaves zero from every other depth |
| `ThreadRegions.UnlinkExact` | rt-thread_reference/src/thread.c:724-732 | the first locked region of rt_thread_resume keeps the invariant if and only if the thread is not ready when it comes |
| `ThreadRegions.InsertExact` | rt-thread_reference/src/scheduler.c:687-721 | the second region keeps it if and only if the thread is then in no list with its timer off |
| `ThreadGaps.GoExact` | rt-thread_reference/src/thread.c:706-740 | of all moves, with calls of rt_thread_resume under way at any of their points, only those two can break the invariant, and exactly then |
| `ThreadGaps.RunExact` | rt-thread_reference/src/thread.c:706-740 | a run keeps the invariant throughout if and only if every region of every rt_thread_resume finds what it must |
| `ThreadGaps.SoundExact` | rt-thread_reference/src/thread.c:706-740 | throughout a run each thread being resumed is so by one call only and as that call left it, if and only if no thread is resumed or woken again, and none sleeps or ends, inside the gap of its own resume |
| `ThreadGaps.UndisturbedRun` | rt-thread_reference/src/thread.c:706-740 | runs without that keep the invariant |
| `ThreadGaps.GapExact` | rt-thread_reference/src/thread.c:724-735 | between the two regions, resuming the thread once more is exactly the step after which the pending insertion breaks the invariant |
| `ThreadGaps.AssertExact` | rt-thread_reference/src/thread.c:757 | after the insertion the state assertion of rt_thread_timeout holds for all active thread timers if and only if this thread's timer is off |
| `ThreadGaps.FailingRun` | rt-thread_reference/src/thread.c:706-771 | from every start of the kernel there is a run of two threads, one resumed by a handler inside the gap and then asleep, that leaves it ready with its timer active, so that the assertion will fail |
| `ThreadGaps.BootSound` | rt-thread_reference/src/scheduler.c:191-238 | the kernel starts with no call of rt_thread_resume under way and the invariant true |
| `ThreadGaps.NoOldTimeout` | rt-thread_reference/src/thread.c:706-771 | over every run that keeps the invariant, whatever else is preempted where: until a thread whose timer is off waits again, its timer stays off, and its error code becomes -RT_ETIMEOUT only if the thread itself stores that; no tick and no other thread does |
| `ThreadTimers.StartShows` | rt-thread_reference/src/timer.c:296-412 | the list of active thread timers in the thread model is the part of the skip list that belongs to threads, in its order and with its deadlines: starting a thread timer keeps that so |
| `ThreadTimers.StopShows` | rt-thread_reference/src/timer.c:422-447 | when a thread timer is stopped, the list of the thread model and the thread timers in the skip list still agree |
| `ThreadTimers.OtherShows` | rt-thread_reference/src/timer.c:296-447 | starting or stopping any other timer leaves that agreement alone |
| `ThreadTimers.FiredSame` | rt-thread_reference/src/timer.c:494-553 | the thread timers the skip list fires at a tick are those the thread model has due, in the same order, but for exactly those that an earlier timeout function has stopped |
| `ThreadTimers.CheckedMoves` | rt-thread_reference/src/timer.c:494-553 | a check whose timeout functions resume threads as they like keeps the invariant; exactly the threads whose timers fire time out, and of the others exactly the suspended ones that are resumed wake up |
| `ThreadTimers.TickRefines` | rt-thread_reference/src/clock.c:72-98 | the tick of the thread model and the tick of the skip list, with timeout functions that resume threads: afterwards the plain list is again what the skip list holds of the thread timers, and exactly the threads whose timers it fired have timed out |
| `ThreadTimers.TickAlone` | rt-thread_reference/src/clock.c:72-98 | with timeout functions that leave the threads alone this is the tick of the thread model itself |
| `ThreadRotation.YieldTurns` | rt-thread_reference/src/scheduler.c:410-522 | a yield runs the next of the threads sharing the highest priority and sends the caller to the back |
| `ThreadRotation.FullTurn` | rt-thread_reference/src/scheduler.c:410-522 | m + 1 yields among m + 1 such threads restore the state |
| `ThreadRotation.LoneYield` | rt-thread_reference/src/scheduler.c:410-522 | a yield by a thread alone at the highest priority leaves the whole state unchanged |
| `ThreadRotation.SliceTurns` | rt-thread_reference/src/clock.c:83-94 | with scheduling unlocked and equally urgent threads ready, the tick that ends the slice of the running thread lets the next of them run; the thread is last in their queue, with a full slice |
| `ThreadRotation.SliceKept` | rt-thread_reference/src/clock.c:83-94 | a thread has the processor for its whole slice: at every tick before the last it still runs, while no thread timer is due |
| `ThreadRotation.OneSlice` | rt-thread_reference/src/clock.c:83-94 | after as many ticks as its slice has, the next thread runs, the thread is last with a full slice, and the slices of the others are untouched |
| `ThreadRotation.RoundRobin` | rt-thread_reference/src/clock.c:72-98 | over any number of ticks in which no thread timer is due: threads that share the highest priority take turns in a fixed order, one whole slice each |
| `ThreadEffects.StepDoes` | rt-thread_reference/src/thread.c:80-771 | what each step does to every thread record, list and timer, for all steps of scheduler, threads and clock: who is suspended, resumed, blocked, closed, or moved and to which place of which list, whose timer is stopped or started and for when, and who runs next |
| `ThreadEffects.ScheduleDoes` | rt-thread_reference/src/scheduler.c:410-522 | rt_schedule changes nothing while scheduling is locked, no thread is ready, or the running thread is more urgent than all ready ones; otherwise the first of the most urgent ready threads runs, and a thread that ran goes to the end of its queue |
| `ThreadEffects.TickHighest` | rt-thread_reference/src/clock.c:72-98 | if the most urgent thread runs before a tick, it does after it, whichever threads the tick has woken |
| `ThreadWaits.WaitEnds` | rt-thread_reference/src/ipc.c:1635-1663 | over every run: a take, send or receive that blocks with a bounded timeout and is served by nobody cannot run while fewer ticks than that have passed, and is runnable with -RT_ETIMEOUT behind the tick that makes them up |
| `ThreadWaits.SleepEnds` | rt-thread_reference/src/thread.c:487-518 | over every run in which nobody resumes the sleeper, rt_thread_sleep lasts exactly as many ticks as asked for, or one for zero |
| `Kernel.Kernel.constructor` | rt-thread_reference/src/scheduler.c:191-238 | the loops that initialise the scheduler, from any memory: all ready queues are empty, the bitmap is clear, and the invariant holds |
| `Kernel.Kernel.InitThread` | rt-thread_reference/src/thread.c:117-193 | rt_thread_init adds a thread with the priority and slice asked for, no error and an initial state, and changes nothing else |
| `Kernel.Kernel.ScheduleInsert` | rt-thread_reference/src/scheduler.c:687-721 | rt_schedule_insert_thread on the queues and bitmap in place: the thread goes to the back of its queue and its priority is marked, unless it is the running thread |
| `Kernel.Kernel.ScheduleRemove` | rt-thread_reference/src/scheduler.c:784-814 | rt_schedule_remove_thread in place: the thread leaves its list, and its priority is unmarked exactly if its queue is then empty |
| `Kernel.Kernel.Reschedule` | rt-thread_reference/src/scheduler.c:410-522 | rt_schedule in place, with both outcomes of its choice: the first of the most urgent threads runs, who ran goes to the end of its queue, and all runnable threads stay runnable |
| `Kernel.Kernel.StaysRunning` | rt-thread_reference/src/scheduler.c:509-513 | taking the running thread out of the ready list and marking it running, when rt_schedule chooses it again, changes nothing |
| `Kernel.Kernel.EnterCritical` | rt-thread_reference/src/scheduler.c:854-869 | the 16-bit nesting counter goes one deeper and nothing else changes |
| `Kernel.Kernel.ExitCritical` | rt-thread_reference/src/scheduler.c:914-939 | the counter goes one back; exactly if it is then zero and the system runs, rt_schedule follows, after which the most urgent thread runs, and otherwise nothing else changes |
| `Kernel.Kernel.Prepare` | rt-thread_reference/src/thread.c:295-310 | rt_thread_startup before its resume: the thread gets its initial priority with the bitmap masks that go with it, and counts as suspended |
| `Kernel.Kernel.Startup` | rt-thread_reference/src/thread.c:288-320 | rt_thread_startup that nothing interrupts: the thread becomes ready at its initial priority, and rt_schedule runs once the system is started |
| `Kernel.Kernel.SuspendRegion` | rt-thread_reference/src/thread.c:676-692 | the locked region of rt_thread_suspend suspends any started thread and stops its timer, whatever became of it since the test |
| `Kernel.Kernel.Suspend` | rt-thread_reference/src/thread.c:657-696 | rt_thread_suspend that nothing interrupts: only a ready thread or the running one is suspended |
| `Kernel.Kernel.UnlinkRegion` | rt-thread_reference/src/thread.c:724-732 | the first region of rt_thread_resume in place; the invariant holds after it if and only if the thread was not ready |
| `Kernel.Kernel.InsertRegion` | rt-thread_reference/src/thread.c:735 | the second region in place; the invariant holds after it if and only if the thread was in no list with its timer off |
| `Kernel.Kernel.Resume` | rt-thread_reference/src/thread.c:706-740 | rt_thread_resume that nothing interrupts: only a suspended thread is resumed, with its timer stopped |
| `Kernel.Kernel.ResumeAll` | rt-thread_reference/src/ipc.c:158-183 | rt_ipc_list_resume_all, one region for every thread that waits: the list is empty, exactly these threads can run, with -RT_ERROR, and the others are as they were |
| `Kernel.Kernel.Sleep` | rt-thread_reference/src/thread.c:496-511 | the caller is suspended with its timer due after the given ticks, and the most urgent other thread runs |
| `Kernel.Kernel.SleepEnd` | rt-thread_reference/src/thread.c:513-515 | when the sleeper runs again its timeout error is cleared and nothing else changes |
| `Kernel.Kernel.WaitOn` | rt-thread_reference/src/ipc.c:79-122 | the caller is suspended with its error cleared and joins the wait list, behind all at least as urgent or at the end; exactly for a bounded wait its timer is started, due after just that many ticks; all other threads, lists and timers stay |
| `Kernel.Kernel.Timeout` | rt-thread_reference/src/thread.c:749-771 | rt_thread_timeout on a suspended thread: it leaves its wait list for the end of its ready queue with -RT_ETIMEOUT, and rt_schedule follows |
| `Kernel.Kernel.Exit` | rt-thread_reference/src/thread.c:80-115 | the running thread is closed, in no list but, unless static, first on the defunct list, with its timer stopped, and the next one runs |
| `Kernel.Kernel.SetPriority` | rt-thread_reference/src/thread.c:572-613 | the thread gets the priority and its masks; a ready one moves to the end of the queue of its new priority, any other stays where it is |
| `Kernel.Kernel.CheckTimers` | rt-thread_reference/src/timer.c:494-553 | the loop wakes exactly the threads due, in list order, and ends with none due |
| `Kernel.Kernel.Slice` | rt-thread_reference/src/clock.c:83-94 | the running thread's slice counts down and nothing moves; when it runs out it is refilled, and with equally urgent threads ready the first of them runs and the thread goes to the end of their queue |
| `Kernel.Kernel.TickIncrease` | rt-thread_reference/src/clock.c:72-98 | rt_tick_increase in place: the slice, then exactly the threads whose waits have run out wake up, one after the other, and the most urgent thread runs if it did before |
| `MailboxSteps.StepOk` | rt-thread_reference/src/ipc.c:1441-1757 | every step of senders, receivers, timeouts and reset keeps: queued mails at most the woken receivers still to run if a receiver is blocked, free slots at most the woken senders if a sender is |
| `MailboxSteps.RunOk` | rt-thread_reference/src/ipc.c:1441-1757 | every interleaving of senders, receivers, timeouts and resets keeps the two wakeup bounds |
| `MailboxSteps.MailIsFetched` | rt-thread_reference/src/ipc.c:1589-1713 | with a receiver blocked and mail queued, a woken receiver takes a mail when it runs |
| `MailboxSteps.RoomIsFilled` | rt-thread_reference/src/ipc.c:1441-1560 | with a sender blocked and room left, a woken sender stores its mail when it runs |
| `MailboxSteps.StepDoes` | rt-thread_reference/src/ipc.c:1441-1757 | what each step does: where the mail passed in ends up, or with which mail and timeout the caller waits at which place; who is woken, and with what; what a timeout and a reset leave |
| `MailboxSteps.RunFifo` | rt-thread_reference/src/ipc.c:1441-1713 | between resets the mails that come out are those the senders passed in, in the order they were stored, none lost, none twice; a sender that had to wait stores the mail it was called with |
| `MailboxSteps.RunDelivers` | rt-thread_reference/src/ipc.c:1441-1713 | over every run that starts with no sender waiting, without resets: a mail that comes out was queued at the start or is one that a call of rt_mb_send_wait passed in |
| `Mailbox.Mailbox.constructor` | rt-thread_reference/src/ipc.c:1360-1395 | a new mailbox holds no mail and nobody waits |
| `Mailbox.Mailbox.Store` | rt-thread_reference/src/ipc.c:1534-1559 | the mail goes to the back of the ring and the first receiver is woken |
| `Mailbox.Mailbox.SendWaiting` | rt-thread_reference/src/ipc.c:1441-1560 | rt_mb_send_wait up to its return or suspension: it stores the value passed as the last mail and wakes the first receiver, fails with -RT_EFULL, or joins the senders with that value and timeout; the wakeup bounds hold |
| `Mailbox.Mailbox.SendResumed` | rt-thread_reference/src/ipc.c:1472-1560 | rt_mb_send_wait after its wakeup: it stores the value it was called with if there is room, waits again with it and the time left, or returns its error |
| `Mailbox.Mailbox.Fetch` | rt-thread_reference/src/ipc.c:1682-1712 | the oldest mail is taken and the first sender is woken |
| `Mailbox.Mailbox.Recv` | rt-thread_reference/src/ipc.c:1589-1713 | rt_mb_recv up to its return or suspension: it takes the oldest mail, gives up, or joins the receivers, and the wakeup bounds hold |
| `Mailbox.Mailbox.RecvResumed` | rt-thread_reference/src/ipc.c:1618-1713 | rt_mb_recv after its wakeup: it takes the oldest mail, waits again with the time left, or returns its error |
| `Mailbox.Mailbox.ThreadTimeout` | rt-thread_reference/src/thread.c:749-771 | a blocked sender or receiver leaves its list with -RT_ETIMEOUT, keeping its mail; the mails stay |
| `Mailbox.Mailbox.ResetAll` | rt-thread_reference/src/ipc.c:1725-1757 | all waiters are woken with an error and no mail is left |
| `MutexSteps.StepOk` | rt-thread_reference/src/ipc.c:653-880 | a step keeps "value = 1 iff no owner iff hold = 0, a free mutex has no waiters, waiters sorted, owner at least as urgent as every waiter, everyone else at the priority of before, and a woken thread told RT_EOK exactly if it owns the mutex" if and only if it is not the owner's 256th nested take |
| `MutexSteps.TakeDoes` | rt-thread_reference/src/ipc.c:653-752 | what a take does: a free mutex, or one the caller owns, is taken once more; otherwise the caller returns -RT_ETIMEOUT at once, or joins the waiters with its timeout and lends the owner its priority if it is more urgent |
| `MutexSteps.ReleaseDoes` | rt-thread_reference/src/ipc.c:789-880 | what the release by the owner does: one take less; with none left the owner has its own priority again and the first waiter is told RT_EOK and owns the mutex, or it is free |
| `MutexSteps.ExpireDoes` | rt-thread_reference/src/thread.c:749-771 | what a timeout does: the waiter leaves the list and is told -RT_ETIMEOUT; nothing else changes |
| `MutexSteps.RunExact` | rt-thread_reference/src/ipc.c:653-880 | over a whole run the invariant holds all along if and only if no step is a 256th nested take |
| `MutexSteps.PriorityRestored` | rt-thread_reference/src/ipc.c:653-880 | over every run: whoever does not own the mutex has the priority it came with |
| `MutexSteps.RecursionExact` | rt-thread_reference/src/ipc.c:680-684 | a further take by the owner keeps the invariant if and only if the 8-bit hold does not wrap |
| `MutexSteps.HandOverExact` | rt-thread_reference/src/ipc.c:832-860 | the new owner is not boosted; it is as urgent as the remaining waiters exactly if the first waiter was |
| `MutexSteps.FifoInversion` | rt-thread_reference/src/ipc.c:851-857 | a run from a fresh first-in-first-out mutex, for any priorities: two threads wait, the owner releases, and the new owner is as urgent as the other waiter exactly if it came with that priority |
| `MutexSteps.NestedRoundTrip` | rt-thread_reference/src/ipc.c:653-880 | n further takes by the owner are undone by n releases, and by no fewer |
| `Mutexes.Mutex.constructor` | rt-thread_reference/src/ipc.c:529-549 | a new mutex has no owner and nobody waits; every thread has its own priority |
| `Mutexes.Mutex.TakeUp` | rt-thread_reference/src/ipc.c:653-752 | rt_mutex_take up to its return or suspension: who gets the mutex, and that a blocked caller has lent the owner its priority; the invariant holds afterwards if and only if it was not the 256th nested take |
| `Mutexes.Mutex.TakeOver` | rt-thread_reference/src/ipc.c:754-777 | rt_mutex_take after its wakeup: it returns RT_EOK if and only if the caller owns the mutex, and the invariant holds |
| `Mutexes.Mutex.GiveBack` | rt-thread_reference/src/ipc.c:789-880 | rt_mutex_release: only by the owner; restores its priority and hands over or frees the mutex |
| `Mutexes.Mutex.ThreadTimeout` | rt-thread_reference/src/thread.c:749-771 | a waiter that times out leaves the wait list and is told -RT_ETIMEOUT; owner and priorities stay, and the invariant holds |
| `EventSteps.MeetsMeans` | rt-thread_reference/src/ipc.c:1063-1078 | bit 0 of the option asks for all of the flags wanted, bit 1 without bit 0 for any of them, flag by flag; with neither nothing satisfies a receiver |
| `EventSteps.FlagsMean` | rt-thread_reference/src/ipc.c:1048-1183 | a satisfied receiver gets exactly those of its flags that are set; sending sets, and clearing removes, exactly the flags named |
| `EventSteps.StepDoes` | rt-thread_reference/src/ipc.c:1028-1276 | what each step does: whose turn finds what flags set, what each waiter is told and takes with the clear bit, with what the caller waits at which place, what a timeout and a reset leave |
| `EventSteps.OfferOk` | rt-thread_reference/src/ipc.c:1048-1100 | after a send the waiters left are those still blocked, in their old order, unchanged, and none of them is met by the flags left |
| `EventSteps.OfferExact` | rt-thread_reference/src/ipc.c:1048-1100 | each waiter is woken exactly if the flags left at its turn in the queue meet its condition, with those it wanted; with the clear bit just these are gone at the next turn, and otherwise the flags stay |
| `EventSteps.OfferTotal` | rt-thread_reference/src/ipc.c:1048-1100 | what the clearing receivers took and what is left make up the flags: none lost |
| `EventSteps.OfferShares` | rt-thread_reference/src/ipc.c:1048-1100 | no flag is taken by two clearing receivers |
| `EventSteps.ReceiveExact` | rt-thread_reference/src/ipc.c:1157-1183 | a receiver that does not wait gets exactly its flags that are set, and clearing removes exactly those |
| `EventSteps.StepOk` | rt-thread_reference/src/ipc.c:1028-1276 | every step keeps: no blocked thread's AND/OR condition is met by the current flags |
| `EventSteps.RunOk` | rt-thread_reference/src/ipc.c:1028-1276 | over every run no blocked thread's condition is met by the current flags |
| `Events.Event.constructor` | rt-thread_reference/src/ipc.c:914-932 | a new event has no flags and nobody waits |
| `Events.Event.SendFlags` | rt-thread_reference/src/ipc.c:1028-1111 | the loop over the waiters, which unlinks as it goes, computes the fold that OfferExact describes; a schedule is asked for exactly if someone was woken |
| `Events.Event.Recv` | rt-thread_reference/src/ipc.c:1126-1214 | rt_event_recv up to its return or suspension: exactly when it fails, returns the flags met, gives up or waits, and then with the flags, option and timeout it was called with |
| `Events.Event.RecvResumed` | rt-thread_reference/src/ipc.c:1216-1236 | rt_event_recv after its wakeup returns the error and the flags stored for it |
| `Events.Event.ResetAll` | rt-thread_reference/src/ipc.c:1248-1276 | all waiters are woken with an error and the flags cleared |
| `Events.Event.ThreadTimeout` | rt-thread_reference/src/thread.c:749-771 | a waiter that times out leaves the wait list with -RT_ETIMEOUT; the flags stay |
| `MessageQueueSteps.ReserveOk` | rt-thread_reference/src/ipc.c:1975-2002 | the first phase of a send takes the first free node, or fails when there is none, without touching the queue |
| `MessageQueueSteps.LinkOk` | rt-thread_reference/src/ipc.c:2004-2039 | the second phase appends (send) or prepends (urgent) the message to the deque |
| `MessageQueueSteps.ReceiveOk` | rt-thread_reference/src/ipc.c:2160-2250 | a receive unlinks the first message, or waits, or gives up |
| `MessageQueueSteps.ResetOk` | rt-thread_reference/src/ipc.c:2279-2325 | a reset returns every queued node and leaves calls in flight their nodes |
| `MessageQueueSteps.StepOk` | rt-thread_reference/src/ipc.c:1963-2325 | every step keeps the pool partitioned among queue, free chain and calls in flight, `entry` the length, `tail` the last node, and acts on the deque as stated |
| `MessageQueueSteps.StepDoes` | rt-thread_reference/src/ipc.c:1963-2325 | what each step does: which node a call gets and with what contents, where it is linked or freed, who is woken with what, at which place and with what timeout a receiver waits, what a timeout and a reset leave |
| `MessageQueueSteps.RunOk` | rt-thread_reference/src/ipc.c:1963-2325 | over every run the queue holds what the deque holds |
| `MessageQueueSteps.HeldStays` | rt-thread_reference/src/ipc.c:1963-2266 | a node held by a call keeps its contents until that call moves |
| `MessageQueues.MessageQueue.constructor` | rt-thread_reference/src/ipc.c:1780-1827 | a new queue is empty, with all nodes on the free chain |
| `MessageQueues.MessageQueue.SendBegin` | rt-thread_reference/src/ipc.c:1975-2002 | the first locked region of rt_mq_send and rt_mq_urgent takes the first free node, or fails with the queue full and nothing changed |
| `MessageQueues.MessageQueue.SendEnd` | rt-thread_reference/src/ipc.c:2004-2039 | the second locked region puts the message at the back, or the front if urgent, of the deque and wakes the first receiver |
| `MessageQueues.MessageQueue.Recv` | rt-thread_reference/src/ipc.c:2138-2266 | rt_mq_recv up to its return, suspension, or copy: it unlinks the first message, gives up, or joins the receivers |
| `MessageQueues.MessageQueue.RecvResumed` | rt-thread_reference/src/ipc.c:2160-2250 | rt_mq_recv after its wakeup: it unlinks the first message, waits again with the time left, or returns its error |
| `MessageQueues.MessageQueue.RecvFinish` | rt-thread_reference/src/ipc.c:2252-2266 | the message received is what was sent, cut to the buffer, and its node goes free |
| `MessageQueues.MessageQueue.ThreadTimeout` | rt-thread_reference/src/thread.c:749-771 | a receiver that times out leaves the wait list with -RT_ETIMEOUT; the messages stay |
| `MessageQueues.MessageQueue.ResetAll` | rt-thread_reference/src/ipc.c:2279-2325 | all receivers are woken with an error, every queued node goes free, and nodes held by calls stay theirs |

## Left out

- TimerWheel.TimerWheel.Check: timeout functions start timers with delays of at least one tick, and periods are at least one tick; with a delay or period of zero the loop need not end.
- TimerWheel.TimerWheel.StartBegin: the store of the new `timeout_tick`, which runs between the two regions of a start, is part of the first; no tick comes between them.
- ThreadTimers.TickRefines: timeout functions resume threads and may call `rt_schedule`; they do not start thread timers, which only the waiting thread itself does.
- Mutexes.Mutex.TakeUp: the class is the priority-flagged mutex; what a first-in-first-out one loses is in `MutexSteps.HandOverExact` and `MutexSteps.FifoInversion`.
- SMP: per-CPU queues, spin locks and inter-processor interrupts.
- Signals, and the retry of `rt_mutex_take` after `-RT_EINTR`.
- Semaphores, whose counting would only repeat what the mailbox shows, and memory pools.
- Deleting or detaching objects during a run, `rt_tick_set`, user changes to the priority of waiting threads.
- The heap semaphores: each allocator call is one step. `slab.c` releases its semaphore around the page allocator; no other call is placed there.
- `rt_realloc` of `slab.c`, and the `calloc` functions: they only combine the calls modelled here.
- Soft timers: the timer thread runs the same list code.
- Regions nested in an interrupt-disabled caller are part of its step: the `rt_timer_start` of a sleep or a bounded wait, and the `rt_thread_resume` of the IPC calls; `rt_thread_timeout` runs inside the region of `rt_timer_check`.
- The scheduler and the IPC objects are proved as separate state machines; waking a thread appears in the first as a resume step and in the others as a change of phase.
- The priority table has 32 or 256 levels; the cached `rt_current_priority` is not kept, the running thread's own priority is used.
- The singly linked chains of zones, `zone_array[]` and `zone_free`, are sequences; the free chunks, the page allocator's and the message queue's chains are linked nodes.
- Hooks, debug output, stack set-up and checks, context switching, dynamic modules, devices, idle thread, component start-up, console formatting.
- In Kconfig: choices, lexing, INT/HEX warnings, file reading and writing, the `assignable` and `_write_to_conf` caches, menus, the macro preprocessor. `int(s, base)`, `str` and `hex` are parameters of the configuration.
