# RT-Thread kernel: allocators, IPC, scheduling, timers and two build tools

A Dafny model of the single-core RT-Thread 4.1.0 kernel (every `RT_USING_SMP` branch off) and of two of its
build tools, with proofs about all inputs, all runs or all reachable states.

The model follows one pattern throughout.  Where the C code changes records in place, a class has those fields
and methods with the same branches and loops; a value `State` and pure step functions say what each step means;
lemmas prove what every step keeps, and from that what holds in every state of every run.  Each method ends
with `s == Step(old(s), ...)`, so the lemmas about the steps hold for the fields.  A stretch of code with
interrupts disabled is one step.

| files | model |
|---|---|
| Arith, Bits, Ring | remainders, event words as sets, the kernel's linked list |
| Peaks | the highest value of a counter |
| Layout | a boundary-tag heap as a tiling of an address range, shared by the two heaps |
| SmallHeapChain, SmallHeap | `mem.c`: headers inside the heap bytes, first fit, split, coalesce, realloc with payload bytes |
| MemHeapChain, MemHeap | `memheap.c`: circular block list beside a free list |
| Pages, SlabZone, Slab, SlabObject | `slab.c`: page runs under size-class zones |
| IpcList | the suspend list of an IPC object |
| MessageLog, MessageQueue, MessageQueueObject | message queue, with threads preempted wherever the lock is dropped, byte by byte in the copies |
| Mutex, MutexObject | priority inheritance |
| Event, EventObject | event sets with AND, OR and CLEAR |
| Ffs, ReadyIndex, Scheduler, SchedulerObject | find-first-set, the ready bitmap, the scheduler and the thread state machine |
| TimerSearch, Timer, TimerCheck, TimerObject | the timer skip list on wrap-around ticks: its search, one operation, the expiry loop and all runs |
| CallGraph, Wcs | `WCS.py`: worst-case stack by memoised depth-first search |
| Romfs | `mkromfs.py`: the file-system image |

Addresses are offsets from the start of the memory managed, and pointers are those offsets or a null value.
Unsigned words are written out (`% word`, `% TICKS`) wherever the code can wrap.

Where code and documentation or expectation differ, the model follows the code:

- `rt_smem_alloc` does not terminate on a heap smaller than MIN_SIZE_ALIGNED for non-zero requests that round to at
  most the heap size or wrap to 0 (`SmallHeap.SearchNeverEnds`, `SmallHeap.TinyHeapCircles`); the precondition of
  `Alloc` excludes exactly this.
- RT_ALIGN wraps to 0 for requests less than one alignment unit below the word range; `rt_smem_alloc` then serves the smallest
  block and `rt_smem_realloc` frees (`SmallHeapChain.NeedAligned`, `SmallHeap.WrappedRequests`); `rt_memheap_alloc` serves
  the smallest block too and `rt_memheap_realloc` may return the old block (`MemHeap.BlockRoom`, `MemHeap.WrappedRealloc`).
- `rt_memheap_alloc` refuses a request as large as `available_size`, because that test is strict
  (`MemHeap.WholePoolIsRefused`, `MemHeap.PoolOf1024Refuses976`).
- `rt_memheap_realloc` adds MINIALLOC to the new size without a check; when that wraps around and the next block is
  free, the block is grown without room and the new header is written over its own (`MemHeap.GrowTestIsSound`,
  `MemHeap.GrowOverwritesHeader`, `MemHeap.GrowWithoutRoomHappens`); the precondition of `Realloc` excludes exactly this.
- Power-of-two sized slab allocations are aligned to their size only up to the page size; the header comment promises
  it for all of them (`Slab.AllocAligned`, `Slab.AlignmentPromiseFails`).  The comment also says that a request for 0
  bytes gets a block; `rt_slab_alloc` returns null (`Slab.AllocIs`).
- Releasing one of two mutexes drops a boost inherited through the other (`Mutex.SecondMutexKeepsProtection`,
  `Mutex.SecondMutexDropsBoost`).
- An overdue timer can be ordered wrongly against one started now that is due almost RT_TICK_MAX/2 ticks ahead.  The
  condition is exact for one comparison, for a row and for the whole skip list (`TimerSearch.NearIsExact`,
  `TimerSearch.ScanIsPosition`, `TimerSearch.SearchIsExact`): `rt_timer_start` keeps the list in order exactly if the new
  timer is in reach (`Timer.StartedInv`, `TimerCheck.StartMisorders`).  Three ticks late is always harmless and four is
  not (`TimerCheck.PunctualIsInReach`, `TimerSearch.SlackIsExact`).
- `rt_timer_check` then leaves due timers unfired: it fires all of them exactly if every periodic timer it starts
  again is in reach (`TimerCheck.CheckKeepsOrder`, `TimerCheck.CheckLeavesDue`).
- `rt_timer_check` goes on for ever exactly if a periodic timer that is due has period 0 and all it starts again is
  in reach (`TimerCheck.CheckEnds`, `TimerCheck.CheckNeverEnds`, `TimerCheck.ZeroPeriodRun`).
- The tools are modelled with the byte strings of Python 2, on which `bytes(name)` works.

## Model

| member | source | states |
|---|---|---|
| Layout.RunKeeps | P2001-app/src/mem.c:125-556 | after every run of allocations, frees and in-place resizes the items tile the heap exactly and no two neighbours are free |
| Layout.HistoryIndependent | P2001-app/src/mem.c:125-556 | two runs that leave the same blocks live leave the identical heap, whatever order they worked in |
| Layout.LayoutUnique | P2001-app/src/mem.c:125-163 | a coalesced tiling is determined by its live blocks |
| Layout.TakeKeeps | P2001-app/src/mem.c:319-373 | taking a fitting free item, split or whole, keeps the tiling exact and coalesced |
| Layout.TakeIsTight | P2001-app/src/mem.c:325-373 | the block taken is exactly as large as asked and the rest stays free, unless the rest is too small to be an item |
| Layout.ReleaseKeeps | P2001-app/src/mem.c:125-163 | freeing an item and merging it with both neighbours keeps the tiling and restores coalescing |
| Layout.RecutKeeps | P2001-app/src/mem.c:464-492 | moving the boundary behind a used item keeps the tiling exact and coalesced |
| Layout.TakeLive | P2001-app/src/mem.c:279-404 | an allocation adds exactly one block, which was not live, to the live blocks |
| Layout.ReleaseLive | P2001-app/src/mem.c:512-556 | a free removes exactly one block from the live blocks |
| Layout.RecutMoved | P2001-app/src/mem.c:464-492 | a resize in place leaves the block where it was and changes no other block |
| Layout.TakeReleaseIdentity | P2001-app/src/mem.c:279-556 | freeing what was just allocated restores the identical layout |
| Layout.ReleaseCommutes | P2001-app/src/mem.c:512-556 | the order in which two blocks are freed does not matter |
| Layout.NoneLiveIsWhole | P2001-app/src/mem.c:512-556 | when the last block is freed the heap is one free item again |
| Layout.Apart | P2001-app/src/mem.c:125-163 | items never overlap and stay inside the heap |
| Layout.SplitSums | P2001-app/src/mem.c:340-355 | cutting an item changes the used and free byte totals by exactly the bytes it moves |
| Layout.AbsorbSums | P2001-app/src/mem.c:133-162 | merging changes the used and free byte totals by exactly one header |
| Layout.MarkSums | P2001-app/src/mem.c:368-373 | marking an item moves its bytes between the used and the free total |
| Layout.TakeTotals | P2001-app/src/mem.c:356-358 | an allocation adds exactly the bytes of its block to the used total and never raises the free payload |
| Layout.ReleaseTotals | P2001-app/src/mem.c:553-556 | a free takes exactly the bytes of its block from the used total and never lowers the free payload |
| Layout.RecutTotals | P2001-app/src/memheap.c:421-478 | a resize in place changes the totals by exactly the bytes it moves, less a header that a merge swallows |
| Layout.MaxIsPeak | P2001-app/src/mem.c:356-360 | over every run, reallocs that move included, max is the highest value that used has had: at least every one of them, and equal to one |
| SmallHeapChain.MergeChained | P2001-app/src/mem.c:133-162 | the pointer writes of one merge turn a correct next/prev chain into the chain of the merged layout; the prev field of heap_end is exempt |
| SmallHeapChain.SplitChained | P2001-app/src/mem.c:337-354 | the pointer writes of one split turn a correct chain into the chain of the split layout |
| SmallHeapChain.MarkChained | P2001-app/src/mem.c:373-373 | changing the used tag keeps the chain correct |
| SmallHeapChain.NeedAligned | P2001-app/src/mem.c:299-311 | the rounded request is aligned, at least MIN_SIZE_ALIGNED, and beyond that less than one alignment unit above the request; it covers the request exactly when request + alignment does not exceed the word range, otherwise it is MIN_SIZE_ALIGNED |
| SmallHeapChain.WrappedNeed | P2001-app/src/mem.c:299-311 | a concrete request whose rounding wraps to 0 and that searches for 12 bytes |
| SmallHeap.MergeRep | P2001-app/src/mem.c:133-162 | one merge keeps chain, tiling, alignment and the accounting of used bytes |
| SmallHeap.SplitRep | P2001-app/src/mem.c:337-354 | one split keeps chain, tiling and alignment |
| SmallHeap.TwoMergesRelease | P2001-app/src/mem.c:125-163 | plug_holes (forward merge, then backward merge) is the release of the item in the layout |
| SmallHeap.NoFitBeyond | P2001-app/src/mem.c:313-315 | past the search bound no item can hold the request, so giving up there is right |
| SmallHeap.TakeLowest | P2001-app/src/mem.c:381-388 | advancing lfree after an allocation leaves it at the lowest free item or at heap_end |
| SmallHeap.FreeLowest | P2001-app/src/mem.c:546-550 | the lfree update of free leaves it at the lowest free item |
| SmallHeap.SearchNeverEnds | P2001-app/src/mem.c:313-315 | if the heap is smaller than MIN_SIZE_ALIGNED the unsigned search bound wraps, and every non-zero request that rounds to at most the heap size, or wraps to 0, circles for ever |
| SmallHeap.TinyHeapCircles | P2001-app/src/mem.c:313-315 | a concrete heap of 4 bytes on which a request for 4 bytes and one for 0xFFFFFFFE bytes circle for ever |
| SmallHeap.TinyNumbers | P2001-app/src/mem.c:186-204 | rt_smem_init accepts a concrete range of 48 bytes and computes that size of 4 |
| SmallHeap.BlockRoom | P2001-app/src/mem.c:299-311 | the block an allocation makes holds the request exactly when rounding the request did not wrap around |
| SmallHeap.WrappedRequests | P2001-app/src/mem.c:279-503 | on a fresh heap of 1024 bytes a request for 0xFFFFFFFE bytes gets a block of 12, and a realloc of it to that size frees it |
| SmallHeap.MoveIsAllocThenFree | P2001-app/src/mem.c:494-502 | a moving realloc is an allocation followed by a free, with the peak taken in between |
| SmallHeap.InitFits | P2001-app/src/mem.c:186-204 | an accepted range gives an aligned size that does not underflow; it is accepted exactly when both tests hold, on addresses that wrap around |
| SmallHeap.InitInside | P2001-app/src/mem.c:186-204 | if the heap object does not wrap around, what is accepted lies inside the range, and a range whose end wraps around is refused |
| SmallHeap.SmallHeap.Init | P2001-app/src/mem.c:178-242 | null exactly for refused ranges, otherwise a valid heap of the computed size |
| SmallHeap.SmallHeap.constructor | P2001-app/src/mem.c:206-242 | a fresh heap is one free item followed by heap_end, with used and max 0 |
| SmallHeap.SmallHeap.MergeNext | P2001-app/src/mem.c:133-148 | merges an item with the free item behind it and moves lfree off a header that vanishes |
| SmallHeap.SmallHeap.Cut | P2001-app/src/mem.c:337-354 | writes the header of the rest and links it in |
| SmallHeap.SmallHeap.SkipUsed | P2001-app/src/mem.c:381-388 | the loop that advances lfree stops at the lowest free item |
| SmallHeap.SmallHeap.FindFit | P2001-app/src/mem.c:313-319 | the search loop returns the lowest item that fits, and fails exactly if none does |
| SmallHeap.SmallHeap.Alloc | P2001-app/src/mem.c:279-404 | null exactly for a zero request or when no free item holds the rounded size; otherwise the lowest-address fit, aligned, with room for the request exactly when rounding did not wrap; max is the running peak of used; no live payload changes |
| SmallHeap.SmallHeap.PlugHoles | P2001-app/src/mem.c:125-163 | merges with both free neighbours; the layout becomes the released one |
| SmallHeap.SmallHeap.Free | P2001-app/src/mem.c:512-556 | null is ignored; otherwise exactly the block is released, used shrinks by its header and payload, no other payload changes |
| SmallHeap.SmallHeap.Shrink | P2001-app/src/mem.c:464-492 | resize in place: new boundary, the rest becomes free, no live payload changes |
| SmallHeap.SmallHeap.Move | P2001-app/src/mem.c:494-502 | new block, copy, free: the result carries the old bytes, max is the peak with both blocks live; failure changes nothing |
| SmallHeap.SmallHeap.Resize | P2001-app/src/mem.c:453-502 | stays, shrinks in place or moves, exactly by the test in the source, with the layout and the max of each case |
| SmallHeap.SmallHeap.Realloc | P2001-app/src/mem.c:418-503 | a non-null result holds the first min(old payload, new size) bytes; null for a size that rounds to 0, also by wrap-around, releases the block, null for any other size changes nothing; no other live payload changes; null exactly when the source fails; max and layout of every case |
| Ring.InsertAfterIsInsert | P2001-app/include/rtservice.h:58-65 | the four pointer writes of rt_list_insert_after insert the node at that place of the list |
| Ring.BeforeIsAfterPrevious | P2001-app/include/rtservice.h:73-80 | inserting before a node is inserting after its predecessor |
| Ring.UnlinkIsRemove | P2001-app/include/rtservice.h:86-92 | rt_list_remove takes exactly that node out |
| MemHeapChain.SplitChained | P2001-app/src/memheap.c:230-255 | splitting a block keeps the circular block list in step with the layout |
| MemHeapChain.AbsorbChained | P2001-app/src/memheap.c:653-677 | absorbing the next block keeps the circular block list in step with the layout |
| MemHeap.SplitRefs | P2001-app/src/memheap.c:230-267 | what splitting does to the set of free blocks |
| MemHeap.AbsorbRefs | P2001-app/src/memheap.c:653-681 | what absorbing does to the set of free blocks |
| MemHeap.NoneFits | P2001-app/src/memheap.c:207-221 | if no member of the free list fits, no block of the pool fits |
| MemHeap.Conservation | P2001-app/src/memheap.c:64-140 | used bytes, free payload and free headers always add up to the pool |
| MemHeap.GrowTestIsSound | P2001-app/src/memheap.c:407-421 | the unsigned test takes the grow branch without room exactly if size + MINIALLOC wraps around, the next block is free and the wrapped sum is below the two payloads; for every other size exactly if more than MINIALLOC bytes remain |
| MemHeap.GrowOverwritesHeader | P2001-app/src/memheap.c:421-445 | the header that this branch then writes lies over the header of the very block it resizes |
| MemHeap.GrowWithoutRoomHappens | P2001-app/src/memheap.c:407-421 | a concrete 32-bit pool with a block of 40 bytes, resized to 0xFFFFFFF8 bytes |
| MemHeap.WholePoolIsRefused | P2001-app/src/memheap.c:189-190 | a fresh pool refuses a request for its whole payload, although the block fits, and serves one byte less |
| MemHeap.PoolOf1024Refuses976 | P2001-app/src/memheap.c:189-190 | the same for a concrete pool of 1024 bytes |
| MemHeap.BlockRoom | P2001-app/src/memheap.c:187-187 | the block an allocation makes holds the request exactly when rounding the request did not wrap around |
| MemHeap.MoveIsAllocThenFree | P2001-app/src/memheap.c:488-496 | a moving realloc is an allocation followed by a free, with the peak taken in between |
| MemHeap.ReleaseSteps | P2001-app/src/memheap.c:639-707 | mark, merge left, merge right equals the release of the block in the layout |
| MemHeap.RecutSteps | P2001-app/src/memheap.c:421-572 | the steps of grow and shrink equal the resize in the layout |
| MemHeap.MemHeap.SplitBlock | P2001-app/src/memheap.c:230-255 | links a new header behind a block in the circular list |
| MemHeap.MemHeap.Absorb | P2001-app/src/memheap.c:653-677 | unlinks the header behind a block from the circular list |
| MemHeap.MemHeap.FindFit | P2001-app/src/memheap.c:207-221 | the free-list search returns a block that fits, and fails exactly if none does |
| MemHeap.MemHeap.TakeBlock | P2001-app/src/memheap.c:221-300 | takes the block found, split if the rest can hold a header and MINIALLOC bytes |
| MemHeap.MemHeap.Alloc | P2001-app/src/memheap.c:173-336 | null exactly when the pool has no fitting block or the size gate refuses; otherwise the first fit of the free list is taken, with room for the request exactly when rounding did not wrap; max_used_size is the running peak |
| MemHeap.MemHeap.MergeLeft | P2001-app/src/memheap.c:644-661 | merges with a free block in front |
| MemHeap.MemHeap.MergeRight | P2001-app/src/memheap.c:663-682 | merges with a free block behind |
| MemHeap.MemHeap.Free | P2001-app/src/memheap.c:591-718 | null is ignored; otherwise exactly the block is released and coalesced; the peak is unchanged |
| MemHeap.MemHeap.Grow | P2001-app/src/memheap.c:399-478 | grows in place into the free block behind |
| MemHeap.MemHeap.Shrink | P2001-app/src/memheap.c:515-572 | shrinks in place and frees the rest, coalesced |
| MemHeap.MemHeap.Move | P2001-app/src/memheap.c:488-496 | allocates, copies and frees: null exactly if the allocation is refused, which changes nothing; layout and peak of the move |
| MemHeap.MemHeap.Resize | P2001-app/src/memheap.c:377-581 | null exactly if the block must move and the allocation is refused; grows, shrinks, stays or moves, with the layout and the peak of each case |
| MemHeap.MemHeap.Realloc | P2001-app/src/memheap.c:351-582 | size 0 frees; a null pointer allocates; otherwise grow, shrink, move or stay exactly as the source decides, with the layout and the peak of each case; null exactly when a needed allocation is refused, and then nothing changes; the result holds the request exactly when rounding it did not wrap around |
| MemHeap.WrappedRealloc | P2001-app/src/memheap.c:369-372 | a concrete realloc of a block of 40 bytes to 0xFFFFFFFC bytes, which returns the block as it is |
| MemHeap.MemHeap.constructor | P2001-app/src/memheap.c:64-140 | a fresh pool: one free block and the used tailer |
| IpcList.FindPosition | P2001-app/src/ipc.c:127-147 | the insertion place is behind every waiter at least as urgent and in front of the first less urgent one |
| IpcList.PositionSplits | P2001-app/src/ipc.c:127-147 | in a sorted list that place separates the waiters exactly, so equals are served first come, first served |
| IpcList.InsertKeepsSorted | P2001-app/src/ipc.c:109-156 | inserting there keeps the suspend list sorted by priority |
| IpcList.RemoveKeepsSorted | P2001-app/src/ipc.c:178-191 | resuming a thread keeps the suspend list sorted |
| IpcList.QueuedInsert | P2001-app/src/ipc.c:109-156 | inserting keeps the list in order of priority with first-come ties |
| IpcList.QueuedMinus | P2001-app/include/rtservice.h:86-92 | unlinking any node keeps that order |
| MessageLog.OrdinaryFifo | P2001-app/src/ipc.c:2843-2854 | ordinary messages leave the queue in the order in which they were linked, whatever is sent urgently or dropped |
| MessageLog.UrgentInFront | P2001-app/src/ipc.c:2977-2983 | urgent messages always stand in front of ordinary ones |
| MessageLog.NothingLost | P2001-app/src/ipc.c:2726-3183 | messages linked = messages taken or dropped + messages queued, as multisets |
| MessageQueue.NodesAddUp | P2001-app/src/ipc.c:2726-3183 | queued nodes, free nodes and nodes held by a thread add up to max_msgs |
| MessageQueue.EntryNeverOverflows | P2001-app/src/ipc.c:2856-2865 | a thread about to link finds entry below max_msgs, so the -RT_EFULL overflow branches are dead |
| MessageQueue.NoLostWakeup | P2001-app/src/ipc.c:2726-3183 | while a message is queued and a receiver waits, some receiver has been resumed; the same for senders and free nodes |
| MessageQueue.ReceivedIsSent | P2001-app/src/ipc.c:3153-3154 | what a receiver has copied so far is the beginning of a message that is among those sent |
| MessageQueue.StepTaken | P2001-app/src/ipc.c:3135-3154 | every step keeps the messages that receivers have taken in the history |
| MessageLog.TakenWasLinked | P2001-app/src/ipc.c:2726-3183 | whatever a history takes out it has linked before |
| MessageQueue.NeverStuck | P2001-app/src/ipc.c:2726-3246 | every enabled step of every thread can be carried out |
| MessageQueue.ClaimedInv | P2001-app/src/ipc.c:2830-2831 | taking a node off the free list keeps the invariant and makes the thread its only owner |
| MessageQueue.CopiedInInv | P2001-app/src/ipc.c:2838-2839 | every single byte copied outside the lock keeps the invariant |
| MessageQueue.LinkedLastInv | P2001-app/src/ipc.c:2843-2860 | linking at the tail keeps the invariant |
| MessageQueue.LinkedFirstInv | P2001-app/src/ipc.c:2977-2989 | linking at the head keeps the invariant |
| MessageQueue.DequeuedInv | P2001-app/src/ipc.c:3135-3148 | unlinking the first message keeps the invariant |
| MessageQueue.CopiedOutInv | P2001-app/src/ipc.c:3153-3154 | every single byte copied out outside the lock keeps the invariant |
| MessageQueue.FreedInv | P2001-app/src/ipc.c:3158-3160 | returning the node to the free list keeps the invariant |
| MessageQueue.ResetInv | P2001-app/src/ipc.c:3210-3246 | a reset keeps the invariant and leaves an empty queue without waiters |
| MessageQueue.InitialInv | P2001-app/src/ipc.c:2463-2514 | the queue that rt_mq_init builds satisfies the invariant |
| MessageQueue.StepInv | P2001-app/src/ipc.c:2726-3246 | every action of every thread, preempted at every point where interrupts are enabled, keeps the invariant |
| MessageQueue.RunInv | P2001-app/src/ipc.c:2463-3246 | in every state of every interleaving the invariant holds, every message taken is in the history, and a queue by priority keeps both suspend lists in order of priority |
| MessageQueue.SentAsAsked | P2001-app/src/ipc.c:2726-3013 | in every run the end of rt_mq_send_wait puts the very message of the call to the end of the queue, the end of rt_mq_urgent puts it to the front, and nothing else puts anything into the queue |
| MessageQueue.CallOutcome | P2001-app/src/ipc.c:2756-3151 | by the state before: a send takes the first free node, else gives up or waits at its place; an urgent send takes a node or gives up; a receive takes the first message, else gives up or waits |
| MessageQueue.EndOutcome | P2001-app/src/ipc.c:2841-3183 | the call returns and exactly the first waiting thread of the other side, if any, is resumed |
| MessageQueue.CopyOutcome | P2001-app/src/ipc.c:2838-3154 | each copy step moves exactly one byte between the call and its own node |
| MessageQueue.TimeoutOutcome | P2001-app/src/ipc.c:2796-2820 | a timeout fails exactly its own call and takes it out of its list |
| MessageQueue.ResetOutcome | P2001-app/src/ipc.c:3210-3218 | a reset fails exactly the calls that wait |
| MessageQueueObject.Queue.constructor | P2001-app/src/ipc.c:2463-2514 | the initialisation loop strings all nodes onto the free list |
| MessageQueueObject.Queue.TrySend | P2001-app/src/ipc.c:2756-2834 | the locked loop head of send: take a node, wait at the end of the list or behind all at least as urgent, or time out |
| MessageQueueObject.Queue.SendLink | P2001-app/src/ipc.c:2841-2884 | the locked tail of send |
| MessageQueueObject.Queue.UrgentEnter | P2001-app/src/ipc.c:2952-2969 | the locked head of urgent |
| MessageQueueObject.Queue.UrgentLink | P2001-app/src/ipc.c:2974-3013 | the locked tail of urgent |
| MessageQueueObject.Queue.TryRecv | P2001-app/src/ipc.c:3061-3151 | the locked loop head of receive, with the same places for waiters |
| MessageQueueObject.Queue.RecvFinish | P2001-app/src/ipc.c:3156-3183 | the locked tail of receive |
| MessageQueueObject.Queue.Control | P2001-app/src/ipc.c:3201-3249 | reset: everybody is resumed, every message dropped |
| Mutex.NoPriorityInversion | P2001-app/src/ipc.c:982-993 | in every reachable state the owner is at least as urgent as every waiter |
| Mutex.TakenInv | P2001-app/src/ipc.c:896-1041 | every branch of take keeps ownership, hold count, queue order and inheritance consistent |
| Mutex.ReleasedInv | P2001-app/src/ipc.c:1079-1187 | every branch of release keeps them |
| Mutex.SuspendedInherits | P2001-app/src/ipc.c:982-993 | blocking lends the owner the urgency of the most urgent of those that waited for it |
| Mutex.HandOverInherits | P2001-app/src/ipc.c:1131-1156 | the new owner is the most urgent waiter and starts at its own priority |
| Mutex.ExpiredInv | P2001-app/src/ipc.c:1013-1024 | a timeout takes out one waiter and keeps the invariant |
| Mutex.AcquireNeverFull | P2001-app/src/ipc.c:952-960 | the overflow branch when the mutex is free is dead |
| Mutex.ReleaseNeverFull | P2001-app/src/ipc.c:1145-1171 | both overflow branches of release are dead |
| Mutex.ReleaseRestores | P2001-app/src/ipc.c:1120-1128 | the final release restores the priority recorded at acquisition and touches nobody else |
| Mutex.TakeOutcome | P2001-app/src/ipc.c:920-1013 | by the state before: a take succeeds exactly if the mutex is free or its own with a hold to spare, is full exactly if its own without, times out exactly if it belongs to another and time is 0, and blocks otherwise |
| Mutex.TakeEffect | P2001-app/src/ipc.c:920-1013 | what each of these does to owner, hold, waiters and priorities; a failed take changes nothing |
| Mutex.ReleaseOutcome | P2001-app/src/ipc.c:1100-1176 | a release succeeds exactly if the thread owns the mutex; one that is not final counts the hold down and changes nothing else |
| Mutex.ExpireOutcome | P2001-app/src/ipc.c:1013-1024 | a timeout fails exactly its waiter and takes it out of the list; owner and priorities stay |
| Mutex.HandsToMostUrgent | P2001-app/src/ipc.c:1131-1156 | the final release hands the mutex to the most urgent waiter, the longest waiting among equals, and resumes only it |
| Mutex.ReleaseFrees | P2001-app/src/ipc.c:1160-1176 | with nobody waiting the mutex becomes free |
| Mutex.InitialInv | P2001-app/src/ipc.c:725-747 | a fresh mutex satisfies the invariant |
| Mutex.StepInv | P2001-app/src/ipc.c:896-1187 | take, release and expiry by any thread keep the invariant |
| Mutex.RunInv | P2001-app/src/ipc.c:896-1187 | value is 1 iff nobody owns iff hold is 0, waiters are in order of priority with first-come ties, and inheritance holds, in every state of every run |
| Mutex.SecondMutexKeepsProtection | P2001-app/src/ipc.c:1120-1128 | if the owner also holds another mutex, releasing this one protects the waiters of the other exactly when the recorded priority is at least as urgent as theirs |
| Mutex.SecondMutexDropsBoost | P2001-app/src/ipc.c:896-1187 | a run of two mutexes that loses that protection: the owner of both, boosted by a waiter of the one, releases the other |
| MutexObject.MutexObject.constructor | P2001-app/src/ipc.c:725-747 | rt_mutex_init |
| MutexObject.MutexObject.Take | P2001-app/src/ipc.c:896-1041 | the field updates of take are the step of the state machine |
| MutexObject.MutexObject.Release | P2001-app/src/ipc.c:1079-1187 | the field updates of release are the step of the state machine |
| Event.WokenInv | P2001-app/src/ipc.c:1492-1502 | waking one waiter, which may consume bits, leaves the earlier unsatisfied waiters unsatisfied |
| Event.WalkInv | P2001-app/src/ipc.c:1454-1508 | after the walk no suspended thread has a condition that holds |
| Event.WalkLog | P2001-app/src/ipc.c:1454-1508 | every waiter is either still waiting or was woken, and only waiters from the place on are woken |
| Event.WalkAgain | P2001-app/src/ipc.c:1454-1508 | a second walk changes nothing |
| Event.AnswerMeaning | P2001-app/src/ipc.c:1464-1482 | a woken AND receiver gets all its bits, an OR receiver exactly the bits of its own that are set, at least one |
| Event.SendOutcome | P2001-app/src/ipc.c:1447-1508 | the bits are added, then the waiters are served in list order, each answered exactly if its condition holds under what those before it have left; nobody else is touched |
| Event.FirstIsServed | P2001-app/src/ipc.c:1454-1502 | the first waiter whose condition holds once the bits are added gets its answer and leaves the list |
| Event.RecvOutcome | P2001-app/src/ipc.c:1583-1651 | by the bits before: an empty request fails, one that holds is answered with its bits and consumes them only with CLEAR, any other times out at time 0 and waits otherwise |
| Event.ExpireOutcome | P2001-app/src/ipc.c:1655-1659 | a timeout fails exactly its waiter and takes it out of the list |
| Event.ResetOutcome | P2001-app/src/ipc.c:1691-1719 | a reset clears the bits and fails exactly the calls that wait |
| Event.ConsumedOnce | P2001-app/src/ipc.c:1498-1499 | a bit consumed by a CLEAR receiver reaches a later receiver only if it was sent again in between |
| Event.ReceivedWasSent | P2001-app/src/ipc.c:1429-1673 | nobody receives a bit that was never sent |
| Event.TookNowInv | P2001-app/src/ipc.c:1602-1615 | receiving at once satisfies no waiter |
| Event.RecvInv | P2001-app/src/ipc.c:1583-1673 | every branch of receive keeps the invariant |
| Event.SendInv | P2001-app/src/ipc.c:1447-1508 | send keeps the invariant |
| Event.ResetInv | P2001-app/src/ipc.c:1691-1719 | reset keeps the invariant |
| Event.RunInv | P2001-app/src/ipc.c:1429-1719 | in every state of every run nobody waits for a condition that holds, and the history explains the event set |
| EventObject.EventObject.WakeAll | P2001-app/src/ipc.c:1454-1508 | the list walk with its flag tests refines the recursive walk |
| EventObject.EventObject.Send | P2001-app/src/ipc.c:1429-1518 | rt_event_send refines the step; set 0 is an error that changes nothing |
| EventObject.EventObject.Recv | P2001-app/src/ipc.c:1554-1673 | rt_event_recv up to the point where it returns or blocks |
| EventObject.EventObject.Control | P2001-app/src/ipc.c:1691-1719 | rt_event_control with RT_IPC_CMD_RESET |
| Ffs.FfsTableLowest | P2001-app/src/kservice.c:1696-1740 | the 256-entry table variant returns one more than the lowest set bit of every non-zero word |
| Ffs.FfsVariantsAgree | P2001-app/src/kservice.c:1672-1740 | the mod-37 variant agrees with the table variant on every word |
| Ffs.TinyEntryOfPower | P2001-app/src/kservice.c:1672-1694 | the 37-entry table maps the remainder of each power of two to its place |
| ReadyIndex.SetHas | P2001-app/src/scheduler.c:736-740 | setting the masks of a thread sets exactly the bit of its priority, in one level or two |
| ReadyIndex.ClearHas | P2001-app/src/scheduler.c:823-834 | clearing them clears exactly that bit |
| ReadyIndex.SetOk | P2001-app/src/scheduler.c:736-740 | the group word stays the summary of the table |
| ReadyIndex.ClearOk | P2001-app/src/scheduler.c:823-834 | the group word stays the summary of the table |
| ReadyIndex.HighestIsMin | P2001-app/src/scheduler.c:162-184 | the lookup finds the most urgent priority whose bit is set, in one level or two |
| ReadyIndex.NothingSet | P2001-app/src/scheduler.c:430-430 | an empty group word means that no bit is set |
| Scheduler.InitialInv | P2001-app/src/scheduler.c:190-235 | the initialised scheduler satisfies the invariant |
| Scheduler.AttachedCore | P2001-app/src/scheduler.c:711-747 | inserting a thread keeps: READY iff linked in the list of its priority, bit set iff list non-empty |
| Scheduler.DetachedCore | P2001-app/src/scheduler.c:808-838 | removing a thread, linked or not, keeps them |
| Scheduler.MostUrgentIsMin | P2001-app/src/scheduler.c:162-184 | the lookup yields the minimum ready priority |
| Scheduler.ScheduledInv | P2001-app/src/scheduler.c:416-538 | rt_schedule keeps the invariant |
| Scheduler.SwitchedQueues | P2001-app/src/scheduler.c:454-469 | a switch moves the old thread to the end of its list and takes the head of the new one, nothing else |
| Scheduler.CurrentIsMostUrgent | P2001-app/src/scheduler.c:416-538 | after an unlocked rt_schedule the current thread is at least as urgent as every ready thread |
| Scheduler.YieldRotates | P2001-app/src/thread.c:486-499 | one yield rotates the threads that share the most urgent priority by one |
| Scheduler.RoundRobin | P2001-app/src/thread.c:486-499 | of any k consecutive schedules each of the k sharing threads gets exactly one, and the cyclic order comes back, for every k and run length |
| Scheduler.StartedInv | P2001-app/src/thread.c:293-325 | startup keeps the invariant |
| Scheduler.PausedInv | P2001-app/src/thread.c:771-806 | suspend keeps the invariant and leaves the thread SUSPENDed |
| Scheduler.SleptInv | P2001-app/src/thread.c:511-541 | sleep and timed waits keep the invariant: the timer runs only while the thread is suspended |
| Scheduler.WokenInv | P2001-app/src/thread.c:821-893 | resume and timeout keep the invariant |
| Scheduler.ChangedInv | P2001-app/src/thread.c:667-709 | a priority change keeps the invariant for a thread in any state |
| Scheduler.ExitedInv | P2001-app/src/thread.c:78-106 | thread exit keeps the invariant |
| Scheduler.BegunInv | P2001-app/src/scheduler.c:241-266 | starting the scheduler keeps the invariant |
| Scheduler.StartedEffect | P2001-app/src/thread.c:293-325 | the started thread is ready at its initial priority with the masks of it, last in that list; no other thread and no other list changes |
| Scheduler.PausedEffect | P2001-app/src/thread.c:795-806 | only the thread changes: suspended, timer stopped, out of its ready list |
| Scheduler.SleptEffect | P2001-app/src/thread.c:521-531 | the current thread is suspended with its timer running; no other thread and no list changes |
| Scheduler.WokenEffect | P2001-app/src/thread.c:840-850 | only the thread changes: ready and last in its list, or running if it is the current one; its timer stops |
| Scheduler.CallsAct | P2001-app/src/thread.c:785-834 | rt_thread_suspend acts exactly on a ready or running thread, rt_thread_resume exactly on a suspended one; otherwise nothing changes |
| Scheduler.ChangedEffect | P2001-app/src/thread.c:667-709 | only priority and masks of the thread change, to the new priority and its masks; a ready thread leaves its list and is last in the new one |
| Scheduler.ExitedEffect | P2001-app/src/thread.c:78-106 | the exiting thread is closed, in no ready list and without a timer; nothing else changes |
| Scheduler.BegunEffect | P2001-app/src/scheduler.c:241-266 | the first of the most urgent threads becomes the running one and leaves its list |
| Scheduler.ScheduleOutcome | P2001-app/src/scheduler.c:430-469 | by the state before: a running thread that is more urgent than all ready ones, or as urgent and has not yielded, stays; otherwise it joins the end of its list and the head of the most urgent list runs |
| Scheduler.TimerMeansSuspended | P2001-app/src/thread.c:873-873 | the assertion in rt_thread_timeout never fails |
| Scheduler.StepInv | P2001-app/src/thread.c:293-893 | every operation keeps the invariant |
| Scheduler.RunInv | P2001-app/src/thread.c:293-893 | READY iff linked in the ready list of the current priority, RUNNING only if current, the current thread in no ready list, timers only on suspended threads, masks and bitmap right, in every state of every run |
| SchedulerObject.SchedulerObject.constructor | P2001-app/src/scheduler.c:190-235 | the loops of rt_system_scheduler_init |
| SchedulerObject.SchedulerObject.Insert | P2001-app/src/scheduler.c:711-747 | rt_schedule_insert_thread refines the step |
| SchedulerObject.SchedulerObject.Remove | P2001-app/src/scheduler.c:808-838 | rt_schedule_remove_thread refines the step |
| SchedulerObject.SchedulerObject.Pick | P2001-app/src/scheduler.c:162-184 | returns the head of the most urgent non-empty list |
| SchedulerObject.SchedulerObject.Schedule | P2001-app/src/scheduler.c:416-538 | rt_schedule refines the step |
| SchedulerObject.SchedulerObject.Startup | P2001-app/src/thread.c:293-325 | rt_thread_startup refines the step |
| SchedulerObject.SchedulerObject.Suspend | P2001-app/src/thread.c:771-806 | an error without change unless READY or RUNNING, else the thread is suspended |
| SchedulerObject.SchedulerObject.Resume | P2001-app/src/thread.c:821-853 | an error without change unless SUSPENDed, else the thread becomes ready, or running if it is current |
| SchedulerObject.SchedulerObject.Timeout | P2001-app/src/thread.c:864-893 | rt_thread_timeout refines the step |
| SchedulerObject.SchedulerObject.Sleep | P2001-app/src/thread.c:511-541 | rt_thread_sleep refines the step |
| SchedulerObject.SchedulerObject.ChangePriority | P2001-app/src/thread.c:667-709 | the ready thread changes lists, any other thread only its fields |
| SchedulerObject.SchedulerObject.Yield | P2001-app/src/thread.c:486-499 | rt_thread_yield refines the step |
| SchedulerObject.SchedulerObject.Exit | P2001-app/src/thread.c:78-106 | _thread_exit refines the step |
| SchedulerObject.SchedulerObject.Begin | P2001-app/src/scheduler.c:241-266 | rt_system_scheduler_start refines the step |
| SchedulerObject.SchedulerObject.EnterCritical | P2001-app/src/scheduler.c:884-899 | rt_enter_critical counts the lock up and changes nothing else |
| SchedulerObject.SchedulerObject.ExitCritical | P2001-app/src/scheduler.c:948-973 | rt_exit_critical schedules exactly when the last lock is released |
| TimerSearch.AfterIsLater | P2001-app/src/timer.c:427-431 | the unsigned test on wrapped ticks decides the true order within the window |
| TimerSearch.ReachedIsPast | P2001-app/src/timer.c:612-612 | the expiry test on wrapped ticks decides whether the moment has come |
| TimerSearch.NearIsExact | P2001-app/src/timer.c:427-431 | for two moments less than 2^32 ticks apart the comparison is right exactly when the later one plus RT_TICK_MAX/2 is at most 2^32 behind the earlier one |
| TimerSearch.SlackIsExact | P2001-app/src/timer.c:427-431 | an overdue timer is ordered correctly against every timer that may be started exactly when it is at most three ticks late |
| TimerSearch.PositionIs | P2001-app/src/timer.c:410-438 | the true place is behind every timer due no later and in front of the next one |
| TimerSearch.PositionUnique | P2001-app/src/timer.c:410-438 | there is only one such place, so it is that of a stable linear insertion |
| TimerSearch.ScanIsPosition | P2001-app/src/timer.c:413-435 | the linear search of a row on wrapped ticks finds the true place exactly when the earliest timer, if due no later, is near |
| TimerSearch.SearchIsExact | P2001-app/src/timer.c:409-438 | the nested search of the skip list finds the true place in every row exactly when the earliest timer of the sparsest row that lists one due no later is near; otherwise it stops at the front of the last row, which is wrong |
| Timer.BottomArmed | P2001-app/src/timer.c:447-448 | the last row becomes what a stable linear insertion by timeout gives if the start is in reach, and gets the timer at its front if not |
| Timer.ArmedShape | P2001-app/src/timer.c:395-461 | wherever the search leads, insertion keeps rows without doubles, each a part of the row below, and the last one complete |
| Timer.ArmedRow | P2001-app/src/timer.c:447-459 | where the search is right, a row stays sorted and gains the timer exactly if its height reaches it |
| Timer.ArmedInv | P2001-app/src/timer.c:395-461 | insertion keeps all rows in order exactly if the timer is in reach |
| Timer.DroppedInv | P2001-app/src/timer.c:166-174 | removal keeps them in order |
| Timer.StartedEffect | P2001-app/src/timer.c:384-461 | the timer is due init_tick ticks from now whether or not it was running; no other timer changes, nor the order of the others in any row |
| Timer.StoppedEffect | P2001-app/src/timer.c:496-520 | a running timer leaves all rows, one that is not running is left as it is; no other timer changes, nor the order of the others |
| Timer.HeightIs | P2001-app/src/timer.c:449-459 | a timer gets into one more row for every pair of zero bits at the low end of the start counter |
| Timer.StartedInv | P2001-app/src/timer.c:365-486 | rt_timer_start keeps all rows in order exactly if the start is in reach |
| Timer.StoppedInv | P2001-app/src/timer.c:496-520 | rt_timer_stop keeps the invariant |
| Timer.DueIsPrefix | P2001-app/src/timer.c:603-612 | in a list in order the due timers are exactly the first ones of the last row |
| Timer.FiredInv | P2001-app/src/timer.c:603-645 | one round keeps all rows in order exactly if the timer it starts again is in reach |
| Timer.MissedStops | P2001-app/src/timer.c:603-645 | a round out of reach puts its timer in front of a due one, and the loop stops there |
| Timer.FiredPrefix | P2001-app/src/timer.c:603-645 | one round in reach fires the first timer; the other due timers keep their order, and re-arming puts the timer behind them |
| TimerCheck.CheckFiresDue | P2001-app/src/timer.c:587-654 | a check that ends, with every re-armed timer in reach, fires exactly the active timers whose moment has come, once each in timeout order with first-started ties, re-arms periodic ones at now + init_tick, drops one-shots and leaves none due |
| TimerCheck.CheckKeepsOrder | P2001-app/src/timer.c:587-654 | a check that ends keeps the list in order, and leaves no timer due, exactly if every timer it re-arms is in reach |
| TimerCheck.CheckEnds | P2001-app/src/timer.c:603-645 | the loop goes on for ever exactly if a periodic timer that is due has period 0 and every timer it re-arms is in reach |
| TimerCheck.CheckNeverEnds | P2001-app/src/timer.c:603-645 | in that case it calls a timeout function in every one of any number of rounds |
| TimerCheck.FiredNear | P2001-app/src/timer.c:639-645 | every round, also one of period 0, keeps the due periodic timers comparable with the timers behind them |
| TimerCheck.NearIsOrderly | P2001-app/src/timer.c:639-645 | if each due periodic timer can be compared with the timers behind it, everything the check re-arms is in reach |
| TimerCheck.OneRowOrderly | P2001-app/src/timer.c:603-645 | for a list of one row, the default, exactly then |
| TimerCheck.PunctualIsInReach | P2001-app/src/timer.c:427-431 | if no timer is more than three ticks late, every start is in reach and so is everything a check re-arms |
| TimerCheck.StartMisorders | P2001-app/src/timer.c:409-448 | a concrete reachable state in which a start puts a timer in front of one that is due long before it |
| TimerCheck.CheckLeavesDue | P2001-app/src/timer.c:603-645 | a concrete reachable state with a due timer of period 0 in which the check ends and leaves that timer due and unfired |
| TimerCheck.ZeroPeriodRun | P2001-app/src/timer.c:365-645 | a concrete reachable state in which the check does not end |
| TimerCheck.StepInv | P2001-app/src/timer.c:365-654 | an operation leaves a list that is in order in order exactly if a start is in reach, a check re-arms in reach, or a tick makes no timer too late for the expiry test |
| TimerCheck.RunShape | P2001-app/src/timer.c:365-654 | rows without doubles, each a part of the row below, and the last one complete, in every state of every run |
| TimerCheck.RunInv | P2001-app/src/timer.c:365-654 | all states of a run are in order exactly if every step before had what StepInv says |
| TimerObject.TimerObject.Remove | P2001-app/src/timer.c:166-174 | the loop takes the timer out of every row |
| TimerObject.TimerObject.Find | P2001-app/src/timer.c:436-437 | the node one row further down exists because the row above lists a part of the row below |
| TimerObject.TimerObject.SearchRow | P2001-app/src/timer.c:413-435 | the inner loop stops at the first timer that compares as later |
| TimerObject.TimerObject.Search | P2001-app/src/timer.c:410-438 | the nested search, for rows in any order, refines the search whose exactness is proved |
| TimerObject.TimerObject.Insert | P2001-app/src/timer.c:444-459 | the insertion loop reaches exactly the rows that the bits of the counter select |
| TimerObject.TimerObject.Start | P2001-app/src/timer.c:365-486 | rt_timer_start on wrapped ticks refines the step in every state; it keeps the order exactly if in reach |
| TimerObject.TimerObject.Stop | P2001-app/src/timer.c:496-520 | an error without change for an inactive timer, else it leaves all rows |
| TimerObject.TimerObject.Check | P2001-app/src/timer.c:587-654 | the expiry loop on wrapped ticks refines the step whenever it ends; in order and in reach it calls exactly the due timers in order |
| Pages.ListUnique | P2001-app/src/slab.c:252-297 | the page list is determined by the set of free pages |
| Pages.TakeIsLowestFit | P2001-app/src/slab.c:211-242 | allocation takes the lowest contiguous fit and nothing else, and fails exactly if there is none |
| Pages.PutAddsExactly | P2001-app/src/slab.c:252-297 | freeing adds exactly the given pages and keeps the list canonical |
| Pages.PutBeside | P2001-app/src/slab.c:267-267 | the assertion that freed pages lie on one side of every run never fails |
| Pages.TakePutIdentity | P2001-app/src/slab.c:211-297 | freeing what was just allocated restores the identical list |
| SlabZone.ZoneIndexFits | P2001-app/src/slab.c:408-466 | index below 72, chunk at least the request, waste below 8 bytes or an eighth of the request |
| SlabZone.ChunksGrow | P2001-app/src/slab.c:408-466 | chunk sizes grow strictly with the index |
| SlabZone.SameIndexSameChunk | P2001-app/src/slab.c:408-466 | equal zone index iff equal chunk size |
| SlabZone.ClassFits | P2001-app/src/slab.c:622-637 | every class leaves room for at least two chunks behind the header |
| SlabZone.NewZoneOk | P2001-app/src/slab.c:619-641 | a new zone is consistent with its first chunk handed out |
| SlabZone.CarvedZoneOk | P2001-app/src/slab.c:546-570 | a chunk handed out was not live, and the counters stay exact |
| SlabZone.ReturnedZoneOk | P2001-app/src/slab.c:786-800 | a chunk given back leaves the counters exact; nfree reaches nmax exactly when no chunk is live |
| SlabZone.ChunksApart | P2001-app/src/slab.c:558-570 | chunks of a zone do not overlap |
| SlabZone.ChunkInside | P2001-app/src/slab.c:622-637 | chunks lie behind the header and inside the zone |
| SlabZone.PowerClass | P2001-app/src/slab.c:408-466 | a power-of-two request gets a chunk of just that size, or of 8 bytes if it is smaller |
| SlabZone.ChunkAligned | P2001-app/src/slab.c:622-631 | a chunk of power-of-two size is aligned to whatever divides chunk and page size |
| Slab.FreeFindsZone | P2001-app/src/slab.c:782-784 | the usage entry of the page of a chunk leads to the very zone it came from |
| Slab.FreeFindsBlock | P2001-app/src/slab.c:759-776 | the usage entry of a large block gives its length |
| Slab.AllocIs | P2001-app/src/slab.c:487-653 | the block is a chunk of the class of the request, or whole pages, was not live, and no other block changes; failure exactly for size 0, for a size whose pages overflow the word, or when no run of pages (or chunk, or idle zone) is left |
| Slab.AllocAligned | P2001-app/src/slab.c:101-103 | for a power-of-two size every allocation, in every heap that starts at a page, is aligned to its size exactly when the size is at most a page |
| Slab.AlignmentPromiseFails | P2001-app/src/slab.c:101-103 | the first request for 8192 bytes after initialisation gets the block at 0x1000 |
| Slab.FreedIs | P2001-app/src/slab.c:736-853 | exactly the block is freed; at most two idle zones are kept |
| Slab.FreedZone | P2001-app/src/slab.c:786-851 | a zone that is empty now leaves its list exactly if another zone stands there, and waits on the idle list, or gives exactly its pages back if two zones wait; any other zone stays at hand |
| Slab.FreedPages | P2001-app/src/slab.c:761-779 | freeing a large block gives exactly its pages back and leaves the zones alone |
| Slab.AllocFrom | P2001-app/src/slab.c:536-616 | a small request is served by the first zone of its list, else by the first idle zone, else by a new one on the lowest free pages |
| Slab.LargePagesHold | P2001-app/src/slab.c:503-505 | the pages of a large request hold it with less than a page to spare, unless rounding wraps around: then there are none |
| Slab.BlocksApart | P2001-app/src/slab.c:487-853 | live blocks never overlap |
| Slab.TookLargeCore | P2001-app/src/slab.c:503-526 | a large allocation keeps page ownership, usage table, zones and accounting consistent |
| Slab.PutLargeCore | P2001-app/src/slab.c:761-779 | freeing a large block keeps them |
| Slab.AcquiredCore | P2001-app/src/slab.c:597-616 | reserving pages for a zone keeps them |
| Slab.ActivatedCore | P2001-app/src/slab.c:590-650 | turning an idle zone into a zone of a class keeps them |
| Slab.HandedCore | P2001-app/src/slab.c:541-577 | handing out a chunk keeps them; the zone leaves its list exactly when it is full |
| Slab.ReturnedCore | P2001-app/src/slab.c:786-800 | taking a chunk back keeps them; the zone rejoins its list exactly when it was full |
| Slab.RetiredCore | P2001-app/src/slab.c:808-828 | moving an empty zone to the idle list keeps them |
| Slab.DiscardedCore | P2001-app/src/slab.c:831-851 | giving an idle zone back to the page list keeps them |
| Slab.LargeAllocFreeIdentity | P2001-app/src/slab.c:503-779 | freeing a large block just allocated restores the identical page list |
| Slab.InitialInv | P2001-app/src/slab.c:321-380 | the initialised allocator satisfies the invariant |
| Slab.RunInv | P2001-app/src/slab.c:487-853 | z_nfree exact, zone listed iff it has free chunks, used equal to the sum of live sizes, at most two idle zones, after every run |
| Slab.MaxIsPeak | P2001-app/src/slab.c:521-523 | over every run max is the highest number of bytes in use: at least every one of them, and equal to one |
| SlabObject.ChooseZoneSize | P2001-app/src/slab.c:359-361 | the loop picks the smallest of the three zone sizes that the heap size allows |
| SlabObject.UnlinkZone | P2001-app/src/slab.c:817-819 | the unlinking loop removes exactly that zone |
| SlabObject.SlabObject.Init | P2001-app/src/slab.c:321-380 | null exactly when no whole page lies between the object and the end of the range; otherwise an empty allocator of exactly the pages between |
| SlabObject.HeapRange | P2001-app/src/slab.c:329-333 | both ends lie on pages; without wrap-around the pages lie behind the object and inside the range |
| SlabObject.SlabObject.constructor | P2001-app/src/slab.c:341-380 | the rest of rt_slab_init, for a number of pages |
| SlabObject.SlabObject.PageAlloc | P2001-app/src/slab.c:211-242 | the page search loop refines TakePages |
| SlabObject.SlabObject.PageFree | P2001-app/src/slab.c:252-297 | the page insertion loop refines PutPages |
| SlabObject.SlabObject.Alloc | P2001-app/src/slab.c:487-653 | rt_slab_alloc refines the step |
| SlabObject.SlabObject.Free | P2001-app/src/slab.c:736-853 | rt_slab_free refines the step; null is ignored |
| CallGraph.CallerBounded | P2001-app/tools/WCS.py:259-290 | with no pointer call of its own and bounded callees a function is bounded, even through call cycles |
| CallGraph.CalleeUnbounded | P2001-app/tools/WCS.py:278-281 | an unbounded callee makes the caller unbounded |
| CallGraph.CycleIsUnbounded | P2001-app/tools/WCS.py:264-267 | a function found again among its callers is on a cycle |
| CallGraph.CallerWorst | P2001-app/tools/WCS.py:269-290 | own stack plus the largest callee is the maximum sum of local stacks over all call paths |
| CallGraph.CallerUnknown | P2001-app/tools/WCS.py:286-288 | own unresolved calls and those of the callees are those of everything reachable |
| Wcs.ResolveCalls | P2001-app/tools/WCS.py:224-233 | each called name gives its function or is unresolved, exactly |
| Wcs.Analysis.Calc | P2001-app/tools/WCS.py:246-290 | terminates on every graph; everything stored is right although callers are unfinished |
| Wcs.Analysis.CalcAll | P2001-app/tools/WCS.py:292-299 | afterwards every function is unbounded exactly if it reaches a pointer call or a cycle, else has the exact maximum and unresolved set |
| Wcs.EndDone | P2001-app/tools/WCS.py:290-290 | the value stored at the end is right for every bounded function |
| Romfs.ImageRoundTrip | P2001-app/tools/mkromfs.py:233-244 | for every tree with NUL-free names and every base address below the limit, reading the image back from its root entry gives the tree |
| Romfs.NodeRead | P2001-app/tools/mkromfs.py:165-214 | every dirent leads to its name, type and data |
| Romfs.NameRead | P2001-app/tools/mkromfs.py:31-36 | a padded name reads back as the name |
| Romfs.ExtentsChain | P2001-app/tools/mkromfs.py:165-214 | dirent tables, names, data and padding fill the contents of a node exactly, without gap or overlap |
| Romfs.ImageChain | P2001-app/tools/mkromfs.py:233-244 | with the root entry and its name they fill the whole image exactly |
| Romfs.ChainApart | P2001-app/tools/mkromfs.py:165-214 | two different regions have no byte in common |
| Romfs.SmallFits | P2001-app/tools/mkromfs.py:206-210 | struct.pack accepts everything if the image ends below 4 GB |
| Romfs.BuildData | P2001-app/tools/mkromfs.py:165-214 | the recursive loop builds exactly the specified bytes, or fails exactly if a number does not fit |
| Romfs.BuildImage | P2001-app/tools/mkromfs.py:233-244 | get_bin_data builds exactly the specified image |

## Left out

- SMP code and every `RT_USING_SMP` branch, and signals (`RT_USING_SIGNALS`): they rest on hardware context switches.
- Hardware context switch, stacks and interrupt nesting: a switch changes the current thread.
- Hooks, debug output, memtrace names, finsh commands and object names: diagnostics only.
- Semaphore, mailbox and memory pool: simpler instances of the message queue and the mutex.
- Creating, deleting and detaching IPC objects, threads, timers and heaps.  rt_thread_detach unlinks the thread and
  marks it closed in two separate locked sections; that interleaving is not part of the state machine.
- Scheduler.StepInv: the state test of rt_thread_suspend and rt_thread_resume runs before interrupts are disabled; the
  model makes test and change one step.  Which IPC list a suspended thread waits in is not modelled here.
- Mutex.RunInv: each thread holds at most this mutex, and nobody else changes priorities; holding a second one is
  treated by the two SecondMutex lemmas.  A waiter's place is not revised when its own priority is raised, as in the code.
- Event.RunInv: an event that queues first-in first-out gives all threads the same key, so the order is that of arrival.
- MessageQueue.RunInv: the copies outside the lock are single-byte steps; a queue of mixed message sizes is one of fixed msg_size, as in the source.
- MemHeap: the header is a multiple of the alignment and at least MINIALLOC bytes.
- MemHeap.MemHeap.Realloc: payload bytes and the semaphore of the heap are not modelled; the byte-level result of realloc is
  proved for the small heap only.
- MemHeap.MemHeap.Resize: a size for which the wrapped test grows the block without room; what the source then overwrites
  is its own header, after which the lists mean nothing.  The same holds for MemHeap.MemHeap.Realloc.
- MemHeap.MemHeap.constructor: a pool smaller than its two headers, for which the source computes a wrapped size.
- EventObject.EventObject.Recv: options with neither AND nor OR, which the source excludes by an assertion only.
- MemHeap.MemHeap.Alloc: alignment of the result needs a MINIALLOC that is a multiple of the alignment and is not claimed.
- RT_MEMHEAP_BSET_MODE: the free list is not kept in order of size.
- rt_slab_realloc: alloc, copy and free once more.
- Slab: the never-NULL result of the usage-table allocation in rt_slab_init is proved from four bytes per page; the
  in-band storage of page runs, zone headers and free-chunk links is kept in maps and sequences, not in heap bytes.
- Timer: soft timers and their thread, and timeout functions that start, stop or detach timers; for rt_timer_check they
  leave the timers alone.  `_timer_list_next_timeout`, whose "none" value is a legal tick.
- Timer.Height: RT_TIMER_SKIP_LIST_MASK has its default value 3.
- Ffs.FfsTiny: the C expression works on a signed int; the overflow of the most negative value is taken as wrap-around.
- SchedulerObject.SchedulerObject.ChangePriority: a priority of RT_THREAD_PRIORITY_MAX or more, which the source stores
  unchecked and then uses as an index beyond the ready table.
- SlabObject.SlabObject.Init: a 64-bit address range; the source keeps the length of the heap in 32 bits.
- Slab: RT_MM_PAGE_SIZE divides 32 KB and a zone header has at most 64 bytes.
- Wcs: reading ELF, RTL and stack-usage files, weak symbols and printing.  Python compares dictionaries by content when it
  looks for a caller; unit and name differ for different functions, so this is identity here.
- Romfs: walking and sorting directories, the C-source output, and word order other than little-endian.
- printf, string and memory routines of kservice.c, device.c, components.c, idle.c, irq.c, object.c, clock.c, the boot
  loader and the other tools: wrappers, registration, input and output.
