# Zarya kernel: verified models

This project models the stateful cores of the Zarya kernel in Dafny and proves what they keep over every run.
Each core has a module with the operations and, where the laws are many, a second module with the laws.

- `Barrier`, `RwLock`, `Mutex` (module per file): the synchronisation primitives as step systems. One atomic
  operation, or one operation on the interrupt flag, is one step; any number of threads, processors and mutexes
  interleave arbitrarily; memory is sequentially consistent; `usize` wrap-around is written out. A class with the
  source's atomics executes the steps, and the laws are about every schedule; `LockCalls` and `RwLockCalls` say how the
  calls end.
- `PhysicalAllocator`, `VirtualMemory`: the frame bitmap, and the manager over it with the list of areas, the page
  entries and the three levels of tables below the root. A ghost ledger (`reserved`) holds the frames taken for
  pages that are not mapped. `FrameLaws` and `VmaLaws` prove what all runs keep, failing calls included;
  `GrantLaws` says exactly when a request succeeds, `EntryLaws` what the entries then hold.
- `Circle`, `Framebuffer`: integer circle drawing against the rounded square root, and the bytes that each drawing
  operation changes.
- `Scheduler`: process and thread tables, five ready queues, the tick and the thread calls. `SchedulerLaws`,
  `QueueLaws`, `RankLaws`, `CallLaws`, `TerminationLaws`, `TimeLaws` and `ThreadTimes` hold the laws of its runs.
- `Keyboard`, `KeyboardLaws`: the ring buffer and decoder, refining a queue of 255 scan codes.

Every mutating operation is a method of a class with the source's fields; its contract ties the new state to a
function of the old one, and the laws are lemmas about those functions.

## Where the code differs from what it says

- Scheduling is documented as round-robin. Queues are pushed and popped at the same end, so threads of one class
  never take turns (`SchedulerLaws.ExpiryKeepsCurrentExactly`, `SchedulerLaws.FirstComeNeverServed`).
- `terminate_thread` leaves a queued id in its queue, so a terminated thread can run again: exactly the ones that
  were ready (`TerminationLaws.EndingIsFinalExactly`, `TerminationLaws.EndedRunsAgain`).
- The read-write lock does not exclude a reader that has checked but not yet counted itself, and a writer that finds
  readers leaves the flag set for good (`RwLockSync.OverlapExactly`, `RwLockSync.OrphanReachableExactly`,
  `RwLockSync.OrphanedForever`).
- The frame allocator is called a buddy allocator; it is a bitmap with first fit, and a contiguous request that does
  not fit indexes past the bitmap when the last page is free (`PhysicalMemory.FirstFitExactly`,
  `PhysicalMemory.TwoOfThreeAborts`).
- `map` of an aligned address records an empty area (`VmaLaws.MapRecordsExactly`, `GrantLaws.AlignedMapUnseen`), and
  `unmap` of one page drops the whole area (`VmaLaws.UnmapDropsAreaExactly`, `GrantLaws.UnmapTakesNeighbour`).
- A heap request that fails part of the way leaves pages mapped past the end of the heap, and then no later
  request succeeds (`GrantLaws.HeapBlocksItself`, `GrantLaws.BlockedUntilUnmap`).
- Guards that are dropped in the order they were taken turn interrupts on under the later one
  (`MutexSync.InterruptsCanComeOnExactly`).
- The stride of the frame buffer is used as a number of bytes, and is modelled so.
- `handle_interrupt` decodes the key and discards the result; characters are decoded when they are read
  (`KeyboardLaws.TypedAlikeExactly`).

Some of the source would not compile as written and is modelled by its evident meaning: `tick` changes a thread
through a shared reference, `scan_codes::ALT` is not defined (taken to be a code of its own, 0x38), and `% 256` on a
byte index is a step around a ring of 256.

## Model

| member | source | states |
|---|---|---|
| BarrierSync.Barrier.Execute | zarya-os/kernel/src/sync/mod.rs:381-401 | One atomic operation of `wait` on the three atomics, for a caller anywhere in the call: new atomics, next place and return value are those of `WaitStep`, on which all the laws below rest |
| BarrierSync.InvRun | zarya-os/kernel/src/sync/mod.rs:381-401 | The barrier's invariant holds in every state of every interleaving of at most `count` users, and completed rounds are never taken back |
| BarrierSync.NoEarlyReturn | zarya-os/kernel/src/sync/mod.rs:381-401 | With n users of a barrier of n, nobody has returned more often than any other user has arrived, and no two users are more than one call apart |
| BarrierSync.OneLeaderPerRound | zarya-os/kernel/src/sync/mod.rs:388-400 | Among the users that have finished call k exactly one was told `true`, and it exists as soon as anyone has finished call k |
| BarrierSync.TooFewNeverReturn | zarya-os/kernel/src/sync/mod.rs:381-401 | With fewer users than `count` no call ever returns, in any interleaving |
| BarrierSync.UnderflowExactly | zarya-os/kernel/src/sync/mod.rs:385-386 | Some interleaving takes the subtraction below zero if and only if more than `count` threads use the barrier |
| BarrierSync.SomeoneCanMove | zarya-os/kernel/src/sync/mod.rs:381-401 | In every state the invariant allows there is a user whose next operation completes the open round or lowers the work left in it |
| BarrierSync.FairRunsCompleteARound | zarya-os/kernel/src/sync/mod.rs:381-401 | After any run, 6n + 1 stretches in each of which every user runs at least once complete another round, whatever the order inside them and whatever the generation counter, wrap-around included |
| BarrierSync.EveryoneReturns | zarya-os/kernel/src/sync/mod.rs:381-401 | After twice as many such stretches every single user has returned from at least one more call |
| RwLockSync.RwLock.Execute | zarya-os/kernel/src/sync/mod.rs:271-347 | One atomic operation of `read`, `try_read`, `write`, `try_write` or of a guard's drop is `LockStep` with check and increment apart |
| RwLockSync.Reachable | zarya-os/kernel/src/sync/mod.rs:271-347 | The lock's invariant holds after every interleaving of any number of users |
| RwLockSync.WritersExclude | zarya-os/kernel/src/sync/mod.rs:285-316 | At most one thread holds a write guard or stands between a won swap and the check of `readers` |
| RwLockSync.ReadersCountGuards | zarya-os/kernel/src/sync/mod.rs:271-328 | `readers` is the number of live read guards in every reachable state |
| RwLockSync.OverlapIsStale | zarya-os/kernel/src/sync/mod.rs:271-295 | A reader that holds its guard beside a writer passed its check before that writer's swap |
| RwLockSync.OverlapExactly | zarya-os/kernel/src/sync/mod.rs:273-279 | A read and a write guard can be live together if and only if check and increment are separate operations and there are at least two users; fused into one operation they exclude each other |
| RwLockSync.GrantExclusiveExactly | zarya-os/kernel/src/sync/mod.rs:285-295 | A writer just granted the lock has it to itself for as long as it holds it, in every continuation, if and only if no reader stood between check and increment at that moment |
| RwLockSync.OrphanedExactly | zarya-os/kernel/src/sync/mod.rs:287-288 | A step leaves `writer` set without an owner if and only if it is a won swap's load of `readers` that finds some |
| RwLockSync.OrphanedForever | zarya-os/kernel/src/sync/mod.rs:285-316 | From then on, in every continuation, `writer` stays set, no write guard is granted, and only readers already past their check ever hold a read guard |
| RwLockSync.OrphanReachableExactly | zarya-os/kernel/src/sync/mod.rs:285-295 | Some run orphans the flag if and only if there are at least two users; with two, a writer beside a reader does it |
| RwLockCalls.CallEnds | zarya-os/kernel/src/sync/mod.rs:271-316 | However the others interleave, `read` and `write` end with their guard or not at all; only the try_ variants can end without |
| RwLockCalls.FreeLockIsGranted | zarya-os/kernel/src/sync/mod.rs:271-316 | Every one of the four calls on a free lock, undisturbed, gets its guard at its third operation |
| RwLockCalls.WrittenLockIsRefused | zarya-os/kernel/src/sync/mod.rs:273-316 | With the writer's flag set the try_ variants return without a guard and change nothing, and the others wait |
| RwLockCalls.ReadLockIsShared | zarya-os/kernel/src/sync/mod.rs:273-316 | Of a lock that is read, readers get a further guard; writers get none and leave their flag set |
| RwLockCalls.DropUndoes | zarya-os/kernel/src/sync/mod.rs:324-347 | Taking and dropping a guard leaves the lock as it was |
| MutexSync.Mutex.Execute | zarya-os/kernel/src/sync/mod.rs:103-166 | One operation of `lock`, `try_lock` or of the guard's drop on the mutex and on the processor's interrupt flag is `LockStep`, spurious failure of the weak exchange included |
| MutexSync.SerialRun | zarya-os/kernel/src/sync/mod.rs:103-178 | Exclusion, the log and the guards' local copies stay consistent in every run of any number of processors and mutexes |
| MutexSync.UpdatesSerialise | zarya-os/kernel/src/sync/mod.rs:103-178 | The data of a mutex is the fold, from the data it started with, of exactly the updates the run has made through its guards, and these fall under its acquisitions in their order, however reads and write-backs of different processors interleave and in whatever order guards are dropped |
| MutexSync.HistoryIs | zarya-os/kernel/src/sync/mod.rs:103-178 | The history variables of a mutex are its starting data, its acquisitions and its updates, each counted from the moves of the run |
| MutexSync.OneGuardPerMutex | zarya-os/kernel/src/sync/mod.rs:103-166 | At most one guard of a mutex is live on all processors together, and `locked` is true exactly then |
| MutexSync.DisciplineRun | zarya-os/kernel/src/sync/mod.rs:103-166 | As long as a processor drops its outermost guard last, only that guard remembers that interrupts were on, through every operation including enable and hlt, whatever the other processors do |
| MutexSync.InterruptsStayOff | zarya-os/kernel/src/sync/mod.rs:103-166 | Then the processor has interrupts off while it holds a guard, also while it waits for another mutex, and after its last guard its flag is the one it started with |
| MutexSync.LifoIsOutermostLast | zarya-os/kernel/src/sync/mod.rs:159-166 | Dropping guards last-in first-out on that processor is a special case |
| MutexSync.DropMoves | zarya-os/kernel/src/sync/mod.rs:159-166 | The two operations of a drop: the store, then the flag turned on if the guard had saved it so |
| MutexSync.DropBreaksDisciplineExactly | zarya-os/kernel/src/sync/mod.rs:159-166 | After such a run, dropping a guard turns interrupts on under remaining ones if and only if it is the outermost of several and the processor started with interrupts on |
| MutexSync.InterruptsCanComeOnExactly | zarya-os/kernel/src/sync/mod.rs:103-166 | Some run lets a processor hold a guard with interrupts on if and only if it starts with interrupts on and there are two mutexes; taking two and dropping the first one first does it |
| LockCalls.CallEnds | zarya-os/kernel/src/sync/mod.rs:103-150 | However the other processors interleave, a call under way has changed no guard; when it is over its processor has one guard of the mutex more, or it was `try_lock` and guards and interrupt flag are as they were |
| LockCalls.LockReturnsWithGuard | zarya-os/kernel/src/sync/mod.rs:103-128 | `lock` never returns without its guard |
| LockCalls.FreeMutexIsGranted | zarya-os/kernel/src/sync/mod.rs:108-127 | Wherever a call of `lock` is, once the mutex is free at most four of its operations get it the guard |
| LockCalls.HeldMutexIsAwaited | zarya-os/kernel/src/sync/mod.rs:113-121 | While the mutex is held, `lock` turns interrupts on, halts, turns them off and tries again if it found them on; else it tries again at once |
| LockCalls.TryDecidesExactly | zarya-os/kernel/src/sync/mod.rs:131-149 | `try_lock` has a guard if and only if the mutex is free at its exchange |
| LockCalls.GuardedUpdate | zarya-os/kernel/src/sync/mod.rs:168-178 | Reading and writing back through a live guard makes the update to its mutex and touches no other |
| PhysicalMemory.PhysicalAllocator.constructor | zarya-os/kernel/src/memory/mod.rs:146-153 | All frames up to the cap are free and the count says so |
| PhysicalMemory.PhysicalAllocator.AllocateFrame | zarya-os/kernel/src/memory/mod.rs:157-168 | Takes exactly the lowest free frame, or nothing and changes nothing; the count stays that of the true bits |
| PhysicalMemory.PhysicalAllocator.AllocateFrames | zarya-os/kernel/src/memory/mod.rs:171-206 | Result and new bitmap: granted exactly the requested bits, refused with nothing changed, or an abort that has marked the short free run at the end |
| PhysicalMemory.PhysicalAllocator.ScanForRun | zarya-os/kernel/src/memory/mod.rs:176-193 | The scan ends with the first free run that is long enough, or with none in existence and the start of the free run the bitmap ends in, if it ends in one |
| PhysicalMemory.PhysicalAllocator.MarkUsed | zarya-os/kernel/src/memory/mod.rs:196-198 | The marking loop marks the frames asked for, or those up to the end of the bitmap, which it then runs past |
| PhysicalMemory.PhysicalAllocator.DeallocateFrame | zarya-os/kernel/src/memory/mod.rs:209-216 | Frees the frame at an address; out of range or already free, bitmap and count do not change |
| PhysicalMemory.FirstFitExactly | zarya-os/kernel/src/memory/mod.rs:171-205 | For 0 < count <= free_count: the lowest fitting run if there is one; without one, abort if and only if the last page is free, refusal if and only if it is used |
| PhysicalMemory.TwoOfThreeAborts | zarya-os/kernel/src/memory/mod.rs:171-205 | The input on which it aborts: two frames asked for where free, used, free is all there is |
| PhysicalMemory.FirstFreeExactly | zarya-os/kernel/src/memory/mod.rs:157-168 | Nothing before the frame that `allocate_frame` takes is free, and it fails only if nothing is |
| PhysicalMemory.SingleIsRunOfOne | zarya-os/kernel/src/memory/mod.rs:157-206 | A contiguous request for one frame is the single allocation, and never aborts |
| PhysicalMemory.FreeingUndoesAllocation | zarya-os/kernel/src/memory/mod.rs:171-216 | Freeing, by address, each frame of what was granted gives back the bitmap exactly |
| PhysicalMemory.FreedEachIs | zarya-os/kernel/src/memory/mod.rs:201-216 | The same part of the way: after k frees exactly the remaining frames are marked |
| PhysicalMemory.FreeTwice | zarya-os/kernel/src/memory/mod.rs:209-216 | A second free of the same frame changes nothing |
| PhysicalMemory.CountUsed | zarya-os/kernel/src/memory/mod.rs:219-221 | Used frames are the total less the free count |
| VirtualMemory.VirtualMemoryManager.constructor | zarya-os/kernel/src/memory/mod.rs:247-258 | The manager starts with no areas over the table it finds, with whatever that maps |
| VirtualMemory.VirtualMemoryManager.CreateProcessPageTable | zarya-os/kernel/src/memory/mod.rs:261-285 | A zeroed root in a frame newly taken; an error without a frame |
| VirtualMemory.VirtualMemoryManager.Map | zarya-os/kernel/src/memory/mod.rs:288-326 | `map`: up to three table frames, failure on a mapped page with the tables kept, the entry with the flags that reach the hardware, the recorded area from align_down to align_up |
| VirtualMemory.VirtualMemoryManager.MapPages | zarya-os/kernel/src/memory/mod.rs:353-358 | The mapping loop stops at the first page that fails and leaves the earlier ones mapped |
| VirtualMemory.VirtualMemoryManager.AllocateHeap | zarya-os/kernel/src/memory/mod.rs:329-370 | `allocate_heap`: base at the end of the last heap area, refusal, abort, failure part of the way, or the area |
| VirtualMemory.VirtualMemoryManager.AllocateStack | zarya-os/kernel/src/memory/mod.rs:373-408 | `allocate_stack`: the same below the fixed top, with the default size as minimum and a stop when the top is too low |
| VirtualMemory.VirtualMemoryManager.Unmap | zarya-os/kernel/src/memory/mod.rs:411-434 | `unmap`: fails on an unmapped page; otherwise frees its frame and drops every area that contains the address |
| VirtualMemory.FailureSticks | zarya-os/kernel/src/memory/mod.rs:353-358 | Once a page of a run has failed, asking for more pages changes nothing |
| FrameLaws.FrameInvRun | zarya-os/kernel/src/memory/mod.rs:288-434 | Every run of heap and stack allocations and unmaps keeps mapped, table and leaked frames apart and together equal to the used ones |
| FrameLaws.FramesIsolated | zarya-os/kernel/src/memory/mod.rs:288-434 | Over all these runs, calls that fail midway included: no two pages share a frame, no page lies in a table, every mapped or table frame is marked used, and used = mapped + table + leaked |
| FrameLaws.FailedCallsLeakExactly | zarya-os/kernel/src/memory/mod.rs:329-408 | A call leaks frames if and only if it was granted frames and still fails; nothing leaked is ever taken back |
| FrameLaws.StackFits | zarya-os/kernel/src/memory/mod.rs:387-388 | In every run a stack that the frame allocator can serve fits below its top: `allocate_stack` stops the kernel if and only if the allocator does |
| FrameLaws.CreateStarts | zarya-os/kernel/src/memory/mod.rs:261-285 | Creating a page table over a fresh allocator gives the state that the runs below start from |
| FrameLaws.RunGrows | zarya-os/kernel/src/memory/mod.rs:288-434 | Every intermediate table stays in its frame and the bitmap keeps its length |
| VmaLaws.VmaInvRun | zarya-os/kernel/src/memory/mod.rs:288-434 | Every run of all four calls, `map` with arbitrary addresses included, keeps areas aligned, backed by mapped pages and apart |
| VmaLaws.AreasDisjoint | zarya-os/kernel/src/memory/mod.rs:288-434 | An address lies in at most one area, heap areas stand in address order, at most one stack area is live |
| VmaLaws.AccessIsBacked | zarya-os/kernel/src/memory/mod.rs:468-483 | When `check_access` says yes the page is mapped and its entry carries the permission asked for |
| VmaLaws.HeapUsable | zarya-os/kernel/src/memory/mod.rs:329-370 | After a successful heap request every byte asked for passes `check_access`, for reading and writing, in every run; sizes at which the rounding wraps around never succeed |
| VmaLaws.StackUsable | zarya-os/kernel/src/memory/mod.rs:373-408 | The same for the bytes below the top of a stack, at least the default size of them |
| VmaLaws.MapRecordsExactly | zarya-os/kernel/src/memory/mod.rs:317-323 | A page just mapped passes `check_access` if and only if the address given was not page-aligned and the flag was given |
| VmaLaws.UnmapDropsAreaExactly | zarya-os/kernel/src/memory/mod.rs:430-431 | After unmapping a page an address passes `check_access` if and only if it did before and does not lie in one area with the unmapped address: the whole area goes, and nothing else |
| GrantLaws.UnmapTakesNeighbour | zarya-os/kernel/src/memory/mod.rs:411-434 | The input on which it takes too much: of a heap of two pages the second is no longer accessible when the first is unmapped, and stays mapped |
| GrantLaws.AlignedMapUnseen | zarya-os/kernel/src/memory/mod.rs:317-323 | The input on which `map` records nothing: a page mapped at an aligned address is mapped and passes no check |
| VmaLaws.CreateKeepsVmasExactly | zarya-os/kernel/src/memory/mod.rs:261-285 | Creating a page table on a manager with areas keeps them backed if and only if all of them are empty |
| EntryLaws.MapEntryExactly | zarya-os/kernel/src/memory/mod.rs:304-313 | After `map` the entry of the page has the frame and exactly those of the six hardware flags that were given, and no other entry has changed |
| EntryLaws.AreaPagesFlagged | zarya-os/kernel/src/memory/mod.rs:341-400 | In every run each page of a live stack area is present, writable and open to the user, and each page of a heap area present and writable only |
| EntryLaws.AreaTranslates | zarya-os/kernel/src/memory/mod.rs:353-358 | After a successful request the byte at base + offset lies at offset from the frames that were granted |
| EntryLaws.PageCountExactly | zarya-os/kernel/src/memory/mod.rs:343-343 | The pages of a request are its size rounded up, and none when the rounding passes 2^64 |
| EntryLaws.HeapByNumber | zarya-os/kernel/src/memory/mod.rs:329-370 | A first heap of 4097 bytes is the two pages from 0x100000 on |
| EntryLaws.StackByNumber | zarya-os/kernel/src/memory/mod.rs:373-408 | A first stack of one byte is two pages below 0xFFFFF000, open to the user |
| GrantLaws.CreateStrandsHeap | zarya-os/kernel/src/memory/mod.rs:261-285 | The input on which it does not: a heap of two pages still passes `check_access` and is no longer mapped |
| GrantLaws.HeapSucceedsExactly | zarya-os/kernel/src/memory/mod.rs:329-370 | In every run, direct calls of `map` included, a heap request that is granted its frames succeeds if and only if none of its pages is mapped and the frames left last for the tables it is missing |
| GrantLaws.StackSucceedsExactly | zarya-os/kernel/src/memory/mod.rs:373-408 | The same for a stack |
| GrantLaws.GrantCosts | zarya-os/kernel/src/memory/mod.rs:329-408 | A request that succeeds maps exactly its pages and costs one frame for each and for each missing table |
| GrantLaws.MapFailsExactly | zarya-os/kernel/src/memory/mod.rs:306-311 | `map` of an unmapped page fails if and only if the free frames do not last for its tables, and then none is left |
| GrantLaws.HeapIsContiguous | zarya-os/kernel/src/memory/mod.rs:333-342 | The first heap area starts at 0x100000 and each one where the one before ends |
| GrantLaws.MapRunExactly | zarya-os/kernel/src/memory/mod.rs:353-358 | The mapping loop goes through if and only if no page is mapped and the free frames last for the missing tables, and it takes exactly one frame for each |
| GrantLaws.FailedHeapBlocksExactly | zarya-os/kernel/src/memory/mod.rs:336-358 | In every run a heap request that was granted its frames and fails leaves the page where the heap would grow mapped if and only if it was mapped before or the frames last for that page's tables |
| GrantLaws.BlockedUntilUnmap | zarya-os/kernel/src/memory/mod.rs:329-370 | While that page is mapped no heap request succeeds, whatever is called, until something is unmapped |
| GrantLaws.HeapBlocksItself | zarya-os/kernel/src/memory/mod.rs:329-370 | The input on which it happens: with 261 frames, a first heap request of 257 pages fails and blocks the heap |
| GrantLaws.OneStackAtATime | zarya-os/kernel/src/memory/mod.rs:373-408 | While a stack area is live every further stack request fails |
| Circle.TracksStart | zarya-os/kernel/src/drivers/framebuffer.rs:159-161 | The loop starts with d = 2(x+1)^2 + y^2 + (y-1)^2 - 2r^2 |
| Circle.TracksDown | zarya-os/kernel/src/drivers/framebuffer.rs:166-168 | The branch that lowers y keeps the decision variable exact and y the rounded root |
| Circle.TracksRight | zarya-os/kernel/src/drivers/framebuffer.rs:169-172 | So does the branch that keeps y |
| Circle.HeightUnique | zarya-os/kernel/src/drivers/framebuffer.rs:158-174 | There is one rounded square root for each column |
| Circle.HeightExists | zarya-os/kernel/src/drivers/framebuffer.rs:158-174 | Every column up to the radius has one |
| Circle.HeightDropsByOne | zarya-os/kernel/src/drivers/framebuffer.rs:163-173 | From one column of the octant to the next y falls by at most one |
| Circle.HalfPixel | zarya-os/kernel/src/drivers/framebuffer.rs:158-174 | (2r-1)^2 < 4(x^2+y^2) < (2r+1)^2 for every point of the octant: less than half a pixel from the true circle |
| Circle.OctantOver | zarya-os/kernel/src/drivers/framebuffer.rs:163-173 | When the loop ends no point of the octant is left out |
| Circle.RoundsFit | zarya-os/kernel/src/drivers/framebuffer.rs:166-172 | No i32 operation of any round overflows for a radius up to 536894082 |
| Circle.DropOverflows | zarya-os/kernel/src/drivers/framebuffer.rs:167-167 | For a larger radius below 2^30 the first round that lowers y overflows |
| Raster.Framebuffer.SetPixel | zarya-os/kernel/src/drivers/framebuffer.rs:92-106 | Changes the four bytes of the pixel if it is on the screen and nothing else, with the 32-bit offset as computed |
| Raster.Framebuffer.DrawRect | zarya-os/kernel/src/drivers/framebuffer.rs:120-126 | Paints exactly the pixels whose coordinates, counted around the 32-bit word, lie in the two ranges |
| Raster.Framebuffer.DrawHline | zarya-os/kernel/src/drivers/framebuffer.rs:144-148 | The same for a horizontal line |
| Raster.Framebuffer.DrawVline | zarya-os/kernel/src/drivers/framebuffer.rs:151-155 | The same for a vertical line |
| Raster.Framebuffer.PlotCirclePoints | zarya-os/kernel/src/drivers/framebuffer.rs:177-186 | Paints exactly the eight reflections, with u32 wrap-around |
| Raster.Framebuffer.DrawCircle | zarya-os/kernel/src/drivers/framebuffer.rs:158-174 | Terminates; overflows i32 if and only if the radius is between 536894083 and 3221225473; otherwise paints exactly the eight reflections of the points (x, rounded root of r^2 - x^2) with x <= y and no other pixel; up to an overflow, a first part of them |
| Raster.OwnedBytes | zarya-os/kernel/src/drivers/framebuffer.rs:97-104 | The bytes of a pixel are the four from its offset on, and no other pixel has them |
| Raster.PaintedBytes | zarya-os/kernel/src/drivers/framebuffer.rs:97-104 | The offset stays inside the buffer, and each byte is the colour's or the old one as the pixel is in the set or not |
| Raster.PixelBytes | zarya-os/kernel/src/drivers/framebuffer.rs:97-104 | The four bytes of a painted pixel, at y lines and 4x bytes, are blue, green, red and 255 in this order; those of any other pixel stay |
| Raster.MarginsKept | zarya-os/kernel/src/drivers/framebuffer.rs:93-104 | Bytes right of the pixels of a line or below the last line never change |
| Raster.RectClippedExactly | zarya-os/kernel/src/drivers/framebuffer.rs:120-126 | `draw_rect` paints the rectangle clipped to the screen if and only if it does not both run past 2^32 and touch the screen |
| Raster.RectWrapsAround | zarya-os/kernel/src/drivers/framebuffer.rs:120-126 | The input on which it does: a rectangle from x = 2^32 - 1 of width 2 paints the corner of every screen |
| Raster.CircleOnScreen | zarya-os/kernel/src/drivers/framebuffer.rs:158-186 | On the screen the circle is the set of pixels whose larger distance from the centre is the rounded root over the smaller one: wrapped reflections never show, for centre plus radius and screen plus radius within 2^32 |
| Scheduling.Scheduler.AddProcess | zarya-os/kernel/src/task/mod.rs:398-410 | Appends any process and queues its first thread if it has one and that is ready |
| Scheduling.Scheduler.NewKernelThread | zarya-os/kernel/src/task/mod.rs:302-335 | A process with one ready thread, under the next ids |
| Scheduling.Scheduler.AddKernelThread | zarya-os/kernel/src/task/mod.rs:302-410 | The two together, which is the step `Add` of the runs |
| Scheduling.Scheduler.AddToReadyQueue | zarya-os/kernel/src/task/mod.rs:413-423 | Pushes at the end of the queue of the priority |
| Scheduling.Scheduler.Schedule | zarya-os/kernel/src/task/mod.rs:426-437 | Takes the last thread of the first filled queue, or nothing |
| Scheduling.Scheduler.Tick | zarya-os/kernel/src/task/mod.rs:440-477 | The whole tick: quantum, preemption, switch, charge |
| Scheduling.Scheduler.Charge | zarya-os/kernel/src/task/mod.rs:468-476 | One tick to the current process, and to its running thread if it has one |
| Scheduling.Scheduler.SwitchToThread | zarya-os/kernel/src/task/mod.rs:480-500 | The old running thread becomes ready, the new one runs and its process becomes current; an unknown id changes nothing further |
| Scheduling.Scheduler.CreateThread | zarya-os/kernel/src/task/mod.rs:645-679 | A fresh ready thread in the current process, queued; an error and no change without one |
| Scheduling.Scheduler.TerminateThread | zarya-os/kernel/src/task/mod.rs:682-693 | Sets the state and touches no queue; an error for an unknown id |
| Scheduling.Scheduler.BlockThread | zarya-os/kernel/src/task/mod.rs:696-711 | A running thread is blocked and the quantum runs out at once; any other stays as it is |
| Scheduling.Scheduler.UnblockThread | zarya-os/kernel/src/task/mod.rs:714-728 | A blocked thread becomes ready and is queued; any other stays as it is |
| Scheduling.Scheduler.SetPriority | zarya-os/kernel/src/task/mod.rs:585-596 | Changes the priority and moves nothing between queues |
| CallLaws.SwitchExactly | zarya-os/kernel/src/task/mod.rs:480-500 | A switch readies the thread that ran, runs the one named, makes its process current and changes no other state |
| CallLaws.CreateExactly | zarya-os/kernel/src/task/mod.rs:645-679 | A created thread is fresh, ready, in the current process and in the queue of its priority; without a current process nothing happens |
| CallLaws.NothingStartsByItself | zarya-os/kernel/src/task/mod.rs:440-465 | Without the added first dispatch no thread ever runs, whatever is called |
| QueueLaws.AddQueuesMainThread | zarya-os/kernel/src/task/mod.rs:398-410 | Of an added process the first thread alone joins the queues, at the end of one, if it is ready |
| TerminationLaws.BlockQuantum | zarya-os/kernel/src/task/mod.rs:696-711 | Blocking uses the quantum up if and only if the thread was running |
| SchedulerLaws.RunKeepsInv | zarya-os/kernel/src/task/mod.rs:398-500 | The scheduler's invariant survives every sequence of ticks, dispatches and calls |
| SchedulerLaws.WellFormed | zarya-os/kernel/src/task/mod.rs:398-500 | In every reachable state a thread waits in at most one queue, once; ready threads wait; only ready or terminated ones do; the one running thread is `current_thread` and `current_process` owns it |
| SchedulerLaws.ExpiryRunsHighest | zarya-os/kernel/src/task/mod.rs:445-465 | An expiry runs the last thread of the highest filled queue and leaves none of a higher class waiting |
| RankLaws.ExpiryServesMostUrgent | zarya-os/kernel/src/task/mod.rs:413-463 | By the ranks 99, 75, 50, 25 and 0 of the priorities: in every run that keeps the queues sorted, an expiry that finds a thread runs one than which no waiting thread is more urgent |
| RankLaws.QueuesFollowRanks | zarya-os/kernel/src/task/mod.rs:32-43 | Queues are in the order of the ranks |
| RankLaws.HighPreemptsNormal | zarya-os/kernel/src/task/mod.rs:440-465 | With threads of normal, high and low priority the tenth tick, and not the ninth, gives the processor from the normal to the high one |
| SchedulerLaws.ExpiryKeepsCurrentExactly | zarya-os/kernel/src/task/mod.rs:448-464 | A running thread whose quantum runs out is run again at once, with its queue as before, if and only if every queue of a higher class is empty: no turns within a class |
| SchedulerLaws.NobodyTakesTurns | zarya-os/kernel/src/task/mod.rs:440-477 | Over any number of ticks alone such a thread stays current and the queues stay as they are |
| SchedulerLaws.FirstComeNeverServed | zarya-os/kernel/src/task/mod.rs:413-463 | The input on which nobody takes turns: of two kernel threads of any one class the second runs and the first waits through any number of ticks |
| SchedulerLaws.EveryTenthTick | zarya-os/kernel/src/task/mod.rs:442-446 | Over ticks alone the quantum runs out at every tenth tick, whatever is scheduled meanwhile, and at the first one after a call that used it up |
| QueueLaws.QueuedByPriority | zarya-os/kernel/src/task/mod.rs:413-423 | Each waiting thread stands in the queue of its priority in every run that changes priorities only of threads that do not wait, or within their class |
| QueueLaws.SetPriorityKeepsExactly | zarya-os/kernel/src/task/mod.rs:585-596 | `sys_set_priority` keeps that order if and only if the thread does not wait or its queue stays the same |
| QueueLaws.ClassChangeMisplaces | zarya-os/kernel/src/task/mod.rs:585-596 | The input on which it does not: any change of class of a thread that waits |
| TerminationLaws.TerminatedIsFinalExactly | zarya-os/kernel/src/task/mod.rs:682-693 | A terminated thread stays terminated whatever is called if and only if it waits in no queue |
| TerminationLaws.EndingIsFinalExactly | zarya-os/kernel/src/task/mod.rs:682-693 | In every reachable state, ending a live thread is final if and only if the thread is not ready |
| TerminationLaws.EndedRunsAgain | zarya-os/kernel/src/task/mod.rs:682-693 | The input on which it is not: a thread ended before its first turn still gets it |
| TerminationLaws.BringToRun | zarya-os/kernel/src/task/mod.rs:440-500 | Every waiting thread, terminated or not, can be brought to run by a finite sequence of calls |
| TerminationLaws.GoneForGood | zarya-os/kernel/src/task/mod.rs:398-500 | A terminated thread that waits nowhere never runs or waits again |
| TimeLaws.TimeIsAccounted | zarya-os/kernel/src/task/mod.rs:440-477 | Over every run: each process has run at least as long as its threads; the processes together for exactly the ticks that ended with a current process, the threads together for exactly those that ended with a running thread, neither more than all ticks |
| ThreadTimes.EachTimeExactly | zarya-os/kernel/src/task/mod.rs:467-476 | Each single thread has run for exactly the ticks that ended with it running, each single process for exactly those that ended with it current |
| TimeLaws.CurrentThere | zarya-os/kernel/src/task/mod.rs:468-476 | The current process is always in the table, and has a running thread if and only if the current thread runs |
| Keyboard.KeyboardBuffer.constructor | zarya-os/kernel/src/drivers/keyboard.rs:17-30 | The buffer starts empty, with no modifier down |
| Keyboard.KeyboardBuffer.HandleInterrupt | zarya-os/kernel/src/drivers/keyboard.rs:181-228 | A modifier sets its flag and is not stored; any other code joins the pending ones, unless 255 are pending |
| Keyboard.KeyboardBuffer.ReadEvent | zarya-os/kernel/src/drivers/keyboard.rs:231-257 | Takes the oldest pending code and decodes it under the modifiers of that moment; nothing if and only if nothing is pending |
| Keyboard.KeyboardBuffer.HasData | zarya-os/kernel/src/drivers/keyboard.rs:260-263 | True if and only if something is pending, the availability flag notwithstanding |
| Keyboard.KeyboardBuffer.ReadChar | zarya-os/kernel/src/drivers/keyboard.rs:266-280 | Terminates having consumed precisely up to the first press that decodes to a character under the modifiers at read time, or everything |
| Keyboard.RingPush | zarya-os/kernel/src/drivers/keyboard.rs:213-221 | Writing at the write index appends to the ring, around the end of the array too |
| Keyboard.RingPop | zarya-os/kernel/src/drivers/keyboard.rs:242-244 | Advancing the read index drops the oldest code |
| KeyboardLaws.FirstInFirstOut | zarya-os/kernel/src/drivers/keyboard.rs:181-281 | Over every run of interrupts and reads, the codes kept are those read followed by those pending, in order, none twice |
| KeyboardLaws.RoomKept | zarya-os/kernel/src/drivers/keyboard.rs:213-217 | Never more than 255 pending, and never a modifier among them |
| KeyboardLaws.KeptOrLost | zarya-os/kernel/src/drivers/keyboard.rs:213-221 | Every other code was kept or lost, and with none lost the kept ones are all that arrived, in order |
| KeyboardLaws.LossExactly | zarya-os/kernel/src/drivers/keyboard.rs:213-217 | A run loses a code if and only if at some moment more than 255 codes had arrived that no read had taken |
| KeyboardLaws.TypeAheadLosesExactly | zarya-os/kernel/src/drivers/keyboard.rs:213-217 | The input on which it does: n presses with no read lose something if and only if n > 255 |
| KeyboardLaws.ModifiersFollow | zarya-os/kernel/src/drivers/keyboard.rs:189-207 | Control and alt are set exactly while their key is held, caps after an odd number of presses, shift if the last shift code was a press |
| KeyboardLaws.ShiftExactly | zarya-os/kernel/src/drivers/keyboard.rs:190-193 | The shift flag says whether a shift is held, except exactly after one of two held shifts was let go |
| KeyboardLaws.OneShiftLetGo | zarya-os/kernel/src/drivers/keyboard.rs:190-193 | The input on which it does not: both shifts down, the right one let go |
| KeyboardLaws.TypedAlikeExactly | zarya-os/kernel/src/drivers/keyboard.rs:246-253 | The character read is the one the key had when it went down if and only if the modifiers of both moments agree on that key |
| KeyboardLaws.DecodesAlikeExactly | zarya-os/kernel/src/drivers/keyboard.rs:284-350 | Two modifier states decode a code alike if and only if shift against caps agrees (letters), shift agrees (two-faced keys), or the code does not depend on them |
| KeyboardLaws.ShiftComesTooLate | zarya-os/kernel/src/drivers/keyboard.rs:246-253 | The input on which it fails: shift down, A, shift up, read gives the small letter |
| KeyboardLaws.EagerReadsWhatWasMeant | zarya-os/kernel/src/drivers/keyboard.rs:181-281 | A reader that asks after every interrupt gets exactly the characters of the keys that went down, each under the modifiers of that moment, and none for releases |
| KeyboardLaws.TypedIs | zarya-os/kernel/src/drivers/keyboard.rs:246-253 | A code of 0x80 or more carries no character, one below what its key decodes to |
| KeyboardLaws.ModifierCodes | zarya-os/kernel/src/drivers/keyboard.rs:189-207 | What each of the modifier codes does, by number, and that it is not stored |
| KeyboardLaws.StrokesWrite | zarya-os/kernel/src/drivers/keyboard.rs:181-350 | After any run that has been read up, with shift and caps off, the strokes for any typable character add exactly it to the text |
| KeyboardLaws.ControlA | zarya-os/kernel/src/drivers/keyboard.rs:189-207 | 0x1D down and 0x1E read 'a', with the control flag set |
| KeyboardLaws.OneKeyPerCharacter | zarya-os/kernel/src/drivers/keyboard.rs:284-350 | No two keys type the same character, under whatever modifiers |
| KeyboardLaws.WhatCanBeTyped | zarya-os/kernel/src/drivers/keyboard.rs:284-350 | Some scan code types a character under some modifiers if and only if it is printable ASCII, backspace, tab or newline |
| KeyboardLaws.KeyForTypes | zarya-os/kernel/src/drivers/keyboard.rs:284-350 | Each of these is typed by the key and the shift named for it, with caps off |

## Left out

- `Spinlock` and `Semaphore`: outside the scope of this model; the counter's conservation law is not stated.
- `Condvar`: `drop(mutex)` drops a reference and releases nothing, so there is no protocol to prove.
- Weak memory orderings, and liveness under unfair schedules.
- Interrupt handlers that run while `lock` waits in hlt: the processor's own call makes no step there.
- The wrap-around of `readers`, which takes 2^64 live guards; `readers` is an integer.
- The x86_64 crate: page-table walking, entries without the present bit, huge pages, TLB; the page table is a map
  from page to entry, and a table is one frame known by its level and index.
- VirtualMemory.VirtualMemoryManager.AllocateHeap: addresses are unbounded, so the panic of the address type on a non-canonical address, which a heap grown by about 2^47 bytes of pages would meet, is not modelled.
- VirtualMemory.VirtualMemoryManager.Map: the overflow of align_up for an address in the last page of the address space is not modelled.
- FrameLaws.FramesIsolated: runs with direct calls of `map` are excluded, because the frame is then the caller's; `VmaLaws` covers them.
- `from_boot_info`: the sum over usable regions is a parameter; only the cap is modelled.
- CR3: runs start from a table that `create_process_page_table` has made over a fresh allocator, not from the one CR3 holds at boot.
- Raster.Framebuffer.SetPixel: the screen is assumed to satisfy 4 * width <= stride and height * stride <= 2^32 with a buffer of that size, without which the offset is undefined behaviour in the source.
- Raster.Framebuffer.DrawCircle: u32 sums of coordinates wrap around, and an i32 overflow stops the drawing; what a build that wraps i32 draws after an overflow is not modelled.
- `draw_logo`, `draw_text`, `draw_shadow`, `draw_rounded_rect`, `clear_color`: floating point, stubs, or more of the same loops.
- The first dispatch: nothing in the source makes it (`CallLaws.NothingStartsByItself`), so runs include the action `Dispatch` (`schedule`, then `switch_to_thread`, while there is no current thread), which only adds runs.
- Thread contexts, stacks, entry points, `sys_sleep`, `sys_exit`, `run_first_task`: hardware waits and stubs. The state `Sleeping` is never entered.
- SchedulerLaws.WellFormed: in the runs processes are added with one ready kernel thread, as `new_kernel_thread` builds them, with any priority; ids are then unique.
- Interrupts that arrive between the operations of one keyboard read: `read_event`, `has_data` and `read_char` are single steps of a run.
- The keyboard's port I/O: the scan code is a parameter.
- `fs`, `net`, `syscall`, `mouse`, `serial`, `main`.
