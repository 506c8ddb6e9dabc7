# Verified models of a small x86-64 kernel

This project models the parts of the kernel whose correctness rests on invariants that no single
function shows, and proves those invariants with Dafny 4.11. `dafny verify dfyconfig.toml` checks
everything.

| component | files |
|---|---|
| Kernel heap (`kmalloc`, `kfree`) | `KheapTiling`, `KheapMemory`, `KheapTags`, `KheapLists`, `Kheap`, `KheapRuns`, `KheapAsWritten` |
| Page allocator and four-level page tables | `Paging`, `PathTables`, `Ram`, `PmmRuns`, `Vmm`, `KernelMap` |
| Scheduler on any number of CPUs | `Sched`, `SchedInv`, `SchedTheorems`, `SchedTimer`, `SchedAsWritten`, `SchedCreate`, `SchedQuiet` |
| PCI bus enumeration | `Pci` |
| PCI configuration registers | `ConfigSpace` |
| Block buffer cache | `Ring`, `BufferCache` |
| Number and format printing | `Stdio` |
| First-fit pool allocator | `Pool` |
| Doubly linked list | `List` |
| Shared definitions | `Common` |

The heap is modelled three times over the same 16-bit words: as a tiling of the address range by
blocks, as headers, flag bits and footers in memory, and as a doubly linked list threaded through
the free blocks. The methods of `Kheap.Heap` write the words and keep all three in step;
`KheapRuns` then reasons about every run.

Physical memory is an array of 64-bit words. Page tables are read off those words and form a
forest, recorded by a ghost map from each table to the one entry that points to it. `MapPages`
is proved against the hardware page walk.

The scheduler is a transition system. Every atomic step of `scheduler`, `sched`, `yield`,
`procstart`, `create_proc`, `userinit` and the timer case is an action. CPUs step in any order. The
inductive invariant is local to each CPU and each process.

## Where the model departs from the code

The code holds several slips that break the very property it aims at. The model repairs each one.
A lemma then states exactly when the code as written still meets the property, and most have a
second lemma at an input where it does not.

- Heap, request size. The block size includes the two-byte header and stays a multiple of 4 of at least 8 (`AsWrittenPlaceExact`, `AsWrittenPlaceFails`).
- Heap, end of the free list. The list ends in 65535, since 0 is the index of a block. With 0 for null, as written, a removal next to block 0 loses it (`RemoveAsWrittenExact`, `RemoveAsWrittenFails`).
- Heap, insertion. It also sets the back links and copes with an empty list. As written it stores `block_idx` of a null pointer there, which depends on where `kmem` lies (`InsertAsWrittenExact`, `FirstInsertAsWritten`).
- Heap, search. It starts at the list head and does not stop at block 0 (`SearchAsWrittenExact`, `SearchAsWrittenFails`).
- Heap, initialisation. An allocated end header is written (`EndHeaderAsWrittenExact`, `FirstFreeAsWritten`), and the footer of the first block, which nothing reads before a split writes it.
- Page tables. `getaddrpte` returns null when a table cannot be allocated (`GetAsWrittenExact`, `GetAsWrittenFails`). Indices come from the value of the address, where the code takes them from the word stored at it (`MapOneAsWrittenExact`, `MapOneAsWrittenFails`). A range that ends at the top page ends only by running out of pages, and that is the one range `setupkvm` asks for (`GuardNeverFailsExact`, `ReturnsExact`, `SetupKvm`). A large entry on the way is rewritten, as in the code; `LargeEntryExact` says when other pages notice. New tables never get the user bit (`UserAccessExact`). `init_pmm` as written frees no page (`InitPmmAsWrittenFreesNothing`), so `PmmFreeRange` starts from pointers of the kernel window.
- Scheduler. The lock calls commented out in `yield`, `procstart`, `create_proc` and `userinit` are restored where the comments describe them. `pushcli` and `popcli` follow the comments in `sched`. A full process table is reported without reading past its end (`FindAsWrittenExact`, `FindAsWrittenFails`). `SchedAsWritten`, `SchedCreate` and `SchedQuiet` leave all those lock calls out (`OneCpuAtATime`, `RunningMeansOneCpuAsWritten`, `SchedConditionsAsWritten`, `InterruptsOffAtSched`, `FlagComesBackAsWritten`, `PidsAreUniqueAsWritten`, `TwoCreatorsOneSlot`, `TwoCreatorsOnePid`).
- PCI. The visited set has 256 entries, as in the C++ code. The array of the C code has 8; `AttachedDevices` says when that is enough and `BusEightIsReached` gives a topology where it is not. The loop over several host bridges is the one of the C code, which enumerates a bus even after reporting that its host bridge is absent; the C++ call is commented out (`AttachedDevicesAsWritten`, `MultiHostIsAttached`). Generators become the sequences they yield.
- Buffer cache. `push_front` links both neighbours (`PushFrontAsWrittenBreaks`). The first buffer starts as a ring of its own, where the code starts from null links that stay null (`InitAsWrittenStaysNull`). A hit is counted as a reference (`RecycledWhileHeld`). A buffer already in front is not moved (`ReleaseFrontAsWrittenBreaks`). Running out of buffers is reported to the caller of `buffer_read`.
- Pool allocator. A block shorter than its list record is freed only where the record has room (`FreeExact`, `ShortFreeFails`).
- Printing. A number argument passes through a signed 32-bit variable; this is kept, and `PrintsExactly` says when it matters.

## Model

| member | source | states |
|---|---|---|
| `KheapMemory.WithSize` | kernel/memory/kmalloc.cpp:25-34 | Assigning the size field keeps both flag bits of the header and drops the two low bits of the value. |
| `KheapMemory.WithAlloc` | kernel/memory/kmalloc.cpp:15-23 | Setting the allocated flag keeps the size and the other flag. |
| `KheapMemory.WithLeft` | kernel/memory/kmalloc.cpp:15-23 | Setting the left-allocated flag keeps the size and the other flag. |
| `KheapMemory.HeaderBits` | kernel/memory/kmalloc.cpp:15-23 | The header word is the size, a multiple of 4, plus 2 if allocated, plus 1 if the left neighbour is. |
| `KheapMemory.UnlinkedKeepsLinks` | kernel/memory/kmalloc.cpp:74-89 | After the two link updates of a removal the words link exactly the list without the removed block, in both directions. |
| `KheapMemory.LinkedKeepsLinks` | kernel/memory/kmalloc.cpp:68-72 | After an insertion the words link exactly the new block followed by the old list, in both directions. |
| `KheapAsWritten.InsertAsWrittenExact` | kernel/memory/kmalloc.cpp:64-72 | With 0 for null, the insertion as written leaves the links of the longer list if and only if the previous-word of the block already read 0 and either the list was empty and `kmem` lies at a multiple of 2^16, or it was not empty and the block is block 0. |
| `KheapAsWritten.FirstInsertAsWritten` | kernel/memory/kmalloc.cpp:58-72 | The first call removes block 0, leaving a null list, and inserts it again; the words then spell the list of block 0 if and only if `kmem` lies at a multiple of 2^16. |
| `KheapAsWritten.RemoveAsWrittenExact` | kernel/memory/kmalloc.cpp:74-89 | With 0 for null, the removal as written leaves the links and the head of the shorter list if and only if neither neighbour in the list is block 0. |
| `KheapAsWritten.RemoveAsWrittenFails` | kernel/memory/kmalloc.cpp:74-89 | Two requests of 100 and the release of the first leave a list of two blocks, the second being block 0; removing the first as written sets the list to null and block 0 is lost. |
| `KheapTiling.EveryByteCovered` | kernel/memory/kmalloc.cpp:119-199 | In a tiling every byte below the end header lies in exactly one block. |
| `KheapTiling.PlaceKeepsTiling` | kernel/memory/kmalloc.cpp:119-153 | Splitting or taking a whole free block keeps blocks end to end, multiples of 4, at least 8 bytes, with no two free neighbours. |
| `KheapTiling.ReleaseKeepsTiling` | kernel/memory/kmalloc.cpp:170-199 | Freeing a block and merging it with its free neighbours keeps the tiling and leaves no two free neighbours. |
| `KheapTiling.ReleaseUndoesPlace` | kernel/memory/kmalloc.cpp:119-199 | Freeing the block just placed gives back the tiling from before, block for block. |
| `KheapTiling.AllFreeIsInitial` | kernel/memory/kmalloc.cpp:58-62 | A tiling with nothing allocated is the single initial block. |
| `KheapTiling.PlaceKeepsLive` | kernel/memory/kmalloc.cpp:119-153 | Placing leaves every other allocated block where it is, with its size. |
| `KheapTiling.ReleaseKeepsLive` | kernel/memory/kmalloc.cpp:170-199 | Freeing leaves every other allocated block where it is, with its size. |
| `KheapTiling.AllocatedAfterPlace` | kernel/memory/kmalloc.cpp:148-148 | The sum of allocated sizes over the whole tiling grows by the size of the placed block. |
| `KheapTiling.AllocatedAfterRelease` | kernel/memory/kmalloc.cpp:164-164 | The sum of allocated sizes over the whole tiling shrinks by the size of the freed block. |
| `KheapTags.SplitTagged` | kernel/memory/kmalloc.cpp:123-146 | The header, footer and flag writes of a split give every block of the new tiling its size, its flags and, when free, a footer equal to its header. |
| `KheapTags.WholeTagged` | kernel/memory/kmalloc.cpp:135-146 | The same for a block taken whole. |
| `KheapTags.MergedTagged` | kernel/memory/kmalloc.cpp:183-198 | The same for the writes that form a merged free block. |
| `KheapLists.NeighbourTags` | kernel/memory/kmalloc.cpp:170-191 | The left-allocated bit, the footer before a block and the header after it locate exactly the free neighbours of the block. |
| `KheapLists.PlacedListsFree` | kernel/memory/kmalloc.cpp:119-140 | After a placement the free list holds exactly the free blocks of the new tiling. |
| `KheapLists.FreedListsFree` | kernel/memory/kmalloc.cpp:170-199 | After a free the free list holds exactly the free blocks of the new tiling. |
| `KheapLists.RequestSize` | kernel/memory/kmalloc.cpp:95-100 | The block for a request holds header and payload, is a multiple of 4 and at least the minimum, and wastes fewer than 4 bytes above it. |
| `KheapAsWritten.AsWrittenPlaceExact` | kernel/memory/kmalloc.cpp:98-140 | With the size as written, `place` keeps the tiling and hands out room for header and payload if and only if it takes the whole block, or the request is at least 5 and leaves remainder 1 or 2 modulo 4. |
| `KheapAsWritten.AsWrittenPlaceFails` | kernel/memory/kmalloc.cpp:98-140 | In the initial heap a request of 3 breaks the tiling, and one of 8 gets a block of 8, with no room for its header. |
| `KheapAsWritten.SearchAsWrittenExact` | kernel/memory/kmalloc.cpp:102-112 | The search as written gives a free block that fits, or nothing when there is none, if and only if the list has a head and either a fitting block is listed past it before block 0, or block 0 is free and fits, or neither block 0 nor any free block fits. |
| `KheapAsWritten.SearchAsWrittenFails` | kernel/memory/kmalloc.cpp:102-112 | After three legal calls the search as written gives a live block to one request and refuses another that a free block would hold. |
| `KheapAsWritten.EndHeaderAsWrittenExact` | kernel/memory/kmalloc.cpp:183-191 | With the end header left as zero, `coalesce` sees the state of the right neighbour if and only if the block is not the last one. |
| `KheapAsWritten.FirstFreeAsWritten` | kernel/memory/kmalloc.cpp:58-62 | Whatever the first request, its block is the last one, and freeing it takes the end header for a free block whose links lie past the end of memory. |
| `Kheap.Heap.CopyHeaderToFooter` | kernel/memory/kmalloc.cpp:49-52 | The last word of the block becomes its header; no other word changes. |
| `Kheap.Heap.RemoveFromFreeList` | kernel/memory/kmalloc.cpp:74-89 | The linked list loses exactly this block, and only link words change. |
| `Kheap.Heap.InsertIntoFreeList` | kernel/memory/kmalloc.cpp:68-72 | The linked list gains this block in front, and only link words change. |
| `Kheap.Heap.Place` | kernel/memory/kmalloc.cpp:119-153 | The words afterwards represent the placed tiling and its free list; byte count, tags and links agree, and no payload of a live block changes. |
| `Kheap.Heap.Coalesce` | kernel/memory/kmalloc.cpp:170-199 | The words afterwards represent the merged tiling and its free list, and no payload of another live block changes. |
| `Kheap.Heap.FindFit` | kernel/memory/kmalloc.cpp:102-112 | The search ends, at the first listed block that is large enough, or at the end of the list. |
| `Kheap.Heap.Kmalloc` | kernel/memory/kmalloc.cpp:95-117 | Takes the allocation step of the run model. Null if and only if the request is empty, above 65535, or larger than every free block less its header; otherwise exactly one block comes into use, with room for header and request and at most 12 bytes longer than the request, or 15 in all. The byte count grows by its size. Every invariant and every word of a live payload is kept. |
| `Kheap.Heap.Kfree` | kernel/memory/kmalloc.cpp:159-168 | Null does nothing. A live pointer takes the free step of the run model: its block and no other goes out of use, every other live block keeps its size, the byte count drops by the size of the block, and every invariant and every word of another live payload is kept. |
| `Kheap.Heap.UserWrite` | kernel/memory/kmalloc.cpp:116-116 | A store anywhere in the payload handed out disturbs no header, footer or link. |
| `Kheap.Heap.constructor` | kernel/memory/kmalloc.cpp:56-62 | The initial words represent one free block, listed, with nothing allocated. |
| `KheapRuns.StepKeepsGood` | kernel/memory/kmalloc.cpp:95-199 | Every `kmalloc` and legal `kfree` keeps tiling and free list in agreement. |
| `KheapRuns.AfterAnyRun` | kernel/memory/kmalloc.cpp:95-199 | After any run from the initial heap: a tiling without adjacent free blocks, a free list of exactly the free blocks each once, live blocks that never overlap, and a byte count that fits 16 bits. |
| `KheapRuns.DrainedIsInitial` | kernel/memory/kmalloc.cpp:159-199 | Any run that has freed everything, in whatever order, ends in the single initial free block. |
| `KheapRuns.LiveBlocksStay` | kernel/memory/kmalloc.cpp:95-199 | No step moves, resizes or frees a live block other than the one it is asked to free. |
| `KheapRuns.MallocAnswer` | kernel/memory/kmalloc.cpp:95-117 | `kmalloc` answers null if and only if the request is empty, above the maximum, or larger than every free block; otherwise a block that was not live, with room for the request. |
| `KheapRuns.MallocBytes` | kernel/memory/kmalloc.cpp:95-153 | The same in bytes: when the answer is null, which one block comes into use otherwise, that it lies at the end of a free block, and how little is taken beyond the request. |
| `KheapRuns.FreedIsFirst` | kernel/memory/kmalloc.cpp:170-199 | After a free the first listed block is free and covers the block freed. |
| `KheapRuns.FreeUndoesMalloc` | kernel/memory/kmalloc.cpp:95-199 | `kfree` straight after `kmalloc` restores the tiling. |
| `KheapRuns.BytesMove` | kernel/memory/kmalloc.cpp:148-164 | Every step moves the byte count by exactly the size of the block handed out or taken back, and a failed request by nothing. |
| `Paging.IdxInjective` | kernel/arch/x86/paging.h:14-21 | The four table indices determine the virtual page. |
| `Paging.OnePointer` | kernel/memory/vmm.cpp:11-38 | In the forest two table pointers to one table are the same entry of the same table, and no entry points to a root. |
| `Paging.EntrySlotOfRoots` | kernel/memory/vmm.cpp:23-38 | Pages under different roots end in different entries, and different pages in different entries of the last level. |
| `Paging.HangKeepsForest` | kernel/memory/vmm.cpp:15-18 | Hanging a zeroed page under an absent entry keeps the tables a forest. |
| `Paging.HangKeepsWalk` | kernel/memory/vmm.cpp:15-18 | Hanging a table changes no translation and no user access from any table. |
| `Paging.HangKeepsEntry` | kernel/memory/vmm.cpp:15-18 | After hanging a table every entry found before is found again, and an entry found only now lies in the new table. |
| `Paging.LeafWalk` | kernel/memory/vmm.cpp:45-48 | Writing the entry where a walk stops, large or not, changes the translation of exactly the pages whose walk stops there, to the frame that entry now gives them. |
| `Paging.LargeFrameBits` | kernel/arch/x86/paging.h:51-53 | A large entry gives the pages under it the consecutive frames of one aligned large frame. |
| `Paging.LargeEntryExact` | kernel/memory/vmm.cpp:30-48 | When the walk of a page meets a large entry, mapping the page leaves every other translation alone if and only if the entry already mapped that large frame with those bits. |
| `PathTables.TableInjective` | kernel/memory/vmm.cpp:23-38 | In the forest, pages whose ways share a table agree on every index above it. |
| `PathTables.HangTable` | kernel/memory/vmm.cpp:15-18 | A table hung under an entry lies on the way of exactly the pages that pass the entry; every other way is as before. |
| `PathTables.HangMissing` | kernel/memory/vmm.cpp:15-18 | Exactly the pages that pass the entry then miss one table fewer. |
| `PathTables.MissingNone` | kernel/memory/vmm.cpp:23-38 | A walk finds an entry if and only if no table is missing on its way. |
| `PathTables.NeededCount` | kernel/memory/vmm.cpp:23-38 | The tables missing on the way to a page, as a set, number what the walk has still to allocate; a large entry ends the way. |
| `PathTables.NeededOneMore` | kernel/memory/vmm.cpp:42-43 | One more page of a range needs, beyond what the earlier pages need, exactly the tables still missing on its way. |
| `PathTables.GetAsWrittenExact` | kernel/memory/vmm.cpp:23-38 | `getaddrpte` as written indexes no null table if and only if the missing tables do not outnumber the free pages, or just the last one is lacking and the page is its first. |
| `PathTables.GetAsWrittenFails` | kernel/memory/vmm.cpp:23-38 | With empty tables and no free page, page 1 makes it index a null table. |
| `Ram.DecodeEncode` | kernel/arch/x86/paging.h:42-66 | The bit fields of an encoded entry read back as the entry. |
| `Ram.EncodeDecode` | kernel/arch/x86/paging.h:42-66 | Writing back the fields of any 64-bit word gives the word. |
| `Ram.EntryBits` | kernel/arch/x86/paging.h:42-66 | Each field of an encoded entry lies at its bit position in the word. |
| `Ram.PointerRoundTrip` | kernel/arch/x86/paging.h:70-72 | A kernel pointer to any frame below the top of memory survives the trip through an entry's address field and is never null. |
| `Ram.FillByteIsZero` | kernel/memory/vmm.cpp:17-17 | The byte a new table is filled with is zero whatever the layer. |
| `Ram.FreeListPush` | kernel/memory/pmm.cpp:18-22 | One word written makes the page the head of the linked free list. |
| `Ram.FreeListPop` | kernel/memory/pmm.cpp:30-36 | The head page and the word in it give the rest of the linked free list. |
| `Vmm.Machine.PmmFree` | kernel/memory/pmm.cpp:18-22 | Takes the free step of the page runs; no table and no translation changes. |
| `Vmm.Machine.PmmAlloc` | kernel/memory/pmm.cpp:30-36 | Takes the allocation step of the page runs: null if and only if the list is empty, otherwise its first page, which was in nobody's hands and is no table. |
| `Vmm.Machine.PagesGood` | kernel/memory/pmm.cpp:18-36 | In every valid state no page is in two of: free list, hands of a caller, page tables. |
| `Vmm.Machine.PmmFreeRange` | kernel/memory/pmm.cpp:24-28 | Exactly the pages lying wholly inside the range are added, each once. |
| `Vmm.Machine.NewRoot` | kernel/memory/vmm.cpp:67-70 | Null if and only if no page is free; otherwise one free page becomes a root that maps nothing, and no other translation changes. |
| `Vmm.Machine.DerefPte` | kernel/memory/vmm.cpp:11-21 | Null if and only if the entry is absent and allocation is not asked for or no page is free; at most one table is added, from the first free page, and else nothing changes; no translation changes. |
| `Vmm.Machine.GetAddrPte` | kernel/memory/vmm.cpp:23-38 | The entry at which the hardware walk of the address ends; with allocation, none if and only if the tables missing before the call outnumber the free pages. Exactly the missing tables are taken from the free list, as far as it goes, and only the way to this page changes. |
| `Vmm.Machine.MapPages` | kernel/memory/vmm.cpp:40-51 | Called where `ReturnsExact` says it returns. Fails if and only if the distinct tables missing for the pages it would visit outnumber the free pages, and takes exactly those pages. On success a page that shares an entry with pages of the rounded range translates to the frame the last of them wrote there, with the given bits, and every other page of every root translates as before. On failure the same holds of the pages done so far, and the next one has no entry. |
| `Vmm.LeafPageMapped` | kernel/memory/vmm.cpp:42-47 | For a page with a 4 KB entry this means: page k of the range translates to frame k from the start with the given bits, and a page outside the range translates as before. |
| `Vmm.RangeIsBytesExact` | kernel/memory/vmm.cpp:41-42 | The pages visited are exactly those that hold a byte of the request, if and only if the request does not run past the end of the address space or, being empty, starts at a page above 0. |
| `Vmm.BytesMapped` | kernel/memory/vmm.cpp:40-51 | With 4 KB entries, the page of each byte of the request translates to the frame as far from that of the physical address as the byte's page is from the first, and a page that holds no byte of it translates as before. |
| `Vmm.MapOneAsWrittenExact` | kernel/memory/vmm.cpp:23-49 | With the indices of the word stored at the address, naming page w in place of page v, exactly v gets the translation asked for if and only if w is v with a 4 KB entry, or v already had that translation and the entry of w already gave w the one now written. |
| `Vmm.MapOneAsWrittenFails` | kernel/memory/vmm.cpp:23-49 | With empty tables, address 0x1000 and the word there 0, page 0 is mapped in place of page 1. |
| `Vmm.LastHitInRange` | kernel/memory/vmm.cpp:42-47 | In a range of at most 2^36 pages the page at offset k is mapped by the k-th step. |
| `Vmm.NextFrame` | kernel/memory/vmm.cpp:42-47 | The frame number stored advances by one per page, modulo the width of the field, even when the physical address wraps. |
| `Vmm.GuardNeverFailsExact` | kernel/memory/vmm.cpp:41-42 | The loop guard holds of every page if and only if the last page is the top page of the address space, as it is for address 0 and size 0. |
| `Vmm.ReturnsExact` | kernel/memory/vmm.cpp:41-44 | `MapPages` is asked to return: for a range to the top page, if and only if for some number of steps the tables needed outnumber the free pages; 2^36 steps decide. |
| `PathTables.EmptyNeedsAll` | kernel/memory/vmm.cpp:23-38 | All pages of an empty root need at least 2^27 tables. |
| `Vmm.Machine.SetupKvm` | kernel/memory/vmm.cpp:64-80 | With its zeroed table of mappings and the test of the result as written: null if and only if no page is free; otherwise a new root, every free page spent on its tables, and no translation of another root changed. |
| `Vmm.UserAccessExact` | kernel/memory/vmm.cpp:18-46 | A page just mapped is open to user mode if and only if the user bit was asked for and every entry above its own was already open before the call. |
| `Vmm.InitPmmAsWrittenFreesNothing` | kernel/memory/pmm.cpp:38-40 | The range `init_pmm` passes contains no page. |
| `KernelMap.InitVmm` | kernel/memory/vmm.cpp:82-90 | Afterwards every page of the last root slot translates to its kernel frame, and every other page whose walk avoids the two tables written translates as before. |
| `KernelMap.KernelFrameIsKV2P` | kernel/memory/vmm.cpp:85-90 | That frame is `KV2P` of the address in the top 2 GB, and the offset from the start of the slot everywhere else in it. |
| `PmmRuns.RunConserves` | kernel/memory/pmm.cpp:18-36 | Over any run of allocations, legal frees and pages taken for tables no page is lost, invented, or in two places. |
| `PmmRuns.LiveUntilFreed` | kernel/memory/pmm.cpp:18-36 | A page that no step frees stays live, off the free list and out of the tables to the end of the run. |
| `PmmRuns.TableForever` | kernel/memory/vmm.cpp:15-18 | A page that becomes a table is never on the free list or handed out again. |
| `PmmRuns.NotHandedOutTwice` | kernel/memory/pmm.cpp:18-36 | A page handed out and later handed out again, or made a table, was freed in between. |
| `SchedInv.InitInv` | kernel/process/proc.c:8-16 | The booting machine satisfies the invariant. |
| `SchedInv.StepKeepsInv` | kernel/process/scheduler.c:18-116 | Every step of every CPU keeps the invariant of locks, interrupt nesting, ownership of processes and process states. |
| `SchedTheorems.RunInv` | kernel/process/scheduler.c:18-116 | The invariant holds in every state of every interleaving. |
| `SchedTheorems.NeverTwoCpus` | kernel/process/scheduler.c:37-71 | No process is executed by two CPUs, and the process a CPU executes is its current one. |
| `SchedTheorems.MutualExclusion` | kernel/process/scheduler.c:30-73 | At most one thread is between taking and releasing the table lock, across context switches. |
| `SchedTheorems.RunningMeansOneCpu` | kernel/process/scheduler.c:43-71 | Whenever the lock is free a process is RUNNING if and only if it is the current process of a CPU, and of only one. |
| `SchedTheorems.IdleTimerDoesNotYield` | kernel/syscall/trap.c:14-22 | A CPU in its own thread with interrupts on has no current process, so its timer interrupt does not yield. |
| `SchedTheorems.TrapsDoNotNest` | kernel/syscall/trap.c:14-22 | A timer interrupt, also one inside `acquire` or just before a return, never finds the process in a trap already. |
| `SchedTheorems.PidsAreUnique` | kernel/process/proc.c:21-36 | Processes in use have distinct positive pids. |
| `SchedTheorems.PidCounter` | kernel/process/proc.c:16-34 | The counter exceeds its first value by the number of processes created, so an `int` holds it until 2^31 - 1 is passed. |
| `SchedTheorems.StateChanges` | kernel/process/proc.c:21-43 | The state of a process changes by five steps of the CPU that has it in hand and by no other: UNUSED to EMBRYO when found, EMBRYO to UNUSED or RUNNABLE at the end of creation, RUNNABLE to RUNNING before dispatch, RUNNING to RUNNABLE in `yield`. |
| `SchedTheorems.SearchSkipsUsed` | kernel/process/proc.c:21-31 | `create_proc` takes a slot, or reports a full table, only past slots that were not UNUSED at some point of its search. |
| `SchedTheorems.SchedConditions` | kernel/process/scheduler.c:89-99 | Every call of `sched` meets the four conditions it lists. |
| `SchedTheorems.ReleasedByHolder` | kernel/process/scheduler.c:37-73 | Every release of the lock is by the CPU that holds it. |
| `SchedTheorems.FlagComesBack` | kernel/process/scheduler.c:101-115 | A thread that yields gets back the interrupt flag it had, whichever CPU resumes it and whatever ran in between. |
| `SchedTimer.TimerYields` | kernel/syscall/trap.c:18-21 | Between a timer interrupt of a process, or its call of `yield`, and the return from it, the process sets itself RUNNABLE. |
| `SchedTimer.NotDispatchedBeforeSwitch` | kernel/process/scheduler.c:101-116 | From then until it has switched away, no CPU dispatches it. |
| `SchedTimer.TrapReturns` | kernel/syscall/trap.c:14-22 | The trap of a timer interrupt returns with interrupts on to where the process was interrupted. |
| `SchedTimer.InterruptsOnBetweenScans` | kernel/process/scheduler.c:23-30 | Whenever the scheduler is about to take the table lock, interrupts are on. |
| `SchedTimer.EveryTimerIsAStep` | kernel/syscall/trap.c:14-22 | Wherever a process runs with interrupts on, a timer interrupt is a step of the run. |
| `SchedTimer.NeverStuck` | kernel/process/scheduler.c:18-116 | In every state of every run the CPU that has the table lock can go on, and every CPU when nobody has it. |
| `SchedTheorems.BoundedBypass` | kernel/process/scheduler.c:23-75 | While a process stays RUNNABLE a CPU dispatches each other slot at most once. |
| `SchedAsWritten.InitSerial` | kernel/process/proc.c:8-16 | The booting machine satisfies the invariant of the unlocked protocol. |
| `SchedAsWritten.StepKeepsSerial` | kernel/process/scheduler.c:18-116 | Every step without the commented-out locks, creation included, keeps the table lock with the one CPU whose scheduler is inside its scan. |
| `SchedAsWritten.OneCpuAtATime` | kernel/process/scheduler.c:111-116 | With all those lock calls left out, at most one CPU has a process in any state of any run. |
| `SchedAsWritten.SchedConditionsAsWritten` | kernel/process/scheduler.c:89-116 | At every call of `sched` the lock, nesting and state conditions still hold, and interrupts are off if and only if they were off as the process entered `yield`. |
| `SchedCreate.PidsAreUniqueAsWritten` | kernel/process/proc.c:18-65 | Created without the lock, processes have distinct positive pids in every run in which each CPU starts creating only when no other is. |
| `SchedCreate.CreatedSlotIsNotChosen` | kernel/process/proc.c:18-65 | In such a run no scheduler has chosen a slot that is being created. |
| `SchedCreate.FindAsWrittenExact` | kernel/process/proc.c:21-31 | `create_proc` as written reads past the table if and only if no slot is UNUSED, and finds an UNUSED slot of the table, or nothing when there is none, if and only if some slot is UNUSED or the memory past the table does not read as UNUSED. |
| `SchedCreate.FindAsWrittenFails` | kernel/process/proc.c:21-31 | With one slot, in use, and zeroed memory behind it, the slot taken is not in the table. |
| `SchedQuiet.RunningMeansOneCpuAsWritten` | kernel/process/scheduler.c:43-71 | Without the locks a RUNNING process is the current one of exactly one CPU, which has the table lock; with one creator at a time a process is RUNNING if and only if a CPU has marked it and it has not yet set itself RUNNABLE. |
| `SchedQuiet.InterruptsOffAtSched` | kernel/process/scheduler.c:98-99 | Without the locks interrupts are off at every call of `sched`, if no `yield` is called with interrupts on; the timer's is not. |
| `SchedQuiet.EveryTimerIsAStep` | kernel/syscall/trap.c:14-22 | In such a run a timer interrupt finds a process outside the scheduling code, where it is a step of the run, or a CPU without a process, where it does nothing. |
| `SchedQuiet.FlagComesBackAsWritten` | kernel/process/scheduler.c:101-116 | In such a run `yield` returns with the interrupt flag it was entered with, whichever CPU resumes it. |
| `SchedQuiet.TimerYieldsAsWritten` | kernel/syscall/trap.c:18-21 | Without the locks and with one creator at a time, a process still sets itself RUNNABLE between a timer interrupt, or its call of `yield`, and the return from it. |
| `SchedQuiet.NotDispatchedBeforeSwitchAsWritten` | kernel/process/scheduler.c:101-116 | From then until it has switched away, no CPU dispatches anything. |
| `SchedQuiet.StateChangesAsWritten` | kernel/process/proc.c:21-43 | The changes of state are the five of `StateChanges`, each from and to the same states. |
| `SchedCreate.TwoCreatorsOneSlot` | kernel/process/proc.c:21-33 | Two CPUs creating at once can end up with the same slot. |
| `SchedCreate.TwoCreatorsOnePid` | kernel/process/proc.c:33-34 | Two CPUs creating at once in different slots can end up with the same pid. |
| `Pci.ClosedReach` | kernel/devices/pci/HostController.cpp:39-47 | A set of buses closed under bridges contains every bus reachable from it. |
| `Pci.HostController.EnumerateFunction` | kernel/devices/pci/HostController.cpp:12-22 | Lists the function and the functions of the buses newly visited behind it, each once; newly visited buses are reachable and closed into the visited ones. |
| `Pci.HostController.EnumerateDevice` | kernel/devices/pci/HostController.cpp:24-37 | The same for a device. Function f below 8 of it is listed if and only if vendor 0xFFFF is not read from function 0 and f is 0, or the header type of function 0 is at least 128 and vendor 0xFFFF is not read from f. |
| `Pci.HostController.EnumeratePciBus` | kernel/devices/pci/HostController.cpp:39-47 | Ends on every topology, cycles included; lists each visible function of the newly visited buses once. |
| `Pci.HostController.AttachedDevices` | kernel/devices/pci.c:102-133 | Lists a function if and only if it is visible and its bus is reachable from a starting bus, and lists it once. The visited set is indexed with exactly the reachable buses, so 8 entries are enough if and only if every reachable bus is below 8. |
| `Pci.AttachedByBytes` | kernel/devices/pci/HostController.cpp:12-47 | The list in register values: bus 0, with buses 1 to 7 if the header type of (0, 0, 0) is at least 128, and each bus behind a listed function of class 6 and subclass 4, are listed whole, 32 devices with their functions; no other bus has a listed function. |
| `Pci.BusEightIsReached` | kernel/devices/pci.c:102-106 | A single bridge from bus 0 to bus 8 makes an 8-entry array be indexed past its end. |
| `Pci.HostController.AttachedDevicesAsWritten` | kernel/devices/pci/HostController.cpp:49-71 | The C++ text lists the right functions if and only if the host bridge is not multi-function or nothing visible is reachable. |
| `Pci.MultiHostIsAttached` | kernel/devices/pci/HostController.cpp:57-66 | A present multi-function host bridge is itself reachable and visible, so the C++ text then lists too little. |
| `ConfigSpace.AddressInjective` | kernel/devices/pci/Device.hpp:27-51 | Two registers have the same packed address if and only if they lie in one aligned word of one function. |
| `ConfigSpace.AddressBits` | kernel/devices/pci/Device.hpp:27-51 | The bits of an address: enable, seven zeros, bus, device, function, and the offset rounded down to a word. |
| `ConfigSpace.ByteIs` | kernel/devices/pci/Device.hpp:154-157 | The byte at an offset is found in its word, eight bits up for each offset past the start of the word. |
| `ConfigSpace.Ports.Write8` | kernel/devices/pci/Device.hpp:159-165 | The byte written becomes the value; every other byte of every function keeps its own. |
| `ConfigSpace.Ports.Write16` | kernel/devices/pci/Device.hpp:167-173 | The two bytes become the value, except that in the last lane of a word the upper byte is lost; every other byte keeps its own. |
| `ConfigSpace.Ports.PciWrite16` | kernel/devices/pci.c:42-48 | The same write at the offset rounded down to even. |
| `ConfigSpace.Ports.Write32` | kernel/devices/pci/Device.hpp:175-178 | The four bytes of the aligned word become the value; every other byte keeps its own. |
| `ConfigSpace.Ports.Read` | kernel/devices/pci/Device.hpp:154-157 | The low 8, 16 and 32 bits are the bytes from the offset on, within its word. |
| `ConfigSpace.ReadBack16` | kernel/devices/pci/Device.hpp:154-173 | Reading back a 16-bit write gives the value if and only if it fits in the lanes from the offset on. |
| `ConfigSpace.Ports.MemberAccess` | kernel/devices/pci/Device.hpp:112-125 | An access through `->` returns the register, or for 32 bits off a word boundary its word shifted down by the offset within it, and its write-back changes no byte if and only if it is 8 or 16 bits wide, or at the start of its word, or the word is zero. |
| `Ring.UnlinkKeepsRing` | kernel/buffercache.c:17-20 | Two pointer updates leave a proper ring of the remaining buffers in the same order. |
| `Ring.PushFrontKeepsRing` | kernel/buffercache.c:10-15 | Linking both neighbours leaves a proper ring with the buffer in front. |
| `Ring.PushFrontAsWrittenBreaks` | kernel/buffercache.c:10-15 | The function as written leaves no ring with the buffer in front, whatever the ring before. |
| `Ring.InitAsWrittenStaysNull` | kernel/buffercache.c:22-29 | Pushing any buffers as written from null links leaves every next link null. |
| `Ring.ReleaseFrontAsWrittenBreaks` | kernel/buffercache.c:71-77 | Releasing the front buffer as written leaves no buffer pointing at it, so a scan from it never ends. |
| `BufferCache.ValidOnce` | kernel/buffercache.c:31-64 | No block is cached validly in two buffers. |
| `BufferCache.Cache.constructor` | kernel/buffercache.c:22-29 | The zeroed buffers form one ring that satisfies the invariant. |
| `BufferCache.Cache.SataSync` | kernel/sata.h:4-7 | A dirty buffer is written to its block and cleaned; a clean one is filled; either becomes valid. |
| `BufferCache.Cache.BufferGet` | kernel/buffercache.c:31-56 | The first buffer claiming the block, with one more holder; else the first unheld clean buffer from `lru` on, given to the block; else none, exactly when no buffer claims it and all are held. |
| `BufferCache.Cache.BufferRead` | kernel/buffercache.c:58-64 | The disk does not change; the buffer returned holds what the disk holds unless a holder has unwritten edits; no held buffer is recycled and no other buffer changes. |
| `BufferCache.Cache.BufferWrite` | kernel/buffercache.c:66-69 | The disk changes at exactly this block, to the buffer's data. |
| `BufferCache.Cache.BufferRelease` | kernel/buffercache.c:71-77 | One holder fewer; the last one makes the buffer the most recently used and leaves the order of the rest. |
| `BufferCache.RecycledWhileHeld` | kernel/buffercache.c:33-53 | With hits uncounted, a buffer still held reads as free if and only if its holders equal the hits since it was loaded, modulo 2^32. |
| `Stdio.ParseDigits` | libc/stdio.c:11-36 | The numeral of every number parses back to it and starts with zero only for zero. |
| `Stdio.DigitsUnique` | libc/stdio.c:11-36 | It is the only numeral without a leading zero that does. |
| `Stdio.ReverseRange` | libc/stdio.c:27-34 | The in-place swaps reverse the range and touch nothing else. |
| `Stdio.SprintBase` | libc/stdio.c:13-36 | Divide-then-reverse writes exactly the numeral and a terminator, returns its length and touches nothing else. |
| `Stdio.StrCpy` | libc/stdio.c:3-9 | Copies the string and a terminator and returns the position of the terminator. |
| `Stdio.Vsprintf` | libc/stdio.c:38-71 | Writes exactly the text of the recursive formatter and a terminator, returns its length and touches nothing else. |
| `Stdio.FormatConcat` | libc/stdio.c:38-71 | Formatting distributes over concatenation of formats, the second taking the arguments the first left. |
| `Stdio.PrintsExactly` | libc/stdio.c:47-55 | A number argument prints as itself if and only if it is below 2^31 or in the top 2^31 of the 64-bit range. |
| `Stdio.PrintsNumber` | libc/stdio.c:47-60 | `%u` prints the base-10 numeral, and `%x` after `0x` the base-16 numeral, without leading zeros, of its argument through a signed 32-bit variable, which below 2^31 is the argument; each takes one argument. |
| `Stdio.PrintsText` | libc/stdio.c:61-66 | `%s` prints its argument and takes it. |
| `Stdio.PrintsNothing` | libc/stdio.c:45-67 | A conversion with any other letter prints nothing and takes no argument. |
| `Stdio.PrintsItself` | libc/stdio.c:40-44 | A format without percent signs is its own text. |
| `Pool.RoomTestExact` | kernel/libcppk/test_generator.cpp:75-75 | The 64-bit test for room is right if and only if the sum does not wrap. |
| `Pool.FreeExact` | kernel/libcppk/test_generator.cpp:87-99 | Freeing a block writes its record inside the pool and leaves the list readable, whatever is allocated and written afterwards, if and only if no block starts within the record, and the record lies in the used part of the pool or no request too large for the block fits the rest. |
| `Pool.ShortFreeFails` | kernel/libcppk/test_generator.cpp:87-99 | Freeing the only block, 3 bytes long, does not: a later block and one write to it destroy the list. |
| `Pool.LongBlockHasRoom` | kernel/libcppk/test_generator.cpp:93-97 | Every block at least as long as a record meets that condition. |
| `Pool.AllocAnswer` | kernel/libcppk/test_generator.cpp:58-84 | `allocate` fails if and only if every listed block is too short and the used part plus the size exceeds 512; otherwise it gives a listed block that is long enough, or the start of the unused part. |
| `Pool.FreedIsReused` | kernel/libcppk/test_generator.cpp:58-99 | A freed block is not in use, and the next request of its size gets it. |
| `Pool.StaticPool.Allocate` | kernel/libcppk/test_generator.cpp:58-84 | The first listed block that fits, else fresh bytes of the pool, else failure exactly when they do not fit; what is handed out was not in use, every block in use stays so with its size, and the list stays readable. |
| `Pool.StaticPool.Deallocate` | kernel/libcppk/test_generator.cpp:87-99 | The block joins the list in front and is no longer in use; every other block in use stays so with its size; writing the record damages no other record and no other block. |
| `Pool.StaticPool.UserWrite` | kernel/libcppk/test_generator.cpp:81-83 | Any write inside a block in use damages no record of the list. |
| `Pool.Disjoint` | kernel/libcppk/test_generator.cpp:58-99 | No byte lies in two blocks, in use or free, and all lie in the used part of the pool. |
| `List.Deque.PushFront` | kernel/libcppk/list.hpp:31-47 | The contents gain the value in front; links, size and ownership agree. |
| `List.Deque.PushBack` | kernel/libcppk/list.hpp:49-65 | The contents gain the value at the back. |
| `List.Deque.PopFront` | kernel/libcppk/list.hpp:67-78 | The contents lose their first value and that node goes back to the allocator; an empty list is left alone. |
| `List.Deque.PopBack` | kernel/libcppk/list.hpp:80-91 | The contents lose their last value and that node goes back to the allocator; an empty list is left alone. |
| `List.Deque.Clear` | kernel/libcppk/list.hpp:97-101 | Every node goes back to the allocator, none twice, and the list is empty. |
| `List.Deque.Walk` | kernel/libcppk/list.hpp:103-122 | The forward walk yields the contents. |
| `List.BackwardIsReverse` | kernel/libcppk/list.hpp:31-91 | Following previous-links from any position meets the nodes before it in reverse. |

## Left out

- Heap: `kmem` is read as 16-bit words at even offsets, which is how all its fields lie; single bytes of a payload are not modelled. `operator new` and `operator delete` only forward.
- SchedTheorems.PidsAreUnique: pids are unbounded integers; `PidCounter` says when the `int` counter would overflow, and what happens then is not covered.
- SchedAsWritten.SchedConditionsAsWritten: if a process calls `yield` with interrupts on, a timer interrupt inside it is not a step of the run without the locks. The code calls `yield` only from the timer, with interrupts off, and then nothing is left out (`EveryTimerIsAStep`).
- SchedAsWritten.StepKeepsSerial: the same, and for timer interrupts in the scheduler's own thread after such a `yield`.
- SchedAsWritten.OneCpuAtATime: the same.
- SchedQuiet.RunningMeansOneCpuAsWritten: the same.
- Scheduler: sleeping, exit and fork, address-space switches and stack set-up of a new process; `acquire`, `release` and the context switch are atomic steps.
- ConfigSpace.Ports.MemberAccess: registers are plain memory, with no read-only or write-one-to-clear bits.
- PCI: printing, string tables, BAR sizing, capabilities and MSI-X.
- BufferCache.Cache.BufferWrite: the disk is a map; `sata_sync` is its header comment, and the disk queue is not modelled.
- Pool.StaticPool.Deallocate: a block is freed with the size it was allocated with, and where `FreeExact` says the record has room; a block of no bytes is not freed.
- Pool.StaticPool.Allocate: sums past 2^64, for which `RoomTestExact` says the test is wrong.
- Stdio.Vsprintf: arguments match the format and the format does not end in a lone percent sign; otherwise the code reads arguments or characters that are not there.
- List: allocation and the copy of a value never fail.
- `monotonic_buffer_resource` and `bitset`: they would only add easy members.
- LAPIC, IOAPIC, PIT, UART, keyboard, TSS, IDT, CPUID, boot and assembly code, `vfs`, `fs` and ext2: device plumbing, stubs or unfinished code.
