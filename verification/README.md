# FrontierOS, verified in Dafny

A model of the parts of the FrontierOS kernel whose correctness spans many calls, with proofs over all inputs, all runs and
all reachable states. `dafny verify dfyconfig.toml` checks the whole project.

## What is modelled

**Virtual memory.** `Bytes`, `Pool`, `Physical` and `Sv39` give frames as 4096 bytes, the frame allocator, and the bit
layout of addresses and page table entries. `Tree` and `TableState` say what it means for frames to hold a three-level page
table, and `PageTable` is the table itself: mappers created on demand, counted, and reclaimed from the bottom up, all stored
as little-endian words in those frames. `HardwareWalk` is the hardware's own reading of the same bytes, by the standard's
layout, and `Protection` what it lets user code and the kernel do in stacks and trap contexts. `TableRuns` compares
every call with a plain finite map, and `Machine` does so for any number of tables over one allocator, bytes included;
`TableLife` is the end of a table. `RangeRuns` and `RangeAllocator` are the doubly linked list of page ranges. `Areas`,
`Layouts`, `AreaLife`, `PageBytes` and `Space` are areas and address spaces with everything their destructors rely on.
`Neighbours`, `AreaCopy`, `Fork`, `ForkSteps`, `UserSpace` and `ForkProcess` are copies of spaces, and `Isolation` what
parent and child can do to each other: nothing. `StackLayout`, `KernelStacks` and `TaskResources` are where stacks and trap
contexts lie and whose they are.

**Tasks and blocking.** The kernel is not preempted, so the code between two task switches is one step. `Sync` gives mutexes,
semaphores and condition variables as objects updated in place, and as transitions of values. `Tasks` is the state machine of
the processor, the ready queue, the sleeping tasks, all wait queues and the processes; `Processes` is the family of processes,
`TaskPlaces`, `TaskHomes`, `Families`, `MutexRuns`, `Waiters` and `SemaphoreRuns` prove what every step keeps, and `TaskRuns`
that it holds in every run. `Outcomes` says of each call on an object who gets it, who waits, who is refused and who is woken,
and `Returns` that over every run a task comes out of such a call only with what it went in for. `Timers` is the timer heap and `IdleLoop` the search of the idle loop. `Scheduler`, `Processor` and `Calls` are the code
itself, on objects updated in place, each call proved to be a step of the state machine.

**Byte streams.** `ByteBuffers` are user buffers cut at page boundaries and their iterator, `RingBuffer` the circular buffer,
`Pipe` one pass of a read or write, `PipeRuns` any interleaving of them, `PipeUsers` the same from user memory to user
memory, and `ExecArgs` the command line pushed by `exec`.

## How to read it

- A panic of the kernel is the outcome `Panic`. Where a source `unwrap`, `panic!` or error return cannot be reached, the model
  proves so in place with `assert false`.
- A snapshot (`Shot`) is a page table and the machine around it as one value; most facts about calls are lemmas about the
  snapshots before and after. In the same way `Shows(s)` says that the scheduler's objects stand as the state machine in `s`.
- A mapper frame's place in the tree is kept in a ghost map from tree nodes to frames, and the list of range nodes in a ghost
  sequence; the real state is the bytes, the records and the pointers.
- Frame numbers are below 2^44, as everywhere in the source. Counts and sizes are unbounded integers; addresses, page numbers,
  entries and timer expiries carry their 64-bit behaviour explicitly, with the wrap-around of a release build, which is what
  the Makefile builds by default.
- The clock, the memory contents a writer finds, and whether the other end of a pipe is open are parameters.
- Areas of a space, and tasks of a process that ends, are visited in no particular order where the source goes through them
  in key order; the recursion of `mark_zombie` through child processes is one set of tasks, which `MarkedAreUnder` justifies.
- Tasks, processes and tables are named by the identity of their control blocks, which is never used again.
- A call that is refused, such as locking a mutex twice, brings the task back to user code; that the trap handler then ends it
  is one of the runs.

Where what the code does is not what one would expect, that is stated as a result with its exact condition:

- `AreaLife.New`: a failed mapping panics, except at the trampoline page.
- `TaskResources.TaskUserResources.New`: every failure to give a task its areas panics.
- `PageBytes.WriteMultiPages`: an unaligned start must not reach a page boundary.
- `TableRuns.StaysInStep` with `OtherNumberSevers`: page numbers that differ only above bit 27 are one page but two trackers.
- `Physical.PhysicalMemory.DeallocFrame`: frames below the first managed one can be freed.
- `ByteBuffers.TranslatedByteBuffers`: buffers at the end of the address space.
- `Timers.NoneDueLeft` with `ObstacleIsFar`: expiries beyond 2^63 hide sleepers that are due.
- `IdleLoop.GivesUpIff`: the kernel stops while tasks sleep or wait, if none is ready at the time.
- `Processors.Processor.ExitCurrent`: the exit of a root task stops the kernel if one of its tasks waits somewhere.
- `MutexRuns.StrandedIff`: a task that exits with a mutex locked leaves those who wait behind.
- `SemaphoreRuns.NegativeOvergrants`: a negative first count.

An exhausted allocator leaves an idle mapper behind, so what needs the absence of idle mappers (`Tight`) says so, and `Machine`
remembers whether any call ever ran out of frames.

## Model

| member | source | states |
|---|---|---|
| `Physical.PhysicalMemory.constructor` | src/memory/allocator.rs:267-284 | after `init` every frame of the range is free and none is live |
| `Physical.PhysicalMemory.AllocFrame` | src/memory/allocator.rs:290-302 | a free frame is handed out, cleared, and moves from the free to the live side; it fails exactly when no frame is free, and then changes nothing |
| `Physical.PhysicalMemory.DeallocFrame` | src/memory/allocator.rs:308-314 | refuses exactly what was never handed out or is free already, except that frames below the first managed one are accepted, and only these spoil the books; else the frame goes back to the free side |
| `Pools.Partition` | src/memory/allocator.rs:256-314 | free and live numbers are disjoint and together are the whole managed interval |
| `Pools.GivesMoves` | src/memory/allocator.rs:290-302 | allocation takes a number that was free and not live and moves exactly that one |
| `Pools.GivesLeast` | src/memory/allocator.rs:290-302 | of all free numbers the least is handed out |
| `Sv39.PageIndexes` | src/memory/page_table_riscv.rs:239-248 | the loop computes the three nine-bit fields of a page number, highest first |
| `Sv39.IndexesDetermineVpn` | src/memory/page_table_riscv.rs:239-248 | two page numbers have the same three indexes if and only if they agree in their low 27 bits, and the indexes join back to those bits |
| `Sv39.EntryRoundTrip` | src/memory/page_table_riscv.rs:113-138 | an entry made from a frame number and flags reads back as both, and is valid exactly when the V flag was given |
| `Sv39.GetVpnOfBaseVa` | src/memory/page_table_riscv.rs:257-284 | the base address of a 27-bit page number is canonical, page-aligned and leads back to the page number |
| `Sv39.BaseVaOfGetVpn` | src/memory/page_table_riscv.rs:257-284 | a canonical page-aligned address is the base address of its page number |
| `Bytes.WordOfWithWord` | src/memory/page_table_riscv.rs:171-173 | storing one 64-bit word of a frame is read back and leaves all other words alone |
| `Tree.CountAfterWrite` | src/memory/page_table_riscv.rs:194-214 | writing a valid entry over an invalid one raises the number of valid entries by one below 512, erasing a valid one lowers it by one above zero: the two count errors cannot occur |
| `TableState.NewMapperSound` | src/memory/page_table_riscv.rs:360-371 | hanging a cleared frame under an empty slot keeps the tree, its counts, its ownership and its whole translation |
| `TableState.PageWriteSound` | src/memory/page_table_riscv.rs:381-391 | writing the last-level entry of a page keeps the tree and its counts and changes the translation of that page only |
| `TableState.UnlinkSound` | src/memory/page_table_riscv.rs:443-471 | removing an empty mapper from its parent keeps the tree, its counts and its whole translation |
| `TableState.TightAfterUnmap` | src/memory/page_table_riscv.rs:433-472 | after the bottom-up reclamation no mapper is left without a page below it, if there was none before |
| `PageTables.PageTable.Incr` | src/memory/page_table_riscv.rs:194-201 | counts up, or refuses at 512 without change |
| `PageTables.PageTable.Decr` | src/memory/page_table_riscv.rs:207-214 | counts down, or refuses at zero without change |
| `PageTables.PageTable.constructor` | src/memory/page_table_riscv.rs:295-303 | an empty table on one cleared frame: nothing mapped, nothing tracked, no mapper but the root |
| `PageTables.PageTable.MapWithoutAlloc` | src/memory/page_table_riscv.rs:342-392 | the exact result for every page number, by its low 27 bits; on success exactly one page of the translation changes, missing mappers are created on free frames and nothing moves; on exhaustion the translation is unchanged; none of the other errors can occur |
| `PageTables.PageTable.UnmapWithoutDealloc` | src/memory/page_table_riscv.rs:406-474 | the exact result for every page number; exactly the one page leaves the translation; the mappers dropped are on its walk, and the lowest one kept is not empty |
| `PageTables.PageTable.Map` | src/memory/page_table_riscv.rs:489-501 | the exact result for every page number, in the order in which the source tests; on success the page leads to a cleared frame that was free and is now tracked under the full number; on failure translation and trackers are unchanged and every frame is accounted for |
| `PageTables.PageTable.Unmap` | src/memory/page_table_riscv.rs:512-518 | the exact result; the page leaves the translation, its tracker leaves too, and owned and free frames only trade places |
| `PageTables.PageTable.Translate` | src/memory/page_table_riscv.rs:529-547 | the walk returns the frame of the page in the abstract translation, or none if it is not mapped |
| `HardwareWalk.HardwareAgrees` | src/memory/page_table_riscv.rs:113-138 | the address translation of section 4.3.2 of the RISC-V Privileged Architecture 20211203 with the Sv39 parameters, which reads addresses, entries and words in memory by its own layout, reaches from every 64-bit address exactly the frame and byte that the table says, if and only if the address is canonical and its page is mapped with flags that make a leaf and permit the access in that mode; no entry ever has a reserved bit set |
| `HardwareWalk.KernelData` | src/memory/page_table_riscv.rs:342-392 | a page mapped RW is read and written by the kernel, executed by nobody and shut to user code |
| `HardwareWalk.KernelCode` | src/memory/page_table_riscv.rs:342-392 | a page mapped RX is read and executed by the kernel, written by nobody and shut to user code |
| `HardwareWalk.UserData` | src/memory/page_table_riscv.rs:342-392 | a page mapped RWU is read and written by user code, and by the kernel while `SUM` is set, and executed by nobody |
| `TableRuns.Perform` | src/memory/page_table_riscv.rs:342-518 | any of the four calls, on any page number, answers as a plain finite map would, given what the allocator had to offer, which is exact; it touches only its own page, the frame kept for its number and frames owned or free; new pages are clear and no other byte changes |
| `TableRuns.PagesAreIndependent` | src/memory/page_table_riscv.rs:342-518 | after any run of calls what became of a page is decided by the calls on that page alone |
| `TableRuns.ReadsAsMapped` | src/memory/page_table_riscv.rs:342-392 | a page mapped by a call reads as that call mapped it, through any run without a further call on it |
| `TableRuns.StaysInStep` | src/memory/page_table_riscv.rs:489-518 | frames stay with mapped pages if and only if no call takes the entry of a page away by another number than its frame is kept under, or without giving the frame back |
| `TableRuns.OtherNumberSevers` | src/memory/page_table_riscv.rs:512-518 | unmapping by a number that differs above bit 27 takes the page away, keeps its frame and reports failure |
| `TableRuns.MapUnmapRestores` | src/memory/page_table_riscv.rs:489-518 | on a table without idle mappers `map` followed by `unmap` of a page restores the mappers, the free and the live frames and the whole translation |
| `TableRuns.FootprintDetermined` | src/memory/page_table_riscv.rs:361-369 | on tables without idle mappers the translation alone decides which mappers exist |
| `TableRuns.ThreeFramesSuffice` | src/memory/page_table_riscv.rs:353-391 | with three free frames an unmapped page with flags can always be mapped |
| `Machines.FrameHasOnePlace` | src/memory/allocator.rs:290-314 | in every state of the machine each frame is free, or holds one mapper of one table, or is tracked for one page of one table, and only one of these |
| `Machines.OneSteps` | src/memory/page_table_riscv.rs:342-518 | what one table does leaves all tables sound and apart, all live frames owned, and every other table with the same translation and the same bytes |
| `Machines.Machine.Do` | src/memory/page_table_riscv.rs:342-518 | any call on any table keeps the partition of frames, is answered as the plain state of that table and the frames the machine has decide, and leaves translation and bytes of every other table |
| `Machines.Machine.Store` | src/memory/page_table_riscv.rs:582-588 | a byte stored through the frame of a page changes that byte of that table and nothing else of any table |
| `Machines.Machine.Create` | src/memory/page_table_riscv.rs:295-303 | a new table joins on one free frame, whatever address space it is for, or the error that none is free; every other table is as before |
| `Machines.Machine.Remove` | src/memory/frame.rs:72-77 | a table that is dropped gives back exactly the frames it owned, and no drop fails |
| `Machines.Machine.Run` | src/memory/page_table_riscv.rs:295-518 | every sequence of creations, calls, stores and drops keeps the partition of frames, ends in what serving the jobs one by one on plain states gives, and each job had exactly the frames that were free; as long as none ran out of frames no mapper is idle in any state on the way |
| `Machines.TablesAreIndependent` | src/memory/page_table_riscv.rs:295-518 | in any run over any number of tables the translation and every byte of a table are what the jobs on that table alone make of them |
| `Machines.ReadsAsStored` | src/memory/page_table_riscv.rs:582-588 | a byte reads as it was last stored, through any run that does not store to it again or take its page away |
| `Machines.SameMapsSameFree` | src/memory/page_table_riscv.rs:489-518 | whatever happened in between, when the same pages are mapped in the same tables again, as many frames are free again: none is lost to mappers |
| `Machines.MapUnmapGivesBack` | src/memory/page_table_riscv.rs:489-518 | in a machine that never ran out of frames, mapping a page of any table and unmapping it gives back every frame |
| `Machines.ThreeFramesMap` | src/memory/page_table_riscv.rs:353-391 | in a machine an unmapped page is mapped whenever three frames are free |
| `RangeRuns.ChangeToggles` | src/memory/allocator.rs:173-226 | in each of the four cases of a change exactly the pages of the range get the other status and the managed range stays |
| `RangeRuns.ChangeAlternates` | src/memory/allocator.rs:92-104 | after every change, merging included, neighbouring intervals have different status again |
| `RangeRuns.SearchIff` | src/memory/allocator.rs:136-163 | because intervals alternate, one interval holds the whole range if and only if all its pages are managed and have the same status |
| `RangeAllocator.Link` | src/memory/allocator.rs:73-85 | exactly which of the four pointers change when two nodes are linked, for every earlier wiring, and that no others do |
| `RangeAllocator.InsertTwo` | src/memory/allocator.rs:191-200 | three links put two new nodes into the list and leave it doubly linked and free of cycles |
| `RangeAllocator.Remove` | src/memory/allocator.rs:92-104 | linking the neighbours of a node takes it out of the list and leaves the list well formed |
| `RangeAllocator.LinkedListPageRangeAllocator.constructor` | src/memory/allocator.rs:116-126 | manages the given range, with no page used |
| `RangeAllocator.LinkedListPageRangeAllocator.FindRangeNodes` | src/memory/allocator.rs:136-163 | the search ends, and finds the interval that holds the range if and only if there is one |
| `RangeAllocator.LinkedListPageRangeAllocator.MergeRange` | src/memory/allocator.rs:92-104 | the node goes if and only if it separates two intervals of the same status |
| `RangeAllocator.LinkedListPageRangeAllocator.ChangeInside` | src/memory/allocator.rs:191-200 | a range strictly inside its interval: the list becomes the one with two new marks |
| `RangeAllocator.LinkedListPageRangeAllocator.ChangeRight` | src/memory/allocator.rs:201-209 | a range at the right end of its interval: one new mark, and the next mark merged away if it no longer separates anything |
| `RangeAllocator.LinkedListPageRangeAllocator.ChangeLeft` | src/memory/allocator.rs:210-218 | a range at the left end: the mark changes, one new mark, and the changed one merged away if it no longer separates anything |
| `RangeAllocator.LinkedListPageRangeAllocator.ChangeWhole` | src/memory/allocator.rs:219-224 | a whole interval: its mark changes, and both ends are merged away where they no longer separate anything |
| `RangeAllocator.LinkedListPageRangeAllocator.Change` | src/memory/allocator.rs:173-226 | succeeds if and only if the range is not empty, lies inside the managed range and has the other status throughout, and then changes exactly its pages |
| `RangeAllocator.LinkedListPageRangeAllocator.Alloc` | src/memory/allocator.rs:236-238 | succeeds exactly on managed ranges with no page in use, and adds them to the used pages |
| `RangeAllocator.LinkedListPageRangeAllocator.Dealloc` | src/memory/allocator.rs:248-250 | succeeds exactly on non-empty ranges of used pages, and takes them out |
| `Areas.MapOne` | src/memory/area.rs:248-260 | the exact condition for success, the page mapped as the area says with a cleared frame if framed, and nothing else touched |
| `Areas.MapAll` | src/memory/area.rs:298-303 | succeeds if and only if no page is mapped yet, the flags will do and the frames suffice for pages and missing mappers together; on failure the pages before the failing one are mapped, and which one failed is exact |
| `Areas.UnmapOne` | src/memory/area.rs:274-286 | the exact condition for success, and only this page leaves translation and trackers |
| `Areas.UnmapAll` | src/memory/area.rs:312-317 | succeeds if and only if every page is mapped and, if framed, tracked; then all of them are gone |
| `Areas.NextCanMap` | src/memory/area.rs:298-303 | whether the next page can be mapped, said of the state in which the whole mapping began |
| `AreaLife.New` | src/memory/area.rs:133-152 | all four outcomes with their exact conditions: refused range, success, the panic of the dropped half-made area, and the one failure that is survived, at a trampoline page under an identical mapping, which unmaps the trampoline page |
| `AreaLife.StopDecides` | src/memory/area.rs:144-151 | where mapping stopped decides whether the half-made area can be dropped: only at the trampoline page |
| `AreaLife.Destroy` | src/memory/area.rs:92-99 | panics if and only if some page cannot be unmapped or the range is not in use; else all pages and the range are given back |
| `AreaLife.Drop` | src/memory/area.rs:385-389 | dropping an area that belongs to a space never panics, and takes exactly that area out |
| `PageBytes.WritePage` | src/memory/area.rs:353-358 | the exact outcome, panics included; on success the data is spliced into the one page |
| `PageBytes.WriteMultiPages` | src/memory/area.rs:367-383 | panics if and only if the data does not fit, the area owns no frames, or an unaligned start has a page boundary ahead; else the data is spliced into the area's bytes and nothing else changes |
| `Layouts.LaidAdded` | src/memory/space.rs:228-239 | a new area keeps the areas disjoint, their union equal to the used pages and to the mapped pages but the trampoline, and the trackers equal to the framed pages |
| `Layouts.LaidRemoved` | src/memory/space.rs:249-255 | taking an area away keeps the same |
| `Spaces.Space.Push` | src/memory/space.rs:228-239 | panics exactly when the data is refused; else the area joins the set with its data written: its two errors cannot occur |
| `Spaces.Space.AllocArea` | src/memory/space.rs:467-542 | creating and pushing an area: the exact conditions of each outcome, the panic included, the invariant of the space after all but a panic, and the bytes of the new area |
| `Spaces.Space.Pop` | src/memory/space.rs:249-255 | succeeds exactly on ranges in the set; then pages, range and area are gone and the invariant holds |
| `Spaces.Space.RecycleDataPages` | src/memory/space.rs:822-824 | dropping all areas never panics, touches only pages that were in use, and leaves no area, no used range, no tracker and no page but possibly the trampoline |
| `Spaces.Space.Discard` | src/memory/space.rs:28-36 | a space that is dropped, areas first and then the table, makes free exactly the frames it owned, and no destructor fails |
| `Spaces.Space.MapTrampoline` | src/memory/space.rs:400-413 | the exact result; the trampoline page alone changes, outside the reserved ranges, and the invariant holds |
| `AreaCopy.CopyAnother` | src/memory/area.rs:201-217 | copies as many pages as both areas have, page for page, from another table or another area of the same one, and writes nothing else; another table is left as it was; the error for areas without frames is exact |
| `Neighbours.Bystander` | src/memory/page_table_riscv.rs:342-518 | a step of one table leaves a table that owns other frames sound, with the same translation and the same bytes |
| `Neighbours.RunsLeaveOthersAlone` | src/memory/page_table_riscv.rs:342-518 | so does any number of steps |
| `Forks.FromAnother` | src/memory/area.rs:170-189 | all outcomes with exact conditions, in another space and in the same one, where the range is always taken; on success the new area has the range, flags and bytes of the other, on frames of its own; an area without frames is mapped, refused and unmapped again |
| `UserSpaces.NewBare` | src/memory/space.rs:206-215 | a root mapper on a free frame and nothing else, or the error that no frame is free |
| `UserSpaces.NewUserFromAnother` | src/memory/space.rs:970-990 | with exclusions given the copy has every area that is not excluded, with the same flags and bytes on disjoint frames, and no other; with none given it has no area at all; and the trampoline; the original is untouched; an error leaves free and live frames as they were; and with three frames for each page and three more it always succeeds |
| `ForkSteps.NextFits` | src/memory/space.rs:976-987 | each area to be copied finds its range free in the copy |
| `ForkSteps.NextCanMapAll` | src/memory/space.rs:976-987 | three frames for each page still to be copied are enough for the next area and leave enough for the rest |
| `ForkProcess.ExcludedRanges` | src/task/model.rs:1049-1057 | the excluded ranges are exactly the stack and trap context ranges of the tasks |
| `ForkProcess.CopyAreaFromAnother` | src/memory/space.rs:575-592 | the exact outcome of each branch, the panic included: no such area, copy over an area that is there, as many pages as both have, or a new area with the same range, flags and bytes; the other space is untouched |
| `ForkProcess.CopiedOver` | src/task/model.rs:311-319 | copied over an area of the same range, the bytes are the same page for page, and all other copies are what they were |
| `ForkProcess.ForkMemory` | src/task/model.rs:301-352 | the child has every area of the parent but the stacks and trap contexts of its tasks, with the same flags and bytes, and besides these only a root stack with the parent's bytes and the parent's trap context but for the kernel stack, on frames disjoint from the parent's; the parent is untouched; it succeeds if the root task has its areas, the rest can be copied and there are three frames for each page; an error in the copy leaves no frame behind, and any other error means that the root task had no stack or trap context |
| `ForkProcess.WithTrapWords` | src/task/model.rs:330-336 | every word of the copied trap context is that of the parent, but the kernel stack address |
| `Isolation.OwnStepsOnly` | src/memory/space.rs:970-990 | in any interleaving of steps of two spaces on disjoint frames, what one reads, pages, rights and bytes, comes of its own steps alone, and the frames stay disjoint |
| `Isolation.ForkIsolates` | src/task/model.rs:1049-1096 | so it is for parent and child from the fork on, for each of the two |
| `Isolation.ForkIsSnapshot` | src/task/model.rs:301-352 | until the child's first own step its copied areas and its stack hold what the parent's held at the fork, whatever the parent does meanwhile |
| `StackLayout.KernelStacksApart` | src/memory/space.rs:65-71 | kernel stacks of different ids are disjoint with a whole page between them that is in no stack |
| `StackLayout.KidBound` | src/memory/space.rs:65-71 | exactly which ids leave room below the trampoline page, and that the allocator would hand out more |
| `StackLayout.KernelStackAstray` | src/memory/space.rs:65-71 | for every other id the range wraps around to no page numbers at all |
| `StackLayout.UserStacksApart` | src/memory/space.rs:112-119 | user stacks of different tasks are disjoint, above the program, with a whole page below each that is in no stack |
| `StackLayout.TrapCtxsApart` | src/memory/space.rs:156-161 | trap contexts of different tasks are different single pages below the trampoline page |
| `StackLayout.StacksBelowTrapCtxs` | src/memory/space.rs:112-161 | within the stated bound every stack ends below every trap context |
| `KernelStacks.IdAllocator.Alloc` | src/task/allocator.rs:43-55 | an id that was not live becomes live; it fails exactly when all ids are live |
| `KernelStacks.IdAllocator.Dealloc` | src/task/allocator.rs:64-70 | succeeds exactly on live ids |
| `KernelStacks.StackRegistry.New` | src/task/model.rs:42-46 | the exact outcome for the one id the allocator has to give: refused range, mapped stack, or the panic when frames run out; on an error the id goes back and nothing is left mapped |
| `KernelStacks.StackRegistry.Drop` | src/task/model.rs:53-58 | unmapping the stack of a live id cannot fail, and exactly that stack and that id go |
| `KernelStacks.StackRegistry.Guarded` | src/task/model.rs:39-58 | in every state the stacks of live ids are mapped and apart, and the page under each is unmapped, as all else in the kernel space stays below its first extent |
| `TaskResources.TaskUserResources.New` | src/task/model.rs:94-104 | a new task id with its stack and trap context, or, exactly when they cannot both be mapped, a panic: a failure is never returned, because dropping the half-made resource fails |
| `TaskResources.RoomForTask` | src/task/model.rs:120-125 | free ranges off the trampoline page and three frames for each page are enough for both areas |
| `TaskResources.TaskUserResources.DropBoth` | src/task/model.rs:135-140 | the exact result of giving both areas back |
| `TaskResources.TaskUserResources.Drop` | src/task/model.rs:157-165 | for a live task neither area is missing, so the `unwrap` cannot fail; exactly its two areas and its id go |
| `TaskResources.RangesDiffer` | src/memory/space.rs:112-161 | tasks of different ids have ranges all different, page numbers wrapping around or not |
| `Protection.TrapContextIsPrivate` | src/memory/space.rs:523-534 | in the space of any process, at every address of a live task's trap context, user code reaches nothing, and the kernel reads and writes the frame kept for that page |
| `Protection.UserStackIsData` | src/memory/space.rs:467-478 | at every address of a live task's stack its user code reads and writes the frame kept for that page, and nobody executes it |
| `Protection.KernelStackIsPrivate` | src/memory/space.rs:1009-1023 | at every address of a live kernel stack the kernel reads and writes the frame kept for that page, and user code reaches nothing |
| `Protection.TrampolineIsKernelCode` | src/memory/space.rs:400-413 | at every address of the trampoline page the kernel reads and executes the frame given, nobody writes it, and user code reaches nothing |
| `Protection.KernelSeesTheUsersBytes` | src/memory/space.rs:281-304 | the bytes of a buffer as the kernel translates it are those that the program itself reaches at the same addresses, wherever it has access to them |
| `ByteBuffers.TranslatedByteBuffers` | src/memory/space.rs:281-304 | the slices, one after the other, are the places that translating every address on its own gives, and sum to the length; else the error names the first page that is not tracked; a buffer that ends in the last page of the address space is never translated, and one that goes round its end is taken as empty |
| `ByteBuffers.ByteIterator.Next` | src/lang/buffer.rs:88-101 | visits the places of the slices in order, each once, empty slices skipped, and then ends |
| `ByteBuffers.ByteIterator.NextMut` | src/lang/buffer.rs:111-125 | stores at the places of the slices in order and changes no other byte; the error comes exactly at the end |
| `RingBuffers.RingBuffer.ReadByte` | src/lang/buffer.rs:181-199 | takes the oldest byte, or none exactly when the buffer is empty |
| `RingBuffers.RingBuffer.WriteByte` | src/lang/buffer.rs:208-227 | appends a byte, or refuses exactly when the buffer is full |
| `RingBuffers.RingBuffer.constructor` | src/lang/buffer.rs:156-164 | an empty buffer of the given capacity |
| `RingBuffers.WindowHead` | src/lang/buffer.rs:208-227 | a byte stored at the head extends the contents, also across the end of the array |
| `Pipes.Pipe.ReadTurn` | src/fs/pipe.rs:116-142 | one pass of a read: which bytes move and where they are stored; it returns exactly with all its bytes, or from an empty ring with no write end left, and else has drained the ring or got all it asked for; the panic and the error are unreachable |
| `Pipes.Pipe.WriteTurn` | src/fs/pipe.rs:175-204 | one pass of a write: which bytes move and where they are loaded from; it returns exactly with all its bytes put, or with no read end left, and else has filled the ring or put all it had; the panic and the error are unreachable |
| `Pipes.StoredIsLoaded` | src/lang/buffer.rs:111-125 | bytes stored at different places are read back in order |
| `PipeRuns.NothingLost` | src/fs/pipe.rs:104-205 | in every state of every interleaving of readers and writers the bytes written are the bytes read followed by the contents of the ring, and each call has moved as many as it counts |
| `PipeRuns.ShortOnlyWhenClosed` | src/fs/pipe.rs:104-205 | a read returns short only from an empty ring with no write end left, a write only with no read end left |
| `PipeRuns.ReturnsIff` | src/fs/pipe.rs:104-205 | in every interleaving a read returns if and only if it has all its bytes, or the ring is empty and no write end is left; a write if and only if it has put all its bytes, or no read end is left |
| `PipeRuns.EndOfStream` | src/fs/pipe.rs:123-126 | when a read returns short, every byte ever written has been read |
| `PipeRuns.Progress` | src/fs/pipe.rs:104-205 | a pass that does not return moves all it can: the ring is drained or full, or the call has moved all its bytes |
| `PipeUsers.ReadPass` | src/fs/pipe.rs:116-142 | on the objects, one pass of a read among any number of calls is the step of these runs, memory included, and returns exactly when it has all its bytes or meets the end of the stream |
| `PipeUsers.WritePass` | src/fs/pipe.rs:175-204 | and so is one pass of a write, which returns exactly when it has put all its bytes or no read end is left |
| `PipeUsers.AlwaysInOrder` | src/fs/pipe.rs:104-205 | in every state of every interleaving each reader's buffer holds exactly what it has read and each writer's what it has written |
| `PipeUsers.UserToUser` | src/fs/pipe.rs:104-205 | with one reader and one writer the reader's buffer holds the front of the writer's, byte for byte |
| `PipeUsers.StoresKeepTables` | src/memory/space.rs:281-304 | bytes stored through the slices of a translated buffer leave its page table sound with the same translation, and every table beside it untouched |
| `PipeUsers.PlacesDiffer` | src/memory/space.rs:281-304 | the bytes of a buffer of up to 2^39 bytes are at places all different |
| `ExecArgs.PushBytes` | src/task/model.rs:401-406 | pushing bytes one by one, last first, leaves them in order below the old stack pointer and writes nothing else |
| `ExecArgs.PushCommandLine` | src/task/model.rs:388-418 | the exact result; path length, path, argument length and arguments lie contiguously from the final stack pointer up to the top, all in the top stack page, and nothing else is written |
| `ExecArgs.CommandLineReads` | src/task/model.rs:401-418 | a reader from the stack pointer upwards finds both lengths and both strings |
| `ExecArgs.TopPage` | src/memory/space.rs:129-132 | the page below the top of a stack is the stack's last page |
| `Sync.MutexBlocking.Lock` | src/sync/mutex.rs:93-123 | one round of the loop is the transition of the mutex used in all runs; it is refused exactly for the recorded owner and succeeds exactly when no owner exists |
| `Sync.MutexBlocking.Unlock` | src/sync/mutex.rs:125-150 | the call, with its loop over dead waiters, is the transition of the mutex used in all runs; it is refused exactly while another existing task is the owner, and else leaves no owner |
| `Sync.MutexSpin.Lock` | src/sync/mutex.rs:38-55 | the same for the spinning mutex |
| `Sync.MutexSpin.Unlock` | src/sync/mutex.rs:57-67 | the same for the spinning mutex |
| `Sync.SemaphoreBlocking.Up` | src/sync/semaphore.rs:79-92 | the call, with its loop over dead waiters and the count it returns, is the transition of the semaphore used in all runs |
| `Sync.SemaphoreBlocking.Down` | src/sync/semaphore.rs:94-107 | the call, with the count it returns, is the transition of the semaphore used in all runs; it lets the caller through exactly from a positive count |
| `Sync.SemaphoreSpin.Down` | src/sync/semaphore.rs:38-49 | one round of the loop, with the count it returns, is the transition of the spinning semaphore; it takes one exactly from a positive count, and else tries again |
| `Sync.CondvarBlocking.Signal` | src/sync/condvar.rs:42-52 | the first waiter still alive is woken, and those before it are dropped |
| `Sync.PopsFirstAlive` | src/sync/mutex.rs:139-146 | the loop over a queue takes the first task that still exists and drops all before it, or drops all |
| `TaskPlaces.StepKeepsPlaced` | src/task/process.rs:72-155 | every step of a task, of the timer interrupt and of the idle loop, the end of whole processes included, keeps every task in exactly one place, the one its status and position call for |
| `TaskHomes.StepKeepsHoused` | src/task/model.rs:1330-1356 | every step keeps: the tasks of ended processes are exactly those that lie where they were ended, the root task of a standing process has not ended, and a task is on its way only to mutexes of its own process |
| `TaskHomes.EndsOnlyByExit` | src/task/model.rs:557-565 | a task ends by its own exit or by that of the root task of a process at or above its own, and in no other way |
| `TaskHomes.EndedWithItsTasks` | src/task/model.rs:636-638 | a process has ended exactly when all its tasks have, as the test of `wait_pid` assumes |
| `Processes.MarkedAreUnder` | src/task/model.rs:1330-1356 | the recursion through the tables of children ends exactly the process and its descendants |
| `MutexRuns.StepKeepsMutexes` | src/sync/mutex.rs:93-150 | every step keeps: an owned mutex has no `next`, `next` of a standing process is able to run and about to lock, waiters have an owner or a `next`, the recorded owner is a holder, and holders that exist are the recorded owner |
| `MutexRuns.HoldsUntilReleased` | src/sync/mutex.rs:93-150 | a task counts as a holder exactly from the step in which it returns from `lock` to the step in which its `unlock`, or the one inside `wait`, goes through |
| `MutexRuns.MutualExclusion` | src/sync/mutex.rs:93-150 | two live holders of a mutex are the same task, the recorded owner |
| `MutexRuns.SpinBranchIsDead` | src/sync/mutex.rs:100-109 | the branch in which an owned blocking mutex names the caller as `next` is never taken |
| `MutexRuns.NoLostWakeup` | src/sync/mutex.rs:125-150 | while a task waits, the recorded owner holds the mutex, or with none recorded `next` is a task that can run and is about to lock |
| `MutexRuns.StrandedIff` | src/sync/mutex.rs:93-150 | those who wait have nobody to wait for if and only if the recorded owner ended with the mutex locked |
| `MutexRuns.OwnerEnds` | src/task/model.rs:557-565 | that comes about exactly by the exit of the owner, or of a root task over it |
| `MutexRuns.EndedOwnerBlocks` | src/sync/mutex.rs:93-150 | until such an owner is waited for nobody can lock or unlock the mutex |
| `MutexRuns.ReleasedOwnerLets` | src/sync/mutex.rs:96-123 | once it has been waited for, the next task to try gets the mutex, past all who wait |
| `MutexRuns.WaitKeepsMutexes` | src/sync/condvar.rs:54-63 | so it is through a condition variable's wait as well |
| `Outcomes.LockIff` | src/sync/mutex.rs:93-123 | in every reachable state the caller gets the mutex exactly when nobody holds it, is refused exactly when it holds it itself, and waits exactly when another task does |
| `Outcomes.LockFree` | src/sync/mutex.rs:96-123 | with no holder the caller comes back to user code as the owner and a holder, whoever waits |
| `Outcomes.LockTwice` | src/sync/mutex.rs:97-99 | the holder comes back with the error, and nothing changes |
| `Outcomes.LockHeld` | src/sync/mutex.rs:100-118 | while another task holds the mutex the caller ends blocked at the back of its queue, or at the back of the ready queue if it spins, and nothing else moves |
| `Outcomes.UnlockIff` | src/sync/mutex.rs:125-132 | unlocking is refused if and only if another task holds the mutex, and then changes nothing |
| `Outcomes.UnlockReleases` | src/sync/mutex.rs:148-149 | after it the mutex has no owner and the caller does not hold it; no other mutex changes hands |
| `Outcomes.UnlockWakes` | src/sync/mutex.rs:133-147 | the first of those who wait becomes `next`, and ready at the end of the line to try the lock, exactly if someone waits and no existing task is `next` already; nobody else moves |
| `Outcomes.HolderUnlocks` | src/sync/mutex.rs:125-150 | a holder's unlock always succeeds, and if anyone waits, the first of them is about to lock |
| `Outcomes.NewMutex` | src/task/model.rs:843-864 | a new mutex is of the kind asked for, held and waited for by nobody |
| `Outcomes.SignalWakes` | src/sync/condvar.rs:42-52 | a signal readies exactly the first of those who wait, which goes on with locking the mutex it gave up; with none waiting nothing changes |
| `Outcomes.WaitIff` | src/sync/condvar.rs:54-55 | `wait` is refused while another task holds the mutex, and changes nothing then |
| `Outcomes.WaitReleases` | src/sync/condvar.rs:55-62 | else the mutex is handed over as by unlocking, and the caller is blocked at the back of the line |
| `Waiters.StepKeepsEmptyHanded` | src/sync/mutex.rs:93-123 | every step keeps: whoever is on the way to a mutex, inside `lock` or inside `wait`, does not hold it |
| `Returns.StepLeaves` | src/sync/condvar.rs:54-63 | every step leaves a task that is inside `lock`, `wait`, `down` or a sleep where it is, or gives it what it is there for and brings it back to user code: the mutex, which nobody held; one from a positive count, or its turn as the first in the queue, counted as let through; the end of its time |
| `Returns.OutOnlyWithIt` | src/sync/condvar.rs:54-63 | over every run a task comes out of such a call only by an event that does so, or never |
| `Returns.WaitReturnsHolding` | src/sync/condvar.rs:54-63 | over every run a task that gave up a mutex in `wait` and is back in user code was given the mutex again in between |
| `Returns.FellStays` | src/task/model.rs:1330-1357 | a task that was ended in its call never comes back |
| `SemaphoreRuns.StepKeepsSemaphores` | src/sync/semaphore.rs:37-107 | every step keeps: woken tasks are the blocked ones in order; from a first count not negative the queue is as long as the debt, and the calls let through, which are all that come back to user code, are the supply less what is left |
| `SemaphoreRuns.NeverOvergranted` | src/sync/semaphore.rs:37-107 | calls let through never exceed the first count and the `up` calls, for both kinds |
| `SemaphoreRuns.NegativeOvergrants` | src/sync/semaphore.rs:79-107 | from every negative first count two calls break that bound |
| `Outcomes.DownIff` | src/sync/semaphore.rs:37-107 | a `down`, or its retry, brings the caller back to user code if and only if the count is positive, and then takes one from it and counts it as let through; else the caller is ready in line to try again, or blocked at the end of the queue |
| `Outcomes.UpWakes` | src/sync/semaphore.rs:79-92 | `up` adds one and readies exactly the first of those who wait, if the count shows that anyone does, and counts it as let through; from a first count not negative the count always shows it |
| `Outcomes.NewSemaphore` | src/task/model.rs:773-794 | a new semaphore is of the kind and count asked for, and nobody waits |
| `TaskRuns.AlwaysGood` | src/task/process.rs:72-155 | all of this holds in every state that can be reached from the first task on |
| `TaskRuns.OnePlace` | src/task/process.rs:72-129 | a task is never in two places, nor twice in one: no wakeup queues it twice |
| `TaskRuns.SomePlace` | src/task/process.rs:72-129 | a task that has not ended is in the place its status and position call for |
| `TaskRuns.EndedInLineIff` | src/task/process.rs:76-78 | the idle loop's test for an ended task succeeds exactly on the tasks of processes that have ended |
| `TaskRuns.EndedAsleepIff` | src/task/scheduler.rs:123-125 | and so does the test of the timer check |
| `TaskRuns.EndedInLineHappens` | src/task/process.rs:76-78 | a run in which it does succeed: a root task makes a task and exits before that one ran |
| `TaskRuns.ParentStands` | src/task/model.rs:1343-1354 | in every reachable state every process in a table of children is in that of a process that has not ended; only the first process, and those that ended, are in none |
| `Families.StepKeepsFostered` | src/task/model.rs:1343-1354 | every step keeps it so |
| `Families.ExitAdopts` | src/task/model.rs:1330-1357 | a root task's exit ends exactly its process and those under it, and leaves all below it to the first process; no other process changes its parent |
| `Families.ThreadExits` | src/task/model.rs:557-565 | a task that is not a root leaves its control block when it exits, in no queue, for someone to wait for, and nothing else changes |
| `Families.ForkMakesChild` | src/task/model.rs:1044-1090 | a fork makes one process, a child of the caller's, with one task, its root, at the end of the line |
| `Families.SpawnMakesTask` | src/task/model.rs:1220-1258 | a new task is one more of the caller's process, at the end of the line |
| `Families.WaitedOnce` | src/task/model.rs:1106-1123 | a process that ended is waited for once, and no other loses its parent |
| `Families.ReapedOnce` | src/task/model.rs:449-464 | a task that ended is waited for once, and no other goes |
| `IdleLoop.GivesUpIff` | src/task/process.rs:72-92 | the kernel stops in the idle loop if and only if every task in line has ended and at none of the clock readings, one for each of them and one more, the highest timer of a task that has not ended is due: sleeping and blocked tasks do not keep it going |
| `IdleLoop.GivesUpNear` | src/task/process.rs:72-92 | with expiries up to 2^63 this is: every task in line has ended, and no other task is due at any of these times |
| `IdleLoop.SkippedWereInLine` | src/task/process.rs:72-92 | the tasks dropped are the front of the line; the first other one in line is found, else the first one woken |
| `IdleLoop.FoundWasHighest` | src/task/process.rs:72-92 | with all tasks in line ended, the task found is that of the highest timer, at the first reading at which it is due |
| `IdleLoop.GivesUpOnDue` | src/task/process.rs:88-90 | beyond 2^63 the kernel may stop while a task is due |
| `Processors.Processor.SuspendCurrent` | src/task/process.rs:98-110 | on the objects, the step of the state machine in which the running task joins the line, which keeps every task in one place; the error exactly when none runs |
| `Processors.Processor.SleepCurrent` | src/task/process.rs:117-129 | on the objects, the sleep step of the state machine, with the timer in the heap; the error exactly when none runs |
| `Processors.Processor.Interrupt` | src/trap/handler_riscv.rs:178-182 | the timer interrupt wakes and forgets sleepers exactly as one check of the heap does, then the running task joins the end of the line, all in steps of the state machine |
| `Processors.Processor.ExitCurrent` | src/task/process.rs:141-155 | on the objects, the exit step of the state machine, of a thread or of a whole process; it stops the kernel exactly if a task to be ended waits at a mutex, semaphore or condition variable, or the first process still has children |
| `Processors.Processor.MarkZombie` | src/task/model.rs:1330-1356 | with reference counts as the source tests them, the end of a process and of those under it: each task in line or asleep ends where it is, every other control block is gone, children are adopted, or the kernel stops |
| `Processors.Processor.Schedule` | src/task/process.rs:72-92 | the loop ends; it is the search described by `IdleLoop`, turn by turn against the clock, in steps of the state machine that end with the task found on the processor; the kernel stops exactly if `GivesUpIff` says so |
| `Schedulers.TaskScheduler.CheckTimers` | src/task/scheduler.rs:119-134 | the loop ends; timers are taken in the order of the heap until one is neither due nor of an ended task, the tasks of those due are queued in that order, and each is a step of the state machine |
| `Schedulers.TaskScheduler.RemoveTimer` | src/task/scheduler.rs:137-146 | all timers of the task go, every other one stays |
| `Timers.ChecksExactly` | src/task/scheduler.rs:119-134 | with expiries up to 2^63 no due timer is left, exactly the sleepers that are due are woken, the earliest first, and every other one is kept |
| `Timers.WakesIff` | src/task/scheduler.rs:119-134 | a check wakes someone if and only if the highest timer of a task that has not ended is due |
| `Timers.NoneDueLeft` | src/task/scheduler.rs:119-134 | in general no due timer is left if and only if no sleeper that is not due ranks above one that is |
| `Timers.ObstacleIsFar` | src/task/scheduler.rs:27-34 | such a sleeper is one beyond 2^63 beside a due one up to 2^63 |
| `Timers.FarTimerHides` | src/task/scheduler.rs:27-34 | a heap in which a due timer is left |
| `Calls.Lock` | src/sync/mutex.rs:93-123 | on the mutex and the scheduler together, one round of `lock` is the step of the state machine that `Outcomes` describes, up to the switch |
| `Calls.Unlock` | src/sync/mutex.rs:125-150 | and so is `unlock`, the wakeup included |
| `Calls.LockSpin` | src/sync/mutex.rs:38-55 | the same for the spinning mutex |
| `Calls.UnlockSpin` | src/sync/mutex.rs:57-67 | the same for the spinning mutex |
| `Calls.Down` | src/sync/semaphore.rs:94-107 | the same for `down` |
| `Calls.Up` | src/sync/semaphore.rs:79-92 | the same for `up`, the wakeup included |
| `Calls.UpSpin` | src/sync/semaphore.rs:51-55 | the same for the spinning semaphore |
| `Calls.DownSpin` | src/sync/semaphore.rs:38-49 | the same for the spinning semaphore |
| `Calls.Signal` | src/sync/condvar.rs:42-52 | the same for `signal` |
| `Calls.Wait` | src/sync/condvar.rs:54-63 | the same for `wait`: the mutex is given back and the caller queued and blocked in one step |
| `Calls.WaitSpin` | src/sync/condvar.rs:54-63 | and with a spinning mutex |

## Left out

- ELF loading, `new_user_from_elf`, `new_kernel`, file system inodes and drivers: they rest on libraries or on a fixed memory map.
- Assembly, trap entry and return, satp writes and TLB fences: a context switch is a change of the current task.
- Signals, descriptor tables and the numbering of mutexes, semaphores and condition variables in the tables of a process: easy lookups.
- Exit codes, and the values that `wait_pid` and `wait_tid` return: only which control blocks go is modelled.
- Calls on files as steps of tasks: a task inside a pipe or console read holds a reference more, which also stops the kernel when its process ends.
- Whether blocked tasks ever go on, and whether blocked readers and writers of a pipe do: only safety is stated.
- `translated_string`, `translate_pa`, `copy_area_from_self` and `readable_fork`: they would only add easy members.
- Overflow of a semaphore's or mapper's count beyond 64 bits.
- Alignment of the word that `exec` stores.
- HardwareWalk.HardwareAgrees: accessed and dirty bits are taken to be kept by the hardware, because the kernel's entries leave them to it.
- PageTables.PageTable.MapWithoutAlloc: frame numbers from 2^44 on are excluded, because an entry has no room for them and building it panics.
- ForkProcess.ForkMemory: the ids of the new process and of its kernel stack, and its table of open files, are not part of it.
- UserSpaces.NewUserFromAnother: three frames for each page are sufficient for success, not necessary; what is necessary depends on how pages share mappers.
