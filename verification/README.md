# Proofs about the LK kernel

This project models the central data structures and protocols of the LK kernel in Dafny
and proves what they are for:

- the ARM64 page tables (`arch/arm64/mmu.c`): map, unmap and query over a tree of tables
  refine a partial function from virtual addresses to physical addresses and flags;
- the scheduler and its wait queues (`kernel/thread.c`), and on top of them the mutex, the
  semaphore and the event (`kernel/mutex.c`, `kernel/semaphore.c`, `kernel/event.c`);
- the timer queue under wrap-around time (`kernel/timer.c`);
- a ring of virtio descriptors (`dev/virtio/virtio.c`);
- ports (`kernel/port.c`), the intrusive list (`include/list.h`), the word-wise memory moves
  of `app/stringtests/string_tests.c`, and the init hooks (`top/init.c`).

What the source does in place is modelled in place, by classes and arrays with loops; each
method is proved equal to a function from state to state, and the laws over whole runs are
proved about those functions. One file models one component:

| file | contents |
|---|---|
| `Basics.dfy`, `Arith.dfy` | shared definitions; powers of two, quotients and remainders, ring slots |
| `PteFormat.dfy` | descriptor words and memory attributes (section D5.3 of ARM DDI 0487) |
| `PageTable.dfy`, `Spans.dfy`, `Mapping.dfy` | the tree of tables, what unmapping a range means, what mapping a range means |
| `Mmu.dfy` | class `PageTables`: the tables as arrays, and the operations on them |
| `TableCount.dfy` | how many tables a request needs, and what the allocator's answers decide |
| `AddressSpace.dfy`, `TreeShape.dfy` | laws between the operations, on translations and on the tables themselves |
| `Sched.dfy`, `Steps.dfy`, `Placement.dfy`, `Dispatch.dfy`, `Runs.dfy`, `ThreadFields.dfy` | scheduler state and invariant, operations, where they put threads, order and fairness, runs, the other fields of threads |
| `Threads.dfy` | class `Scheduler`: the operations in place |
| `WaitClients.dfy` | the threads inside one wait queue, over runs |
| `KernelMutex.dfy`, `KernelSemaphore.dfy`, `KernelEvent.dfy`, `WindowStart.dfy`, `MutexWindow.dfy`, `SemaphoreWindow.dfy`, `Locks.dfy` | step machines of the three objects, the windows that timeouts open, and the classes |
| `Timers.dfy`, `TimerTicks.dfy`, `TimerRuns.dfy`, `TimerQueues.dfy` | the queue, the tick with its callbacks, runs, and the class |
| `Virtqueue.dfy` | class `Vring` and the lemmas about its rings |
| `PortBuffers.dfy`, `Ports.dfy`, `PortObjects.dfy` | circular buffer, ports as values, ports as objects |
| `MemMove.dfy`, `InitHooks.dfy`, `IntrusiveList.dfy` | memory moves, init hooks, intrusive list |

## How the model is set up

- **Page tables.** The geometry (page size shift from 12 on, number of levels, entries of the
  top table) is a parameter. Physical frames are arrays of 64-bit descriptor words found by
  address; a ghost tree holds the descriptors that the words are, and records the level, base
  address and parent slot of each table. The allocator answers each request as it likes, and
  refusals are counted. Physical addresses lie below 2^48, as the address field of a
  descriptor demands: the source ors address and attributes together unchecked, and
  `PteFormat.KeptApartIff` says exactly when that loses nothing. The TLB is a set of cached translations: the walker may add any current one at any time, and an
  invalidation drops all that cover the address.
- **Scheduler.** Every operation is one critical section of `thread_lock`, up to and
  including the context switch in it. A call that blocks is two steps; anything may happen in
  between. Threads are named by numbers; the run-queue bitmap is the set of its 1 bits.
- **Callers.** A current thread that blocks, or that a wake-up reschedules, is not idle; only
  the owner releases a mutex, and nobody acquires one that they own (the source panics on both
  in debug builds). A timer that is set is not in the queue (the source panics otherwise).
- **Timers.** At any time all times of interest lie within half the 32-bit range, from the
  earlier of the clock and the head of the queue on. Unbounded times are kept
  beside the 32-bit ones. A callback is any list of sets and cancels, with the clock at each;
  that callbacks only set times after now follows from the minimum delay of 1 in the source.
- **Virtio.** The device takes available chains in order and completes chains in any order,
  each once, also while the used-ring loop runs.

Where code and documentation disagree the model follows the code: `thread_resume` returns
NO_ERROR also for a thread that is not suspended; `event_signal` with reschedule false puts
the waiters at the head of the run queue; broadcast ports may have a big buffer, because
PORT_MODE_BROADCAST is 0 and the test for it never holds.

Six properties that one might expect are false; each is stated exactly, with an input:

- map succeeds on every free range: false, because a failed map may leave an empty table
  (`Mmu.FreshButNotMappable`); it succeeds iff the range is not blocked and the missing tables
  are granted (`Mmu.PageTables.Map`);
- unmap keeps all translations outside the range: iff no block crosses its ends
  (`AddressSpace.UnmapIsExactIff`; one block, `AddressSpace.PageOfBlockStraddles`);
- a free mutex has no queued waiters: in all runs iff no timeout is finite
  (`MutexWindow.FreeMeansNoWaitersIff`); otherwise a waiter may be stuck forever
  (`MutexWindow.StuckWaiter`, `MutexWindow.WedgedForever`);
- no thread waits while a semaphore has resources: in all runs iff no timeout is finite
  (`SemaphoreWindow.NeverStarvedIff`; a run, `SemaphoreWindow.StarvedWaiter`);
- the used-ring loop handles all waiting completions: unless the whole ring is waiting
  (`Virtqueue.Vring.HandleUsed`; a run, `Virtqueue.FullRingIsMissed`);
- the hardware timer is set for the head of the queue: iff the callbacks of the tick that set
  it, if a tick did, took no time (`TimerRuns.HardwareIff`; a run, `TimerRuns.LateHardware`).

## Model

| member | source | states |
|---|---|---|
| Mmu.PageTables.Map | arch/arm64/mmu.c:449-476 | Every call keeps the tree and the TLB current. On success each address of the range translates to its physical address with exactly the given attributes, it was free before, and every other address is as before. On failure every translation is as before. An aligned request in range succeeds if and only if no address of the range is blocked by a block, page or table where its leaf would go, and the allocator grants as many tables as are missing, with a free frame for each: all of this can be told before the call. It asks for exactly the missing tables on success and for no more on failure, and a refusal is counted exactly when one happened. |
| Mmu.PageTables.Unmap | arch/arm64/mmu.c:478-503 | An in-range call succeeds, any other is refused and changes nothing. After success no address of the range is translated, and an address outside is unchanged unless a block that reaches into the range covered it. No table that covers an address of the range is left all clear: it was freed; tables that cover none are as before, and no table is added. |
| Mmu.PageTables.Query | arch/arm64/mmu.c:139-170 | The walk returns the physical address and attributes that the table tree gives the address, or not-found exactly when the tree has no leaf for it. |
| Mmu.PageTables.MapPt | arch/arm64/mmu.c:369-395 | A misaligned request is refused and changes nothing; otherwise the call maps the whole request or leaves all translations as they were, at any level of the tree. |
| Mmu.PageTables.MapAligned | arch/arm64/mmu.c:397-446 | The chunk loop: blocks and pages are chosen by alignment and size, tables are linked on demand, and the way out of a failure undoes exactly what this call added. |
| Mmu.PageTables.MapChunk | arch/arm64/mmu.c:404-433 | One chunk: the test of alignment, size and level decides between a leaf and a table below; a failure leaves all translations of the chunk as they were. |
| Mmu.PageTables.MapTurn | arch/arm64/mmu.c:397-446 | One turn of the loop takes the next chunk of the request and leaves the rest as it was. |
| Mmu.PageTables.MapLeaf | arch/arm64/mmu.c:418-432 | A leaf word is written only into a slot whose word is zero; otherwise the request is blocked. |
| Mmu.PageTables.MapBelow | arch/arm64/mmu.c:407-416 | The chunk is mapped in the child table, found or allocated; if there is none, an allocation was refused or a block is in the way. |
| Mmu.PageTables.RollBack | arch/arm64/mmu.c:442-446 | Unmapping the first size_in - size bytes after a failed chunk restores the translations of the start of the call. |
| Mmu.PageTables.GetPageTable | arch/arm64/mmu.c:252-290 | An invalid slot gets a new cleared table linked into it, a table slot gives its table, and a block, or a refused allocation, gives none and changes nothing; the count of refusals tells these two apart. |
| Mmu.PageTables.NewTable | arch/arm64/mmu.c:259-271 | A new frame is cleared before it is linked, and no table in use changes. |
| Mmu.PageTables.Descend | arch/arm64/mmu.c:407-410 | Finding or linking the child table keeps the tree and the TLB current and changes no translation. |
| Mmu.PageTables.LinkNewTable | arch/arm64/mmu.c:261-277 | The new table is a frame that was not in use, is cleared before it is linked, and changes no translation. |
| Mmu.PageTables.AllocPageTable | arch/arm64/mmu.c:209-233 | An allocation takes a free frame if there is one and the allocator grants it; otherwise the refusal is counted. |
| Mmu.PageTables.PageTableIsClear | arch/arm64/mmu.c:292-309 | True if and only if every descriptor of the table is clear. |
| Mmu.PageTables.UnmapPt | arch/arm64/mmu.c:311-367 | The whole requested range is unmapped at every level; other translations go only with a block that reaches into the range, and every level above is untouched. No table below that covers an address of the range is left all clear. |
| Mmu.PageTables.UnmapChunk | arch/arm64/mmu.c:328-362 | One chunk: a leaf is cleared and invalidated; a child table is unmapped recursively, and freed if it became clear, also if only a part of its slot is in the range. |
| Mmu.PageTables.UnmapBelow | arch/arm64/mmu.c:337-344 | The recursive call for the part of the range in a child table, after which the table is freed exactly if it is clear. |
| Mmu.PageTables.ReclaimTable | arch/arm64/mmu.c:345-351 | The table below the slot is unlinked and freed if and only if all of its entries are clear, which they are after its whole range was unmapped; this changes no translation. |
| Mmu.PageTables.UnlinkAndFree | arch/arm64/mmu.c:348-350 | The slot of a table whose entries are all clear is cleared, and its frame returns to the free frames, once. |
| Mmu.PageTables.InRange | arch/arm64/mmu.c:461-465 | The 64-bit range test accepts exactly the ranges that lie in the address space, wrap-around included. |
| Mmu.PageTables.constructor | arch/arm64/mmu.c:577-619 | The top table is cleared and no address translates; every other frame is free, nothing was allocated and the TLB is empty. |
| Mmu.PageTables.ArchMap | arch/arm64/mmu.c:505-541 | Refuses exactly the addresses outside the address space as out of range, and exactly the misaligned or too long requests as invalid; on success the pages are mapped with the attributes of the flags; on any failure, and for count 0, all translations are as before; every other request succeeds if and only if nothing in the range is blocked and the missing tables are granted. |
| Mmu.PageTables.ArchUnmap | arch/arm64/mmu.c:543-575 | Refuses exactly the addresses outside the address space as out of range, and exactly the misaligned or too long requests as invalid, and then changes nothing; every other request succeeds: no address of the pages is translated, and no table of theirs is left all clear. |
| Mmu.PageTables.MapThenUnmap | arch/arm64/mmu.c:397-503 | A map that succeeds, followed by an unmap of the same range, gives back the very same tables and free frames, if no clear table was there at the start. |
| Mmu.PageTables.MappedWord | arch/arm64/mmu.c:423-432 | The 64-bit word in memory behind a translation, bit by bit: the type in bits 1:0, the page in bits 47:12, and each flag in its place. |
| Mmu.PageTables.ValidRange | arch/arm64/mmu.c:48-51 | Valid are exactly the addresses of the address space. |
| Mmu.PageTables.ArchQuery | arch/arm64/mmu.c:100-207 | Succeeds exactly for the translated addresses, with the physical address and the flags that the descriptor holds. |
| Mmu.PageTables.EntryFits | arch/arm64/mmu.c:269-276 | Every entry holds a page-aligned address below 2^48 and attributes outside the address and type fields. |
| Mmu.PageTables.TlbFill | arch/arm64/mmu.c:139-170 | The walker may cache any current translation at any time; the TLB stays current. |
| Mmu.FreeButNotMappable | arch/arm64/mmu.c:404-446 | A run of two calls: a request for one page fails because the second allocation is refused, and leaves exactly one table below the root; every address is free and yet the first block of the top level cannot be mapped. |
| Mmu.FreshButNotMappable | arch/arm64/mmu.c:404-446 | The same run from the initialization of an address space on. |
| Mmu.PageTables.WriteEntry | arch/arm64/mmu.c:432-432 | Storing the 64-bit word of a descriptor, whose address and attributes fit their fields, makes that entry read back as the descriptor and changes nothing else. |
| AddressSpace.EveryTableReachable | arch/arm64/mmu.c:252-367 | In every state between operations each allocated table is reached from the root by a path of table descriptors. |
| AddressSpace.OneParentSlot | arch/arm64/mmu.c:252-367 | Two table descriptors never point to the same table, and none to the root. |
| AddressSpace.MapThenUnmap | arch/arm64/mmu.c:311-447 | Unmapping exactly the range of a successful map restores the translation of every address. |
| TreeShape.SameTranslationsSameTables | arch/arm64/mmu.c:252-447 | Trees without clear tables that are parts of one tree and translate alike are equal: translations determine the tables. |
| TreeShape.SameTablesAgain | arch/arm64/mmu.c:311-447 | Unmapping exactly the range of a successful map gives back the tables, if none was clear at the start. |
| TreeShape.UnmapLeavesNoClearTable | arch/arm64/mmu.c:328-366 | If no table but the top one is all clear before an unmap, none is afterwards. |
| TreeShape.MapLeavesNoClearTable | arch/arm64/mmu.c:397-440 | The same for a map that succeeds. |
| TreeShape.SweptBelow | arch/arm64/mmu.c:337-351 | Unmapping below a slot and freeing the table behind it if it is clear leaves no clear table at any level below. |
| TreeShape.SweptThen | arch/arm64/mmu.c:328-366 | The turns of the unmap loop together: what one turn pruned stays pruned. |
| TreeShape.SameLevelSame | arch/arm64/mmu.c:252-290 | No two tables of one level cover the same address. |
| TreeShape.FailedShape | arch/arm64/mmu.c:442-446 | After a failed map, rollback included, no table elsewhere has changed. |
| AddressSpace.MappedFlags | arch/arm64/mmu.c:53-98 | After a map with given flags a query of any address of the range gives back exactly those flags. |
| AddressSpace.UnmapIsExactIff | arch/arm64/mmu.c:337-362 | Unmap keeps every translation outside the range if and only if no block crosses an end of the range, which a query at the two ends tells. |
| AddressSpace.LeftoverTableBlocks | arch/arm64/mmu.c:404-413 | An empty table below the root blocks a block mapping of its range, in which every address is free. |
| AddressSpace.PageLeavesTable | arch/arm64/mmu.c:404-446 | That table is what a request for one page leaves when the second allocation is refused. |
| AddressSpace.PageOfBlockStraddles | arch/arm64/mmu.c:337-362 | A concrete tree with one block: unmapping its first page straddles, and takes the translation of the next page with it. |
| AddressSpace.NoTablesValid | arch/arm64/mmu.c:577-619 | A cleared top table is a valid tree in which no address translates. |
| Spans.RollbackRestores | arch/arm64/mmu.c:442-446 | If all of a prefix was mapped into free addresses, unmapping the prefix gives the translations of the start. |
| Spans.SpanTranslatesAlike | arch/arm64/mmu.c:139-170 | All addresses of the block or page that covers an address translate together, at constant offset. |
| Spans.UnmapLeaf | arch/arm64/mmu.c:352-359 | Clearing a leaf removes the translation of exactly the addresses of its block. |
| Spans.TlbAfterUnmapLeaf | arch/arm64/mmu.c:352-359 | Clearing a leaf and invalidating one address of the cleared chunk leaves no stale entry in the TLB. |
| Spans.TlbAfterWrite | arch/arm64/mmu.c:423-432 | Writing a leaf into a clear slot leaves no stale entry in the TLB. |
| Mapping.NextChunk | arch/arm64/mmu.c:398-402 | The chunk of each turn lies in one slot and keeps the request page aligned. |
| Spans.LeafLevelIs | arch/arm64/mmu.c:397-432 | A mapped address gets the largest block that lies in the range, is aligned on both sides and is no larger than 1 GB, or else a page. |
| Mapping.ResultAtRoot | arch/arm64/mmu.c:397-446 | What the chunk loop leaves at the top level is what the caller of map is promised, for success and for failure. |
| TableCount.GrantedIff | arch/arm64/mmu.c:404-446 | A request that is not blocked succeeds if and only if the allocations for its missing tables are all granted. |
| TableCount.MissingSplit | arch/arm64/mmu.c:397-440 | The tables missing for a range are those missing for its parts on the two sides of a slot boundary, none in common. |
| TableCount.MissingBelow | arch/arm64/mmu.c:404-416 | Below its slot a request lacks the table of the slot, if that is clear, and what the part of the request lacks below it. |
| TableCount.MissingLeaf | arch/arm64/mmu.c:417-432 | A leaf that fits its slot needs no table. |
| TableCount.TurnTally | arch/arm64/mmu.c:397-440 | The allocations of one more turn of the loop add up with those before. |
| Mapping.TurnBelowDone | arch/arm64/mmu.c:404-416 | What a turn that goes below its slot does to the request as a whole, from the result of the recursive call: mapped, failed with the reason, and stopped for lack of memory. |
| Mapping.WhichTurn | arch/arm64/mmu.c:404-406 | The test of alignment, chunk size and block size limit tells a leaf from a descent; at the last level it always takes the leaf. |
| PageTable.QueryInSlot | arch/arm64/mmu.c:142-148 | A query is answered by the slot of each level that covers the address. |
| PageTable.TableFillsPage | arch/arm64/mmu.c:292-295 | The 8-byte entries of a table fill a page. |
| PageTable.WriteLeaf | arch/arm64/mmu.c:418-432 | A leaf written into a clear slot, or cleared, changes the translations of that slot only and keeps the tree. |
| PageTable.LinkTable | arch/arm64/mmu.c:270-277 | Linking a cleared table into a clear slot keeps the tree and changes no translation. |
| PageTable.UnlinkTable | arch/arm64/mmu.c:345-350 | Unlinking a clear table keeps the tree and changes no translation. |
| PteFormat.FlagsRoundTrip | arch/arm64/mmu.c:171-203 | Reading back the flags from the attributes that were made from them gives the same flags, whatever the address and type bits are. |
| PteFormat.AttrBitsOf | arch/arm64/mmu.c:53-98 | The attributes, bit by bit: 10 is set; 9:8 are 3 for cached memory and else 0; 4:2 are 2, 0 or 1 for cached, uncached and device memory; 7 is read-only, 6 is user, 54 and 53 are no-execute, 5 is non-secure; all others are 0. |
| PteFormat.FlagBitsOf | arch/arm64/mmu.c:171-203 | The flags that a query reads, bit by bit; memory types from 3 on are the ones it panics on. |
| PteFormat.StoredBits | arch/arm64/mmu.c:423-432 | The same for a stored word, with its type and address fields. |
| PteFormat.AttrsLeaveRoom | arch/arm64/mmu.c:54-98 | The attributes use no address or type bits exactly if the cache flag is one of the three valid ones. |
| PteFormat.DecodeWord | arch/arm64/mmu.c:144-146 | The masks of the source take a packed word apart into the page, attributes and type it was packed from. |
| PteFormat.DecodeEncode | arch/arm64/mmu.c:423-432 | A descriptor whose address is page aligned and below 2^48 and whose attributes fit is read back as it was stored. |
| PteFormat.DecodedFits | arch/arm64/mmu.c:144-146 | The parts of any word fit their fields. |
| PteFormat.KeptApartIff | arch/arm64/mmu.c:423-429 | The or of address, attributes and type can be taken apart again exactly if address and attributes keep to their own bits. |
| PteFormat.WordDecode | arch/arm64/mmu.c:144-146 | Packing what was unpacked gives the same word. |
| PteFormat.ZeroIsClear | arch/arm64/mmu.c:260-261 | A descriptor word is 0 if and only if it unpacks to the clear descriptor. |
| PteFormat.FlagsOfWord | arch/arm64/mmu.c:171-203 | The flags read from a whole word depend on its attribute bits only. |
| Runs.RunKeepsInv | kernel/thread.c:449-615 | In every state of every run of the scheduler operations: a thread is in the run queue of its priority iff it is ready and not idle, in a wait queue iff it is blocked on it, the bitmap says which run queues are non-empty, wait counts are the list lengths, and each CPU runs one thread. |
| Runs.AtMostOneQueue | kernel/thread.c:93-115 | A thread is in at most one queue of all run and wait queues, and a current thread in none. |
| Runs.OpQuiet | kernel/thread.c:402-870 | An operation that does not name a wait queue changes nothing there: neither the queue, nor the return code or readiness of threads other than its own. |
| Sched.GetTopChooses | kernel/thread.c:449-475 | The dispatcher takes the first eligible thread of the highest priority that has one, off its queue, and the idle thread only if no queue has an eligible thread. |
| Sched.GetTopTakes | kernel/thread.c:457-470 | The thread taken was ready, and leaves its queue; nothing else changes. |
| Sched.ReschedKeeps | kernel/thread.c:488-576 | A context switch restores the invariant: the CPU has one running current thread. |
| Sched.EnqueueKeeps | kernel/thread.c:93-115 | Putting a loose thread into the run queue of its priority keeps the invariant. |
| Sched.WaitAddKeeps | kernel/thread.c:1108-1112 | Putting the current thread into a wait queue keeps the invariant. |
| Sched.WaitRemoveKeeps | kernel/thread.c:1155-1161 | Taking a thread out of a wait queue keeps the invariant. |
| Sched.ParkKeeps | kernel/thread.c:502-506 | Between leaving the CPU and being queued the current thread is in no queue, and the rest is consistent. |
| Sched.FirstEligible | kernel/thread.c:457-461 | The first thread of a queue that may run on the CPU, if there is one. |
| Sched.TopPriority | kernel/thread.c:454-472 | The highest priority with a thread that may run on the CPU, if there is one. |
| Dispatch.WakeAllOrder | kernel/thread.c:1198-1240 | Before the dispatch, wake_all leaves in each run queue the waiters of that priority in reverse order, then the current thread if it was enqueued there, then the old queue; the wait queue is empty and the count of woken threads is its old length. With no waiter nothing changes. |
| Dispatch.WakeEachOrder | kernel/thread.c:1218-1228 | The loop pops all waiters; each run queue gets those of its priority in reverse order in front. |
| Dispatch.HeadIsTop | kernel/thread.c:449-475 | The head of the highest non-empty queue is dispatched, if it may run on the CPU. |
| Dispatch.PreemptWithQuantumLeft | kernel/thread.c:663-690 | Among equals at the top priority, a preemption with quantum left changes nothing. |
| Dispatch.PreemptRotates | kernel/thread.c:663-690 | Among equals at the top priority, a preemption without quantum left rotates the queue by one and gives the next thread a full quantum. |
| Dispatch.RoundRobin | kernel/thread.c:729-742 | On one CPU with a fixed set of equal threads at the top priority, the thread at index i of the queue runs after at most 5(i+1) ticks, in which exactly i+1 quanta expire. |
| Dispatch.TickExpires | kernel/thread.c:729-742 | The tick that uses up the quantum rotates the queue. |
| Dispatch.TickWithQuantumLeft | kernel/thread.c:729-742 | A tick with quantum left only counts it down. |
| Placement.YieldGoesLast | kernel/thread.c:637-643 | Before the switch a thread that yields is at the tail of its queue, without quantum, and the other queues are as before. |
| Placement.PreemptGoes | kernel/thread.c:679-687 | Before the switch a preempted thread is at the head of its queue if it has quantum left, and at the tail if not. |
| Placement.WakeOneGoesFirst | kernel/thread.c:1155-1175 | Before the switch the woken thread is in front of the caller, and both in front of the rest of their queues; the wait queue loses its first thread. |
| Placement.WakeOneQuietly | kernel/thread.c:1155-1176 | Without rescheduling the woken thread goes to the head of its queue and no CPU switches. |
| Placement.WakeAllSwitchesIff | kernel/thread.c:1209-1237 | wake_all switches if and only if it is asked to and there is a waiter, which is when it enqueued the caller; it returns the number of waiters. |
| Placement.BlockGoesLast | kernel/thread.c:1108-1120 | A thread that blocks goes to the tail of the wait queue, the count goes up by one, and the run queues are as before. |
| Placement.UnblockGoesFirst | kernel/thread.c:1275-1290 | A timed-out thread leaves its wait queue from any place and goes to the head of its run queue. |
| Placement.UnblockOther | kernel/thread.c:1275-1276 | A thread in no wait queue is left alone, with an error. |
| Placement.ReadiedGoesFirst | kernel/thread.c:287-300 | A sleeper that wakes and a suspended thread that is resumed go to the head of their queue. |
| Placement.ResumeRunsFirst | kernel/thread.c:287-310 | After a resume the resumed thread stands first in its queue and the caller last, and the CPU switches. |
| Placement.ResumeQuietly | kernel/thread.c:287-310 | With interrupts disabled nobody yields, and a thread that is not suspended is left alone. |
| Placement.PrioritySet | kernel/thread.c:858-866 | The priority is clamped above the idle priority, and the thread goes to the head of the queue of its new priority. |
| Placement.ExitWakesJoiners | kernel/thread.c:398-441 | Before the switch the joiners of a dead thread are at the heads of their queues, in reverse order. |
| ThreadFields.FieldsAfter | kernel/thread.c:398-1291 | Every operation, for every thread: priority, real-time flag, CPU binding, quantum and return code change exactly as this operation says; a thread that is dispatched with its quantum used up gets 5. |
| ThreadFields.SwitchEffect | kernel/thread.c:486-615 | The switch: the chosen thread runs on this CPU, the one before it is on none, and every other thread is as before. |
| ThreadFields.TicksLeaveAlone | kernel/thread.c:729-742 | A real-time or idle thread keeps the CPU, and everything is as before, through any number of ticks. |
| ThreadFields.CreatedThenResumed | kernel/thread.c:152-310 | A new thread is suspended with its priority and CPU binding, and a resume puts it at the head of the queue of that priority. |
| ThreadFields.SleepState | kernel/thread.c:780-811 | A thread that sleeps is asleep whoever runs instead. |
| ThreadFields.ExitState | kernel/thread.c:398-441 | A thread that exits is dead, whether it has joiners or is detached. |
| Steps.Yield | kernel/thread.c:626-646 | Keeps the invariant on every CPU. |
| Steps.Preempt | kernel/thread.c:663-690 | Keeps the invariant on every CPU. |
| Steps.TimerTick | kernel/thread.c:729-742 | Keeps the invariant and the current threads. |
| Steps.TickInterrupt | kernel/thread.c:729-742 | A tick and the preemption that it asks for keep the invariant. |
| Steps.SleepStart | kernel/thread.c:772-789 | Keeps the invariant: a sleeping thread is in no queue. |
| Steps.SleepEnd | kernel/thread.c:745-760 | Keeps the invariant: the woken thread is in its run queue. |
| Steps.Resume | kernel/thread.c:294-304 | The critical section of thread_resume keeps the invariant. |
| Steps.ResumeAndYield | kernel/thread.c:287-310 | thread_resume as a whole keeps the invariant. |
| Steps.SetPriority | kernel/thread.c:852-869 | Keeps the invariant, although the priority of a thread that is queued changes. |
| Steps.WaitBlock | kernel/thread.c:1094-1120 | Keeps the invariant up to the context switch of a thread that blocks. |
| Steps.Wake | kernel/thread.c:1154-1175 | Keeps the invariant, and the wait queue loses exactly the woken thread. |
| Steps.WakeOne | kernel/thread.c:1144-1181 | Keeps the invariant, with and without rescheduling. |
| Steps.WakeEachKeeps | kernel/thread.c:1218-1230 | The loop keeps the invariant and empties the wait queue; its count is 0 at the end. |
| Steps.WakeAll | kernel/thread.c:1198-1240 | Keeps the invariant, with and without rescheduling. |
| Steps.Unblock | kernel/thread.c:1269-1291 | Keeps the invariant. |
| Steps.IndexOf | kernel/thread.c:1282-1282 | Where the thread is in the list that it is deleted from. |
| Steps.Exit | kernel/thread.c:398-441 | Keeps the invariant: the dead thread is in no queue, and its joiners are woken. |
| Steps.Create | kernel/thread.c:129-225 | Keeps the invariant: the new thread is in no queue. |
| Steps.WaitInit | kernel/thread.c:1053-1056 | Keeps the invariant: the count of the new queue is its length. |
| Steps.SetRealTime | kernel/thread.c:242-260 | Keeps the invariant. |
| Threads.Scheduler.GetTopThread | kernel/thread.c:449-475 | The nested loops over the bitmap and the queue entries choose what the specification of the dispatcher says, and clear the bitmap bit of an emptied queue. |
| Threads.Scheduler.ThreadResched | kernel/thread.c:488-576 | The field updates, in the source order, are the context switch of the specification. |
| Threads.Scheduler.InsertHead | kernel/thread.c:93-103 | The thread goes to the head of its run queue, and the bit of the queue is set. |
| Threads.Scheduler.InsertTail | kernel/thread.c:105-115 | The thread goes to the tail of its run queue, and the bit of the queue is set. |
| Threads.Scheduler.RemoveFromRunQueue | kernel/thread.c:463-466 | The thread leaves its queue, and the bit is cleared iff the queue became empty. |
| Threads.Scheduler.HighestBit | kernel/thread.c:454-455 | The highest set bit of the bitmap. |
| Threads.Scheduler.ThreadYield | kernel/thread.c:626-646 | Refines the yield of the specification. |
| Threads.Scheduler.ThreadPreempt | kernel/thread.c:663-690 | Refines the preemption of the specification. |
| Threads.Scheduler.ThreadTimerTick | kernel/thread.c:729-742 | Refines the tick, with the same answer on whether to reschedule. |
| Threads.Scheduler.ThreadSleep | kernel/thread.c:772-789 | Refines the start of a sleep. |
| Threads.Scheduler.ThreadSleepHandler | kernel/thread.c:745-760 | Refines the end of a sleep. |
| Threads.Scheduler.ThreadResume | kernel/thread.c:287-310 | Refines resume with the yield after it, which is left out if interrupts are disabled or the thread was not suspended. |
| Threads.Scheduler.ThreadSetPriority | kernel/thread.c:852-869 | Refines the change of priority, with its clamping. |
| Threads.Scheduler.WaitQueueBlock | kernel/thread.c:1094-1120 | Refines blocking, up to the switch. |
| Threads.Scheduler.WaitQueueWakeOne | kernel/thread.c:1144-1181 | Refines wake_one, with the number of threads woken, although the source takes the woken thread off its queue before it enqueues the current one. |
| Threads.Scheduler.PopAll | kernel/thread.c:1218-1228 | The loop of wake_all refines its specification and counts the threads. |
| Threads.Scheduler.WaitQueueWakeAll | kernel/thread.c:1198-1240 | Refines wake_all, with the number of threads woken. |
| Threads.Scheduler.ThreadUnblock | kernel/thread.c:1269-1291 | Refines the removal of one thread from its wait queue, with the result code. |
| Threads.Scheduler.ThreadExit | kernel/thread.c:398-441 | Refines thread exit, with and without joiners. |
| Threads.Scheduler.ThreadCreate | kernel/thread.c:129-225 | Refines thread creation. |
| Threads.Scheduler.WaitQueueInit | kernel/thread.c:1053-1056 | Refines the initialization of a wait queue. |
| Threads.Scheduler.ThreadSetRealTime | kernel/thread.c:242-260 | Refines the real-time flag. |
| Threads.Scheduler.constructor | kernel/thread.c:878-905 | After every CPU became idle the invariant holds, with the idle threads running and all queues empty. |
| Threads.IdlingOk | kernel/thread.c:878-905 | The state in which every CPU runs its idle thread satisfies the invariant. |
| Threads.WakeOneIs | kernel/thread.c:1155-1175 | The order of the two insertions of wake_one in the source gives the same run queues as the specification. |
| Threads.SwitchSteps | kernel/thread.c:506-520 | The assignments of the context switch, in the order of the source, are the switch of the specification. |
| WaitClients.RemovedOnce | kernel/thread.c:1094-1140 | In every run a thread that waits is removed from the queue by at most one step before it returns, its own timer, a wake of the first waiter or a wake of all: up to that step it is queued, afterwards never again, and it keeps the code of that step. |
| WaitClients.OneRemover | kernel/thread.c:1058-1140 | From the entry into wait_queue_block to its return exactly one step of the run removes the thread, and the call returns that code: ERR_TIMED_OUT if it was the timer, NO_ERROR if it was a waker. |
| WaitClients.QueuedStep | kernel/thread.c:1058-1291 | A queued thread leaves the queue exactly by these steps. |
| WaitClients.RunOk | kernel/thread.c:1058-1291 | The clients are as they should be in every state of every run. |
| WaitClients.InsidePartition | kernel/thread.c:1094-1140 | Every thread inside wait_queue_block is queued, granted or timed out, and only one of these. |
| WaitClients.CodeStays | kernel/thread.c:1144-1291 | No step changes the code of a thread that was removed and has not returned. |
| WaitClients.EnterEffect | kernel/thread.c:1105-1120 | Blocking appends exactly the current thread to the queue. |
| WaitClients.WakeFirstEffect | kernel/thread.c:1144-1180 | wake_one grants exactly the first waiter, and does nothing to an empty queue. |
| WaitClients.WakeEveryEffect | kernel/thread.c:1198-1240 | wake_all grants exactly the waiters. |
| WaitClients.TimeoutEffect | kernel/thread.c:1058-1074 | A timeout removes its thread only if it is still queued. |
| WaitClients.LeaveEffect | kernel/thread.c:1122-1127 | The return code tells a granted thread from a timed-out one. |
| WaitClients.ElsewhereEffect | kernel/thread.c:402-870 | Operations of other threads, elsewhere, leave the waiters alone. |
| KernelMutex.MutualExclusion | kernel/mutex.c:80-144 | In every state of every run, finite timeouts included: at most one thread owns the mutex, the holder field names it, and no other thread has been handed the mutex. |
| KernelMutex.NextKeeps | kernel/mutex.c:80-144 | Every step keeps the accounting: the count is owners (with a handed-over thread that has not run) plus queued waiters plus timed-out waiters that have not run, and there is at most one owner. |
| KernelMutex.AcquireKeeps | kernel/mutex.c:92-112 | An acquire keeps the accounting, for every timeout. |
| KernelMutex.ReturnKeeps | kernel/mutex.c:94-112 | The return from the wait queue keeps the accounting, granted or timed out. |
| KernelMutex.ReleaseKeeps | kernel/mutex.c:135-140 | A release keeps the accounting, and hands the mutex to the first waiter. |
| KernelMutex.OwnerAlone | kernel/mutex.c:80-144 | If a thread owns the mutex, nobody else owns it or was handed it. |
| KernelMutex.UntimedRun | kernel/mutex.c:80-144 | In runs whose timeouts are 0 or INFINITE_TIME a free mutex has no queued waiters. |
| KernelMutex.AcquireOutcome | kernel/mutex.c:80-112 | An acquire, with any timeout, succeeds at once iff nobody owns the mutex or was handed it, waits for it, or timed out and has yet to return; else timeout 0 changes nothing, and any other queues the caller. |
| KernelMutex.ReturnOutcome | kernel/mutex.c:93-112 | A waiter that was handed the mutex owns it when it returns; one that timed out gives its place back. |
| KernelMutex.ReleaseOutcome | kernel/mutex.c:117-144 | A release hands the mutex to the first waiter, with rescheduling, or leaves it to nobody. |
| KernelMutex.StepOfClients | kernel/mutex.c:80-144 | Each step is one of the steps of waiters in general, or does not touch them: exactly one remover, and its code, hold for the waiters of a mutex. |
| MutexWindow.FreeMeansNoWaitersIff | kernel/mutex.c:92-104 | "Free implies no queued waiters" holds in all runs if and only if no acquire has a finite timeout. |
| MutexWindow.StuckWaiter | kernel/mutex.c:92-104 | A concrete run of four steps on two CPUs, with one finite timeout, after which a thread without a timeout waits for a free mutex. |
| MutexWindow.WedgedForever | kernel/mutex.c:80-144 | From such a state on, in every run, the mutex is never acquired again and the waiter stays in the queue. |
| Locks.MutexStruct.AcquireStart | kernel/mutex.c:80-112 | Refines the step; returns NO_ERROR iff the count was 0, ERR_TIMED_OUT iff it was not and the timeout is 0, and blocks otherwise. |
| Locks.MutexStruct.AcquireEnd | kernel/mutex.c:94-116 | Refines the step; the call succeeds iff the thread owns the mutex. |
| Locks.MutexStruct.Release | kernel/mutex.c:122-144 | Refines the step; the caller no longer owns the mutex. |
| Locks.MutexStruct.constructor | kernel/mutex.c:42-45 | A new mutex is free. |
| KernelSemaphore.Conservation | kernel/semaphore.c:35-99 | Over every run from sem_init, timeouts included: count = initial + posts - grants - queued - timed-out threads that have not run, and grants never exceed initial + posts. |
| KernelSemaphore.NextKeeps | kernel/semaphore.c:35-99 | Every step keeps the conservation law. |
| KernelSemaphore.PostKeeps | kernel/semaphore.c:35-51 | A post keeps the law, waking the first waiter or not. |
| KernelSemaphore.WaitKeeps | kernel/semaphore.c:53-67 | A wait keeps the law, blocking or not. |
| KernelSemaphore.ReturnKeeps | kernel/semaphore.c:88-95 | The return from the wait queue keeps the law, granted or timed out. |
| KernelSemaphore.UntimedRun | kernel/semaphore.c:35-99 | In runs whose timeouts are 0 or INFINITE_TIME no thread waits while a resource is available. |
| KernelSemaphore.WaitOutcome | kernel/semaphore.c:53-99 | A wait, with any timeout, passes at once iff more was given than is granted, waited for, or yet to be given back; else timeout 0 changes nothing, and any other queues the caller. |
| KernelSemaphore.TryWaitOutcome | kernel/semaphore.c:69-81 | The same for sem_trywait. |
| KernelSemaphore.PostOutcome | kernel/semaphore.c:35-51 | A post wakes the first waiter unless a resource is left over for those already counted. |
| KernelSemaphore.ReturnOutcome | kernel/semaphore.c:83-99 | A waiter that was granted a resource passes when it returns; one that timed out gives its place back. |
| KernelSemaphore.StepOfClients | kernel/semaphore.c:35-99 | Each step is one of the steps of waiters in general, or does not touch them. |
| SemaphoreWindow.NeverStarvedIff | kernel/semaphore.c:81-99 | In all runs no thread waits while a resource is available, if and only if no timeout is finite. |
| SemaphoreWindow.StarvedWaiter | kernel/semaphore.c:46-99 | A run of four steps from a semaphore without timed waiters to a thread that waits for a resource that is there. |
| Locks.SemaphoreStruct.Post | kernel/semaphore.c:35-51 | Refines the step. |
| Locks.SemaphoreStruct.WaitStart | kernel/semaphore.c:53-67 | Refines the step; returns NO_ERROR iff the count was positive, ERR_TIMED_OUT iff it was not and the timeout is 0, and blocks otherwise. |
| Locks.SemaphoreStruct.WaitEnd | kernel/semaphore.c:83-99 | Refines the step; success counts as one more grant returned. |
| Locks.SemaphoreStruct.TryWait | kernel/semaphore.c:69-81 | Takes a resource or leaves the semaphore as it was. |
| Locks.SemaphoreStruct.constructor | kernel/semaphore.c:22-25 | A new semaphore has its initial value, and no waiters. |
| KernelEvent.Conservation | kernel/event.c:99-186 | Over every run from event_init: a signaled event has no waiters, and an auto-unsignal event never granted more waits than the initial signal and the calls of event_signal. |
| KernelEvent.NextKeeps | kernel/event.c:99-186 | Every step keeps both. |
| KernelEvent.SignalReleases | kernel/event.c:140-167 | A signal of an unsignaled event releases every waiter and stays signaled, or, for auto-unsignal, releases exactly the first waiter, and becomes signaled iff there is none. |
| KernelEvent.ReturnKeeps | kernel/event.c:113-120 | The return from the wait queue keeps the law, granted or timed out. |
| KernelEvent.WaitOutcome | kernel/event.c:99-117 | A wait, with any timeout, passes at once iff the event is signaled, and takes the signal only of an auto-unsignal event. |
| KernelEvent.ReturnOutcome | kernel/event.c:99-117 | A waiter that a signal released passes when it returns; one that timed out does not. |
| KernelEvent.SignalOnce | kernel/event.c:140-190 | A signal of a signaled event is not remembered; event_unsignal takes the signal away. |
| KernelEvent.Latched | kernel/event.c:99-190 | Over runs: from a signaled event without auto-unsignal, and until event_unsignal, the event stays signaled, every wait passes and nobody queues. |
| KernelEvent.StaysUnsignaled | kernel/event.c:99-190 | Until the next signal, an unsignaled event grants nothing more. |
| KernelEvent.StepOfClients | kernel/event.c:99-190 | Each step is one of the steps of waiters in general, or does not touch them. |
| Locks.EventStruct.WaitStart | kernel/event.c:99-116 | Refines the step; returns NO_ERROR iff the event was signaled, ERR_TIMED_OUT iff it was not and the timeout is 0, and blocks otherwise; only an auto-unsignal event loses its signal. |
| Locks.EventStruct.WaitEnd | kernel/event.c:115-120 | Refines the step. |
| Locks.EventStruct.Signal | kernel/event.c:140-167 | Refines the step. |
| Locks.EventStruct.Unsignal | kernel/event.c:181-188 | Clears the signal and nothing else. |
| Locks.EventStruct.constructor | kernel/event.c:56-59 | A new event is as signaled as asked for, and has no waiters. |
| TimerTicks.TickFires | kernel/timer.c:216-271 | A tick fires the due timers in queue order, each unless an earlier callback of the tick cancels it, whatever the callbacks set and cancel; it ends with no timer due and the head strictly after now. |
| TimerTicks.LiveIff | kernel/timer.c:232-271 | Of the due timers exactly those fire that no callback that ran before their turn cancelled, and none fires twice. |
| TimerTicks.FiredOnce | kernel/timer.c:232-271 | No timer fires twice in one tick. |
| TimerTicks.PeriodicRequeued | kernel/timer.c:253-270 | A periodic timer that fired, and that no callback from its own on touched, is queued at the end of the tick for one period after now. |
| TimerTicks.CancelledInTick | kernel/timer.c:216-271 | A timer that a callback of the tick cancels, its own callback or another, and that nothing sets afterwards, fires no more in the tick and is idle when it ends: it is not requeued. |
| TimerTicks.CancelledByActs | kernel/timer.c:176-190 | A timer that a callback cancels, and does not set afterwards, is neither queued nor periodic when the callback ends, whatever else the callback does. |
| TimerTicks.IdleThroughTick | kernel/timer.c:216-271 | An idle timer that no callback of the tick sets does not fire, and is idle when the tick ends. |
| TimerTicks.FireKeeps | kernel/timer.c:241-270 | One turn of the loop keeps the queue sorted, with callbacks set, and the due timers left are the old ones without the head and without those the callback cancelled. |
| TimerTicks.ActKeeps | kernel/timer.c:87-213 | What a callback sets is not due in this tick; what it cancels is gone. |
| TimerTicks.ActOutcome | kernel/timer.c:122-213 | What a callback sets is queued for the call time plus at least 1, periodic or not as asked; what it cancels is neither queued nor periodic. |
| TimerTicks.SetByFire | kernel/timer.c:244-262 | A timer that a callback sets, and does not mention afterwards, is queued for that time after the turn, also the timer whose callback it is: it is not requeued. |
| TimerTicks.OneshotDone | kernel/timer.c:216-271 | A one-shot timer that fires, and that no callback from its own on sets, is idle when the tick ends. |
| TimerTicks.RearmedIff | kernel/timer.c:273-284 | At the end of the tick the hardware fires late by the time the callbacks took: it is set exactly for the head if and only if they took none. |
| TimerRuns.RunKeeps | kernel/timer.c:85-284 | In every state outside a tick of every run of set, cancel and tick with a clock that does not go back: the queue is sorted within half the range from a base that never goes back, and the hardware is armed for the head, late by what the callbacks took if a tick armed it. |
| TimerRuns.NextKeeps | kernel/timer.c:85-284 | Every event keeps this. |
| TimerRuns.TickKeeps | kernel/timer.c:216-284 | After a tick nothing is due, and the window starts at the time of the tick or later. |
| TimerRuns.HardwareIff | kernel/timer.c:273-284 | Outside a tick the hardware is set for the head if and only if it was armed by set or cancel, or by a tick whose callbacks took no time. |
| TimerRuns.HardwareFollowsHead | kernel/timer.c:113-284 | In a run without slow callbacks the hardware is set for the head in every state. |
| TimerRuns.LateHardware | kernel/timer.c:273-284 | A run of two events, a periodic timer and one slow tick, after which the hardware is set 3 ms too late. |
| TimerRuns.IdleUntilSet | kernel/timer.c:85-271 | A timer that is idle, as after a cancel, fires in no later tick of the run until an event sets it. |
| TimerRuns.CancelMakesIdle | kernel/timer.c:176-213 | A cancel outside of callbacks makes a timer idle. |
| TimerRuns.TickCancelMakesIdle | kernel/timer.c:185-271 | So does a cancel in a callback, its own or another, unless the tick sets the timer afterwards. |
| TimerRuns.FiresWhenDue | kernel/timer.c:216-271 | A timer that is queued and left alone fires in the first tick at or after its time unless an earlier callback of that tick cancels it, and in no tick before. |
| TimerRuns.SetQueues | kernel/timer.c:85-174 | Setting a timer queues it for the time of the call plus the delay, which is at least one. |
| TimerRuns.InitOk | kernel/timer.c:301-307 | A run may start from initialized timers and an empty queue. |
| Timers.SetTimerKeeps | kernel/timer.c:87-122 | Setting a timer keeps the queue sorted and the hardware armed for the head. |
| Timers.CancelTimerKeeps | kernel/timer.c:169-213 | Cancelling keeps the queue sorted and the hardware armed for the head, at once if the new head is overdue. |
| Timers.SetOutcome | kernel/timer.c:85-120 | A set gives the timer its period and callback, leaves every other timer alone, and arms the hardware iff the timer is due before all queued ones. |
| Timers.CancelOutcome | kernel/timer.c:176-213 | A cancel leaves the timer without period and callback and every other timer alone; it re-arms the hardware for the new head if the timer was the head, and stops it if the queue is empty. |
| Timers.RemoveSplit | kernel/timer.c:176-190 | The other timers stay in order. |
| Timers.InsertedKeeps | kernel/timer.c:68-85 | Under 32-bit wrap-around the timer is inserted after all that are due no later, and before all that are due later. |
| Timers.DiffIs | include/sys/types.h:53-56 | Within half the 32-bit range the signed difference of two times is their difference. |
| Timers.Position | kernel/timer.c:76-81 | The first entry that is later than the new timer. |
| TimerQueues.TimerQueue.TimerTick | kernel/timer.c:216-284 | The loop refines its specification: the same timers fire, and the same state is left. |
| TimerQueues.TimerQueue.Happen | kernel/timer.c:85-300 | The calls in place are the steps of these runs. |
| TimerQueues.TimerQueue.Process | kernel/timer.c:241-270 | One turn refines its specification. |
| TimerQueues.TimerQueue.RunCallback | kernel/timer.c:257-258 | The actions of a callback, one after the other. |
| TimerQueues.TimerQueue.TimerSet | kernel/timer.c:87-122 | Refines timer_set. |
| TimerQueues.TimerQueue.TimerSetOneshot | kernel/timer.c:138-143 | A zero delay becomes 1; otherwise timer_set. |
| TimerQueues.TimerQueue.TimerSetPeriodic | kernel/timer.c:159-164 | A zero period becomes 1; otherwise timer_set. |
| TimerQueues.TimerQueue.TimerCancel | kernel/timer.c:169-213 | Refines timer_cancel. |
| TimerQueues.TimerQueue.InsertTimerInQueue | kernel/timer.c:68-85 | The scan puts the timer where the specification says. |
| TimerQueues.TimerQueue.Rearm | kernel/timer.c:273-284 | Refines the end of the tick. |
| TimerQueues.TimerQueue.constructor | kernel/timer.c:301-306 | An empty queue. |
| Virtqueue.Partition | dev/virtio/virtio.c:243-299 | Every descriptor is in the free list, in exactly one chain, or allocated on its own. |
| Virtqueue.Pigeonhole | dev/virtio/virtio.c:301-315 | Distinct chain heads are at most as many as the ring has descriptors. |
| Virtqueue.RoomFor | dev/virtio/virtio.c:301-315 | While a chain is not pending, the available ring has a slot to spare. |
| Virtqueue.RingPush | dev/virtio/virtio.c:306-310 | The slot of the next index is none that still holds an entry to be consumed, across 16-bit wrap-around of the index. |
| Virtqueue.SlotOfIndex | dev/virtio/virtio.c:308-310 | The masked 16-bit index names the slot of the unbounded count of submissions. |
| Virtqueue.FreedOk | dev/virtio/virtio.c:243-249 | Freeing a descriptor keeps the free list, the chains and their partition. |
| Virtqueue.AllocatedOk | dev/virtio/virtio.c:251-265 | Taking the head of the free list keeps them. |
| Virtqueue.ChainMade | dev/virtio/virtio.c:267-299 | A finished chain keeps them. |
| Virtqueue.Vring.FreeDesc | dev/virtio/virtio.c:243-249 | The descriptor becomes the head of the free list, which ends in 0xffff and has free_count entries; no other descriptor changes. |
| Virtqueue.Vring.AllocDesc | dev/virtio/virtio.c:251-265 | Returns the head of the free list and takes it off, or 0xffff if the list is empty. |
| Virtqueue.Vring.AllocDescChain | dev/virtio/virtio.c:267-299 | Fails and changes nothing for 0 descriptors or more than are free; otherwise takes exactly the first count descriptors and links them, in reverse, into a chain with NEXT on all but the last. |
| Virtqueue.Vring.PushFront | dev/virtio/virtio.c:275-293 | One turn of that loop. |
| Virtqueue.Vring.Submit | dev/virtio/virtio.c:301-315 | The chain is published, and no entry that the device has not taken is overwritten. |
| Virtqueue.Vring.DeviceTakes | dev/virtio/virtio.c:306-310 | The device finds in its next slot exactly the chain of that submission. |
| Virtqueue.Vring.DeviceCompletes | dev/virtio/virtio.c:102-107 | A completion overwrites none that the driver has not taken, also while a driver callback runs. |
| Virtqueue.Vring.HandleUsed | dev/virtio/virtio.c:102-114 | The used-ring loop handles exactly the completions that were there when it read the index, in order and each once, whatever the device takes and completes while the callbacks run; if the whole ring was waiting it sees none. |
| Virtqueue.FullRingIsMissed | dev/virtio/virtio.c:102-103 | A run that uses every descriptor and completes every chain; a pass of the loop then handles none of them. |
| Virtqueue.Vring.HandleOne | dev/virtio/virtio.c:102-114 | One turn handles the next completion and frees its chain; what the device does meanwhile leaves that chain alone. |
| Virtqueue.Vring.Guard | dev/virtio/virtio.c:102-103 | The positions of the loop agree exactly when none of the completions it started with is left, or all of a whole ring. |
| Virtqueue.Vring.constructor | dev/virtio/virtio.c:370-378 | After the setup loop every descriptor is free. |
| Virtqueue.Vring.FreeChain | dev/virtio/block/virtio-block.c:176-196 | Following the NEXT flags returns exactly the descriptors of the chain to the free list. |
| Ports.Conservation | kernel/port.c:388-470 | Over every run, for every reader: what it has read, followed by what is in its buffer, is what it inherited when it opened followed by the writes accepted for it, in order. |
| Ports.ReaderStep | kernel/port.c:388-470 | In each step a reader gains exactly the packets of an accepted write, and gets exactly the oldest packet by a read. |
| Ports.RunKeeps | kernel/port.c:200-596 | In every state of every run the write port owns a buffer iff it has no readers, buffers are within their size, and a unicast port has at most one reader. |
| Ports.ApplyKeeps | kernel/port.c:200-596 | Every operation keeps that. |
| Ports.WriteKeeps | kernel/port.c:404-428 | A write keeps the ownership of the buffer, the sizes, and for every reader the packets read and buffered equal to those inherited and accepted. |
| Ports.CloseKeeps | kernel/port.c:546-557 | Closing a reader keeps the ownership of buffers. |
| Ports.HandOver | kernel/port.c:551-554 | The next reader to open gets what the last one to close left unread, followed by the writes accepted in between. |
| Ports.WriteOutcome | kernel/port.c:388-435 | A write succeeds iff the port is open and every buffer it goes to has room; each buffer takes all of it or nothing; the status tells a closed port, a full port buffer and a full reader apart. |
| Ports.ReadOutcome | kernel/port.c:112-133 | A read succeeds iff the buffer of the reader holds a packet, and takes the oldest. |
| Ports.OpenOutcome | kernel/port.c:224-256 | An open is refused iff the port is unicast and has a reader; the first reader gets all that is unread, any other an empty buffer of 8. |
| Ports.CloseOutcome | kernel/port.c:537-556 | A reader that closes leaves the others alone, and its unread packets to the port if it was the last. |
| Ports.WriteStep | kernel/port.c:404-428 | A write is all or nothing for each reader: all packets are appended in order if there is room for all, and otherwise the reader is as before. |
| PortBuffers.PortBuf.Write | kernel/port.c:112-124 | The circular buffer takes all of the packets, in order, or none if they do not fit. |
| PortBuffers.PortBuf.Read | kernel/port.c:125-133 | The oldest packet leaves the buffer, or the buffer is empty. |
| PortBuffers.PortBuf.IsEmpty | kernel/port.c:107-110 | True exactly if the buffer holds no packet. |
| PortBuffers.PortBuf.constructor | kernel/port.c:94-105 | A new buffer is empty. |
| PortBuffers.WindowPush | kernel/port.c:117-120 | A store at the tail slot appends one packet and keeps the others. |
| PortBuffers.WindowPop | kernel/port.c:129-131 | Moving the head on by one drops the oldest packet. |
| PortObjects.WritePort.Open | kernel/port.c:200-268 | Refines the operation: the first reader takes over the buffer of the write port, a second one is refused on a unicast port and gets a small buffer of its own otherwise. |
| PortObjects.WritePort.Write | kernel/port.c:388-438 | Refines the operation, with the status. |
| PortObjects.WritePort.WriteToReaders | kernel/port.c:408-427 | The loop offers the packets to every reader; the status is a partial write iff some reader had no room. |
| PortObjects.WritePort.Read | kernel/port.c:440-470 | Refines the operation, with the packet. |
| PortObjects.WritePort.CloseReader | kernel/port.c:546-557 | Refines the operation: the last reader leaves its buffer to the write port. |
| PortObjects.WritePort.CloseWrite | kernel/port.c:578-589 | Refines the operation: a closed port can still be opened and read. |
| PortObjects.WritePort.constructor | kernel/port.c:174-198 | A new write port owns an empty buffer. |
| IntrusiveList.AddHead | include/list.h:61-69 | Inserts the item after any node of a ring; afterwards neighbours point at each other all around. |
| IntrusiveList.AddTail | include/list.h:71-79 | Inserts the item before any node of a ring: at the end for the list head. |
| IntrusiveList.Delete | include/list.h:81-86 | Removes any item; the rest is a ring in the same order, and the item is in no list. |
| IntrusiveList.RemoveHead | include/list.h:88-97 | Removes and returns the first item, or null if there is none. |
| IntrusiveList.RemoveTail | include/list.h:109-118 | Removes and returns the last item, or null if there is none. |
| IntrusiveList.PeekHead | include/list.h:130-137 | Returns the first item, or null if there is none. |
| IntrusiveList.Length | include/list.h:288-297 | The length is the number of items. |
| IntrusiveList.Initialize | include/list.h:43-46 | A list head alone is an empty list. |
| IntrusiveList.RingInList | include/list.h:53-59 | Every node of a ring is in a list as its links say. |
| IntrusiveList.RingUnique | include/list.h:35-86 | The links determine the order: two rings with the same head are the same sequence. |
| MemMove.CMemmove | app/stringtests/string_tests.c:54-106 | For every alignment and overlap and any length below 2^31 the destination gets the old bytes of the source and nothing else changes; every word access is aligned. |
| MemMove.MovedAt | app/stringtests/string_tests.c:54-106 | What this means byte by byte. |
| MemMove.MoveUp | app/stringtests/string_tests.c:63-81 | Moving to lower addresses may be done in two parts, the front first. |
| MemMove.MoveDown | app/stringtests/string_tests.c:82-103 | Moving to higher addresses may be done in two parts, the back first. |
| MemMove.CopyWord | app/stringtests/string_tests.c:76-76 | A word is copied as a whole, at aligned addresses only. |
| MemMove.BytesUp | app/stringtests/string_tests.c:73-74 | The upward byte loop moves exactly its bytes. |
| MemMove.WordsUp | app/stringtests/string_tests.c:75-79 | The upward word loop moves exactly its words. |
| MemMove.BytesDown | app/stringtests/string_tests.c:93-94 | The downward byte loop moves exactly its bytes. |
| MemMove.WordsDown | app/stringtests/string_tests.c:96-100 | The downward word loop moves exactly its words. |
| MemMove.MoveToLower | app/stringtests/string_tests.c:63-81 | The branch for a destination below the source is a memmove. |
| MemMove.MoveToHigher | app/stringtests/string_tests.c:82-103 | The branch for a destination above the source is a memmove. |
| MemMove.CMemset | app/stringtests/string_tests.c:108-139 | Exactly count copies of the low byte are written, at every alignment; every word access is aligned. |
| MemMove.ReplicatedBytes | app/stringtests/string_tests.c:112-119 | The shifts and ors replicate the byte into every byte of the word, for both word sizes. |
| MemMove.ToBoundary | app/stringtests/string_tests.c:111-111 | The negated, masked address is the distance to the next word boundary. |
| MemMove.FillBytes | app/stringtests/string_tests.c:121-123 | The byte loop writes exactly its bytes. |
| MemMove.FillWords | app/stringtests/string_tests.c:125-129 | The word loop writes exactly its words. |
| InitHooks.LkInitLevel | top/init.c:46-105 | The hooks called are exactly those whose flags match and whose level is in the range, each once, in the order of a stable sort by level. |
| InitHooks.FindNext | top/init.c:58-93 | One scan of the table finds the first hook after the last one called, by level and then by place, or none if there is none. |
| InitHooks.StableOrderIs | top/init.c:46-105 | The reference order holds exactly the selected hooks, sorted by level and by place in the table. |
| InitHooks.OrderedUnique | top/init.c:46-105 | That order determines the trace. |
| InitHooks.RangesConcatenate | top/init.c:46-105 | Two consecutive ranges call what the whole range would, in the same order. |
| InitHooks.AllRanges | top/init.c:46-105 | The same for any number of consecutive ranges. |
| InitHooks.BootOrder | top/main.c:87-153 | The eleven calls of the boot sequence run every matching hook once, in the stable order of the whole range of levels. |

## Left out

- Spans.TlbAfterUnmapLeaf: an invalidation is by virtual address only; address space identifiers, barriers and the order in which other CPUs observe descriptor stores are not modelled.
- Mmu.PageTables.AllocPageTable: an allocation takes one frame or fails; the page and heap allocators behind it are not part of this model, so neither is freeing a table of several pages.
- Mmu.PageTables.Map: physical addresses from 2^48 on, whose upper bits the source ors into the attributes.
- Mmu.PageTables.ArchMap: count * PAGE_SIZE does not overflow, and cache flag value 3 is excluded, for which the source returns an error code as attributes.
- Mmu.PageTables.ArchQuery: the two panics on descriptors that no mapping writes are not reachable states of the model; they show as `Unknown` flags.
- Page table initialization beyond clearing the top table, address space destruction and context switches.
- Sched.ReschedKeeps: statistics, tracing, the preemption timer, stack bounds checks and the address space switch of thread_resched change nothing that the model holds.
- Threads.Scheduler.WaitQueueBlock: with timeout 0 the source returns before it touches anything; the objects of `Locks.dfy` model that branch.
- Steps.Resume: only the critical section of thread_resume; the yield after it is in `Steps.ResumeAndYield`.
- Steps.Create: the joiners' queue of a new thread is set up by its own step, wait_queue_init.
- Threads.Scheduler.ThreadCreate: stacks, entry points and thread-local storage are left out, the joiners' queue is set up by wait_queue_init as a separate call, and the model requires a priority in range.
- Steps.Exit: the joiners' queue may be any wait queue, which contains the source's case; freeing a detached thread is left out.
- Threads.Scheduler.ThreadExit: the same; the joiners' queue is a parameter.
- thread_block and thread_unblock, thread_join and thread_detach, and the destruction of wait queues, mutexes, semaphores and events.
- Cross-CPU rescheduling interrupts; the choice of the CPU that they interrupt has no effect on the run queues.
- WaitClients.RemovedOnce: a timeout handler and timer_cancel are atomic with respect to each other, as on one CPU.
- TimerQueues.TimerQueue.TimerTick: callbacks run on the same CPU only; the unlocked window of SMP and the calls into the scheduler from callbacks are left out, as is the handler's return value.
- TimerQueues.TimerQueue.RunCallback: a callback is its sets and cancels; what else it does cannot change the queue.
- Virtqueue.Vring.constructor: the length is a power of two up to 32768; the refusal of other lengths and the memory allocation are left out.
- Virtqueue.Vring.AllocDesc: the flags and next field of a descriptor that is allocated on its own stay as they are; what a driver does with it is not modelled.
- Virtqueue.Vring.HandleUsed: the driver callback is the one of the block driver, which returns the chain.
- Buffer addresses and lengths, the notification registers, and several rings per device, which do not interact.
- PortObjects.WritePort.Open: the search by name and allocation failures are left out.
- PortObjects.WritePort.Read: where the source would block, the model returns ERR_TIMED_OUT, as the source does for timeout 0.
- PortObjects.WritePort.Write: waking the readers is left out.
- PortObjects.WritePort.WriteToReaders: the wake-ups inside the loop are left out.
- PortObjects.WritePort.CloseReader: waking the waiters of the closed reader is left out.
- Port groups and port_destroy.
- MemMove.CMemmove: lengths from 2^31 on, for which the `int` counter of the source overflows, and address comparisons across the sign bit.
- IntrusiveList.Length: the remaining iteration and peek macros, which follow the same links.
- InitHooks.LkInitLevel: the hooks do not change the table; tracing is left out.
- The floating point and thumb state of threads, other architectures, drivers, the boot loader and the console.
