# softgpu in Dafny

A model of the parts of softgpu that are hard to get right, and proofs about them: what no interleaving of
engines, driver threads and producers can break, and what the sequential loops compute. `dafny verify
dfyconfig.toml` checks everything.

| file | what it models |
|---|---|
| `Shootdown.dfy` | MMU, TLBs, generation counter, two-phase eviction and quiesce, one step per atomic access, with the bytes of every page |
| `Completion.dfy` | that translations, shootdowns, evictions, migrations and stores of that machine do come to their ends |
| `Userfault.dfy` | one page under userfaultfd when MADV_DONTNEED may fail |
| `Paging.dfy` | migrate, evict, rollback, CLOCK, capped prefetch and evict-all under `mem_lock`, over one frame allocator |
| `World.dfy` | all operations on memory together, as runs, against a flat memory |
| `Managed.dfy` | the driver's memory as an object, with the loops of its operations, each from a valid state to a valid one |
| `Replay.dfy` | `execute` with replayable faults: runs, gather and scatter, resumption |
| `Kernel.dfy` | the VADD loop in memory, with any overlap of its operands |
| `Ring.dfy` | `enqueue` by many producers, in ticket and mutex mode, and the engine |
| `Channels.dfy` | all rings, WAIT_FENCE, and the page-fault pipeline |
| `Streams.dfy` | stream_submit, events, and order across engines |
| `DeferredFree.dfy` | FREE by PUT snapshot, and reclaim |
| `Doorbell.dfy` | engines going to sleep, doorbells, and wake-ups after retirements |
| `Wakeup.dfy` | that engines do fall asleep, and are woken by work without the timeout |
| `Interrupt.dfy` | host waits, armed targets and the interrupt line |
| `Allocator.dfy` | the first-fit allocator |
| `Tlb.dfy` | the MMU with whole operations, and LRU replacement |
| `Priority.dfy` | set_channel_priority by many threads, access by access |
| `Runlist.dfy` | choice of a channel, visits, preemption |
| `Staging.dfy` | staging slots and the chunked copy loops |
| `Headroom.dfy` | how many copies one pool of slots can carry |
| `Base.dfy` | shared types, runs of a state machine, arithmetic of rings |

Concurrent parts are a state, a step relation `Does` (or `NextStep`) with one step per atomic load, store or
read-modify-write, an invariant kept by every step, and theorems about every state of every run. Beside what can
never happen they state what can always be done: from every state that the invariant allows, steps of the parties
concerned lead to the end of a translation, an eviction, a submit, a wait or a FREE. Memory is sequentially
consistent. Sequential parts are classes and methods with the loops of the source, proved against
specifications whose own properties are lemmas.

How the parts fit together. Shootdown shows that frames are safe to reuse and bytes are not lost while engines
run; Paging and World take an operation under `mem_lock` as one step and show what whole sequences of them
keep; the methods of Managed take those steps. Replay takes from both that a command's pages keep their bytes
between its executions. Ring shows that publishing is in ticket order, which Channels takes as one step; Streams
builds on Channels.

Where the code does less than its comments say, or than a caller may expect:

- The rollback of a failed eviction maps the page with a clean PTE and so loses DIRTY (`make_resident`,
  src/device/mmu.cpp:62-64). `Paging.RollbackSoundIff` gives the exact condition under which that is harmless.
  In the code it always is: only the userfaultfd path can fail, and there every eviction writes back.
- `fault_fail` retires whatever command is at the head of its channel. If a migration fails for a command that
  has been retired by an earlier failure, that is the next command, and it may be a WAIT whose fence has not
  passed. `Channels.FailureCanSkipWait` is such a run. `Channels.FencesTrustedIff` gives the exact condition: every
  `fault_fail` that is set is one the engine's scan has yet to take, and the head it will then find may run.
- `stream_submit` forgets the events a stream was told to wait for before the driver has accepted the command. After
  a refused command the next one waits for them only on the same ring. `Streams.DroppedCountsIff` gives the exact
  condition.
- A failed MADV_DONTNEED leaves a page's host copy beside its frame, and the next eviction takes that copy for the
  current one. `Userfault.SafeIffOnce` and `Userfault.StoreIsLost` state this exactly.
- A FREE between the ownership check of a submit and its publication recycles memory that the command names.
  `DeferredFree.RaceBreaksIt` is such a run, and `DeferredFree.FreeSafeIff` gives the exact condition.
- Two overlapping set_channel_priority calls can leave `mixed_priority_` false, for good, with a priority set.
  `Priority.OverlapLosesFlag` is such a run, and `Priority.AgreesIff` gives the exact condition. The runtime makes
  these calls one at a time, where `Priority.SerialAgrees` applies; the ioctl itself takes no lock.
- A pageable D2H copy keeps its slots while it spins for another one. Three threads can hold all of the 8 default
  slots that way and spin forever. `Headroom.NeverJamsIff` gives the exact condition, for every number of slots.
- A VADD whose destination starts inside one of its sources depends on where pages are: with all operands resident
  its loop reads elements it has written, through scratch buffers it does not. `Kernel.InPlaceIff` gives the exact
  condition. `memmove` and an overlap check cover the same case of D2D.

## Model

| member | source | states |
|---|---|---|
| Shootdown.FrameReuseSafety | src/device/device.cpp:148-159 | in every interleaving, a frame an engine may use through a page holds that page's bytes, is not free and is shared by no other page; once quiesce has returned nobody can use the evicted frame, nor the frame the driver is filling |
| Shootdown.NoStaleTranslate | src/device/mmu.cpp:70-82 | a translate that begins after begin_evict has returned does not return Ok while that eviction is in progress, so it cannot yield the old frame, TLB hit or walk |
| Shootdown.NoLostWriteBack | src/driver/driver.cpp:804-809 | if an engine stored to the page since it became resident, or since its last failed write-back (which maps it clean), the word from begin_evict or the one from end_evict has DIRTY, also for a write hit that races the exchange |
| Shootdown.RefinesFlat | src/driver/driver.cpp:801-820 | in every reachable state each managed page's bytes, in its frame or on the host, are those of a flat memory that only stores change, with and without userfaultfd, also after a rollback |
| Shootdown.OnlyStoresChangeBytes | src/driver/driver.cpp:769-788 | no step of translation, eviction, shootdown, quiesce, write-back, rollback or migration changes a page's bytes; a store changes one byte of one page |
| Shootdown.StepKeepsInv | src/device/mmu.cpp:148-221 | every single atomic access of translate, tlb_insert, walk, begin_evict, the sweep, quiesce, end_evict, publish and make_resident keeps the invariant that couples TLB entries, generation and access sequence |
| Shootdown.RunKeepsInv | src/device/device.cpp:359-366 | that invariant holds in every state of every run, for any number of engines and TLB slots |
| Completion.TranslateAnswers | src/device/mmu.cpp:184-221 | in every run a translate that ends has returned Ok, and then the engine holds a translation to the page's own frame, or a fault, and that only for a page that is not in VRAM then |
| Completion.TranslateEnds | src/device/mmu.cpp:198-221 | from every reachable state, wherever the driver is, the engine's own steps bring a translation under way to its end; if the page is in VRAM it ends with the page's frame, and if no shootdown comes between, with the page in the TLB |
| Completion.TranslateFor | src/device/mmu.cpp:198-221 | so an engine that asks for a page in VRAM gets its frame by its own steps, and has the page in its TLB then |
| Completion.SweepEnds | src/device/mmu.cpp:132-139 | the sweep looks at every slot of every TLB and ends |
| Completion.QuiesceEnds | src/device/device.cpp:148-159 | quiesce ends, with the engines' commands brought to their ends |
| Completion.EvictionEnds | src/driver/driver.cpp:801-820 | from every reachable state between two driver calls, wherever engines are, the eviction of a page in VRAM can be carried through: its bytes are on the host and its frame is free |
| Completion.RollbackEnds | src/driver/driver.cpp:810-816 | one whose write-back fails ends too, with the page back in its frame |
| Completion.MigrationEnds | src/driver/driver.cpp:855-872 | a page on the host can be brought into any free frame, wherever engines are |
| Completion.StoreLands | src/device/device.cpp:608-622 | an engine that holds a translation for writing can store any byte to the page, and that is the page's byte then |
| Completion.HostStoreLands | src/driver/driver.cpp:1223-1229 | a host thread can store any byte to a page on the host |
| Userfault.SafeIffOnce | src/driver/driver.cpp:855-867 | when MADV_DONTNEED may fail: from a coherent state every way to go on, with no further failure, loses no byte if and only if the page is not in VRAM and on the host at once |
| Userfault.StoreIsLost | src/driver/driver.cpp:745-754 | what an engine stores to such a page is gone after the next eviction, because EEXIST counts as success, unless the host copy has the same bytes |
| Userfault.PageTravels | src/driver/driver.cpp:801-877 | a page on the host can be migrated, stored to and evicted, and then it is there once, with what was stored |
| Userfault.RunKeepsBytes | src/driver/driver.cpp:801-877 | while drops succeed no byte is lost, in any run of migrations, evictions, rollbacks and stores from both sides |
| Paging.EvictedRefines | src/driver/driver.cpp:769-788 | an eviction keeps every page's logical bytes, writing back exactly when the host copy is missing or stale |
| Paging.MapInRefines | src/driver/driver.cpp:855-872 | a migration into a frame nobody uses keeps every page's logical bytes |
| Paging.RollbackSoundIff | src/driver/driver.cpp:810-811 | the rollback maps the page clean and so drops DIRTY; the bytes stay, but the next eviction keeps them, and the tables stay in order, if and only if userfaultfd is on, the page was clean, or its host copy is current |
| Paging.EvictsKeeps | src/driver/driver.cpp:801-820 | a successful evict_locked keeps page table, allocator, list and position map in agreement and every byte in place, and leaves the frame in the caller's hand |
| Paging.RollsBackKeeps | src/driver/driver.cpp:810-816 | a failed one keeps them too |
| Paging.MigratesKeeps | src/driver/driver.cpp:847-877 | migrate_locked keeps them whichever way it gets its frame, from the allocator or from a victim |
| Paging.StarvesKeeps | src/driver/driver.cpp:852-854 | a migration that finds no frame changes nothing but reference bits and the CLOCK order |
| Paging.Conservation | src/driver/driver.cpp:790-877 | live bytes of the frame allocator = sgMalloc bytes + one page per entry of the CLOCK list |
| Paging.HandUnused | src/driver/driver.cpp:852-857 | a frame taken from the allocator or from a victim is mapped by no page |
| Paging.ClockPicksFirst | src/driver/driver.cpp:824-831 | the victim is the first page from the hand without its reference bit, or the one in front if all have it; exactly the pages passed lose theirs, and the rest of the order is kept |
| Paging.ClockSparesYoung | src/driver/driver.cpp:824-831 | while some page is older than the current fault service, CLOCK does not take one the service migrated |
| Paging.MigrateSparesYoung | src/driver/driver.cpp:898-908 | migrating one more page within the cap evicts none of the pages the service migrated |
| Paging.FullMeansCapacity | src/driver/driver.cpp:914 | whenever VRAM is full during a prefetch, the list has exactly the number of pages computed as capacity at its start |
| Paging.CapLeavesOld | src/driver/driver.cpp:914-915 | so the cap of half the capacity leaves a page older than the service to evict |
| Paging.BudgetIsGreatest | src/driver/driver.cpp:914-915 | and the prefetch takes as many pages as prefetch_pages and that cap allow |
| Paging.FetchRunKeeps | src/driver/driver.cpp:916-920 | every state of the prefetch loop keeps the books and every page's bytes |
| Paging.PrefetchKeeps | src/driver/driver.cpp:909-922 | so does the whole prefetch, also when its last migration finds no frame |
| Paging.PrefetchSpares | src/driver/driver.cpp:898-922 | one prefetch never evicts a page it migrated itself, nor the demand page appended just before it: all of them are in VRAM when it returns |
| Paging.EvictAllFreesFrames | src/driver/driver.cpp:835-841 | evict_all_locked keeps every byte, and unless a write-back failed only sgMalloc blocks are left live |
| Managed.ManagedMemory.ForgetResident | src/driver/driver.cpp:790-795 | removes exactly the page from list and position map and keeps the order of the others |
| Managed.ManagedMemory.EvictLocked | src/driver/driver.cpp:801-820 | succeeds if and only if the page is in VRAM and its write-back, if userfaultfd makes it one that can fail, does not; success is an eviction that hands over the page's frame; failure leaves the page in VRAM, rolled back, or untouched if it was not there |
| Managed.ManagedMemory.TurnHand | src/driver/driver.cpp:826-829 | the loop clears and moves exactly the referenced pages in front, at most once each |
| Managed.ManagedMemory.EvictOneLocked | src/driver/driver.cpp:824-831 | succeeds if and only if there is a page to evict and the write-back does not fail; the loop and the eviction together are the CLOCK step that ClockPicksFirst describes |
| Managed.ManagedMemory.MigrateLocked | src/driver/driver.cpp:847-877 | valid to valid with the same memory seen by programs; fault if and only if the page is unmapped; no frame if and only if VRAM is full and there is no victim or its write-back fails; success without a move for a resident page, else a move; and the new state of each |
| Managed.ManagedMemory.RangeEnd | src/driver/driver.cpp:910-913 | the end of the range with the greatest start not above the address |
| Managed.ManagedMemory.PrefetchWindow | src/driver/driver.cpp:909-915 | the end of the range and the budget, which BudgetIsGreatest describes |
| Managed.ManagedMemory.PrefetchLocked | src/driver/driver.cpp:909-922 | valid to valid with the same memory; the loop migrates consecutive pages up to the end of the range or of the budget, ends before only at an unmapped page, or without a frame because nothing can be evicted or a write-back failed, and when it returns the demand page and every page it migrated are in VRAM |
| Managed.ManagedMemory.EvictAllLocked | src/driver/driver.cpp:835-841 | valid to valid with the same memory; evicts from the front until the list is empty, and then only sgMalloc blocks are live; it ends before only when a write-back fails |
| Managed.ManagedMemory.ServeHostFault | src/driver/driver.cpp:1223-1229 | a host touch brings the page out of VRAM and frees its frame, with the same memory; it fails, and leaves the page there, if and only if a write-back is needed and fails |
| Managed.ManagedMemory.RecycleVram | src/driver/driver.cpp:932-934 | valid to valid; is the recycling step of flat memory for an sgMalloc block |
| Managed.ManagedMemory.Reclaim | src/driver/driver.cpp:962-970 | recycling a list of freed allocations one by one is the same sequence of flat memory steps |
| Managed.ManagedMemory.TakeBlock | src/driver/driver.cpp:1387-1392 | frames taken and mapped at their own addresses are the ALLOC step of flat memory; nothing changes if no gap fits |
| Managed.ManagedMemory.Alloc | src/driver/driver.cpp:1353-1394 | reclaim and try, drain, reclaim and try, evict everything managed and try, each only if the one before found no gap; the memory is the flat one after these recyclings and the ALLOC; it fails only if no gap fits then, and either the drain has failed, or only sgMalloc blocks are live, or a write-back has failed |
| Managed.ManagedMemory.ReclaimAndTake | src/driver/driver.cpp:1359-1372 | one try: ALLOC after the recyclings, or no gap on the list it was made on |
| Managed.ManagedMemory.EvictAndTake | src/driver/driver.cpp:1373-1392 | the last try: ALLOC, or no gap although everything managed has been evicted, unless a write-back failed |
| Managed.ManagedMemory.AllocManaged | src/driver/driver.cpp:1396-1442 | the same for addresses of managed ranges, whose pages read as zero; no frame is taken and no page evicted; it fails only if no addresses are free after the drain, or the host cannot populate the range, and then the addresses go back and nothing has changed |
| Managed.ManagedMemory.RecycleManaged | src/driver/driver.cpp:935-958 | valid to valid; unlists the range's pages, unmaps them, frees exactly their frames and the addresses, and is the recycling step of flat memory |
| World.StepRefinesFlat | src/driver/driver.cpp:801-959 | every migration, eviction, rollback, ALLOC, ALLOC_MANAGED, recycling and store is the same step of a flat memory, and keeps the ownership invariant |
| World.RunRefinesFlat | src/driver/driver.cpp:801-959 | in every reachable state the memory a program sees is the flat memory that the same actions produce |
| World.PagingInvisible | src/driver/driver.cpp:769-922 | two runs with the same visible actions end with the same memory, whatever the amount of VRAM, with or without userfaultfd, with any migrations between |
| World.RunOwnsFrames | src/driver/driver.cpp:790-877 | in every reachable state frames are mapped once, lie in live blocks, the CLOCK list is exactly the managed pages in VRAM, and live bytes add up |
| World.AllocatorGrants | src/driver/driver.cpp:1359-1363 | what the allocator gives out is a block in the sense the collision lemmas start from |
| World.AllocNeverCollides | src/driver/driver.cpp:1387-1392 | the identity mapping made by ALLOC meets no mapped page and no frame in use, so map_vram cannot report EEXIST |
| World.AllocManagedNeverCollides | src/driver/driver.cpp:1396-1442 | a new managed range meets no mapped page |
| World.RecycleKeepsGood | src/driver/driver.cpp:932-934 | recycling an sgMalloc block unmaps and frees exactly its pages and keeps the invariant |
| World.RecycleManagedKeepsGood | src/driver/driver.cpp:935-958 | recycling a managed range does too |
| World.OrderlySteps | src/driver/driver.cpp:801-959 | the ownership invariant and the meaning as a step of flat memory, in the form the methods use |
| World.OrderlyTakesBlock | src/driver/driver.cpp:1359-1392 | a block from the frame allocator, mapped, is an ALLOC step of flat memory |
| World.OrderlyTakesRange | src/driver/driver.cpp:1396-1442 | a range from the address allocator, mapped to the host, is an ALLOC_MANAGED step |
| Replay.Engine.RunAt | src/device/device.cpp:164-187 | a run that is resident and contiguous in VRAM and not empty; an error only for an unmapped first byte, a fault only for a mapped one |
| Replay.Engine.Resolve | src/device/device.cpp:189-198 | one run for the whole range, or a split, a fault or an error |
| Replay.Engine.WriteRuns | src/device/device.cpp:200-211 | for_runs with a store: resumes at the first byte not applied, stores exactly the prefix it reports done, stops at a fault only where the next byte is not there, and an error means a byte is unmapped |
| Replay.Engine.ReadRuns | src/device/device.cpp:200-211 | for_runs with a load, the same |
| Replay.Engine.ExecuteStore | src/device/device.cpp:608-622 | FILL and H2D: done is the atomic result; a fault leaves a resumable state, and names a byte of the command that is not in VRAM or is being evicted |
| Replay.Engine.ExecuteD2H | src/device/device.cpp:624-628 | D2H: the host buffer gets the memory's bytes, the memory is unchanged |
| Replay.Engine.ExecuteCopy | src/device/device.cpp:630-646 | D2D without overlap: the forward copy is the atomic copy |
| Replay.Engine.ExecuteMove | src/device/device.cpp:647-666 | D2D with overlap: memmove, on the direct and on the gather/scatter path |
| Replay.Engine.RunKernel | src/device/device.cpp:668-699 | on frames, GEMM at once and VADD by its loop give what the kernel makes of the sources as they were |
| Replay.Engine.ExecuteCompute | src/device/device.cpp:569-602 | VADD and GEMM: the kernel of the sources' bytes, on either path, with a GEMM destination apart from the sources and a VADD destination apart from each or not behind it |
| Replay.HarmlessFrames | src/device/device.cpp:189-198 | frames of resolved runs overlap only as their addresses do |
| Replay.Engine.Execute | src/device/device.cpp:551-703 | every opcode: done is the atomic result and only for operands that are mapped, an error means that one is not, and a fault names a byte of the command that is not in VRAM or is being evicted, which it needed next or has come closer to; so nothing faults with all its bytes there |
| Replay.Engine.MoveDirect | src/device/device.cpp:647-655 | one run per side, and memmove; else nothing has changed |
| Replay.Engine.Serve | src/device/device.cpp:368-378 | however often a command faults, wherever pages are moved between and during its executions, and whatever others write outside its ranges meanwhile, it ends like one atomic execution on that memory and leaves a fresh replay record; it ends with an error if and only if an operand is unmapped; with all its bytes in VRAM the first execution retires it; and if each fault brings the page that faulted, and the bytes needed next stay, it retires after at most three executions for each byte |
| Replay.BudgetFalls | src/device/device.cpp:368-378 | why: each execution that faults gets further, or the page it lacked is there next time |
| Replay.OperandsInOrder | src/device/device.cpp:668-699 | a kernel's first operand is the command's first source, and its second the second |
| Replay.Rebases | src/device/device.cpp:368-378 | a half-executed command stays half-executed, of the memory that others have changed outside its ranges |
| Replay.PokePatches | src/device/device.cpp:200-211 | a store to the frames of a run is a store to its addresses and to no other |
| Kernel.InPlaceIff | src/device/device.cpp:668-677 | the loop of VADD in memory gives, for every memory and arithmetic, what it gives through scratch buffers if and only if neither source starts before the destination and reaches into it, or there is one element |
| Kernel.InPlace | src/device/device.cpp:668-677 | so VADD onto one of its sources is VADD |
| Kernel.NotInPlace | src/device/device.cpp:583-600 | for any other overlap, a memory for which the direct and the gathered result differ |
| Kernel.Loop | src/device/device.cpp:675 | the loop is the step-by-step specification |
| Kernel.LoopSoFar | src/device/device.cpp:675 | after i elements exactly the first i elements of the result are stored |
| Ring.ExecutesInTicketOrder | src/device/device.cpp:347-390 | entry i of the engine's log is what became of ticket i: run once, with the command of that ticket, or retired once without by a failed migration |
| Ring.FailuresCounted | src/device/device.cpp:289-307 | in every run exactly as many commands are retired without being run as there are failed migrations for a head |
| Ring.EveryCommandRuns | src/device/device.cpp:347-388 | so in every run without a failed migration entry i of the log is ticket i's command, run |
| Ring.PutNeverGoesBack | src/driver/driver.cpp:692-703 | the device PUT never decreases, is never below GET or the engine's cursor, and never more than the depth ahead |
| Ring.NoOverwrite | src/driver/driver.cpp:674-681 | a slot is written only after the previous command in it has retired, and no command in flight is disturbed |
| Ring.NeverStuck | src/driver/driver.cpp:682-691 | while a ticket is unpublished and the engine has nothing to retire, the producer whose turn it is can take its own next step, and gets further by it |
| Ring.TurnEnds | src/driver/driver.cpp:682-703 | the producer whose turn it is can publish and hand the turn on by its own steps |
| Ring.EngineRetires | src/device/device.cpp:347-390 | the engine can run and retire what is published, also after faults; what this adds to the log is the tickets' commands, run |
| Ring.Drains | src/driver/driver.cpp:663-704 | from every reachable state producers and engine can go on until every ticket is published and retired, and every command not taken before has run |
| Ring.EnqueueRuns | src/driver/driver.cpp:663-704 | from every reachable state, in either mode, a new command can be enqueued, published, run and retired |
| Ring.StepKeepsInv | src/driver/driver.cpp:663-704 | every atomic access of enqueue, in ticket and mutex mode, and of the engine keeps the invariant |
| Ring.RunKeepsInv | src/driver/driver.cpp:663-704 | it holds in every interleaving of any number of producers with the engine |
| Ring.MaskIsSlot | src/driver/driver.cpp:681 | for a power-of-two depth the masked ticket is the ticket modulo the depth |
| Channels.EarliestIsReady | src/driver/driver.cpp:33-36 | the command published first among those not retired is never blocked on a fence |
| Channels.NoDeadlock | src/device/device.cpp:276-342 | with a command unretired, there is a head that may run and the step that is due is enabled: of the fault pipeline, in which its channel has exactly one place, if it is parked, else of its engine |
| Channels.HeadRetires | src/device/device.cpp:276-390 | such a head retires by steps of its engine alone, whatever the engine is at |
| Channels.Unparks | src/driver/driver.cpp:1245-1263 | a parked channel is unparked by the fault pipeline alone |
| Channels.RunNeverDeadlocks | src/driver/driver.cpp:1053-1059 | so in every reachable state |
| Channels.StepCounts | src/device/device.cpp:286-390 | commands are conserved: published minus retired grows by one with a publication, drops by one with a retirement, executed or failed, and does not change otherwise |
| Channels.Drains | src/driver/driver.cpp:33-36 | from every reachable state, with any faults and failures outstanding, engines and fault pipeline can go on until every command has retired |
| Channels.StepKeepsInv | src/device/device.cpp:276-390 | each parked channel has exactly one fault being published, queued or serviced, and no other has any; an engine is at one channel at a time; every access of the scan, the visit and the pipeline keeps this and the order of waits |
| Channels.RunKeepsInv | src/driver/driver.cpp:1245-1263 | in every run of producers, engines and the fault thread |
| Channels.WaitsHoldIff | src/device/device.cpp:289-307 | a retired WAIT had its fence passed; a step keeps this if and only if it is not a failed migration that retires a WAIT whose fence has not passed |
| Channels.RunKeepsWaits | src/device/device.cpp:350-358 | in every run without a failed migration every retired WAIT had its fence passed |
| Channels.FencesTrustedIff | src/device/device.cpp:282-337 | from a reachable state with two or more channels, every way to go on without a further failed migration keeps this if and only if each fault_fail that is set is ahead of its engine's scan and the head it will find, if any, may run |
| Channels.TrustedKeeps | src/device/device.cpp:282-337 | that condition is kept by every such step |
| Channels.RunKeepsTrust | src/driver/driver.cpp:1257-1263 | so in every run in which each failed migration is marked where it is harmless, any number of them |
| Channels.Harms | src/device/device.cpp:282-337 | for each way to violate it, a continuation that retires a WAIT whose fence has not passed: the flag was passed by, the head is a blocked WAIT, or there is no head yet |
| Channels.FailureCanSkipWait | src/device/device.cpp:289-307 | a run in which that step happens: the migration for one command fails twice |
| Streams.StreamOrder | src/runtime/runtime.cpp:208-235 | when a ring comes to a stream's k-th command, all the stream's earlier commands have retired, whichever rings they are on |
| Streams.TailMeansAll | src/runtime/runtime.cpp:410-420 | once the tail's fence has passed, the whole stream up to it has retired |
| Streams.EventOrder | src/runtime/runtime.cpp:469-482 | a command ordered behind an event starts only after everything before the record |
| Streams.RunKeepsOrder | src/runtime/runtime.cpp:208-235 | over whole runs of submits, events and device steps by any number of streams: when a ring comes to a stream's m-th command, the earlier ones have retired, and so has everything before each event it waits for |
| Streams.RunKeepsOrderEarly | src/runtime/runtime.cpp:208-235 | so also for a command whose submit has not returned |
| Streams.RunTailMeansAll | src/runtime/runtime.cpp:410-420 | in every run a finished command means that all earlier ones of its stream are finished |
| Streams.RunKeepsSystem | src/runtime/runtime.cpp:208-235 | the invariant behind these, kept by every step: a submit's waits and chunks one by one, rejected submits, and a record that submits first and stores the event later |
| Streams.RunKeepsCommands | src/driver/driver.cpp:1091-1103 | in every run, a command in a stream's history is in its ring, chunk by chunk |
| Streams.SubmitEnds | src/runtime/runtime.cpp:208-235 | from every reachable state an idle stream can submit a command to any ring, and it becomes the stream's last, in its ring and behind every event the stream was told to wait for |
| Streams.NeverRefused | src/driver/driver.cpp:1053-1059 | no WAIT that a submit has to make is refused in any run |
| Streams.DroppedCountsIff | src/runtime/runtime.cpp:221-234 | extra_waits are cleared before the command is accepted: in every reachable state a command starts only after an event dropped with a refused command if and only if the refused command or the event was on its ring |
| Streams.RefusedLosesEvent | src/runtime/runtime.cpp:221-234 | a run for every other choice of rings, in which the next command starts before the event |
| Streams.OrderedPasses | src/device/device.cpp:350-358 | a ring gets to a command only after every fence it was put behind |
| Streams.StepIsLater | src/device/device.cpp:347-390 | device steps, other than a skipped WAIT, only extend rings and advance fences |
| Streams.Stream.RawSubmit | src/driver/driver.cpp:1053-1059 | a WAIT is refused if and only if its fence is not published; otherwise the command is in the ring below the fence returned |
| Streams.Stream.WaitOn | src/runtime/runtime.cpp:213-220 | puts a ring behind a fence, with no command if it is the ring's own |
| Streams.Stream.SubmitWaits | src/runtime/runtime.cpp:221-225 | the ring is behind every extra wait and the tail, and no WAIT was refused |
| Streams.Stream.SubmitChunks | src/driver/driver.cpp:1091-1103 | every chunk of the command is in the ring, in order, at positions of its own from the first to the fence, whatever other producers interleave |
| Streams.Stream.Submit | src/runtime/runtime.cpp:208-235 | the new command is in its ring, chunk by chunk below the fence returned, and is ordered behind the stream's last one and every pending event; tail and waits are updated |
| Streams.Stream.Record | src/runtime/runtime.cpp:436-458 | the fence it stores is that of a new last command of the stream, a NOP, which is in its ring |
| Streams.Stream.WaitEvent | src/runtime/runtime.cpp:469-482 | the next command will wait for the event's fence |
| DeferredFree.Reclaim | src/driver/driver.cpp:962-970 | the in-place compaction keeps exactly the entries still fenced, in order, and recycles exactly the others |
| DeferredFree.FilterKeeps | src/driver/driver.cpp:962-970 | exactly the entries that qualify, each as often as before |
| DeferredFree.FilterInOrder | src/driver/driver.cpp:962-970 | in their order |
| DeferredFree.RecycledIsUnreferenced | src/driver/driver.cpp:926-970 | in every run without the race, memory back with its allocator is named by no command that may still run, and went back once; operands are checked one by one, and a submit publishes any number of commands |
| DeferredFree.FreeSafeIff | src/driver/driver.cpp:1456-1474 | every way to go on after a FREE, without a further race, keeps recycled memory unreferenced if and only if no submit in flight has checked that memory |
| DeferredFree.RaceRecycles | src/driver/driver.cpp:926-970 | the way it goes wrong, from every such state: the device goes idle, FREE completes, and the memory is recycled while the submit can still publish |
| DeferredFree.RaceBreaksIt | src/driver/driver.cpp:973-979 | a run in which FREE falls between the ownership check of a submit and its publication, and the memory is recycled under the command |
| DeferredFree.DrainedReclaimsAll | src/driver/driver.cpp:645-649 | after a drain, a reclaim leaves nothing pending |
| DeferredFree.AllComesBack | src/driver/driver.cpp:962-970 | from every state of a run without the race: once the device has retired what is published, everything freed can be recycled, also what a FREE under way is freeing |
| DeferredFree.FreedComesBack | src/driver/driver.cpp:1456-1474 | so every allocation that no submit in flight has checked can be freed, and its memory comes back |
| DeferredFree.SubmitEnds | src/driver/driver.cpp:973-979 | a command whose operands are allocated can be checked and published when no FREE is under way |
| DeferredFree.StepKeepsInv | src/driver/driver.cpp:622-632 | every step keeps the invariant, with the PUTs read one at a time while other threads publish |
| DeferredFree.RunKeepsInv | src/driver/driver.cpp:622-632 | it holds in every run without the race |
| Doorbell.NoLostDoorbell | src/device/device.cpp:488-514 | an engine asleep with its bell not rung: an unparked channel with a new PUT has a producer or unparker between store and ring; a blocked head whose fence has passed has one of those or an engine on its wake-up round still to come |
| Doorbell.AgentRings | src/device/device.h:202-211 | whoever is in that window finds the engine asleep and its ring counts |
| Doorbell.VisitRings | src/device/device.cpp:72-80 | an engine on its round rings a blocked sleeper when it comes to it |
| Doorbell.RecheckEstablishes | src/device/device.cpp:497-511 | the re-check after arming establishes for each channel what NoLostDoorbell says |
| Doorbell.RetireKeeps | src/device/device.cpp:390-393 | a retirement covers every head it satisfies, because its engine has the whole round before it |
| Doorbell.SleepCount | src/device/device.cpp:490-495 | num_asleep_blocked is the number of engines between its increment and decrement |
| Doorbell.StepKeepsInv | src/device/device.cpp:131-134 | every access of producers, unparkers and engines keeps the invariant |
| Doorbell.RunKeepsInv | src/device/device.cpp:488-536 | it holds in every run, for any number of engines, channels and producers |
| Wakeup.WorkWakes | src/device/device.cpp:488-536 | from every reachable state a sleeping engine with a new PUT or a satisfied head on an unparked channel is woken by whoever is due to ring, and runs, without the timeout |
| Wakeup.SleeperRetires | src/device/device.cpp:488-536 | so a command that can run, on a channel whose engine is asleep, can be retired without the timeout |
| Wakeup.SubmitWakes | src/device/device.h:202-211 | so can a command published to an empty channel whose engine is asleep |
| Wakeup.AgentComes | src/device/device.h:202-211 | a producer or unparker in its window gets to ring the sleeper |
| Wakeup.RoundComes | src/device/device.cpp:72-80 | an engine on its round gets to the blocked sleeper and rings it |
| Wakeup.FallsAsleep | src/device/device.cpp:488-514 | an engine with nothing to do on any of its channels gets to sleep, if nobody rings |
| Interrupt.NoLostInterrupt | src/driver/driver.cpp:572-581 | a waiter blocked with an unchanged sequence: the channel at which its predicate failed is armed at most at its fence or cleared with the pulse coming, and if the fence has passed the engine is on its way to the pulse; for single fences and snapshots |
| Interrupt.PulseFollows | src/device/device.cpp:390-405 | that way is: load the target, clear it, pulse |
| Interrupt.StepOk | src/driver/driver.cpp:488-493 | arming by compare-exchange, with any failures and any racing waiters, leaves the target at or below the waiter's fence or a pulse due |
| Interrupt.EngineBenign | src/device/device.cpp:297-305 | an engine clears a target only on the way to a pulse, and looks at the target after every retirement |
| Interrupt.StepKeepsInv | src/driver/driver.cpp:635-643 | every access of waiters and engines keeps the invariant |
| Interrupt.RunKeepsInv | src/common/event.h:34-58 | it holds in every run, with compare-and-sleep as the futex contract |
| Interrupt.WaiterBlocks | src/driver/driver.cpp:572-581 | a waiter whose predicate does not hold blocks, if nobody else moves, with the channel at which it failed armed for it |
| Interrupt.WaiterReturns | src/driver/driver.cpp:572-581 | from every reachable state a waiter whose fences have all passed returns, wherever it stands, and needs no timeout for it |
| Interrupt.Wakes | src/device/device.cpp:390-405 | the engine's pulse comes to a blocked waiter whose fence has passed, and wakes it |
| Allocator.CanonicalUnique | src/driver/vram_alloc.cpp:41-58 | a sorted list of blocks that do not touch is determined by the addresses it covers |
| Allocator.FreeListUnique | src/driver/vram_alloc.cpp:9-58 | so the free list depends on what is held only, not on the history |
| Allocator.AllocKeeps | src/driver/vram_alloc.cpp:14-19 | cutting a block leaves the maximal-interval decomposition of what is not held |
| Allocator.ReleaseKeeps | src/driver/vram_alloc.cpp:41-58 | merging a block with its neighbours does too |
| Allocator.Merged | src/driver/vram_alloc.cpp:42-57 | both merges together give the canonical list that covers the old blocks and the released one |
| Allocator.SumCounts | src/driver/vram_alloc.cpp:19 | the sum of the sizes of held blocks is the number of held addresses |
| Allocator.FullIffNothingFits | src/driver/vram_alloc.cpp:12-22 | one unit fits nowhere if and only if every byte is live |
| Allocator.RoundLeast | src/driver/vram_alloc.cpp:11 | the rounded size is the least multiple that is large enough |
| Allocator.VramAllocator.Alloc | src/driver/vram_alloc.cpp:9-23 | fails if and only if no gap holds the rounded size (or nothing is asked for), else takes the lowest such address; the free list stays canonical |
| Allocator.VramAllocator.Free | src/driver/vram_alloc.cpp:25-30 | true if and only if the address is live; then that block is gone and the list canonical |
| Allocator.VramAllocator.Detach | src/driver/vram_alloc.cpp:32-39 | the block is neither live nor free afterwards |
| Allocator.VramAllocator.Release | src/driver/vram_alloc.cpp:41-58 | the block is free again, merged with what it touches |
| Allocator.VramAllocator.OwnsRange | src/driver/vram_alloc.cpp:60-68 | true if and only if one live block contains the range |
| Allocator.VramAllocator.AllocThenFree | src/driver/vram_alloc.cpp:9-30 | allocating and freeing restores the free list exactly |
| Tlb.HeldIff | src/device/mmu.cpp:148-178 | without shootdowns a TLB holds a page used since any moment if and only if fewer than 64 other pages were translated since its last use |
| Tlb.CyclicHitsIff | tests/test_runtime.cpp:1385-1406 | a walk round and round over n pages hits after its first pass if and only if n is at most 64, whatever the TLB held before |
| Tlb.Mmu.Passes | tests/test_runtime.cpp:1385-1406 | passes over n resident pages, from any state of the MMU: after the first one every translation hits if n is at most 64, and every one misses if it is more; exact counts of hits and misses |
| Tlb.Mmu.FirstPass | src/device/mmu.cpp:198-221 | the first pass misses on every page if none was held |
| Tlb.Mmu.LaterPass | src/device/mmu.cpp:198-221 | each later pass hits n times and misses never, or the other way round |
| Tlb.TouchKeepsLru | src/device/mmu.cpp:148-163 | a translation, hit or miss with replacement, keeps the TLB least-recently-used |
| Tlb.Mmu.Translate | src/device/mmu.cpp:198-221 | the same answer as a bare walk, hit or miss; counts hits exactly; marks the PTE and touches this engine's TLB only |
| Tlb.Mmu.FindVictim | src/device/mmu.cpp:151-163 | the first empty entry, else the one used longest ago |
| Tlb.Mmu.Invalidate | src/device/mmu.cpp:132-139 | exactly the entries of the page are dropped, from every TLB |
| Tlb.Mmu.MapVram | src/device/mmu.cpp:13-30 | refused exactly for a bad range or a mapped page; then nothing changes; else exactly the range is mapped, and TLBs agree with the table |
| Tlb.Mmu.MapHost | src/device/mmu.cpp:32-47 | the same for host-resident pages |
| Tlb.Mmu.MakeResident | src/device/mmu.cpp:49-68 | maps a host-resident page clean and referenced; a resident one is left alone |
| Tlb.Mmu.BeginEvict | src/device/mmu.cpp:70-82 | returns the old entry, leaves the page host-resident and in no TLB |
| Tlb.Mmu.Unmap | src/device/mmu.cpp:114-130 | exactly the range is unmapped, and no TLB has any of it |
| Priority.AgreesIff | src/device/device.cpp:101-113 | whatever the calls under way do, mixed_priority_ agrees with the priorities once they have returned if and only if each call that may still store false is right to |
| Priority.GuardedAgrees | src/device/device.cpp:101-113 | so in every run in which each call starts safely, any number at once, they agree whenever none is under way |
| Priority.SerialAgrees | src/device/device.cpp:101-113 | with calls one at a time they always agree, except between the two stores of the call under way |
| Priority.CallSetsFlag | src/device/device.cpp:101-113 | a call alone gives the channel its priority, and sets the flag if and only if some priority is not the default |
| Priority.AloneIsSafe | src/device/device.cpp:101-113 | a call that starts when none is under way is safe |
| Priority.FlagGetsLost | src/driver/driver.cpp:1558-1561 | from every unsafe state there is a way to go on in which the flag ends false with a priority set |
| Priority.OverlapLosesFlag | src/driver/driver.cpp:1558-1561 | such a run from the start, with two overlapping calls |
| Priority.StepKeepsFine | src/device/device.cpp:101-113 | every store and every read of the scan keeps safety |
| Runlist.Choose | src/device/device.cpp:276-338 | the choice can run, nothing that can run is better, and it is the first of its priority counted from the round-robin start; none if and only if nothing can run |
| Runlist.VisitComesCloser | src/device/device.cpp:340-342 | a visit to another channel brings the round-robin start closer to one that waits |
| Runlist.Fair | src/device/device.cpp:261-347 | a channel that stays runnable with no better rival is visited within as many visits as there are channels |
| Runlist.SkipIsSound | src/device/device.cpp:406-416 | in every run of calls one at a time, a better rival that an engine does not look for exists only while the one call under way is between its stores |
| Runlist.SerialShowsMixedOk | src/device/device.cpp:406-416 | such runs show engines, at every moment, the agreement Visit relies on |
| Runlist.Engine.OtherRunnable | src/device/device.cpp:261-274 | true if and only if another channel can run with a better, or the same, priority |
| Runlist.Engine.Visit | src/device/device.cpp:347-427 | a visit retires exactly the commands that execute, and parks the channel at the one that faults; it ends only for a reason that holds, and goes past a boundary at which a better channel can run only while a set_channel_priority has not stored the flag |
| Runlist.Engine.SetPriority | src/device/device.cpp:101-113 | refuses exactly what is out of range; store, scan and store leave mixed_priority_ true if and only if some priority is not the default |
| Staging.SlotIsExclusive | src/driver/driver.cpp:992-1013 | across concurrent copies, a copy that has passed a slot's fence shares the slot with no command in flight but its own |
| Staging.StepKeepsInv | src/driver/driver.cpp:992-1013 | every step of acquire, wait, enqueue, release and retire keeps a party answerable for each command in flight |
| Staging.RunKeepsInv | src/driver/driver.cpp:992-1013 | in every run of any number of copies on any rings |
| Staging.ChunkEnds | src/driver/driver.cpp:992-1013 | from every reachable state a copy can take a free slot, wait for its fence, queue its command on any ring, and give the slot back with a fence right behind that command |
| Staging.FillCommutes | src/driver/driver.cpp:1093-1097 | filling a slot no pending command uses leaves the outcome of the pending ones as it was |
| Staging.ChunksTile | src/driver/driver.cpp:1122 | the chunks tile the length without gap or overlap |
| Staging.Pool.AcquireSlot | src/driver/driver.cpp:992-1008 | a slot nobody holds, searched round-robin, with no pending command on it after the wait; none if and only if all are busy |
| Staging.Pool.StageOut | src/driver/driver.cpp:1093-1103 | one chunk: the slot goes back, and the chunk is in its place once the ring has executed |
| Staging.Pool.CopyH2D | src/driver/driver.cpp:1086-1104 | for every length, chunk and slot count and whatever slots others hold: once the ring has executed, the destination holds the source and nothing else has changed; it stops short only where every slot is busy |
| Staging.Pool.Issue | src/driver/driver.cpp:1127-1137 | the window grows by the next chunk, in a slot of its own, unless every slot is busy |
| Staging.Pool.FillWindow | src/driver/driver.cpp:1138-1141 | the window starts with max(1, slots / 2) chunks, or all; it falls short only if every slot is busy, and fewer than that many were free at the start |
| Staging.Pool.Advance | src/driver/driver.cpp:1142-1152 | the oldest chunk is delivered, and the window is chunks done..issued-1 again; a chunk is not issued only if every slot is busy, and fewer slots than the window has were free at the start |
| Staging.Pool.CopyD2H | src/driver/driver.cpp:1118-1155 | for every length, chunk and slot count and whatever slots others hold: the host gets exactly the bytes the device holds once the commands before have executed, and the copy's slots, and no others, are free again; it stops short, with a prefix, only where every slot is busy and fewer than max(1, slots / 2) were free at the start |
| Headroom.NeverJamsIff | src/driver/driver.cpp:1138-1141 | from an idle pool of any size no reachable state is a jam if and only if threads * (depth - 1) < slots |
| Headroom.NoJam | src/driver/driver.cpp:992-1008 | some copy can go on while the D2H copies under way, with one slot less than the depth each, leave a slot; H2D copies do not count |
| Headroom.EveryOrderEnds | src/driver/driver.cpp:1138-1152 | then every order of steps ends with all copies done, after exactly as many steps as there is work |
| Headroom.Jams | src/driver/driver.cpp:1138-1141 | with more threads than that, a run from an idle pool into a jam |
| Headroom.JamStays | src/driver/driver.cpp:992-1008 | a jam is for good |
| Headroom.JammedMeans | src/driver/driver.cpp:992-1008 | a jam is exactly: every slot is busy and every copy looks for one |
| Headroom.StepKeepsInv | src/driver/driver.cpp:1118-1155 | no slot is given out twice, and no D2H copy holds more than its depth, or looks for more when it does |
| Headroom.ThreeJamTheDefault | include/softgpu/sg_ioctl.h:37 | two threads never jam, whatever the number of slots; with the default of 8 slots three can |

## Left out

- Weak memory orderings and the experiment that drops the fences: everything is sequentially consistent.
- 32-bit wrap of the event sequence words and 64-bit wrap of counters, addresses and of the size rounding in the allocator: numbers are unbounded.
- kmod, ioctl and mmap plumbing, raw userfaultfd calls: UFFDIO_COPY is one atomic page install that may fail, MADV_DONTNEED one atomic drop, the futex a compare-and-sleep.
- Clocks, spin budgets, estimators and statistics, except the TLB hit and miss counters. Timeslices are an arbitrary "slice is due".
- Float arithmetic: GEMM is an arbitrary function from source bytes to destination bytes, and VADD one for each element. GEMM onto its own sources is not covered.
- Host stores to a page that is in VRAM without userfaultfd, or that is on its way into VRAM: assumed not to happen.
- Wake-ups after retirements through `fault_fail`: that path does not call wake_blocked_sleepers and relies on the 1 ms timeout.
- Pinning, PIN and UNPIN, direct DMA, match_stream, the stream-to-channel binding of the runtime, error codes other than those named in contracts.
- Unmapping and mapping new pages while engines run are whole operations in World and Tlb, not access by access; a failed copy_in or make_resident inside migrate_locked cannot happen with a valid frame and is not modelled.
- Liveness: that threads get to run. What is proved is that the step that is due is enabled, that a way to the end exists from every reachable state, and measures where the source promises termination.
- Shootdown.StepKeepsInv: the sweep and quiesce may visit slots and engines in any order, and which TLB slot an insert takes is arbitrary; Tlb has the replacement policy. MADV_DONTNEED does not fail here; Userfault has that.
- Ring.StepKeepsInv: the doorbell calls around the PUT store are in Doorbell.
- Replay.Engine.Serve: other commands do not write to the ranges the command reads or writes; what such a race gives is not specified. Within one access a page is there or not; that it stays until the access ends is what Shootdown proves. The check of a run against the size of VRAM at the end of run_at cannot fail for frames that exist and is not modelled. The number of executions is bounded by a parameter, for any value of it; that a command retires is stated for pages that come and stay while it needs them, since nothing in the driver keeps them.
- Managed.ManagedMemory.PrefetchLocked: engines set no reference bits during the call.
- Managed.ManagedMemory.EvictLocked: whether the k-th write-back under userfaultfd succeeds is a parameter, an arbitrary function of k.
- Managed.ManagedMemory.Alloc: whether the drain succeeds, and for ALLOC_MANAGED whether the host has pages, are parameters. Which freed allocations the device is done with, before and after the drain, are parameters; DeferredFree decides that. What VRAM holds in a new block is arbitrary.
- Allocator.VramAllocator.Alloc: the region is not empty and the alignment is positive, as in both uses.
- Runlist.Engine.SetPriority: one call, with no other step between its accesses; calls at once are in Priority.
- Runlist.Engine.Visit: the state at a boundary is what the scan reads there, each channel at its own moment; the number of commands in a visit is bounded by a parameter, for any value of it. That flag and priorities agree outside set_channel_priority is assumed, which Runlist.SerialShowsMixedOk shows for calls one at a time.
- Streams.Stream.Submit: commands are not empty; the zero-length pageable copy, which sets no fence, is not covered. Submits that fail are in Streams.RunKeepsSystem and Streams.DroppedCountsIff.
- Channels.FencesTrustedIff: engines may scan in any order, choose any ready channel and look anew at any moment except between the accesses to one channel. The scan order and the priorities of the code can rule out the harm where the WAIT is for another channel of the same engine and that engine happens to retire its command first.
- Staging.Pool.CopyH2D: one thread and one ring, and slots of other copies do not change meanwhile; copies at once are covered by Staging.SlotIsExclusive and Headroom. Where the source spins for a slot it returns. Errors of wait_fence, after which the window's slots stay busy, are not covered.
- Staging.Pool.CopyD2H: the same.
- Headroom.NeverJamsIff: fences pass, which Channels.Drains is about; threads are on channels of their own or in ticket mode, where no channel lock keeps them apart.
- Interrupt.NoLostInterrupt: channels are served independently of each other; one engine that serves several in turn has fewer interleavings.
- Tlb.Mmu.Translate: end_evict and test_and_clear_accessed, which touch only PTE bits, are in Shootdown; the generation re-checks of tlb_insert always succeed between whole operations and are there too.
