# Chronoporia: a verified model of its histories and its instrumentation

Chronoporia is a debugger that records a process, goes back to any recorded point and branches a new run off it. This project
models three parts of it and proves what they promise.

**Histories.** Every run can branch off any earlier point, and every old point stays readable. `Lineage.dfy` holds the one
specification: a log of runs, each with its entries and the point it branched from. The structures of the debugger are shown
to implement it: the per-page logs that drop unchanged pages (`PageHistory.dfy`, `PagedMemory.dfy`), the tree searched by a
pruned depth-first walk (`ExecutionTree.dfy`) and the arrays that climb the lineage (`PersistentArray.dfy`). Regions,
allocations and the whole address space are built on the first two (`MemoryModel.dfy`, `ProcessMemory.dfy`,
`MemoryTimeline.dfy`, `MemoryReads.dfy`), with their objects and loops in `MemoryClasses.dfy`. `AddressSpace.dfy` models what
the system's memory calls do to the debuggee, `MemoryManager.dfy` the scan, the freeing pass and the rebuild, and
`Rebuild.dfy` proves what a rebuild brings back, with `ScannedProcess.dfy` saying so address by address and byte by byte.
`TreeTimeline.dfy` follows trees over whole runs, and `TimeRestore.dfy` all histories of a session: tracking, snapshots, and
the fresh run after going back.

**Branch counting.** Block leaders are displaced into stubs that count block entries per thread. `Words.dfy`, `Processor.dfy`
and `CounterStub.dfy` model the emitted bytes on a small processor. `Relocation.dfy` and `Execution.dfy` take decoding and all
other instructions as parameters; the laws asked of the decoder are `InstructionSet.Lawful`: an instruction has 1 to 15 bytes
and is decoded from its own bytes only, a different displacement leaves it the same instruction, and the emitted encodings are
decoded, with their displacement, as documented in the Intel 64 and IA-32 Architectures Software Developer's Manual (volume 1,
section 3.4.3.1; volume 2, section 2.2.1.6 and the entries of ADD, Jcc, JMP, LAHF, SAHF and SETcc).
`Execution.KnownAloneIsLawful` shows the laws can be met. `Instrumentation.dfy`, `AddressMaps.dfy` and `Preservation.dfy`
place the stubs, keep the address maps and compare the patched program with the pristine one; `PlacedBlock.dfy` says which
blocks get a stub. `Blocks.dfy` finds branches and blocks, and `SweptBranch.dfy` compares the branches it reports with where
the processor goes, `ModuleInstrumentation.dfy` instruments a whole module, `AllocNear.dfy` finds the room, `PatchedRun.dfy`
follows whole runs from block to block, `SpilledRun.dfy` is such a run, `Predecessors.dfy`, `StepBack.dfy` and `StepLine.dfy`
reason about stepping on the patched program, and `MissedBranch.dfy` is a program on which that fails.

**Events.** `EventLog.dfy`, `EventNesting.dfy` and `EventReplay.dfy` model the log of recorded calls, which return completes
which event, and replay in order; `ReplayNesting.dfy` says which replayed call an end ends, and `RecordedReplay.dfy` follows a
recording into its replay.

Objects whose methods update fields are classes, and each of their methods is tied to a function on values; the theorems are
about those functions. Where the code does not keep a property on all inputs it can meet, a lemma says exactly when it does
and another gives an input on which it does not.

## Model

| member | source | states |
|---|---|---|
| Lineage.Persistence | src/execution_state_machine/execution_phase/time_restore_phase.cpp:217-231 | Whatever is recorded or restored later, every point already passed reads the same for ever. |
| Lineage.AppendReads | src/utils/execution_tree.h:76-82 | Recording answers every read at or after it in its own run and changes no other read, in any run. |
| Lineage.BranchReads | src/utils/execution_tree.h:101-106 | A fresh run reads at every sequence number as its origin, and no other run reads differently. |
| Lineage.SameAfterSkip | src/utils/fully_persistent_region.h:111-132 | Dropping a write is invisible to every later read if and only if the active run already reads that value. |
| PageHistory.NearestIsLocate | src/utils/fully_persistent_region.h:50-108 | The lookup with all its early exits finds what the plain climb of the lineage finds, from every point. |
| PageHistory.UpdateKeeps | src/utils/fully_persistent_region.h:111-132 | A write with the cursor at the tip is read by every later lookup as if it had been recorded, dropped or not, and leaves the cursor at the tip. |
| PageHistory.MakeBranchKeeps | src/utils/fully_persistent_region.h:135-143 | Wherever reads have left the cursor, a branch makes the new run read as its origin and puts the cursor at the new run's tip. |
| PageHistory.DisturbedUpdate | src/utils/fully_persistent_region.h:104-132 | With the cursor anywhere, a write is read correctly if and only if the page under the cursor differs from it or the active run reads it already. |
| PageHistory.ReadWithoutBranchLosesAWrite | src/utils/fully_persistent_region.h:104-132 | A concrete history in which a read with no branch after it makes the next write disappear. |
| FatNodes.FatNodeHistory.GetNodeNearest | src/utils/fully_persistent_region.h:50-108 | The loop over the lineage returns the nearest node, and moves the cursor there and nothing else. |
| FatNodes.FatNodeHistory.Write | src/utils/fully_persistent_region.h:111-132 | The object's write is the specified update, and extends any log that the object stands for. |
| FatNodes.FatNodeHistory.Branch | src/utils/fully_persistent_region.h:135-143 | The object's branch is the specified one, and branches any log that the object stands for. |
| PagedMemory.ReadsBack | src/utils/fully_persistent_region.h:167-212 | Reading as many pages as the buffer visible at a point has never indexes past the page list, however the region grew or shrank across branches, and gives exactly that buffer. |
| PagedMemory.BranchAfterReads | src/utils/fully_persistent_region.h:195-212 | Reads before a branch leave no trace after it. |
| PersistentRegions.FullyPersistentRegion.Write | src/utils/fully_persistent_region.h:167-193 | The loops that update, then create, pages write the pages of the buffer and no others. |
| PersistentRegions.FullyPersistentRegion.RegionAt | src/utils/fully_persistent_region.h:202-212 | The read loop joins the visible pages, with zeros for a partial last page. |
| TreeHistory.TreeReads | src/utils/execution_tree.h:89-97 | On every reachable tree the pruned search with its single hop to the branch origin reads what the full recursive climb reads. |
| TreeHistory.AddKeeps | src/utils/execution_tree.h:76-82 | Recording a node below the cursor appends to the log the tree stands for. |
| TreeHistory.RevertKeeps | src/utils/execution_tree.h:101-106 | Reverting branches that log, whether the target is in this tree or not. |
| TreeHistory.ShadowKeeps | src/utils/execution_tree.h:129-136 | A node at the first node's own key is never what any search returns. |
| TreeTimelines.TreePersistence | src/utils/execution_tree.h:76-106 | Whatever is recorded below a tree or reverted later, nodes at the first key included, every settled point reads the same for ever. |
| TreeTimelines.AddReads | src/utils/execution_tree.h:76-82 | A new node is read from its key on in its own run, one at the first key never; no other read changes. |
| TreeTimelines.RevertReads | src/utils/execution_tree.h:101-106 | In a reverted tree the fresh run reads as the target at every sequence number and nothing else changes. |
| ExecutionTrees.AllDone | src/utils/execution_tree.h:138-151 | Not visiting later runs loses no node of a run at or before the target. |
| ExecutionTrees.HighestIsBest | src/utils/execution_tree.h:129-136 | The answer does not depend on the order of the visit: any node of the run with the highest sequence number that matches, other than a copy of the first key, is the one. |
| ExecutionTrees.ExecutionTree.FindNode | src/utils/execution_tree.h:110-164 | The stack search finds the specified node, which holds what the log reads. |
| ExecutionTrees.ExecutionTree.GetState | src/utils/execution_tree.h:89-97 | The state returned is what the log reads. |
| ExecutionTrees.ExecutionTree.NearestState | src/utils/execution_tree.h:166-214 | The search without the exact exit gives the same answer. |
| ExecutionTrees.ExecutionTree.GetExactNode | src/utils/execution_tree.h:248-278 | A node is found if and only if one with exactly this key is in the tree. |
| ExecutionTrees.ExecutionTree.AddChild | src/utils/execution_tree.h:76-82 | The new node hangs below the cursor in its run's list; the log is extended, or unchanged at the first node's key. |
| ExecutionTrees.ExecutionTree.RevertToState | src/utils/execution_tree.h:101-106 | The cursor moves to the node found or to the hidden root, and the log branches. |
| RegionModel.RegionReads | src/utils/memory/region_history.cpp:7-20 | A region's attributes are always those visible at the point, its bytes are if and only if a committed size fits in 32 bits, and reading never runs past the pages. |
| RegionModel.LargeRegionIsCut | src/utils/memory/region_history.cpp:7-20 | A committed region of 4 GiB that does not come back. |
| RegionModel.ShadowFreeKeeps | src/utils/memory/allocation_region.cpp:45-53 | Marking a region free at its own creation key changes nothing it reads. |
| AllocationModel.UpdateRegionOk | src/utils/memory/region_history.cpp:22-25 | Recording a listed region extends its log by what the scan lists for it. |
| ProcessMemory.EverySeen | src/utils/memory/allocation_region.cpp:39-43 | As many distinct seen addresses as regions means every region was seen, so the size shortcut is exact. |
| ProcessMemory.StaleMid | src/utils/memory/allocation_region.cpp:39-56 | After the marking, seen regions stand as scanned, every other region reads as free, and the extra free record of a new allocation is never read. |
| ProcessMemory.SnapshotKeeps | src/utils/memory/process_memory_history.cpp:18-32 | A whole scan appends one entry to the log that every region reads as. |
| MemoryTimeline.RunKeeps | src/utils/memory/process_memory_history.cpp:18-38 | The invariant of the address space holds after every run of scans and restores. |
| MemoryTimeline.OkIsInRange | src/utils/fully_persistent_region.h:202-212 | After every run, from every point, no read of any region indexes out of bounds. |
| MemoryReads.AllocationReads | src/utils/memory/allocation_region.cpp:27-37 | The regions returned for an allocation are exactly the non-free ones of the visible scan, each once, with the scanned attributes and bytes, if and only if their committed sizes fit in 32 bits. |
| MemoryReads.HeadDecides | src/utils/memory/allocation_region.cpp:64-70 | An allocation is returned if and only if the region first recorded for it is live in the visible scan. |
| MemoryReads.ReturnsAllIff | src/utils/memory/process_memory_history.cpp:7-16 | Everything live in the visible scan is returned if and only if no allocation with a live region has lost its first recorded one and the committed sizes fit in 32 bits. |
| MemoryReads.LostHeadIsNotReturned | src/utils/memory/allocation_region.cpp:64-70 | A run of two scans after which a live region is not returned, its allocation having lost the first one. |
| MemoryReads.EveryRunReturnsScans | src/utils/memory/process_memory_history.cpp:7-38 | For scans that list each allocation from its base, after any run every point returns exactly the scan the log of that run shows there, if and only if the committed sizes in that scan fit in 32 bits. |
| MemoryReads.PointsStay | src/utils/memory/process_memory_history.cpp:7-38 | No later scan or restore changes what an earlier point returns; it stays its scan, under the same condition on that scan alone. |
| MemoryReads.RestoreReturnsTarget | src/utils/memory/process_memory_history.cpp:34-38 | Right after a restore the fresh run returns, at every sequence number, the target's scan, under the same condition. |
| MemoryClasses.AllocationRegion.UpdateStaleRegions | src/utils/memory/allocation_region.cpp:39-56 | The loop with its shortcut is the specified marking. |
| MemoryClasses.AllocationRegion.GetCurrentRegions | src/utils/memory/allocation_region.cpp:27-37 | The loop returns the live regions and moves only page cursors. |
| MemoryClasses.ProcessMemoryHistory.GetCurrentAllocationRegions | src/utils/memory/process_memory_history.cpp:7-16 | The loop lists every allocation that is not freed, once, with its live regions, in whatever order the map is walked. |
| MemoryManagers.MemoryManager.SnapshotMemory | src/managers/memory_manager.cpp:19-50 | The query loop records the scan of the process and marks what it did not list. |
| AddressSpaces.FreedIsKept | src/managers/memory_manager.cpp:56-64 | The freeing pass, each query seeing what earlier releases left, unmaps exactly the allocations that have a region which is not image, mapped, shared user data or blacklisted; all others keep attributes and bytes. |
| MemoryManagers.MemoryManager.FreeAll | src/managers/memory_manager.cpp:56-64 | The loop is that pass. |
| MemoryManagers.MemoryManager.RestoreMemoryAtSequence | src/managers/memory_manager.cpp:52-112 | The whole process afterwards, attributes and bytes, is the freeing pass followed by the rebuild of the allocations returned for the point, in their order; the history has only moved page cursors. |
| Rebuilds.RebuildIsTrue | src/managers/memory_manager.cpp:52-112 | After freeing and rebuilding, every committed region of the visible scan holds its bytes; any other address that was not freed keeps its byte; nothing is unmapped but what is freed and nothing mapped but what is reserved. |
| Rebuilds.ReservedIsAllocation | src/managers/memory_manager.cpp:70-86 | The sizes summed for one reservation, in whatever order the regions are returned, cover exactly the addresses of the scanned allocation. |
| Rebuilds.SpaceReturns | src/managers/memory_manager.cpp:66-110 | If what the pass keeps is as at the scan but for the protection of scanned pages, and all else was private and scanned, every address of the process is again what it was at the scan. |
| Rebuilds.RescanIsSame | src/managers/memory_manager.cpp:19-112 | Under that condition a scan of the rebuilt process, with its own queries, gives the restored scan: the same regions and the same bytes. |
| Rebuilds.UnchangedIsCompatible | src/managers/memory_manager.cpp:56-64 | The condition holds when nothing that the pass spares has changed since the scan. |
| Rebuilds.ScanIsGood | src/managers/memory_manager.cpp:19-50 | A scan of a process lists each region once with all its bytes, and each allocation from its base, when only whole allocations are skipped. |
| ScannedProcesses.ScanIsTrue | src/managers/memory_manager.cpp:19-50 | Every region a scan lists has the attributes that each of its addresses has in the process and, when committed, the process's byte at each of its addresses; a region of the system's list is missing if and only if it starts in 0x7ffe0000..0x7ffeffff or at a blacklisted address. |
| ScannedProcesses.EachAddressIsListed | src/managers/memory_manager.cpp:22-48 | The query loop passes over no address: each is in exactly one region it is given. |
| ScannedProcesses.BytesComeBack | src/managers/memory_manager.cpp:19-112 | After any change of the process, freeing and rebuilding puts back, at every address of every committed region that the scan listed, the byte that was there at the scan. |
| ScannedProcesses.KeptIs | src/managers/memory_manager.cpp:56-64 | The freeing pass keeps an address if and only if it is of an image or a mapped file, of a blacklisted allocation, or of one all of whose regions start in the system's shared page. |
| ScannedProcesses.UnchangedComesBack | src/managers/memory_manager.cpp:19-112 | If the same addresses stay in that sense as at the scan, with the same attributes, and all else was private and listed, then after freeing and rebuilding the address space is that of the scan and a new scan gives the restored one, bytes included. |
| TimeRestores.Session.SnapshotProcess | src/snapshot_log.cpp:33-44 | From then on the run's memory and snapshot histories read what was recorded, and so does that of each current thread with a readable context unless the thread was first tracked at this very sequence number; every other read of any history stands, and the sequence moves on. |
| TreeTimelines.RecordIsRead | src/utils/execution_tree.h:76-97 | A new record is read at its own point if and only if its key is new or the tree's first node holds the same state. |
| TimeRestores.TrackedThenSnapshot | src/managers/thread_manager.cpp:32-45 | A thread first tracked and then snapshotted at one sequence number reads as tracked, never as snapshotted. |
| TimeRestores.Session.SnapshotThreads | src/managers/thread_manager.cpp:132-147 | Exactly the current threads whose context can be read get a record. |
| TimeRestores.Session.Exit | src/execution_state_machine/execution_phase/time_restore_phase.cpp:217-231 | Memory is rebuilt, the run number grows by one and the sequence restarts; in the new run every thread, module, snapshot and memory history reads at every sequence number what it read at the target, and no other read of any of them changes. |
| TimeRestores.ExitIsRestore | src/execution_state_machine/execution_phase/time_restore_phase.cpp:217-231 | The memory part of leaving the phase, reads included, is the restore step of the runs above. |
| PersistentArrays.FullyPersistentArray.FindFatNode | src/utils/fully_persistent_array.h:236-259 | The climb ends when parents are smaller than their children, at the entry the log locates. |
| PersistentArrays.ArrayAgreesWithTree | src/utils/fully_persistent_array.h:213-259 | After any run of records and branches made on both, the array and the execution tree answer alike from every point. |
| PersistentArrays.DiffIsWhole | src/utils/fully_persistent_array.h:108-121 | Writing only the lines that differ reads as writing them all if and only if the unchanged lines were current. |
| PersistentArrays.StaleDiffIsNotWhole | src/utils/fully_persistent_array.h:108-121 | A line compared with a page that is not current is lost. |
| PersistentArrays.DiffRunIsWhole | src/utils/fully_persistent_array.h:108-121 | Over any run with branches, lines compared with what the run reads are read everywhere as if always recorded. |
| PersistentArrays.MirrorKeeps | src/utils/fully_persistent_array.h:95-121 | Once a page is recorded a line reads as the page's if and only if an unchanged one was current, and the latest page stays what a read at the end gives. |
| PersistentArrays.MirrorAfterBranch | src/utils/fully_persistent_array.h:90-93 | After a branch the latest page is right if and only if the origin shows it. |
| PersistentArrays.StaleMirror | src/utils/fully_persistent_array.h:90-93 | A branch after which the latest page is not what a read gives. |
| PersistentArrays.FullyPersistentCacheArray.RegisterBranch | src/utils/fully_persistent_array.h:90-93 | The new run has no lines of its own, and the whole latest page is right in it if and only if the origin shows all of it. |
| PersistentArrays.FullyPersistentCacheArray.Update | src/utils/fully_persistent_array.h:108-121 | The loop records exactly the changed lines in history and mirror; a read gives the page if and only if the unchanged lines were current; the latest page stays right, and is the page when it was compared with. |
| PersistentArrays.FullyPersistentCacheArray.Get | src/utils/fully_persistent_array.h:123-138 | The page is read line by line along the lineage, and is the latest page at the end of a run on which that is right. |
| CounterStub.Disassembled | plugins/cpp/branch_instrumentation.cpp:113-160 | The processor decodes the emitted bytes as the listed instructions, at the listed offsets. |
| CounterStub.StubCounts | plugins/cpp/branch_instrumentation.cpp:36-51 | From every start state the stub restores registers, RSP and flags, adds one to the counter modulo 2^64, stops exactly when the new counter has reached the target, writes only the counter and 16 bytes below RSP, and the RSP correction is exact at every instruction. |
| Relocation.GrowFits | plugins/cpp/branch_instrumentation.cpp:387-411 | The displaced instructions are not branches, take 5 to 19 bytes and end inside the block. |
| PlacedBlocks.GrowIsRight | plugins/cpp/branch_instrumentation.cpp:388-411 | Instructions are chosen to be displaced if and only if they are the first of the block, plain, and the fewest that make up 5 bytes; the block is too small if and only if it ends before, and passed over if and only if a branch or an undecodable byte comes before. |
| PlacedBlocks.StubIff | plugins/cpp/branch_instrumentation.cpp:366-465 | A block gets a stub if and only if there is a region, such instructions exist, every operand they name relative to RIP is in reach of the stub and the stub in reach of the block; it is noted as skipped if and only if it does not and has not merely ended before 5 bytes. |
| Relocation.MovedResolves | plugins/cpp/branch_instrumentation.cpp:233-269 | A moved instruction names the same absolute operand and stays the same instruction; the move fails exactly when no 32-bit displacement would do. |
| Execution.PlainRun | plugins/cpp/branch_instrumentation.cpp:233-269 | Instructions that do not depend on their address have the same effect, one by one, wherever they are placed. |
| Execution.MovedActs | plugins/cpp/branch_instrumentation.cpp:233-269 | The displaced instructions decode and act at their new place as at their old one. |
| Instrumentation.Instrumenter.RelocateLeader | plugins/cpp/branch_instrumentation.cpp:233-269 | The loop appends the re-based instructions, or reports failure exactly when one does not fit. |
| Instrumentation.Instrumenter.PlaceStub | plugins/cpp/branch_instrumentation.cpp:413-463 | When an operand or the stub does not reach, the staged code is put back and only the list of skipped blocks has grown; otherwise code, patches and all three maps have exactly the new entries. |
| Instrumentation.Instrumenter.InstrumentBlock | plugins/cpp/branch_instrumentation.cpp:366-465 | The call with its roll-backs is the specified step, in code, patches, all three maps and the list of skipped blocks. |
| Instrumentation.Instrumenter.Commit | plugins/cpp/branch_instrumentation.cpp:467-486 | The stubs and then every detour are written into the image. |
| AddressMaps.AddressesRoundTrip | plugins/cpp/branch_instrumentation.cpp:494-506 | After any calls every address outside the stubs goes to its true address and back; what a stub address stands for is decided by its own stub. |
| AddressMaps.EntriesNeverCollide | plugins/cpp/branch_instrumentation.cpp:444-463 | Each placement adds exactly 13 entries, one for each displaced instruction and one more: none overwrites another. |
| AddressMaps.RemapAlwaysExact | plugins/cpp/branch_instrumentation.cpp:453-460 | An address is remapped if and only if a displaced instruction starts there, to where that instruction went. |
| Preservation.PatchedProgramAgrees | plugins/cpp/branch_instrumentation.cpp:366-465 | From a block start, detour, stub, displaced instructions and jump back reach the end of the leader in the pristine program's state, but for one more count, the 16 bytes below RSP and a stop at the target. |
| PatchedRuns.PatchedRunCounts | plugins/cpp/branch_instrumentation.cpp:366-465 | For a run of the pristine program from placed block to placed block that takes its way whatever the counter and the bytes left different are: the patched program comes to the matching state, only the counter and the bytes named for the last lap may differ, and the thread's slot holds exactly the count along the addresses executed. |
| PatchedRuns.LapsAreExact | plugins/cpp/branch_instrumentation.cpp:366-465 | For any run from placed block to placed block, whatever the program reads or writes: the patched program is exactly the pristine one in which every block starts with the counter, the 16 bytes below RSP and the stops as the stub leaves them. |
| SpilledRuns.SpillIsCovered | plugins/cpp/branch_instrumentation.cpp:366-465 | A program that pushes a register in one counted block and pops it in the next, its word among the 16 bytes below the first entry's RSP, meets what the result on runs asks, from any state with room for its slots. |
| PatchedRuns.LapAgrees | plugins/cpp/branch_instrumentation.cpp:366-465 | Over one block and the code up to the next placed one, from any two states that agree but for the counter and some bytes: afterwards they agree but for the counter and the bytes that the pristine lap has not made equal, the count is one higher, and the thread has stopped once more exactly when the count has reached the target. |
| Preservation.BlockIsExact | plugins/cpp/branch_instrumentation.cpp:366-465 | Past the jump back the thread is exactly where the pristine program takes it from the state that the stub leaves, with no condition on what the displaced instructions read or write but that they can be moved. |
| PatchedRuns.ClearStep | plugins/cpp/branch_instrumentation.cpp:467-486 | An instruction without a patched byte, and whose jump word has none, does the same in the committed image. |
| Execution.LoadIsInsensitive | plugins/cpp/branch_instrumentation.cpp:366-465 | What is asked of a displaced instruction is met by a load through a register wherever that points away from the counter and the 16 bytes below RSP. |
| Preservation.LeaderAgrees | plugins/cpp/branch_instrumentation.cpp:233-269 | The same holds after each single displaced instruction. |
| Preservation.StopsLookPristine | plugins/cpp/utils.cpp:32-39 | Wherever the thread stops inside an instrumented block, the corrected RIP and RSP are those of the pristine program. |
| Preservation.DetourJumps | plugins/cpp/branch_instrumentation.cpp:174-184 | A detour that passes the 32-bit test lands exactly on its stub. |
| Preservation.JumpBack | plugins/cpp/branch_instrumentation.cpp:163-169 | The jump at the end of a stub goes exactly to its destination. |
| Analysis.BranchIsReached | plugins/cpp/branch_instrumentation.cpp:276-323 | Every branch the analysis reports is an instruction of the function's linear sweep, with that kind and target. |
| StepPlanning.ReachedIsFound | plugins/cpp/branch_instrumentation.cpp:290-318 | Every branch that is an instruction of the sweep is reported. |
| Analysis.AnalyzeFunction | plugins/cpp/branch_instrumentation.cpp:290-318 | The sweep loop reports all branches up to the first byte that does not decode, as the next rows say of them. |
| SweptBranches.SweepIsReported | plugins/cpp/branch_instrumentation.cpp:60-91 | An instruction of the sweep is reported once, with the kind of its category and the address its displacement names from its end, or not at all when it is no branch. |
| SweptBranches.OnlySweptIsReported | plugins/cpp/branch_instrumentation.cpp:290-318 | Nothing else is reported, and a back edge is exactly a direct jump to an address of the function before its own. |
| SweptBranches.KnownJumpGoes | plugins/cpp/branch_instrumentation.cpp:60-91 | A swept jump with a documented encoding goes, on the processor, to the target reported when it is taken and to the next address reported when it is not. |
| SweptBranches.StepGoesWhereReported | plugins/cpp/branch_instrumentation.cpp:276-323 | For every instruction set that steers by its displacements: an executed step of a swept instruction goes to the reported target or next address as its kind says, and straight on when nothing is reported. |
| SweptBranches.KnownAloneSteers | plugins/cpp/branch_instrumentation.cpp:276-323 | The emitted instructions with their documented effects are such a set. |
| Blocks.DiscoverBlocks | plugins/cpp/branch_instrumentation.cpp:325-351 | The blocks lie end to end from the function's start to its end; a conditional, direct or indirect jump in a block is not followed by another instruction of it; and a block starts exactly at the function's start, at each direct target in the function and behind each such jump. |
| Blocks.JumpEndsBlock | plugins/cpp/branch_instrumentation.cpp:325-351 | When the function's direct targets lie on instruction boundaries, such a jump ends its block exactly. |
| Blocks.DetourIsSafe | plugins/cpp/branch_instrumentation.cpp:325-411 | When the function's direct targets lie on instruction boundaries, a detour takes 5 to 19 bytes inside its block, and no direct branch of the function goes to, and no call of it comes back to, its inside. |
| ModuleInstrumentation.FlatDisjoint | plugins/cpp/cpp_breakpoint_plugin.cpp:208-221 | The blocks of disjoint functions are pairwise disjoint. |
| ModuleInstrumentation.LeadersDisjoint | plugins/cpp/branch_instrumentation.cpp:434-442 | The bytes overwritten for different blocks never overlap. |
| ModuleInstrumentation.AddBranchInstrumentation | plugins/cpp/cpp_breakpoint_plugin.cpp:206-225 | For any list of functions, overlapping ones included, the loops instrument every block of every function and collect exactly the starts of the blocks that got a stub. |
| ModuleInstrumentation.ModuleIsReady | plugins/cpp/cpp_breakpoint_plugin.cpp:206-225 | After them, for disjoint functions apart from the stubs, everything the other results ask of a patched program holds of every function. |
| AllocNear.Search | plugins/cpp/branch_instrumentation.cpp:199-222 | A search in one direction gives the nearest aligned address that fits inside a free region within 2^30 bytes, and none only if there is none. |
| AllocNear.AllocateNear | plugins/cpp/branch_instrumentation.cpp:194-226 | The region asked for is aligned, free and near, and 0 is returned only if nothing is; only a request for address 0 is answered anywhere. |
| AllocNear.NullSlotHappens | plugins/cpp/branch_instrumentation.cpp:199-222 | An address space in which the search does ask for address 0. |
| AllocNear.DetoursReach | plugins/cpp/branch_instrumentation.cpp:174-184 | All detours into a near region of up to 2^30 bytes reach if and only if the image has at most 2^30 - 4 bytes. |
| Predecessors.DisplacedDecodes | plugins/cpp/predecessor_analysis.cpp:86-92 | A displaced instruction decodes at its true address to the same form and length as in the pristine function. |
| Predecessors.OthersDecode | plugins/cpp/predecessor_analysis.cpp:94-97 | Any other instruction of the sweep decodes in place as in the pristine function, or fails to as there. |
| Predecessors.PredecessorAnalysis.FallthroughPredecessor | plugins/cpp/predecessor_analysis.cpp:65-117 | On the patched process the loop returns what the pristine image has: the instruction that ends at the address and continues into it, or 0. |
| Predecessors.PredecessorAnalysis.InstructionPredecessors | plugins/cpp/predecessor_analysis.cpp:135-155 | The candidates are the direct branches to a counted leader and the instruction that falls through, with their true addresses and counters. |
| Predecessors.StepIsCandidate | plugins/cpp/predecessor_analysis.cpp:135-155 | For every step of a trace by falling through or by direct branch or call, the source is a candidate with exactly the counter the thread held there if and only if it falls through or the target is a counted leader. |
| StepsBack.FallthroughGoesOn | plugins/cpp/predecessor_analysis.cpp:65-117 | What is returned is the swept instruction that ends at the address and is reported neither as a direct or indirect jump, a return, nor a direct or indirect call, if there is one, and 0 otherwise. |
| StepsBack.ExecutedStepIsCandidate | plugins/cpp/predecessor_analysis.cpp:135-155 | For every executed step of a swept instruction that is not reported as an indirect jump, a return or an indirect call, and that stays in its function when it just goes on: its source is a candidate, by its true address and with the counter the thread held there, if and only if the target is a counted leader or the source goes on to it. |
| MissedBranches.JumpIsMissed | plugins/cpp/predecessor_analysis.cpp:135-155 | A function whose jump to a one-byte block is no candidate for that block. |
| Predecessors.CandidatesAreReal | plugins/cpp/predecessor_analysis.cpp:52-59 | Every candidate is the true address of an instruction that falls through or branches to the address. |
| Predecessors.BranchNotDisplaced | plugins/cpp/branch_instrumentation.cpp:402-408 | Branches are never displaced, so their original addresses are their true ones. |
| LineRanges.SortByStart | plugins/cpp/pdb.cpp:946-948 | The ranges are put in order of their starts, none lost or added. |
| LineRanges.Merge | plugins/cpp/pdb.cpp:950-957 | Merging keeps exactly the addresses and leaves a gap between any two ranges. |
| LineRanges.AddressInLineRanges | plugins/cpp/pdb.cpp:962-967 | The scan says whether some range holds the address. |
| StepPlanning.BreakpointsForStep | plugins/cpp/cpp_breakpoint_plugin.cpp:296-377 | Each address is planted once and at its true address. Into a line, every call in it is planted as a call stop, and over it none is; every indirect jump and return in it is planted as such, every target outside of its direct jumps and every end that can be walked to as a line stop, and nothing else is planted. |
| StepPlanning.SweptAreOneEach | plugins/cpp/branch_instrumentation.cpp:290-318 | No two reported branches share an address or a next address, which the row above asks of the branches. |
| StepPlanning.StepIsCaught | plugins/cpp/cpp_breakpoint_plugin.cpp:325-366 | When the line's ranges hold whole instructions: from any address of the line, every trace of the frame that leaves the line has come to a planted stop by then, and was inside the line until there. |
| StepPlanning.NoStopInside | plugins/cpp/cpp_breakpoint_plugin.cpp:325-366 | A stop is a line stop if and only if it lies outside the line. |
| StepPlanning.KindsStand | plugins/cpp/cpp_breakpoint_plugin.cpp:305-312 | Planting an address once never hides a stop of another kind. |
| Events.InsertOrdered | src/event_log.cpp:24-31 | Insertion adds just the event and keeps the order strict if and only if its sequence number is new. |
| Events.LogIsOrdered | src/event_log.cpp:44-70 | For every sequence of calls and returns the log is strictly increasing in the sequence number, whatever order the events finish in. |
| Nesting.EachReturnFinishesItsOwn | src/event_log.cpp:44-70 | Every logged event is finished by the return of its own call if and only if no call without an event comes back while an older call of its thread that has one is open; and then no finished call is missing. |
| Nesting.AllTrackedIsSafe | src/event_log.cpp:72-85 | When every function with a breakpoint has an event class that condition holds. |
| Nesting.UntrackedCallSteals | src/event_log.cpp:52-70 | A concrete trace in which an event is finished by another call's return. |
| Replaying.ReplayedIsPrefix | src/event_log.cpp:87-138 | Under any interleaving of replays, ends and resets, the replayed events of each function and thread are exactly its first ones, as many as its own counter says. |
| Replaying.ReplayTakesNext | src/event_log.cpp:87-96 | A replay takes the event whose rank is the number already replayed, and none only when they have run out. |
| ReplayNesting.EachEndEndsItsOwn | src/event_log.cpp:102-122 | However replays, ends and resets are interleaved, an end ends the event of the newest replayed call of its thread that has not ended, and none when all have. |
| Replaying.InsertKeepsPrefix | src/event_log.cpp:24-31 | A remark on the list, as no phase records after a replay: a new event would leave the replayed ones of its key a prefix if and only if none of them came after it. |
| RecordedReplays.AllAccounted | src/event_log.cpp:44-70 | Whatever is recorded, every event in the log or pending is that of one call, not replayed, and no call's event is lost. |
| RecordedReplays.RecordedIsReplayedInOrder | src/event_log.cpp:44-138 | For every recording and every interleaving of replays, ends and resets after it, the replayed events of each function and thread are exactly its first recorded ones, as many as its own counter says. |
| RecordedReplays.EntryTakesItsCall | src/event_log.cpp:52-110 | When as many events of a function and thread have been replayed as calls were recorded before a call, the next entry takes that call's own event if and only if neither it nor an earlier call of theirs was still pending when recording stopped. |
| RecordedReplays.OuterTakesInner | src/event_log.cpp:59-110 | A recursive function whose outer call is still pending when recording stops: its first entry takes the inner call's event. |
| Replaying.EventLog.ReplayEvent | src/event_log.cpp:87-110 | The search loop replays the first event of the key that has not been replayed. |
| Replaying.EventLog.ResetEventReplay | src/event_log.cpp:124-138 | The loop clears exactly the events after the sequence number. |
| Replaying.EventLog.OnBreakpointReturn | src/event_log.cpp:59-70 | The newest pending event of the thread is finished and inserted in its place. |

## Left out

- Tree nodes are indices into one sequence instead of owned pointers, and histories held inside containers are values; aliasing is not modelled.
- The order in which a map's keys are walked is arbitrary in the model.
- Sequence numbers and run numbers are unbounded; wrap-around of 32-bit counters is not modelled. Keys are unique but for the first node's, and appends have growing sequence numbers.
- Reads of a page history with no branch after them are covered only by the exact condition of the page history.
- The global sequence kept beside run and sequence in the nodes is never read by a lookup and is not part of the model.
- MemoryReads.EveryRunReturnsScans: is about scans that list each allocation from its own base, that region being live when another one is, as Rebuilds.ScanIsGood shows of the scan loop; MemoryReads.ReturnsAllIff gives the exact condition without this.
- Rebuilds.RescanIsSame: asks that the process is compatible with the scan: an image or mapping loaded or gone since then is neither freed nor rebuilt, and the rebuild reserves private memory only.
- TimeRestores.Session.Exit: that the bytes are back asks that the committed sizes of the scan seen at the target fit in 32 bits; keys that a thread or module gets twice within one sequence number are covered only when they are its first.
- Operating system calls are taken to succeed: a reservation maps what is not mapped in its span, a write puts its bytes in place.
- Restoring modules and thread contexts in the process, and the debug loop around it, are not modelled; the histories they read and write are.
- Preservation.PatchedProgramAgrees: asks that the displaced instructions do not depend on their address but by RIP-relative operands and, run from the state in which the thread enters, neither on the counter nor on data below RSP, and that the thread's slots and stack do not overlap; an instruction that saves RIP, such as a system call, is not covered.
- PatchedRuns.PatchedRunCounts: asks that the program takes the same way whatever the counter and the bytes named for each lap hold, does not set the counter, and between the displaced instructions executes no patched byte; a jump into the inside of a detour is not covered. PatchedRuns.LapsAreExact says what a program does that uses those bytes.
- SweptBranches.StepGoesWhereReported: asks of instructions other than the emitted ones that they go where their category and displacement say (`SweptBranches.Steers`); a fault or an exception taken at an instruction is not modelled.
- Code and data are separate memories: programs that write their own code are not covered.
- Only displacements relative to RIP are re-based, as in the code; addresses are below 2^64 and sums do not wrap.
- The capacity of the stub region is not checked by the code when stubs are added; the results ask that the staged code fits the address space apart from the functions.
- The loops recovered from back edges are not modelled; nothing else uses them.
- `get_original_bytes`, stack walking and the disassembler's own internals are not modelled.
- Predecessors.StepIsCandidate: is about instruction mode and direct steps; line and into mode, returns, indirect calls and jump tables are not modelled.
- Source availability flags of stops, the caller's buffer size, and the queries of the symbol files for line ranges and functions are left out; ranges and functions are inputs.
- Breakpoint bookkeeping, the reverse replay phase, the step command's event loop, the command line, plugins and formatting of output.
- Replay's effects on the process, trampolines and return breakpoints; only which event is replayed or ended is modelled.
