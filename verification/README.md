# A verified model of the operating system's four cores

The repository is a small distributed operating system. A console parses a program and sends it to a kernel; the kernel
schedules it on a CPU process; a memory process and a filesystem process serve it. This project models the parts in
which those processes share state and proves what they promise each other.

Run `dafny verify dfyconfig.toml` to check everything.

## What is modelled

**Memory** (`Bitmap`, `Holes`, `Segments`, `Memory`). A byte array, one bit per byte, and a segment table. A request scans
the bitmap for maximal free runs, elects one by FIRST, BEST or WORST fit, and if none is large enough but the total free
space would do, compacts and searches once more. The class keeps, over every run of create, delete, exit and
write requests, that a bit is set exactly when its address lies in some segment and that segments are in bounds and
disjoint. Its abstraction is the list of segments with owner, number and bytes, without addresses: compaction does not
change it. `Memory.Run` returns a history of that list in which every request is answered and acts as `Does` says, bytes
included, with no bitmap, policy or compaction in sight.

**Logical addresses** (`Translation`, `SystemRuns`, `Survival`, `RefreshAsWritten`). Every process holds copies of its rows
of the segment table, and the CPU translates with those copies. After a compaction the kernel refreshes the copies of the
PCBs it reaches; they then equal memory's entries again, and any logical address accepted before reads the same bytes.
`SystemRuns` states what each request does to table, bytes and copies when every PCB is reached. `Survival` runs whole
systems of live processes: however they create, delete, write, leave and make memory compact, a segment nobody takes away
holds its old bytes with its owner's writes on top, and a process reads the same bytes at every address of it. The copies
stay right until the first of two requests the kernel does not guard against, a deletion of number 0 and a creation under a
number in use, and the run is stated up to there.
`RefreshAsWritten` says which PCBs are reached when the kernel's threads are where the planner's state machine lets them
be, for the refresh as written and for the corrected one.

**Block filesystem** (`Geometry`, `Blocks`, `Ownership`, `FileSystem`, `StoreRuns`). Control blocks with a size, a direct
pointer and a pointer to a block of little-endian words inside the same flat block array. A ghost map from blocks to
(file, slot) makes "a bit is set exactly when its block is one slot of one file" a local property. Truncation, reads and
writes at any offset and the boot-time rebuild are methods over the arrays; they are proved against the bytes of each
file. `StoreRuns.Run` shows that any run of operations acts on a map from file names to byte sequences and a number of free
blocks, which alone decide what is refused, and that the bitmap stays the live one.

**Planner** (`Scheduler`, `SchedulerTokens`, `SchedulerPlaces`, `SchedulerWaits`, `SchedulerSteps`, `SchedulerRuns`,
`SchedulerSafety`, `SchedulerHistory`, `SchedulerFates`). The kernel's threads share queues and counting semaphores, so they are a state machine: each thread has
a program point and possibly a PCB in hand, every semaphore or list operation is one step, and steps of different threads
interleave freely. The invariants hold after every step of every thread for every answer the CPU may give, hence in every
reachable state: each live PCB is in exactly one list or hand, the multiprogramming degree is conserved, one PCB is at the
CPU, resources and file queues are conserved and FIFO, no thread ever pops an empty list, and the kernel comes to rest
only when every process is blocked on an exhausted resource or an open file. `SchedulerHistory` says what the tables are as
functions of the CPU's answers so far: the owner of a file is the first opener not yet served, the first askers get a
resource's instances, file operations wake in the order in which they were asked for, and admission is first come, first
served. `SchedulerFates` follows the process an answer was for: it ends if and only if an answer makes it end, keeps the CPU
without any dispatch, sleeps and goes back to ready, or is the last to wait.

**Readers/writer/compaction gate** (`Gate`). Any number of readers, writers and compactions stepping through `rwLock`,
`readersCount` and `resourceAccess`: exclusion, the meaning of the count, freedom from deadlock, and that whoever is done has
been inside exactly once.

**State lists and HRRN** (`StateLists`). The list object of a state, the fold of `mayor_hrrn`, what waiting and estimate the
chosen process has against every other, never-overtaken over whole runs of the ready list, and the range of the burst
estimate and how fast its initial value fades.

**Wire** (`Wire`, `Buffer`, `Parser`). The FIFO buffer, strings, instruction lists by opcode and by NULL, segment tables,
message framing, and the console's parser, whose output the kernel's EXIT-terminated decoder must consume exactly.

**The code as written** (`MemoryAsWritten`, `RefreshAsWritten`, `KernelAsWritten`, `FilesAsWritten`, `CopiesAsWritten`,
`CopiesInBlocks`, `TruncationAsWritten`, `FullPointerBlock`, and `Translation.MovInsideIff`, `Parser.ParserFaithfulIff`, `SchedulerSafety.OwnersKeptIff`). The
repository is unfinished in places. The modules above model what each routine is there to do; where the source departs from
that, the step as written is modelled as well and the exact condition is proved under which it still keeps the property.
Each such model departs from the intended one in the routine it is about and in nothing else. The departures that are
corrected without such a lemma are listed at the end, with the reason.

## Model

| member | source | states |
|---|---|---|
| `Bytes.WordRoundTrip` | filesystem/src/operaciones.c:44 | a block number stored as four little-endian bytes is read back, and every four bytes are the word they encode |
| `Bytes.LittleEndian` | filesystem/src/operaciones.c:44 | and the byte stored first is the low-order one |
| `Bitmap.Paint` | memoria/src/segmentacion.c:243-255 | the set and clear loops change exactly the half-open range of a segment |
| `Bitmap.CountFree` | memoria/src/segmentacion.c:184-197 | the loop returns the number of clear bits |
| `Bitmap.PaintTakes` | memoria/src/segmentacion.c:243-249 | occupying a free range takes exactly its length from the total free space |
| `Holes.NextHole` | memoria/src/segmentacion.c:215-235 | the cursor moves on past a maximal free run, skipping only occupied bits; it always advances |
| `Holes.ScanHoles` | memoria/src/segmentacion.c:201-212 | the scan ends and lists runs in increasing order that cover every clear bit |
| `Holes.RunsListed` | memoria/src/segmentacion.c:201-235 | the list holds every maximal free run and nothing else, the only empty run being one at the very end |
| `Holes.HolesSumToFree` | memoria/src/segmentacion.c:184-212 | the lengths of the listed runs add up to `tamanioTotalDispo` |
| `Holes.Fitting` | memoria/src/segmentacion.c:161-171 | keeps exactly the runs that are large enough, in order |
| `Holes.BestFit` | memoria/src/segmentacion.c:282-294 | the smallest candidate, the lowest address among equals |
| `Holes.WorstFit` | memoria/src/segmentacion.c:296-305 | the largest candidate, the lowest address among equals |
| `Holes.Elect` | memoria/src/segmentacion.c:268-280 | the policy prefers no other candidate |
| `Holes.PrefixHasOneRun` | memoria/src/compact.c:28-45 | when everything occupied is at the front, all free space is one run at the end |
| `Segments.FreeIsTheRest` | memoria/src/segmentacion.c:184-197 | in a consistent table the clear bits number exactly the memory less the sum of the limits |
| `Segments.GoodAfterAdd` | memoria/src/segmentacion.c:30-65 | adding a row inside a free run and marking it keeps bitmap and table in agreement and segments disjoint |
| `Segments.GoodAfterDrop` | memoria/src/segmentacion.c:348-356 | removing a row and clearing its range keeps them too |
| `Segments.RelocatedGood` | memoria/src/compact.c:13-62 | the packed table is consistent with the bitmap whose first bits are set |
| `Segments.ImageAfterWrite` | memoria/src/memoria_solicitudes.c:141-170 | bytes written inside one segment change that segment's contents there and no other segment |
| `MemoryModule.Memory.Search` | memoria/src/segmentacion.c:82-90 | finds a run exactly when one fits, and then the one the policy prefers |
| `MemoryModule.Memory.FindSegment` | memoria/src/segmentacion.c:82-130 | no compaction if a run fits; refusal with nothing changed if the request exceeds the total free space; otherwise exactly one compaction and the retry finds a run |
| `MemoryModule.Memory.StoreData` | memoria/src/segmentacion.c:133-157 | the bytes are copied to the elected run, whose bits are set, with no further compaction |
| `MemoryModule.Memory.StoreAll` | memoria/src/compact.c:28-41 | storing the copies in order in the emptied memory puts each at the sum of the limits before it; no inner compaction |
| `MemoryModule.Memory.Compact` | memoria/src/compact.c:13-62 | same owners, numbers, limits and bytes, rows packed in order, all free space at the end, no nested compaction |
| `MemoryModule.Memory.Create` | memoria/src/segmentacion.c:14-65 | succeeds exactly when the size is at most the total free space; the old segments keep their bytes; the new row is where the policy puts it |
| `MemoryModule.Memory.FindRow` | utils/src/utils/utils.c:469-476 | the first row of that process with that number |
| `MemoryModule.Memory.Delete` | memoria/src/memoria_solicitudes.c:52-68 | refuses segment 0 and unknown segments; otherwise exactly the process's segment goes and all other bytes stay |
| `MemoryModule.Memory.Exit` | memoria/src/memoria_solicitudes.c:69-85 | every segment of the process goes, and the others keep order and bytes |
| `MemoryModule.Memory.Write` | memoria/src/memoria_solicitudes.c:141-170 | a write at a physical address inside a segment splices that segment's bytes and no other segment's |
| `MemoryModule.Memory.WriteThenRead` | memoria/src/memoria_solicitudes.c:141-187 | bytes written inside a segment are the bytes read there, before they are packed for the reply, and the other segments keep theirs |
| `MemoryModule.Memory.Read` | memoria/src/memoria_solicitudes.c:172-187 | the bytes copied by a read at a physical address inside a segment are that part of the segment's bytes, wherever the segment is |
| `MemoryModule.Memory.RequestCreate` | memoria/src/memoria_solicitudes.c:15-51 | a creation appends a segment with the number, owner and size asked for exactly when the sizes leave room, and every other segment keeps its bytes |
| `MemoryModule.Memory.Request` | memoria/src/memoria_solicitudes.c:8-170 | one request has the answer and the effect on all segments, bytes included, that the segments alone determine |
| `MemoryModule.Memory.Run` | memoria/src/memoria_solicitudes.c:8-170 | any list of creations, deletions, exits and writes keeps the invariant and goes through a history of segments with their bytes, whatever the policy and however often memory compacts |
| `Translation.FindSegmentById` | cpu/src/cpu.c:311-321 | the last entry with the number, or none |
| `Translation.RowArrives` | kernel/src/planificador.c:977-994 | the first copy with a row's number has the row's base and limit after it was offered, and all else stays |
| `Translation.BroadcastRow` | kernel/src/planificador.c:977-994 | one row of memory's table overwrites base and limit of that process's copy in every PCB and nothing else |
| `Translation.Broadcast` | kernel/src/planificador.c:959-975 | all rows are offered to all PCBs |
| `Translation.BroadcastRestoresCopies` | kernel/src/planificador.c:959-994 | after compaction and the broadcast a process's copies equal memory's entries |
| `Translation.CompactAndBroadcast` | kernel/src/planificador.c:907-919 | the exchange between the two processes keeps every segment's bytes and makes the copies of every PCB that is reached right |
| `Translation.CopiesAfterCreate` | kernel/src/planificador.c:326-329 | the created row joins the creator's copies and nobody else's |
| `Translation.TranslationSurvives` | cpu/src/cpu.c:216-220 | a logical address is accepted after compaction exactly when it was before, and reads the same bytes |
| `Translation.MovInsideIff` | cpu/src/cpu.c:154-205 | all the bytes of a MOV that passes the check as written lie in the segment exactly when offset and register width fit its limit |
| `Translation.MovReachesNeighbour` | cpu/src/cpu.c:154-160 | a concrete MOV with an offset below the limit that is let through to the next segment |
| `Translation.MovIsChecked` | cpu/src/cpu.c:154-205 | a MOV that fits is accepted and moves the bytes a checked transfer of the register's width would |
| `Translation.MovSurvives` | cpu/src/cpu.c:154-205 | a MOV that fits before a compaction fits after it and moves the same bytes |
| `Translation.RegisterWidths` | cpu/src/cpu.c:426-438 | a MOV moves 4, 8 or 16 bytes, by the first letter of its register |
| `Translation.CopyOf` | cpu/src/cpu.c:311-321 | among a process's copies the last one with a number is the row memory keeps for it under that number, or the shared row for number 0 |
| `Translation.MovAcceptedIff` | cpu/src/cpu.c:156-189 | a MOV is accepted if and only if the process has a row under the number and the offset is at most the limit memory keeps for it, and then leads to the row's base plus the offset; any other is a segmentation fault |
| `Translation.MovFaultsAlike` | cpu/src/cpu.c:156-189 | so it is after a compaction, for the same addresses |
| `Translation.ReadIsView` | cpu/src/cpu.c:216-220 | a read through a process's copies depends on the segments alone, not on where memory has put them |
| `SystemRuns.CopiesAfterDelete` | kernel/src/planificador.c:270-277 | removing the number from the owner's copies matches removing the row from memory's table |
| `SystemRuns.CopiesAfterExit` | memoria/src/memoria_solicitudes.c:69-85 | a process's exit leaves everybody else's copies right |
| `SystemRuns.DistinctAfterCreate` | kernel/src/planificador.c:282-329 | a process and a number still name one row exactly when the process did not use the number yet |
| `SystemRuns.CreateSegment` | kernel/src/planificador.c:282-334 | creation, with the compaction and refresh it may cause, acts on the segments as the sizes determine and keeps every PCB's copies equal to memory's entries; numbers stay unambiguous exactly when the new one was unused |
| `SystemRuns.RemovalRightIff` | kernel/src/planificador.c:262-275 | removing the number from the process's copies, which the kernel does without an answer, leaves them equal to memory's entries if and only if the number is not 0 |
| `SystemRuns.DeleteZeroLosesShared` | kernel/src/planificador.c:262-275 | DELETE_SEGMENT 0: memory keeps the shared segment and the process loses its copy of it |
| `SystemRuns.DeleteSegment` | kernel/src/planificador.c:262-281 | memory deletes exactly a segment the process has, the number goes from the process's copies whatever memory does, and everybody's copies are right afterwards exactly when it was not 0 |
| `SystemRuns.ExitProcess` | kernel/src/planificador.c:940-957 | an exit removes exactly the process's rows and its PCB, and everybody else's copies and bytes stay |
| `SystemRuns.Translate` | cpu/src/cpu.c:216-220 | a checked address is accepted exactly when it lies in the row memory keeps for it, and leads there |
| `SystemRuns.ReadAt` | cpu/src/cpu.c:211-225 | what a process reads at a logical address is what the segments alone say |
| `SystemRuns.WriteAt` | cpu/src/cpu.c:226-240 | what it writes there changes that part of that segment and nothing else |
| `Survival.SegmentSurvives` | kernel/src/planificador.c:899-994 | over any run a segment nobody takes away holds its old bytes with the writes to it on top, whatever everybody else does and however often memory compacts |
| `Survival.ReadsTheSame` | cpu/src/cpu.c:216-220 | if nobody wrote to it either, its process reads the same bytes at every logical address of it |
| `Survival.Alive` | kernel/src/planificador.c:940-957 | a process is alive after any run unless it left |
| `Survival.Serve` | kernel/src/planificador.c:262-334 | one request of one process has on segments and live processes the effect that these alone determine, a full table included, and everybody's copies are right afterwards exactly when it was not one of the two that break them |
| `Survival.Run` | kernel/src/planificador.c:262-334 | any list of requests of any processes is served so up to the first that breaks the copies, and to the end if and only if none does |
| `Survival.FullTable` | kernel/src/planificador.c:282-289 | a process's table is full exactly when the segments say so |
| `Survival.LimitHolds` | kernel/src/planificador.c:282-289 | though the check is for equality, over any run no table within the limit grows beyond it |
| `Survival.ReadRunRead` | cpu/src/cpu.c:211-225 | a process reads, a run is served, the process reads again: the same bytes, unless it left, the segment was taken away or written to, or the copies were broken |
| `RefreshAsWritten.WalkedIff` | kernel/src/planificador.c:978-994 | the refresh as written leaves a PCB it walks over with the right copies exactly when its process owns no row |
| `RefreshAsWritten.StopsIff` | kernel/src/planificador.c:978-994 | and stops the kernel at a null pointer exactly when such a process owns two rows or more |
| `RefreshAsWritten.LeftIff` | kernel/src/planificador.c:959-994 | a PCB that is not refreshed has the right copies exactly when none of its process's rows moved |
| `RefreshAsWritten.ReachedIff` | kernel/src/planificador.c:968-970 | in every reachable state in which the execute thread handles an answer, the three lists and its hand hold every live PCB but those in new or leaving it, finished, or in the wake-up thread's hand |
| `RefreshAsWritten.AsWrittenRightIff` | kernel/src/planificador.c:959-994 | exactly which live PCBs the refresh as written leaves right, in any such state |
| `RefreshAsWritten.CorrectedRightIff` | kernel/src/planificador.c:959-994 | and which a refresh of the lists and the execute thread's hand does: all but those elsewhere with a row that moved |
| `RefreshAsWritten.WakersHandMissed` | kernel/src/planificador.c:644-658 | a reachable state and a table for which a PCB in the wake-up thread's hand is missed even then |
| `RefreshAsWritten.CompactAsScheduled` | kernel/src/planificador.c:907-919 | the exchange with a kernel in any such state keeps all bytes and makes right exactly the copies that can be |
| `RefreshAsWritten.WalkAsWritten` | kernel/src/planificador.c:959-994 | the loops as written leave every PCB with what `AllAsWritten` says, or stop at a null pointer for a PCB for which it says so |
| `Geometry.Locate` | filesystem/src/operaciones.c:75-77 | `/` and `%` give the block and the offset of a byte position |
| `Blocks.BitMeansOneOwner` | filesystem/src/filesystem.c:375-391 | a bit is set exactly when its block is a data or pointer block of some file, and then of one file and one slot only |
| `Blocks.MaxFileSize` | filesystem/src/operaciones.c:31-45 | no file exceeds block_size * (1 + block_size / 4) bytes |
| `Blocks.WriteChunk` | filesystem/src/operaciones.c:80-100 | bytes copied into one data block splice that file's contents there, move no pointer and touch no other file |
| `Ownership.GrownLayout` | filesystem/src/operaciones.c:31-45 | giving unowned blocks to new slots of one file keeps every slot of every file in a block of its own |
| `Ownership.ShrunkLayout` | filesystem/src/operaciones.c:17-25 | so does taking blocks away |
| `Ownership.SlotsGiveBits` | filesystem/src/filesystem.c:375-391 | two consistent states whose slots name the same blocks have the same bitmap |
| `FileSystemModule.FileSystem.constructor` | filesystem/src/filesystem.c:267-296 | an empty file system satisfies the invariant |
| `FileSystemModule.FileSystem.FindBlock` | filesystem/src/operaciones.c:136-145 | block 0 through the direct pointer, block n through entry n - 1 of the pointer block |
| `FileSystemModule.FileSystem.FindFree` | filesystem/src/operaciones.c:56-67 | the first free block |
| `FileSystemModule.FileSystem.AddBlock` | filesystem/src/operaciones.c:31-45 | one more data block, with the pointer block when the second appears; contents so far and all other files unchanged |
| `FileSystemModule.FileSystem.RemoveBlock` | filesystem/src/operaciones.c:20-25 | one data block less, with the pointer block when the second disappears |
| `FileSystemModule.FileSystem.Truncate` | filesystem/src/operaciones.c:5-54 | keeps the surviving prefix and all other files; used blocks change by the block difference plus the pointer block |
| `FileSystemModule.BackToStart` | filesystem/src/operaciones.c:14-48 | a file of its old size whose old slots are where they were, beside untouched files, means the old bitmap and the old contents |
| `FileSystemModule.FileSystem.GrowThenShrink` | filesystem/src/operaciones.c:14-48 | a file grows to a state in which ownership holds and its contents are kept, and shrinking it back restores the bitmap and the contents |
| `FileSystemModule.FileSystem.MarkFile` | filesystem/src/filesystem.c:375-391 | marks exactly the blocks the file owns |
| `FileSystemModule.FileSystem.Rebuild` | filesystem/src/filesystem.c:288-318 | marking from the stored control blocks gives exactly the bitmap that truncation maintains |
| `FileSystemModule.FileSystem.CreateFile` | filesystem/src/filesystem.c:356-373 | a new file is empty and no other file changes |
| `FileSystemModule.FileSystem.WriteFile` | filesystem/src/operaciones.c:69-102 | the head, whole-block and tail copies change exactly bytes [p, p + n) of the file and no byte of any other |
| `FileSystemModule.FileSystem.ReadFile` | filesystem/src/operaciones.c:104-134 | returns bytes [p, p + n) of the file |
| `StoreRuns.LiveIgnoresBits` | filesystem/src/filesystem.c:375-391 | the live bitmap depends on control blocks and pointer blocks alone |
| `StoreRuns.Boot` | filesystem/src/filesystem.c:267-318 | a boot makes the bitmap the live one, whatever it was, and touches no file |
| `StoreRuns.Serve` | filesystem/src/filesystem.c:85-182 | a creation, truncation or write takes place exactly when the files' names and sizes and the number of free blocks allow it, and then acts on the map from names to bytes and on the free blocks alone |
| `StoreRuns.Run` | filesystem/src/filesystem.c:85-182 | after a boot any run of operations goes through such a history, keeps block ownership and ends with the live bitmap |
| `StoreRuns.WriteThenRead` | filesystem/src/operaciones.c:69-134 | what is written to a file is read back, whatever is created, truncated and written in other files in between |
| `SchedulerTokens.AdmitTokens` | kernel/src/planificador.c:586-598 | the long-term planner keeps every semaphore equal to what it counts |
| `SchedulerTokens.DispatchTokens` | kernel/src/planificador.c:608-622 | so does the short-term planner |
| `SchedulerTokens.FinishTokens` | kernel/src/planificador.c:556-575 | so does the thread that destroys finished processes |
| `SchedulerTokens.WakeTokens` | kernel/src/planificador.c:640-664 | so does the filesystem wake-up thread |
| `SchedulerTokens.AnswerTokens` | kernel/src/planificador.c:147-502 | so does every case of the execute thread's switch |
| `SchedulerPlaces.DispatchPlaces` | kernel/src/planificador.c:608-622 | dispatching moves one PCB from ready to the CPU and no other |
| `SchedulerPlaces.AnswerPlaces` | kernel/src/planificador.c:147-502 | no case of the switch loses or duplicates a PCB |
| `SchedulerPlaces.ExecutePlaces` | kernel/src/planificador.c:118-505 | nor does any other step of the execute thread |
| `SchedulerPlaces.WakePlaces` | kernel/src/planificador.c:626-664 | nor does the wake-up thread |
| `SchedulerWaits.QueueUp` | kernel/src/planificador.c:199-210 | a WAIT without instance keeps the resource's waiters equal to the PCBs blocked on it |
| `SchedulerWaits.HandsOver` | kernel/src/planificador.c:239-256 | SIGNAL's wake-up finds the first waiter blocked and hands it the instance |
| `SchedulerWaits.QueuesForFile` | kernel/src/planificador.c:352-361 | OPEN of an open file adds the PCB to exactly that file's waiters |
| `SchedulerWaits.HandsFile` | kernel/src/planificador.c:403-414 | CLOSE wakes the first waiter, who is blocked on that file |
| `SchedulerWaits.ClosesLast` | kernel/src/planificador.c:398-402 | the entry goes when nobody waits, and nobody is left blocked on it |
| `SchedulerWaits.WaitsForFs` | kernel/src/planificador.c:432-450 | the PCB whose request was sent first and blocked afterwards joins those blocked on the file system |
| `SchedulerWaits.FsWakes` | kernel/src/planificador.c:644-658 | the process of the oldest reply is blocked by the time its token is taken, so the wake-up never misses |
| `SchedulerSteps.AnswerWaits` | kernel/src/planificador.c:147-502 | every case of the switch keeps all waiting lists in agreement with the blocked list |
| `SchedulerRuns.StepKeeps` | kernel/src/planificador.c:118-664 | any step of any thread keeps the whole invariant |
| `SchedulerSafety.InitInv` | kernel/src/planificador.c:693-751 | the initial state satisfies it |
| `SchedulerSafety.RunKeeps` | kernel/src/planificador.c:118-664 | every run keeps it, and degree and configured instances are constants |
| `SchedulerSafety.ExactlyOnePlace` | kernel/src/planificador.c:118-664 | in every reachable state each live PCB is in exactly one list or hand, and any other PCB in none |
| `SchedulerSafety.Bounds` | kernel/src/planificador.c:709-713 | admitted PCBs plus free slots equal the configured degree, and at most one PCB is at the CPU |
| `SchedulerSafety.ResourcesSafe` | kernel/src/planificador.c:176-258 | outstanding grants never exceed the configured instances; a waiter exists only when none is free; waiters are the PCBs blocked on the resource; wake-ups follow arrivals |
| `SchedulerSafety.FilesSafe` | kernel/src/planificador.c:337-419 | an open file's waiters are exactly the PCBs blocked on it and get it in arrival order |
| `SchedulerSafety.CloseHandsOn` | kernel/src/planificador.c:387-419 | CLOSE by the owner removes the entry exactly when nobody waits; otherwise the first waiter, unblocked, is the one process with the file in its table |
| `SchedulerSafety.OwnersKeptIff` | kernel/src/planificador.c:387-419 | a step keeps "each open file is in exactly its owner's table" if and only if it does not close another process's file |
| `SchedulerSafety.OneOwner` | kernel/src/planificador.c:337-419 | while processes close only their own files, every open file has exactly one owner in every reachable state |
| `SchedulerSafety.NoEmptyPop` | kernel/src/planificador.c:118-664 | a thread that cannot step waits on a semaphore at zero, a message, or a file nobody has open; no list is popped empty |
| `SchedulerSafety.RestMeans` | kernel/src/planificador.c:118-664 | when nothing can move, ready, execute and exit are empty and every live process is blocked on an exhausted resource or an open file, or waits in new because such processes use up the degree |
| `SchedulerHistory.RunLine` | kernel/src/planificador.c:350-402 | from any state on: who has a file and who waits for it are those before, then the openers of the run in order, less one from the front for each CLOSE |
| `SchedulerHistory.FirstUnserved` | kernel/src/planificador.c:350-402 | in every reachable state a file is open exactly while fewer CLOSEs than OPENs have been answered; its owner is the first opener not yet served and the later ones wait in order |
| `SchedulerHistory.OpenUntilClosed` | kernel/src/planificador.c:383-402 | an open file stays open until a CLOSE finds nobody waiting; without a CLOSE its owner stays and openers queue up |
| `SchedulerHistory.RunServes` | kernel/src/planificador.c:176-258 | from any state on: instances go to the waiters and then to the askers of the run in order, the free ones and one for each SIGNAL |
| `SchedulerHistory.FirstServed` | kernel/src/planificador.c:176-258 | in every reachable state the first askers, as many as configured instances and SIGNALs, have been served, the others wait in order, and what nobody asked for is free |
| `SchedulerHistory.FirstWoken` | kernel/src/planificador.c:432-502 | the process taken out of blocked next is the first whose file operation was answered and who has not been taken out yet |
| `SchedulerHistory.AdmittedInOrder` | kernel/src/planificador.c:586-598 | admission is first come, first served |
| `SchedulerFates.GoneIffEnded` | kernel/src/planificador.c:160-165 | in every reachable state a process is in exit, in the finishing thread's hand or destroyed if and only if EXIT, or a WAIT or SIGNAL of an unknown resource, was answered for it |
| `SchedulerFates.DestroyedFreesSlot` | kernel/src/planificador.c:556-575 | only the finishing thread destroys a process, and its slot of the degree is then free or about to be posted |
| `SchedulerFates.RunsOn` | kernel/src/planificador.c:211-257 | after a segment was created or deleted, F_SEEK, a granted WAIT, SIGNAL, a first OPEN or CLOSE, whatever the other threads do, nothing is dispatched, the execute thread never waits, and a fixed number of its steps later the same process is at the CPU |
| `SchedulerFates.Sleeps` | kernel/src/planificador.c:168-172 | after I/O the process is blocked, and the execute thread waits, exactly until the sleep is over; then it is in ready before the CPU is given away |
| `SchedulerFates.Yields` | kernel/src/planificador.c:147-157 | after YIELD it is in ready, and not before is the CPU given away |
| `SchedulerFates.Opens` | kernel/src/planificador.c:350-383 | the first to ask for a file has it, in its own table too, and keeps the CPU; anybody else is blocked on it, the last to wait |
| `SchedulerFates.WaitsFor` | kernel/src/planificador.c:199-210 | a WAIT without instance leaves the process blocked on the resource, the last to wait |
| `Gate.Exclusive` | kernel/src/planificador.c:459-490 | a writer or a compaction is never inside together with anybody else |
| `Gate.InsideOnce` | kernel/src/planificador.c:459-490 | whoever is done has been inside exactly once, a reader reading, a writer writing, a compaction compacting, and nobody twice or before its turn |
| `Gate.InsideHoldsAccess` | kernel/src/planificador.c:488-490 | while anybody is inside `resourceAccess` is taken |
| `Gate.CountIsReaders` | kernel/src/planificador.c:459-473 | `readersCount` is the number of readers that entered and have not left |
| `Gate.NeverStuck` | kernel/src/planificador.c:459-490 | while anybody is unfinished somebody can move |
| `Gate.RunKeeps` | kernel/src/planificador.c:907-917 | every run of any number of readers, writers and compactions keeps the gate's invariant |
| `StateLists.StateList.PopFirst` | kernel/src/estado.c:18-23 | takes the first process, or none |
| `StateLists.StateList.RemovePid` | kernel/src/estado.c:25-35 | takes out the first process with that pid |
| `StateLists.FirstMatchRemoved` | kernel/src/estado.c:25-35 | removal takes out the first process with the pid, or nothing, and keeps the order |
| `StateLists.RemovedExactly` | kernel/src/estado.c:25-35 | with distinct pids that is the process itself, and the order of the others stays |
| `StateLists.StateList.NextHrrn` | kernel/src/planificador.c:100-111 | the chosen process leaves the list and everybody else keeps their order |
| `StateLists.FoldIsNext` | kernel/src/planificador.c:83-98 | folding `mayor_hrrn` yields a process that nobody precedes and that is the first such in the list |
| `StateLists.OnlyOneNext` | kernel/src/planificador.c:83-98 | there is only one such process |
| `StateLists.RatioBounds` | kernel/src/planificador.c:76-81 | the ratio is the whole part of one plus waiting over estimate |
| `StateLists.UnitLargerPrecedes` | kernel/src/planificador.c:83-98 | of two processes the one whose waiting over estimate is larger by one goes first, whoever arrived earlier |
| `StateLists.ChosenWaitsEnough` | kernel/src/planificador.c:83-111 | so nobody in ready has a waiting over estimate larger than the chosen one's by one or more |
| `StateLists.ShortGoesFirst` | kernel/src/planificador.c:76-98 | a short process that is chosen though a long one arrived before it |
| `StateLists.EarlierPrecedes` | kernel/src/planificador.c:76-98 | an earlier arrival with no larger estimate has the higher ratio or the longer wait |
| `StateLists.NeverOvertaken` | kernel/src/planificador.c:100-111 | over any run of the ready list no such later arrival reaches the CPU first |
| `StateLists.EstimatesStayInRange` | kernel/src/planificador.c:68-74 | for alpha in [0, 1] every estimate lies between the smallest and largest of the initial estimate and the bursts |
| `StateLists.InitialFades` | kernel/src/planificador.c:68-74 | after n bursts the initial estimate counts for (1 - alpha) to the n |
| `Wire.StringTaken` | utils/src/utils/buffer.c:45-60 | a packed string is unpacked whole and the bytes behind it stay |
| `Wire.EncodersAgreeIff` | utils/src/utils/utils.c:790-893 | the NULL-driven and the opcode-driven encoder agree exactly when the non-NULL parameters are those the opcode asks for |
| `Wire.InstrTaken` | utils/src/utils/utils.c:811-855 | one instruction comes back with its meaning whatever the parameter variables held before |
| `Wire.ListRoundTrip` | utils/src/utils/utils.c:811-893 | so does any list of instructions, and the bytes behind it stay |
| `Wire.ProgramRoundTrip` | utils/src/utils/utils.c:538-673 | the EXIT-terminated decoder reads a packed program exactly and stops behind its EXIT |
| `Wire.SwitchCounts` | utils/src/utils/utils.c:558-658 | the decoder's switch reads as many operands as `cuantosParametros` counts, opcode by opcode |
| `Wire.RowTaken` | utils/src/utils/utils.c:897-936 | a segment row survives, negative fields included |
| `Wire.TableRoundTrip` | utils/src/utils/utils.c:905-947 | so does any segment table |
| `Wire.StreamRoundTrip` | utils/src/utils/utils.c:374-422 | messages sent one after another, empty ones included, are received one after another |
| `BufferModule.Buffer.Unpack` | utils/src/utils/buffer.c:33-43 | unpacking takes from the front; None where the code exits or would read past the end |
| `BufferModule.Buffer.PackString` | utils/src/utils/buffer.c:45-51 | appends length, characters and NUL |
| `BufferModule.Buffer.UnpackString` | utils/src/utils/buffer.c:53-60 | decodes what `TakeString` specifies |
| `BufferModule.Buffer.PackInstruction` | utils/src/utils/utils.c:790-809 | the branches on NULL append the NULL-driven encoding |
| `BufferModule.Buffer.PackInstructions` | utils/src/utils/utils.c:872-893 | the loop appends the opcode-driven encoding of the list |
| `BufferModule.Buffer.UnpackInstructions` | utils/src/utils/utils.c:811-855 | the loop decodes what `TakeList` specifies, parameter variables carried over included |
| `BufferModule.Buffer.UnpackProgram` | utils/src/utils/utils.c:538-673 | the loop decodes what `TakeProgram` specifies and ends |
| `BufferModule.Buffer.PackTable` | utils/src/utils/utils.c:905-922 | the loop appends the table |
| `BufferModule.Buffer.UnpackTable` | utils/src/utils/utils.c:938-947 | the loop decodes the table |
| `BufferModule.SendInstructions` | utils/src/utils/utils.c:811-893 | what one side packs the other side unpacks, leaving nothing |
| `Parser.ParsePseudocode` | consola/src/parsear.c:27-183 | the token loop packs exactly the records of `Records`, and ends only at EXIT |
| `Parser.KeywordOf` | consola/src/parsear.c:32-174 | each instruction's name is the keyword of its own opcode |
| `Parser.RecordsSayProgram` | consola/src/parsear.c:34-181 | the records say, opcode by opcode, what the source text says |
| `Parser.ExactIffSeekSafe` | consola/src/parsear.c:92-99 | every record is exact if and only if no F_SEEK line inherits a third operand |
| `Parser.ParserFaithfulIff` | consola/src/parsear.c:27-183 | the bytes packed are the bytes of the program read if and only if no F_SEEK inherits a third operand |
| `Parser.ParserRoundTrip` | consola/src/parsear.c:27-183 | then the kernel's decoder returns that program and consumes exactly what was packed |
| `Parser.StaleSeekBreaksDecoder` | consola/src/parsear.c:92-99 | F_READ directly before F_SEEK: the decoder runs off the end of the message |
| `MemoryAsWritten.PaintThrough` | memoria/src/segmentacion.c:243-255 | the loops as written change one bit more, where there is one |
| `MemoryAsWritten.OccupyThroughIff` | memoria/src/segmentacion.c:243-249 | occupying as written keeps the invariant exactly when the segment ends the memory or the next byte is in use |
| `MemoryAsWritten.ReleaseThroughIff` | memoria/src/segmentacion.c:251-255 | releasing as written keeps it exactly when the segment ends the memory or the next byte is free |
| `MemoryAsWritten.AdjacentReleaseBreaks` | memoria/src/segmentacion.c:251-255 | two adjacent segments for which it does not |
| `MemoryAsWritten.FindByIdIff` | memoria/src/segmentacion.c:348-356 | looking up by number alone finds the process's segment exactly when the first segment with that number is the process's |
| `MemoryAsWritten.ReplyWholeIff` | memoria/src/memoria_solicitudes.c:188-194 | a reply packed as a string is whole exactly when no byte read is zero |
| `MemoryAsWritten.ReadAsWritten` | memoria/src/memoria_solicitudes.c:172-203 | so the reply to a read inside a segment is the segment's bytes there if and only if none of them is zero |
| `MemoryAsWritten.SecondRemovalIff` | memoria/src/memoria_solicitudes.c:62-66 | the second removal keeps the invariant exactly when the row it takes is empty |
| `MemoryAsWritten.ExitGetsThrough` | memoria/src/memoria_solicitudes.c:76-78 | EXIT as written gets through its turns exactly when each of the numbers it deletes is some segment's |
| `MemoryAsWritten.ExitNeverRight` | memoria/src/memoria_solicitudes.c:76-78 | and never leaves exactly the other processes' segments, because it deletes the shared one |
| `MemoryAsWritten.ReturnsIff` | memoria/src/segmentacion.c:90-118 | the search as written returns exactly when the request is at most the total free space |
| `KernelAsWritten.WaitBoundIff` | kernel/src/planificador.c:884-892 | WAIT as written stays within the configured instances exactly when an instance is left |
| `KernelAsWritten.WaitGrantsTooMuch` | kernel/src/planificador.c:884-892 | a resource with no instances for which it does not |
| `KernelAsWritten.SignalConservesIff` | kernel/src/planificador.c:236 | SIGNAL as written conserves instances exactly when none was left |
| `KernelAsWritten.SignalRightIff` | kernel/src/planificador.c:236-256 | it never wakes anybody, and leaves the resource as it should be exactly when no instance was left and nobody waited |
| `KernelAsWritten.ExtraPostPopsEmpty` | kernel/src/planificador.c:182-190 | the extra post of execute's semaphore always breaks the count, and the thread's next turn finds the list empty |
| `KernelAsWritten.CreatePostsTwice` | kernel/src/planificador.c:311-331 | the two posts of a segment creation always break the count, and after the process yields the thread finds the list empty |
| `KernelAsWritten.BlockIntoExecuteBreaks` | kernel/src/planificador.c:200-201 | the exchanged push arguments always leave an uncounted PCB in execute |
| `KernelAsWritten.SignalDuplicates` | kernel/src/planificador.c:238-257 | SIGNAL's second push always duplicates its PCB |
| `KernelAsWritten.CloseToCloserIff` | kernel/src/planificador.c:403-407 | the hand-over as written keeps one owner per file exactly when the closer wakes itself |
| `KernelAsWritten.TieBreakIff` | kernel/src/planificador.c:83-98 | the comparison as written agrees with first come, first served exactly when there is no tie to break |
| `KernelAsWritten.NextAsWritten` | kernel/src/planificador.c:100-111 | the choice as written leaves the list exactly when it is alone in it |
| `KernelAsWritten.EstimateIff` | kernel/src/planificador.c:68-77 | cutting alpha to an integer changes nothing exactly when alpha is whole or the estimate was right |
| `KernelAsWritten.RenewedIff` | kernel/src/planificador.c:68-77 | renewing the estimate at a comparison leaves it alone exactly when alpha is less than one or the estimate was right |
| `FilesAsWritten.FreeSearchIff` | filesystem/src/operaciones.c:56-67 | the search as written finds the first free block exactly when that is block 0 |
| `FilesAsWritten.FreeSearchStarted` | filesystem/src/operaciones.c:59-65 | started with `estado` at one, the same loop finds the first free block of any bitmap that has one |
| `FilesAsWritten.RebuildAsWritten` | filesystem/src/filesystem.c:297-318 | the loops as written mark exactly the blocks of the files listed before the first directory and the unused indirect pointers of those with one block |
| `FilesAsWritten.BootAsWritten` | filesystem/src/filesystem.c:297-318 | the bitmap is then the live one if and only if every live block is one of these and every such pointer names a block in use |
| `FilesAsWritten.AllReadIff` | filesystem/src/filesystem.c:375-391 | when every file is read, that is: the unused indirect pointer of every file of one block names a block in use |
| `FilesAsWritten.StrayZero` | filesystem/src/filesystem.c:375-391 | a file of one block for which it does not |
| `CopiesAsWritten.WriteAsWritten` | filesystem/src/operaciones.c:69-102 | the first copy, the loop of four-byte copies and the last copy as written, byte by byte, in a file whose blocks follow one another |
| `CopiesAsWritten.WritesRightIff` | filesystem/src/operaciones.c:75-101 | there the write as written changes exactly the bytes asked for, whatever the file and the data, if and only if the range ends its first block and is no longer than its offset, or it is longer than its offset, that is half a block, and blocks have four bytes or the range ends before the next block does |
| `CopiesInBlocks.WriteInBlocks` | filesystem/src/operaciones.c:75-101 | on all these ranges it does so wherever the blocks are, and no other file changes |
| `CopiesAsWritten.ReadAsWritten` | filesystem/src/operaciones.c:104-134 | the same copies of a read, none of which advances in the buffer |
| `CopiesAsWritten.ReadsRightIff` | filesystem/src/operaciones.c:104-134 | the read as written returns the bytes asked for, whatever the file, if and only if the range ends its first block and is no longer than its offset |
| `CopiesInBlocks.ReadInBlocks` | filesystem/src/operaciones.c:104-115 | and on these ranges it does so wherever the blocks are |
| `TruncationAsWritten.GrowsRightIff` | filesystem/src/operaciones.c:29-49 | growing as written keeps every used block in exactly one slot of one file if and only if the file goes from no block to one, or has its pointer block already and the word the loop skips names the last block taken |
| `TruncationAsWritten.LastTaken` | filesystem/src/operaciones.c:56-67 | the last of the first free blocks is the free block with that many less one before it |
| `TruncationAsWritten.GrowAsWritten` | filesystem/src/operaciones.c:29-52 | the loop as written, which looks at the number of blocks from before it, takes the first free blocks, and ownership survives if and only if a test on the state before the call says so: no block and one wanted, or the word skipped names the last free block that will be taken |
| `FullPointerBlock.FillsRightIff` | filesystem/src/operaciones.c:43-44 | growing to a full pointer block writes the last word behind it, and ownership survives if and only if the word skipped names the last block taken and no other file's pointer block loses its first entry, or the two exchange |
| `FullPointerBlock.FillAsWritten` | filesystem/src/operaciones.c:29-52 | the loop to a full pointer block, and that test on the state before the call |
| `TruncationAsWritten.ShrinksRightIff` | filesystem/src/operaciones.c:17-27 | shrinking as written does so if and only if among the blocks in use the words it reads, which may lie behind the pointer block, name exactly those the file gives up |
| `TruncationAsWritten.WordsTwoBehind` | filesystem/src/operaciones.c:20-23 | a word it reads in the pointer block is the pointer of the block two behind the one to be given up |
| `TruncationAsWritten.PointerBlockKept` | filesystem/src/operaciones.c:17-27 | so it never does when the file loses its pointer block |
| `TruncationAsWritten.ShrinkAsWritten` | filesystem/src/operaciones.c:17-52 | the loop as written and that condition for its result |

## Left out

Not modelled:

- Sockets, handshakes, configuration files, logging and memory mapping: messages are arguments and results of steps, files are state, and a directory listing is an argument.
- Delays, real time and `malloc`/`free`; waiting times are numbers passed in, and clocks start when a process is pushed to ready.
- The CPU's fetch loop and the register-name dispatch chains: every branch is simple, so only translation and the limit check are modelled.
- The tagged packet list of the `utils` library and the unused serialisers of the console: no property beyond those of the buffer.
- Integer widths of sizes, bases and limits: they are natural numbers; a negative size in a request is not modelled. Words on the wire and in pointer blocks are 32 bits.
- The burst estimate is a real number of at least one, because the code divides by its integer part; rounding is not modelled.
- The parser's fixed-size token buffers: tokens longer than they are not modelled, and a file whose tokens run out before EXIT, on which the loop never ends, has no result.
- Which memory an unknown or absent entry reads: `encontrar_segmento` without a match is a segmentation fault here, and a CLOSE of a file nobody opened stops the execute thread.
- Files of a process that exits stay open in its name, as in the code; nothing frees them.

Modelled on values rather than in place:

- Scheduler: the kernel's threads interleave, so their shared queues, semaphores and tables are fields of one value and each semaphore or list operation is a step; critical sections of WAIT, SIGNAL, OPEN and CLOSE up to the next semaphore operation are one step each. The model has one sleeping thread at a time, because the execute thread waits for it.
- Gate: the same, with one value for the two semaphores, the count and every participant's program point.
- StateLists.Pcb: a PCB in a state list is its pid, arrival and estimate; the estimate does not change while the process is ready.

Preconditions that the code does not check and its callers are trusted with:

- FileSystemModule.FileSystem.Truncate: takes sizes of whole blocks within one pointer block, and enough free blocks; the code has no branch for a full disk.
- FileSystemModule.FileSystem.WriteFile: the range lies inside the file, which the code does not check.
- FileSystemModule.FileSystem.ReadFile: the range lies inside the file, which the code does not check.
- Survival.Run: what happens after the first request that breaks the copies, and a refresh that does not reach every PCB (`RefreshAsWritten` says when it does). A process stopped at a full table leaves by a request of its own.
- RefreshAsWritten.AsWrittenRightIff: the lists are walked in one state of the kernel; a PCB that changes lists while they are walked is not modelled, nor is what `list_replace_by_condition` puts where, since the list is emptied next.
- TruncationAsWritten.GrowAsWritten: free blocks are found as intended.
- FullPointerBlock.FillAsWritten: the same, and the pointer block is not the last block; the last word would go behind the mapped file.
- TruncationAsWritten.ShrinkAsWritten: the words read lie inside the block file.
- CopiesAsWritten.WriteAsWritten: blocks have at least four bytes, and file and data are long enough for every copy, so that no copy leaves them.

Corrected without a lemma of their own, because C gives the code as written no meaning there:

- `elegirSegunCriterio` returns no value, which its caller uses, and passes a call's result as a comparator (memoria/src/segmentacion.c:268-305).
- Compaction reads rows it has already freed (memoria/src/compact.c:34-59); here rows are rewritten in place, keyed by process and number.
- DELETE_SEGMENT packs the number as if it were an address, and the condition of its removal takes a structure where the list passes a pointer (kernel/src/planificador.c:266, 271-275); here the number is sent and compared. That no answer is awaited, and number 0 not guarded against, is kept.
- A deletion of a number no segment has reads through a null pointer in memory (memoria/src/segmentacion.c:349-350); here it is refused.
- `f_read` ends its reply with the low byte of an address instead of a zero byte (memoria/src/memoria_solicitudes.c:248); only `m_read`'s reply is modelled.
- `consultar_memoria_create` is called without its PCB and writes through that argument (kernel/src/planificador.c:311, 899-925).
- The lookup of a block copies the low bytes of the address of the pointer entry, which depend on where the file is mapped (filesystem/src/operaciones.c:140-141); the copies and the truncation as written are modelled over the blocks it should find.
- SIGNAL tests WAIT's local variable, whose initialisation the switch jumps over (kernel/src/planificador.c:179, 223); what it does in the wake-up that never comes, it does with a pointer in place of a resource number (kernel/src/planificador.c:244).
- `estadoEnExit` locks a default mutex it already holds (kernel/src/estado.c:80-83).

Corrected because the intended step is stated next to it:

- `idSegPcb` counts the whole table, because `tablaConPid` maps where it should filter (memoria/src/segmentacion.c:49-79); the model keeps the count as written.
- After a compaction the kernel asks itself for memory's answer with the old header again and waits for a message memory does not send (kernel/src/planificador.c:918); here memory's second answer is taken.
- Out of memory is answered with its header after a compaction that cannot help; here it is answered before, from the total free space, as `puedoGuardar` computes it (memoria/src/segmentacion.c:173-180).
