# Verified models of the xv6 kernels, the disk image tool, parallel Life and the thread pool

Dafny models of the parts of the repository that carry real invariants, and proofs about them.  `dafny verify
dfyconfig.toml` checks everything.  Functions of the original that change things step by step are methods over
arrays and objects here, proved against specification functions; concurrent protocols are step systems whose runs
cover every interleaving.

## What is modelled

* **Log** (`LogSpec`, `LogRefinement`, `LogReservation`, `LogDriver`): the redo log of xv6 with group commit, space
  reservation and recovery.  One step is one critical section, the size test that `log_write` makes without the lock,
  or one block write; a crash may come between any two steps, also during recovery.  A run is any sequence of enabled
  steps.  `LogDriver.Log` is the code.
* **Disk image tool** (`DiskBytes`, `DiskTree`, `DiskPlace`, `DiskFiles`, `DiskTool`, `DiskCommands`, `DiskExtract`,
  `DiskSession`, `DiskRaw`): an image is an array of bytes changed in place.  A file is a forest of trees behind 17
  pointers.  The placing functions build such forests, the walkers visit them, and extraction returns their bytes;
  `DiskRaw` reads the same files straight from the bytes of the image.
* **Life** (`LifeRules`, `LifeParallel`, `LifeProof`): every read of one cell, every write of one cell and every
  arrival at the barrier is a step of some thread.
* **Allocator** (`Umalloc`, `UmallocFree`, `UmallocMalloc`, `UmallocCode`): memory is a map from addresses to headers;
  the free list is what following the pointers from `base` gives.
* **Files** (`FsSpec`, `FsSpace`, `FsWrite`, `FsTrunc`, `FsLayout`, `FsCode`, `FsFile`, `FsCrash`): bitmap, inodes,
  direct and indirect blocks, seen by users as byte sequences; what their bytes on disk are; and one write through the
  log, with crashes.
* **Buffer cache** (`BioList`, `BioCache`, `BioCommit`): the linked list as its pointers, the buffers and the memory
  disk, and `write_log` over them.
* **Virtual memory** (`VmSpec`, `VmCode`, `VmSpace`, `VmGrow`, `VmPaging`, `VmRun`): page tables in page frames, the
  free list, growing, copying and freeing address spaces, and demand paging against flat memory.
* **Lottery** (`LotteryRandom`, `LotteryPeriod`, `LotteryDraw`): the generator in 32-bit arithmetic, its full period,
  rejection sampling and the draw.
* **Thread pool** (`Pool`, `PoolProof`) and **exit/wait** (`ProcSpec`, `ProcProof`, `ProcCode`): step systems, and for
  the process table also the scans as code.
* **grep and sh** (`Grep`, `ShSpec`, `ShProof`, `ShCode`): the matcher against the language of the pattern, the parser
  against its grammar and a printer.

`Collections`, `Octets` and `Blocks` hold what several components use.

## What the proofs found

* `log_write` tests the size before it looks for the block in the list, so logging an already listed block panics when
  the list is full, although nothing would be added.  A log of exactly LOGSIZE blocks has LOGSIZE - 1 slots: then three
  full operations within their budgets reach the panic.  With a larger log a new block within budget never panics.
* `log_write` makes that test before it takes the lock (xv6_new_7/log.c:218-223).  With a log of at most LOGSIZE blocks,
  as mkfs makes it, two writers can pass it together and list one block more than there are slots; `write_log` then
  overwrites the block behind the log, and after a crash a block that nobody wrote is lost.  The log is safe in every run
  if and only if log.size exceeds LOGSIZE (or is 1, when every `log_write` panics).  With a smaller log a run is good
  exactly when each of its records finds a slot, so operations that run one at a time are safe.
* `bget` panics exactly when all NBUF buffers are referenced or dirty.  NBUF equals LOGSIZE, and `write_log` needs one
  buffer more than the pinned ones: a commit of 30 blocks panics on its own, one of 29 when a reader outside any
  operation holds a buffer.
* `sbrk` never fails: `growproc` adds to an unsigned size and returns 0 (xv6_new_7/proc.c:177).  So `malloc` never returns
  NULL; it goes wrong exactly when the size of the process plus the region that it needs reaches 2^32, which leaves the
  process smaller or as it was, or when a block header falls into a page of the kernel, which kills the process.  From
  0xfffffff9 bytes on its unit count wraps around, and the block has no room at all; below, every block holds the bytes.
* Extraction gives the file back exactly when its size is a multiple of the block size; otherwise the output starts with
  the file and more bytes follow, because the tail is written again for later zero entries (inodes/disk_image.c:112-117).
* `is_inode` looks at the first seven of an inode's 25 words, although line 79 asks for all of them
  (inodes/disk_image.c:46); the range check of the extracting walkers lets the block number after the last block through
  (inodes/disk_image.c:106).  Neither matters on images that the tool wrote.
* The two Life programs agree on every board with a dead border; after an odd number of steps they agree only then.
* `copyuvm` panics, with frames to spare, exactly when some 4 MB region that reaches below the size has no page table.
  Demand paging makes that easy: a process that uses only its first page, grows beyond 4 MB and forks stops the machine;
  and a child has a table only where its parent has a page.  The other panic of `copyuvm`, those of `kfree` and the
  remap panic in `setupkvm` are never reached.
* When frames run out the page fault branch of `trap` reads through the null result of `walkpgdir` or clears memory at
  the null result of `kalloc`, exactly below the two, one or no frames that the access needs.
* A failed `allocuvm` takes away every page of the range, so it restores the mappings exactly when none was there before.
* `random_at_most` ends for every seed: a state and the state half a period later add up to N, and one of them is accepted.
  The generator never yields 0, so the process that holds number 0 has one state fewer than its share.
* A `filewrite` that does not fit the largest file returns -1 but leaves the whole chunks that fit in place.
* `kill(0)` finds a free slot of the process table, because free slots have pid 0, and marks it.  `allocproc` does not
  clear the mark, so the next child made in that slot is killed before it has run (xv6_work/proc.c:84-92, 552-562).
* The shell treats `>>` like `>`: both open the file with the same mode (xv6_new_7/sh.c:391-400).

## Model

| member | source | states |
|---|---|---|
| LogRefinement.StepRefines | xv6_new_7/log.c:68-233 | every step (a critical section, the unlocked size test of log_write, one block write of commit or recovery, a crash) keeps the invariant and is one step of a machine with atomic commit, or invisible to it, provided a record finds a free slot |
| LogRefinement.RunKeepsInv | xv6_new_7/log.c:68-233 | for every log size: in any run, whatever the interleaving and however often it crashes, the invariant holds as long as every record has found a slot; only the first state is assumed good |
| LogRefinement.GoodRunExactly | xv6_new_7/log.c:68-233 | for every log size: a run is good in all its states if and only if each of its records finds a slot |
| LogRefinement.AllSlotted | xv6_new_7/log.c:124-233 | in a log of more than LOGSIZE blocks (or of one, where nothing passes the size test) every record of every run finds its slot |
| LogRefinement.OneAtATime | xv6_new_7/log.c:124-233 | in runs where an operation begins only when no other one runs every record finds its slot, in a log of any size |
| LogRefinement.RunReserved | xv6_new_7/log.c:124-233 | the reservation bound holds in every state of every run, for every log.size |
| LogRefinement.DurableBetweenCommits | xv6_new_7/log.c:115-122 | for every log size and every run whose records find their slots: over any stretch with no commit point, crashes and restarted recoveries included, the durable contents do not move; when the log is idle the home blocks are those contents |
| LogRefinement.CommitPointIsAtomic | xv6_new_7/log.c:98-113 | the one header write that counts moves every home block at once from its old to its new contents, and no operation is running then |
| LogRefinement.WriteHeadStep | xv6_new_7/log.c:192-202 | writing the non-empty list into the header is the commit of the atomic machine |
| LogRefinement.WriteLogStep | xv6_new_7/log.c:176-190 | copying a block to its slot changes neither what survives a crash nor what is read |
| LogRefinement.InstallStep | xv6_new_7/log.c:68-82 | installing one block after the commit point is invisible |
| LogRefinement.RecoverRefines | xv6_new_7/log.c:115-122 | every block write of recovery is invisible to the atomic machine |
| LogRefinement.CrashRefines | xv6_new_7/log.c:84-96 | a crash between any two block writes leaves exactly the durable contents |
| LogRefinement.BeginRefines | xv6_new_7/log.c:124-141 | an admitted begin_op keeps room for the full reservations of all running operations |
| LogRefinement.TestRefines | xv6_new_7/log.c:217-221 | passing the unlocked size test is invisible and promises nothing about the list at the time of the record |
| LogRefinement.RecordRefines | xv6_new_7/log.c:223-233 | the locked half of log_write is one write of the atomic machine and keeps the reservation bound, absorbed or not |
| LogRefinement.SlotForEveryone | xv6_new_7/log.c:217-233 | when log.size exceeds LOGSIZE every record finds a slot, whatever ran since its size test |
| LogRefinement.NoSlotNoInv | xv6_new_7/log.c:217-233 | a record without a free slot breaks the invariant |
| LogRefinement.EndRefines | xv6_new_7/log.c:143-174 | end_op gives an unused reservation back; the last one starts the commit |
| LogReservation.ReservationSafe | xv6_new_7/log.c:124-174 | in every state of every run the listed blocks and the unused reservations fit LOGSIZE, and no operation runs while committing |
| LogReservation.PanicExactly | xv6_new_7/log.c:217-219 | a within-budget log_write of a new block panics exactly when lh.n has reached log.size - 1, so never when log.size exceeds LOGSIZE |
| LogReservation.SlotLimitReached | xv6_new_7/log.c:218-219 | for every log.size up to LOGSIZE there is a run within all budgets that ends in the panic |
| LogReservation.AbsorbedWritePanics | xv6_new_7/log.c:217-228 | the size test comes before absorption: for every larger log there is a run within all budgets where logging an already listed block panics |
| LogReservation.BothRecord | xv6_new_7/log.c:217-233 | for every log.size from 2 to LOGSIZE two writers within their budgets pass the size test together and list one block more than there are slots |
| LogReservation.HomeBlockLost | xv6_new_7/log.c:176-190 | that run goes on so that write_log overwrites the block behind the log, which no operation ever wrote: after a crash and recovery, without any commit, its contents are gone |
| LogReservation.SafeExactly | xv6_new_7/log.c:124-233 | the invariant holds in every state of every run from every good disk if and only if log.size exceeds LOGSIZE (or is 1, when every log_write panics) |
| LogDriver.Log.constructor | xv6_new_7/log.c:53-66 | a booted log is the start of recovery on that disk |
| LogDriver.Log.ReadHead | xv6_new_7/log.c:84-96 | the list in memory becomes the one in the header block |
| LogDriver.Log.BeginOp | xv6_new_7/log.c:124-141 | admits an operation exactly when there is room for one more reservation and no commit runs; the new state is that step of the model |
| LogDriver.Log.TestSize | xv6_new_7/log.c:217-221 | panics exactly when the model says; otherwise the operation stands behind the test, with the lock still free |
| LogDriver.Log.Record | xv6_new_7/log.c:223-233 | the record step of the model; the log stays sound exactly when the list still fits the slots |
| LogDriver.Log.LogWrite | xv6_new_7/log.c:212-233 | both halves with nothing in between: panics exactly when the model says; otherwise the block is pinned with its data and listed once |
| LogDriver.Log.RecordBlock | xv6_new_7/log.c:223-228 | the list is the old one with the block added once |
| LogDriver.Log.EndOp | xv6_new_7/log.c:143-174 | the new state is the end step followed by every block write of the commit, if any: with the last operation every home block gets its newest contents and nothing stays pinned, otherwise nothing moves |
| LogDriver.Log.Commit | xv6_new_7/log.c:192-202 | all 2n+2 block writes of the model in their order, ending idle with an empty list and an empty header, every home block holding its newest contents |
| LogDriver.CommitDone | xv6_new_7/log.c:192-202 | when the commit is over the home blocks hold what the file system read before, and nothing is pinned |
| LogDriver.Log.WriteLog | xv6_new_7/log.c:176-190 | the first n block writes of the commit: slot k gets the newest contents of listed block k, and no other block changes |
| LogDriver.Log.WriteHead | xv6_new_7/log.c:98-113 | only the header block changes, and then lists exactly the logged blocks |
| LogDriver.Log.InstallTrans | xv6_new_7/log.c:68-82 | the n installing block writes, in commit and in recovery |
| LogDriver.Log.RecoverFromLog | xv6_new_7/log.c:115-122 | afterwards every home block holds its durable contents and the log is empty |
| LogDriver.RecoveryKeepsDurable | xv6_new_7/log.c:115-122 | after any number of block writes of recovery the durable contents are those at the crash |
| DiskBytes.EntryAfterPut | inodes/disk_image.c:30-40 | an integer written into a block is read back, and no other integer of the block changes |
| DiskBytes.ReadInt | inodes/disk_image.c:36-40 | reads the integer at word k of block b: the four raw bytes there, the least significant one first |
| DiskBytes.WriteInt | inodes/disk_image.c:30-34 | changes that integer in the byte array and nothing else on the image |
| DiskTree.StoredFrame | inodes/disk_image.c:151-204 | writes outside the blocks of a tree leave the tree as it was |
| DiskTree.AddKid | inodes/disk_image.c:435-486 | entering a finished subtree into the next entry gives a well-formed index block, with zero in every later entry |
| DiskTree.ShapeBytes | inodes/disk_image.c:435-556 | a tree without empty index blocks holds at least one block and at most its capacity, and is full exactly when all its entries are |
| DiskTree.BytesSlice | inodes/disk_image.c:101-147 | the bytes below one subtree sit at their place in the order of the walk |
| DiskPlace.GetFreeBlock | inodes/disk_image.c:10-28 | marks the lowest free block from m on; fails only when none is free |
| DiskPlace.CopyChunk | inodes/disk_image.c:457-467 | one block of the image takes the next chunk of the file and the cursor moves by what was read |
| DiskPlace.Grow | inodes/disk_image.c:435-556 | one more subtree and its entry extend the placed part of the file by exactly its bytes |
| DiskPlace.PlaceData | inodes/disk_image.c:448-467 | one turn of the innermost loop: the next chunk of the file is under the next entry; out of space only when the whole would not have fitted |
| DiskPlace.PlaceIndirectBlock | inodes/disk_image.c:435-486 | a fresh one-level tree carries the next bytes of the file, on blocks that were free and are marked now, all other blocks unchanged; fails exactly when fewer blocks were free than it needs |
| DiskPlace.PlaceDoublyIndirectBlock | inodes/disk_image.c:489-525 | the same for a two-level tree |
| DiskPlace.PlaceTriplyIndirectBlock | inodes/disk_image.c:529-556 | the same for a three-level tree |
| DiskFiles.PlantOne | inodes/disk_image.c:558-647 | one more pointer extends the placed file by exactly the bytes of its tree |
| DiskFiles.ImageAfterInsert | inodes/disk_image.c:748-788 | after placing a file the image is well formed and every earlier file keeps its inode words, its trees and its contents |
| DiskFiles.OldFileKept | inodes/disk_image.c:558-647 | claims on free blocks and a write to another inode slot leave a file as it was |
| DiskFiles.PutInode | inodes/disk_image.c:64-88 | writing one inode leaves the words of every other slot alone |
| DiskFiles.NeverTooLarge | inodes/disk_image.c:637-640 | a file whose size is an int never runs out of pointers |
| DiskFiles.Caps | inodes/disk_image.c:435-556 | the capacities: 1 KB, 256 KB, 64 MB and 16 GB per pointer of levels 0 to 3 |
| DiskTool.WalkIndirectBlock | inodes/disk_image.c:151-166 | marks exactly the blocks of the tree below an indirect pointer |
| DiskTool.WalkDoublyIndirectBlock | inodes/disk_image.c:170-185 | marks exactly the blocks below a doubly indirect pointer |
| DiskTool.WalkTriplyIndirectBlock | inodes/disk_image.c:189-204 | marks exactly the blocks below a triply indirect pointer |
| DiskTool.PopulateBitmapInode | inodes/disk_image.c:208-244 | marks exactly the blocks that one inode reaches through its direct, single, double and triple pointers |
| DiskTool.IsInode | inodes/disk_image.c:45-55 | true exactly when one of the first seven words of the slot is not zero |
| DiskTool.InodeFound | inodes/disk_image.c:45-55 | on a well-formed image the test finds exactly the slots that hold a file |
| DiskTool.WalkInodesInsert | inodes/disk_image.c:249-269 | the rebuilt bitmap marks exactly the blocks of all files on the image |
| DiskCommands.PlaceInode | inodes/disk_image.c:64-88 | refuses exactly a slot out of range or in use; otherwise only the words of that slot change |
| DiskCommands.PlaceDirect | inodes/disk_image.c:587-614 | fills the direct pointers first; even an empty file takes one block |
| DiskCommands.PlaceIndirects | inodes/disk_image.c:620-634 | goes on with the three indirect, the doubly and the triply indirect pointers while the file lasts |
| DiskCommands.PlaceBlocks | inodes/disk_image.c:558-640 | all bytes of the file are on the image, behind its pointers; fails exactly when free blocks are fewer than the file costs |
| DiskCommands.PlaceFile | inodes/disk_image.c:558-647 | places the file and its inode, or reports no space or a bad slot |
| DiskCommands.SpaceRunsOut | inodes/disk_image.c:10-28 | the allocator gives up exactly when the blocks from m to n cannot hold what is there and what is asked for |
| DiskCommands.SlotWasFree | inodes/disk_image.c:64-88 | placing the data never changes the answer about the inode slot |
| DiskCommands.Insert | inodes/disk_image.c:748-788 | succeeds exactly when there is room and the slot is free and in range; then the file is on the image with all earlier ones unchanged and uses exactly its cost in blocks; otherwise the image keeps its bytes |
| DiskCommands.Create | inodes/disk_image.c:704-743 | a new image with exactly one file, under the exact conditions for space and slot |
| DiskExtract.Emit | inodes/disk_image.c:107-117 | appends the next bytes of the block: a whole block as long as the size leaves room for one, and otherwise the remainder of the size modulo the block size, as line 112 computes it |
| DiskExtract.ExtractWalkIndirectBlock | inodes/disk_image.c:101-119 | appends exactly the bytes below an indirect pointer |
| DiskExtract.ExtractWalkDoublyIndirectBlock | inodes/disk_image.c:121-133 | appends exactly the bytes below a doubly indirect pointer |
| DiskExtract.ExtractWalkTriplyIndirectBlock | inodes/disk_image.c:135-147 | appends exactly the bytes below a triply indirect pointer |
| DiskExtract.BeyondEnd | inodes/disk_image.c:101-147 | zero entries after the last one add bytes exactly when the size is no multiple of the block size |
| DiskExtract.FileEnd | inodes/disk_image.c:287-333 | after all 17 pointers the output starts with the file, and equals it exactly when its size is a multiple of the block size |
| DiskExtract.ExtractFile | inodes/disk_image.c:287-333 | extraction undoes placement: the output starts with the file and is the file exactly when its size is a multiple of the block size |
| DiskSession.Extract | inodes/disk_image.c:791-803 | the same from an image file, for a given inode slot |
| DiskSession.Session | inodes/disk_image.c:664-824 | over a create and any number of inserts every outcome is the one that space and slots dictate, every successful file is on the final image, and nothing else is |
| DiskRaw.FileOnImage | inodes/disk_image.c:558-640 | on every image that the tool writes, following the raw little-endian integers from the inode through direct, indirect, doubly and triply indirect blocks gives every byte of the file |
| DiskRaw.OwnerOnImage | inodes/inode.h:9-22 | owner and times of a placed file stand in the bytes where struct inode has them |
| DiskRaw.TreeByte | inodes/disk_image.c:448-540 | byte j below a pointer is found by dividing j by the bytes below one entry, level by level |
| LifeRules.SimulateLifeSerial | life/life-serial.cc:3-33 | the loops compute k steps of the rule, with a second board that starts dead |
| LifeRules.StepAt | life/life-serial.cc:9-28 | one generation in columns and rows: away from the border a cell lives on with two or three of its eight neighbours alive and comes to life with three; the border comes from the other board |
| LifeRules.CountWindow | life/life-parallel.cc:41-50 | counts the live cells of the 3 by 3 window |
| LifeRules.SerialBorder | life/life-serial.cc:3-33 | the serial border: the given one after an even number of steps, dead after an odd one |
| LifeRules.DeadBorderAgrees | life/life-parallel.cc:75-141 | with a dead border the two programs mean the same board, for every number of steps |
| LifeRules.OddStepsAgree | life/life-parallel.cc:75-141 | after an odd number of steps they mean the same board exactly when the border is dead |
| LifeParallel.Consecutive | life/life-parallel.cc:93-116 | the ranges of the threads follow each other and end at the last cell |
| LifeParallel.HasOwner | life/life-parallel.cc:93-116 | every cell belongs to some thread, for every thread count |
| LifeParallel.OneOwner | life/life-parallel.cc:93-116 | no cell belongs to two threads |
| LifeParallel.EvenShares | life/life-parallel.cc:93-116 | no thread has more than one cell more than another one |
| LifeProof.InitOk | life/life-parallel.cc:75-116 | the invariant holds when the threads start |
| LifeProof.WriteKeeps | life/life-parallel.cc:53-56 | writing one cell keeps it: the value is the rule applied to the finished board, although the window was read cell by cell |
| LifeProof.ArriveKeeps | life/life-parallel.cc:59-62 | arriving at the barrier keeps it; the last arrival opens the next step |
| LifeProof.Complete | life/life-parallel.cc:32-71 | when all threads wait, the new board is complete and right |
| LifeProof.StepKeeps | life/life-parallel.cc:19-73 | every step of every thread keeps the invariant |
| LifeProof.RunKeeps | life/life-parallel.cc:19-73 | so it holds in every interleaving; a run only says that each move is one that the moving thread may make |
| LifeProof.ParallelIsSerial | life/life-parallel.cc:75-141 | every finished run, for every thread count, board and step count, returns the board of the rule, after the odd or even copy-back; with a dead border that is the serial result, and for odd step counts only then |
| LifeProof.NoRace | life/life-parallel.cc:32-71 | no thread writes the board that another one reads, and no two threads are at the same cell |
| LifeProof.EveryoneMoves | life/life-parallel.cc:59-71 | in every reachable state a thread can move if and only if it has not finished and does not wait at the closed barrier |
| LifeProof.NeverStuck | life/life-parallel.cc:59-71 | until all threads have finished, some thread can move |
| Umalloc.InsertedOrdered | xv6_new_7/umalloc.c:24-44 | inserting and coalescing leaves the list in address order with no two free blocks touching |
| Umalloc.InsertedCovers | xv6_new_7/umalloc.c:24-44 | afterwards exactly the old free units and those of the block are free |
| UmallocFree.RelinkedOk | xv6_new_7/umalloc.c:33-42 | the header writes of free make memory the circular list of the new free blocks |
| UmallocFree.FreedConserved | xv6_new_7/umalloc.c:24-44 | no unit is lost or gained by free |
| UmallocFree.FreedGood | xv6_new_7/umalloc.c:24-44 | free keeps the whole invariant |
| UmallocMalloc.TakenGood | xv6_new_7/umalloc.c:76-77 | unlinking an exact fit keeps the whole invariant, and the block was not allocated |
| UmallocMalloc.SplitGood | xv6_new_7/umalloc.c:78-82 | cutting the tail off keeps the whole invariant, and the tail was not allocated |
| UmallocMalloc.GrownGood | xv6_new_7/umalloc.c:46-61 | memory from sbrk above everything earlier keeps the invariant |
| UmallocCode.StopsAt | xv6_new_7/umalloc.c:30-32 | the stopping test of the search in free holds at exactly one block: the last one below the freed block |
| UmallocCode.InsertedFits | xv6_new_7/umalloc.c:46-61 | once a region is freed into the list a request of its size fits |
| UmallocCode.NothingFits | xv6_new_7/umalloc.c:86-88 | a full round without a fit has seen every free block |
| UmallocCode.SizesExactly | xv6_new_7/umalloc.c:46-72 | in 32-bit arithmetic: the units cover the bytes, with less than a unit to spare, exactly below 0xfffffff9 |
| UmallocCode.TooManyBytes | xv6_new_7/umalloc.c:46-72 | in a process of 16 KB: the first request that is negative as an int still grows the process, later ones shrink it by 8 bytes or leave it as it is, and from 0xfffffff9 on the unit count is 1 |
| UmallocCode.WrapsExactly | xv6_new_7/proc.c:160-180 | a request for which nothing fits overflows the size exactly when no minimal region is left below 2^32, or when the size, the request (below 0xfffffff9) and 16 bytes exceed 2^32 |
| UmallocCode.OnlyLastFits | xv6_new_7/umalloc.c:46-61 | once a region has been freed at the end of the process, where nothing fitted before, the block that ends there fits and no other one does |
| UmallocCode.Allocator.Sbrk | xv6_new_7/sysproc.c:46-58 | returns the old size; the new one is their sum modulo 2^32; growth by the program itself leaves the heap good |
| UmallocCode.Allocator.FindPlace | xv6_new_7/umalloc.c:30-32 | the search ends, at the place that address order asks for |
| UmallocCode.Allocator.Relink | xv6_new_7/umalloc.c:33-42 | the memory is the relinked one |
| UmallocCode.Allocator.Free | xv6_new_7/umalloc.c:24-44 | frees exactly that block, at its place in the order, and keeps the invariant |
| UmallocCode.Allocator.Morecore | xv6_new_7/umalloc.c:46-61 | the size always changes by the region modulo 2^32; without overflow the region at the old end is freed into the list, unless its header falls into a page of the kernel |
| UmallocCode.Allocator.Take | xv6_new_7/umalloc.c:75-85 | hands out a block of exactly the asked size that was free before, the whole block or the tail of a larger one; kills the process exactly when that header falls into a page of the kernel |
| UmallocCode.Allocator.Search | xv6_new_7/umalloc.c:74-90 | the loop ends; the first block after freep that is large enough serves the request; exactly when there is none morecore is called, once, and the block at the end of the process serves it; the new heap is given in both cases |
| UmallocCode.Allocator.Malloc | xv6_new_7/umalloc.c:63-90 | returns a block that no caller holds, from the first block after freep that is large enough, and asks for memory exactly when nothing fits, once; then it fails exactly when the size of the process plus the region reaches 2^32 or a header falls into a page of the kernel, and otherwise returns the end of the process; the block holds the bytes asked for exactly below 0xfffffff9 |
| FsSpec.AttachAt | xv6_new_7/fs.c:372-400 | storing a new address changes one pointer and no other, also through the indirect block |
| FsSpec.AttachKeeps | xv6_new_7/fs.c:55-78 | after allocation every attached block still has one owner and the bitmap marks exactly metadata and owned blocks |
| FsSpec.AttachBytes | xv6_new_7/fs.c:372-400 | allocation changes no byte of any file |
| FsSpec.WriteAtKeeps | xv6_new_7/fs.c:500-502 | a write into a data block keeps ownership |
| FsSpec.WriteAtBytes | xv6_new_7/fs.c:500-502 | and changes exactly the written bytes of that file |
| FsSpace.FilledTwice | xv6_new_7/fs.c:372-400 | the free blocks taken by two writes add up to those of their union, each missing pointer paid once |
| FsWrite.WriteTurn | xv6_new_7/fs.c:498-504 | one turn of writei extends the written range by exactly its bytes |
| FsWrite.WroteAll | xv6_new_7/fs.c:481-511 | all turns and the new size make the file its old contents with the range replaced, other files unchanged |
| FsTrunc.FreeNext | xv6_new_7/fs.c:414-428 | one more freed pointer frees exactly its block, which was marked |
| FsTrunc.FreeIndirect | xv6_new_7/fs.c:429-430 | freeing the index block last completes the freed set |
| FsTrunc.TruncatedKeeps | xv6_new_7/fs.c:407-435 | truncation clears exactly the bits of the blocks the inode owned, empties it and keeps every other file and the invariant |
| FsTrunc.FreedAll | xv6_new_7/fs.c:331-352 | the last reference to an unlinked file returns exactly its blocks |
| FsCode.FileSystem.constructor | xv6_new_7/fs.c:55-78 | a fresh file system satisfies the invariant, memory and disk inodes agreeing |
| FsCode.FileSystem.Balloc | xv6_new_7/fs.c:55-78 | takes, zeroes and logs the lowest free block; panics only when all are marked |
| FsCode.FileSystem.Bfree | xv6_new_7/fs.c:80-95 | clears the bit and logs exactly the bitmap block that holds it; panics exactly on a free block |
| FsCode.FileSystem.Bmap | xv6_new_7/fs.c:372-400 | returns the address at the pointer of block bn, attaching what is missing and changing no byte of any file; panics exactly when too few blocks are free; an attached block costs nothing |
| FsCode.FileSystem.Fill | xv6_new_7/fs.c:379-394 | attaches one new block to an empty pointer |
| FsCode.FileSystem.ReadPiece | xv6_new_7/fs.c:469-474 | reads the part of the range in one block and allocates nothing |
| FsCode.FileSystem.Readi | xv6_new_7/fs.c:452-476 | fails exactly for an offset past the end or an overflow; otherwise returns exactly the bytes of the file, cut at its end, and changes nothing |
| FsCode.FileSystem.WriteBlocks | xv6_new_7/fs.c:498-504 | all bytes written, or out of blocks exactly when the range lacks more blocks than are free |
| FsCode.FileSystem.SetSize | xv6_new_7/fs.c:506-509 | the size grows to the end of the write, never shrinks |
| FsCode.FileSystem.Writei | xv6_new_7/fs.c:481-511 | fails exactly for an offset past the end, an overflow or a too large file; otherwise exactly the range of that file is replaced and every block whose bytes change is logged; out of blocks exactly when the range lacks more than are free |
| FsCode.FewTurns | xv6_new_7/fs.c:498-504 | a chunk of filewrite touches at most four blocks, and four only from inside a block |
| FsCode.Within | xv6_new_7/file.c:133-153 | so it logs at most MAXOPBLOCKS distinct blocks |
| FsCode.FileSystem.ClearSlot | xv6_new_7/fs.c:414-419 | frees the block of one direct pointer, logging its bitmap block, and clears the pointer |
| FsCode.FileSystem.Itrunc | xv6_new_7/fs.c:407-435 | the inode loses exactly its blocks and its size; exactly the bitmap blocks of freed blocks and the inode block are logged, which covers all that changes on disk; the panic of bfree is never reached |
| FsCode.FileSystem.TruncAndFree | xv6_new_7/fs.c:339-345 | truncates, marks the inode free and writes it; exactly the bitmap blocks of freed blocks and the inode block are logged |
| FsCode.FileSystem.Iput | xv6_new_7/fs.c:331-352 | drops one reference, and frees the file exactly when it was the last one to a valid unlinked inode, keeping the invariant; the logged blocks are exactly the bitmap blocks of freed blocks and the inode block, and cover all that changes on disk |
| FsFile.StopsHere | xv6_new_7/file.c:133-153 | the first chunk that does not fit starts right behind the whole chunks that do |
| FsFile.ReplacedTwice | xv6_new_7/file.c:133-153 | two writes one behind the other are one write |
| FsFile.OpenFile.WriteOne | xv6_new_7/file.c:137-145 | one turn of the loop is one finished operation of at most ten blocks that cover all it changes on disk; refused exactly for a chunk behind the end or beyond the largest file |
| FsFile.OpenFile.FileWrite | xv6_new_7/file.c:117-156 | all bytes, or -1 with exactly the whole chunks that fit below the largest file written; panics exactly when those lack more blocks than are free; as many operations are finished as chunks are tried, each logs at most MAXOPBLOCKS blocks that cover its changes, and between them the file has the bytes of the chunks so far |
| FsFile.OpenFile.FileWriteShared | xv6_new_7/file.c:118-156 | with other processes doing anything between two chunks: every chunk is one write at the offset and into the file of that moment and one finished operation, of at most ten blocks that cover what it changes, and moves the offset behind itself; the call fails or panics exactly at the first chunk that does, and that chunk changes nothing |
| FsLayout.DinodeBack | xv6_new_7/fs.c:221-236 | the 64 bytes that iupdate writes give the inode back |
| FsLayout.OneMeaning | xv6_new_7/fs.h:38-48 | the bytes of the inode, bitmap and data blocks determine every inode, every bit and every data block |
| FsLayout.CoveredImg | xv6_new_7/fs.c:221-236 | a block that no changed inode, bit or data block lies in keeps its bytes |
| FsLayout.DinodeOnDisk | xv6_new_7/fs.h:28-44 | where in its block an inode is, and which of its bytes hold type, links, size and addresses, the least significant byte first |
| FsLayout.BitOnDisk | xv6_new_7/fs.h:46-51 | which bit of which byte of which bitmap block marks a block |
| FsLayout.OneMoreBit | xv6_new_7/fs.c:80-95 | flipping one bit back or forth adds exactly its bitmap block to those in which two bitmaps differ |
| FsCrash.AllOrNothing | xv6_new_7/log.c:68-233 | one operation at a time in a log of any size: at every point of every run, crashes and recoveries included, a recovery from there leaves all its writes or none |
| FsCrash.CoveredSafe | xv6_new_7/fs.c:482-511 | so, in a log of any size, when the logged blocks cover all that changed, the disk stands for the state before or for the state after |
| FsCrash.SameFiles | xv6_new_7/fs.c:221-236 | two states that the same disk stands for have the same files with the same contents |
| FsCrash.WriteChunk | xv6_new_7/fs.c:482-511 | one writei of at most a chunk logs every block it changes, at most ten; whatever crashes and recoveries follow, in a log of any size, the disk stands for the old contents or for those with the range replaced |
| FsCrash.WriteFile | xv6_new_7/file.c:117-156 | a whole filewrite, one operation for each chunk: wherever the machine stops the disk stands for one of the states between two chunks, the old contents with the bytes of so many chunks written over them |
| FsCrash.PutInode | xv6_new_7/fs.c:331-352 | iput as an operation: wherever the machine stops, the disk stands for the state before or after, so an unlinked file is there or gone with all its blocks; at most ten blocks are logged on a disk with up to nine bitmap blocks |
| FsCrash.SaveRuns | xv6_new_7/log.c:124-174 | from an idle log with more blocks than are logged such an operation, within its budget, runs to its end |
| BioList.Unlink | xv6_new_7/bio.c:132-133 | the two pointer writes remove one buffer from the circular list |
| BioList.LinkFirst | xv6_new_7/bio.c:134-137 | the four pointer writes put a buffer behind the head |
| BioCache.OneChange | xv6_new_7/bio.c:61-93 | a change to one buffer keeps: no two buffers for one block, clean unlocked buffers equal to disk |
| BioCache.OneView | xv6_new_7/bio.c:61-106 | and changes what no block holds to its readers |
| BioCache.SeesOne | xv6_new_7/bio.c:96-106 | a valid buffer is the newest contents of its block |
| BioCache.Cache.constructor | xv6_new_7/bio.c:38-56 | the list holds every buffer once and readers see the disk |
| BioCache.Cache.LinkAtHead | xv6_new_7/bio.c:134-137 | the buffer is the most recent one |
| BioCache.Cache.FindCached | xv6_new_7/bio.c:68-76 | finds the buffer of the block exactly when there is one |
| BioCache.Cache.FindUnused | xv6_new_7/bio.c:78-91 | finds the least recently released buffer that is neither referenced nor dirty; none only if all are |
| BioCache.Cache.Bget | xv6_new_7/bio.c:61-93 | one more reference to the buffer of the block, or the least recently released free buffer recycled; panics exactly when the block has no buffer and all NBUF are referenced or dirty |
| BioCache.Cache.Iderw | xv6_new_7/memide.c:38-60 | panics exactly on its four tests; otherwise writes a dirty buffer or fills an invalid one |
| BioCache.Cache.Bread | xv6_new_7/bio.c:96-106 | a locked valid buffer with the newest contents of the block; asleep with its reference taken exactly when another process holds the buffer; no buffer exactly when bget panics; all other buffers and the disk unchanged |
| BioCache.Cache.Finish | xv6_new_7/bio.c:101-104 | the rest of bread, also after the sleep: locks the buffer once it is free and fills it once |
| BioCache.Cache.Bwrite | xv6_new_7/bio.c:109-116 | panics exactly on an unlocked buffer; otherwise the block on disk becomes its data |
| BioCache.Cache.MoveToFront | xv6_new_7/bio.c:130-138 | the list is the old one with this buffer moved first |
| BioCache.Cache.Brelse | xv6_new_7/bio.c:120-141 | panics exactly on an unlocked buffer; otherwise drops the lock and one reference, and moves the buffer first exactly when it was the last one; the cache stays sound exactly when a clean buffer is as on disk |
| BioCommit.CopyOne | xv6_new_7/log.c:181-188 | one turn of write_log over the cache: panics exactly when every buffer is in use; otherwise the slot gets the newest contents of its block and no buffer in use changes |
| BioCommit.WriteLog | xv6_new_7/log.c:176-190 | write_log over the cache: panics exactly when every buffer is in use; otherwise each slot gets the newest contents of its block and nothing else on disk changes |
| BioCommit.CommitCrowded | xv6_new_7/log.c:176-190 | with k pinned blocks and r buffers held by readers outside operations the commit panics exactly when k + r is NBUF: 30 logged blocks alone, or 29 and one reader |
| BioCommit.SeesCached | xv6_new_7/bio.c:96-106 | what the cache shows of a block is what the log takes for its current contents |
| BioCommit.WriteLogIsCommit | xv6_new_7/log.c:176-190 | what write_log over the cache leaves on disk is what the block writes of the log model leave |
| VmSpec.HungKeeps | xv6_new_7/vm.c:57-80 | hanging a frame into an empty place keeps: every frame free, held, or owned by one place |
| VmSpec.TakenDownKeeps | xv6_new_7/vm.c:251-279 | taking a frame out of its place keeps it too |
| VmSpec.HangTable | xv6_new_7/vm.c:45-53 | a new zeroed page table changes no mapping |
| VmSpec.HangPage | xv6_new_7/vm.c:57-80 | a new page changes one mapping and no other, nor any other byte |
| VmSpec.DropPage | xv6_new_7/vm.c:269-276 | dropping a page clears one mapping and no other |
| VmSpec.MapKernelPage | xv6_new_7/vm.c:57-80 | a kernel mapping changes no user byte and owns no frame |
| VmSpec.WritePage | xv6_new_7/vm.c:313-354 | a store changes the bytes of one page of one process |
| VmSpec.Retire | xv6_new_7/vm.c:281-298 | a directory without pages can give up its tables and itself |
| VmSpec.FreedExactly | xv6_new_7/vm.c:281-298 | after freevm the free list has exactly the frames that were free or owned by the directory, each once |
| VmCode.Kernel.constructor | xv6_new_7/kalloc.c:46-54 | every frame from the end of the kernel to PHYSTOP is free once |
| VmCode.Kernel.Kalloc | xv6_new_7/kalloc.c:83-96 | takes the first free frame; null exactly when there is none |
| VmCode.Kernel.Kfree | xv6_new_7/kalloc.c:60-78 | fills a frame with bytes 1, puts it in front of the free list and changes no other frame; its panics are never reached |
| VmCode.Kernel.InFreeTable | xv6_new_7/kalloc.c:98-123 | true exactly for free frames |
| VmCode.Kernel.Walkpgdir | xv6_new_7/vm.c:35-55 | returns the table of the address, makes a zeroed one if asked, and fails only without a free frame; no mapping changes |
| VmCode.Kernel.Mappages | xv6_new_7/vm.c:57-80 | maps exactly the given pages, one or many, user pages taking their frames over; panics only on a present page, fails exactly when the free frames are fewer than the missing tables, and takes one frame for each |
| VmSpace.DroppedSkip | xv6_new_7/vm.c:266-268 | skipping to the next directory entry drops the same pages as going page by page |
| VmSpace.DropOne | xv6_new_7/vm.c:269-276 | frees the frame of one page and clears its entry, in the order of the code |
| VmSpace.Deallocuvm | xv6_new_7/vm.c:251-279 | frees exactly the pages from the new to the old size, to the free list, and keeps everything else |
| VmSpace.Freevm | xv6_new_7/vm.c:281-298 | frees the whole address space; every other one keeps its mappings and bytes |
| VmSpace.SegsApart | xv6_new_7/vm.c:105-115 | the four kernel segments never overlap |
| VmSpace.LineTables | xv6_new_7/vm.c:105-136 | each line of kmap makes exactly the tables that the lines before it have not made |
| VmSpace.NewDirGone | xv6_new_7/vm.c:129-134 | giving up half-way restores mappings and bytes of all others |
| VmSpace.Setupkvm | xv6_new_7/vm.c:118-136 | a directory with exactly the kernel mappings, each page of the kernel half given with its frame and rights, and no user table, for exactly 65 frames; with fewer free frames nothing changes; never a remap panic |
| VmSpace.KmapIs | xv6_new_7/vm.c:105-115 | the lines of kmap page by page: pages from KERNBASE on map the frames from 0 on, read-only exactly from KERNLINK to data, the devices map themselves, the user may touch none, and all else is absent |
| VmSpace.SameFree | xv6_new_7/vm.c:281-298 | with the same references and the same frames in hand the same frames are free |
| VmGrow.Allocuvm | xv6_new_7/vm.c:221-249 | maps a zeroed page for each page of the range, or takes all back; fails on memory only with fewer free frames than two a page |
| VmGrow.AllocPage | xv6_new_7/vm.c:233-247 | one page of that loop, with the roll-back |
| VmGrow.RestoredExactly | xv6_new_7/vm.c:235-246 | a failed allocuvm restores the mappings exactly if and only if no page of the range was mapped before |
| VmGrow.Copyuvm | xv6_new_7/vm.c:313-354 | a child with the same flags and bytes on own frames and a table exactly for each region with a page; it takes exactly 65 frames, one for each page and one for each such region; panics only if some page below the size has no table, fails only with too few frames, and then takes everything back |
| VmSpec.CostNext | xv6_new_7/vm.c:339-347 | what one more page costs the child: a frame, and another one for the first page of its region |
| VmGrow.CopyPage | xv6_new_7/vm.c:339-347 | one page of that loop, with the roll-back |
| VmPaging.PageFault | xv6_new_7/trap.c:96-133 | kills the process exactly for a page at or above the size or already present; otherwise the page is a zeroed one; reads through the null table or clears memory at the null frame exactly when frames are too few, and takes exactly the frames it needs |
| VmPaging.Touch | xv6_new_7/trap.c:96-133 | after fault and retry the page is present and open to the program, or the process is killed; frames run out exactly when the page or its table is missing and there are too few |
| VmPaging.LoadByte | xv6_new_7/trap.c:96-133 | a load returns the byte of flat memory and no process sees a change; it fails exactly below its need of frames |
| VmPaging.StoreByte | xv6_new_7/trap.c:96-133 | a store is the store of flat memory, seen by no other process; it fails exactly below its need of frames |
| VmPaging.StoreShows | xv6_new_7/trap.c:96-133 | one byte on one page is one byte of flat memory |
| VmRun.SbrkShows | xv6_new_7/proc.c:160-180 | changing only the size adds zeros to flat memory |
| VmRun.ForkShows | xv6_new_7/vm.c:313-354 | after copyuvm the child shows what the parent shows, and so does everyone else |
| VmRun.Step | xv6_new_7/proc.c:160-227 | one operation answers as flat memory does and takes exactly the frames it needs, a fork also one for the kernel stack of the child; a fork panics, frames sufficing, exactly when some 4 MB region reaching below the size has no table |
| VmRun.ForkStep | xv6_new_7/proc.c:182-201 | fork takes the kernel stack and then copies the address space; when frames run out the stack is given back and the same frames are free as before |
| VmRun.Run | xv6_new_7/trap.c:96-133 | any run of sbrk, loads, stores and forks by any number of processes answers as zero-filled flat memory, every frame accounted for; it stops early only for too few frames, or at the first fork of a process with a 4 MB region, reaching below its size, that has no page table |
| VmRun.NewShows | xv6_new_7/vm.c:119-136 | a new directory stands for zeros of any size and owns no table and no page |
| VmRun.StoreSbrkFork | xv6_new_7/vm.c:318-326 | a new process that has used only its first page grows by n bytes and forks: the fork panics, with frames to spare, exactly when the size then exceeds 4 MB |
| LotteryRandom.StepBijection | xv6_work/proc.c:326-339 | the generator is a bijection on 1 .. N-1 |
| LotteryRandom.StepInjective | xv6_work/proc.c:326-339 | two states never meet |
| LotteryRandom.Schrage | xv6_work/proc.c:326-339 | the two products stay below 2^31 and their difference is the modular product |
| LotteryRandom.IterPower | xv6_work/proc.c:326-339 | n steps multiply by the n-th power of G |
| LotteryRandom.HalfPower | xv6_work/proc.c:326-339 | G to half the period is -1 modulo N |
| LotteryRandom.HalfTurn | xv6_work/proc.c:326-339 | half a period later the state is N minus what it was |
| LotteryPeriod.NoShorter | xv6_work/proc.c:326-339 | no smaller power of G than the (N-1)-th is 1 |
| LotteryPeriod.PowerOf | xv6_work/proc.c:326-339 | every state is a power of G |
| LotteryPeriod.NoRepeat | xv6_work/proc.c:326-339 | within one period no state comes up twice |
| LotteryPeriod.Reached | xv6_work/proc.c:326-339 | from every seed every state comes up within one period |
| LotteryPeriod.Returns | xv6_work/proc.c:326-339 | after one period the seed is back |
| LotteryRandom.Bins | xv6_work/proc.c:349-360 | a raw value is accepted exactly when its bin number is at most max, and each bin has exactly bin_size values |
| LotteryRandom.EndsInTime | xv6_work/proc.c:356-358 | one of two states half a period apart is accepted |
| LotteryRandom.Generator.Next | xv6_work/proc.c:329-343 | the next state, in 32-bit arithmetic |
| LotteryRandom.Generator.RandomAtMost | xv6_work/proc.c:347-361 | ends after at most half a period, with the bin of the first accepted state |
| LotteryDraw.HoldsOnce | xv6_work/proc.c:398-425 | no number belongs to two processes |
| LotteryDraw.SomebodyHolds | xv6_work/proc.c:398-425 | a number belongs to a process exactly when it is below the total |
| LotteryDraw.FairDraw | xv6_work/proc.c:398-425 | of the numbers 0 .. total a process wins exactly as many as it has tickets, and total selects nobody |
| LotteryDraw.StatesOf | xv6_work/proc.c:345-420 | the raw values that make a process win are one interval |
| LotteryDraw.FairShare | xv6_work/proc.c:345-420 | of the states 1 .. N-1 a process wins tickets times bin_size, the holder of number 0 one less |
| LotteryPeriod.FairPeriod | xv6_work/proc.c:345-420 | over one period of the generator, from any seed, a process wins tickets times bin_size of the numbers, the holder of number 0 one less, because state 0 never comes |
| LotteryDraw.Scheduler.Count | xv6_work/proc.c:383-394 | the sum of the tickets of the runnable processes |
| LotteryDraw.Scheduler.Draw | xv6_work/proc.c:398-425 | selects the holder of the number, a runnable process with tickets; nobody exactly for the total |
| LotteryDraw.Scheduler.Schedule | xv6_work/proc.c:373-429 | the process chosen is the holder of the first accepted random number and was runnable, and no other entry changes |
| Pool.StartOk | pool/pool.cc:73-88 | the invariant holds in a new pool |
| PoolProof.StepKeeps | pool/pool.cc:30-148 | every step of every worker and client keeps it |
| PoolProof.RunKeeps | pool/pool.cc:30-148 | so it holds in every interleaving |
| PoolProof.OnceInOrder | pool/pool.cc:30-62 | tasks leave the queue in the order of submission, and each is run and deleted at most once |
| PoolProof.PopQueued | pool/pool.cc:36-44 | the head of the queue already has its map entries when a worker pops it |
| PoolProof.PoppedHasEntry | pool/pool.cc:53-56 | a popped task has its status and condition variable until the worker is done with it |
| PoolProof.WaitReturnsAfterRun | pool/pool.cc:119-130 | WaitForTask returns only after the run and the deletion of its task, and its look-up never fails |
| PoolProof.SignalWakes | pool/pool.cc:54-56 | the signal leaves no client asleep on that task |
| PoolProof.NoLostWakeup | pool/pool.cc:119-130 | while a client sleeps, its task is queued, with a worker, or about to be signalled |
| PoolProof.NoDeadlock | pool/pool.cc:30-148 | the holder of map_lock, or else of queue_lock, can always move; no one waits for queue_lock with map_lock in hand |
| PoolProof.StopIsComplete | pool/pool.cc:132-148 | when the joins are over the queue is empty, every submitted task has been run and deleted, and all workers have left |
| ProcProof.StepKeeps | xv6_work/proc.c:74-570 | every section under ptable.lock keeps the invariant |
| ProcProof.RunKeeps | xv6_work/proc.c:74-570 | so it holds in every interleaving |
| ProcProof.StartOk | xv6_work/proc.c:122-157 | and at the start, with init running |
| ProcProof.ForkKeeps | xv6_work/proc.c:183-230 | each of the five sections of fork keeps it, failures included |
| ProcProof.ExitKeeps | xv6_work/proc.c:258-276 | exit keeps it: children go to init, which is woken for a zombie among them |
| ProcProof.WaitKeeps | xv6_work/proc.c:280-320 | one round of wait keeps it |
| ProcProof.ExitWait | xv6_work/proc.c:235-320 | in every reachable state no process asleep in wait has a zombie child, every parent is neither unused nor a zombie, and no stack or page directory has been given back twice |
| ProcProof.ReapGivesBack | xv6_work/proc.c:295-307 | reaping gives back exactly the stack and directory of the first zombie child, neither given back before |
| ProcProof.ExitWakesParent | xv6_work/proc.c:258-276 | after exit the parent exists, has this zombie child and is not asleep in wait |
| ProcProof.KilledStays | xv6_work/proc.c:552-570 | a killed process stays killed until it is reaped, whatever anybody does |
| ProcProof.KilledNeverWaits | xv6_work/proc.c:280-320 | after a kill, in every run in which the victim is not reaped, its next round of wait ends with a reaped child or -1 and never sleeps |
| ProcProof.BornKilled | xv6_work/proc.c:75-95 | kill(0) finds a free slot and marks it, allocproc leaves the mark, and the next child made in that slot is killed at birth |
| ProcProof.ForkWhole | xv6_work/proc.c:183-230 | the sections of fork one after the other: a runnable child with a new pid, stack and directory in the first free slot, and nobody else is touched |
| ProcProof.OtherSteps | xv6_work/proc.c:373-528 | what sleep, the scheduler, yield and a failing fork change |
| ProcCode.ProcTable.Wakeup1 | xv6_work/proc.c:530-538 | exactly the processes asleep on the channel become runnable |
| ProcCode.ProcTable.Wakeup | xv6_work/proc.c:541-547 | exactly the processes asleep on the channel become runnable, and nothing else changes |
| ProcCode.ProcTable.Alloc | xv6_work/proc.c:74-117 | takes the first unused slot, if any, with the next pid, and changes no other process |
| ProcCode.ProcTable.Exit | xv6_work/proc.c:258-276 | the process becomes a zombie, its children go to init, and exactly the sleepers on its parent, and on init if a child is a zombie, become runnable; nothing else changes |
| ProcCode.ProcTable.PassChildren | xv6_work/proc.c:263-270 | all children go to init, which is woken exactly if one is a zombie |
| ProcCode.ProcTable.Wait | xv6_work/proc.c:280-320 | the pid of the first zombie child, whose slot is cleared with its killed flag and whose stack and directory go back; -1 without children or when killed; or asleep; nobody else is touched |
| ProcCode.ProcTable.Kill | xv6_work/proc.c:552-570 | 0 exactly when the pid exists; the first process with that pid is marked as killed and made runnable if it sleeps, and every other process is the old one |
| Grep.OneLanguage | xv6_new_7/grep.c:84-96 | a literal or dot followed by items, by the first character |
| Grep.StarLanguage | xv6_new_7/grep.c:98-106 | a starred item followed by items, by the number of repetitions |
| Grep.HereOne | xv6_new_7/grep.c:84-96 | matching here a pattern that starts with one character |
| Grep.HereStar | xv6_new_7/grep.c:98-106 | matching here a pattern that starts with a starred one |
| Grep.HereEnd | xv6_new_7/grep.c:84-96 | the final dollar matches only at the end |
| Grep.Match | xv6_new_7/grep.c:72-82 | 1 exactly when some part of the text is in the language of the pattern, anchored as it says |
| Grep.MatchHere | xv6_new_7/grep.c:84-96 | 1 exactly when the language has a prefix of the text here; ends on every input |
| Grep.MatchStar | xv6_new_7/grep.c:98-106 | 1 exactly when some number of repetitions leads to a match of the rest |
| Grep.WordFound | xv6_new_7/grep.c:72-96 | a word of ordinary characters is found exactly where it stands in the text, with ^ only at the beginning |
| Grep.WordAtEnd | xv6_new_7/grep.c:84-96 | with a final $ only at the end |
| Grep.DotFound | xv6_new_7/grep.c:84-96 | a dot between two words stands for any one character |
| Grep.StarFound | xv6_new_7/grep.c:98-106 | c* in front of a word stands for any number of c, .* for any text |
| ShProof.LineBackAgain | xv6_new_7/sh.c:350-452 | parsing a printed command in any context gives that command and stops where it ends |
| ShProof.PrintParse | xv6_new_7/sh.c:333-452 | printing any command tree, of at most 19 words a command, with all its parentheses and parsing that gives the same tree |
| ShProof.LineGood | xv6_new_7/sh.c:350-452 | every tree the parser returns can be printed |
| ShProof.ParserImage | xv6_new_7/sh.c:333-452 | the trees that can be printed are exactly those that some line parses to, and printing such a tree gives an equivalent line |
| ShProof.TokenIs | xv6_new_7/sh.c:271-314 | which token each first character gives, on the characters themselves |
| ShProof.AppendLikeOut | xv6_new_7/sh.c:380-403 | >> in front of any text is read like > |
| ShProof.RedirectionIs | xv6_new_7/sh.c:380-403 | < takes the file for input, > and >> for output |
| ShProof.CommandToFile | xv6_new_7/sh.c:421-452 | words followed by one of these and a file name are that command with that redirection |
| ShProof.PipeWords | xv6_new_7/sh.c:367-378 | a pipe sign takes the simple command on its left and the whole pipeline on its right |
| ShProof.ListAfter | xv6_new_7/sh.c:350-365 | a semicolon takes the whole pipeline on its left and the whole line on its right |
| ShProof.Precedence | xv6_new_7/sh.c:333-378 | pipe signs bind before semicolons: two pipelines with a semicolon between them are a list of two, for all words |
| ShProof.NineteenWords | xv6_new_7/sh.c:421-452 | a command of twenty words or more panics, and up to nineteen are accepted |
| ShProof.BackgroundAndBlock | xv6_new_7/sh.c:350-419 | words followed by & run in the background, and parentheses group |
| ShCode.GetToken | xv6_new_7/sh.c:271-314 | one token and the rest of the line after it; the cursor moves unless the line has ended |
| ShCode.Peek | xv6_new_7/sh.c:316-326 | whether the next character is one of the given ones; only blanks are skipped |
| ShCode.ParseRedirs | xv6_new_7/sh.c:380-403 | the command wrapped in the redirections that follow, or the panic |
| ShCode.ParseExec | xv6_new_7/sh.c:421-452 | the command the grammar reads at the cursor, or its panic; ends on every input |
| ShCode.ParseBlock | xv6_new_7/sh.c:405-419 | the same for a parenthesised block |
| ShCode.ParsePipe | xv6_new_7/sh.c:367-378 | the same for a pipeline |
| ShCode.ParseLine | xv6_new_7/sh.c:350-365 | the same for a line with background and list |
| ShCode.ParseCmd | xv6_new_7/sh.c:333-348 | the tree of the whole line, or the panic on leftovers |

## Left out

- Hardware, assembly, interrupts, TLB flushes, sleeping locks and spin locks as such: a section under a lock is one step.
- Standard I/O, argument parsing, printing, the guesses about files that other tools wrote (`is_inode_extract`,
  `is_block_empty`) and the list of unused blocks: the input file is a byte sequence, the output an appended one.
- Images are zero-filled when made, as inodes/disk_image.c:59 intends (`malloc` alone does not promise it); the number of inode
  blocks is at least 1; file sizes fit an int.
- DiskCommands.Insert: images have at most 0x1fffff blocks; from 0x200000 blocks on the byte offsets of the tool overflow an int.
- DiskCommands.Create: the same bound on the number of blocks.
- DiskSession.Session: the same bound on the number of blocks.
- DiskSession.Extract: extracts the file in a given inode slot, without the scan of the image for inodes.
- The times that `random()` puts into an inode are parameters of the insert and create commands.
- DiskExtract.ReadAny: a block number past the image reads an arbitrary value, because the original reads beyond its buffer there.
- UmallocCode.Allocator.Malloc: the model stops once the size has wrapped around or the process is killed; there are page
  frames for the headers that it writes; the size of the process is a multiple of 8, and the program itself never shrinks it.
- Device files, directories and path names (`dirlookup`, `dirlink`, `namex`), inode allocation and the inode cache;
  the bitmap is a sequence of bits; blocks of the file layer are those that the buffer cache shows, so a block write is
  atomic there.
- FsFile.OpenFile.FileWrite: no other process runs between two chunks, which FsFile.FileWriteShared allows; a panic stops the
  machine, so nothing is said about the state after one.
- FsCrash.WriteChunk: one operation at a time between two quiet states of the log; the device numbers of an inode are 0 on
  disk.
- LogDriver.Log.LogWrite: nothing runs between its two halves; TestSize and Record are the halves on their own.
- VmCode.Kernel.Kfree: frames are pages or tables, and the links of the free list are a sequence instead of words stored in the
  free frames; the junk fill is kept.
- VmPaging.PageFault: after a failed `kalloc` the model stops where the original uses the null result.
- VmRun.Run: there is always a free slot in the process table, and exiting or killed processes keep their frames, because
  nobody waits for them; shrinking with `sbrk`, growing past KERNBASE and user accesses above the size but inside a mapped
  page are not covered.
- `inituvm`, `loaduvm`, `copyout`, `exec`, accessed and dirty bits.
- BioCache.Cache.Bread: only ROOTDEV; who holds a lock is not recorded, so the tests of `holdingsleep` ask whether anybody does.
- LotteryDraw.Scheduler.Schedule: the context switch; the process is left RUNNING.
- Pool and Life: threads are positions in a step system and not methods, because their steps interleave; task names are
  distinct, each task is waited for once, Stop comes after all waits, and wake-ups without a signal may happen.
- ProcProof.StepKeeps: open files and the working directory; `killed` is left as it was in a recycled slot, as in the code;
  fork's own steps between its lock sections are steps of the model but not methods.
- grep's reading of its input in buffers, and the shell's `runcmd`, `nulterminate` and process control.
- The easy parts: user programs, string functions, timing, console and pipe buffers, the C tutorial.
