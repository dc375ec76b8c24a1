# A small AArch64 kernel: log, trees, processes, memory, disk queue

This project models the parts of the kernel in which something can go wrong that a reader does not see in one
function, and proves what they are for:

- **Write-ahead log and block cache** (`Words`, `Disk`, `LogRecovery`, `LogSpace`, `BlockCache`). A crash is a prefix of the
  writes that reached the device. `LogRecovery` is the theory of disk images: commits, recoveries, crashes at any
  point, any number of times. `BlockCache` is `src/fs/cache.c` with its list, header, reservations and eviction,
  proved to perform exactly the writes of that theory and to be transparent.
- **Files** (`Bitmap`, `InodeEntry`, `FreeBlocks`, `FileData`, `FileWrite`, `FileCrash`). Contents of files within
  their direct blocks over the array of blocks that the cache presents (`BlockCache.BlockCache.ReadOut` and
  `Update`), the cutting of a write into operations that fit their log reservation, and what is left of such a write
  when the machine stops at any point of it.
- **Red-black tree** (`RbShape`, `RbInsert`, `RbSearch`, `RbErase`). Heap nodes with parent pointers; a ghost tree
  with a context around the node in focus says what memory holds.
- **Semaphores, scheduler, exit and wait** (`Scheduler`, `Kernel`, `KernelInvariant`, `KernelSteps`, `KernelWait`,
  `KernelPost`, `KernelExit`, `KernelRuns`, `KernelTheorems`, `KernelCounts`, `KernelFairness`, `KernelScenario`, `Semaphore`). One transition system
  for any number of processes on any number of CPUs. A step is what a process does between two points where
  another CPU can get in; locks held at such a point are part of the state. The invariant holds in every state of
  every run, and the theorems are read off it; `KernelScenario` plays one run through.
- **Memory** (`Kalloc`, `Frames`, `PageTable`, `Paging`, `SpaceTables`, `HeapSize`, `AddressSpace`). The block
  allocator as a tiling of pages. Four-level page tables as words in the same memory as everything else, shown to be
  a map from pages to entries; reference counts of pages, lazy allocation, copy on write, sbrk and the end of an
  address space over that memory, with page tables and pages on one free stack.
- **Disk queue** (`Virtio`) and **lists** (`List`). `Basics` holds what several modules share.

A result of `None`, `false` or a value named after the failure stands for a path on which the kernel stops: a
failed `ASSERT`, or `PANIC`. The contracts say exactly when it is taken.

Where code and comments disagree the model follows the code. `memset(header.block_no, 0, LOG_MAX_SIZE)` at the end
of recovery clears 63 bytes, not 63 entries (`LogRecovery.ClearedHeader`). `sbrk` counts pages although its comment
speaks of bytes; it can give up 2^19 of them at a time, because the loop multiplies 32-bit numbers, and its ASSERT
is fooled from 2^52 on (`HeapSize.ShrinkExact`, `HeapSize.GuardExact`). `cache_end_op` drops the log lock inside its second loop although one lock is said to cover the
cache; `LogRecovery.LateJoinerIsTorn` shows what that would cost. `kalloc` takes any size but serves exactly those
up to 4072 (`Kalloc.SizesServed`). The scheduler never picks a process again that it has picked 1000000 times
(`KernelFairness.NeverPicked`).

`dafny verify dfyconfig.toml` checks everything.

## Model

| member | source | states |
|---|---|---|
| Words.DecodeEncode | src/fs/defines.h:70-73 | the log header, an overlay of 64-bit little-endian words on a block, reads back as it was written |
| Words.PutBitReads | src/common/bitmap.h:27-45 | setting or clearing bit k of a cell changes bit k and no other |
| Words.PutBitFits | src/common/bitmap.h:27-45 | a cell stays within its width |
| Bitmap.SetBitReads | src/common/bitmap.h:27-45 | over the whole bitmap block: one bit changes, every other reads as before |
| Disk.MkfsSuperBlock | src/user/mkfs/main.c:35-44 | the layout mkfs writes is one in which the log area ends where the inodes begin |
| LogRecovery.CommitIsAtomic | src/fs/cache.c:179-205 | after any prefix of the writes of a commit, recovery presents all old or all new contents of the group, decided by the header write |
| LogRecovery.CommitCompletes | src/fs/cache.c:189-203 | a finished commit has the group at home and an empty header on disk |
| LogRecovery.RecoveryIsIdempotent | src/fs/cache.c:216-221 | a recovery that stops after any of its writes leaves a disk that recovers to the same file system |
| LogRecovery.RecoveryCompletes | src/fs/cache.c:208-222 | a finished recovery has put that file system on the home blocks and emptied the header |
| LogRecovery.RepeatedCrashes | src/fs/cache.c:208-222 | any number of interrupted recoveries in a row, then a complete one, give what the first would have given; only the first disk is assumed to be readable |
| LogRecovery.HistoryIsAtomic | src/fs/cache.c:179-222 | for a crash anywhere in any sequence of commits, exactly the first m groups are there, and m counts every commit that had finished |
| LogRecovery.HistoryThenRecovery | src/fs/cache.c:179-222 | the same through any number of interrupted recoveries, down to the home blocks: exactly the commits whose header was written |
| LogRecovery.FinishedCommitSurvives | src/fs/cache.c:179-205 | a commit whose writes had all reached the disk is among them |
| LogRecovery.LateJoinerIsTorn | src/fs/cache.c:193-200 | if an operation could join a commit in its second loop, a crash could keep one of its blocks and lose the other |
| BlockCache.BlockCache.Init | src/fs/cache.c:208-222 | the device sees exactly the recovery writes; the result is a valid empty-handed cache over the recovered file system |
| BlockCache.BlockCache.ManageBlockNum | src/fs/cache.c:58-73 | only idle blocks are evicted, from the least recently used end, and the list ends below the threshold or all busy |
| BlockCache.BlockCache.Find | src/fs/cache.c:84-91 | the index of the entry for the block, or none if there is no entry |
| BlockCache.BlockCache.Acquire | src/fs/cache.c:80-119 | the caller gets the contents last synced, or else those on disk; after a miss at most 20 blocks are cached unless all the others are busy |
| BlockCache.BlockCache.Release | src/fs/cache.c:124-129 | a client that has synced its changes leaves cache and disk in agreement |
| BlockCache.BlockCache.BeginOp | src/fs/cache.c:136-147 | admission exactly when the log has room for one more full reservation |
| BlockCache.BudgetBegin | src/fs/cache.c:136-147 | header count plus open reservations stays within 62 when an operation is admitted |
| BlockCache.BudgetSpend | src/fs/cache.c:160-164 | and when a block is logged, so the log-full test never fires |
| BlockCache.BudgetEnd | src/fs/cache.c:181-188 | and when an operation ends |
| BlockCache.BlockCache.IsLogged | src/fs/cache.c:156-159 | whether the header lists the block |
| BlockCache.BlockCache.AppendLog | src/fs/cache.c:160-164 | a new block goes to the end of the header; the kernel panics exactly when the operation has nothing left |
| BlockCache.BlockCache.Sync | src/fs/cache.c:152-166 | the contents of the held block become the synced ones, the block is pinned, one reservation unit is used if it is new to the log |
| BlockCache.BlockCache.ReadOut | src/fs/cache.c:80-129 | acquire and release read the array of synced blocks, whatever has been evicted |
| BlockCache.BlockCache.Update | src/fs/cache.c:80-166 | acquire, write, sync and release change one element of that array and no other |
| BlockCache.BlockCache.CopyBlock | src/fs/cache.c:168-174 | one device write, of the synced contents of the one block to the other |
| BlockCache.BlockCache.CopySlots | src/fs/cache.c:189-191 | exactly the slot writes of the commit |
| BlockCache.BlockCache.SlotPlaces | src/fs/cache.c:189-191 | slots stay inside the log area and apart from every home block |
| BlockCache.BlockCache.InstallHomes | src/fs/cache.c:193-200 | exactly the home writes of the commit; nothing is dirty afterwards |
| BlockCache.BlockCache.Commit | src/fs/cache.c:189-202 | slots, header, homes, empty header, in this order, and nothing else |
| BlockCache.BlockCache.PendingInstalls | src/fs/cache.c:189-201 | the group of a commit takes the home blocks from what is on disk to exactly what is synced |
| BlockCache.BlockCache.EndOp | src/fs/cache.c:179-205 | the last operation makes everything synced durable, atomically; any other leaves device and cache alone |
| InodeEntry.DecodeEncode | src/fs/defines.h:49-57 | an inode read back from disk is the one written |
| InodeEntry.PutEntryReads | src/fs/inode.c:45-52 | writing one of the eight inodes of a block leaves the other seven alone |
| FileData.ClearIsFree | src/fs/cache.c:226-231 | a block whose bit is clear belongs to no file and to no metadata |
| FileData.AllocatedOk | src/fs/cache.c:226-240 | allocation keeps every file and every inode |
| FileData.Files.Alloc | src/fs/cache.c:226-245 | the block returned had its bit clear, is marked and zeroed; failure only when every bit is set |
| FileData.SyncedOk | src/fs/inode.c:118-126 | inode_sync brings the changed inode to disk and no other |
| FileData.Files.InodeMap | src/fs/inode.c:238-249 | an existing block is returned as is; a new one belonged to nobody; no two files share a block |
| FileData.ProgressEnd | src/fs/inode.c:309-333 | once all pieces are written the contents are the old ones with the range replaced |
| FileData.Files.InodeWrite | src/fs/inode.c:297-334 | exactly the bytes from offset on are replaced and the length becomes the larger of old and end; all other files keep their contents; failure exactly for an offset past the end, or when fewer blocks are free than the range needs |
| FileData.Files.InodeRead | src/fs/inode.c:270-291 | the bytes of the file from offset on, cut at its end; failure exactly for an offset past the end, or a 64-bit sum of offset and count that wraps round into the file |
| FreeBlocks.EnoughSplit | src/fs/inode.c:317-332 | whether the disk has room for a whole range can be told from any point of its writing on |
| FreeBlocks.SpentOne | src/fs/inode.c:242-246 | a file block without a disk block costs exactly one free block |
| FileWrite.FourBlocks | src/fs/file.h:13 | a chunk of at most 1536 bytes touches at most four file blocks, aligned or not |
| FileWrite.SevenBlocks | src/fs/file.c:113-121 | inode, bitmap, indirect block and four data blocks are at most seven blocks |
| FileWrite.Transfer.Sync | src/fs/cache.c:152-166 | the accounting of `BlockCache.BlockCache.Sync`: it can only panic if the operation has synced ten different blocks |
| FileWrite.Transfer.InodeMap | src/fs/inode.c:238-264 | direct or indirect, only the bitmap, the inode, the indirect block and the block itself are synced |
| FileWrite.Transfer.InodeWrite | src/fs/inode.c:297-334 | at most seven blocks are synced, so the reservation never runs out; exactly the blocks of the range get disk blocks |
| FileWrite.Transfer.FileWrite | src/fs/file.c:109-134 | min(n, room in the file) bytes are written whatever the offset, and the loop ends |
| FileCrash.TracePrefix | src/fs/file.c:119-133 | after every operation of a write the file is the old one with the part replaced that is written so far |
| FileCrash.WriteFile | src/fs/file.c:109-134 | the write of many operations replaces exactly the range and leaves other files alone; it runs out of space exactly when fewer blocks are free than the whole range needs |
| FileCrash.SameHomes | src/fs/inode.c:127-133 | files and inodes read from a disk are those of any other with the same home blocks |
| FileCrash.CrashedRun | src/fs/cache.c:179-222 | the disk after a crash recovers to the sound file system of the last commit that survives, and no finished commit is lost |
| FileCrash.CrashedWrite | src/fs/file.c:119-133 | in it the file holds its old contents with a whole number of chunks written, whatever other operations took part |
| RbInsert.RotationOrder | src/common/rbtree.c:42-49 | a rotation keeps the order of the nodes |
| RbInsert.RotateInsert | src/common/rbtree.c:72-89 | cases 2 and 3, on either side, leave memory holding the rotated tree |
| RbInsert.RotatedGood | src/common/rbtree.c:72-89 | the rotated subtree has the black height it had and no red-red edge |
| RbInsert.RecolorGood | src/common/rbtree.c:64-71 | case 1 moves the only possible red-red edge two levels up |
| RbInsert.InsertFix | src/common/rbtree.c:50-120 | from a tree with at most one red-red edge to a red-black tree with the same nodes in the same order |
| RbSearch.Insert | src/common/rbtree.c:262-287 | a new key is added at its place in the order and nothing else changes; an equal key gives -1 and the tree as it was |
| RbSearch.Lookup | src/common/rbtree.c:295-308 | the node with the key, or null exactly when there is none, in at most as many steps as the tree is high |
| RbSearch.First | src/common/rbtree.c:309-317 | the first node in order, null exactly for the empty tree |
| RbSearch.HeightBound | src/common/rbtree.c:295-308 | a tree of n nodes is at most 2 log2(n+1) high |
| RbErase.SiblingExists | src/common/rbtree.c:176-179 | the sibling that the fix-up dereferences is never null |
| RbErase.LoweredGood | src/common/rbtree.c:179-185 | case 1 gives the short subtree a black sibling and a red parent |
| RbErase.ReddenedGood | src/common/rbtree.c:189-200 | case 2 moves the shortage one level up, or ends it at a red parent |
| RbErase.BalancedGood | src/common/rbtree.c:201-217 | cases 3 and 4 make up for the missing black node |
| RbErase.EraseFix | src/common/rbtree.c:173-261 | from a tree one black node short in one place to a red-black tree with the same nodes in the same order; it ends because it climbs |
| RbErase.SuccessorGood | src/common/rbtree.c:140-170 | black heights when the successor takes the place and the colour of the node |
| RbErase.Erase | src/common/rbtree.c:121-294 | exactly the given node leaves the order; the rest is a red-black tree with consistent parent pointers again |
| RbErase.RemovalKeepsOrder | src/common/rbtree.c:288-294 | what is sorted by any strict order stays sorted without one node |
| Scheduler.PickIsPick | src/kernel/sched.c:107-126 | the first RUNNABLE process of least load below 1000000; none exactly if there is none |
| Scheduler.PickNext | src/kernel/sched.c:107-126 | the scan with a running minimum finds that process |
| Scheduler.TurnDrops | src/kernel/sched.c:107-126 | while a process stays RUNNABLE idle is not picked, and every pick of another uses up one unit of its allowance |
| Scheduler.BoundedBypass | src/kernel/sched.c:71-126 | whatever the order of the run queue at each turn, it is picked after at most the sum over the others of max(0, L+1-load) other picks |
| KernelSteps.ActivateSched | src/kernel/sched.c:71-91 | waking a process keeps run queue, states and CPUs in agreement |
| KernelSteps.SwitchSched | src/kernel/sched.c:141-158 | so does a switch; the process picked is RUNNABLE, as the ASSERT demands |
| KernelWait.WaitFastKeeps | src/common/sem.c:50-54 | taking a token at once keeps the invariant; a childexit token is then in the hand of the parent |
| KernelWait.WaitSlowKeeps | src/common/sem.c:55-58 | joining the sleep list keeps it |
| KernelWait.HandOverKeeps | src/common/sem.c:59-61 | taking the sched lock before dropping the semaphore keeps it |
| KernelWait.SleepKeeps | src/common/sem.c:62 | going to sleep keeps it, or not going, for a killed process |
| KernelWait.WakeUpKeeps | src/common/sem.c:64-73 | coming back with or without a token keeps it; a cancelled wait leaves the list |
| KernelWait.YieldKeeps | src/kernel/sched.c:141-158 | giving up the CPU keeps it |
| KernelPost.PostFindsWaiter | src/common/sem.c:76-77 | a negative value means that somebody else is on the sleep list: the ASSERT holds |
| KernelPost.PostFastKeeps | src/common/sem.c:75-83 | a post with nobody waiting keeps the invariant; for an exit parent and zombie count go up together |
| KernelPost.PostTakeKeeps | src/common/sem.c:76-80 | granting a token to the longest waiting process keeps it |
| KernelPost.PostWakeKeeps | src/common/sem.c:81 | activating that process keeps it and leaves no process both up and asleep |
| KernelPost.GetKeeps | src/common/sem.c:18-25 | taking a token without waiting keeps the invariant |
| KernelPost.GetAllKeeps | src/common/sem.c:29-38 | so does taking all there are |
| KernelPost.PostAllBeginKeeps | src/common/sem.c:40-43 | so does locking the semaphore for post_all_sem, which keeps it over all its rounds |
| KernelPost.PostAllEndKeeps | src/common/sem.c:43-46 | so does the last round, whose token is taken back |
| KernelPost.KillFlagKeeps | src/kernel/proc.c:186-196 | setting the killed flag keeps it |
| KernelPost.KillAlertKeeps | src/kernel/proc.c:196-199 | alerting keeps it; an unalertable sleeper stays asleep and queued |
| KernelExit.ForkKeeps | src/kernel/proc.c:52-65 | a new child has no children and its parent no token for it |
| KernelExit.BeginStartKeeps | src/kernel/proc.c:68-70 | taking the process lock to start a child keeps the invariant |
| KernelExit.OrphanKeeps | src/kernel/proc.c:72-75 | a process started without a parent becomes a child of root |
| KernelExit.StartKeeps | src/kernel/proc.c:80-84 | the first activation keeps it |
| KernelExit.CollectKeeps | src/kernel/proc.c:96-98 | taking the process lock with a token in hand keeps it |
| KernelExit.ReapKeeps | src/kernel/proc.c:98-117 | reaping uses up one token and one zombie |
| KernelExit.HandChildKeeps | src/kernel/proc.c:130-139 | handing a child to root keeps the count: a zombie comes with a token still to be sent |
| KernelExit.ExitLeftKeeps | src/kernel/proc.c:140-160 | a process that has handed over its children has none |
| KernelExit.TellKeeps | src/kernel/proc.c:163 | taking the process lock again to tell the parent keeps it |
| KernelExit.DieKeeps | src/kernel/proc.c:164-170 | becoming a ZOMBIE keeps it |
| KernelRuns.NothingGoesWrong | src/kernel/sched.c:143-150 | in a state of the invariant no ASSERT of sem.c and sched.c fails, and no wait with a token comes back without a child |
| KernelRuns.TokenFindsZombie | src/kernel/proc.c:86-118 | a token in hand means a ZOMBIE child once both locks are held |
| KernelRuns.StepKeeps | src/kernel/sched.c:71-158 | every step of every process keeps the invariant |
| KernelRuns.RunsKeepFrom | src/kernel/proc.c:18-25 | from any state with the invariant on, in every interleaving, nothing goes wrong and the invariant holds |
| KernelRuns.RunsKeep | src/kernel/proc.c:18-25 | from boot, in every interleaving, nothing goes wrong and the invariant holds |
| KernelTheorems.SchedulerInvariant | src/kernel/sched.c:71-158 | in every run: on rq once iff RUNNABLE or RUNNING, RUNNING iff current on exactly one CPU, idle RUNNABLE iff not current |
| KernelTheorems.NoLostWakeup | src/common/sem.c:50-83 | in every run: a sleeper is queued once and not up while its semaphore is unlocked; one that is up is about to be activated |
| KernelTheorems.ExitTokens | src/kernel/proc.c:121-172 | in every run: unused, granted and pending childexit tokens are as many as children that have gone |
| KernelTheorems.WaitFindsZombie | src/kernel/proc.c:86-118 | in every run a wait that obtained a token finds a ZOMBIE child |
| KernelTheorems.NoLockDeadlock | src/kernel/proc.c:121-172 | in every run, also while a process holds one lock and waits for the next, some holder can go on |
| KernelTheorems.NoOvertaking | src/common/sem.c:75-83 | no step grants a token to a process while one that has waited longer is on the list, or changes their order |
| KernelCounts.SemaphoreConservation | src/common/sem.c:50-83 | in every run of waits, posts, _get_sem, get_all_sem and post_all_sem: initial value plus posts equals tokens obtained, tokens in flight and what is left; a negative value counts the sleepers; cancelling loses nothing |
| KernelCounts.ReapedOnce | src/kernel/proc.c:97-117 | in every run each child is reaped at most once |
| KernelCounts.EarlyDropLosesWakeup | src/common/sem.c:59-62 | dropping the semaphore before taking the sched lock would let a process sleep with its token and nobody to wake it |
| KernelFairness.CallTurns | src/kernel/sched.c:141-151 | a call of sched is a turn of the scheduler with every RUNNABLE process on the run queue |
| KernelFairness.EventLoads | src/kernel/sched.c:107-158 | in every step the load of the process picked goes up by one and no other load changes; a RUNNABLE process stays one until it is picked |
| KernelFairness.BypassBounded | src/kernel/sched.c:71-158 | in every run, while a process of load L below 1000000 is RUNNABLE, sched picks at most the sum over the others of max(0, L+1-load) times, and L+1 times more per process created |
| KernelFairness.NeverPicked | src/kernel/sched.c:111-119 | the limit is exact: a RUNNABLE process whose load has reached 1000000 is never run again, in any run |
| KernelFairness.LoadWithinLimit | src/kernel/sched.c:120-121 | no load passes 1000000 in any run, so that the 32-bit counter does not overflow |
| KernelScenario.ChildIsReaped | src/kernel/proc.c:86-172 | such runs exist: a parent sleeps in wait, its child exits and wakes it, and the child is reaped |
| Semaphore.Semaphore.Join | src/common/sem.c:50-58 | a token at once, or the front of the sleep list |
| Semaphore.Semaphore.Post | src/common/sem.c:75-83 | the longest waiting process, if any, is activated and leaves the list |
| Semaphore.Semaphore.GetAll | src/common/sem.c:29-38 | every unused token is taken, none is made up |
| Semaphore.Semaphore.PostAll | src/common/sem.c:40-48 | it ends, activates everybody who waits in order of arrival, returns their number and adds no token |
| Kalloc.SizesServed | src/kernel/mem.c:76-88 | sizes up to 4072, and no others of 64 bits, get a block that is large enough and whose header kfree can use; 4073 to 4088 get header 256, outside the table |
| Kalloc.TiledExactly | src/kernel/mem.c:76-116 | every 16 bytes of a page taken are in exactly one block, free or live |
| Kalloc.CarveTiled | src/kernel/mem.c:89-100 | splitting a free block keeps the tiling |
| Kalloc.TakePageTiled | src/kernel/mem.c:101-108 | a new page keeps the tiling |
| Kalloc.RelistOk | src/kernel/mem.c:89-100 | list i goes on holding exactly the free blocks of i+1 granules |
| Kalloc.Allocator.FirstFit | src/kernel/mem.c:89-90 | the first list from number-1 on that is not empty |
| Kalloc.Allocator.Provide | src/kernel/mem.c:89-103 | a list with a large enough block, if need be from a new page; live blocks stay as they are |
| Kalloc.Allocator.Kalloc | src/kernel/mem.c:76-109 | a payload of at least size bytes at 8 mod 16 in a block that was not live; live blocks stay as they are; failure exactly without a page and a fitting block |
| Kalloc.Allocator.Kfree | src/kernel/mem.c:111-116 | exactly the block of a live pointer becomes free, whole, on the list of its size |
| PageTable.MasksAreDigits | src/aarch64/mmu.h:66-75 | the masks and shifts are quotients and remainders |
| PageTable.SameParts | src/aarch64/mmu.h:72-75 | four indices agree exactly when the 36-bit page numbers do |
| PageTable.SameSlot | src/kernel/pt.c:14-55 | two addresses have the same entry exactly when their page numbers agree |
| PageTable.EntryOfTable | src/aarch64/mmu.h:50-68 | a table entry is valid and leads to its table |
| PageTable.GrowTree | src/kernel/pt.c:28-53 | adding a table keeps the tables a tree in which no table is reached twice |
| PageTable.GrowLookup | src/kernel/pt.c:28-53 | and changes no translation |
| PageTable.PgDir.GetPte | src/kernel/pt.c:14-55 | the slot of the address; no translation, no other table and no other page changes; a new entry is zero; without alloc nothing changes and null means no table |
| PageTable.FreeOne | src/kernel/mem.c:63-74 | a table, which is not counted, goes back to the stack at once |
| PageTable.PgDir.FreePgdir | src/kernel/pt.c:66-91 | every table goes back to the free stack exactly once, nothing else does, and no freed table is read |
| Paging.TakenOk | src/kernel/mem.c:53-61 | a page off the stack is mapped nowhere |
| Paging.DroppedOk | src/kernel/mem.c:63-74 | dropping the reference of one entry keeps counts equal to mappings; a page is freed only when nothing maps it, and what others read stays |
| Paging.MappedOk | src/kernel/pt.c:105-116 | mapping into an empty slot keeps counts equal to mappings |
| Paging.TablesGrown | src/kernel/pt.c:14-55 | the pages that get_pte takes for tables disturb no count and no byte that can be read |
| Paging.TablesFreed | src/kernel/pt.c:66-91 | neither do the tables that free_pgdir gives back |
| Paging.LazyOk | src/kernel/paging.c:135-138 | the lazy case keeps the counts, and a writable page is mapped once |
| Paging.CowOk | src/kernel/paging.c:139-146 | the copy-on-write case keeps the counts; no address space reads a different byte; the copy is private |
| Paging.WritesArePrivate | src/kernel/paging.c:139-146 | a write through a writable entry is seen through no other, and never reaches the zero page |
| Paging.NeverFreed | src/kernel/mem.c:35-46 | mapped pages and the zero page are never on the free stack; a count of one means one mapping |
| SpaceTables.LeafRoundTrip | src/aarch64/mmu.h:27-43 | the word that vmmap writes is valid and gives back page and PTE_RO |
| SpaceTables.ExtendsTrees | src/kernel/pt.c:14-55 | get_pte in one space leaves all trees apart and every table owned by one space |
| SpaceTables.ExtendsRep | src/kernel/pt.c:14-55 | and the tables of all spaces the map they were |
| SpaceTables.WithWordRep | src/kernel/pt.c:108-110 | storing a word through a slot changes the map at that one page of that one space |
| SpaceTables.FreedRep | src/kernel/pt.c:66-91 | freeing the tables of one space leaves the map of all others |
| SpaceTables.NewRep | src/kernel/pt.c:57-64 | a new space maps nothing |
| HeapSize.GuardExact | src/kernel/paging.c:94 | the ASSERT means that the heap is large enough exactly below 2^52 pages, or where the wrapped product is too large as well |
| HeapSize.GuardWraps | src/kernel/paging.c:94 | any heap passes it for 2^52 pages |
| HeapSize.ShrinkExact | src/kernel/paging.c:97-98 | the loop looks up exactly the pages given up if and only if there are at most 2^19 |
| HeapSize.NeverVisited | src/kernel/paging.c:97-98 | beyond that the page after the first 2^19 is never looked up |
| AddressSpace.WriteKeeps | src/kernel/pt.c:105-116 | storing an entry keeps tables, map and counts together |
| AddressSpace.Vm.NewSpace | src/kernel/pt.c:57-64 | init_pgdir adds an empty space and changes nothing else |
| AddressSpace.Vm.MapPage | src/kernel/pt.c:105-116 | vmmap into an empty slot keeps the invariant of all address spaces and their tables |
| AddressSpace.Vm.PgFault | src/kernel/paging.c:111-153 | fails exactly outside every section; otherwise the page is writable, only its entry changed, and everything readable reads the same, through the tables in memory |
| AddressSpace.Vm.Sbrk | src/kernel/paging.c:75-109 | for every 64-bit size: fails exactly if the wrapped product exceeds the first heap section; counts equal mappings whatever happens; for up to 2^19 pages exactly those given up are unmapped, and it fails exactly if the heap is smaller; returns the old end |
| AddressSpace.Vm.FreeSections | src/kernel/paging.c:50-73 | every page mapped in the space loses exactly one reference |
| AddressSpace.Vm.FreeSpace | src/kernel/pt.c:66-91 | the space is gone, its tables are on the stack exactly once, counts still equal mappings, and all others read as before |
| Virtio.SubmitOk | src/driver/virtio_blk.c:59-79 | taking three descriptors keeps free list and requests a partition of the sixteen |
| Virtio.ReleaseOk | src/driver/virtio_blk.c:34-44 | so does giving a chain back; the tail of the free list stays its end |
| Virtio.AtMostFive | src/driver/virtio_blk.c:25-32 | five requests fit, and then one descriptor is left |
| Virtio.IndexWraps | src/driver/virtio_blk.c:81-82 | ring positions taken from 16-bit indices are right across wrap-around |
| Virtio.IndicesDiffer | src/driver/virtio_blk.c:111 | the loop test on 16-bit indices compares the true counts |
| Virtio.Virtq.constructor | src/driver/virtio_blk.c:18-23 | desc_init chains all sixteen descriptors |
| Virtio.Virtq.Fill | src/driver/virtio_blk.c:59-79 | header, data and status descriptors of the request, chained; fails exactly with one descriptor left |
| Virtio.Virtq.Rw | src/driver/virtio_blk.c:46-88 | the request is in the avail ring; it panics exactly when five are in flight |
| Virtio.Virtq.Intr | src/driver/virtio_blk.c:105-125 | with the device at work during the loop: every request that gets into the used ring has its sleeper woken once, in order of completion |
| Virtio.Virtq.FreeDesc | src/driver/virtio_blk.c:34-44 | the whole chain and nothing else joins the free list |
| Virtio.Virtq.Finish | src/driver/virtio_blk.c:97-102 | the request is over and its descriptors are free |
| List.Rotate | src/common/list.h:6-9 | where a circle begins does not matter |
| List.Splice | src/common/list.c:9-34 | two circles become one, the second right behind node1 |
| List.Merge | src/common/list.c:9-34 | the same, with either list missing |
| List.Insert | src/common/list.h:20-21 | a single node goes in behind list |
| List.Detach | src/common/list.c:36-47 | node is alone, the rest closes up, and the result is its old neighbour or null |
| List.Queue.Front | src/common/list.c:112-117 | the first item, null exactly for an empty queue |
| List.Queue.Push | src/common/list.c:88-98 | the item joins at the end |
| List.Queue.Pop | src/common/list.c:99-111 | the first item leaves; panics exactly on an empty queue |

## Left out

- BlockCache.BlockCache.Acquire: one user per block and one step; the source drops its lock while waiting for the block, and `acquired` is a plain flag there.
- BlockCache.BlockCache.EndOp: the committing branch is not interleaved with begin_op or sync, although the lock is dropped in its second loop; `LogRecovery.LateJoinerIsTorn` shows that this is needed. The last operation finds no block held that the commit has to copy.
- BlockCache.BlockCache.CopyBlock: as it is called from commit and recovery, with neither block held by a client.
- BlockCache.BlockCache.BeginOp: one test of the waiting loop; sleeping on log_sem is not modelled.
- BlockCache.BlockCache.Release: clients sync what they change before they release, as the callers do; the log header block is exempt from transparency, because write_header goes past the cache.
- BlockCache.BlockCache.Sync: a null context, which goes past the log by design.
- FileData.Files.InodeWrite: contents within the 12 direct blocks; entries of the indirect block are changed after release and not synced, so only their number is counted, in `FileWrite`.
- FileData.Files.InodeRead: files within the 12 direct blocks, for the same reason.
- inode_clear, inode_alloc, inode_get and inode_put, directories, path names and file tables.
- RbErase.Erase: the parent of the child that fills the place of a deep successor is set when it is linked, a few statements earlier than in the source; colour and parent are two fields, not one word.
- KernelPost.KillFlagKeeps: kill finds and flags its process in one step; the source drops the process lock in between, so that the process may be reaped and its memory freed before it is flagged.
- KernelExit.ReapKeeps: `children` lists are the parent pointers of the children, so which of several zombies is reaped is left open.
- KernelExit.DieKeeps: file_close and free_pgdir inside exit are left out.
- KernelRuns.RunsKeep: interrupt handlers do not post; a post to a childexit comes from exit only, and only the owner waits on it; _get_sem, get_all_sem and post_all_sem are used on other semaphores.
- That an unalertable wait succeeds is not claimed: sched returns at once for a killed process.
- Scheduler.BoundedBypass: no process comes or goes during the turns; `KernelFairness.BypassBounded` is without this limit.
- FileCrash.CrashedWrite: the other operations between those of the write leave the file alone; file_write does not hold the inode between its operations.
- FileCrash.WriteFile: within the 12 direct blocks, as `FileData.Files.InodeWrite`; the blocks are those that the cache presents, as in `FileData`.
- Kalloc.Allocator.Kalloc: sizes up to 4072, the exact range by `Kalloc.SizesServed`; the links inside free blocks are a stack, and push and pop are atomic.
- PageTable.PgDir.GetPte: needs four free pages unless the slot is there; running out of pages is a crash in the source.
- PageTable.PgDir.FreePgdir: the three nested loops are one method that calls itself, one level per loop.
- AddressSpace.Vm.PgFault: needs five free pages; entries that are neither zero nor valid, which only swapping makes, do not occur.
- AddressSpace.Vm.MapPage: a page that is mapped for writing is mapped once; shared writable mappings, which only mmap makes, do not occur.
- AddressSpace.Vm.Sbrk: growing must keep the sections apart and below 2^48, which the source does not test. The overflow of the 32-bit product in the loop, undefined in C, is taken to wrap round, and the loop counter, which overflows beyond 2^31 pages, is not.
- get_page_ref, mmap, munmap, swap, the kernel image pages of the first process, copyout and fork's copying.
- Virtio.Virtq.Rw: a wait that is cancelled by an alert panics in the source and is not modelled; the status byte is taken to be 0.
- Weak memory, the spinlocks themselves, and the lock-free stack behind the page queue.
- pipe.c, console.c, boot code, devices, ELF loading, user programs.
