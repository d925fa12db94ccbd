# Verified models of xv6

This project models the hard cores of xv6 for RISC-V (with signals and binary
semaphores) in Dafny and proves what they promise: over every input, every run
and every crash point.

| core | files |
|---|---|
| Redo log over an LRU buffer cache | `Blocks`, `BufferCache`, `Bcache`, `CrashLog`, `Log`, `CommitRun`, `LogAdmission`, `LogSleepers`, `LogRun` |
| Block allocator, block maps, file contents | `Bitmap`, `Inodes`, `BlockCount`, `FileSystem` |
| Sv39 page tables and the page allocator | `PageTables`, `VmEffects`, `VirtualMemory`, `AddressSpaces` |
| User-level malloc and free | `HeapRing`, `Umalloc` |
| sleep, wakeup, sleep-locks, binary semaphores | `Sleepers` |
| fork, exit, wait | `ProcessLife` |
| Virtio disk queue | `Wrapping`, `Virtqueue`, `VirtioDisk` |
| Pipes | `Wrapping`, `Pipe` |
| Shell parser | `ShellGrammar`, `Shell`, `ShellPrint` |
| Regular expressions of grep | `Grep` |

Code that updates things in place is a class whose methods follow the source's
loops and are proved against functions and invariants on values. Protocols
between processes are state machines whose steps are the stretches between
lock operations, and between a driver and a device the single stores to shared
memory; their theorems speak about all runs from boot. Each class or
state machine comes with an invariant that states what the data mean: which
inode and slot owns a block, at which place of which page table a page is,
which free or live block covers a unit of heap, which process a pending wakeup
will still reach.

Six properties that one might expect turn out to hold only under a condition,
and the exact condition is proved:

- "too big a transaction" is unreachable for operations that have added fewer
  than MAXOPBLOCKS blocks if and only if the log has LOGSIZE blocks beside its
  header (`kernel/log.c:220-221`). mkfs makes a log of LOGSIZE blocks in all
  (`mkfs/mkfs.c:25`), which is one short. In every log, writing a listed block
  again panics exactly while the log is full, since the test for room comes
  before the search (`kernel/log.c:220-229`).
- A commit with nobody at a buffer finishes if and only if it lists fewer than NBUF
  blocks (`kernel/log.c:179-191`): every listed block is pinned, and at NBUF
  there is no buffer left for the log's own blocks (`kernel/bio.c:75-88`). A log
  with LOGSIZE blocks beside its header, the size that the first condition asks
  for, admits such a group; mkfs's log does not.
- malloc asks sbrk for enough memory if and only if the request is at most
  2^31 - 32 bytes, because sbrk takes a signed int (`user/umalloc.c:47-54`).
- No process sleeps on an unlocked semaphore that nothing will wake if and only
  if no bsem_free and no bsem_alloc clears the slot of a sleeper without a wakeup
  on its way (`kernel/proc.c:839-867`). bsem_alloc can do so because
  `bsem_down(0)` locks unused slots (`kernel/sysproc.c:163-182`).
- At most one process holds a semaphore if and only if no bsem_up, bsem_free or
  bsem_alloc clears the one that another holds (`kernel/proc.c:839-897`).
- pipewrite leaves no reader asleep over bytes if and only if it does not see a
  kill after it has put bytes in, because that return skips the wakeup
  (`kernel/pipe.c:84-87`).

`dafny verify dfyconfig.toml` checks the whole project.

## Model

| member | source | states |
|---|---|---|
| BufferCache.BootInv | kernel/bio.c:37-53 | The cache that binit makes satisfies the invariant: list of all buffers in stamp order, no block twice, counts right. |
| BufferCache.GetKeepsInv | kernel/bio.c:59-89 | bget, on a hit or by recycling, keeps the invariant. |
| BufferCache.RecycleKeepsInv | kernel/bio.c:77-87 | Recycling an unused buffer keeps the invariant; the block it drops is not in the log, and the buffer is then the only one for the new block. |
| BufferCache.RecyclesLeastRecent | kernel/bio.c:75-87 | The recycled buffer is, of all with no references, the one nearest the end of the list. |
| BufferCache.RecyclesEarliestReleased | kernel/bio.c:75-87 | Over every run since boot: the recycled buffer is, of all with no references, the one whose last reference was given up earliest, as the history of releases tells; of those never released, the lowest numbered. |
| BufferCache.PutMovesToFront | kernel/bio.c:123-134 | Dropping the last reference moves the buffer to the front of the list; dropping another leaves the list alone. |
| BufferCache.BufferLeft | kernel/bio.c:75-88 | While logged blocks and blocks held are fewer than NBUF, bget finds a buffer. |
| BufferCache.NoBufferLeft | kernel/bio.c:75-88 | With NBUF blocks in the log, bget of any other block panics. |
| BufferCache.BreadSeesView | kernel/bio.c:93-103 | bread ends with the buffer locked and holding the latest logged contents of the block, or else what the disk holds. |
| BufferCache.LogWriteKeepsInv | kernel/log.c:215-235 | log_write keeps the invariant; the block has exactly one pin however often it is logged, and readers see the logged contents of it and no change of any other block. |
| BufferCache.WriteKeepsInv | kernel/bio.c:107-112 | bwrite keeps the cache and the disk in agreement. |
| BufferCache.UnpinKeepsInv | kernel/bio.c:147-151 | Dropping the pin is safe once the logged contents are on disk at their home block. |
| BufferCache.BrelseKeepsInv | kernel/bio.c:117-137 | brelse as a whole keeps the invariant. |
| BufferCache.FrontKeepsShape | kernel/bio.c:125-134 | Moving a buffer to the front keeps the list a permutation of all NBUF buffers. |
| BufferCache.FrontKeepsOrder | kernel/bio.c:125-134 | The list stays ordered by time of the last move to the front. |
| BufferCache.RunKeepsInv | kernel/bio.c:59-151 | Every run of cache steps by any processes keeps the invariant. |
| BufferCache.RunsAreTransparent | kernel/bio.c:59-151 | Over every run since boot: one buffer per block, refcnt is holders and waiters plus pins, a block in the log has a valid buffer with exactly one pin, an unmodified buffer shows the logged or else the disk contents. |
| BufferCache.ViewChangesOnlyByWrites | kernel/bio.c:59-151 | What readers see of a block changes exactly by logging it, or by writing it while it is not logged. |
| Bcache.InsertLinks | kernel/bio.c:46-52 | The four pointer assignments put a buffer behind the head of the doubly linked list. |
| Bcache.UnlinkLinks | kernel/bio.c:128-129 | The two pointer assignments take a buffer out; prev and next stay inverse. |
| Bcache.Bcache.constructor | kernel/bio.c:37-53 | binit builds the list that the abstract boot state describes. |
| Bcache.Bcache.FindCached | kernel/bio.c:65-73 | The forward scan finds the first buffer caching the block, if there is one. |
| Bcache.Bcache.FindUnused | kernel/bio.c:75-87 | The backward scan finds the last buffer of the list with refcnt 0, if there is one. |
| Bcache.Bcache.Bget | kernel/bio.c:59-89 | The linked list and the fields change as the abstract step says; None is the panic when all buffers are in use. |
| Bcache.Bcache.Bread | kernel/bio.c:93-103 | bget, lock and, for a buffer not yet valid, a read of the disk. |
| Bcache.Bcache.Bwrite | kernel/bio.c:107-112 | One block write to disk, or the panic of a caller without the lock. |
| Bcache.Bcache.MoveFront | kernel/bio.c:127-133 | Unlinking and reinserting gives the list with that buffer first. |
| Bcache.Bcache.Brelse | kernel/bio.c:117-137 | Unlock, drop the reference, and move to the front at zero; or the panic. |
| Bcache.Bcache.Bpin | kernel/bio.c:140-144 | The count goes up, as log_write of a new block needs. |
| Bcache.Bcache.Bunpin | kernel/bio.c:147-151 | The count goes down. |
| CrashLog.InstallAt | kernel/log.c:69-83 | install_trans writes exactly the home blocks in the header, each from its log block. |
| CrashLog.InstallAgain | kernel/log.c:69-83 | Installing over a partial installation gives the full one. |
| CrashLog.RecoveryResumes | kernel/log.c:117-123 | Recovery started from any disk state inside a recovery ends in the same disk. |
| CrashLog.RecoverySurvivesCrashes | kernel/log.c:117-123 | Any number of crashes inside recovery change nothing of what a completed recovery leaves. |
| CrashLog.CommitIsAtomic | kernel/log.c:194-203 | After a crash between any two block writes of commit, recovery leaves the home blocks all old before the header write and all new from it on. |
| CrashLog.CommitCompletes | kernel/log.c:194-203 | A finished commit leaves the transaction applied and the log empty. |
| CrashLog.EventIsAtomic | kernel/log.c:117-203 | A commit, or a crash in it followed by crashes in recovery, takes all or nothing, all exactly when the header write happened. |
| CrashLog.HistoryIsDurable | kernel/log.c:117-203 | Over any history of commits and crashes, each home block holds the last write of a transaction that took effect. |
| Log.Log.WriteLog | kernel/log.c:179-191 | The cached blocks go to the log blocks; a panic cuts the writes short at some prefix. |
| Log.Log.WriteHead | kernel/log.c:103-114 | The header goes to disk in one block write. |
| Log.Log.InstallTrans | kernel/log.c:69-83 | The log blocks go home in order and, outside recovery, each pin is dropped. |
| Log.Log.ReadHead | kernel/log.c:87-97 | The header on disk becomes the one in memory. |
| Log.Log.RecoverFromLog | kernel/log.c:117-123 | Running over the buffer cache, the disk passes through the states of RecoveryTrace and ends in Recovered; with nobody at a buffer, as at boot, it always ends. |
| Log.Log.Commit | kernel/log.c:194-203 | Running over the buffer cache, the disk passes through the states of CommitTrace; a finished commit puts what the cache showed on the home blocks, empties the log and drops every pin. With nobody at a buffer it finishes if and only if fewer than NBUF blocks are listed. |
| Log.Log.LogWrite | kernel/log.c:215-235 | Absorbs a block already listed, else appends and pins it; panics exactly as the code's guards say. By an operation within its budget it is the Write step of LogAdmission; with budget left it panics only if the log has fewer than LOGSIZE blocks beside its header. |
| Log.Log.BeginOp | kernel/log.c:127-142 | Admits exactly when the Begin step of LogAdmission is enabled, and then is that step; otherwise it sleeps. Operations sleep only while there is no room for them. |
| Log.Log.EndOp | kernel/log.c:147-164 | Is the End step of LogAdmission; starts the commit exactly when no operation is left, and else wakes all that wait. |
| Log.Log.CommitAndReopen | kernel/log.c:166-174 | The disk passes through CommitTrace; a commit that ends is the CommitDone step of LogAdmission, with the home blocks showing what the cache showed and nobody left asleep; with nobody at a buffer it ends if and only if fewer than NBUF blocks are listed. |
| CommitRun.ReaderKeeps | kernel/bio.c:59-137 | No step of a process that only reads changes the disk, the log or a buffer that the commit holds. |
| CommitRun.CopyIsNew | kernel/log.c:183-186 | Whenever the commit gets to copy, the source buffer holds what the trace says is to be written. |
| CommitRun.ActKeepsOk | kernel/log.c:69-203 | Every step of the commit and of the readers beside it keeps disk, pins, held buffers and trace in agreement. |
| CommitRun.CommitFollowsTrace | kernel/log.c:179-203 | Whatever readers do between the steps of a commit, the disks it writes are a prefix of CommitTrace; when it ends every home block holds what the cache showed and nothing is pinned. |
| CommitRun.CrashDuringCommit | kernel/log.c:117-203 | A crash anywhere in such an interleaving leaves, after recovery, all of the transaction or nothing, all exactly from the header write on. |
| CommitRun.CommitTakesExactly | kernel/log.c:179-203 | However readers interleave, a commit of n blocks has ended exactly when it has made 5 n + 4 copies, writes and unpins, and it never makes more. |
| LogAdmission.StepKeepsInv | kernel/log.c:127-235 | begin_op, log_write, end_op and the end of a commit keep logged blocks plus unspent budgets within LOGSIZE. |
| LogAdmission.WithinBudget | kernel/log.c:220-221 | In a log with LOGSIZE blocks beside its header no operation with budget left meets the panic. |
| LogAdmission.AdmissionIsSafe | kernel/log.c:127-175 | In every reachable state the budgets fit, no operation runs during a commit, the block list is frozen then, no block is listed twice, and none while nobody runs or commits. |
| LogAdmission.PanicExactlyWhenLogTooSmall | kernel/log.c:220-221 | An operation that has added fewer than MAXOPBLOCKS blocks can meet "too big a transaction" if and only if the log has fewer than LOGSIZE blocks beside its header; the log that mkfs makes is such a log. |
| LogAdmission.RewritePanicsExactlyInFullLog | kernel/log.c:220-229 | In a larger log the panic meets exactly a write while LOGSIZE blocks are listed; then the block is one already listed, which needs no room, and every budget is used up. |
| LogAdmission.RewriteCanPanic | kernel/log.c:220-229 | Three operations within their budgets reach that state. |
| LogAdmission.FullGroupExactly | kernel/log.c:147-163 | Operations within their budgets can end with LOGSIZE blocks, which is NBUF, to commit at once if and only if the log has that many beside its header. |
| LogSleepers.StepKeepsInv | kernel/log.c:127-175 | Every lock-level step of begin_op, log_write, end_op and of sleep and wakeup on &log keeps the invariant. |
| LogSleepers.ScanAdvances | kernel/proc.c:596-609 | wakeup on &log ends: each step goes one process on, and behind the last it leaves. |
| LogSleepers.NoLostAdmission | kernel/log.c:127-175 | Over every run from boot: no operation is asleep on &log, or about to be, while there is room for it and no wakeup is on its way to it; and the log is in a state that LogAdmission reaches. |
| LogSleepers.SleeperWaitsForSomebody | kernel/log.c:127-175 | Whenever somebody sleeps on &log, some process is in an operation, in a commit or in the wakeup. |
| LogSleepers.NoDeadlock | kernel/log.c:127-175 | Over every run from boot: while somebody sleeps on &log some process can take a step of its own, unless one is at a log_write that panics or breaks its budget. |
| LogRun.SafeIsLastIdle | kernel/log.c:147-175 | What a crash may not lose is exactly what was there when last no operation ran. |
| LogRun.ChangeBlock | kernel/log.c:205-235 | bread, a store, log_write and brelse change what readers see of that block only, and nothing on disk; with nobody at a buffer they fail exactly where log_write panics. |
| LogRun.CommitLeaves | kernel/log.c:194-203 | Each disk written by a commit recovers to the blocks as they were when last no operation ran, or to the blocks as they are now. |
| LogRun.Run | kernel/log.c:127-235 | Any sequence of operations that begin, change blocks within their budgets and end, over the cache and the disk: readers see a plain array of blocks, and each disk written on the way recovers to what was safe before or after the call that wrote it. With nobody at a buffer it goes through if and only if no change comes while the log is full and no group of NBUF blocks is committed. |
| LogRun.Life | kernel/log.c:54-65 | The same from the disk that any crash left: boot, recovery and then any sequence of calls, which goes through under exactly that condition. |
| Bitmap.BitAfterSet | kernel/fs.c:74-77 | Setting a bit of the free map changes that block's bit only. |
| Bitmap.BitAfterClear | kernel/fs.c:98-100 | Clearing a bit changes that block's bit only. |
| BlockCount.BlocksCount | kernel/fs.c:65-103 | Every data block is free or behind exactly one pointer slot: slots in use plus free blocks are the data blocks. |
| BlockCount.RunShort | kernel/fs.c:65-86 | Whatever was allocated and freed before: if a slot that is needed stays empty with no block free, more slots were needed than blocks were free at the start. |
| BlockCount.MetFits | kernel/fs.c:378-405 | Conversely, slots that all came into use were no more than the free blocks. |
| Inodes.OwnedMeans | kernel/fs.c:378-405 | Non-zero pointer slots of all inodes and used data blocks correspond one to one: no two slots name the same block, and a data block is in use exactly when some slot names it. |
| Inodes.AllocDirectEffect | kernel/fs.c:383-395 | A fresh block in a direct or indirect slot is owned by it alone and changes no byte of any file. |
| Inodes.AllocEntryEffect | kernel/fs.c:396-401 | The same for an entry of the indirect block, which holds no stale entries. |
| Inodes.StoreBytes | kernel/fs.c:498-504 | Bytes stored in one block of a file change those bytes of that file and nothing else. |
| Inodes.FreeNext | kernel/fs.c:416-432 | The next block that itrunc frees is in use, so bfree does not panic, and only its bit is cleared. |
| Inodes.TruncOwned | kernel/fs.c:410-437 | After itrunc the inode owns nothing and every other inode what it had. |
| Inodes.ReadChunk | kernel/fs.c:466-475 | A stretch within one block is that slice of the file. |
| Inodes.WriteChunk | kernel/fs.c:497-506 | One pass of writei's loop extends the written stretch. |
| Inodes.WriteContents | kernel/fs.c:508-514 | With the new size the file is the splice of the data, and all other files are as before. |
| Inodes.StillOk | kernel/fs.c:378-405 | Allocating blocks keeps the file system in order and every file's contents. |
| Inodes.TruncOk | kernel/fs.c:410-437 | Truncating keeps it in order, empties that file and leaves the others. |
| FileSystem.FileSystem.Balloc | kernel/fs.c:65-86 | The first free block, marked and zeroed; None only when all blocks are in use. |
| FileSystem.FileSystem.Bfree | kernel/fs.c:90-103 | Clears the bit, or panics on a free block. |
| FileSystem.FileSystem.Bmap | kernel/fs.c:378-405 | The block of bn, allocated if missing; ownership stays exclusive, pointers once set stay, no file's bytes change. Below MAXFILE it panics if and only if fewer blocks are free than the data slot and the indirect slot still lack. |
| FileSystem.FileSystem.Itrunc | kernel/fs.c:410-437 | Frees exactly the blocks the inode owns, also past its size, and never panics; the file is empty, on disk too, all others keep their contents and the file system stays in order. |
| FileSystem.FileSystem.Readi | kernel/fs.c:456-477 | Returns exactly the part of the file asked for, clipped to its size, with the wrap-around tests of uint. |
| FileSystem.FileSystem.Writei | kernel/fs.c:487-517 | Splices the data into the file and leaves all others, and the disk inode is the new one; refuses exactly when the offset is past the end, the sum wraps or the file would get too large; else it panics if and only if fewer blocks are free than the slots that the bytes touch still lack, and then a proper prefix of the data has been written. |
| FileSystem.FileSystem.Run | kernel/fs.c:378-517 | After any sequence of bmap, writei and itrunc calls that does not panic the file system is in order, and the files are those that replaying the calls on plain byte sequences gives. It does not panic if no block number is past MAXFILE and the slots that the calls touch lack no more blocks than are free; without itrunc calls this is exact. |
| PageTables.PlacesDiffer | kernel/vm.c:81-98 | Different page numbers below MAXVA have different leaf slots. |
| PageTables.AddTable | kernel/vm.c:90-95 | Linking a zeroed page in as a table changes no mapping of any page table. |
| PageTables.SetLeaf | kernel/vm.c:146-150 | Writing an empty leaf entry maps that page number in that tree, changes no other, and keeps every page at one place. |
| PageTables.ClearLeaf | kernel/vm.c:171-183 | Clearing a leaf entry unmaps that page number only. |
| PageTables.DropTable | kernel/vm.c:266-275 | Freeing an empty table and clearing its entry changes no mapping. |
| PageTables.DropRoot | kernel/vm.c:264-279 | Freeing the root of an empty tree changes no other tree. |
| PageTables.NewRoot | kernel/vm.c:189-197 | A zeroed page is a page table that maps nothing. |
| VmEffects.AllocUndone | kernel/vm.c:225-238 | Unmapping and freeing what was allocated leaves all mappings and contents as they were before. |
| VirtualMemory.Vm.constructor | kernel/kalloc.c:27-40 | After kinit every page of the pool is on the free list. |
| VirtualMemory.Vm.Kfree | kernel/kalloc.c:47-63 | A held page goes to the head of the free list; a bad address panics. |
| VirtualMemory.Vm.Kalloc | kernel/kalloc.c:69-82 | The first free page becomes held; None exactly when there is none. |
| VirtualMemory.Vm.WalkVa | kernel/vm.c:81-98 | Finds the page with the last-level entry, adds missing tables only if asked, and changes no mapping; it takes exactly the missing tables from the free pages, and fails only when there are fewer. |
| VirtualMemory.Vm.Walkaddr | kernel/vm.c:104-121 | The page a user address maps to, or 0 if it is too high, not mapped or not for users. |
| VirtualMemory.Vm.Mappages | kernel/vm.c:138-157 | Maps a run of page numbers to a run of pages and changes no other mapping; also what a failure or panic part-way leaves. It takes as many pages as tables were missing and fails only when there are fewer. |
| VirtualMemory.Vm.Uvmunmap | kernel/vm.c:163-184 | Removes a run of mappings, freeing the pages or not, as many as the end wrapped at 64 bits says; succeeds exactly when va is aligned and all of them are mapped. |
| VirtualMemory.Vm.Uvmcreate | kernel/vm.c:189-197 | A new page table that maps nothing and has no table but the root; None exactly when no page is free. |
| VirtualMemory.Vm.AllocPage | kernel/vm.c:225-238 | One pass of the loop: a page, and as many tables as were missing; it fails only when there are not that many free pages. |
| VirtualMemory.Vm.Uvmalloc | kernel/vm.c:218-241 | Adds zeroed pages from the old to the new size, however large; out of memory it restores every mapping. It succeeds if and only if there are as many free pages as it adds plus the tables missing on the way to them, and takes exactly those. |
| VirtualMemory.Vm.Uvmdealloc | kernel/vm.c:248-259 | Removes and frees the pages between the sizes. |
| VirtualMemory.Vm.Freewalk | kernel/vm.c:264-279 | Frees every table page of a tree without leaves, each once. |
| VirtualMemory.Vm.Uvmfree | kernel/vm.c:284-289 | Every page and table of the tree becomes free and nothing else changes hands. |
| VirtualMemory.Vm.Uvmcopy | kernel/vm.c:298-325 | The child gets equal bytes and flags in formerly free pages; a failure restores every mapping and comes only when the free pages are fewer than the pages to copy plus the tables missing, which is what success takes. |
| AddressSpaces.ProcPagetable | kernel/proc.c:200-229 | A new page table with the trampoline and the trapframe at the top and nothing else, for three pages; or None, exactly with fewer than three free, and every page given back. |
| AddressSpaces.ProcFreepagetable | kernel/proc.c:233-239 | The process's table and pages go back, and no other process's mapping or byte changes. |
| AddressSpaces.Processes.AllocProc | kernel/proc.c:136-163 | A process with empty memory, even if there is no memory for the backup trapframe; None, with everything given back, exactly with fewer than four free pages, no backup exactly with fewer than five. |
| AddressSpaces.Processes.FreeProc | kernel/proc.c:176-188 | Exactly that process's memory is gone. |
| AddressSpaces.Processes.Growproc | kernel/proc.c:281-297 | The memory grows by zeroed pages or is cut, with the sum wrapped at 32 bits; a sum that wrapped changes nothing; a failure changes nothing and comes only when the free pages are fewer than those to add and the tables on the way. |
| AddressSpaces.ResizedMeans | kernel/proc.c:281-297 | What that means for each page: the old ones below both sizes as they were, zeroes above, the new size; nothing changed where the sum leaves 32 bits. |
| AddressSpaces.Processes.Fork | kernel/proc.c:308-319 | The child has the parent's memory as its own; or None and nothing changed. It succeeds if and only if the free pages are enough for allocproc and then for the pages to copy and the tables below the top that they need. |
| AddressSpaces.Processes.Store | kernel/vm.c:81-98 | A user's store through its page table changes that word of its own memory and no other process's, or faults exactly when the page is not mapped for users to write. |
| AddressSpaces.Processes.Run | kernel/proc.c:176-319 | Over any sequence of these calls, failing ones included: every process sees the memory that the same calls give it when each process has an array of its own; and if there are as many free pages as the calls ask for together, none fails. |
| AddressSpaces.NothingLeaks | kernel/proc.c:176-239 | When no process is left, every page of the pool is on the free list again. |
| AddressSpaces.Life | kernel/kalloc.c:27-40 | All from kinit on. |
| HeapRing.InsertExists | user/umalloc.c:30-32 | A block to be freed has a place in the ring ... |
| HeapRing.InsertUnique | user/umalloc.c:30-32 | ... and only one. |
| HeapRing.SearchStops | user/umalloc.c:30-32 | The test of the search loop holds exactly at that place. |
| HeapRing.FreeKeepsHeap | user/umalloc.c:33-43 | Inserting with any of the four ways to merge keeps the ring ordered, blocks disjoint and no two free blocks touching. |
| HeapRing.NoOverlap | user/umalloc.c:25-44 | Free blocks do not overlap. |
| HeapRing.TakeWhole | user/umalloc.c:77-78 | Taking a whole block off the ring keeps the heap in order. |
| HeapRing.TakeTail | user/umalloc.c:79-83 | So does cutting the tail off a larger block. |
| HeapRing.AddCore | user/umalloc.c:55-58 | Memory from sbrk above everything so far is a new block. |
| Umalloc.Heap.Search | user/umalloc.c:30-32 | free's search ends, at the one position where the block belongs. |
| Umalloc.Heap.Splice | user/umalloc.c:33-43 | The assignments of free in place. |
| Umalloc.Heap.Free | user/umalloc.c:25-44 | The block leaves the live ones; the heap invariant holds and the units are the same. |
| Umalloc.Heap.Morecore | user/umalloc.c:47-61 | New memory goes on the ring, and at freep or behind it there is now a block that is large enough. |
| Umalloc.Heap.AskMore | user/umalloc.c:85-87 | Back at freep, the whole ring has been seen and is too small; morecore then gives a block that is large enough, or nothing when sbrk fails. |
| Umalloc.Heap.Malloc | user/umalloc.c:64-90 | Ends after at most one successful morecore, and only if every free block was too small, with a new live block of the units asked for, disjoint from all others; 0 only when sbrk failed and every free block is too small; free plus live units are those from sbrk. |
| Umalloc.RequestReachesSbrk | user/umalloc.c:47-54 | sbrk is asked for as many bytes as the units need if and only if the request is at most 2^31 - 32 bytes. |
| Umalloc.LargestRequestIsShort | user/umalloc.c:47-54 | The largest request asks for 16 bytes instead. |
| Sleepers.StepKeepsInv | kernel/proc.c:565-609 | Every lock-level step of any process, with any arguments, keeps the invariant that spinlocks belong to the processes inside them. |
| Sleepers.ScanAdvances | kernel/proc.c:596-609 | wakeup ends: each step goes one process on, and behind the last it leaves. |
| Sleepers.FindsFirst | kernel/proc.c:855-897 | The search of the semaphore table finds the lowest slot with the id, locked where bsem_up asks for it, and nothing if there is none. |
| Sleepers.AcquireReturnsWithLock | kernel/sleeplock.c:22-31 | Over every run: an acquiresleep that is about to return has locked the lock itself on the way. |
| Sleepers.DownBody | kernel/proc.c:869-882 | bsem_down locks the first slot with the id if it is free, goes to sleep on it if not, and does nothing if no slot has the id. |
| Sleepers.UpBody | kernel/proc.c:884-897 | bsem_up unlocks the first locked slot with the id and starts waking; with none it does nothing. |
| Sleepers.FreeBody | kernel/proc.c:855-867 | bsem_free clears the first slot with the id, lock included; with none it does nothing. |
| Sleepers.AllocBody | kernel/proc.c:839-853 | bsem_alloc takes the first unused slot, unlocked, under a new id; with none it does nothing. |
| Sleepers.DownReturnsWithLock | kernel/proc.c:869-882 | Over every run: a bsem_down that is about to return found no slot with the id, or locked the one it found itself on the way, unless the slot changed its id meanwhile. |
| Sleepers.GuardsExclude | kernel/sleeplock.c:22-41 | At most one process is inside each spinlock. |
| Sleepers.SpinMoves | kernel/proc.c:565-609 | Over every run from boot no spinlock is left behind or stuck: whoever has it can take its next step, or some process can that holds its own lock on the way to sleep. |
| Sleepers.ScanLosesNobody | kernel/proc.c:596-609 | wakeup's scan loses nobody: it passes a process only after making it runnable if it sleeps on the channel. |
| Sleepers.QuietStep | kernel/proc.c:565-591 | A step that does not clear the lock word, sleep's among them, loses no sleeper. |
| Sleepers.LoudStep | kernel/proc.c:884-897 | releasesleep and bsem_up leave every sleeper ahead of a scan, although bsem_up wakes after releasing its lock. |
| Sleepers.SilentStep | kernel/proc.c:839-867 | bsem_free and bsem_alloc clear the lock word without a wakeup; they lose nobody if and only if a scan is already on its way to everyone asleep on the slot. |
| Sleepers.StepLosesExactlyByStranding | kernel/proc.c:565-897 | A step loses a sleeper if and only if it is such a bsem_free or bsem_alloc over an uncovered sleeper. |
| Sleepers.NoLostWakeup | kernel/proc.c:565-897 | Over every run from boot, with any semaphore ids: in no state is a process asleep, or about to be, on an unlocked object that no scan will reach, if and only if the run contains no such step. |
| Sleepers.NoLostWakeupOnSleepLock | kernel/sleeplock.c:22-41 | On a sleep-lock no wakeup is ever lost. |
| Sleepers.NoLostWakeupForCarefulCallers | kernel/proc.c:839-897 | Nor on any semaphore whose callers use only ids that name semaphores in use and free none under waiters. |
| Sleepers.FreeCanStrand | kernel/proc.c:855-867 | A run from boot at whose end bsem_free has left a sleeper that nothing will wake. |
| Sleepers.AllocCanStrand | kernel/proc.c:839-853 | A run from boot, without bsem_free, at whose end bsem_alloc has done so on the unused slot that bsem_down(0) locks. |
| Sleepers.StepExclusiveExactlyWithoutRobbing | kernel/proc.c:839-897 | A step lets two processes hold one lock if and only if it clears a lock word that somebody else holds. |
| Sleepers.MutualExclusion | kernel/sleeplock.c:22-52 | Over every run from boot at most one process at a time holds each lock if and only if no step clears a lock that another holds; then holdingsleep tells exactly who. |
| ProcessLife.StepKeepsInv | kernel/proc.c:302-464 | Every step of fork, a failing one included, exit, wait, kill, the scheduler and other sleeps keeps the invariant of the process table. |
| ProcessLife.GiveBackStep | kernel/proc.c:314-317 | A fork that fails gives its entry back: the pid is spent and nothing refers to it. |
| ProcessLife.AdoptStep | kernel/proc.c:346-348 | fork makes the caller the parent under wait_lock before the child can run. |
| ProcessLife.HandOver | kernel/proc.c:360-370 | reparent gives a child, even a zombie, to init and starts waking init. |
| ProcessLife.IntoSleep | kernel/proc.c:455-462 | wait goes to sleep only after seeing under wait_lock that no child is a zombie. |
| ProcessLife.DieStep | kernel/proc.c:402-410 | A process turns zombie under wait_lock after its parent was woken. |
| ProcessLife.ReapStep | kernel/proc.c:437-449 | Freeing a zombie's entry leaves no process without a live parent, and its pid was not reaped before. |
| ProcessLife.NoOrphans | kernel/proc.c:302-415 | Every started process but init has a parent that is neither unused nor a zombie. |
| ProcessLife.NoLostExit | kernel/proc.c:376-464 | With wait_lock free, nobody sleeps in wait, or is about to, over a zombie child. |
| ProcessLife.ReapedAtMostOnce | kernel/proc.c:420-464 | wait returns each exited pid at most once, with the status it exited with. |
| ProcessLife.ReapedWithItsStatus | kernel/proc.c:376-449 | Over every run from boot: each status that wait returned is the argument of an exit of that pid in the run. |
| ProcessLife.WaitGivesUpExactly | kernel/proc.c:431-462 | Over every run from boot: at the end of its scan wait returns -1 if and only if the caller was killed or has no child at that moment, and else goes to sleep. |
| ProcessLife.WaitReapsZombie | kernel/proc.c:437-449 | At a zombie child it returns: with pid and status, and the entry free, if the copy out works, and with nothing changed if not. |
| ProcessLife.ScansEnd | kernel/proc.c:360-464 | exit, with reparent and its wakeups, and the scan of wait end: each step of their own leaves fewer to do, and no step of others adds any. |
| ProcessLife.WaitLockMoves | kernel/proc.c:376-464 | Over every run from boot wait_lock is never left behind or stuck: whoever has it can take its next step, or some process can that holds its own lock on the way off its CPU. |
| ProcessLife.ForkMakesChild | kernel/proc.c:302-355 | The three steps of fork together: a runnable child with a new pid whose parent is the caller, and no other entry changed. |
| ProcessLife.ReapsOnlyGone | kernel/proc.c:431-449 | wait frees only a child of its own that has left its CPU for good. |
| Virtqueue.FormatKeepsInv | kernel/virtio_disk.c:224-257 | Building a chain keeps the partition of the descriptors and touches no chain in flight. |
| Virtqueue.AvailHasRoom | kernel/virtio_disk.c:259-265 | A driver about to post finds fewer than NUM entries that the device has not taken. |
| Virtqueue.RingKeepsInv | kernel/virtio_disk.c:259-260 | Writing the ring entry before the index overwrites no entry still to be taken, also after the 16-bit index wrapped. |
| Virtqueue.PublishKeepsInv | kernel/virtio_disk.c:262-265 | Raising the index shows the device a complete entry. |
| Virtqueue.NextPosted | kernel/virtio_disk.c:259-267 | The device's index test tells exactly whether a request is pending, and the entry it then reads is the oldest one. |
| Virtqueue.TakeKeepsInv | kernel/virtio_disk.c:259-265 | The device's taking of the next avail entry keeps the invariant. |
| Virtqueue.DeviceReadsRequest | kernel/virtio_disk.c:224-253 | A device that follows the chain finds exactly the request submitted, as section 5.2 of VirtIO 1.1 lays it out. |
| Virtqueue.StateKeepsInv | kernel/virtio_disk.c:240-252 | The transfer and the status byte change the buffer or the sector of this request only. |
| Virtqueue.UsedHasRoom | kernel/virtio_disk.c:297-312 | A device about to report finds fewer than NUM entries that the driver has not seen. |
| Virtqueue.EntryKeepsInv | kernel/virtio_disk.c:297-302 | The used entry that the device writes first overwrites none still to be seen ... |
| Virtqueue.ReportKeepsInv | kernel/virtio_disk.c:297-302 | ... and only its index then shows it to the driver. |
| Virtqueue.NextCompletion | kernel/virtio_disk.c:300-308 | The index test tells exactly whether a completion is pending; the next used entry names a live request with status 0 and its waiting buffer. |
| Virtqueue.SeeKeepsInv | kernel/virtio_disk.c:302-311 | The rest of a pass of the interrupt loop keeps the invariant, whatever the device did since the entry was read. |
| Virtqueue.FinishKeepsInv | kernel/virtio_disk.c:276-277 | Freeing the chain gives exactly its three descriptors back. |
| Virtqueue.ReturnsAfterOwnCompletion | kernel/virtio_disk.c:271-277 | The wait for b->disk ends exactly when the interrupt has seen the device do this very request, after it was submitted. |
| Virtqueue.StepKeepsInv | kernel/virtio_disk.c:204-315 | Every single store of driver or device to the shared memory keeps the invariant. |
| Virtqueue.RunKeepsInv | kernel/virtio_disk.c:204-315 | Over every interleaving of these stores since virtio_disk_init: free descriptors and three-long chains partition the NUM descriptors and both rings hold all outstanding entries. |
| Virtqueue.ReturnedRequestsWereDone | kernel/virtio_disk.c:204-280 | Over every run since virtio_disk_init, a request that returns was done by the device after its submission, whatever else ran in between: a read's buffer holds what the sector held then, a write put on the disk the bytes submitted, and the disk is the result of the transfers done in their order. |
| VirtioDisk.Disk.constructor | kernel/virtio_disk.c:125-138 | The fields after virtio_disk_init are the first state of those runs. |
| VirtioDisk.Disk.AllocDesc | kernel/virtio_disk.c:145-154 | The first free descriptor is taken; -1 exactly when there is none. |
| VirtioDisk.Disk.FreeChain | kernel/virtio_disk.c:158-185 | Follows the links and frees the three descriptors of a chain; the panics of free_desc are not reached. |
| VirtioDisk.Disk.Alloc3Desc | kernel/virtio_disk.c:189-201 | Three different free descriptors; or no change, exactly when there are not three. |
| VirtioDisk.Disk.Submit | kernel/virtio_disk.c:204-274 | Until it sleeps, virtio_disk_rw has posted its request under a new head, or changed nothing for want of descriptors; the device may move between its stores, and whatever it moved belongs to a request that was posted. |
| VirtioDisk.Disk.Publish | kernel/virtio_disk.c:259-267 | Entry first, then index, with any device moves before, between and after: the request is posted, all others are as they were, and buffers change only by reads of posted requests. |
| VirtioDisk.Disk.Finish | kernel/virtio_disk.c:271-280 | It returns only after the device did its job since the submission, with the bytes moved, and gives back its chain. |
| VirtioDisk.Disk.HandleOne | kernel/virtio_disk.c:300-312 | One pass of the loop with device moves inside: one request fewer is unseen, and buffers change only by reads of posted requests. |
| VirtioDisk.Disk.Interrupt | kernel/virtio_disk.c:283-315 | Ends, having seen every completion, also those that the device adds while the loop runs, and never reaches the panic on a bad status; requests change only in that, and buffers only by reads of posted requests. |
| VirtioDisk.Disk.DeviceTake | kernel/virtio_disk.c:259-265 | The entry the device reads is the oldest request it has not taken. |
| VirtioDisk.Disk.DeviceDo | kernel/virtio_disk.c:224-253 | The job and the status address that the device reads from the descriptors are those submitted under that head; it moves the bytes between buffer and sector. |
| VirtioDisk.Disk.RunDevice | kernel/virtio_disk.c:289-292 | Any moves of the device leave the driver's side of the queue alone. |
| Pipe.CountersTellFill | kernel/pipe.c:88-90 | The wrapped 32-bit counters tell a full and an empty ring exactly. |
| Pipe.PutKeeps | kernel/pipe.c:91-97 | A byte put in comes after all before it, and overwrites none still inside. |
| Pipe.TakeKeeps | kernel/pipe.c:120-123 | The byte taken is the oldest inside. |
| Pipe.RunIsFifo | kernel/pipe.c:77-130 | Over any interleaving of any length, the bytes removed are a prefix of those inserted, with at most 512 between. |
| Pipe.Pipe.Write | kernel/pipe.c:77-103 | Which bytes a stretch of pipewrite inserts and whether it sleeps, is refused or returns; it leaves a sleeper without reason if and only if readers wait and a kill is seen after bytes went in. |
| Pipe.Pipe.Read | kernel/pipe.c:106-130 | piperead gets the oldest bytes, as many as there are and fit; exactly one byte, the one whose copy out fails, leaves the pipe uncounted, and only if there is such a byte; nobody is left asleep without reason. |
| Pipe.Pipe.Close | kernel/pipe.c:59-74 | Closing an end leaves nobody asleep without reason: no reader once no writer can come, no writer once no reader can, nobody when the pipe is freed. |
| Pipe.KillStrandsReader | kernel/pipe.c:84-87 | A sequence of calls at whose end a reader sleeps over a byte that it could read. |
| ShellGrammar.LineSound | user/sh.c:345-359 | What the parser returns is a derivation of the tokens it consumed, with at most nine arguments to a command. |
| ShellGrammar.LineComplete | user/sh.c:345-359 | Every derivation is found from its tokens. |
| ShellGrammar.StageSound | user/sh.c:400-446 | The same for blocks and simple commands: soundness ... |
| ShellGrammar.StageComplete | user/sh.c:400-446 | ... and completeness. |
| ShellGrammar.ParserIsGrammar | user/sh.c:328-342 | parsecmd accepts exactly the token sequences of the grammar, and gives the only derivation. |
| ShellGrammar.LineMention | user/sh.c:375-446 | Every argument and file name of the tree is a word of the line. |
| ShellGrammar.WrapNests | user/sh.c:375-397 | Of the redirections behind a command or a block the last is outermost and the first innermost, around the command. |
| ShellGrammar.SimpleNests | user/sh.c:416-446 | Of a simple command all redirections, wherever they stand between the arguments, are around one EXEC node with all arguments, in that order. |
| Shell.GetToken | user/sh.c:266-308 | The next token's code and slice, and the cursor before the rest. |
| Shell.Peek | user/sh.c:311-320 | Whether the next token starts with one of the characters; skips only white space. |
| Shell.ParseRedirsAt | user/sh.c:375-397 | On characters: wraps the command as the grammar's redirections say, or panics. |
| Shell.ParseExecAt | user/sh.c:416-446 | On characters: one EXEC node with all arguments inside all redirections, or the block, or the panics. |
| Shell.ParseBlockAt | user/sh.c:400-413 | On characters: the block. |
| Shell.ParsePipeAt | user/sh.c:362-372 | On characters: the pipeline. |
| Shell.ParseLineAt | user/sh.c:345-359 | On characters, ending on every input: tree and rest are those of the token parser, or the same panic. |
| Shell.LexWords | user/sh.c:295-299 | Every word token is a maximal run of plain characters. |
| Shell.NulTerminate | user/sh.c:450-493 | A NUL after every word of the tree, and no other change to the line. |
| Shell.CutReads | user/sh.c:450-493 | No NUL falls inside another word: each reads as exactly its slice. |
| Shell.ParseCmd | user/sh.c:328-342 | The tree of the line's derivation, every argument and file name readable as its slice; a panic leaves the line alone. |
| ShellPrint.PrintParses | user/sh.c:266-446 | Parsing the parenthesised print of any tree with typable names and at most nine arguments gives the tree back. |
| Grep.MatchHere | user/grep.c:83-94 | True exactly when the pattern's elements denote consecutive parts at the start of the text, reaching its end after a final $. |
| Grep.MatchStar | user/grep.c:97-104 | True exactly when some number of fitting characters lets the rest match. |
| Grep.Match | user/grep.c:71-80 | True exactly when the pattern's meaning holds at the start, for a leading ^, or at some suffix; ends on all inputs. |
| Grep.ShowRead | user/grep.c:83-94 | Reading a pattern loses nothing of its text. |
| Grep.ReadShow | user/grep.c:83-94 | A list of elements is read back from its text if and only if no single character precedes an element of '*' and no plain '$' comes last. |

## Left out

- Signal delivery (`kernel/proc.c:701-835`): it gives no clean contract over whole runs.
- Commented-out thread code, `kernel/ramdisk.c`, assembly, traps, device registers, timer and boot code.
- Directories, path names, link counts and the inode cache; printf and the other user programs.
- User copies that fail in readi and writei: the model takes all copies as succeeding. In wait and in pipes a failing copy is modelled.
- Memory ordering of spinlocks: acquire and release are atomic steps, and a stretch under one lock that takes no other is one step.
- Counters that the code lets overflow: process and semaphore ids are unbounded integers. The wrapping of pipe counters, ring indices, file offsets and malloc's sizes is modelled.
- Liveness: no fairness is assumed; what is proved is that no wakeup is lost, not that the scheduler runs everyone.
- kernel/fs.c and kernel/log.c are verified apart: `FileSystem` works on the blocks as the cache shows them, without the log_write calls.
- The cache serves one device; device numbers other than 0 and the log's device are not told apart.
- Bcache.Bcache.Bpin: called for a block that the log does not list yet, as log_write does.
- Bcache.Bcache.Bread: for a buffer whose sleep-lock is free; waiting for it is a step of `BufferCache` and of `Sleepers`.
- Log.Log.Commit: the method, like WriteLog, WriteHead and InstallTrans under it, runs while no process holds a buffer; `CommitRun` takes its steps apart and lets readers hold and wait for buffers between them. While others hold or wait for buffers the "no buffers" panic is allowed anywhere.
- VirtualMemory.Vm.Mappages: the permissions contain some of R, W and X, as all callers' do; without them the entry would be taken for a table. Mappings of the two topmost pages do not own their page; others map pages that were handed out. The kernel's own page table, which maps all memory directly and owns none of it, is not modelled.
- VirtualMemory.Vm.Kfree: the page was handed out by kalloc; the source cannot tell a page that is freed twice.
- VirtualMemory.Vm.Uvmunmap: with do_free, for the pages below the two topmost, which processes own.
- VirtualMemory.Vm.Uvmalloc: for new pages that are not mapped yet; mappages would panic on others. The range ends below the two topmost pages, or there are too few free pages to reach them.
- VirtualMemory.Vm.Uvmdealloc: for an old size below the two topmost pages, which processes do not own.
- AddressSpaces.Processes.Growproc: does not say which tables an earlier, larger size left behind, so a failure is bounded by all tables on the way; `VirtualMemory.Vm.Uvmalloc` is exact.
- AddressSpaces.Processes.Run: exec, uvminit and uvmclear are not among the calls.
- LogRun.Run: the calls come one after the other, with no buffer held between them; `CommitRun` and `BufferCache` interleave the steps inside.
- LogSleepers.NoDeadlock: no fairness is assumed, so it does not say that the sleeper itself gets on.
- VirtualMemory.Vm.Freewalk: for a tree without leaves; on others it panics.
- VirtualMemory.Vm.Uvmcopy: into a page table that maps none of the pages, as fork's new one.
- VirtualMemory.Vm.Uvmfree: for a table that maps exactly the pages below sz, as proc_freepagetable leaves it.
- Umalloc.Heap.Malloc: for requests up to 2^31 - 32 bytes; `Umalloc.RequestReachesSbrk` shows that no larger one can be served. sbrk answers with memory above base and above all it gave before, aligned to units.
- Shell.ParseExecAt: the EXEC node is a value, so storing an argument into a node that a redirection already encloses is a function on the tree, not an update through a second pointer.
- Running the parsed commands (`user/sh.c:58-131`) and grep's line buffering (`user/grep.c:11-34`).
- VirtioDisk.Disk.DeviceDo: the device is taken to conform and to succeed; it may serve requests in any order.
- FileSystem.FileSystem.Run: with itrunc calls among them, blocks freed on the way can make up for a lack at the start, so the count is then only sufficient.
- Sleepers.DownReturnsWithLock: a slot that is freed and given a new id under a sleeper is locked under that id; the code does not search again.
- virtio_disk_rw's sleeps for descriptors and for its buffer (`kernel/virtio_disk.c:216-221`, `kernel/virtio_disk.c:271-274`); the sleep and wakeup protocol itself is in `Sleepers`.
- Virtqueue.FormatKeepsInv: the stores to the descriptors of a chain are one step; the device reads none of them before the chain is posted.
