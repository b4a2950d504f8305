# A verified model of xv6

This project models the parts of xv6, the teaching operating system for RISC-V, in which most can go
wrong: the write-ahead log and its recovery, the buffer cache, block allocation and file contents, the
inode table, directories with their link counts and paths, the life cycle of processes, page tables and
physical pages, the disk driver's rings, the user-level heap, and the shell's parser.

Code that the kernel runs step by step on its own data is modelled by classes with the same fields and
loops, proved against functions on values. Code whose correctness depends on interleavings (the log, wait
and exit, the inode table, sleep-locks, link counts, physical pages) is modelled by step systems: a state, the
steps that threads, devices and crashes can take, and an invariant that every step keeps, so that the theorems
speak of every run. The code of the log, the process table and the inode table is then a class whose every
change is a step of the system. The disk driver is a class whose methods take, as a parameter, what the device
does between any two of their stores.

| files | what they model |
|---|---|
| `LogDisk`, `LogProtocol`, `LogTheorems`, `LogHistory`, `Log` | `kernel/log.c`: layout and recovery, all interleavings with crashes and torn writes, the theorems, also in terms of the writes of a run, the code |
| `PageTable`, `TableCount`, `Vm`, `ProcImage`, `ExecStack`, `ExecFile`, `ExecImage`, `ProcMemory`, `PageSteps` | `kernel/vm.c`, `kernel/kalloc.c` and how many pages calls need, the memory of fork, growproc and exit, `kernel/exec.c`, the pages of all processes together, and the same while calls overlap |
| `Umalloc` | `user/umalloc.c` |
| `VirtioQueue`, `Virtio` | `kernel/virtio_disk.c`: descriptors and rings, and the driver with the device at work between its stores |
| `Bio` | `kernel/bio.c` |
| `FsImage`, `FsContent`, `FsInodes`, `FsRead`, `Fs` | `kernel/fs.c`: bitmap, inodes and file contents, with or without holes; `filewrite` of `kernel/file.c` |
| `Dirs`, `DirOps`, `Path`, `PathMeaning`, `NameOps`, `NameLaws`, `Namespace`, `NameRuns` | directories, 16-bit link counts and paths of `kernel/fs.c`, and link, unlink, create and chdir of `kernel/sysfile.c` in any state: when they succeed and what they do to names and paths; two runs that end badly |
| `LinkCounts` | link counts while calls run at the same time |
| `Itable`, `ItableCareful`, `ItableLeak`, `InodeTable` | the inode table of `kernel/fs.c`: all interleavings, those without a careless lookup, a leak, and the code |
| `SleepLock` | `kernel/sleeplock.c` |
| `ProcProtocol`, `ProcInv`, `ProcTheorems`, `ProcLife`, `ProcKill`, `ProcTable` | fork, wait, exit, kill, sleep, wakeup and the scheduler of `kernel/proc.c`: all interleavings, the theorems, the life of a process, kill, and the loops over the table |
| `ShellGrammar`, `ShellText`, `ShellShape`, `Shell` | the parser of `user/sh.c`: the grammar, tokens and text, trees and text, the code |
| `Seqs`, `Wrappers` | sequences without repetition, optional values |

Eight properties one might expect do not hold of the code; for each there is the exact condition.

- The capacity panic of `log_write` can be reached by operations that stay within their budget when
  `log.size` is `LOGSIZE`, as `mkfs` makes it; it cannot exactly when `log.size` is larger
  (`LogTheorems.SpaceThreshold`). A full log also refuses a block that it could absorb
  (`LogTheorems.AbsorptionPanics`).
- ".." of a removed directory that is still somebody's current directory can name an inode that is free
  again, and `ilock` then panics with "ilock: no type" (`NameRuns.RemovedParent`). A path runs into this
  exactly when dots at its start lead out of removed directories into a free inode (`Path.BreaksIff`); some
  path does exactly when a removed directory has a free inode above it (`Path.SomeLookupBreaks`), and
  `unlink` brings this about exactly when it frees such an inode (`NameOps.UnlinkBreaks`). In the inode
  table, the panic can follow a lookup exactly when the inode found is free or just being freed or allocated
  (`ItableCareful.CarelessLookup`).
- A link made in a directory that has itself been removed is not counted, and neither is what `create` makes
  there. The link counts stay right exactly when the directory has a link and the count does not wrap
  (`DirOps.LinkNeedsLive`, `DirOps.FileNeedsLive`, `DirOps.DirNeedsLive`).
- `nlink` is a `short`. With 32767 links, which two directories can hold (`NameRuns.FullCount`), one more
  makes it -32768, and `unlink` panics on every name of the file (`NameRuns.LinkWraps`). With calls running
  at the same time the count is right exactly up to 32767 links (`LinkCounts.CountRight`).
- An inode without links is not always freed with its last reference: `ialloc` may reuse its number while
  `iput` is about to drop the old reference, and a `create` that then fails leaves the inode behind
  (`ItableLeak.LeakRace`). The last user frees it exactly when nobody is still dropping the entry
  (`Itable.LastUserFrees`).
- Reading can lose a block. `readi` calls `bmap`, which allocates what a hole lacks, and does not write the
  inode back. The inode agrees with its disk copy afterwards exactly when the disk was full or no address was
  missing in the inode itself (`Fs.Fs.Readi`); otherwise a block is marked used that no address on disk leads
  to (`FsRead.HoleLeaks`). `mkfs` leaves a hole in the root directory, which `dirlookup` reads, when its entries
  fill whole blocks (`FsRead.RootHole`); nothing makes another hole (`NoNewHoles` in the contracts of `Fs.Fs`).
- A killed process can fall asleep in `wait`: a kill that hits it after its test of the flag and before its
  sleep is missed (`ProcKill.LateKill`, `ProcKill.KillMissed`). It happens exactly then
  (`ProcKill.KilledAsleep`).
- A process can be marked as killed though no `kill` named it: `kill(0)` marks a free slot, and `fork` does not
  clear the mark (`ProcKill.KillZero`). The mark and the kills of its number agree exactly for processes whose
  slot was not marked before (`ProcKill.KilledWhy`), so always without `kill(0)` (`ProcKill.KilledByNumber`).

One budget is better than the comments in `kernel/file.c` suggest. A chunk of `filewrite` touches at most
four data blocks, and in a file without holes the first block of an unaligned chunk exists already. So at most
four blocks are allocated per chunk, and the chunk stays within `MAXOPBLOCKS` however many blocks the bitmap
takes; on a file with holes the bound is eleven (`Fs.Fs.WriteOp`).

## Model

| member | source | states |
|---|---|---|
| `LogDisk.RecoverCommitted` | kernel/log.c:68-123 | With the header committed and the log blocks in place, recovery gives every home block its committed contents, whatever part of the installation the crash left undone. |
| `LogDisk.RecoverEmpty` | kernel/log.c:68-123 | With an empty header, recovery changes no home block, whatever the log blocks hold. |
| `LogDisk.ReplayAt` | kernel/log.c:68-83 | Replaying a log touches no block that it does not list. |
| `LogDisk.ReplayHit` | kernel/log.c:68-83 | Replaying a log gives each listed block its logged contents. |
| `LogDisk.RecoverTwice` | kernel/log.c:116-123 | A second recovery changes no home block, and the header is empty after the first. |
| `LogProtocol.BeginKeeps` | kernel/log.c:126-142 | Admitting or putting to sleep an operation keeps the log invariant; admitted operations have room for their whole budget. |
| `LogProtocol.PutKeeps` | kernel/log.c:214-235 | A log_write, absorbed or not, keeps the invariant: operations stay whole and budgets stay covered; unless the log is full the data is in memory and the block is listed once. |
| `LogProtocol.EndKeeps` | kernel/log.c:146-175 | The end of an operation keeps the invariant and never panics; the last one starts the commit. |
| `LogProtocol.LogCopyPhase` | kernel/log.c:178-191 | Every sector copied to the log, in any order of the two halves, leaves the disk recovering to the groups committed so far. |
| `LogProtocol.HeadWritePhase` | kernel/log.c:102-114 | The first sector of the header is the commit point: before it recovery gives the old state, after it the new one. |
| `LogProtocol.InstallPhase` | kernel/log.c:68-83 | Every sector of the installation, torn or not, leaves the disk recovering to the committed state. |
| `LogProtocol.ErasePhase` | kernel/log.c:193-203 | Erasing the header leaves the disk recovering to the committed state, before and after. |
| `LogProtocol.CrashKeeps` | kernel/log.c:116-123 | A crash at any point, also inside recovery, leaves a readable header, recovery gives exactly the committed groups, and the invariant holds again. |
| `LogProtocol.RunKeeps` | kernel/log.c:126-235 | Every interleaving of operations, sector writes and crashes keeps the invariant. |
| `LogTheorems.CrashSafety` | kernel/log.c:68-235 | From any disk whose log initlog can recover, in every run of any number of processes and crashes, recovery from the disk as it is gives exactly the effect of the committed groups, and each group consists of whole operations. |
| `LogTheorems.GroupsOnlyGrow` | kernel/log.c:193-203 | No step, crash or recovery takes a committed group away. |
| `LogTheorems.QuietMeansDurable` | kernel/log.c:146-175 | In every such run, when no operation is open and no commit runs, everything written is in a committed group and at home on disk. |
| `LogTheorems.SleepersMustWait` | kernel/log.c:126-142 | A process asleep in begin_op would not be admitted now, and some operation or commit is under way that will wake it. |
| `LogTheorems.SpaceThreshold` | kernel/param.h:9-10 | The capacity panic of log_write is unreachable for operations within their budget if and only if log.size exceeds LOGSIZE; with the nlog of mkfs it is reachable. |
| `LogTheorems.AbsorptionPanics` | kernel/log.c:214-235 | With the log full, log_write panics even for a block it could absorb, since it tests for space first. |
| `LogTheorems.FrugalKeeps` | kernel/log.c:214-235 | With log.size above LOGSIZE, no run in which every log_write comes from an operation with budget left panics. |
| `LogHistory.LastWriteWins` | kernel/log.c:214-235 | In every run without a crash, a block in memory is the data of the last log_write to it that did not panic, or the boot contents if there was none. |
| `LogHistory.GroupsAreOperations` | kernel/log.c:126-235 | In every run with any crashes, each committed group is exactly the log_write steps of its operations, in the order of the run. |
| `LogHistory.CrashHoldsLast` | kernel/log.c:116-123 | In every run, recovery from the disk as it is gives each home block the data that the committed groups last wrote to it. |
| `LogHistory.QuietHoldsLast` | kernel/log.c:146-175 | In every run without a crash, once no operation is open and no commit runs, the committed groups together are all log_write steps, and each home block on disk has the last one to it. |
| `LogHistory.ApplyLast` | kernel/log.c:68-83 | Applying writes in order leaves in a block what was last written to it. |
| `Log.Log.constructor` | kernel/log.c:54-65 | initlog on any disk with a log header that fits: what the header lists is installed, and the log is empty and valid, with the recovered disk as its boot state. |
| `Log.Log.RecoverFromLog` | kernel/log.c:116-123 | The code of recovery takes any disk to the recovered disk, in whichever order the sectors are written. |
| `Log.Log.Bwrite` | kernel/log.c:178-191 | One block write is two sector steps of the protocol, and the disk changes in that block only. |
| `Log.Log.WriteLog` | kernel/log.c:178-191 | The copy loop brings the protocol from the start of the commit to the header write. |
| `Log.Log.WriteHead` | kernel/log.c:102-114 | The header on disk lists exactly the logged blocks. |
| `Log.Log.InstallTrans` | kernel/log.c:68-83 | The disk becomes the replay of its own log. |
| `Log.Log.ReadHead` | kernel/log.c:86-97 | The list in memory is the list on disk. |
| `Log.Log.Commit` | kernel/log.c:193-203 | After the commit the log is empty and every home block on disk is what memory holds. |
| `Log.Log.BeginOp` | kernel/log.c:126-142 | Admits an operation exactly when no commit runs and the log has room for the blocks logged and the full budget of all open operations and this one; otherwise nothing changes. |
| `Log.Log.LogWrite` | kernel/log.c:214-235 | The data is in memory whether or not the block is absorbed, the block is listed once, behind the others if it is new, and it panics exactly when the log is full. |
| `Log.Log.EndOp` | kernel/log.c:146-175 | The last operation leaves an empty log and a disk that equals memory; any other only leaves. |
| `Log.Log.RebootAndRecover` | kernel/log.c:116-123 | After a crash, the code of recovery computes the recovered disk, which equals the committed groups. |
| `PageTable.PteFields` | kernel/riscv.h:341-352 | The fields of a packed page table entry read back as they were packed. |
| `PageTable.GrowTable` | kernel/vm.c:85-103 | Linking a zeroed table page into a free entry of the tree keeps the tree and changes nothing in the flat map. |
| `PageTable.SetLeaf` | kernel/vm.c:142-165 | Storing a leaf entry changes the flat map at that page and nowhere else. |
| `PageTable.ReadLeaf` | kernel/vm.c:85-103 | The leaf entry that walk finds is the flat map at that page. |
| `PageTable.ChildBelow` | kernel/vm.c:271-287 | The tables below two different entries of a table page are disjoint, which is what freewalk needs. |
| `TableCount.MissingPlus` | kernel/vm.c:85-103 | The tables missing for two ranges are those for the first and, once these exist, those for the second. |
| `TableCount.WalkDone` | kernel/vm.c:85-103 | A walk that adds the two tables of a page extends the tree by exactly what that page needs. |
| `Vm.Vm.Freerange` | kernel/kalloc.c:33-40 | Exactly the whole pages of the range join the free list. |
| `Vm.Vm.Kalloc` | kernel/kalloc.c:68-82 | The head of the free list is handed out, junk-filled; 0 exactly when the list is empty. |
| `Vm.Vm.Walk` | kernel/vm.c:85-103 | Finds the entry for an address, adding exactly the tables that are missing on the way; it fails exactly when there are fewer free pages than that. The flat map is unchanged either way. |
| `Vm.Vm.Walkaddr` | kernel/vm.c:108-126 | The physical address that the flat map gives a user page, else 0. |
| `Vm.Vm.MapOne` | kernel/vm.c:142-165 | One round of mappages sets one page of the flat map; it fails, and sets none, exactly when there are fewer free pages than missing tables. |
| `Vm.Vm.Mappages` | kernel/vm.c:142-165 | Adds exactly the named pages to the flat map; it fails, with a prefix of them, exactly when there are fewer free pages than missing tables. |
| `Vm.Vm.UnmapOne` | kernel/vm.c:170-192 | One round of uvmunmap removes one page from the flat map and frees its frame on request. |
| `Vm.Vm.Uvmunmap` | kernel/vm.c:170-192 | Removes exactly the named pages; on request exactly their frames join the free list. |
| `Vm.Vm.Uvmcreate` | kernel/vm.c:196-205 | An empty table on one page of the free list, or nothing changes. |
| `Vm.Vm.Uvmalloc` | kernel/vm.c:225-249 | Grows user memory by zeroed pages of its own; it fails exactly when there are fewer free pages than new pages and missing tables together; a failure restores the exact flat map, and pages are conserved either way. |
| `Vm.Vm.Uvmdealloc` | kernel/vm.c:255-267 | Shrinks user memory; exactly the pages above the new size are unmapped and freed. |
| `Vm.Vm.Freewalk` | kernel/vm.c:271-287 | Frees every page of an empty tree exactly once; its panic is unreachable. |
| `Vm.Vm.Uvmfree` | kernel/vm.c:291-297 | All user pages and all table pages go back to the free list. |
| `Vm.Vm.Uvmcopy` | kernel/vm.c:305-333 | The copy has equal flags and contents on pages of its own; it fails exactly when there are fewer free pages than pages to copy and missing tables together; a failure leaves the new table as it was; the original is unchanged. |
| `Vm.Vm.Uvmclear` | kernel/vm.c:337-346 | Takes the user bit from one page of the flat map. |
| `Vm.Vm.ProcPagetable` | kernel/proc.c:246-276 | A table that maps trampoline and trapframe only; it fails, with every page given back, exactly when there are fewer free pages than its tables. |
| `Vm.Vm.ProcFreepagetable` | kernel/proc.c:280-286 | Frees the user memory and the tables, but neither trampoline nor trapframe. |
| `Vm.Vm.Kfree` | kernel/kalloc.c:46-63 | The page, filled with junk and holding the old head in its first word, is pushed on the linked free list; no other page changes. |
| `Vm.CopiedPage` | kernel/vm.c:305-333 | A copied page has the flag bits and the words of the page it was copied from. |
| `Vm.NewPageIs` | kernel/vm.c:225-249 | A new page is valid, has the flag bits asked for, and is all zeros. |
| `ProcImage.AllocProc` | kernel/proc.c:179-220 | A trapframe page and a fresh table; it fails, with the free set as before, exactly when there are fewer free pages than the tables and the trapframe. |
| `ProcImage.FreeProc` | kernel/proc.c:225-242 | Returns the trapframe, the user memory and the tables, each page once. |
| `ProcImage.Fork` | kernel/proc.c:349-395 | A child with equal contents and flags on disjoint pages, and the registers of the parent but for a zero in a0; it fails exactly when there are fewer free pages than the user pages, their tables and the trapframe; a failure restores the free set exactly; the parent is unchanged. |
| `ProcImage.GrowProc` | kernel/proc.c:329-345 | New zeroed pages, or the pages above the new size given back; the pages that stay keep their contents; it fails exactly when there are fewer free pages than new pages and missing tables, and then leaves the flat map as it was; a size below zero wraps around and changes nothing. |
| `ProcImage.CostStep` | kernel/vm.c:225-249 | The pages that a process needs grow by the new user pages and their missing tables. |
| `ProcImage.TablesOfProc` | kernel/vm.c:85-103 | A process with n user pages has three tables for root, trampoline and trapframe, one for every 512 pages begun and one for every 262144. |
| `ExecStack.PushArgs` | kernel/exec.c:87-110 | Fails if and only if there are more than MAXARG arguments or they need more than a page, each rounded up to 16 bytes; otherwise the stack pointer is the top less that space, aligned, and strings and array lie in the page one below the other. |
| `ExecStack.LaidApart` | kernel/exec.c:90-101 | No two argument strings overlap, and none reaches above the stack. |
| `ExecFile.PageOfLast` | kernel/exec.c:53-70 | A page of the image has the bytes of the last header that covers it. |
| `ExecFile.PageOfNone` | kernel/exec.c:64-67 | A page of the image that no header covers is all zeros. |
| `ExecFile.TopIs` | kernel/exec.c:53-70 | The size of the image is the highest end of a segment to load, and 0 if there is none. |
| `ExecFile.GrowHeader` | kernel/exec.c:64-67 | Pages added for a header have its permissions and zeros, and the pages of the headers before keep theirs. |
| `ExecFile.LoadHeader` | kernel/exec.c:68-69 | Loading a header gives its pages its bytes and leaves the others. |
| `ExecImage.GrowImage` | kernel/exec.c:64-85 | One segment or the stack: zeroed pages up to the new size with the asked permissions, the pages below as they were; it fails, with the image as it was, exactly when free pages run out. |
| `ExecImage.LoadSeg` | kernel/exec.c:147-166 | The pages of the segment hold what was read and the others stay, exactly if the file is long enough; the panic "address should exist" is never reached. |
| `ExecImage.AddSegment` | kernel/exec.c:53-70 | One round over a header of kind 1: it fails exactly when the header is bad, 64-bit wrap-around included, when the image stays empty, when the file is too short, or when free pages run out; otherwise the image is that of one more header. |
| `ExecImage.MakeStack` | kernel/exec.c:78-110 | A stack page that the program may write and an inaccessible page below it, above the image, which stays; it fails exactly when the arguments do not fit or free pages run out. |
| `ExecImage.SetRegisters` | kernel/exec.c:112-128 | epc is the entry point, sp and a1 are the address of argv; every other register and every other page stays. |
| `ExecImage.DropImage` | kernel/exec.c:133-140 | The image under construction goes back; the free set is as at the start. |
| `ExecImage.Guard` | kernel/exec.c:78-86 | The guard page loses its user bit and nothing else changes. |
| `ExecImage.Exec` | kernel/exec.c:22-141 | Succeeds exactly when every header is whole, every one of kind 1 is in order, leaves the image non-empty and has its bytes in the file, the arguments fit, and the free pages are enough for image, stack, guard and tables. Then every page below the highest segment end holds the bytes of the last header that covers it or zeros, with the permissions of the header it was mapped for; guard and stack lie above; the registers are those of the new program. Exactly one of the two images is freed, and no other page changes. |
| `ExecImage.SwapImage` | kernel/exec.c:123-129 | The old image goes back to the free list, page for page; the new one and every page outside the two are untouched. |
| `ExecImage.LoadProgram` | kernel/exec.c:53-70 | The loop over the headers builds the image that they describe, skipping those that are not to be loaded, or stops exactly at a short read, a bad header, a file too short or a lack of pages. |
| `ProcMemory.Exchange` | kernel/proc.c:179-395 | If what one process has and the free list are together what they were, and nothing else was written, then all pages are still partitioned and every other process has its contents. |
| `ProcMemory.Machine.constructor` | kernel/kalloc.c:26-31 | With no process, the pages are the kernel's or free. |
| `ProcMemory.Machine.Spawn` | kernel/proc.c:179-220 | allocproc keeps the partition of all pages into free list, kernel and processes; it fails exactly when free pages run out, and then loses no page; every other process keeps its contents. |
| `ProcMemory.Machine.Fork` | kernel/proc.c:349-395 | fork keeps the partition among all processes; the child is a copy of the parent; it fails exactly when there are fewer free pages than the child needs, and then loses no page; every other process, the parent included, keeps its contents. |
| `ProcMemory.Machine.Exec` | kernel/exec.c:22-141 | exec keeps the partition among all processes; it succeeds exactly when headers, arguments and free pages allow it, and then the caller has the image that the headers describe and its trapframe starts the new program; a failure leaves the caller's image, page for page, and the free list as they were; every other process keeps its contents. |
| `ProcMemory.Machine.Grow` | kernel/proc.c:329-345 | growproc keeps the partition among all processes, and the contents of the pages that stay and of every other process; it fails exactly when free pages run out. |
| `ProcMemory.Machine.Free` | kernel/proc.c:225-242 | freeproc keeps the partition: exactly the pages of the process become free, and every other process keeps its contents. |
| `PageSteps.StepKeeps` | kernel/kalloc.c:46-82 | Every step of kalloc, kfree, fork, exec, growproc, exit and wait keeps the partition of all pages into free list, kernel, processes and calls in progress, and the list threaded through the free pages. |
| `PageSteps.PagesAccounted` | kernel/kalloc.c:46-82 | In every interleaving of any number of processes, each page is in exactly one of these places and kalloc finds none exactly when none is free. |
| `PageSteps.OthersUntouched` | kernel/proc.c:349-395 | In a run in which a process takes no step and is not reaped, its pages and those its call has taken stay its own and keep their contents. |
| `PageSteps.FailureLosesNothing` | kernel/proc.c:349-395 | A fork, exec or growproc that fails leaves its process with the pages it had and keeps none it took, whatever others did meanwhile. |
| `PageSteps.NoneLost` | kernel/proc.c:225-242 | Once all calls are over, every page is free, the kernel's, or in the image of a process. |
| `Umalloc.SpliceSorted` | user/umalloc.c:24-44 | Inserting a freed block and joining it with its neighbours keeps the list ascending and fully coalesced. |
| `Umalloc.SpliceCovers` | user/umalloc.c:24-44 | The list then covers exactly the old units and those of the freed block. |
| `Umalloc.Heap.FindPlace` | user/umalloc.c:24-44 | The search loop of free ends, at the one entry behind which the block belongs. |
| `Umalloc.Heap.Free` | user/umalloc.c:24-44 | Exactly the freed block leaves the allocated set; the ring stays circular, ascending with one wrap and coalesced; no unit is lost. |
| `Umalloc.Heap.Morecore` | user/umalloc.c:46-61 | The units from sbrk join the heap, and then a block is large enough; a failure changes nothing. |
| `Umalloc.Heap.Take` | user/umalloc.c:63-90 | A block is taken whole or cut from the tail; the rest stays in the ring. |
| `Umalloc.Heap.Malloc` | user/umalloc.c:63-90 | Asks the system exactly when no free block is large enough, and at most once; fails exactly when the system was asked and refused, and then changes nothing; otherwise hands out as many units as the bytes and a header need, which nobody has. |
| `Umalloc.Nunits` | user/umalloc.c:63-90 | The units requested hold the bytes and one header, with less than one unit to spare. |
| `Umalloc.Heap.Search` | user/umalloc.c:63-90 | The search terminates after one tour of the ring and at most one call of morecore. |
| `VirtioQueue.RingPush` | kernel/virtio_disk.c:271-278 | Adding at the wrapped index keeps every queued entry readable while fewer than eight are queued. |
| `VirtioQueue.RingPop` | kernel/virtio_disk.c:312-324 | The entry at the consumer index is the oldest one. |
| `VirtioQueue.RingEmpty` | kernel/virtio_disk.c:312-324 | The wrapped indices are equal exactly when the ring is empty. |
| `VirtioQueue.TakeKeeps` | kernel/virtio_disk.c:271-278 | Taking the next chain keeps the invariant of descriptors, rings, buffers and requests, in the middle of any work of the driver. |
| `VirtioQueue.PostKeeps` | kernel/virtio_disk.c:305-312 | So does a store to the next entry of the used ring, which is never one that is still to be seen. |
| `VirtioQueue.RaiseKeeps` | kernel/virtio_disk.c:305-312 | So does the increment of the index that completes a chain, in any order of chains and across 16-bit wrap. |
| `VirtioQueue.SectorExact` | kernel/virtio_disk.c:218 | The sector, a 32-bit product, is twice the block number if and only if that is below 2^31; two blocks share a sector exactly when they agree modulo 2^31. |
| `VirtioQueue.StoreKeeps` | kernel/virtio_disk.c:238-269 | Until it is published, a chain may be written in any order without effect on any request. |
| `VirtioQueue.PublishKeeps` | kernel/virtio_disk.c:271-278 | Publishing a formatted chain makes it a request of its own, disjoint from all others. |
| `VirtioQueue.DropKeeps` | kernel/virtio_disk.c:283-291 | A finished chain taken back leaves all other requests intact. |
| `VirtioQueue.AckKeeps` | kernel/virtio_disk.c:312-324 | An acknowledged completion is the oldest one, of the buffer that info names, with status 0. |
| `VirtioQueue.ChainLayout` | kernel/virtio_disk.c:238-272 | At every moment the three descriptors of a request have the addresses, lengths, flags and links that the standard asks for, in numbers, and the header has its direction and sector. |
| `Virtio.VirtioDisk.AllocDesc` | kernel/virtio_disk.c:156-166 | A free descriptor, marked used, or -1 exactly when none is free. |
| `Virtio.VirtioDisk.FreeDesc` | kernel/virtio_disk.c:169-182 | The descriptor is cleared and free, and sleepers are woken. |
| `Virtio.VirtioDisk.DeviceTake` | kernel/virtio_disk.c:271-278 | The device, at any moment, reads from the oldest published chain exactly the request it was published for. |
| `Virtio.VirtioDisk.DeviceAnswer` | kernel/virtio_disk.c:305-312 | The device stores the status of a chain it has taken, at any moment. |
| `Virtio.VirtioDisk.DevicePost` | kernel/virtio_disk.c:305-312 | It stores the head in the next entry of the used ring; no entry that the driver has not seen is overwritten. |
| `Virtio.VirtioDisk.DeviceRaise` | kernel/virtio_disk.c:305-312 | With status and entry in place it increments the index, and the request is complete. |
| `Virtio.VirtioDisk.Device` | kernel/virtio_disk.c:305-312 | Any moves of the device keep the invariant, bring requests further and touch nothing that the driver owns. |
| `Virtio.VirtioDisk.Alloc3Desc` | kernel/virtio_disk.c:201-213 | Three distinct free descriptors or none at all, failing exactly when fewer than three are free, with the device at work throughout. |
| `Virtio.VirtioDisk.FreeChain` | kernel/virtio_disk.c:185-197 | Terminates and frees exactly the three descriptors of the chain, with the device at work throughout. |
| `Virtio.VirtioDisk.Format` | kernel/virtio_disk.c:238-272 | After the last store before the index, the chain decodes to the request, the buffer is flagged and the next ring entry holds the head, whatever the device did between the stores. |
| `Virtio.VirtioDisk.Publish` | kernel/virtio_disk.c:274-278 | The index alone hands the chain over; the entry it uncovers is the head stored before, whatever the device consumed in between, across 16-bit wrap. |
| `Virtio.VirtioDisk.Submit` | kernel/virtio_disk.c:215-281 | For every schedule of the device: a request for the buffer, the direction and twice the block number in 32 bits is handed over, or the process sleeps exactly when fewer than three descriptors are free. |
| `Virtio.VirtioDisk.Finish` | kernel/virtio_disk.c:283-291 | The request ends: its descriptors and no others become free, for every schedule of the device. |
| `Virtio.VirtioDisk.Acknowledge` | kernel/virtio_disk.c:312-324 | One completion clears the flag of its own buffer; the panic on its status is unreachable. |
| `Virtio.VirtioDisk.Intr` | kernel/virtio_disk.c:294-327 | Terminates for every schedule; everything completed up to the index read last is acknowledged, each for its own buffer, and what follows is the device's work alone. |
| `Bio.UnlinkOk` | kernel/bio.c:116-137 | Taking a buffer out of the ring leaves a ring of the others in the same order. |
| `Bio.PushOk` | kernel/bio.c:116-137 | Putting a buffer behind the head leaves a ring with it in front. |
| `Bio.Victim` | kernel/bio.c:75-87 | The first unused buffer from the back is the least recently released one. |
| `Bio.AgreesRecycle` | kernel/bio.c:75-87 | Giving an unused buffer to a new block keeps cache, disk and block map in agreement. |
| `Bio.Bcache.Binit` | kernel/bio.c:36-53 | The ring is a permutation of all buffers. |
| `Bio.Bcache.Find` | kernel/bio.c:65-73 | The buffer that holds the block, or none does. |
| `Bio.Bcache.FindUnused` | kernel/bio.c:75-87 | The least recently released unused buffer, or all are in use. |
| `Bio.Bcache.Bget` | kernel/bio.c:58-89 | A reference to the one buffer of the block; a buffer in use is never recycled, and no other buffer changes. |
| `Bio.Bcache.Fill` | kernel/bio.c:92-103 | bread returns what a plain block map holds. |
| `Bio.Bcache.Bwrite` | kernel/bio.c:106-112 | The disk block becomes the contents of the buffer. |
| `Bio.Bcache.Brelse` | kernel/bio.c:116-137 | The last reference moves the buffer to the front of the ring and makes it the most recent; nothing else changes. |
| `Bio.Bcache.Bpin` | kernel/bio.c:139-144 | One more reference, so the buffer is not recycled. |
| `Bio.Bcache.Bunpin` | kernel/bio.c:146-151 | One reference less. |
| `FsImage.GetPut` | kernel/fs.c:407-415 | An entry of an indirect block, stored as four bytes, reads back, and no other entry changes. |
| `FsImage.Adopt` | kernel/fs.c:382-421 | A block that gets its first slot leaves every used block with exactly one owner. |
| `FsImage.Release` | kernel/fs.c:425-453 | Clearing a slot with its bitmap bit leaves every used block with exactly one owner. |
| `FsImage.AllocOwned` | kernel/fs.c:65-88 | A marked and zeroed free block is the only used block without an owner. |
| `FsImage.AllocKeeps` | kernel/fs.c:65-88 | Allocation changes no byte and no block of any file. |
| `FsImage.AddDirect` | kernel/fs.c:388-395 | Storing the new block in a direct slot changes no byte of any file and restores ownership. |
| `FsImage.AddIndirect` | kernel/fs.c:400-406 | Storing a new, zeroed indirect block changes no byte of any file and restores ownership. |
| `FsImage.AddEntry` | kernel/fs.c:407-415 | Storing the new block in an indirect entry changes no byte of any file and restores ownership. |
| `FsImage.WriteBlock` | kernel/fs.c:516-528 | Writing a data block changes that block of that file only; it is nobody's indirect block. |
| `FsImage.DropEntry` | kernel/fs.c:441-445 | What an indirect entry refers to is marked used, so freeing it cannot panic, and no other file changes. |
| `FsImage.DropIndirect` | kernel/fs.c:439-449 | The indirect block goes last, and what it then holds does not matter. |
| `FsContent.WroteChunk` | kernel/fs.c:516-528 | One round of writei adds its bytes to those written so far, in the file and nowhere else. |
| `FsContent.WroteEnd` | kernel/fs.c:530-538 | Once the size is set, the file is the old one with the bytes spliced in, no other file has changed, and no file has a new hole. |
| `FsContent.ReadChunk` | kernel/fs.c:482-494 | The bytes that readi copies from one block are a slice of the file. |
| `FsContent.SpliceTwice` | kernel/file.c:148-175 | Two writes, one behind the other, are one write. |
| `FsContent.SpliceAt` | kernel/fs.c:505-539 | A byte of the spliced file is the written one inside the range and the old one elsewhere. |
| `FsContent.SpliceRead` | kernel/fs.c:471-539 | The spliced range reads as what was spliced in. |
| `FsInodes.UsedByLive` | kernel/fs.c:65-88 | A data block is marked used if and only if an inode in use has a slot for it, and it has one slot only. |
| `FsInodes.NothingLeft` | kernel/fs.c:425-453 | Once a file has no address left, none of the blocks it had is marked used. |
| `FsRead.ReadingStep` | kernel/fs.c:482-494 | One round of readi on any file: no file changes, and the inode changes exactly if an address was missing in it and a block was free. |
| `FsRead.HoleLeaks` | kernel/fs.c:382-421 | When bmap has stored an address in the inode and nobody writes it back, a block is lost: marked used, and no address on disk leads to it. |
| `FsRead.RootHole` | mkfs/mkfs.c:163-168 | The image that mkfs makes when the entries of the root directory fill one block is in good order, and a read in its second block allocates one. |
| `Fs.Fs.Balloc` | kernel/fs.c:65-88 | The lowest free block, which no slot refers to, marked and zeroed; 0 exactly when the disk is full. |
| `Fs.Fs.Bfree` | kernel/fs.c:91-105 | Clears one bit; the panic is its precondition. |
| `Fs.Fs.Bmap` | kernel/fs.c:382-421 | The block of the file, allocated if missing, with every file and the ownership kept; the inode changes exactly if an address was missing in it and a block was free; 0 only when the disk is full; at most one bitmap block per allocation is logged. |
| `Fs.Fs.FreeDirect` | kernel/fs.c:432-437 | All direct slots are cleared and their blocks freed; "freeing free block" is not reached. |
| `Fs.Fs.FreeIndirect` | kernel/fs.c:439-449 | All indirect entries' blocks and then the indirect block are freed; "freeing free block" is not reached. |
| `Fs.Fs.Readi` | kernel/fs.c:471-496 | Nothing past the end of the file or when offset and count wrap around; otherwise the bytes from the offset to the end of the count or the file, whichever is first, and fewer only if a hole among them cannot be filled on a full disk. No file changes, and without a hole nothing does. The inode agrees with its disk copy afterwards if and only if the disk was full or no address was missing in it; otherwise a block is lost unless it is written back. |
| `Fs.Fs.WriteLoop` | kernel/fs.c:516-528 | The loop writes a prefix of the bytes, all of them unless the disk is full. |
| `Fs.Fs.Writei` | kernel/fs.c:505-539 | -1 exactly when the offset is past the end of the file or the end past 268 blocks; else exactly the returned number of bytes is spliced in, no other file changes, no file gets a hole, what was written has blocks, and fewer bytes only when the disk is full. |
| `Fs.Fs.WriteOp` | kernel/file.c:155-167 | One transaction of filewrite on a file without holes logs at most MAXOPBLOCKS blocks whatever the size of the bitmap, on any file at most eleven, and at most seven when the bitmap is one block. |
| `Fs.Fs.FileWrite` | kernel/file.c:134-181 | A return of n has the effect of one write of n bytes at the old offset; otherwise a prefix was written and the offset moved by as much. |
| `Fs.EmptyDisk` | mkfs/mkfs.c:108-111 | A disk with only the metadata blocks used and empty inodes satisfies the ownership invariant. |
| `Fs.Fs.constructor` | kernel/fs.c:41-47 | Any image in which blocks have one owner, free inodes own nothing and no file is longer than MAXFILE blocks, holes or not, is a valid start. |
| `Fs.Fs.Itrunc` | kernel/fs.c:425-453 | The file becomes empty, exactly its blocks are freed, every other file is as before, ownership holds and the disk copy is written. |
| `Fs.Fs.Ialloc` | kernel/fs.c:198-219 | The lowest free inode from 1 on gets its type and is empty; clearing it loses no block, no file changes, and 0 is returned exactly when none is free. |
| `Fs.Fs.FreeInum` | kernel/fs.c:350-354 | Freeing an inode without links frees every block it had, leaves it empty, and changes no other file. |
| `Fs.Fs.ReadBlocks` | kernel/fs.c:482-494 | The loop of readi: a prefix of the range, all of it unless a hole in it meets a full disk. |
| `Fs.Fs.ReadBack` | kernel/fs.c:471-539 | After a write that took everything, a read of the same range returns what was written. |
| `DirOps.LinkSetsOne` | kernel/fs.c:579-606 | A successful dirlink gives one name a meaning and changes no other. |
| `DirOps.ClearTakesOne` | kernel/sysfile.c:222-224 | A cleared entry takes away its name and no other. |
| `DirOps.FreshNode` | kernel/fs.c:336-362 | Freeing an inode without links keeps every link count right. |
| `DirOps.MakeFileKeeps` | kernel/sysfile.c:245-302 | A new file with one link and its entry keep every link count right. |
| `DirOps.OneName` | kernel/sysfile.c:173-186 | An empty directory has exactly one link, the entry in its parent. |
| `DirOps.RemoveDirKeeps` | kernel/sysfile.c:188-243 | Removing an empty directory, with one link less for both, keeps every link count right. |
| `DirOps.LinkKeeps` | kernel/sysfile.c:123-170 | One more entry and one more link keep every 16-bit link count right, below the largest one. |
| `DirOps.UnlinkKeeps` | kernel/sysfile.c:188-243 | Clearing the entry of a file and one link less keep every link count right; the count was at least one. |
| `DirOps.MakeDirKeeps` | kernel/sysfile.c:245-302 | A new directory, its entry, and a link of the parent for ".." keep every link count right, below the largest one. |
| `DirOps.LinkNeedsLive` | kernel/sysfile.c:136-157 | The counts are right after a link if and only if the directory has not been removed and the 16-bit count does not wrap around. |
| `DirOps.FileNeedsLive` | kernel/sysfile.c:265-285 | The counts are right after the creation of a file if and only if the directory has not been removed. |
| `DirOps.DirNeedsLive` | kernel/sysfile.c:265-291 | The counts are right after mkdir if and only if the parent has not been removed and its 16-bit count does not wrap around. |
| `Path.SkipElem` | kernel/fs.c:622-645 | The first non-empty component, and a position whose components are the others; PathMeaning.ComponentsRead says what they are. |
| `Path.NameiViaParent` | kernel/fs.c:686-697 | namei is nameiparent followed by dirlookup on every path with a component, panics included, on any table. |
| `Path.BreaksIff` | kernel/fs.c:551-684 | While the counts are right, a lookup runs into the panic of ilock if and only if dots at its start lead out of removed directories into a free inode with a component left. |
| `Path.LinkedNeverBreaks` | kernel/fs.c:651-684 | A lookup from a directory that has not been removed never panics. |
| `Path.SomeLookupBreaks` | kernel/fs.c:651-684 | Some lookup from an inode in use panics if and only if a removed directory has a free inode above it. |
| `Path.FreeingBreaks` | kernel/fs.c:336-362 | Freeing an inode leaves all lookups safe if and only if it is not above another removed directory. |
| `PathMeaning.ComponentsRead` | kernel/fs.c:622-645 | The components of a path are its longest stretches without a slash, in order and all of them, cut to 14 characters. |
| `PathMeaning.LookupIs` | kernel/fs.c:551-575 | dirlookup finds the first slot in use with the name, and nothing exactly when there is none. |
| `PathMeaning.WalkFinds` | kernel/fs.c:651-684 | namei finds an inode if and only if there is a chain of directories from the start, each of which gives the next component to the next. |
| `PathMeaning.WalkFindsParent` | kernel/fs.c:651-684 | nameiparent finds a directory if and only if the components before the last one lead to it. |
| `PathMeaning.WalkPanics` | kernel/fs.c:651-684 | ilock panics in a lookup if and only if some components lead to an inode without a type and another one is left. |
| `NameOps.DroppedKeeps` | kernel/fs.c:336-362 | Dropping a reference keeps the counts right, whether or not it frees the inode. |
| `NameOps.LinkedCounts` | kernel/sysfile.c:123-170 | A whole successful sys_link leaves the counts right if and only if the directory has not been removed and the count does not wrap around. |
| `NameOps.UnlinkNeverPanics` | kernel/sysfile.c:216-217 | While the counts are right, the panic of unlink on nlink is unreachable. |
| `NameOps.UnlinkedKeeps` | kernel/sysfile.c:188-243 | A whole successful sys_unlink keeps the counts right. |
| `NameOps.CreatedCounts` | kernel/sysfile.c:245-302 | A whole successful create leaves the counts right if and only if the directory has not been removed and, for mkdir, its count does not wrap around. |
| `NameOps.UnlinkBreaks` | kernel/sysfile.c:188-243 | sys_unlink leaves a removed directory whose ".." names a free inode if and only if it frees the inode above one. |
| `NameLaws.UnlinkDecides` | kernel/sysfile.c:188-243 | unlink succeeds if and only if the name is neither "." nor "..", its first entry is an inode with a type and a link, and that is not a directory with an entry in use after the first two; it panics if and only if the entry is there and the inode has no type or no link. |
| `NameLaws.LinkDecides` | kernel/sysfile.c:123-170 | link succeeds if and only if the old path leads to an inode that is no directory and the new one to a directory that lacks the name and has a free slot or room for one more. |
| `NameLaws.CreateDecides` | kernel/sysfile.c:245-302 | create makes the first free inode if and only if the directory lacks the name and has a slot or room, an inode is free, and a new directory has room for its two entries; a name that is there serves T_FILE exactly if it is a file or device. |
| `NameLaws.LinkedGives` | kernel/sysfile.c:123-170 | After a link, the directories give the names they gave and the new one. |
| `NameLaws.UnlinkedGives` | kernel/sysfile.c:188-243 | After an unlink, they give the names they gave but the one removed and those of a directory that was freed. |
| `NameLaws.CreatedGives` | kernel/sysfile.c:245-302 | After a create, they give the names they gave, the new one, and "." and ".." of a new directory; the inode has the kind asked for and one link. |
| `NameLaws.PathMeans` | kernel/fs.c:651-697 | What a path means, from its characters: its parts are looked up one after the other from the root or the current directory. |
| `NameLaws.LinkedPaths` | kernel/sysfile.c:123-170 | After a link the new path leads to the inode, and every path that led somewhere still leads there. |
| `NameLaws.CreatedPaths` | kernel/sysfile.c:245-302 | After a create the path leads to the new inode, and every path that led somewhere still leads there. |
| `NameLaws.UnlinkedPaths` | kernel/sysfile.c:188-243 | After an unlink the path leads nowhere, and no path leads where it did not lead before. |
| `Namespace.Namespace.DirLookup` | kernel/fs.c:551-575 | The first entry in use with the name, with one more reference to its inode; else 0. |
| `Namespace.Namespace.DirLink` | kernel/fs.c:579-606 | Fails exactly when the name is taken or there is no room; else the first free slot gets the entry. |
| `Namespace.Namespace.IsDirEmpty` | kernel/sysfile.c:173-186 | True exactly when nothing but "." and ".." is left. |
| `Namespace.Namespace.Ialloc` | kernel/fs.c:198-219 | The first inode not in use, or 0 when all are. |
| `Namespace.Namespace.constructor` | mkfs/mkfs.c:117-128 | The root directory as mkfs makes it: the counts are right, and every ".." leads to an inode in use. |
| `Namespace.Namespace.Iput` | kernel/fs.c:336-362 | The last reference to an inode without links frees it; nothing else does. |
| `Namespace.Namespace.Put` | kernel/fs.c:336-362 | Between calls, an inode without links is one that somebody refers to, and iput keeps this and the counts. |
| `Namespace.Namespace.Link` | kernel/sysfile.c:123-170 | From any current directory and any counts: the outcome that NameLaws.LinkDecides describes; a failure restores everything; a success keeps the counts right if and only if the directory has not been removed and the count does not wrap around. |
| `Namespace.Namespace.Unlink` | kernel/sysfile.c:188-243 | From any current directory and any counts: the outcome that NameLaws.UnlinkDecides describes for the directory that the path leads to; a failure changes nothing; while the counts are right only a broken path panics, and they stay right. |
| `Namespace.Namespace.Create` | kernel/sysfile.c:245-302 | From any current directory, a removed one included: the outcome that NameLaws.CreateDecides describes, an existing file for T_FILE, a new inode that is linked, or everything as before; the counts stay right if and only if the parent has not been removed and, for mkdir, its count does not wrap around. |
| `Namespace.Namespace.Chdir` | kernel/sysfile.c:409-432 | Panics exactly when the path breaks or leads to a free inode; else the reference moves, which frees a removed directory with its last reference; the counts stay right. |
| `Namespace.Namespace.Namex` | kernel/fs.c:651-684 | From any current directory, equals following dirlookup over the components with the panic of ilock (PathMeaning and NameLaws.PathMeans say what that is); only the result gains a reference; while the counts are right it panics if and only if dots lead out of removed directories into a free inode. |
| `NameRuns.RemovedParent` | kernel/sysfile.c:409-432 | The run: a process enters /a/b, another removes /a/b and /a, and chdir("..") of the first panics in ilock. |
| `NameRuns.FullCount` | kernel/file.h:27 | A file can have 32767 links with names in two directories of possible size, and still take another link. |
| `NameRuns.LinkWraps` | kernel/sysfile.c:136-157 | That link makes the count -32768: the counts are wrong, and unlink panics on every name of the file. |
| `LinkCounts.StepKeeps` | kernel/sysfile.c:123-243 | Every step of concurrent link, create and unlink keeps the count equal, modulo 65536, to the entries and the calls in between. |
| `LinkCounts.CountRight` | kernel/sysfile.c:136-157 | In every interleaving, the count is the entries and the calls in between if and only if those are at most 32767. |
| `LinkCounts.UnlinkPanics` | kernel/sysfile.c:216-217 | In every interleaving, unlink panics if and only if the count it sees has wrapped around. |
| `LinkCounts.NamedIsCounted` | kernel/fs.c:336-362 | In every interleaving with fewer than 65536 links, an inode that an entry names has a count other than zero, so iput does not free it. |
| `Itable.TableAgrees` | kernel/fs.c:246-317 | In every state that any run reaches without a panic, one entry per inode is in use, and one that is valid and unlocked equals its disk inode. |
| `Itable.PutNeverBlocks` | kernel/sleeplock.c:21-31 | The acquiresleep inside iput always finds the lock free, also when iput is called by the thread that holds it. |
| `Itable.PutWaitsForItself` | kernel/fs.c:342-349 | An iput that is about to free an inode could wait only for its own thread: for any caller the lock is held if and only if the caller holds it. |
| `Itable.PutUnderLock` | kernel/fs.c:586-590 | The iput of dirlink on the directory that it has locked itself, found under the name ".", is possible, frees nothing, and leaves the table as before the lookup. |
| `Itable.LastUserFrees` | kernel/fs.c:336-362 | The last user of an inode without links frees it if and only if no thread is still dropping the entry. |
| `Itable.StepSound` | kernel/fs.c:198-362 | Every step of iget, ialloc, ilock, iunlock, iupdate and iput, under the inode's own lock or not, that does not panic keeps one entry per inode, reference counts, lock owners and loaded copies in order; a lookup may find any number. |
| `Itable.RunSound` | kernel/fs.c:198-362 | So does every interleaving of any number of threads, up to a panic. |
| `Itable.FreedInPut` | kernel/fs.c:336-362 | In every run, an inode becomes free only in iput, without links and with its lock held. |
| `ItableCareful.StepFine` | kernel/fs.c:198-362 | If lookups find only inodes that are in use and not just being freed or allocated, every step keeps that a referenced inode is in use; no step panics. |
| `ItableCareful.RunFine` | kernel/fs.c:198-362 | Runs of such lookups never panic and keep the invariant. |
| `ItableCareful.LockFindsType` | kernel/fs.c:292-317 | In such runs, a thread that locks an inode it has a reference to finds a type on disk. |
| `ItableCareful.FreedUnused` | kernel/fs.c:336-362 | In such runs, an inode becomes free only with no other reference to it. |
| `ItableCareful.LinkedIsSafe` | kernel/fs.c:551-575 | In such runs, any inode with a link may be looked up. |
| `ItableCareful.CarelessLookup` | kernel/fs.c:292-317 | After a lookup in such a run, "ilock: no type" can be reached if and only if the inode was free or just being freed or allocated. |
| `ItableLeak.LeakRace` | kernel/fs.c:336-362 | A run of careful lookups in which ialloc reuses the number during iput and create then fails: the inode stays in use without links or references. |
| `InodeTable.InodeTable.Iget` | kernel/fs.c:246-277 | The entry in use for the inode, else the first unused one, with one more reference; no other entry changes. |
| `InodeTable.InodeTable.Iupdate` | kernel/fs.c:225-241 | The disk inode becomes the copy; no other changes. |
| `InodeTable.InodeTable.Iunlock` | kernel/fs.c:320-327 | Only the lock is released. |
| `InodeTable.InodeTable.Iput` | kernel/fs.c:336-362 | One reference goes; the inode is freed on disk exactly when it was the last one and there are no links. |
| `InodeTable.InodeTable.IgetNamed` | kernel/fs.c:246-277 | iget for any number that a directory entry holds is one step of the step system, or finds no entry. |
| `InodeTable.InodeTable.Ialloc` | kernel/fs.c:198-219 | The first free inode is marked on disk and gets an entry, as two steps of the step system; without an entry left it stays marked. |
| `InodeTable.InodeTable.Ilock` | kernel/fs.c:292-317 | Waits exactly while another thread has the lock, panics exactly when the inode to load is free, and else holds a copy that is the disk's and has a type; no other entry changes. |
| `SleepLock.StepKeeps` | kernel/sleeplock.c:21-41 | Every step of acquiresleep, releasesleep, sleep, wakeup and kill keeps the invariant of a sleep-lock. |
| `SleepLock.MutualExclusion` | kernel/sleeplock.c:21-41 | In every run at most one thread is between acquiresleep and releasesleep, and lk->pid names it. |
| `SleepLock.NoLostWakeup` | kernel/sleeplock.c:21-41 | In every run, with lk->lk free nobody sleeps on a free sleep-lock, or is about to. |
| `SleepLock.Progress` | kernel/sleeplock.c:21-41 | While somebody is at a lock that nobody holds, acquiresleep, sleep or wakeup has a step to make. |
| `ProcInv.ForkKeeps` | kernel/proc.c:349-395 | Claiming a slot in fork keeps the invariant of the process table. |
| `ProcInv.ForkParentKeeps` | kernel/proc.c:387-389 | Linking the child to its parent keeps the invariant. |
| `ProcInv.ScanSlotKeeps` | kernel/proc.c:459-504 | A step of the scan of wait, also the one that frees a zombie, keeps the invariant. |
| `ProcInv.ScanEndKeeps` | kernel/proc.c:495-503 | The end of the scan of wait, giving up or finding that it has to sleep, keeps the invariant. |
| `ProcInv.SetSleepKeeps` | kernel/proc.c:604-631 | Going to sleep with p->lock held keeps the invariant. |
| `ProcInv.ReparentSlotKeeps` | kernel/proc.c:399-410 | Handing a child to init keeps the invariant; a zombie among them is owed a wakeup of init. |
| `ProcInv.WakeSlotKeeps` | kernel/proc.c:635-649 | Every round of wakeup keeps the invariant; past the parent's slot the parent is not going to sleep. |
| `ProcInv.DieKeeps` | kernel/proc.c:445-454 | Becoming a zombie, with p->lock held into the scheduler, keeps the invariant. |
| `ProcInv.DispatchKeeps` | kernel/proc.c:513-541 | Picking a runnable process keeps every process on at most one CPU. |
| `ProcInv.SwitchKeeps` | kernel/proc.c:550-568 | Leaving the CPU releases p->lock only when the process is off it. |
| `ProcInv.KillKeeps` | kernel/proc.c:654-673 | kill keeps the invariant; what it does is in ProcLife and ProcKill. |
| `ProcInv.SleepKeeps` | kernel/proc.c:604-631 | Taking p->lock before wait_lock is released keeps the invariant. |
| `ProcTheorems.RunKeeps` | kernel/proc.c:349-649 | Every interleaving of all processes and CPUs keeps the invariant. |
| `ProcTheorems.NoLostWakeup` | kernel/proc.c:415-504 | In every reachable state with wait_lock free, no process sleeps in wait, or is about to, while it has a zombie child. |
| `ProcTheorems.NoOrphans` | kernel/proc.c:399-410 | In every reachable state, the parent of any slot is alive: neither free nor a zombie. |
| `ProcTheorems.OnlyParentReaps` | kernel/proc.c:459-504 | A zombie is freed only by its current parent in wait, completely, and when it is on no CPU. |
| `ProcTheorems.ReapedOnce` | kernel/proc.c:415-504 | In every run, the deaths of a slot are its reaps, plus one while it is a zombie. |
| `ProcTheorems.WaitLockMoves` | kernel/proc.c:399-504 | The holder of wait_lock can always move, or the slot whose lock it waits for can move nearer to releasing it. |
| `ProcLife.StateAfter` | kernel/proc.c:349-673 | Which step takes a process from which state to which, for every step in every reachable state. |
| `ProcLife.KilledAfter` | kernel/proc.c:654-673 | The killed flag is set by kill and by nothing else, and cleared when the slot is freed. |
| `ProcLife.ParentAfter` | kernel/proc.c:387-410 | A process gets its parent in fork, and init when the parent exits. |
| `ProcLife.PidAfter` | kernel/proc.c:162-172 | Every fork that finds a slot, also one that then fails, uses up a new number. |
| `ProcLife.StatusAfter` | kernel/proc.c:447-448 | The status is the one passed to exit. |
| `ProcLife.RunNumbered` | kernel/proc.c:162-172 | In every run, no two processes have the same number, numbers are not used again, and exactly the free slots have number 0. |
| `ProcLife.WaitDelivers` | kernel/proc.c:415-504 | In every run, the number and status of a zombie, which wait delivers, are those with which that process called exit. |
| `ProcKill.KilledWhy` | kernel/proc.c:654-673 | In every run, a process is marked as killed if and only if some kill named its number or its slot was marked before it was made. |
| `ProcKill.KilledByNumber` | kernel/proc.c:654-673 | In every run without a kill of number 0, a process is marked if and only if a kill named its number. |
| `ProcKill.FreeMarked` | kernel/proc.c:654-673 | In every run, a free slot is marked only by a kill of number 0. |
| `ProcKill.KillZero` | kernel/proc.c:654-673 | The run: after kill(0), the next process in that slot is marked, though no kill named its number. |
| `ProcKill.KilledAsleep` | kernel/proc.c:495-503 | In every run, a killed process is asleep in wait, or about to be, only if a kill hit it after its test of the flag and before its sleep. |
| `ProcKill.KillMissed` | kernel/proc.c:495-503 | From every reachable state, such a kill is missed: the process can go to sleep with the flag set. |
| `ProcKill.LateKill` | kernel/proc.c:495-503 | The run: init waits for its child, which kills it at that moment, and init sleeps with the flag set. |
| `ProcTable.ProcTable.constructor` | kernel/proc.c:302-325 | After userinit only init exists, and the table is the boot state of the step system. |
| `ProcTable.ProcTable.Wakeup` | kernel/proc.c:635-649 | The loop makes exactly the processes asleep on the channel runnable, all but the caller, by steps of the step system. |
| `ProcTable.ProcTable.Reparent` | kernel/proc.c:399-410 | The loop hands every child to init, with a wakeup after each, by steps of the step system. |
| `ProcTable.ProcTable.Exit` | kernel/proc.c:437-454 | From the acquire of wait_lock to the switch: the table becomes the one that ExitAt describes slot by slot, by steps of the step system. |
| `ProcTable.ExitFacts` | kernel/proc.c:399-455 | So after exit no slot has the process as parent, and neither its parent nor an init that got a child is asleep in wait. |
| `ProcTable.ProcTable.Wait` | kernel/proc.c:459-504 | Frees exactly the first zombie child and returns its number and status, fails without children, when killed or when the copy fails, and else sleeps on its own channel; nothing else changes. |
| `ProcTable.ExitAt` | kernel/proc.c:399-455 | After exit, slot by slot: the process is a zombie with its status; its children are init's; who sleeps on its parent is awake, and so is who sleeps on init if there was a child; nothing else changes. |
| `ProcTable.ProcTable.Kill` | kernel/proc.c:654-673 | The first process with the number is marked, and made runnable if it sleeps; -1 exactly when no slot has the number. |
| `ShellGrammar.ParsesSentences` | user/sh.c:328-447 | The recursive descent accepts a token sequence with a tree exactly when the grammar derives it with that tree, at most nine words per simple command. |
| `ShellGrammar.Unambiguous` | user/sh.c:328-447 | No line has two trees. |
| `ShellGrammar.LineComplete` | user/sh.c:345-360 | Every derivation of a line is parsed to its tree, and parsing stops exactly at its end. |
| `ShellGrammar.LineSound` | user/sh.c:345-360 | What is parsed as a line has a derivation with that tree. |
| `ShellGrammar.ExecComplete` | user/sh.c:400-447 | Every derivation of a block or simple command is parsed to its tree. |
| `ShellGrammar.LineWords` | user/sh.c:328-447 | A tree points at every word of its line and at nothing else. |
| `ShellText.TokensSpell` | user/sh.c:266-309 | The tokens of a text, in characters: in order, with only white space between them, "<" for <, ">" not followed by another for >, ">>" for +, the symbol itself for the others, and longest runs of other characters for words. |
| `ShellText.SpellsOnly` | user/sh.c:266-309 | No other sequence of tokens spells the text. |
| `ShellShape.SentencePlaced` | user/sh.c:328-447 | The tree of a line has its parts where the text has them: each redirection right behind its symbol with its mode and descriptor, the sides of a pipe or list on the two sides of its symbol, a background command before its ampersand; and it has as many of each as the line has symbols. |
| `ShellShape.ShowParses` | user/sh.c:328-447 | Every tree, written out with parentheses, is a sentence whose tree it is. |
| `Shell.GetToken` | user/sh.c:266-309 | Returns the kind and bounds of the next token, as ShellText.TokensSpell spells it out in characters, and leaves the position at the rest; NUL at the end. |
| `Shell.Peek` | user/sh.c:311-321 | Skips white space only, and tells whether the next token starts with one of the symbols. |
| `Shell.ParseRedirs` | user/sh.c:375-398 | Agrees with the descent on tokens, failures included. |
| `Shell.ParseWords` | user/sh.c:416-447 | Agrees with the descent on tokens, and never stores past the argument array. |
| `Shell.ParseExec` | user/sh.c:416-447 | Agrees with the descent on tokens, failures included. |
| `Shell.ParseBlock` | user/sh.c:400-414 | Agrees with the descent on tokens, failures included. |
| `Shell.ParsePipe` | user/sh.c:362-373 | Agrees with the descent on tokens, failures included. |
| `Shell.ParseLine` | user/sh.c:345-360 | Agrees with the descent on tokens, failures included. |
| `Shell.NulTerminate` | user/sh.c:450-494 | Writes a NUL at the end of every word of the tree and nowhere else. |
| `Shell.WordsSurvive` | user/sh.c:450-494 | Ends of words fall on no character of a word, so each word then reads as its own text. |
| `Shell.ParseCmd` | user/sh.c:328-343 | Terminates; returns a tree exactly for the sentences of the grammar over the tokens that the text spells; redirections open the file that follows the symbol with the mode and descriptor of that symbol, pipes, lists and background commands stand for symbols between and behind their parts, no symbol is left over; every argv and file pointer then reads as its original token. |

## Left out

- Hardware: CSR access, traps, interrupt enabling, TLB fences, memory ordering and assembly. Spinlocks are
  atomic, and a critical section under one of them is one step.
- Console, pipes, UART and printf; `user/grep.c`, the test programs and the other user programs: they would
  only add easier members.
- `kernel/ramdisk.c`, which is not part of the kernel that the Makefile builds.
- Device numbers beyond one, and the contents of devices.
- Disk errors: a write that completes is durable and the status is success; a crash may tear any block
  between its two sectors.
- `virtio_disk_init` and the MMIO registers, and the data that the device transfers. The device completes each
  chain that it takes at most once, in any order.
- The sleep-locks of buffers and inodes are modelled by who holds them; `SleepLock` is the model of one such
  lock.
- The kernel page table, and the translation of addresses by the hardware.
- Log.Log.EndOp: runs its commit in one piece, as one process does; the interleavings of a commit with other
  processes and crashes are the steps of `LogProtocol`.
- Log.Log.LogWrite: reports the capacity panic as a result instead of stopping.
- ExecImage.Exec: takes the program headers and what reading the file gives as a parameter; the search for the
  file, the ELF header, and the bytes that `copyout` puts on the stack are not modelled. Argument strings are
  shorter than a page, as `fetchstr` makes them.
- ExecImage.LoadSeg: takes each page as it is after the read; how the last, partly read page is composed is not
  modelled.
- ProcImage.Fork: leaves out open files, the current directory, the name and the scheduling of the child;
  the latter is in `ProcProtocol`.
- Umalloc.Heap.Malloc: requires sizes below 2^31 bytes, since sbrk takes an int; addresses from sbrk increase.
- Bio.Bcache.Brelse: requires that a buffer whose last reference goes has its data on disk, which the log
  guarantees by pinning; the cache itself does not check it.
- Bio.Bcache.Bget: requires a device number other than 0, since fresh buffers carry device 0.
- Fs.EmptyDisk: is the image of mkfs before it writes the root directory and the programs.
- Fs.Fs.Bfree: requires that the block is marked used, since bfree panics otherwise; that its callers meet this
  is part of `Fs.Fs.Itrunc`.
- Fs.Fs.Writei: requires an inode in use, as ilock guarantees, and assumes that copying from user memory does
  not fail; a copy that fails halfway leaves changed bytes in the buffer.
- Fs.Fs.Readi: requires an inode in use, as ilock guarantees, and assumes that copying to user memory does not
  fail.
- Fs.Fs.constructor: takes the image as it is after the recovery of the log; the check of the superblock is not
  modelled.
- Log.Log.constructor: requires that the header lists no more blocks than the log has, each at home outside of it,
  as every header that the code writes does; read_head does not check it.
- Fs.Fs.Balloc: models the bitmap as bits; their packing into bytes is not modelled.
- Fs.Fs.FileWrite: models the case of an inode; pipes and devices are left out.
- ProcTable.ProcTable.Exit: runs in one piece, with no other process in the middle of a switch; the
  interleavings are the steps of `ProcProtocol`. The closing of files before it is left out.
- ProcTable.ProcTable.Kill: runs in one piece, as above.
- ProcTable.ProcTable.Wait: runs in one piece up to the sleep, as above; whether the status can be copied out
  is a parameter.
- InodeTable.InodeTable.Iput: runs in one piece, as one thread does; the interleavings are the steps of `Itable`.
- Namespace.Namespace.Link: runs in one piece; what other calls see in between is in `LinkCounts`. Room for a
  new directory slot is a parameter here and in `Namespace.Namespace.Create`, and file contents are not part of
  an inode.
- Namespace.Namespace.Iput: frees without a test of `valid`, since an inode without links that is not loaded
  is free already; `Itable` has that test.
- Namespace.Namespace.constructor: has a root directory without the entries for the programs, and at most 65536
  inodes, since `dirent.inum` has 16 bits.
- Itable.TableAgrees: threads write a changed copy back before they unlock it; a read of a hole does not, which
  is the subject of `FsRead`.
- LinkCounts.StepKeeps: a directory slot is a number; that directories themselves are removed is in `Namespace`.
- ItableCareful.CarelessLookup: the panic can be reached by a run that makes no other careless lookup; that
  the schedulers choose this run is not stated.
- ProcMemory.Machine.Spawn: takes the slot that allocproc finds as a parameter.
- ProcMemory.Machine.Fork: runs in one piece, as do the other calls there; the interleavings of kalloc and kfree
  by other processes are the steps of `PageSteps`. Pages of pipes are left out.
- PageSteps.StepKeeps: how many pages a call needs and what it stores in them is left open, so page tables are
  pages like others there; their structure is in `ProcMemory`.
- ProcTheorems.RunKeeps: fork's copying of memory and files, and the closing of files in exit, are not part of
  the step system. Process numbers do not wrap around. The slots that kill passes on its way are not steps, and a
  fork that finds no slot changes nothing.
- Shell.ParseCmd: memory for the tree is unlimited; a panic of the shell is the result None.
- `runcmd` of the shell, which executes the tree.
