# xv6 (RISC-V, with waitpid, semaphores, shared memory and signals): a Dafny model

This project models the parts of the kernel and of two user programs in which correctness hangs on whole runs,
loops or linked structures, and proves what they are meant to guarantee. Check it with
`dafny verify dfyconfig.toml`.

| files | what they model |
|---|---|
| `RedoLog`, `RedoLogCode` | `kernel/log.c`: the redo log as a machine that may crash between any two block writes, and the code that runs it |
| `PageTable`, `PageTableCode` | `kernel/vm.c`, `kernel/kalloc.c`: Sv39 tables in physical memory against a flat map, and the ownership of pages |
| `Fs`, `FsCode`, `Mkfs` | `kernel/fs.c`, `kernel/file.c`, `mkfs/mkfs.c`: bitmap, block ownership, file contents, chunked writes, the initial image |
| `Links` | `kernel/fs.c`, `kernel/sysfile.c`: directories as name maps, and link counts |
| `SleepWake` | `kernel/proc.c`: sleep, wakeup, fork, exit, wait, waitpid and kill, interleaved step by step |
| `Bcache` | `kernel/bio.c`: the list of buffers and the cache it implements |
| `Virtio` | `kernel/virtio_disk.c`: descriptors, rings, and a device that answers in any order |
| `Malloc` | `user/umalloc.c`: the circular free list |
| `Shell`, `ShellCode` | `user/sh.c`: tokens, grammar, parser, `nulterminate` |
| `Regex` | `user/grep.c`: the matcher and the line buffer |
| `Pipe`, `Semaphore`, `Shm` | `kernel/pipe.c`, `kernel/semaphore.c`, the segment table of `kernel/sysproc.c` |
| `Runs`, `Pigeonhole` | shared: finite runs of a transition relation, and counting |

Where the source updates something in place, the model is a class whose methods follow the code, and whose ghost
fields say what the concrete ones stand for. Where the source is concurrent, the model is a machine whose events are
the atomic sections of the code, or a class whose methods are such sections, so that a run is any sequence of calls.

## What is proved

* **Crash atomicity.** Wherever a run of the file system stops, inside a commit or inside any number of
  recoveries, recovering its disk gives exactly the updates made durable so far, and no operation is half in.
* **Refinement of page tables.** Three levels of tables act as one flat map; every page is free, a table, user
  memory or in hand, through every failure path.
* **Ownership of blocks.** The set bits of the bitmap are the metadata and the blocks that inodes reach, each
  from one place.
* **No lost wakeup**, in every interleaving, and no parent asleep while the child it waits for is a ZOMBIE.
* Further invariants of the cache, the disk driver, the allocator, directories, pipes, semaphores and segments,
  and the round trips of the shell parser and the matcher.

Some expectations turn out to be false, and are stated with the exact condition under which they hold:

* `log_write` panics inside the budget. Calls that add a block never do if and only if the log has more than LOGSIZE
  blocks; `mkfs` makes it LOGSIZE (`RedoLog.AppendGuardExact`). Calls for a block that is logged already do so in some
  run however large the log is, because the guard comes before the search (`RedoLog.AbsorbedPanics`), and exactly when
  the log is full (`RedoLog.GuardExact`).
* `waitpid(-1)` waits for the first child in the table, not for any child as README.md:44 of the repository says
  (`SleepWake.AnyChildCanBeForgotten`): a call sleeps exactly when that first child is no ZOMBIE
  (`SleepWake.AnySleepsExact`), and a caller with one child is safe (`SleepWake.OnlyChildIsSeen`). The model follows
  the code.
* `uvmdealloc` panics when `oldsz` is larger than the mapped size by a page or more, though its comment
  (kernel/vm.c:258-261) allows that (`PageTableCode.Vm.Uvmdealloc`, `PageTableCode.ShrinkEmpty`). The model follows the
  code.
* `malloc` keeps its heap only for sizes up to 2^31 - 32 bytes (`Malloc.MorecoreExact`): the argument of `sbrk`
  is an `int`.
* `link` and `create` keep the counts and the tree exactly when the directory has not been removed while in use
  (`Links.LinkExact`, `Links.CreateExact`), and such a directory can be reached (`Links.LinkIntoRemoved`,
  `Links.CreateInRemoved`).
* `mkfs` leaves the root directory without a hole exactly when its entries do not fill their blocks
  (`Mkfs.Image.RoundUp`); 64 entries do (`Mkfs.FullRoot`).
* A semaphore excludes exactly while its queue has no stale entry, which a waiter woken by anything but `sem_post`
  leaves behind until it is taken out (`Semaphore.Sem.ExclusiveExact`, `Semaphore.StaleEntry`). `sem_destroy` notices
  waiters as long as only `sem_post` wakes them (`Semaphore.Sem.Destroy`); with 63 stale entries it overlooks one
  (`Semaphore.HiddenWaiter`).
* `grep` stops at a line that does not fit its buffer or has a NUL in it (`Regex.Grep`).
* The disk interrupt panics exactly when a completion it has not seen yet has a status other than 0
  (`Virtio.Disk.Interrupt`, `Virtio.FailedRequest`).
* A segment's `refcount` that agrees with the recorded processes goes on doing so exactly while the array has room, and
  that of a new segment agrees exactly when its slot recorded at most one process before (`Shm.Table.Shmget`,
  `Shm.FullArray`, `Shm.ReusedSlot`).
* The shell parses back what it prints exactly for commands with at most 9 arguments (`Shell.PrintThenParse`).

## Model

| member | source | states |
|---|---|---|
| RedoLog.CrashAtomicity | kernel/log.c:68-203 | at every state of every run, crashes and repeated recoveries included, recovering the disk gives home blocks equal to the first `durable` updates, and no operation has updates on both sides of that line |
| RedoLog.ReadersSeeEverything | kernel/log.c:147-203 | while the system is up, a reader of any home block sees all updates made so far, committed or not |
| RedoLog.QuiescentIsDurable | kernel/log.c:147-175 | once no operation is in progress and no commit runs, every update survives a crash |
| RedoLog.DurableStays | kernel/log.c:194-203 | an update that is durable stays durable through every later event, crashes included |
| RedoLog.RecoveryIdempotent | kernel/log.c:117-123 | however often recovery is cut short by another crash, once one finishes the home blocks are what an undisturbed recovery makes of the disk at the first crash |
| RedoLog.InstallFromAt | kernel/log.c:69-83 | installing a log puts the slot of each logged block in its home place and leaves every other home block alone |
| RedoLog.RecoveredPointwise | kernel/log.c:117-123 | what a whole recovery does to each block, and that it leaves the header empty |
| RedoLog.RecoversToMeaning | kernel/log.c:117-123 | the invariant's local condition on slots and home blocks is equivalent to "recovery yields these home blocks" |
| RedoLog.Reservation | kernel/log.c:127-164 | logged blocks plus the unused budgets of all operations never exceed LOGSIZE, so an operation inside its budget finds a free entry |
| RedoLog.GuardExact | kernel/log.c:215-235 | in every run a `log_write` inside the budget panics exactly when the log is full; in a log of more than LOGSIZE blocks that takes LOGSIZE entries, and then the block is logged already and every budget is spent |
| RedoLog.AppendGuardExact | kernel/log.c:215-235 | calls that add a block panic in no run if and only if the log has more than LOGSIZE blocks |
| RedoLog.AbsorbedPanics | kernel/log.c:215-235 | for every log a run that leads to a panic of a call for a block that is logged already |
| RedoLog.StepKeeps | kernel/log.c:69-235 | every event keeps the invariant that ties disk, cache, header, reservations and history together |
| RedoLogCode.LogDevice.constructor | kernel/log.c:55-65 | a fresh image starts the run |
| RedoLogCode.LogDevice.BeginOp | kernel/log.c:127-142 | admits exactly when no commit runs and a full further operation fits, and then is the machine's Begin; otherwise nothing changes and the caller sleeps |
| RedoLogCode.LogDevice.FindEntry | kernel/log.c:225-228 | finds the block among the logged ones if and only if it is there (absorption) |
| RedoLogCode.LogDevice.LogWrite | kernel/log.c:215-235 | panics exactly when the log is full or no operation is in progress, otherwise logs the block once, and is the machine's Log |
| RedoLogCode.LogDevice.WriteLogBlocks | kernel/log.c:179-191 | copies every logged block to its slot, one crash point after each |
| RedoLogCode.LogDevice.HeaderBlock | kernel/log.c:103-111 | builds the header block with exactly the logged entries |
| RedoLogCode.LogDevice.WriteHeader | kernel/log.c:103-114 | one block write makes every update made so far durable |
| RedoLogCode.LogDevice.InstallTrans | kernel/log.c:69-83 | installs all logged blocks, during a commit or a recovery, without changing what is durable |
| RedoLogCode.LogDevice.EraseHeader | kernel/log.c:200-201 | ends the transaction without changing what is durable |
| RedoLogCode.LogDevice.CommitTransaction | kernel/log.c:194-203 | a commit makes the whole history durable |
| RedoLogCode.LogDevice.ModifyBuffer | kernel/log.c:205-214 | a change to a held buffer is one more update of the history |
| RedoLogCode.LogDevice.EndOp | kernel/log.c:147-175 | the last operation out commits everything logged by all of them |
| RedoLogCode.LogDevice.PowerLoss | kernel/log.c:117-123 | what was in memory is gone, and the updates that are not durable with it |
| RedoLogCode.LogDevice.ReadHead | kernel/log.c:87-97 | the in-memory header becomes the one on disk |
| RedoLogCode.LogDevice.RecoverFromLog | kernel/log.c:117-123 | after boot the home blocks are the durable updates applied to the initial disk, no more and no less |
| PageTable.WordRoundTrip | kernel/riscv.h:367-371 | an entry packed into a word gives back its page and flags |
| PageTable.PxDetermines | kernel/riscv.h:374-382 | the three indices and the offset are the address, for every address below MAXVA |
| PageTable.HwWalkIsFlat | kernel/vm.c:73-103 | following three levels of tables in memory reads exactly the flat map from virtual page to entry |
| PageTable.HangKeeps | kernel/vm.c:95-99 | hanging a zeroed page into the tree keeps the tree and translates nothing new |
| PageTable.StoreKeeps | kernel/vm.c:144-172 | storing a leaf entry changes exactly one translation of one table |
| PageTable.NewRootKeeps | kernel/vm.c:204-212 | a zeroed page is an empty table and changes no other |
| PageTable.DropNode | kernel/vm.c:279-294 | a childless table page leaves the tree without touching other tables |
| PageTableCode.Vm.constructor | kernel/kalloc.c:27-31 | physical memory before the free list exists |
| PageTableCode.Vm.Freerange | kernel/kalloc.c:34-40 | afterwards exactly the pages of the range are free |
| PageTableCode.Vm.Kalloc | kernel/kalloc.c:69-82 | fails exactly when nothing is free; a page handed out was free and is nobody's |
| PageTableCode.Vm.Kfree | kernel/kalloc.c:47-63 | panics exactly at an address that is no page of its memory; otherwise the page is free again and every table keeps its translations |
| PageTableCode.Vm.Memfree | kernel/kalloc.c:86-100 | PGSIZE times the number of free pages |
| PageTableCode.Vm.Walk | kernel/vm.c:86-103 | the slot of the leaf entry; it changes no translation, panics exactly at MAXVA and above, fails without `alloc` only if the table page is missing and with it only when memory is out |
| PageTableCode.Vm.MapOne | kernel/vm.c:155-170 | one insertion into the flat map, or the exact reason why not |
| PageTableCode.Vm.Mappages | kernel/vm.c:144-172 | the size and alignment panics exactly for an empty range and for one that is not aligned; inserts a range into the flat map only when nothing in it was mapped and all of it is below MAXVA, and leaves every other translation of every table alone; a failure has mapped a prefix and has its reason |
| PageTableCode.Vm.UnmapOne | kernel/vm.c:186-198 | one deletion from the flat map, with or without freeing its page; the panic exactly at a page that is not mapped |
| PageTableCode.Vm.Uvmunmap | kernel/vm.c:178-199 | deletes exactly the mapped pages up to the first that is not, where it panics, frees exactly their pages, and keeps all other data; it does not panic if and only if all are mapped |
| PageTableCode.Vm.Uvmcreate | kernel/vm.c:204-212 | an empty table, or nothing taken |
| PageTableCode.Vm.Uvmdealloc | kernel/vm.c:263-274 | exactly the pages above the new size are unmapped and free; it panics exactly when one of them is not mapped, having freed those before it |
| PageTableCode.ShrinkEmpty | kernel/vm.c:263-274 | the panic, for every memory: shrinking a new table |
| PageTableCode.Vm.GrowOne | kernel/vm.c:241-254 | one page more, or everything added so far given back |
| PageTableCode.Vm.Uvmalloc | kernel/vm.c:233-256 | zeroed pages of its own from the old size to the new; on failure every user page is given back, all translations and data are as before, and no more pages are free than were asked for |
| PageTableCode.Vm.CopyOne | kernel/vm.c:320-339 | one page copied, or every copied page given back |
| PageTableCode.Vm.Uvmcopy | kernel/vm.c:313-340 | the child has copies of the parent's pages with the parent's flags on pages of its own; a failure leaves at most table pages of the child |
| PageTableCode.Vm.Freewalk | kernel/vm.c:279-294 | exactly the table pages below a position go out of use, and no other table changes |
| PageTableCode.Vm.Uvmfree | kernel/vm.c:299-304 | afterwards no page belongs to the table, and all other pages and translations are as they were |
| PageTableCode.Vm.ForkMemory | kernel/proc.c:290-307 | the memory half of `fork`: a faithful copy, or the free set and every page's use exactly as before; either way every other table keeps its translations and data |
| PageTableCode.Vm.AbandonChild | kernel/proc.c:302-307 | freeing the child of a failed copy gives back everything it took |
| PageTableCode.RoundTrip | kernel/vm.c:299-340 | create, fail to copy, free: the pages in use are the same as at the start |
| Malloc.Disjoint | user/umalloc.c:24-90 | no two blocks, free or allocated, share a unit |
| Malloc.RequestExact | user/umalloc.c:47-54 | the request reaches `sbrk` unchanged exactly for sizes up to 2^31 - 32 bytes |
| Malloc.MorecoreExact | user/umalloc.c:47-61 | the block made of new memory fits a heap exactly for those sizes, whatever the kernel makes of a negative argument; a larger one reaches past the break |
| Malloc.RequestWraps | user/umalloc.c:54 | 2^32 - 1 bytes reach `sbrk` as a request for one header |
| Malloc.Onward | user/umalloc.c:74-88 | each turn of the search comes strictly nearer to the block it will take or to its start |
| Malloc.WentRound | user/umalloc.c:85-87 | the search is back at its start only if no free block is large enough |
| Malloc.Heap.constructor | user/umalloc.c:21-22 | an empty heap |
| Malloc.Heap.FindSlot | user/umalloc.c:29-32 | the search loop ends at the one list position where the block belongs, wherever it starts |
| Malloc.Heap.LinkUpper | user/umalloc.c:33-37 | joins the block with the free block right after it, and with no other |
| Malloc.Heap.LinkLower | user/umalloc.c:38-42 | joins it with the free block right before it; the list is circular, sorted and coalesced again |
| Malloc.Heap.Free | user/umalloc.c:25-44 | exactly this block becomes free, the units of the heap stay partitioned, and a request of its size can be met |
| Malloc.Heap.Morecore | user/umalloc.c:47-61 | the new units join the heap as free memory and make the request satisfiable; a refusal changes nothing |
| Malloc.Heap.Carve | user/umalloc.c:75-84 | a block of exactly the units asked for, which no live block overlaps, from one free block |
| Malloc.Heap.Search | user/umalloc.c:74-89 | terminates, and fails exactly when no free block is large enough and `sbrk` refuses |
| Malloc.Heap.Malloc | user/umalloc.c:64-90 | null only if refused; otherwise a new block with room for the bytes, the other live blocks unchanged and the heap partitioned |
| Fs.WithBitAt | kernel/fs.c:72-80 | setting or clearing a bit of a bitmap block changes that bit only |
| Fs.WithWordAt | kernel/fs.c:408-414 | storing a little-endian word in an indirect block changes that word only |
| Fs.TakeBits | kernel/fs.c:66-88 | marking a block used keeps the bitmap equal to metadata, owned and held blocks |
| Fs.GiveBits | kernel/fs.c:92-105 | so does marking it free |
| Fs.HangDirect | kernel/fs.c:388-395 | putting a zeroed block into an inode keeps ownership unique and changes no file's bytes |
| Fs.HangIndirect | kernel/fs.c:401-406 | so does a new indirect block |
| Fs.HangEntry | kernel/fs.c:409-414 | so does an entry of an indirect block |
| Fs.WriteData | kernel/fs.c:516-528 | writing a data block changes the bytes of one block of one file |
| FsCode.FileSystem.constructor | kernel/fs.c:42-47 | a disk whose bitmap and inodes agree |
| FsCode.FileSystem.Balloc | kernel/fs.c:66-88 | a zeroed block that no inode owns and no caller holds, or 0 exactly when all bits are set |
| FsCode.FileSystem.Bfree | kernel/fs.c:92-105 | never meets a block that is free already, and frees just this one |
| FsCode.FileSystem.Bmap | kernel/fs.c:383-421 | the block behind a file's block, allocated if need be across direct and indirect blocks; no byte of any file changes, and 0 only when the disk is full |
| FsCode.FileSystem.Writei | kernel/fs.c:506-539 | exactly when the range is in bounds, overwrites exactly the bytes written and nothing else of any file, and sets the size to max(size, off+n); short only when the disk is full; what it logs is bounded |
| FsCode.FileSystem.Readi | kernel/fs.c:472-496 | the bytes of the file in the range, up to its end; short only at a hole with the disk full; a file without holes is read without allocating |
| FsCode.ReadBack | kernel/fs.c:472-539 | a read of a range after a write of it returns what was written |
| FsCode.FileSystem.WriteThenRead | kernel/fs.c:472-539 | a `readi` of what `writei` has written returns exactly that |
| FsCode.NoNewHole | kernel/fs.c:506-539 | a write that starts inside a file without holes leaves none |
| FsCode.FileSystem.Itrunc | kernel/fs.c:426-453 | frees exactly the blocks of this inode and never panics with "freeing free block"; other files keep their bytes |
| FsCode.FileSystem.WriteChunk | kernel/file.c:157-167 | one transaction of `filewrite` logs at most 6 blocks plus the bitmap, and at most MAXOPBLOCKS as long as the bitmap has at most 4 blocks |
| FsCode.FileSystem.Filewrite | kernel/file.c:135-181 | writes a prefix of the data in order, all of it unless out of bounds or out of blocks, with every transaction inside that bound |
| FsCode.WrittenThrough | kernel/file.c:157-174 | two writes, the second where the first ended, are one write |
| FsCode.Budget | kernel/file.c:149-155 | 3072 bytes at any offset meet at most 4 data blocks |
| Mkfs.Image.constructor | mkfs/mkfs.c:93-111 | an empty image |
| Mkfs.Image.Place | mkfs/mkfs.c:271-285 | the block for a file's block, taken from the bump allocator without changing any file's bytes or any other place of any file |
| Mkfs.Image.Iappend | mkfs/mkfs.c:255-296 | appends exactly the bytes, leaves no hole and allocates nothing past the end; fails only past the largest file or with the image full |
| Mkfs.Image.RoundUp | mkfs/mkfs.c:165-170 | rounding the root directory's size up leaves it without a hole exactly when its entries do not fill their blocks |
| Mkfs.FullRoot | mkfs/mkfs.c:117-170 | a root directory of 64 entries ends in a hole |
| Mkfs.Image.Bitmap | mkfs/mkfs.c:237-250 | marks exactly the metadata and the blocks files own, as long as they fit one bitmap block |
| Mkfs.Image.Mount | mkfs/mkfs.c:172 | the kernel's invariant holds of the image |
| Links.LinkKeeps | kernel/sysfile.c:124-170 | a new name for a file keeps counts, unique names and the shape of the tree |
| Links.LinkExact | kernel/sysfile.c:124-170 | with everything else in order, it keeps them exactly when the directory has not been removed |
| Links.CreateExact | kernel/sysfile.c:246-302 | so does `create`: it keeps counts and tree, for files and directories, exactly then |
| Links.MakeKeeps | kernel/sysfile.c:270-288 | so does a new directory with "." and ".." |
| Links.UnlinkKeeps | kernel/sysfile.c:189-243 | so does removing a file's name |
| Links.OneLink | kernel/sysfile.c:214-231 | an empty directory has exactly one link |
| Links.ParentStays | kernel/sysfile.c:224-231 | the parent of a directory keeps its own name when ".." goes |
| Links.RemoveKeeps | kernel/sysfile.c:189-243 | removing an empty directory keeps everything |
| Links.ReplaceKeeps | kernel/fs.c:337-362 | what happens to an inode without links does not matter to the invariant |
| Links.RootAlone | mkfs/mkfs.c:117-128 | the tree `mkfs` starts from satisfies it |
| Links.Namespace.constructor | mkfs/mkfs.c:117-128 | the root directory alone |
| Links.Namespace.Dirlookup | kernel/fs.c:552-575 | finds the entry with the name if and only if there is one |
| Links.Namespace.Dirlink | kernel/fs.c:580-606 | writes the entry to the first empty slot or at the end; fails exactly when the name is there or no block is left |
| Links.Namespace.Ialloc | kernel/fs.c:199-219 | the first free inode |
| Links.Namespace.IsDirEmpty | kernel/sysfile.c:174-186 | true exactly when no entry past ".." is in use |
| Links.Namespace.Iput | kernel/fs.c:337-362 | frees the inode exactly when this is the last reference and it has no links |
| Links.Namespace.CreateFile | kernel/sysfile.c:262-301 | makes exactly one inode and one entry, or leaves everything as it was; the counts stay right exactly when the directory has not been removed |
| Links.Namespace.CreateDir | kernel/sysfile.c:262-301 | makes a directory with its dots and its parent's link, or, from whichever step fails, leaves everything as it was; the counts likewise |
| Links.Namespace.Create | kernel/sysfile.c:246-302 | when it returns the inode that has the name, when it makes one, when it fails and when it panics because that inode has been freed, each exactly; a new one keeps the invariant exactly in a directory that has not been removed |
| Links.Namespace.Link | kernel/sysfile.c:124-170 | succeeds exactly for a file and a new name with room, and keeps the counts exactly in a directory that has not been removed; otherwise the count is put back |
| Links.Namespace.Unlink | kernel/sysfile.c:189-243 | in any directory, removed ones included, succeeds exactly for a name other than the dots whose target may go; then just that entry and its links are gone |
| Links.RemovedInUse | kernel/sysfile.c:189-302 | a run that removes a directory somebody is in |
| Links.LinkIntoRemoved | kernel/sysfile.c:124-170 | a link into that directory makes the counts wrong |
| Links.CreateInRemoved | kernel/sysfile.c:246-302 | so does a file made there |
| SleepWake.NoLostWakeup | kernel/proc.c:558-602 | in every interleaving, a process inside `sleep(c, l)` when a `wakeup(c)` issued under `l`, by a process or by an interrupt handler on an idle CPU, runs to its end has been made RUNNABLE in between |
| SleepWake.LeavesOnlyWoken | kernel/proc.c:558-626 | a sleeper leaves its sleep only by a wakeup on its channel or by being killed |
| SleepWake.WokenOnTheWay | kernel/proc.c:589-626 | between a sleep and its end lies the step that woke the sleeper |
| SleepWake.NoForgottenZombie | kernel/proc.c:340-445 | while `wait_lock` is free nobody sleeps in `wait` with a ZOMBIE child, in `waitpid(pid)` while that child is one, or in `waitpid(-1)` while its first child is |
| SleepWake.AnyChildCanBeForgotten | kernel/proc.c:717-765 | a concrete run in which `waitpid(-1)` sleeps beside a ZOMBIE child |
| SleepWake.AnySleepsExact | kernel/proc.c:717-765 | whatever others do during its scan, `waitpid(-1)` goes to sleep exactly when its first child in the table is no ZOMBIE as of the call, and returns otherwise |
| SleepWake.OthersLeaveChildren | kernel/proc.c:340-445 | while a process holds `wait_lock`, nobody else changes who its children are or which of them have exited |
| SleepWake.ForgottenOnlyBehindFirst | kernel/proc.c:717-765 | it overlooks a ZOMBIE only behind an earlier child in the table that has not exited |
| SleepWake.OnlyChildIsSeen | kernel/proc.c:717-765 | a caller of `waitpid(-1)` with a single child never sleeps beside its ZOMBIE |
| SleepWake.EveryParentLives | kernel/proc.c:341-396 | no ZOMBIE, free slot or unstarted process ever has children |
| SleepWake.PidsDiffer | kernel/proc.c:103-182 | slots in use have different pids |
| SleepWake.EventKeeps | kernel/proc.c:119-765 | every step of every call, and every interrupt handler, keeps the invariant over locks, states, channels, parents, scans and sleepers |
| SleepWake.StartInv | kernel/proc.c:243-265 | the first process alone satisfies it |
| Bcache.Pushed | kernel/bio.c:130-133 | the four pointer writes put a buffer at the front of the circular list |
| Bcache.Unlinked | kernel/bio.c:128-129 | the two pointer writes take a buffer out of it |
| Bcache.SameBuffers | kernel/bio.c:126-134 | moving a buffer keeps the list a permutation of the buffers |
| Bcache.SortedFront | kernel/bio.c:126-134 | and keeps it in the order of last moves |
| Bcache.Recycled | kernel/bio.c:77-82 | giving an unreferenced buffer to another block loses no content |
| Bcache.Cache.constructor | kernel/bio.c:37-53 | all buffers in one list, none holding a block |
| Bcache.Cache.FindCached | kernel/bio.c:66-73 | the buffer of the block, if there is one |
| Bcache.Cache.FindVictim | kernel/bio.c:77-87 | the unreferenced buffer moved to the front longest ago |
| Bcache.Cache.Bget | kernel/bio.c:59-89 | at most one buffer per block; a referenced buffer is never recycled; the victim is always the least recently released; panics exactly when the block is not cached and all buffers are referenced |
| Bcache.Cache.AcquireSleep | kernel/sleeplock.c:22-31 | the lock has one holder, who has a reference |
| Bcache.Cache.Fill | kernel/bio.c:98-101 | a locked buffer gets what the plain array of blocks has |
| Bcache.Cache.Modify | kernel/bio.c:1-16 | a holder's change is a change of the plain array |
| Bcache.Cache.Bread | kernel/bio.c:93-103 | gets the buffer and, if its lock is free, what the plain array of blocks holds; otherwise it waits with a reference of its own, and the block it asked for is recorded |
| Bcache.Cache.Resume | kernel/bio.c:71-103 | when the lock comes free, whatever happened in between, the buffer is still that of the block asked for, and has what the plain array holds |
| Bcache.Cache.Bwrite | kernel/bio.c:107-112 | brings the disk up to date, or panics exactly when the caller does not hold the buffer |
| Bcache.Cache.MoveToFront | kernel/bio.c:126-134 | the list stays a circular permutation, with this buffer first |
| Bcache.Cache.Brelse | kernel/bio.c:117-137 | drops lock and reference, moves the buffer exactly at the last reference, and loses no content of callers who log or write every change |
| Bcache.Cache.Bpin | kernel/bio.c:140-144 | one more reference, which is a pin |
| Bcache.Cache.Bunpin | kernel/bio.c:147-151 | one pin less by the holder, whose own reference is left, so the buffer needs no move |
| Virtio.RingPush | kernel/virtio_disk.c:271-277 | a new entry overwrites none that is unread, wrap-around of the 16-bit index included |
| Virtio.RingPop | kernel/virtio_disk.c:312-323 | the index test is exact and no entry is lost when it wraps |
| Virtio.StartKeeps | kernel/virtio_disk.c:226-277 | offering a chain keeps descriptors, rings and buffers in order |
| Virtio.FetchKeeps | kernel/virtio_disk.c:271-281 | so does the device taking up the oldest offer |
| Virtio.ServeKeeps | kernel/virtio_disk.c:235-265 | so does the device completing any request it has taken, with any status |
| Virtio.NoticeKeeps | kernel/virtio_disk.c:312-323 | so does the driver seeing a completion with status 0 |
| Virtio.EndKeeps | kernel/virtio_disk.c:283-289 | a seen chain can be taken apart without touching another |
| Virtio.Apart | kernel/virtio_disk.c:202-213 | chains in flight share no descriptor |
| Virtio.Disk.constructor | kernel/virtio_disk.c:62-153 | all descriptors free, both rings empty |
| Virtio.Disk.SetBuffer | kernel/bio.c:59-89 | between requests a buffer may get any content and any block |
| Virtio.Disk.AllocDesc | kernel/virtio_disk.c:157-166 | a free descriptor, or the news that none is |
| Virtio.Disk.FreeDesc | kernel/virtio_disk.c:170-182 | never panics on a descriptor taken from a chain |
| Virtio.Disk.FreeChain | kernel/virtio_disk.c:186-197 | frees exactly the chain |
| Virtio.Disk.Alloc3Desc | kernel/virtio_disk.c:202-213 | three different descriptors, or none and there were not three |
| Virtio.Disk.Submit | kernel/virtio_disk.c:216-281 | one more request in flight, laid out as section 5.2.6 of VIRTIO 1.1 asks |
| Virtio.Disk.DeviceTakes | kernel/virtio_disk.c:271-281 | the device gets the oldest offer, unharmed |
| Virtio.Disk.DeviceCompletes | kernel/virtio_disk.c:235-265 | with status 0 the right block moves in the right direction; with another one only the target of the transfer may be spoilt |
| Virtio.Disk.Interrupt | kernel/virtio_disk.c:295-327 | panics exactly when a reported completion it has not seen has a status other than 0, after seeing those before it; otherwise every reported completion is seen once |
| Virtio.FailedRequest | kernel/virtio_disk.c:295-327 | a run in which the first request fails and the interrupt panics |
| Virtio.Disk.Finish | kernel/virtio_disk.c:283-292 | a request returns only after its own completion, and then buffer and disk agree |
| Shell.PrintThenParse | user/sh.c:329-447 | a command tree is what its tokens parse to exactly when every simple command has at most 9 arguments |
| Shell.LineMap | user/sh.c:346-360 | the parser does not look into words |
| ShellCode.Gettoken | user/sh.c:267-309 | takes exactly the next token off the buffer |
| ShellCode.Peek | user/sh.c:312-321 | looks at the next token and consumes only white space |
| ShellCode.Parseredirs | user/sh.c:376-398 | parses exactly the redirections in front |
| ShellCode.Parseexec | user/sh.c:417-447 | terminates on every input and agrees with the grammar on tree, rest of the input and panic |
| ShellCode.Parseblock | user/sh.c:401-414 | likewise for blocks |
| ShellCode.Parsepipe | user/sh.c:363-373 | likewise for pipes |
| ShellCode.Parseline | user/sh.c:346-360 | likewise for lines |
| ShellCode.ParsedWords | user/sh.c:417-447 | every word of a parsed command is a whole word of the buffer |
| ShellCode.CutWord | user/sh.c:451-494 | writing NULs at the ends of words leaves every word whole and ends it |
| ShellCode.Nulterminate | user/sh.c:451-494 | writes NUL exactly at the ends of the command's words |
| ShellCode.Parsecmd | user/sh.c:329-343 | the tree the tokens parse to with every word a C string equal to its text, or the panic with the buffer unchanged |
| ShellCode.LexRender | user/sh.c:267-309 | printed tokens are read back |
| ShellCode.RoundTrip | user/sh.c:329-494 | a command tree printed as text parses to a tree that spells the same command |
| Regex.OneHere | user/grep.c:85-96 | a literal or `.` against the declarative semantics |
| Regex.ManyHere | user/grep.c:99-106 | `c*` likewise: some number of fitting characters, then the rest |
| Regex.EndHere | user/grep.c:91-92 | `$` at the end of the pattern matches exactly at the end of the text |
| Regex.MatchHere | user/grep.c:85-96 | true exactly when the text can be cut so that each element of the pattern covers its piece; terminates |
| Regex.MatchStar | user/grep.c:99-106 | true exactly when some stretch of fitting characters is followed by a match of the rest |
| Regex.Match | user/grep.c:73-82 | true exactly when some position matches, or the start for a pattern with `^` |
| Regex.OneMoreLine | user/grep.c:22-29 | the output so far and one more line |
| Regex.Rest | user/grep.c:18-34 | output splits at every line start |
| Regex.Lines | user/grep.c:21-29 | prints the lines that end in the buffer before any NUL and match, restoring the text it prints |
| Regex.Shift | user/grep.c:30-33 | the unfinished line moves to the front unharmed |
| Regex.Turn | user/grep.c:18-34 | one read keeps output and buffer in step with the input |
| Regex.Stuck | user/grep.c:18-34 | it makes no progress only at a line that has a NUL, does not fit or has no end |
| Regex.Grep | user/grep.c:12-35 | however the input is cut into reads, prints exactly the matching lines before the first line that does not fit the buffer or has a NUL, and all of them if there is no such line |
| Pipe.Wraps | kernel/pipe.c:77-130 | 512 divides 2^32, so wrapping counters keep their place in the ring |
| Pipe.Tests | kernel/pipe.c:87-112 | the tests for empty and full are exact even after a wrap |
| Pipe.PutKeeps | kernel/pipe.c:94-95 | a byte goes in behind those still buffered |
| Pipe.GetKeeps | kernel/pipe.c:118-121 | the byte that comes out is the oldest |
| Pipe.PipeState.constructor | kernel/pipe.c:23-56 | an empty pipe, both ends open |
| Pipe.PipeState.Pipewrite | kernel/pipe.c:77-103 | whatever others do during its sleeps, and whenever a kill is noticed, its bytes enter in order; -1 only for a closed reader or a kill |
| Pipe.PipeState.Piperead | kernel/pipe.c:106-130 | the bytes next in the order they were sent; short only if it emptied the pipe, 0 only at a closed writer |
| Pipe.PipeState.Pipeclose | kernel/pipe.c:59-74 | the page is freed exactly when both ends are closed |
| Semaphore.Enqueue | kernel/semaphore.c:26-28 | the circular queue gains the process at its end, even when it overflows |
| Semaphore.Dequeue | kernel/semaphore.c:43-45 | the oldest entry comes out, or, if the queue has overflowed, the one that overwrote it last |
| Semaphore.Sem.constructor | kernel/semaphore.c:12-18 | a value that is not negative and nobody waiting |
| Semaphore.Sem.ExclusiveExact | kernel/semaphore.c:20-52 | at most the initial value more processes have passed than have posted, if and only if no entry of the queue is stale |
| Semaphore.Sem.CleanIsExclusive | kernel/semaphore.c:20-52 | while only `sem_post` wakes waiters that holds in every run, with equality while anybody waits |
| Semaphore.Sem.Wait | kernel/semaphore.c:20-36 | value = initial + posts - waits and the queue as long as the value is negative; sleeps exactly at 0 or below, last in the queue; overflows only behind stale entries |
| Semaphore.Sem.Post | kernel/semaphore.c:38-52 | takes out an entry exactly when there is one, which one even after an overflow, and wakes that process exactly when it still sleeps |
| Semaphore.Sem.Stray | kernel/semaphore.c:31 | a waiter woken by anything else leaves its entry behind and has passed out of turn |
| Semaphore.Sem.Destroy | kernel/semaphore.c:54-68 | panics exactly when the number of entries is no multiple of NPROC; while only `sem_post` wakes waiters, exactly when somebody waits |
| Semaphore.StaleEntry | kernel/semaphore.c:20-52 | a run in which a stray wake-up breaks exclusion and the next `sem_post` restores it |
| Semaphore.HiddenWaiter | kernel/semaphore.c:20-68 | a run after which `sem_destroy` does not notice a waiting process |
| Shm.WithoutAt | kernel/sysproc.c:384-412 | taking out the first occurrence keeps the order of the rest |
| Shm.WithoutLess | kernel/sysproc.c:384-412 | and there is one less |
| Shm.Table.constructor | kernel/proc.c:846-851 | ten unused slots |
| Shm.Table.Attach | kernel/sysproc.c:231-246 | one more user is recorded exactly if there is room; a count that was right stays right exactly then |
| Shm.Table.Shmget | kernel/sysproc.c:219-270 | -1 exactly when the key is new and no slot is unused; otherwise the first slot with the key or the first unused one, with key, size and flag set; exactly when the count of records is right afterwards; keys stay distinct, arrays stay prefixes, other slots are untouched |
| Shm.Table.Compact | kernel/sysproc.c:405-410 | closes the gap and keeps the order |
| Shm.Table.Shmdt | kernel/sysproc.c:365-421 | succeeds exactly when the first slot with the id records the caller, takes out its first occurrence only, and leaves every count as right or wrong as it was |
| Shm.Table.Shmctl | kernel/sysproc.c:423-446 | succeeds exactly for a live segment and a known command, and changes one field |
| Shm.FullArray | kernel/sysproc.c:231-246 | eleven processes attach: ten are recorded, eleven are counted |
| Shm.ReusedSlot | kernel/sysproc.c:250-266 | a slot removed with two users and reused by a third: two are recorded, one is counted |

## Left out

- `copyin`, `copyout`, `copyinstr`, `walkaddr` and `uvmclear`: loops over `walk` that would only add easy members.
- The trampoline and trapframe mappings of a process and the kernel's own page table.
- The byte layout of the log header and of inodes on disk: a block is read as a header and other bytes, an inode as a record.
- `iget`, `idup` and the reference counts of in-memory inodes and open files.
- `skipelem`, `namex` and path lookup: directories are named by inode number, names are already cut to 14 characters.
- Spinlocks, `push_off` and memory fences: a critical section is one step.
- Scheduler liveness and fairness: only safety is proved.
- Signals, `sysinfo`, the console, traps, boot, and system call argument fetching.
- `sys_shmat` and `kernel/shm.c`: no mapping is reachable in the former, the latter is not built.
- The register handshake of `virtio_disk_init`: the model starts from its result.
- The number of CPUs: any number of processes may be RUNNING.
- Overflow of pids, of `nlink` and of the semaphore's value; those counters are unbounded in the model.
- RedoLogCode.LogDevice.LogWrite: inside a transaction the caller has modified the block and keeps to MAXOPBLOCKS new blocks per operation, as the file system promises.
- PageTableCode.Vm.ForkMemory: does not say how little memory makes it fail; the trapframe page is not part of it.
- PageTableCode.Vm.Kfree: a page of its memory is one that was handed out, not one that is free or in use.
- PageTableCode.Vm.Uvmunmap: addresses are page numbers, so the panic for one that is not aligned is not modelled.
- PageTableCode.Vm.Uvmdealloc: pages mapped in the range are the table's own, as in every user table.
- Malloc.Heap.Malloc: the bytes of the blocks are not modelled, and block sizes do not wrap at 2^32 units.
- FsCode.FileSystem.Writei: copies from user memory succeed; a copy that fails half way can change a cached block.
- FsCode.FileSystem.Readi: copies to user memory succeed.
- Mkfs.Image.Iappend: stops when the image is full, which the source does not check.
- Links.Namespace.Link: each call is one step; other calls between raising the count and writing the entry are not interleaved.
- Links.Namespace.Unlink: putting the inode back is the separate `Iput`, which takes the number of references as a parameter.
- Bcache.Cache.Brelse: the last reference is given up only on a block that the disk has, as the log sees to by pinning.
- Bcache.Cache.Bunpin: called by the holder of a pinned buffer, as at its only call (kernel/log.c:79).
- Virtio.Disk.Submit: nobody else has a request for the same block, which the buffer cache sees to.
- ShellCode.Parsecmd: the buffer's only NUL is its last character; a simple command and its redirections are built as values rather than through shared nodes.
- Pipe.PipeState.Pipewrite: copies from user memory succeed; what others do during a sleep, and whether a kill has come, are parameters.
- Pipe.PipeState.Piperead: copies to user memory succeed.
- Semaphore.Sem.constructor: the initial value is not negative, and the one semaphore is not initialised again while it is used.
- Shm.Table.Shmget: calls are atomic, though the source takes no lock.
