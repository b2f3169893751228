# Verified model of xv6

A Dafny model of the parts of xv6 (x86, with the added wmap system call) that hold its hardest invariants, with proofs.
`dafny verify dfyconfig.toml` checks all of it.

## What is modelled

- **The crash-safe file system.** `LogProtocol` is the redo log with group commit as a step machine: any number of
  operations, the buffer cache, evictions, log_write's size test and its append as two steps (the test is made without the
  lock), each single block write of a commit or a recovery, a crash between any two, and as many buffers as the geometry
  has. `LogReserve` has the space reservation, `LogSafety` proves crash atomicity over whole runs and that reads see the last
  logged write, `LogAccepts` which sequences of operations have a run, `LogSpace` what the size guard does and when the log
  overflows, and `LogDevice` that the loops of log.c, with their waits and panics, are runs of that machine.
  `BufferRing` and `BufferCache` are the buffers of bio.c in an array with their doubly linked list; their methods keep a view
  that changes as the machine's cache does. `Blocks` has words and bits in blocks.
  `FsLayout`, `FsState`, `FsWrite`, `FsTrunc` and `FileSystem` are fs.c over the logical block store: free map, inodes, direct
  and indirect blocks, with an owner for every block, and files as byte sequences. `FsLog` says exactly which blocks a write
  logs, `FileWrite` cuts long writes into operations, and `FsWorst` is a file system on which one chunk logs MAXOPBLOCKS.
  `FsCrash` and `FsRuns` put those operations on the log: what a crash anywhere leaves of the files. `FsThreads` interleaves
  writes and truncations of different inodes at every log_write, and `FsThreadsCrash` crashes such runs under group commit.
- **The user heap.** `HeapList` and `Heap` are umalloc.c: headers in memory, one circular list in address order.
- **Processes.** `ProcTable` is the process table with sleeplocks as steps of threads and schedulers, where the CPU that has
  ptable.lock keeps it through a context switch. `ProcPlaced`, `ProcLocks` and `ProcFamily` hold the three parts of the
  invariant, `ProcSafety` the theorems about all reachable states.
- **Virtual memory.** `PageTables` and `Vm` are kalloc.c and vm.c: pages with one owner each, two-level tables in memory.
- **The shell's parser.** `ShellGrammar` is the grammar as functions, `ShellRender` the text of a tree and the round trip,
  `ShellWords` the places of words, `Shell` the methods with their loops and nulterminate.
- **wmap placement** (`Wmap`), **pipes** (`Pipe`) and **grep's matcher** (`Grep`).

Integers are unbounded where no limit matters; 32-bit wrap-around is written out for pipe counters, block words and the
offsets of readi and writei. A C panic is a result value (`Panic`, `Failed`) or, where it is proved never to happen, a
requirement that every caller meets; `Results` has the option and outcome types. What depends on the outside is a
parameter: whether sbrk grants memory and where, the killed flag, the disk's first contents, the page that the kernel's
data starts in.

Where the code and a plausible promise about it differ, the code is followed and the exact condition proved:

- log_write tests the size before it looks for the block in the log. So an operation that keeps to MAXOPBLOCKS can be
  stopped at a block that it has logged already, in a log of more than LOGSIZE blocks exactly when LOGSIZE blocks are logged
  (`LogSpace.GuardExact`, `LogSpace.GuardStopsAbsorption`), and with fewer log blocks even at a new one
  (`LogSpace.GuardStopsNewBlock`; mkfs makes LOGSIZE).
- The size test comes before the lock. Two operations can pass it for the last slot. If the log has more than LOGSIZE blocks
  the reservation alone keeps every slot in the log. If there are no more buffers than log blocks, as with the 30 of each that
  mkfs and param.h give, a log that is too long pins all buffers, bget panics before anything is copied, and nothing is lost.
  In both cases crash atomicity holds for every interleaving (`LogSafety.CrashAtomicity`). With 2 to LOGSIZE log blocks and
  more buffers than that it can fail (`LogSpace.SlotLeavesLog`), and holds if the tests come one at a time.
- A failed allocuvm also unmaps what was mapped between the two sizes before (`Vm.FailureKeeps`).
- MAP_FIXED looks at one page of its range (`Wmap.FixedMisses`).
- hash takes the address as an int. wmap's search can go on above 0x80000000 where the remainder is 0, and a single page can
  land there; otherwise it leaves the table (`Wmap.Table.Search`, `Wmap.LandsAbove`). It has no hint before the first mapping,
  and the node pool can run out (`Wmap.Table.Map`).

## Model

| member | source | states |
|---|---|---|
| `Blocks.WordPut` | xv6-public/log.c:102-113 | A word stored in a block is read back, and every other word of the block is unchanged. |
| `Blocks.BitSet` | xv6-public/fs.c:66-68 | Setting a free map bit sets that bit and no other of the 4096. |
| `Blocks.BitClear` | xv6-public/fs.c:88-92 | Clearing a free map bit clears that bit and no other. |
| `LogProtocol.HeaderRoundTrip` | xv6-public/log.c:85-113 | read_head of what write_head stored gives the same list of block numbers. |
| `LogSafety.StepInv` | xv6-public/log.c:69-233 | Every step (operations, buffer steps, evictions, log_write's unlocked size test and its locked append, each block write of a commit, crashes, recovery) for which bget has buffers keeps the log invariant, under any interleaving if the log has more than LOGSIZE blocks, or at least as many as there are buffers (mkfs and param.h give 30 of each), or only its header; and with size tests one at a time under any geometry. |
| `LogSafety.StuckStep` | xv6-public/log.c:177-190 | A log that lists one block more than it has slots for pins every buffer: nothing goes on but the operations at hand, write_log never gets a buffer, and a crash loses nothing. |
| `LogSafety.CrashAtomicity` | xv6-public/log.c:69-233 | After any run under those geometries, and after any run whose size tests come one at a time, with any crashes, also inside recovery, recover_from_log leaves the home blocks equal to exactly the commit groups whose header write finished; each group is whole operations; no group once committed is lost. LogSpace.SlotLeavesLog is the converse. |
| `LogSafety.RecoveryGives` | xv6-public/log.c:115-122 | Run to its end, recovery gives the committed store on every home block and an empty log. |
| `LogSafety.ReadsLastWrite` | xv6-public/log.c:213-233 | After any run as in CrashAtomicity bread sees the last logged write; a block of the uncommitted log cannot be evicted. |
| `LogReserve.EntryLeft` | xv6-public/log.c:223-232 | An operation that keeps to MAXOPBLOCKS and logs a new block finds a free entry in the header, however many steps lie between its size test and its append. |
| `LogSpace.SpaceReservation` | xv6-public/log.c:126-141 | After any run, with any log size and any interleaving, lh.n plus what outstanding operations may still log is at most LOGSIZE, and nothing commits while an operation is outstanding. |
| `LogSpace.SlotsInLog` | xv6-public/log.c:177-190 | After such a run logged numbers are distinct home blocks, every slot that write_log or install_trans comes to is inside the log, and a log that is too long cannot be copied. |
| `LogSpace.GuardExact` | xv6-public/log.c:218-219 | With more than LOGSIZE log blocks, the guard stops an operation that keeps to MAXOPBLOCKS exactly when the log holds LOGSIZE blocks; then no operation has allowance left and the block is one that the caller has logged already. |
| `LogSpace.GuardStopsAbsorption` | xv6-public/log.c:218-227 | A run in which that happens: three operations fill the log and one logs a block of its own again, which the scan behind the guard would have absorbed. |
| `LogSpace.GuardStopsNewBlock` | xv6-public/log.c:218-219 | With at most LOGSIZE log blocks, as mkfs makes it, a run in which the guard stops an operation inside its allowance at a new block. |
| `LogAccepts.EventsRun` | xv6-public/log.c:126-233 | Whatever the operations of any number of processes log, in any order: if begin_op admits each, each keeps to MAXOPBLOCKS, the guard lets each block through and a buffer is left, some run logs exactly that and has committed it up to the last point with none outstanding. |
| `LogSpace.SlotLeavesLog` | xv6-public/log.c:218-230 | With 2 to LOGSIZE log blocks and more buffers than that, a run within the buffers in which two operations pass the guard before either appends: a slot is the block behind the log, and recovery then does not give the committed home blocks. So the condition of CrashAtomicity is exact. |
| `LogDevice.RegularRun` | xv6-public/log.c:69-233 | In every run, whatever the geometry and interleaving, the log in memory and the header on disk list home blocks only, at most LOGSIZE, and the header's buffer is as the header. |
| `LogDevice.Log.constructor` | xv6-public/log.c:53-66 | A machine that comes up on a disk left by any run starts with an empty memory. |
| `LogDevice.Log.CopyHeader` | xv6-public/log.c:91-94 | The in-memory header becomes the list on disk. |
| `LogDevice.Log.ReadLogHead` | xv6-public/log.c:85-96 | read_head is the protocol's ReadHead step. |
| `LogDevice.Log.WriteLogHead` | xv6-public/log.c:101-113 | The header goes to disk in one block write, the rest of the block unchanged. |
| `LogDevice.Log.MakeRoom` | xv6-public/bio.c:81-92 | bget recycles clean buffers that nobody has locked, and finds too few exactly if those in use and those asked for are more than there are. |
| `LogDevice.Log.CopyLog` | xv6-public/log.c:177-190 | write_log makes one CopyToLog step per block from where it is; it is through, or waits for a block that someone has locked, or finds no buffer, and can go on from there. |
| `LogDevice.Log.InstallTrans` | xv6-public/log.c:69-82 | install_trans makes one InstallOne step per block from where it is, at a commit and at boot; it is through, or stops for one of the same reasons. |
| `LogDevice.Log.EraseLog` | xv6-public/log.c:120-121 | The second header write empties the log and commits nothing; it fails exactly without a buffer for the header. |
| `LogDevice.Log.RecoverFromLog` | xv6-public/log.c:115-122 | After a run as in CrashAtomicity it runs to its end: the home blocks become the committed groups applied in order to the first disk; the log is empty. After others it is through or says what stops it. |
| `LogDevice.Log.Commit` | xv6-public/log.c:192-202 | What a commit has done and what it has left are together exactly the protocol's block writes in their order. It is through, with the header empty, or stops with the reason; it does not stop if the log is sound, nobody has a logged block locked and a buffer is left. |
| `LogDevice.Log.TryBeginOp` | xv6-public/log.c:126-141 | An operation is admitted exactly if nothing commits and its whole allowance fits. |
| `LogDevice.Log.Absorb` | xv6-public/log.c:224-230 | The scan appends the block number unless it is there already. |
| `LogDevice.Log.TestSpace` | xv6-public/log.c:218-219 | The test made without the lock: it passes exactly below LOGSIZE and below the log's last slot, and is the protocol's LogTest step. |
| `LogDevice.Log.RecordBlock` | xv6-public/log.c:223-232 | The locked half of log_write is the protocol's LogWrite step, whatever others appended since the test; the header never overflows. |
| `LogDevice.Log.FinishOp` | xv6-public/log.c:145-174 | The last operation out commits, with readers holding any buffers; committing is never found set, so the panic is unreachable, and it stays set exactly while the commit is stopped. |
| `LogDevice.Log.Lock` | xv6-public/bio.c:96-106 | bread by an operation or reader beside a commit: it waits exactly if the block is locked, panics exactly if no buffer is left. |
| `BufferRing.UnlinkRing` | xv6-public/bio.c:131-132 | Unlinking a buffer leaves a circular list of the others in their order. |
| `BufferRing.PushFrontRing` | xv6-public/bio.c:133-136 | Linking a buffer in at the head gives a circular list with it first. |
| `BufferRing.MoveToFront` | xv6-public/bio.c:129-137 | The six assignments of brelse move one buffer to the front and change nothing else. |
| `BufferCache.BreadRefines` | xv6-public/bio.c:96-106 | What bread does to the buffers is an eviction step, if any, and a read step of the log protocol, which has as many buffers. |
| `BufferCache.ViewFits` | xv6-public/bio.c:61-93 | No more blocks are cached than there are buffers. |
| `BufferCache.MoveRefines` | xv6-public/log.c:183-188 | Two breads, a copy, a bwrite and two brelses are the protocol's move of a block, the body of write_log's and install_trans's loops. |
| `BufferCache.PinnedFull` | xv6-public/bio.c:81-92 | With as many logged blocks pinned as there are buffers, bread of any other block panics; NBUF and LOGSIZE are both 30. |
| `BufferCache.BCache.constructor` | xv6-public/bio.c:38-56 | binit builds a circular list of all buffers, last one first, all free, empty and keyed (0, 0). |
| `BufferCache.BCache.Find` | xv6-public/bio.c:69-76 | The forward scan finds a buffer for the block if there is one. |
| `BufferCache.BCache.FindIdle` | xv6-public/bio.c:81-90 | The backward scan finds the least recently used buffer that is neither referenced nor dirty. |
| `BufferCache.BCache.Bget` | xv6-public/bio.c:61-93 | A hit only counts a reference; a miss recycles the least recently used idle buffer, whose block is clean and unlocked; it panics exactly if there is neither. List, uniqueness and coherence are kept. |
| `BufferCache.BCache.Iderw` | xv6-public/memide.c:38-60 | The panics in their order, or buffer and disk agree afterwards and nothing else changed. |
| `BufferCache.BCache.Bread` | xv6-public/bio.c:96-106 | The caller gets the buffer locked with the block's last logical write, or waits with a reference while someone else has it locked; otherwise it panics exactly if the disk has no such block or no buffer is left. |
| `BufferCache.BCache.Modify` | xv6-public/log.c:208-212 | The holder of a buffer changes its data; disk and last logical write stay; the cache changes as in the protocol's Modify step. |
| `BufferCache.BCache.MarkDirty` | xv6-public/log.c:231-231 | The buffer's data becomes the last logical write and the buffer cannot be evicted; the cache changes as in the protocol's LogWrite step. |
| `BufferCache.BCache.Bwrite` | xv6-public/bio.c:109-116 | Disk, buffer and last logical write agree on the block, whatever the buffer held; no other block changes; it panics exactly if the caller does not hold the lock or the disk has no such block. |
| `BufferCache.BCache.Drop` | xv6-public/bio.c:126-138 | A reference goes; an unreferenced buffer becomes the most recently used; a lock taken meanwhile keeps its reference. |
| `BufferCache.BCache.Brelse` | xv6-public/bio.c:120-141 | The lock is free, one reference is gone, data and disk stay, the order of use is brought up to date, and the cache changes as in the protocol's Brelse step. |
| `FsLayout.DinodeRoundTrip` | xv6-public/fs.c:221-236 | An inode stored in its place in an inode block is read back; the other inodes of the block stay. |
| `FsState.MappedIndirect` | xv6-public/fs.c:385-397 | Filling an entry of the indirect block gives the file one more block and changes no other file or pointer. |
| `FsTrunc.FreedTheOwned` | xv6-public/fs.c:408-435 | The free map loses exactly the blocks that the inode owned. |
| `FsTrunc.TruncFits` | xv6-public/fs.c:407-435 | What a truncation logs are inode, free map and data blocks, at most size / BPB + 2 of them. |
| `FsLog.WriteDone` | xv6-public/fs.c:481-511 | A finished writei has logged exactly the data blocks it wrote, the blocks it took with their free map blocks, the indirect block if that gained an entry, and the inode if the size grew: at most LogBound of them, all home blocks. |
| `FsLog.MarkedIsShort` | xv6-public/fs.c:56-78 | balloc gives up only when every data block has an owner. |
| `FileSystem.FileSystem.Balloc` | xv6-public/fs.c:56-78 | A free block is marked, zeroed and returned, the lowest one; it panics exactly if all are in use. |
| `FileSystem.FileSystem.Bfree` | xv6-public/fs.c:81-95 | The block's bit is cleared; it panics exactly if the block is free. |
| `FileSystem.FileSystem.Bmap` | xv6-public/fs.c:372-400 | The file's block, an unowned zeroed one if it had none, with owners, free map and every other file kept; the panic for the range exactly past MAXFILE. |
| `FileSystem.FileSystem.Iupdate` | xv6-public/fs.c:220-236 | The inode's place on disk becomes the in-memory inode. |
| `FileSystem.FileSystem.Readi` | xv6-public/fs.c:452-476 | The clipped slice of the file's bytes, or -1 for a bad offset; no state changes, no panic. |
| `FileSystem.FileSystem.Writei` | xv6-public/fs.c:481-511 | The contents become old[..off] + src + old[off+n..]; -1 with no change exactly if the offset or the end is out of bounds; other files stay; no holes; it panics exactly if fewer blocks are free than the write needs; the store is the old one with its log_writes applied, and their blocks are exactly the set of FsLog.WriteLogged. |
| `FileSystem.FileSystem.Itrunc` | xv6-public/fs.c:407-435 | The file is empty and exactly its blocks are free; other files stay; bfree's panic cannot happen; the blocks logged are exactly the set that FsTrunc.TruncFits bounds. |
| `FsCrash.FilesKept` | xv6-public/fs.c:362-400 | A file system is its inode, free map and data blocks: a store that agrees on them has the same good file system and the same files. |
| `FsCrash.CrashKeepsFiles` | xv6-public/log.c:115-122 | For any run as in LogSafety.CrashAtomicity whose groups are made of what operations log, each taking a good file system to the next with at most MAXOPBLOCKS home blocks: recovery after any crash gives the good file system after some first n operations, byte for byte. |
| `FsCrash.CrashInFilewrite` | xv6-public/file.c:184-211 | If the last operations are those of a filewrite, a crash leaves the file as before it began or with old[..off] + src[..k] + old[off+k..], k at a chunk boundary. |
| `FsRuns.OperationsRun` | xv6-public/log.c:126-233 | On a log of at least twelve blocks with eleven buffers, any operations that FileSystem makes are a log run, one group each, with size tests one at a time. |
| `FsRuns.CrashAnywhere` | xv6-public/log.c:115-122 | A crash at any point of any run as in LogSafety.CrashAtomicity that makes such operations, in any grouping, leaves the files after some first n of them. |
| `FsThreads.StepInv` | xv6-public/fs.c:372-511 | Writes and truncations of any number of processes, each on an inode it has locked, interleaved at every log_write: every step keeps blocks singly owned, the free map right, and every file's bytes as far as each write has come. |
| `FsThreads.QuietIsGood` | xv6-public/fs.c:372-511 | Whenever none is under way, the file system is good and each file is what the finished writes and truncations made of it in turn. |
| `FsThreads.CanGoOn` | xv6-public/fs.c:372-511 | A process in the middle of a write or truncation can go on, whatever the others did, unless it needs a block and none is free. |
| `FsThreadsCrash.QuietRun` | xv6-public/fs.c:372-511 | The same over whole interleaved runs. |
| `FsThreadsCrash.CrashKeepsFinished` | xv6-public/log.c:115-174 | For any such interleaving and any log run, as in LogSafety.CrashAtomicity, that has committed the beginning of what it logged: a crash leaves a good file system at a point where no operation was half done, each file as the operations finished by then made it. |
| `FsThreadsCrash.ThreadsRun` | xv6-public/log.c:126-233 | Every interleaving is a log run, if begin_op admits its operations, each keeps to MAXOPBLOCKS and the log has space: some run logs exactly what it logs and commits whenever nothing is under way. |
| `FsThreadsCrash.CrashAmongThreads` | xv6-public/log.c:115-174 | A crash at any point of any log run that logs an interleaving leaves whole operations only, and their files. |
| `FileWrite.ChunkFitsOperation` | xv6-public/file.c:184-195 | For any size, offset and length up to the chunk size, one writei logs at most MAXOPBLOCKS blocks. |
| `FsWorst.WorstGood` | xv6-public/fs.c:56-78 | A good file system with one free block under each of four free map blocks and a file of 11 * BSIZE + 1 bytes. |
| `FsWorst.ChunkLogsTen` | xv6-public/file.c:184-190 | Appending a chunk to that file logs exactly ten blocks: four data blocks, the indirect block, four free map blocks, the inode. |
| `FsWorst.WriteWorst` | xv6-public/file.c:184-202 | filewrite of one chunk there succeeds and logs MAXOPBLOCKS blocks, so the bound of ChunkFitsOperation is reached. |
| `FileWrite.WriteOperation` | xv6-public/file.c:197-202 | One operation writes its chunk, moves the offset, and logs at most MAXOPBLOCKS home blocks, which applied to the old store give the new; it panics exactly without enough free blocks. |
| `FileWrite.Filewrite` | xv6-public/file.c:184-211 | All of the bytes are in the file, or the chunks before the first that does not fit; the file was at a chunk boundary after each operation, and each is a good file system's step within MAXOPBLOCKS. |
| `HeapList.InsertGood` | xv6-public/umalloc.c:30-44 | Linking a block in at its place keeps the cycle in address order. |
| `HeapList.JoinGood` | xv6-public/umalloc.c:33-42 | Two touching neighbours become one block; no unit is lost. |
| `HeapList.FreedMemory` | xv6-public/umalloc.c:33-42 | The assignments of free are the same as linking in, then joining above, then below, in all four cases. |
| `HeapList.TakeWhole` | xv6-public/umalloc.c:76-77 | Taking a whole block off the list keeps the heap. |
| `HeapList.TakeTail` | xv6-public/umalloc.c:78-82 | Cutting a block off the end of a larger one keeps the heap. |
| `Heap.Heap.Search` | xv6-public/umalloc.c:30-32 | The circular search ends, at the one place where the block belongs. |
| `Heap.Heap.Free` | xv6-public/umalloc.c:24-44 | The block is live no more and inside a free block; every other live block keeps its size and every unit; the free list is one address-ordered cycle with no two blocks touching. |
| `Heap.Heap.Morecore` | xv6-public/umalloc.c:46-61 | At least 4096 units are asked for; if sbrk grants them some free block is large enough, also when the new units merge into the block at freep. |
| `Heap.Heap.Hunted` | xv6-public/umalloc.c:74-89 | The loop ends; sbrk is asked at most once, only if nothing fits; after that a block that fits is met before a second lap. |
| `Heap.Heap.Malloc` | xv6-public/umalloc.c:63-90 | A new live block with room for nbytes; old live blocks keep every unit; NULL exactly if nothing fits and sbrk refuses. |
| `Heap.Conservation` | xv6-public/umalloc.c:24-90 | Free and live units together are all units from sbrk; all blocks are disjoint; no two free blocks touch. |
| `ProcPlaced.PlacedNear` | xv6-public/proc.c:345-415 | A step that stays on its CPU keeps processes, CPUs and ptable.lock in correspondence. |
| `ProcPlaced.PlacedOut` | xv6-public/proc.c:388-405 | sched hands ptable.lock over to the CPU's scheduler and keeps the correspondence. |
| `ProcPlaced.PlacedSched` | xv6-public/proc.c:345-379 | Every step of a scheduler, with the switch into a process, keeps the correspondence. |
| `ProcPlaced.AbandonedIs` | xv6-public/proc.c:275-285 | What exit's loop does to each process: exactly the children go to init, and exactly the sleepers on the parent are woken, and those on init if a child had exited. |
| `ProcLocks.OnePt` | xv6-public/spinlock.c:24-68 | Two threads that have ptable.lock on a CPU are one. |
| `ProcLocks.LockedMoves` | xv6-public/sleeplock.c:22-42 | A step inside acquiresleep or releasesleep keeps mutual exclusion and the wakeup invariant. |
| `ProcLocks.LockedWaking` | xv6-public/proc.c:480-497 | After wakeup nobody sleeps, or is about to, on the lock that was cleared. |
| `ProcFamily.KinReap` | xv6-public/proc.c:306-323 | Reaping keeps parents, zombies and pids in order; the pid is recorded once. |
| `ProcFamily.KinExitWake` | xv6-public/proc.c:275-285 | Passing on the children keeps the parent and wait invariants. |
| `ProcFamily.KinExitGo` | xv6-public/proc.c:287-289 | Becoming a zombie leaves no child behind and no parent asleep in wait. |
| `ProcFamily.KinPick` | xv6-public/proc.c:94-107 | allocproc takes an unused slot with a new pid. |
| `ProcSafety.InvStep` | xv6-public/proc.c:88-520 | Every step of every thread, interrupt, failure and scheduler keeps the invariant. |
| `ProcSafety.SleeplocksSafe` | xv6-public/sleeplock.c:22-53 | In every reachable state, with ptable.lock and the spinlock free, a sleeper on a sleeplock means that some process has it; at most one does; holdingsleep says which. |
| `ProcSafety.ExitWaitSafe` | xv6-public/proc.c:248-335 | In every reachable state no parent is a zombie or unused, a process asleep in wait has no exited child, and every pid exits and is reaped at most once, a zombie's not yet. |
| `ProcSafety.WaitReaps` | xv6-public/proc.c:306-323 | wait with an exited child frees its slot and returns its pid. |
| `ProcSafety.RunningOnOneCpu` | xv6-public/proc.c:345-415 | Whenever ptable.lock is free a process is RUNNING if and only if exactly one CPU has it. |
| `ProcSafety.NeverStuck` | xv6-public/proc.c:88-520 | A thread in this code can always go on unless it spins on a lock that is taken. |
| `PageTables.OtherSpaces` | xv6-public/vm.c:34-57 | Pages in use elsewhere kept, every other address space maps what it did. |
| `PageTables.WithTableOwning` | xv6-public/vm.c:47-54 | A new page table keeps every page with exactly one owner. |
| `PageTables.MapOwning` | xv6-public/vm.c:83-83 | A user page entered in a table is owned by that one entry. |
| `PageTables.UnmapOwning` | xv6-public/vm.c:279-287 | A page taken out of its entry is free, and no other page changes hands. |
| `Vm.Vm.constructor` | xv6-public/kalloc.c:31-53 | freerange frees every page up to PHYSTOP, each once. |
| `Vm.Vm.Kalloc` | xv6-public/kalloc.c:82-95 | The first free page, or none exactly if the list is empty. |
| `Vm.Vm.Walk` | xv6-public/vm.c:34-57 | The table of the page's entry, made if asked for; no mapping changes; it fails only without a table and, if asked to make one, without memory. |
| `Vm.Vm.MapPage` | xv6-public/vm.c:72-83 | An empty entry maps the page and no other entry changes; it fails only if the entry is taken or memory is out. |
| `Vm.Vm.Mappages` | xv6-public/vm.c:62-90 | All pages of the range are mapped, or exactly those before one that was mapped already or for which memory ran out. |
| `Vm.Vm.Setupkvm` | xv6-public/vm.c:129-148 | A directory with exactly the mappings of kmap, or every page back with its owner. |
| `Vm.Vm.Allocuvm` | xv6-public/vm.c:229-259 | The pages between the sizes are new, zeroed and user-writable, or none of them is mapped; every other mapping and page is kept. |
| `Vm.FailureKeeps` | xv6-public/vm.c:243-256 | A failed allocuvm leaves the user mappings as they were if and only if none was between the two sizes before. |
| `Vm.Vm.GrowOver` | xv6-public/vm.c:250-256 | allocuvm over a page that is already mapped fails, and that page is unmapped. |
| `Vm.Vm.Deallocuvm` | xv6-public/vm.c:265-290 | Exactly the user pages between the sizes are freed and unmapped, skipping tables that are not there. |
| `Vm.Vm.Freevm` | xv6-public/vm.c:294-310 | Exactly the pages of the address space become free: user pages, tables and directory. |
| `Vm.Vm.Copyuvm` | xv6-public/vm.c:326-358 | Equal contents and flags on other pages and the kernel's mappings, or every page back with its owner; it panics only at a missing page. |
| `ShellRender.LexWord` | xv6-public/sh.c:295-300 | A word of the text is one token. |
| `ShellRender.RedirsOk` | xv6-public/sh.c:374-397 | Redirections are read back in their order with their modes. |
| `ShellRender.ArgsOk` | xv6-public/sh.c:429-445 | The words of a command are read back with the redirections behind them. |
| `ShellRender.LineOk` | xv6-public/sh.c:344-372 | Lists, background marks, pipes and blocks are read back, whatever follows. |
| `ShellRender.RoundTrip` | xv6-public/sh.c:327-446 | Parsing the text of any command tree with fewer than MAXARGS words per command gives that tree. |
| `ShellWords.ParsedIsTree` | xv6-public/sh.c:327-446 | Every line the parser accepts is a tree whose text parses to that tree again. |
| `ShellWords.WordIntact` | xv6-public/sh.c:448-493 | After nulterminate every word and file name is a C string of its own, unaltered by the other NULs. |
| `Shell.GettokenAt` | xv6-public/sh.c:265-308 | The token of the grammar, its two ends, and the position after it. |
| `Shell.PeekAt` | xv6-public/sh.c:310-320 | Whether one of the symbols comes next, and the position after leading space. |
| `Shell.ParseRedirsAt` | xv6-public/sh.c:374-397 | The loop gives the redirections of the grammar, or fails as it does. |
| `Shell.ParseArgsAt` | xv6-public/sh.c:429-445 | The loop gives the words and redirections of the grammar, or fails as it does. |
| `Shell.ParseExecAt` | xv6-public/sh.c:415-446 | parseexec from a position on gives the tree and the position of the grammar, or its error, with every word where the tree says; it ends on all input. |
| `Shell.ParseBlockAt` | xv6-public/sh.c:399-413 | parseblock from a position on gives the tree and the position of the grammar, or its error, with every word where the tree says; it ends on all input. |
| `Shell.ParsePipeAt` | xv6-public/sh.c:361-372 | parsepipe from a position on gives the tree and the position of the grammar, or its error, with every word where the tree says; it ends on all input. |
| `Shell.ParseLineAt` | xv6-public/sh.c:344-359 | parseline from a position on gives the tree and the position of the grammar, or its error, with every word where the tree says; it ends on all input. |
| `Shell.Nulterminate` | xv6-public/sh.c:449-493 | A NUL at the end of every word, and no other change of the buffer. |
| `Shell.Parsecmd` | xv6-public/sh.c:327-342 | The tree of the grammar or its error, and every word a C string in the buffer. |
| `Wmap.JumpSkipsNothing` | xv6-public/sysproc.c:291-305 | No place between the search and the end of a blocking mapping fits. |
| `Wmap.StillDisjoint` | xv6-public/sysproc.c:270-310 | A mapping placed by the search keeps all mappings disjoint. |
| `Wmap.FixedMisses` | xv6-public/sysproc.c:258-269 | A MAP_FIXED range whose first page is free misses every mapping if and only if none begins behind that page in it. |
| `Wmap.FixedOverlaps` | xv6-public/sysproc.c:258-269 | A MAP_FIXED range of two pages whose first is free but whose second is taken. |
| `Wmap.Table.HashSearch` | xv6-public/sysproc.c:103-116 | The mapping that starts at the page, if there is one, the first in its chain. |
| `Wmap.Table.PageInMappings` | xv6-public/sysproc.c:365-390 | A mapping that has the page, if there is one: one that starts there, or the first in the table's order. |
| `Wmap.Table.HashInsert` | xv6-public/sysproc.c:71-101 | The table has one mapping more, the newest; it takes one of the pool's 16 nodes exactly if the bucket is in use, and stops only behind the last of them. |
| `Wmap.Table.LandingIs` | xv6-public/sysproc.c:288-307 | Where a search for one page lands is a first fit; if it lands nowhere nothing was free below 0x80000000. |
| `Wmap.Table.Search` | xv6-public/sysproc.c:286-307 | The search ends, with the first fit. Above 0x80000000 that can only be a single page. It leaves the table exactly if it meets a page without a chain first; for more than one page that is exactly if nothing fits below 0x80000000. |
| `Wmap.LandsAbove` | xv6-public/sysproc.c:286-307 | After MAP_FIXED of 0x20002000 bytes at 0x60000000, one page goes to 0x80002000. |
| `Wmap.Table.Hint` | xv6-public/sysproc.c:270-285 | Where the search begins: behind the mapping that has the page, or behind the newest; none exactly if the page has no chain or there is no mapping yet to go by. |
| `Wmap.Table.Map` | xv6-public/sysproc.c:229-312 | First fit from the hint without MAP_FIXED, exactly if there is a hint, a fit and a node left, and disjoint mappings stay disjoint; with it the address exactly if its first page is free; -1 for a length that is not positive; undefined for one that overflows when rounded. |
| `Wmap.FirstFitOnce` | xv6-public/sysproc.c:286-307 | There is only one first fit. |
| `Pipe.Wrapped` | xv6-public/pipe.c:93-93 | The place in the ring does not depend on how often a counter wrapped around. |
| `Pipe.Compare` | xv6-public/pipe.c:85-114 | Full and empty tests on 32-bit counters are right for any number of bytes. |
| `Pipe.Pipe.Put` | xv6-public/pipe.c:93-93 | A byte is appended and none that is still to be read is overwritten. |
| `Pipe.Pipe.Get` | xv6-public/pipe.c:116-116 | The oldest byte that was not read. |
| `Pipe.Pipe.Write` | xv6-public/pipe.c:78-98 | The bytes are appended in order until done, full or broken. |
| `Pipe.Pipe.Take` | xv6-public/pipe.c:100-121 | The next bytes in the order they were written, as many as there are up to n; it sleeps exactly on an empty open pipe. |
| `Pipe.Pipe.Close` | xv6-public/pipe.c:59-75 | The pipe is freed exactly when both ends are closed. |
| `Grep.AcceptsStar` | xv6-public/grep.c:98-106 | A starred character splits off any number of characters that fit. |
| `Grep.AcceptsOne` | xv6-public/grep.c:93-94 | A plain character takes one that fits. |
| `Grep.Matchhere` | xv6-public/grep.c:84-96 | True if and only if a prefix of the text, all of it with a final $, is in the pattern's language. |
| `Grep.Matchstar` | xv6-public/grep.c:98-106 | True if and only if some number of the character and then the pattern match. |
| `Grep.Match` | xv6-public/grep.c:72-82 | True if and only if the pattern matches at the beginning with a leading ^, and anywhere without. |

## Left out

- Interrupt flags, swtch, trap frames, segments, device drivers other than memide.c, and boot code: a context switch is one step.
- Directories, path names, link counts, ialloc, iget and iput, device inodes: they would add members over the same block store.
- FsThreads: has writei and itrunc under their inode locks, with each balloc taking any free block rather than the lowest; other operations are not interleaved, and a bitmap or inode block is read, changed and logged in one step, as its buffer lock makes it.
- exec, system call arguments and the wmap page fault, wunmap and wremap paths.
- runcmd, grep's line buffering and the other user programs.
- Overflow of 32-bit sizes in malloc and of nextpid: both count without bound.
- Sleepers on channels other than a sleeplock or a process in wait; sleeping in begin_op and in pipes is the return of a method that waits.
- LogDevice.Log: keeps its cache as a map, and `BufferCache` says that bio.c's buffers change in the same way; the two classes are not one object. Which clean buffer is recycled is left open there.
- LogAccepts.EventsRun: asks for a buffer beside the logged blocks, without which the commit panics.
- Heap.Heap.Free: the pointer is one that malloc gave and free has not taken back; the source gives no meaning to others.
- Vm.Vm.Kfree: the link that kfree stores inside a free page is not in the page's contents; the list is a sequence.
- Wmap.Table.Map: gives `Wild` where the code overflows an int, follows a null pointer, indexes outside its table or takes a node behind its pool; what the machine then does is not modelled.
- Wmap.Table.PageInMappings: is for a page with a chain; for others the code reads in front of its table.
- Shell.ParseArgsAt: the tree is built by value, so the argument slots that parseexec fills behind a redirection node are not shared memory.
- ProcTable: locking, sleeping and scanning run as steps between the points where another CPU can interfere, not instruction by instruction.
