# InternetOS in Dafny

InternetOS is an xv6-style kernel for RISC-V with its own two-level memory allocator, Robin Hood hash map and TCP
stack. This project models the parts of it whose correctness depends on invariants that no single function shows, and
proves those invariants and what follows from them.

| file | models | main results |
|---|---|---|
| FsLog.dfy, LogProtocol.dfy | the write-ahead log (kernel/fs/log.c) | crash atomicity at every disk write, whole-operation atomicity and durability over all interleavings and crashes, the last operation out commits, the reservation bound and the exact panic condition |
| BufferCache.dfy, CacheLimits.dfy, CacheOrder.dfy, IntrusiveList.dfy | the buffer cache (kernel/fs/bio.c) and intrusive lists (kernel/lib/list.c) | the cache agrees with the logical disk in every run exactly when recovery installed nothing at boot, recycling loses nothing and takes the buffer released longest ago, when bget finds no buffer |
| Inode.dfy, Directory.dfy | blocks, inodes, directories (kernel/fs/fs.c) | files behave as separate byte arrays, directories as finite maps |
| Scheduler.dfy, Family.dfy, Killing.dfy, Alone.dfy, MissedExit.dfy | sleep/wakeup, sleep-locks, scheduler hand-off, exit/wait (kernel/proc/proc.c, kernel/lock) | mutual exclusion, no lost wakeup, one CPU per process, a reaped zombie runs nowhere, no CPU spins on its own lock, a killed process does not stay in wait, what each operation comes to, which exits wait can miss |
| Buddy.dfy, TwoLevel.dfy | the buddy tables and ufkalloc (kernel/lib/buddy.c, kernel/lib/ufkalloc.c) | tiling, disjointness, size recovery, maximal coalescing, routing between the levels, the exact panic condition |
| PageTable.dfy, UserMemory.dfy | Sv39 page tables and user address spaces (kernel/mem/vm.c) | the tree is a flat page map, frames are never lost or freed twice, copies are equal and disjoint, copyin undoes copyout, the stack guard page is out of the user's reach |
| HashMap.dfy | the Robin Hood hash map (kernel/lib/hashmap.c) | refinement of a finite map through set, get, delete, grow and shrink |
| Tcp.dfy, TcpSend.dfy, MbufQueue.dfy, Checksum.dfy | the TCP control block, packet queues and checksum (kernel/net) | in-order delivery under loss, repetition and reordering, when a read loses bytes, window conservation, which acknowledgements cover bytes not taken, the staged receiver equals an event table, what was sent and acknowledged, checksum round trip and detection |
| UserMalloc.dfy | the user allocator (user/ulib/umalloc.c) | ordered circular free list, maximal runs, tiling, at most one sbrk per request |
| Shell.dfy, ShellLaws.dfy | the shell's parser (user/sh.c) | printing then parsing gives the command back, exactly for the commands that can be written; parsing loses, adds and reorders nothing |

Common.dfy has the types that several files share.

## How things are modelled

- Code that updates state in place is a class whose methods are proved equal to a function of the old state, and the
  properties are proved of those functions. Concurrent protocols are step relations; their theorems are about every
  sequence of steps. A crash may come between any two block writes.
- Addresses, block numbers and frames are naturals. 32-bit and 64-bit wrap-around is written out where the code depends
  on it: the cache's reference count, TCP sequence numbers, the checksum's accumulator, writei's and mappages' ranges.
- A kernel panic is a result or a flag, and the contracts say when it happens.
- Threads are preempted: a timer interrupt may come at every kernel point where no spin-lock is held.
- What comes from outside is a parameter: the disk's contents, arriving segments, what sbrk and the hash map's allocator
  answer, the user's reads and writes.

## What the code does that one might not expect

Each of these is a lemma or a contract, with the condition under which it happens.

- mkfs makes a log of LOGSIZE blocks, one fewer than log_write's test needs: with log.size at most LOGSIZE, operations
  within their allowance reach the "too big a transaction" panic, and with log.size above LOGSIZE they never do
  (`SmallLogPanics`, `NoPanicWithinAllowance`). The test also comes before absorption (`AbsorbedWritePanics`).
- Recovery unpins blocks that were never pinned, and their reference counts wrap (`InstallBlock`). A process that then
  reads such a block holds a buffer with count 0, which bget gives to another block under it: the cache keeps its promise
  after boot exactly when recovery installed nothing (`AgreesExactly`, `RecoveredRecycles`). Recovery itself panics for
  want of a buffer exactly when the log lists at least as many blocks as there are buffers (`RecoverExactly`).
- NBUF is LOGSIZE: a group that logs LOGSIZE blocks, which needs log.size above LOGSIZE, pins every buffer, and its commit
  panics in bget (`NoBufferExactly`, `FullGroupStopsCommit`).
- mbufq_pushhead on an empty queue leaves the tail pointer stale unless the packet was the last one popped (`PushHead`);
  with a stale pointer mbufq_pushtail loses the new packet or cuts off those behind the pointer (`PushTail`).
- A child that an exiting parent gives to init can be a ZOMBIE while init sleeps in wait; no other parent asleep in wait
  has a ZOMBIE child (`WaitMissesOnlyAdopted`, `InitMissesExit`).
- sockrecv drops the bytes it has already copied when a later pass finds the peer's FIN taken or the block freed: the call
  returns -1 (`LossExactly`, `NothingLost`, `CallLoses`).
- A FIN is taken wherever in the window it arrives, so the application can lose text the peer sent before it
  (`FinExactly`, `EarlyFin`); text still queued when a FIN is taken never reaches the application (`TextStranded`). The
  acknowledgement of such a FIN covers a byte that was never taken, and no other acknowledgement does (`UntakenAcked`).
- After a failed copy from or to user memory writei and readi still return the full count (`Writei`, `Readi`).
- Any acceptable acknowledgement leads from FIN_WAIT_1 to FIN_WAIT_2, and any in the window ends LAST_ACK, whether or not
  it is of the FIN (`FinWaitExactly`, `EarlyFinWait`, `LastAckExactly`, `EarlyLastAck`).
- A close in SYN_RCVD with nothing queued queues a FIN that is never sent, and text queued at a close is never sent
  (`CloseExactly`).
- snd.wnd is 65536 times the window the peer advertised, because a 16-bit field goes through ntohl
  (`SendWindowScaled`).
- Text queued before the connection is established is all sent with sequence number 1 (`SendContiguous`,
  `QueuedBeforeEstab`).
- In-order text is refused when the window wraps past 2^32 (`InOrderTaken`, `WrapRefuses`).
- Reading exactly a pushed buffer's length leaves an empty buffer that makes the next read return 0 although text is
  queued (`ReadProgress`, `ExactReadStalls`).
- uvmdealloc's comment allows an old size beyond the process size; the code then panics in uvmunmap (`UvmDealloc`).
- uvmfree of size 0 panics (`UvmFree`); its caller avoids it by not freeing the page table of an empty process.
- The branch of tcp_recv_syn_sent that enters SYN_RCVD, and the states CLOSING and TIME_WAIT, are unreachable
  (`Handshake`).

## Model

| member | source | states |
|---|---|---|
| DiskLog.HeaderRoundTrip | kernel/fs/log.c:85-113 | reading back a header block that write_head wrote over any old contents gives the list of block numbers |
| DiskLog.RecoveredHome | kernel/fs/log.c:115-122 | what recovery makes of a home block: the log copy if it is listed in the header, otherwise what was there |
| DiskLog.RecoveredEmpty | kernel/fs/log.c:115-122 | a disk whose header lists nothing is its own recovery |
| DiskLog.RecoveryCrash | kernel/fs/log.c:68-122 | after a crash at any point of recovery, recovering gives the same home blocks; a finished recovery leaves the header empty |
| DiskLog.RepeatedRecovery | kernel/fs/log.c:68-122 | the same for any number of crashes, each at any point of the next recovery |
| DiskLog.CrashBeforeHeader | kernel/fs/log.c:177-202 | before the header write of a commit only the log region has changed |
| DiskLog.AfterHeader | kernel/fs/log.c:101-113 | right after the header write recovery gives the whole transaction, and what remains of the commit is exactly what recovery would do |
| DiskLog.CrashAfterHeader | kernel/fs/log.c:192-202 | after the header write, wherever the commit stops, recovery gives the whole transaction |
| DiskLog.CommitCrash | kernel/fs/log.c:177-202 | crash atomicity: after any number of the commit's writes, recovery gives the state before the transaction or the whole transaction, the latter exactly when the header write happened |
| DiskLog.CommitThenInterrupted | kernel/fs/log.c:68-202 | the same when recovery itself crashes any number of times |
| DiskLog.Log.constructor | kernel/fs/log.c:54-65 | initlog: the disk and the cached view become the recovered disk, by exactly the recovery's writes |
| DiskLog.Log.Bwrite | kernel/fs/bio.c:104-110 | the cached block reaches the disk and the write is recorded |
| DiskLog.Log.InstallTrans | kernel/fs/log.c:68-82 | the writes issued are the install writes, and they are what disk and view went through |
| DiskLog.Log.ReadHead | kernel/fs/log.c:85-96 | the in-memory header is the one the header block lists |
| DiskLog.Log.WriteHead | kernel/fs/log.c:101-113 | exactly one write, of the header block with the in-memory list in it |
| DiskLog.Log.RecoverFromLog | kernel/fs/log.c:115-122 | the disk becomes its recovery and the log is empty |
| DiskLog.Log.WriteLog | kernel/fs/log.c:177-190 | the writes issued are the copies of the logged blocks into the log region |
| DiskLog.Log.Commit | kernel/fs/log.c:192-202 | commit issues exactly the write sequence that crash atomicity is about, and leaves the log empty |
| DiskLog.Log.BeginOp | kernel/fs/log.c:125-141 | an operation is admitted exactly when no commit is on and the log has room for everyone's allowance |
| DiskLog.Log.EndOp | kernel/fs/log.c:145-174 | only the last operation out commits, and then the whole group; the panic is exactly an end during a commit |
| DiskLog.Log.LogWrite | kernel/fs/log.c:213-234 | the block is in the list once; the panics are exactly a full log and no operation outstanding |
| LogProtocol.StepDisk | kernel/fs/log.c:115-234 | every step, crash included, keeps the disk recoverable to the committed groups replayed on the booted disk |
| LogProtocol.StepOps | kernel/fs/log.c:125-174 | every step keeps each operation wholly inside one group |
| LogProtocol.StepBudget | kernel/fs/log.c:125-163 | every step keeps the logged blocks and unused allowances within the log |
| LogProtocol.OtherWriteInvisible | kernel/fs/log.c:177-202 | a commit write other than the header write does not change what recovery would give |
| LogProtocol.HeaderWriteDisk | kernel/fs/log.c:192-202 | the header write takes the recovered disk from before the group to after it |
| LogProtocol.CommitDone | kernel/fs/log.c:192-202 | after the last write of a commit, disk and cache agree on every home block and the log is empty |
| LogProtocol.StepInv | kernel/fs/log.c:115-234 | the whole invariant is kept by every step, and committed groups and durable operations only grow |
| LogProtocol.Atomicity | kernel/fs/log.c:115-234 | for every interleaving of any number of operations and any crashes, the recovered disk is the booted disk with a prefix of the groups replayed, and each operation is in it entirely or not at all |
| LogProtocol.Durability | kernel/fs/log.c:145-202 | an operation whose commit has finished stays in the recovered disk whatever happens later |
| LogProtocol.StepQuiet | kernel/fs/log.c:145-175 | every step keeps: with no operation outstanding and no commit under way, nothing is logged or waiting to be committed |
| LogProtocol.EndedIsDurable | kernel/fs/log.c:145-175 | in every run, whenever no operation is outstanding and no commit under way, the log is empty, every operation that called end_op since the last crash is on disk whole, and the disk has what bread returns |
| LogProtocol.Settles | kernel/fs/log.c:115-122 | from every reachable state a commit or recovery under way comes to its end by disk writes alone, and which groups are then committed |
| LogProtocol.LastEndCommits | kernel/fs/log.c:145-202 | from every state in which the last operation can end, end_op and disk writes alone make it durable |
| LogProtocol.CrashRecovers | kernel/fs/log.c:54-122 | after a crash at any point of any run, recovery brings the system up with exactly the groups committed before |
| LogProtocol.LogicalContents | kernel/fs/log.c:213-234 | while the system is up, reads see the committed groups and then the running group's updates |
| LogProtocol.Reservation | kernel/fs/log.c:125-141 | in every run the logged blocks are distinct and, with all unused allowances, fit in LOGSIZE |
| LogProtocol.NoPanicWithinAllowance | kernel/fs/log.c:213-219 | with log.size above LOGSIZE, an operation with allowance left never meets the panic |
| LogProtocol.PanicExactly | kernel/fs/log.c:213-219 | with such a log the panic comes exactly when LOGSIZE blocks are logged; then every operation in progress has used up its allowance and the block is already logged |
| LogProtocol.SmallLogPanics | kernel/fs/log.c:213-219 | with log.size at most LOGSIZE there is a run, within the allowances, that panics |
| LogProtocol.AbsorbedWritePanics | kernel/fs/log.c:213-230 | logging a block again panics on a full log although it would not grow it |
| IntrusiveList.UnlinkRing | kernel/lib/list.c:15-25 | unlinking an element of a ring leaves the ring of the others, in order |
| IntrusiveList.PushRing | kernel/lib/list.c:36-46 | pushing after the head of a ring puts the element first |
| IntrusiveList.ListMemory.constructor | kernel/lib/list.c:6-9 | no list yet |
| IntrusiveList.ListMemory.LstInit | kernel/lib/list.c:6-9 | a new empty list; the other lists in memory stay |
| IntrusiveList.ListMemory.LstEmpty | kernel/lib/list.c:11-13 | true exactly for the empty list |
| IntrusiveList.ListMemory.LstRemove | kernel/lib/list.c:15-25 | given only the element, it leaves its list and every other list stays |
| IntrusiveList.ListMemory.LstPop | kernel/lib/list.c:27-34 | the first element; on an empty list the head itself |
| IntrusiveList.ListMemory.LstPush | kernel/lib/list.c:36-46 | the element is first in its list and every other list stays |
| BufferCache.MoveKeepsPermutation | kernel/fs/bio.c:114-135 | moving a buffer to the front keeps the list a permutation of all buffers |
| BufferCache.MoveRing | kernel/fs/bio.c:126-131 | the six assignments of brelse are that move on the linked list |
| BufferCache.StepGet | kernel/fs/bio.c:57-87 | bget keeps the invariant: one buffer per block, reference counts exact, nothing dirty untracked |
| BufferCache.StepLogWrite | kernel/fs/log.c:213-234 | log_write's pin keeps it |
| BufferCache.StepUnpin | kernel/fs/log.c:68-82 | install_trans's unpin keeps it |
| BufferCache.StepPut | kernel/fs/bio.c:114-135 | brelse keeps it |
| BufferCache.Step | kernel/fs/bio.c:57-149 | every step of any process keeps the cache invariant |
| BufferCache.CacheAgrees | kernel/fs/bio.c:57-149 | in every run from an empty log: the LRU list is a permutation of the buffers, and a buffer that a process holds is the only one for the block it asked for and, once filled, has the contents last stored |
| BufferCache.InvalidIsClean | kernel/fs/bio.c:90-101 | a buffer not yet filled stands for a block whose logical contents are on the disk |
| BufferCache.RecyclingLosesNothing | kernel/fs/bio.c:75-86 | a logged, uninstalled block stays cached, and what bget recycles holds nothing the disk does not have |
| BufferCache.Cache.constructor | kernel/fs/bio.c:35-52 | binit: the list holds every buffer, unused |
| BufferCache.Cache.Bget | kernel/fs/bio.c:57-87 | the cached buffer, or the least recently used unreferenced one, referenced and locked; the panic exactly when there is neither |
| BufferCache.Cache.Search | kernel/fs/bio.c:65-72 | the first buffer of the list that has the block |
| BufferCache.Cache.Victim | kernel/fs/bio.c:75-85 | the least recently used buffer that nobody references |
| BufferCache.Cache.Bread | kernel/fs/bio.c:90-101 | that buffer, filled from the disk unless it was valid |
| BufferCache.Cache.Bwrite | kernel/fs/bio.c:104-110 | the disk gets the buffer's contents; the panic is exactly a missing lock |
| BufferCache.Cache.Touch | kernel/fs/bio.c:126-131 | the buffer becomes the most recently used |
| BufferCache.Cache.Brelse | kernel/fs/bio.c:114-135 | one reference less, first in the list when it was the last, the lock released |
| BufferCache.Cache.Bpin | kernel/fs/bio.c:137-142 | one reference more, in 32-bit arithmetic |
| BufferCache.Cache.Bunpin | kernel/fs/bio.c:144-149 | one reference less, in 32-bit arithmetic |
| BufferCache.Cache.InstallBlock | kernel/fs/log.c:68-82 | installing a block leaves its buffer one reference short of before; for one that was not pinned the count wraps to 2^32 - 1 |
| BufferCache.Cache.WriteBack | kernel/fs/log.c:76-80 | writing, unpinning and releasing a locked buffer takes two references from it |
| CacheLimits.InstallCounts | kernel/fs/log.c:68-82 | a block installed at boot leaves its buffer with count 2^32 - 1; it needs two free buffers |
| CacheLimits.RecoverExactly | kernel/fs/log.c:115-122 | recovery finishes exactly when there are more buffers than blocks in the log, and leaves as many buffers with count 2^32 - 1 |
| CacheLimits.Steal | kernel/fs/bio.c:74-85 | a buffer with count 0 that a process holds is given to another block by some run |
| CacheLimits.RecoveredRecycles | kernel/fs/log.c:68-122 | after every recovery that installed a block, a run gives a held buffer to another block |
| CacheLimits.AgreesExactly | kernel/fs/log.c:68-122 | after boot, holders have the buffer of their block with the contents last stored in every run exactly when recovery installed nothing |
| CacheLimits.NoBufferExactly | kernel/fs/bio.c:57-87 | in every run bget panics exactly when the block is not cached and the blocks in the log and the other buffers held are as many as the buffers |
| CacheLimits.FullGroupStopsCommit | kernel/fs/log.c:177-190 | a run whose group of 30 logged blocks leaves no buffer for a log block |
| CacheOrder.StepRecent | kernel/fs/bio.c:116-135 | every step keeps the list in the order of the last releases, the latest first |
| CacheOrder.RecyclesOldest | kernel/fs/bio.c:72-86 | in every run the buffer recycled is, of those without a reference, the one whose last release is the longest ago |
| CacheOrder.CommitUnpins | kernel/fs/log.c:68-82 | from every reachable state without references, installing the logged blocks leaves every buffer unreferenced and the disk with the contents last stored |
| InodeLayer.WordPut | kernel/fs/fs.c:396-400 | storing a 32-bit block number in an indirect block changes that number only |
| InodeLayer.KeptContent | kernel/fs/fs.c:378-406 | when references and referenced bytes are kept, every file has the contents it had |
| InodeLayer.AttachInv | kernel/fs/fs.c:378-406 | a free block attached to an empty reference keeps: references in use, no block referenced twice, no holes |
| InodeLayer.AttachKept | kernel/fs/fs.c:378-406 | and changes no byte that any file can see |
| InodeLayer.AttachAddr | kernel/fs/fs.c:384-394 | allocating a direct block, or the indirect block, is such an attachment |
| InodeLayer.AttachWord | kernel/fs/fs.c:395-400 | allocating an indirect data block is such an attachment |
| InodeLayer.WriteRefs | kernel/fs/fs.c:498-505 | writing a data block changes no reference |
| InodeLayer.WriteBytes | kernel/fs/fs.c:498-505 | writing a data block changes the bytes written in that file and no other byte of any file |
| InodeLayer.WroteContent | kernel/fs/fs.c:487-518 | the loop's effect and the new size together make the file the old one with the bytes put in that could be copied, cut where it did not grow |
| InodeLayer.FilledSpare | kernel/fs/fs.c:378-406 | filling references takes exactly as many free blocks as there are fewer missing |
| InodeLayer.NoneMissing | kernel/fs/fs.c:487-508 | once every byte written has its block, no reference on the way is missing |
| InodeLayer.ReadBytes | kernel/fs/fs.c:469-478 | a block read through the references is that part of the file |
| InodeLayer.FreeOne | kernel/fs/fs.c:413-441 | each block itrunc frees is still marked when it is freed |
| InodeLayer.Truncated | kernel/fs/fs.c:413-441 | after all of them the marks are those of the other blocks, the file is empty, the rest is as it was |
| InodeLayer.FileSystem.Balloc | kernel/fs/fs.c:65-87 | the lowest free block, marked and zeroed; the panic exactly when none is free |
| InodeLayer.FileSystem.Bfree | kernel/fs/fs.c:90-104 | the mark is cleared; the panic exactly when it was clear |
| InodeLayer.FileSystem.FillAddr | kernel/fs/fs.c:384-394 | an address that is there is kept; otherwise it becomes a free block, and no other reference changes; the panic exactly when it is missing and no block is free |
| InodeLayer.FileSystem.FillWord | kernel/fs/fs.c:395-402 | the same for a word of the indirect block |
| InodeLayer.FileSystem.Bmap | kernel/fs/fs.c:378-406 | the nth block, allocated if missing, with all references and referenced bytes kept; the panic exactly past the largest file or with fewer blocks free than missing on the way |
| InodeLayer.FileSystem.Writei | kernel/fs/fs.c:486-518 | the file becomes the old one with the bytes put in, other files stay; -1 exactly for an offset past the end, a wrapped range or too long a file; the panic exactly when fewer blocks are free than the range still needs; when the copy fails, the bytes before are put in, the file grows to the last whole block and the full count is returned |
| InodeLayer.FileSystem.WriteBlocks | kernel/fs/fs.c:498-508 | where the loop stops, what is then in the blocks, and the exact panic |
| InodeLayer.FileSystem.Readi | kernel/fs/fs.c:459-480 | the bytes of the file in the range, up to the first that cannot be copied; the full count is returned, nothing changes, nothing is allocated |
| InodeLayer.FileSystem.Itrunc | kernel/fs/fs.c:413-441 | the file is empty, exactly its blocks are freed, bfree never panics, other files stay |
| Directory.PadTrim | kernel/fs/fs.c:578 | the name field written for a name reads back as its first 14 bytes |
| Directory.EncodeRoundTrip | kernel/fs/fs.c:556-584 | an entry reads back as its name and the low 16 bits of its inode number |
| Directory.LinkExtends | kernel/fs/fs.c:556-584 | dirlink of an absent name extends the directory's map by it: every lookup afterwards gives what the extended map says |
| Directory.LinkUnique | kernel/fs/fs.c:556-584 | dirlink keeps names unique |
| Directory.Dirlookup | kernel/fs/fs.c:528-554 | the inode number of the first entry for the name, nothing changes; a panic only for a size that is not a multiple of the entry size |
| Directory.Dirlink | kernel/fs/fs.c:556-584 | -1, changing nothing, exactly when the name is there; otherwise the entry goes into the first empty slot or the end and other files stay; on a well-formed directory the panic exactly when the name is new and the file limit or the free blocks leave no room |
| Scheduler.AcquireStep | kernel/lock/spinlock.c:21-42 | acquiring a free spin-lock keeps the invariant |
| Scheduler.ReleaseStep | kernel/lock/spinlock.c:45-69 | releasing one keeps it |
| Scheduler.LocalStep | kernel/proc/proc.c:500-563 | steps on a process's own record keep it: sleep, yield, exit |
| Scheduler.RemoteStep | kernel/proc/proc.c:382-433 | steps on another process's record under its lock keep it: wakeup, kill, fork, wait, reparenting |
| Scheduler.WokenNotCommitted | kernel/proc/proc.c:565-579 | a process that wakeup has dealt with is not on its way to sleep on that lock |
| Scheduler.ZombieStep | kernel/proc/proc.c:318-379 | becoming a zombie keeps it |
| Scheduler.TakeLockStep | kernel/lock/sleeplock.c:21-36 | taking the sleep-lock keeps it |
| Scheduler.ClearStep | kernel/lock/sleeplock.c:38-46 | clearing it keeps it |
| Scheduler.SwitchStep | kernel/proc/proc.c:472-497 | switching from a process to its CPU's scheduler keeps it, p->lock passing along |
| Scheduler.SchedStep | kernel/proc/proc.c:436-470 | the scheduler's own steps keep it |
| Scheduler.PreemptStep | kernel/trap.c:170-172 | a timer interrupt in the kernel, at any point without a spin-lock, keeps it |
| Scheduler.StepInv | kernel/proc/proc.c:318-615 | every step of every thread keeps the invariant |
| Scheduler.MutualExclusion | kernel/lock/sleeplock.c:21-46 | in every interleaving at most one process is between acquiresleep and releasesleep on a lock, and the lock is then taken |
| Scheduler.NoLostWakeup | kernel/proc/proc.c:531-579 | in every interleaving, when a sleep-lock is free and no release of it is under way, nobody sleeps on it |
| Scheduler.Exclusivity | kernel/proc/proc.c:442-508 | no process is current on two CPUs; a process whose lock is free is RUNNING exactly when one CPU has it as current and executes it |
| Scheduler.ZombieIsOff | kernel/proc/proc.c:401-419 | a zombie that wait finds under its lock is on no CPU and will not run again, so freeproc frees no stack in use |
| Scheduler.SchedChecks | kernel/proc/proc.c:479-497 | sched's checks never fail: p->lock is the one lock held and the state is not RUNNING |
| Scheduler.KidsStep | kernel/proc/proc.c:289-433 | every step keeps: an exiting process wakes the parent it has, unless it was given to init meanwhile; a parent that has passed its children in wait has no ZOMBIE among those it forked |
| Scheduler.WaitMissesOnlyAdopted | kernel/proc/proc.c:340-433 | in every interleaving a parent asleep in wait has no ZOMBIE child, except init, and then only one that an exiting parent gave to it |
| MissedExit.InitMissesExit | kernel/proc/proc.c:290-433 | a run from boot that ends with every spin-lock free, init asleep in wait and a ZOMBIE child of init |
| Family.StepFamily | kernel/proc/proc.c:228-433 | every step keeps: a parent is another process, not a child of its child, still there and not past giving its children away; init has none |
| Family.NoSelfDeadlock | kernel/lock/spinlock.c:21-28 | in every interleaving no CPU is about to acquire a spin-lock it holds, so acquire never panics |
| Killing.StepStates | kernel/proc/proc.c:245-614 | what every step does to the state, the parent and the killed flag of every process |
| Killing.Lifecycle | kernel/proc/proc.c:245-614 | in every interleaving: RUNNABLE when forked, woken on what it sleeps on, killed asleep or yielding; RUNNING when picked; SLEEPING and ZOMBIE by its own step; UNUSED when a wait frees it; killed by kill until freed; its parent the one that forked it until that one exits |
| Killing.StepKill | kernel/proc/proc.c:596-614 | every step keeps: no killed process is asleep in wait or past the test for it |
| Killing.KilledNotWaiting | kernel/proc/proc.c:424-431 | in every interleaving no killed process is asleep in wait or on its way there |
| Killing.KillTakes | kernel/proc/proc.c:596-614 | from kill on, whatever the interleaving, the victim is killed and not asleep in wait until a wait frees it |
| Alone.PickAlone | kernel/proc/proc.c:443-470 | the scheduler takes a RUNNABLE process to the point where it left the CPU |
| Alone.AcquireAlone | kernel/lock/sleeplock.c:21-36 | acquiresleep of a free lock takes it, and nothing else changes |
| Alone.SleepAlone | kernel/proc/proc.c:533-563 | acquiresleep of a held lock leaves the process asleep on it, all other spin-locks free |
| Alone.WakesAndTakes | kernel/lock/sleeplock.c:21-36 | a process woken on a free lock takes it before acquiresleep returns |
| Alone.ReleaseAlone | kernel/lock/sleeplock.c:38-46 | releasesleep frees the lock and makes everyone asleep on it RUNNABLE |
| Alone.KillAlone | kernel/proc/proc.c:596-614 | kill marks its victim and takes it out of its sleep, and nothing else changes |
| Alone.ForkAlone | kernel/proc/proc.c:244-286 | fork makes the first UNUSED slot a RUNNABLE child of the caller |
| Alone.WaitAlone | kernel/proc/proc.c:383-421 | wait with a ZOMBIE child frees the first one |
| Alone.WakesAndReaps | kernel/proc/proc.c:389-431 | a process woken in wait looks again and frees a ZOMBIE child |
| Alone.YieldAlone | kernel/proc/proc.c:500-508 | a timer interrupt at any point without a spin-lock takes the process off the CPU and keeps the point |
| Alone.ResumeAlone | kernel/proc/proc.c:500-508 | an interrupted process that is picked goes on where it was |
| Buddy.Tiling | kernel/lib/buddy.c:98-169 | every byte of a page is in exactly one block, handed out or free but not both |
| Buddy.BlocksApart | kernel/lib/buddy.c:98-169 | blocks, free or handed out, do not overlap |
| Buddy.LiveDisjoint | kernel/lib/buddy.c:139-169 | blocks handed out do not overlap |
| Buddy.AllFreed | kernel/lib/buddy.c:111-137 | a page with nothing handed out is one free block of the largest size |
| Buddy.SizeRecovered | kernel/lib/buddy.c:83-91 | going up from the smallest class, the first split bit found is that of the live block's parent |
| Buddy.BuddyIsFree | kernel/lib/buddy.c:111-137 | a buddy whose alloc bit is clear is a free block, so lst_remove is given a listed one |
| Buddy.SplitExactly | kernel/lib/buddy.c:83-91 | the split bits are exactly the blocks with a smaller live block inside |
| Buddy.Canonical | kernel/lib/buddy.c:111-169 | the bitmaps and free blocks are determined by the pages and the live blocks: a free undoes every split of its allocation |
| Buddy.TakeStep | kernel/lib/buddy.c:153-159 | taking a free block keeps the invariant |
| Buddy.SplitStep | kernel/lib/buddy.c:160-165 | splitting keeps it |
| Buddy.MergeStep | kernel/lib/buddy.c:127-133 | merging with a free buddy keeps it |
| Buddy.PutStep | kernel/lib/buddy.c:135 | putting the block on its list keeps it |
| Buddy.AddStep | kernel/lib/buddy.c:98-109 | adding a page keeps it |
| Buddy.Firstk | kernel/lib/buddy.c:58-66 | the smallest size class that holds the bytes |
| Buddy.Table.constructor | kernel/lib/buddy.c:47-56 | bd_init: empty lists and no pages |
| Buddy.Table.PageIndex | kernel/lib/buddy.c:68-76 | the page that holds an address, -1 exactly when none does |
| Buddy.Table.AddPage | kernel/lib/buddy.c:98-109 | one more page, free as one block; refused exactly at the page limit |
| Buddy.Table.TableInit | kernel/lib/ufkalloc.c:37-48 | the pages are aligned and as many as fit in the range after rounding its start up |
| Buddy.Table.Pop | kernel/lib/buddy.c:153-159 | the head of a list becomes allocated |
| Buddy.Table.PushFree | kernel/lib/buddy.c:164 | an address that no list has becomes the head of a free list |
| Buddy.Table.SplitBlock | kernel/lib/buddy.c:160-165 | the lower half stays allocated, the upper is freed |
| Buddy.Table.FindClass | kernel/lib/buddy.c:144-147 | the first class with a free block |
| Buddy.Table.Alloc | kernel/lib/buddy.c:139-169 | a new live block of the smallest class that fits; 0 exactly when no free block is large enough |
| Buddy.Table.BlkSize | kernel/lib/buddy.c:83-91 | the class of a live block from its address alone |
| Buddy.Table.Merge | kernel/lib/buddy.c:127-133 | the block and its free buddy become their parent |
| Buddy.Table.Free | kernel/lib/buddy.c:111-137 | the block is no longer live and everything mergeable is merged |
| Buddy.Table.PutBlock | kernel/lib/buddy.c:135 | a block with an allocated buddy goes on its list |
| TwoLevel.SmallInLeaf | kernel/lib/ufkalloc.c:144-174 | every small block lies in a leaf lent to the small table |
| TwoLevel.IssuedDisjoint | kernel/lib/ufkalloc.c:144-211 | blocks handed out never overlap, whatever their levels |
| TwoLevel.TilesDisjoint | kernel/lib/ufkalloc.c:116-211 | all blocks of both levels, free or handed out, are pairwise disjoint |
| TwoLevel.Routing | kernel/lib/ufkalloc.c:198-211 | for a live pointer the mark of its leaf tells which table issued it |
| TwoLevel.TwoLevelTiling | kernel/lib/ufkalloc.c:116-211 | every managed byte is in a block handed out, a free large block or a free small block |
| TwoLevel.LendStep | kernel/lib/ufkalloc.c:151-159 | lending a leaf keeps the two-level invariant |
| TwoLevel.SmallStep | kernel/lib/ufkalloc.c:147-164 | what the small table does alone keeps it |
| TwoLevel.Allocator.constructor | kernel/lib/ufkalloc.c:37-54 | ufkinit: as many large pages as fit in the range, all free, and no small page |
| TwoLevel.Allocator.Lend | kernel/lib/ufkalloc.c:151-159 | a leaf's two halves become small pages, so every small request has room |
| TwoLevel.Allocator.AllocLarge | kernel/lib/ufkalloc.c:116-142 | a page or more from the large table |
| TwoLevel.Allocator.AllocSmall | kernel/lib/ufkalloc.c:147-148 | less than a page from the small table |
| TwoLevel.Allocator.Ufkalloc | kernel/lib/ufkalloc.c:144-174 | a new block of the smallest class that is large enough, the only change to what is handed out; the panic exactly when nothing fits and no leaf can be lent; a leaf is lent exactly when the small table has no room |
| TwoLevel.Allocator.Ufkfree | kernel/lib/ufkalloc.c:176-211 | the block, and no other, is given back, by the table that issued it |
| RobinHood.AbsentBeyond | kernel/lib/hashmap.c:209-227 | at an empty bucket, or any bucket closer to its home than the search is, the key is known to be absent |
| RobinHood.PathFull | kernel/lib/hashmap.c:163-205 | the buckets from a key's home to the key are full |
| RobinHood.HasEmpty | kernel/lib/hashmap.c:163-227 | a table with fewer items than buckets has an empty bucket, so every search ends |
| RobinHood.DibAtMostCount | kernel/lib/hashmap.c:163-205 | no probe is longer than the number of items |
| RobinHood.DibFits | kernel/lib/hashmap.c:163-205 | up to 2^16 buckets, half full, the 16-bit probe length never overflows |
| RobinHood.RepresentsOne | kernel/lib/hashmap.c:120-283 | the buckets determine the map |
| RobinHood.PlaceStep | kernel/lib/hashmap.c:184-188 | placing the item in hand ends the insertion with the wanted contents |
| RobinHood.SwapStep | kernel/lib/hashmap.c:197-203 | swapping with a closer item keeps the order and the contents still to be reached |
| RobinHood.ShiftStep | kernel/lib/hashmap.c:261-271 | one backward shift keeps the order and the contents |
| RobinHood.TableSize | kernel/lib/hashmap.c:81-89 | the least power of two that is at least 16 and the capacity |
| RobinHood.HashMap.constructor | kernel/lib/hashmap.c:72-118 | an empty map |
| RobinHood.HashMap.Resize | kernel/lib/hashmap.c:120-157 | the same map in the new number of buckets; untouched when memory runs out |
| RobinHood.HashMap.Reinsert | kernel/lib/hashmap.c:127-148 | one absent item inserted |
| RobinHood.HashMap.Rehash | kernel/lib/hashmap.c:120-157 | all items in fresh buckets |
| RobinHood.HashMap.Get | kernel/lib/hashmap.c:209-227 | what the map has for the key |
| RobinHood.HashMap.Insert | kernel/lib/hashmap.c:163-205 | the map with the key bound, and what was bound before |
| RobinHood.HashMap.Set | kernel/lib/hashmap.c:163-205 | the same, with the buckets doubled exactly when the map is half full; only a failed allocation then leaves the map as it was |
| RobinHood.HashMap.ShiftDown | kernel/lib/hashmap.c:261-271 | closing a gap removes exactly that key |
| RobinHood.HashMap.Find | kernel/lib/hashmap.c:249-258 | the bucket of a key, none exactly when it is absent |
| RobinHood.HashMap.TakeOut | kernel/lib/hashmap.c:259-272 | the key at a bucket is removed and the count goes down |
| RobinHood.HashMap.Delete | kernel/lib/hashmap.c:244-283 | the map without the key, and what was bound |
| PageTable.PteRoundTrip | include/arch/riscv.h:331-342 | an entry made from a frame and permissions gives both back |
| PageTable.PxIx | include/arch/riscv.h:345-347 | the three indices of an address are those of its page |
| PageTable.IxInjective | include/arch/riscv.h:345-353 | distinct pages below MAXVA have distinct indices |
| PageTable.LookupFlat | kernel/mem/vm.c:78-96 | walking down the tables finds what the lowest table for the page holds |
| PageTable.WritePage | kernel/mem/vm.c:155-175 | writing a page's slot keeps the tree and changes that page only |
| PageTable.GrowKeeps | kernel/mem/vm.c:84-94 | linking a zeroed table keeps the tree and every translation |
| PageTable.NoTable | kernel/mem/vm.c:84-94 | a missing table means the page is unmapped |
| PageTable.SlotAt | kernel/mem/vm.c:78-96 | the word in a page's slot is what the page is mapped to |
| PageTable.FreeRound | kernel/mem/vm.c:286-302 | what a word of a table says about the tables below it |
| PageTable.FreeEnd | kernel/mem/vm.c:286-302 | when freewalk's loop ends, exactly the tables below are gone and none of them mapped a page |
| PageTable.Vm.AllocTable | kernel/mem/vm.c:88-92 | a free frame becomes a zeroed table; no frame is lost |
| PageTable.Vm.AllocData | kernel/mem/vm.c:252-257 | a free frame becomes a data page |
| PageTable.Vm.FreeData | kernel/mem/vm.c:199-202 | a data page becomes free |
| PageTable.Vm.Descend | kernel/mem/vm.c:84-94 | one level down, linking a new table if asked to; no translation changes |
| PageTable.Vm.Walk | kernel/mem/vm.c:78-96 | the slot of the page; with alloc no translation changes, without nothing does; none exactly when a table is missing; the panics are MAXVA and no free frame |
| PageTable.Vm.MapPage | kernel/mem/vm.c:164-168 | an unmapped page is mapped and no other page changes |
| PageTable.Vm.MapPages | kernel/mem/vm.c:155-175 | a range of unmapped pages is mapped to consecutive frames and no other page changes; a page already mapped, an empty range or MAXVA panics |
| PageTable.Vm.UnmapPage | kernel/mem/vm.c:190-202 | a mapped page is unmapped, its frame given back if asked |
| PageTable.Vm.UvmUnmap | kernel/mem/vm.c:180-208 | exactly the range is unmapped and, if asked, exactly its frames are freed; the panic exactly when a page of the range is not mapped by a leaf, or the range is empty or too high |
| PageTable.Vm.FreeTable | kernel/mem/vm.c:301 | a table becomes free |
| PageTable.Vm.Freewalk | kernel/mem/vm.c:286-302 | every table below is freed exactly once; the panic exactly when a page is still mapped |
| UserMemory.PopulateOne | kernel/mem/vm.c:250-262 | mapping one more new frame extends the pages populated |
| UserMemory.PopulatedOwns | kernel/mem/vm.c:240-265 | the pages then have frames of their own |
| UserMemory.AddPage | kernel/mem/vm.c:250-262 | a new frame with given contents mapped at an unmapped page |
| UserMemory.UvmAlloc | kernel/mem/vm.c:240-265 | every page between the sizes gets a zeroed frame of its own, nothing else changes; a panic only beyond the address space, at a page that is taken, or without a free frame |
| UserMemory.UvmDealloc | kernel/mem/vm.c:271-282 | the pages above the new size are unmapped and their frames freed, those below keep theirs; the panic exactly when a page above is not mapped |
| UserMemory.LeavesArePages | kernel/mem/vm.c:286-302 | the words of the lowest tables are exactly the mapped pages |
| UserMemory.UvmFree | kernel/mem/vm.c:306-311 | every data frame and table of the space is freed once; the panic exactly for size 0 or a page mapped elsewhere |
| UserMemory.OtherSpace | kernel/mem/vm.c:319-347 | changes to one space leave a disjoint one alone |
| UserMemory.Present | kernel/mem/vm.c:327-331 | the parent's entry for a page; the panic exactly when there is none |
| UserMemory.UvmCopy | kernel/mem/vm.c:319-347 | the child's pages get new frames with the parent's bytes and flags; the parent and everything else stay |
| UserMemory.WriteFrame | kernel/mem/vm.c:370-384 | writing into a user page's frame writes those user bytes and no others |
| UserMemory.WalkAddr | kernel/mem/vm.c:101-119 | the frame of a page the user may access, 0 for any other |
| UserMemory.Copyout | kernel/mem/vm.c:365-385 | user memory is overwritten up to the first inaccessible address and nowhere else; success exactly when there is none |
| UserMemory.Copyin | kernel/mem/vm.c:390-410 | the bytes the user sees, up to the first inaccessible address; success exactly when there is none |
| UserMemory.CopyRoundTrip | kernel/mem/vm.c:365-410 | copyin gives back what copyout stored, and both succeed exactly when the range is accessible |
| UserMemory.PermBits | kernel/mem/vm.c:115-116 | R, W or X make a leaf, and the U bit alone gives the user access |
| UserMemory.ClearedWord | kernel/mem/vm.c:351-360 | clearing the U bit ends user access and keeps the frame, validity and the other flags |
| UserMemory.UvmClear | kernel/mem/vm.c:351-360 | the page loses its U bit, every other page keeps its word; a panic exactly when there is no table for it |
| UserMemory.ClearedBytes | kernel/mem/vm.c:349-360 | the user then has no byte of that page, and every other byte as before |
| UserMemory.AllocatedBytes | kernel/mem/vm.c:240-265 | after uvmalloc the user reads zeros at every address between the sizes, and the rest as before |
| UserMemory.StackPages | kernel/proc/exec.c:66-71 | exec's two pages: the lower one out of the user's reach, the upper one zeros, everything below as before |
| UserMemory.CopiedBytes | kernel/mem/vm.c:319-347 | after uvmcopy the child sees at every address below the size what the parent sees |
| Tcp.ReadConserves | kernel/net/socket.c:254-293 | a read that nothing interrupts takes text off the front of the queue and loses none |
| Tcp.ReadProgress | kernel/net/socket.c:271-293 | a read with room and text waiting returns nothing exactly when an emptied pushed buffer is in front |
| Tcp.ExactReadStalls | kernel/net/socket.c:287-291 | reading exactly a pushed buffer's length leaves such a buffer |
| Tcp.AckKeeps | kernel/net/tcp.c:382-447 | check_ack touches only the send side and the state, and enters ESTAB only from SYN_RCVD on an acknowledgement of new data |
| Tcp.RecvCases | kernel/net/tcp.c:536-702 | whatever arrives, the receiving side stays, takes the next text in order, takes a FIN, opens, or the block is freed, by a FIN or without moving rcv.nxt_seq |
| Tcp.ArriveStream | kernel/net/tcp.c:469-631 | an arriving segment of the peer's stream keeps the stream invariant |
| Tcp.PassGot | kernel/net/socket.c:254-293 | a pass of sockrecv moves bytes from the queue to the call and from the call to what is returned or lost, and none elsewhere |
| Tcp.StepStream | kernel/net/tcp.c:95-254 | every event keeps it |
| Tcp.StreamDelivery | kernel/net/tcp.c:469-631 | for every sequence of lost, repeated or reordered segments and of sends and sockrecv passes, the bytes returned, lost by a failing call, taken by the call in progress and queued are in this order a prefix of the peer's stream; without a loss the bytes returned, taken and queued are; until a FIN nothing is lost and rcv.nxt_seq is the number after the prefix |
| Tcp.LossExactly | kernel/net/socket.c:254-258 | in every run a call loses the bytes it has taken exactly when its next pass finds CLOSE_WAIT or a freed block, and then all of them |
| Tcp.NothingLost | kernel/net/socket.c:254-258 | a run loses no bytes exactly when no pass of it finds that in the middle of a call |
| Tcp.CallLoses | kernel/net/socket.c:254-293 | a run with everything in order in which a call takes two bytes, returns -1, and leaves the two after them queued |
| Tcp.CallAlone | kernel/net/socket.c:250-293 | a non-blocking call that nothing interrupts is its passes, and returns what the reading function says |
| Tcp.WindowConserved | kernel/net/tcp.c:469-495 | in every run the receive window and the queued bytes add up to 4096 and the window is never 0 |
| Tcp.Handshake | kernel/net/tcp.c:273-447 | in every run ESTAB is entered only on an acknowledgement of exactly init_seq + 1; the SYN_RCVD branch of tcp_recv_syn_sent, CLOSING and TIME_WAIT are never reached |
| Tcp.UnackBehind | kernel/net/tcp.c:150-254 | in every run that sends fewer than 2^32 - 2 bytes, snd.unack is at most snd.nxt_seq |
| TcpSend.UnackExactly | kernel/net/tcp.c:382-432 | in every run snd.unack is the greatest acknowledgement number, of what was sent, among the segments that reached the acknowledgement stage |
| TcpSend.SentExactly | kernel/net/tcp.c:150-254 | in every run the text sent and the text queued make up the text accepted; at most one FIN is sent, in FIN_WAIT_1, FIN_WAIT_2 and LAST_ACK exactly one, with the number before snd.nxt_seq; one SYN once open; snd.nxt_seq counts SYN, text and FIN |
| TcpSend.CloseExactly | kernel/net/tcp.c:208-254 | whatever comes after a close, a FIN is sent exactly when the connection was established or in SYN_RCVD with something queued; text queued stays queued |
| TcpSend.RecvFollows | kernel/net/tcp.c:536-702 | the staged receiver gives the state, numbers, queue and answer of one look at the event table |
| TcpSend.EventTable | kernel/net/tcp.c:536-702 | the same in every run |
| TcpSend.OtherPeersIgnored | kernel/net/tcp.c:634-661 | a segment changes a connected block only when its address and port are the peer's |
| TcpSend.SamePeer | kernel/net/tcp.c:634-661 | in every run the peer stays the same from the SYN on |
| TcpSend.TakenIsAcked | kernel/net/tcp.c:598-627 | in every run everything taken from the peer has been acknowledged |
| TcpSend.CallEnds | kernel/net/socket.c:253-292 | when a sockrecv call returns |
| TcpSend.FinWaitExactly | kernel/net/tcp.c:401-428 | in every run FIN_WAIT_2 is entered by any acceptable acknowledgement, and the FIN is then acknowledged exactly when the number is snd.nxt_seq |
| TcpSend.EarlyFinWait | kernel/net/tcp.c:420-423 | a run that reaches FIN_WAIT_2 with the FIN not acknowledged |
| TcpSend.LastAckExactly | kernel/net/tcp.c:433-435 | in every run LAST_ACK ends by any acknowledgement in the window |
| TcpSend.EarlyLastAck | kernel/net/tcp.c:433-435 | a run that ends LAST_ACK with the FIN not acknowledged |
| TcpSend.SendWindowScaled | kernel/net/tcp.c:403-414 | in every run snd.wnd, wl1 and wl2 are those of the last window update, the window 65536 times the advertised one |
| TcpSend.AcceptsExactly | kernel/net/tcp.c:260-271 | without wrap-around, the test accepts the segments that have a number in the window, except one that covers the window on both sides |
| Tcp.SendContiguous | kernel/net/tcp.c:176-191 | in every run the segments of a tcp_send on an established connection are numbered without gap or overlap exactly when no text was queued before |
| Tcp.QueuedBeforeEstab | kernel/net/tcp.c:176-191 | a run that reaches ESTAB with text queued |
| Tcp.AcksExactly | kernel/net/tcp.c:117-147 | in every run an acknowledgement covers at most the text taken, plus one once a FIN was taken, and one of them covers a byte that was not taken exactly when the FIN was taken before all of the text |
| Tcp.UntakenAcked | kernel/net/tcp.c:497-534 | in every run that happens exactly when a FIN is taken out of order or from a segment with text |
| Tcp.FinExactly | kernel/net/tcp.c:497-534 | in every run and every state that takes a FIN, all of the peer's text has been taken exactly when the segment was next in order and without text |
| Tcp.EarlyFin | kernel/net/tcp.c:497-534 | a run in which a FIN overtakes the peer's only byte, the connection closes without it and the acknowledgement covers it |
| Tcp.InOrderTaken | kernel/net/tcp.c:260-271 | acknowledged text that is next in order and fits is taken, in every state that takes text, exactly when the window does not wrap past 2^32 |
| Tcp.WrapRefuses | kernel/net/tcp.c:260-271 | a run in which the next text in order is refused there |
| Tcp.TextStranded | kernel/net/socket.c:255-257 | in every run, after a FIN was taken, the block freed or the socket closed, no call returns another byte |
| Tcp.SockCb.constructor | kernel/net/sock_cb.c:13-48 | a control block with nothing sent or received and a full window |
| Tcp.SockCb.SendCore | kernel/net/tcp.c:117-147 | the segment sent carries the acknowledgement number only with the ACK flag |
| Tcp.SockCb.TcpListen | kernel/net/tcp.c:78-85 | equals the listen step that the run theorems are about |
| Tcp.SockCb.TcpConnect | kernel/net/tcp.c:95-115 | equals the connect step |
| Tcp.SockCb.TcpRecvListen | kernel/net/tcp.c:273-310 | equals the step for a segment in LISTEN |
| Tcp.SockCb.TcpRecvSynSent | kernel/net/tcp.c:312-352 | equals the step for a segment in SYN_SENT; its SYN_RCVD branch is proved dead |
| Tcp.SockCb.TcpCheckRst | kernel/net/tcp.c:354-380 | equals the RST stage |
| Tcp.SockCb.TcpCheckAck | kernel/net/tcp.c:382-447 | equals the acknowledgement stage |
| Tcp.SockCb.TcpCheckText | kernel/net/tcp.c:469-495 | equals the text stage |
| Tcp.SockCb.TcpCheckFin | kernel/net/tcp.c:497-534 | equals the FIN stage |
| Tcp.SockCb.TcpRecvText | kernel/net/tcp.c:598-630 | equals the text and FIN stages together |
| Tcp.SockCb.TcpRecvAccepted | kernel/net/tcp.c:574-630 | equals the stages after the SYN check |
| Tcp.SockCb.TcpRecvCore | kernel/net/tcp.c:536-631 | equals tcp_recv_core's step |
| Tcp.SockCb.TcpRecv | kernel/net/tcp.c:634-702 | equals the arrival step that the run theorems are about |
| Tcp.SockCb.TcpSend | kernel/net/tcp.c:150-206 | equals the send step |
| Tcp.SockCb.Drain | kernel/net/tcp.c:181-190 | the queue is sent in order |
| Tcp.SockCb.TcpClose | kernel/net/tcp.c:208-254 | equals the close step |
| Tcp.SockCb.SockRecv | kernel/net/socket.c:250-293 | -1 for a block that is not found or in CLOSE_WAIT; otherwise the bytes and the queue left are those of the reading function, and the window grows by what was read |
| Tcp.SockCb.ReadOnce | kernel/net/socket.c:262-293 | one pass: the bytes copied, the queue left and whether to go on |
| Tcp.StepConn | kernel/net/tcp.c:95-702 | every event keeps the stream, window, handshake, send and acknowledgement invariants together |
| Tcp.Connection.constructor | kernel/net/sock_cb.c:13-48 | a new connection has all the invariants |
| Tcp.Connection.Receive | kernel/net/tcp.c:634-702 | an arriving segment keeps them |
| Tcp.Connection.Start | kernel/net/socket.c:242-253 | the start of a read keeps them |
| Tcp.Connection.Continue | kernel/net/socket.c:254-293 | a pass keeps them; what the call returns is the number of bytes it adds to those returned, or -1 |
| Tcp.Connection.Send | kernel/net/tcp.c:150-206 | a send keeps them |
| Tcp.Connection.Shut | kernel/net/tcp.c:208-254 | a close keeps them |
| Tcp.Connection.Open | kernel/net/socket.c:183-196 | a connect keeps them |
| Tcp.Connection.OpenPassive | kernel/net/socket.c:123-137 | a listen keeps them |
| MbufQueue.ChainCut | kernel/net/mbuf.c:92-103 | linking a packet behind another appends it there and cuts off what followed |
| MbufQueue.Queue.constructor | kernel/net/mbuf.c:132-136 | an empty queue |
| MbufQueue.Queue.PushTail | kernel/net/mbuf.c:92-103 | appends exactly when the tail pointer is right; a stale one inside the queue cuts off the packets behind it, one outside loses the new packet |
| MbufQueue.Queue.PushHead | kernel/net/mbuf.c:105-111 | prepends; on a non-empty queue the tail pointer is as right as before, on an empty one exactly when the packet was the one last popped |
| MbufQueue.Queue.PopHead | kernel/net/mbuf.c:113-122 | the first packet, 0 for an empty queue |
| MbufQueue.Queue.PopAndPutBack | kernel/net/socket.c:262-291 | popping a packet and pushing it back, as sockrecv does, keeps the queue and its tail pointer |
| Checksum.TwoFolds | kernel/net/netutil.c:23-24 | two folds of any 32-bit total leave 16 bits congruent to it modulo 65535 |
| Checksum.Cksum16 | kernel/net/netutil.c:12-26 | for every buffer up to 65535 bytes the 32-bit sum does not overflow and the result is that of the exact sum |
| Checksum.AddWords | kernel/net/netutil.c:13-22 | the loop adds up the words, an odd last byte as a high byte, without overflow |
| Checksum.ZeroExactly | kernel/net/netutil.c:12-26 | the checksum is 0 exactly for a positive multiple of 65535 |
| Checksum.PseudoIsHeader | kernel/net/tcp.c:35-43 | on a little-endian host the seed is the word sum of the pseudo-header in network order |
| Checksum.SenderReceiver | kernel/net/tcp.c:144-146 | the value computed over a zeroed field and stored in it makes the receiver's checksum 0 |
| Checksum.DetectsWord | kernel/net/tcp.c:645-650 | a change of one aligned word passes unnoticed exactly between 0x0000 and 0xffff |
| UserMalloc.BlocksApart | user/ulib/umalloc.c:24-90 | no two blocks share a unit |
| UserMalloc.MaximalRuns | user/ulib/umalloc.c:33-42 | the free blocks are exactly the maximal runs of free units |
| UserMalloc.InsertAll | user/ulib/umalloc.c:33-42 | putting in a block, with or without its upper neighbour, keeps the ordered circle and the tiling |
| UserMalloc.GrowAll | user/ulib/umalloc.c:33-42 | joining a block to its lower neighbour, with or without the upper, keeps them |
| UserMalloc.TakeWhole | user/ulib/umalloc.c:76-77 | taking a block of the exact size keeps them |
| UserMalloc.TakeTail | user/ulib/umalloc.c:78-82 | taking the tail of a larger one keeps them |
| UserMalloc.AddCore | user/ulib/umalloc.c:46-61 | new units from sbrk keep them |
| UserMalloc.Heap.constructor | user/ulib/umalloc.c:21-22 | nothing obtained yet |
| UserMalloc.Heap.FindPlace | user/ulib/umalloc.c:30-32 | the search ends, at the last free block below the block freed |
| UserMalloc.Heap.Join | user/ulib/umalloc.c:33-43 | the block is linked there, joined to what it touches |
| UserMalloc.Heap.Free | user/ulib/umalloc.c:24-44 | the block is no longer live; all other live blocks and the units obtained stay |
| UserMalloc.Heap.MoreCore | user/ulib/umalloc.c:46-61 | at least 4096 more units, free |
| UserMalloc.Heap.Take | user/ulib/umalloc.c:75-85 | a live block of exactly the units asked for |
| UserMalloc.Heap.FirstUse | user/ulib/umalloc.c:70-73 | the first call makes a circle of the empty base block, in which nothing fits |
| UserMalloc.Heap.Malloc | user/ulib/umalloc.c:63-90 | a new live block of the fewest units with room for the bytes, cut from the end of the first block large enough after the last search, otherwise from one sbrk; null exactly when that fails |
| Shell.RedirsBack | user/sh.c:374-397 | printed redirections parse back onto the command, the first innermost |
| Shell.SimpleRound | user/sh.c:415-446 | a printed simple command parses back, stopping at what follows |
| Shell.ExecRound | user/sh.c:399-446 | the same for a block |
| Shell.PipeRound | user/sh.c:361-372 | the same for a pipeline |
| Shell.BackRound | user/sh.c:349-353 | the same for a background chain |
| Shell.OpenRound | user/sh.c:344-372 | the same for a pipeline, list or background command without parentheses |
| Shell.LineRound | user/sh.c:344-359 | the same for a whole line |
| Shell.LexSpell | user/sh.c:265-308 | the tokens of a text written with spaces between tokens are those tokens |
| Shell.LineFine | user/sh.c:344-446 | whatever parses has at most nine words to a simple command, all non-empty, plain and without NUL |
| Shell.LexGood | user/sh.c:265-308 | every token of a C string is a symbol or a plain word without NUL |
| Shell.RoundTrip | user/sh.c:265-446 | printing a command and parsing the text gives the command and uses up the text, exactly for commands with at most nine words to a simple command, all non-empty, plain and without NUL |
| ShellLaws.LinePlain | user/sh.c:385-394 | replacing every >> by > changes no parse |
| ShellLaws.SimpleExactly | user/sh.c:399-446 | a simple command with redirections anywhere is taken exactly when every redirection symbol has a word after it and there are fewer than ten other words, and then has those words and redirections in order, < reading, > and >> writing |
| ShellLaws.LineKeeps | user/sh.c:327-446 | whatever parses, the command's words and operators from left to right are the line's, and so are its redirections |
| ShellLaws.ParsedKeeps | user/sh.c:327-342 | the same for the characters of a whole line |
| ShellLaws.Parenthesized | user/sh.c:399-415 | parentheses around a whole line change nothing |
| ShellLaws.LexSplit | user/sh.c:265-308 | where no token goes across, a text's tokens are those of its two parts |
| ShellLaws.LexBlank | user/sh.c:262-273 | whitespace separates and is no token |
| ShellLaws.LexSymbol | user/sh.c:277-289 | a symbol is a token with or without whitespace around it |
| ShellLaws.LexArrow | user/sh.c:284-289 | one > is > and two are >> |
| Shell.Parser.constructor | user/sh.c:327-334 | the line ends at its first NUL, and the cursor is at its start |
| Shell.Parser.SkipSpace | user/sh.c:272-273 | the cursor passes the whitespace and nothing else |
| Shell.Parser.Peek | user/sh.c:310-320 | whether the next token starts with one of the characters; no token is consumed |
| Shell.Parser.TakeToken | user/sh.c:276-300 | the token at the cursor |
| Shell.Parser.GetToken | user/sh.c:265-308 | the next token's kind and text; exactly it is consumed; 0 at the end |
| Shell.Parser.TryRedirs | user/sh.c:374-397 | equals the grammar's redirections on the tokens left |
| Shell.Parser.TryArgs | user/sh.c:429-445 | equals the grammar's words and redirections; the tenth word is refused |
| Shell.Parser.TryExec | user/sh.c:399-446 | equals the grammar's simple command or block |
| Shell.Parser.TryPipe | user/sh.c:361-372 | equals the grammar's pipeline |
| Shell.Parser.Amps | user/sh.c:350-353 | equals the grammar's background marks |
| Shell.Parser.TryLine | user/sh.c:344-359 | equals the grammar's line, and ends |
| Shell.TryCmd | user/sh.c:327-342 | the command of the whole line, refused exactly when the grammar does not take all of it |

## Left out

- Device drivers, boot, traps and assembly: the disk is blocks read and written atomically, a context switch is a step.
- System calls, exec, pipes, the file table, ARP, IP, UDP, the 9P server and user programs other than the shell's parser.
- Inode allocation and caching (ialloc, iget, iput), path lookup, and how the bitmap packs marks into bytes.
- InodeLayer.FileSystem.Writei: the bytes a failed copy leaves in a block are not logged; the model has the cached contents only.
- Directory.Dirlookup: gives the inode number; the type check, iget and the entry's offset are not modelled.
- DiskLog.Log.EndOp: is the case where no operation begins between its critical section and the commit; LogProtocol has every interleaving.
- BufferCache.Cache.Bget: takes the picked buffer's sleep-lock as free; waiting for it is a step of the run model.
- BufferCache.Cache.Bread: as Bget, on which it rests.
- BufferCache.Cache.InstallBlock: as Bget, on which it rests.
- IntrusiveList.ListMemory.LstRemove: the element is on a list; the panic for an element with null links is not modelled.
- IntrusiveList.ListMemory.LstPush: the list is initialized; a head with null links is not modelled.
- IntrusiveList.ListMemory.LstPop: as LstPush.
- BufferCache.CacheAgrees: starts from an empty log and has fewer than 2^32 - 2 references at once; CacheLimits.AgreesExactly has the other boots.
- CacheLimits.AgreesExactly: a disk with more blocks than the cache has buffers, as the 2000 and 30 of include/param.h are.
- The scheduler model has no process identifiers; only its holder releases a sleep-lock; an interrupt comes only where no spin-lock is held, as push_off ensures.
- Alone.WaitAlone: copyout succeeds; Killing.Lifecycle has the case where it fails.
- Alone.ForkAlone: uvmcopy succeeds; Killing.Lifecycle has the case where it fails.
- Scheduler.SchedChecks: the checks on the lock held and the state; noff and the interrupt flag are not modelled.
- The alloc bit of a largest block is never read by the code and not constrained; the size search stops at the largest class, where the code reads one row further with the same result.
- RobinHood.HashMap.constructor: a failed allocation, for which the code returns NULL, is not modelled.
- Hash functions are any function of the key, equal keys being those that compare equal; seeds, scanning and freeing a map are not modelled.
- PageTable.Vm.Walk: takes a frame for a table or for data by its use; that memory is bytes, and the TLB, are not modelled.
- PageTable.Vm.UvmUnmap: with do_free, the pages own their frames, as a process's do.
- PageTable.Vm.Freewalk: the valid words of the lowest tables can be read, written or executed, as mappages makes them.
- UserMemory.UvmFree: is about an address space that owns its pages below the size, as a process's does.
- The kernel page table, uvminit and copyinstr; they would only add easier members.
- Return paths for a failed page allocation in vm.c: ufkalloc panics instead of returning 0.
- TCP options, urgent data, send-window processing, timers and retransmission, and the socket table's hash lists: partial in the code or short.
- Tcp.StreamDelivery: one connect or listen per control block, segments with the 20-byte header and a right checksum, a stream of fewer than 2^32 - 2 bytes.
- TcpSend.OtherPeersIgnored: a block connected to port 0 takes segments of any address; get_sock_cb's hash lists are not modelled.
- Tcp.UntakenAcked: segments with less than 64 KiB of text, as one IP packet can carry.
- Tcp.SockCb.SockRecv: is the non-blocking read that nothing interrupts; blocking reads and interruptions are steps of the run model. One call is in progress at a time, its size is not negative, and get_sock_cb finds no other block of the same port.
- Tcp.WindowConserved: a pass of sockrecv is one step; an interrupt between taking a packet off the queue and putting back its unread rest sees the queue without it, and before the window grows a sum below 4096.
- The network card's reuse of packet buffers: a queued packet owns its bytes.
- UserMalloc.Heap.Malloc: takes what sbrk answers as a parameter, aligned to headers and above the program's static data; the overflow of sbrk's int argument is not modelled.
- Shell.Parser.TryArgs: the word array filled in place under the redirections is modelled by adding words to the innermost node; nulterminate and running commands are not modelled.
