# xv6: verified models

Dafny models of the parts of xv6 where correctness is hard to see from the code, each with the property it
exists for proved over every input or every run. Code that works in place is modelled in place, by classes and
loops proved against functions on values; protocols between processes are state machines whose runs are
arbitrary interleavings.

## What is modelled

**Crash-safe log** (`bio.c`, `log.c`). `BufferCache` takes one atomic section of the cache at a time, so a run is
any interleaving by any processes; the cache refines "the latest contents of every block" with arbitrary
evictions. `LinkedBuffers` is the same cache over the doubly linked list. `Log` says what every prefix of the disk
writes of `commit()` and of recovery leaves behind, `RedoLog` runs the actual loops, and its `History` is the main
result for one process: after any sequence of transactions and a crash at any disk write, recovery gives the
contents after some prefix of them, completed ones included. `GroupCommit` interleaves the operations of many
processes over the cache, readers included, and shows each of them wholly in or wholly out after a crash.
`IdleCache` shows that the operations do go through when nobody else uses the cache. `LogAdmission` is
`begin_op`/`end_op`/`log_write` as a concurrent protocol.

**Sleep and wakeup, and locks** (`proc.c`, `sleeplock.c`, `rwlock.c`, `spinlock.c`, `pipe.c`). `Monitor` is a
generic protocol with the two-lock handover of `sleep` and `wakeup`, spinlock by spinlock; no wakeup is lost in
any program over it that meets two local conditions. `SleepLock`, `RwLock` and `LogAdmission` are instances.
`PriorityLock` and `Pipe` have step machines of their own.

**Scheduler** (`proc.c`, `trap.c`). `Scheduler` holds every event that touches a run queue, `SchedulerRuns` what
whole runs guarantee (exact queue membership, bounded waiting on E cores, starvation on P cores, convergence of
balancing), `RunQueue` the queues as linked lists.

**Files** (`fs.c`, `file.c`). `Inodes` gives every block of every file one owner, `FileSystem` and `Truncate` run
`balloc`, `bfree`, `bmap`, `readi`, `writei`, `iupdate` and `itrunc` on disk blocks, `FileOps` does
`filewrite` and the copy of `make_duplicate` transaction by transaction. `DurableWrite` sends the transactions of
`filewrite` through `RedoLog`: what a crash leaves of the file system itself.

**Memory** (`kalloc.c`, `vm.c`). `PageTables` gives every page frame one role. `VirtualMemory`, `AddressSpaces` and
`SpaceCopy` run the allocator and build, grow, shrink, copy and free address spaces on 32-bit words.

**User programs** (`umalloc.c`, `sh.c`, `grep.c`). `FreeList` and `UserHeap` are malloc and free over the circular
list. `ShellGrammar` is the shell's grammar as functions on positions of the line, `ShellParser` the parser with
its moving pointer, `ShellSyntax` a declarative grammar over tokens that accepts exactly the same lines,
`ShellWords` the NUL termination in the buffer, `ShellPrinter` the inverse and `ShellCoverage` the proof that no
word is lost. `Grep` compares the matcher with a declarative pattern language.

## What the proofs found

- `log_write` can panic although every operation keeps to MAXOPBLOCKS blocks, because the check fires one block
  early. `LogAdmission.BudgetExact`: over all interleavings the panic is reachable if and only if operations may
  log 10 blocks; 9 are safe. `filewrite` stays at 7 (`FileOps.ChunkLogsSeven`).
- `kill` of a sleeper makes it RUNNABLE without queueing it. Such a process is never run again
  (`SchedulerRuns.KilledSleeperIsStranded`), and these are the only RUNNABLE processes off the queues.
- `plock_acquire` returns after any wakeup. Exclusion holds in every run in which only `plock_release` wakes the
  waiters (`PriorityLock.PlockSafety`). A wakeup of a sleeper from elsewhere can break it if and only if the
  sleeper has not been handed the lock yet and nobody has panicked holding its spinlock
  (`PriorityLock.StrayWakeBreaksExclusion`).
- "A sleeping reader means an empty pipe" fails: a killed writer returns from a pipe it has filled without waking
  the reader (`Pipe.KilledWriterLosesWakeup`). It fails exactly when a killed writer with more than a pipeful left
  finds a reader asleep (`Pipe.StrandedExactly`, over runs `Pipe.StrandedHasCause`), and never without a kill
  (`Pipe.NoKillNoStranding`).
- `malloc` rounds a request above 0xFFFFFFF8 bytes down to a few units (`UserHeap.UnitsSuffice`), and takes `sbrk`'s
  answer for an area it did not get if and only if the request takes 2^31 bytes or more with its header
  (`UserHeap.SbrkGrows`).
- A P core keeps running its oldest process, until it sleeps or exits, whatever else is queued (`SchedulerRuns.PCoreSticks`).
- `>>` and `>` give the same open mode in `sh.c`, and the model follows the code.
- A failed `allocuvm` keeps the page tables it made. Every frame keeps its role if and only if no table is missing
  in the range, or too few frames are free to get past the first page that lacks one (`AddressSpaces.Allocuvm`;
  `SpaceCopy.TableLeftBehind` is a case of a table left behind).

## Reading the contracts

A panic is a result value after which nothing more is promised; the contracts say when it can happen. Fields
marked as history (owners, roles, references, release times, the disk after each write) decide no branch of the
modelled code; the invariants and the rules callers keep to are stated with them.

## Model

| member | source | states |
|---|---|---|
| BufferCache.Lookup | xv6-public/bio.c:68-76 | The buffer bget finds caches the block asked for; none is found only if no buffer on the list caches it |
| BufferCache.Victim | xv6-public/bio.c:78-92 | The buffer bget recycles is unused and clean; "no buffers" is reached only if every buffer is used or dirty |
| BufferCache.LruVictim | xv6-public/bio.c:81-92 | Whenever some buffer can be recycled, the one chosen was released no later than it: eviction is least recently used |
| BufferCache.VictimIsLast | xv6-public/bio.c:81-92 | The backwards scan stops at or behind every recyclable position of the list |
| BufferCache.ToFrontOrder | xv6-public/bio.c:130-138 | Moving a released buffer to the front keeps the list a permutation of all buffers in order of last release |
| BufferCache.BgetInv | xv6-public/bio.c:61-93 | bget keeps the cache invariant and gives the caller a reference to a buffer with the identity it asked for, evicting only what is on disk |
| BufferCache.ReadInv | xv6-public/bio.c:96-106 | Filling an invalid buffer from disk gives it the latest contents of its block and keeps the invariant |
| BufferCache.StepInv | xv6-public/bio.c:61-141 | Every atomic section of the cache, by any process, keeps one buffer per block, reference counts equal to the references held, dirty data pinned, and the list in release order |
| BufferCache.RunInv | xv6-public/bio.c:38-141 | The invariant holds after every run of sections by any number of processes, from binit on |
| BufferCache.ReadsLatest | xv6-public/bio.c:61-141 | After every run, every valid buffer holds the latest contents of its block, no other buffer caches that block, and a block stale on disk is in a dirty or held buffer |
| BufferCache.ReadsLastStore | xv6-public/bio.c:61-141 | After every run, whatever was evicted and read back in between, a valid buffer holds what the last store of the run to its block put there, and so does the disk for every block in no valid buffer |
| BufferCache.PinnedIdentity | xv6-public/bio.c:81-91 | A referenced or dirty buffer keeps its block through every section: log.c's pinned blocks are never evicted |
| LinkedBuffers.LinkedCache.constructor | xv6-public/bio.c:38-56 | binit threads all buffers on the doubly linked list, giving the initial state of the abstract cache |
| LinkedBuffers.LinkedCache.Bget | xv6-public/bio.c:61-93 | bget over next and prev links does exactly what the abstract bget does, error case included, and keeps the links a ring |
| LinkedBuffers.LinkedCache.FindCached | xv6-public/bio.c:69-76 | The walk along next stops at the first buffer in list order that caches the block |
| LinkedBuffers.LinkedCache.FindVictim | xv6-public/bio.c:81-92 | The walk along prev stops at the last recyclable buffer in list order |
| LinkedBuffers.LinkedCache.Unlink | xv6-public/bio.c:132-133 | Rewiring the neighbours takes exactly that buffer out of the ring |
| LinkedBuffers.LinkedCache.PushFront | xv6-public/bio.c:134-137 | Rewiring at the head puts the buffer in front of the ring |
| LinkedBuffers.LinkedCache.Unref | xv6-public/bio.c:128-140 | brelse's section over links drops one reference and moves the buffer to the front just when it was the last |
| Log.BreadOk | xv6-public/bio.c:96-106 | bread as log.c uses it returns a held, valid buffer with the latest contents of the block and leaves disk, contents and held buffers alone |
| Log.BrelseOk | xv6-public/bio.c:120-141 | brelse of an unchanged or handed-over buffer changes neither disk nor contents nor any other buffer |
| Log.CopyBlock | xv6-public/log.c:74-81 | The loop body shared by install_trans and write_log makes disk and cache at dst equal to the latest contents of src, and changes no other block |
| Log.Header | xv6-public/log.c:107-110 | The header block written reads back as the count and the block numbers of the transaction |
| Log.WriteHead | xv6-public/log.c:101-113 | write_head puts the header on disk in one block write and changes no other block |
| Log.InstallAt | xv6-public/log.c:69-82 | After installing k copies, a block holds its own copy if it is listed among them and its old contents if not |
| Log.InstallAgain | xv6-public/log.c:69-82 | Installing a prefix first and then everything equals installing everything |
| Log.RecoveryIdempotent | xv6-public/log.c:115-122 | A crash after any single write of recovery leaves a disk that recovers to the same contents |
| Log.ChainRecovers | xv6-public/log.c:115-122 | Any number of crashes inside recovery change nothing about what recovery finally leaves |
| Log.CommittedShape | xv6-public/log.c:177-202 | Once the header has landed, the disk names exactly the transaction's blocks and holds their new contents in the log, with every home block still old |
| Log.CommittedInstalls | xv6-public/log.c:192-202 | Installing the logged copies gives exactly the latest contents outside the log |
| Log.BeforeCommitPoint | xv6-public/log.c:192-202 | Before the header is written, every disk recovers to the contents before the transaction |
| Log.DuringInstall | xv6-public/log.c:192-202 | After the header and during installation, every disk recovers to all of the transaction |
| Log.AfterClear | xv6-public/log.c:192-202 | After the header is cleared, the disk recovers to all of the transaction |
| Log.CommitAtomic | xv6-public/log.c:192-202 | For every k, a crash after the k-th write of commit() recovers to all of the transaction if the header has landed and to none of it otherwise |
| Log.CommitTraceAt | xv6-public/log.c:192-202 | The writes commit() issues, in order, are the disks the crash theorem speaks of: 2n + 2 of them for n blocks |
| Log.CrashAtomicity | xv6-public/log.c:115-202 | A crash anywhere in commit() followed by any number of crashes inside recovery leaves the whole transaction or none of it |
| Log.Settled | xv6-public/log.c:192-202 | After commit() disk and cache agree on the new contents, nothing is pending and the header is empty |
| Log.RecoveryTraceAt | xv6-public/log.c:115-122 | The writes recover_from_log issues, in order, are the recovery disks of the crash theorems |
| Log.ListedUpdate | xv6-public/log.c:224-231 | log_write of a changed block keeps the header list distinct and naming every change not on disk |
| IdleCache.BreadRuns | xv6-public/bio.c:61-106 | A bread goes through if some buffer can be recycled and no busy buffer caches the block, and it takes one reference |
| IdleCache.CopyRuns | xv6-public/log.c:74-81 | With no other user of the cache and two unpinned buffers, a round of write_log or install_trans goes through and gives both buffers back |
| IdleCache.CopyCleans | xv6-public/log.c:69-82 | Writing a block home unpins its buffer and pins no other, whoever else uses the cache |
| IdleCache.LogLeavesRoom | xv6-public/log.c:213-233 | A transaction of at most NBUF - 2 blocks leaves two buffers unpinned, since no two buffers cache one block |
| RedoLog.Entries | xv6-public/log.c:91-94 | read_head's loop reads the listed block numbers out of the header block, in order |
| RedoLog.Logger.CopyLoop | xv6-public/log.c:69-82 | The loop of install_trans and write_log takes disk and cache through exactly the installation disks, unpins what it wrote, and completes when the cache is idle with room |
| RedoLog.Logger.WriteHeader | xv6-public/log.c:101-113 | write_head is one disk write of the current header; it completes when the cache is idle with room |
| RedoLog.Logger.WriteLog | xv6-public/log.c:196-197 | write_log and write_head run through the disks up to the commit point, in order |
| RedoLog.Logger.InstallAndClear | xv6-public/log.c:198-200 | install_trans and the clearing write_head run through the installation disks and end with an empty header |
| RedoLog.Logger.Commit | xv6-public/log.c:192-202 | commit() writes exactly the commit trace, nothing if the transaction is empty, unpins its blocks, and completes when the cache is idle with room |
| RedoLog.Logger.ReadHeader | xv6-public/log.c:85-96 | read_head loads the on-disk list and changes neither disk nor contents |
| RedoLog.Logger.RecoverFromLog | xv6-public/log.c:115-122 | On any disk with a well-formed header, recovery at boot completes, issues exactly the recovery writes and leaves the log ready for the next transaction |
| RedoLog.Logger.AddToHeader | xv6-public/log.c:224-230 | log_write's search absorbs a block already listed and appends any other |
| RedoLog.Logger.LogWrite | xv6-public/log.c:213-233 | log_write panics exactly when the header is full or no operation is open, and otherwise lists the block and marks its buffer dirty |
| RedoLog.Logger.WriteBlock | xv6-public/log.c:204-233 | bread, modify, log_write and brelse change only the cached contents of that block, keep the log invariant, and go through when the cache is idle and the log has room |
| RedoLog.Logger.Updates | xv6-public/log.c:204-233 | The updates of a transaction change the cached contents in order and nothing on disk; with an idle cache they go through if the distinct blocks fit the log at every log_write |
| RedoLog.Logger.CommitPending | xv6-public/log.c:192-202 | Every disk commit() writes recovers to the contents before the transaction or to all of its changes, with the switch at the header write; with an idle cache it completes |
| RedoLog.Logger.Transaction | xv6-public/log.c:125-202 | A whole transaction has one write before which a crash undoes all of it and from which a crash undoes none; with an idle cache it completes if its distinct blocks fit the log and leave two buffers |
| RedoLog.Logger.History | xv6-public/log.c:125-202 | For every sequence of transactions and a crash after any write, recovery gives the contents after a prefix of them; the prefixes never shrink, and completed transactions survive |
| GroupCommit.StepSound | xv6-public/log.c:125-233 | Every section of the cache and of the log, by any process at any time, keeps: what is on disk, in the log, in the header and in the buffers adds up to the stores made, split at the last commit point |
| GroupCommit.RunSound | xv6-public/log.c:125-233 | The same after every interleaving of readers, begin_op, changes, log_write, end_op and the writes of commit() |
| GroupCommit.SoundRecovers | xv6-public/log.c:115-122 | In every such state the disk recovers to the stores up to the last commit point |
| GroupCommit.OperationsAtomic | xv6-public/log.c:115-233 | For interleaved operations of any number of processes, a crash anywhere and any number of crashes inside recovery leave the stores up to the last commit point: each operation wholly in or wholly out, open ones out, and all in once nothing is going on |
| LogAdmission.FireKeeps | xv6-public/log.c:125-233 | begin_op, log_write and end_op each keep: outstanding counts the open operations, and logged plus reserved blocks fit the log |
| LogAdmission.NoPanic | xv6-public/log.c:218-221 | Operations that log fewer than MAXOPBLOCKS blocks each never reach log_write's panics |
| LogAdmission.AdmissionDisciplined | xv6-public/log.c:125-174 | Every step that can end a begin_op wait is followed by a wakeup, and no step disturbs what another process is doing |
| LogAdmission.AdmissionSafety | xv6-public/log.c:125-233 | In every run with any number of processes: commit runs with no operation open, the reservation bound holds, sleepers have a reason, and budgets below MAXOPBLOCKS never panic nor log more than 28 blocks |
| LogAdmission.ChecksPassUnlocked | xv6-public/log.c:218-221 | At every moment of every run, lock held or not, the checks log_write makes before it takes the lock pass for a process with an open operation, for budgets below MAXOPBLOCKS |
| LogAdmission.NominalBudgetPanics | xv6-public/log.c:218-219 | With a budget of MAXOPBLOCKS there is an interleaved run from the initial state in which three operations within it end in the panic of log_write |
| LogAdmission.BudgetExact | xv6-public/log.c:125-233 | Over all interleavings of any processes, a panic of log_write or end_op is reachable if and only if operations may log MAXOPBLOCKS or more blocks |
| Monitor.RunSound | xv6-public/proc.c:533-593 | For any lock-protected protocol, every interleaving of acquire, test, sleep, wakeup and release keeps its invariant and the two-lock handover of sleep and wakeup |
| Monitor.RunCalm | xv6-public/proc.c:533-593 | If no allowed operation panics under the invariant, no process panics in any run |
| Monitor.NoLostWakeup | xv6-public/proc.c:533-593 | In every run, a sleeper whose wait condition has become false has a wakeup on its way; with the lock free there is no such sleeper |
| Monitor.Completes | xv6-public/proc.c:533-593 | An operation that need not wait and does not panic goes through step by step from any state with nobody inside |
| RwLock.RwDisciplined | xv6-public/rwlock.c:20-84 | The reader-writer lock meets the monitor's conditions: its releases wake whatever they may enable |
| RwLock.RwSafety | xv6-public/rwlock.c:20-84 | In every run a writer is alone, read_count is the number of readers inside, nobody panics, and sleepers sleep only while the lock excludes them |
| RwLock.OwnerCheck | xv6-public/rwlock.c:65-84 | Releasing for writing panics exactly for a process that is not the writer inside |
| SleepLock.SlDisciplined | xv6-public/sleeplock.c:22-51 | The sleep lock meets the monitor's conditions |
| SleepLock.SleepLockSafety | xv6-public/sleeplock.c:22-62 | In every run holdingsleep tells exactly the holder, releasesleep panics exactly for the others, and a sleeper with the lock free of its spinlock means somebody holds it |
| PriorityLock.HighestIsMax | xv6-public/spinlock.c:201-213 | The waiter chosen has the highest priority, and among equals is the one queued last |
| PriorityLock.WaitList.Push | xv6-public/spinlock.c:171-174 | A new waiter goes to the head of the linked list |
| PriorityLock.WaitList.FindHighest | xv6-public/spinlock.c:201-213 | The walk over the list finds the chosen waiter and its predecessor |
| PriorityLock.WaitList.Splice | xv6-public/spinlock.c:215-215 | Splicing removes exactly the chosen node from the list |
| PriorityLock.WaitList.TakeHighest | xv6-public/spinlock.c:201-216 | The chosen waiter is returned and the others stay, in order |
| PriorityLock.RunSound | xv6-public/spinlock.c:153-222 | Every run in which only plock_release wakes waiters keeps owner, list and program points consistent |
| PriorityLock.PlockSafety | xv6-public/spinlock.c:153-222 | In every such run at most one process is inside, it is the recorded owner, an unlocked lock has no waiters, and every sleeper is on the list of a lock owned by another |
| PriorityLock.StrayWakeBreaksExclusion | xv6-public/spinlock.c:153-222 | In every state of every run: one wakeup of a sleeper from elsewhere can lead to two processes inside if and only if the sleeper has not been handed the lock and nobody has panicked holding its spinlock |
| PriorityLock.StrayWakeSound | xv6-public/spinlock.c:153-222 | A wakeup of a sleeper from elsewhere keeps the invariant if and only if plock_release has already made it the owner |
| PriorityLock.SleeperBehindOwner | xv6-public/spinlock.c:153-179 | From every initial state with two processes there is a run to one of them asleep behind the other inside, with both spinlocks free |
| Pipe.FullAndEmpty | xv6-public/pipe.c:85-106 | The wrapping counters tell full and empty apart exactly |
| Pipe.PutAppends | xv6-public/pipe.c:93-93 | Storing at nwrite modulo PIPESIZE appends to the contents, across the 32-bit wrap |
| Pipe.GetRemoves | xv6-public/pipe.c:113-117 | Reading at nread modulo PIPESIZE takes the oldest byte |
| Pipe.FillAppends | xv6-public/pipe.c:84-94 | A writing section appends the next bytes in order until all are stored or the ring is full |
| Pipe.DrainTakes | xv6-public/pipe.c:113-117 | A reading section takes the oldest bytes in order until satisfied or empty |
| Pipe.PipeBuffer.FillFrom | xv6-public/pipe.c:84-94 | The loop over the byte array does exactly the specified fill |
| Pipe.PipeBuffer.DrainTo | xv6-public/pipe.c:113-117 | The loop over the byte array does exactly the specified drain |
| Pipe.RunInv | xv6-public/pipe.c:59-121 | Every run of pipewrite, piperead, pipeclose and kill by any number of processes keeps accepted bytes = delivered bytes + ring contents, a sleeping writer with a full pipe that has a reader, and a sleeping reader with a pipe that has a writer |
| Pipe.PipeFifo | xv6-public/pipe.c:59-121 | In every run the delivered bytes are a prefix of the accepted ones and the rest is in the ring, across wraps; a sleeping writer means full and open for reading, a sleeping reader means open at both ends |
| Pipe.StrandedExactly | xv6-public/pipe.c:77-121 | A reader comes to sleep on a non-empty pipe in exactly one way: it is asleep when a killed writer with more than a pipeful left to write runs its section |
| Pipe.RescuedExactly | xv6-public/pipe.c:59-121 | Such a reader stops sleeping on data through exactly four kinds of event: its own kill, the closing of the write end, a writing section that does not return silently, and another reader's section that takes all the bytes |
| Pipe.StrandedHasCause | xv6-public/pipe.c:59-121 | In every run a reader asleep on a non-empty pipe was stranded by such a section of the run |
| Pipe.NoKillNoStranding | xv6-public/pipe.c:59-121 | In every run without a killed process a sleeping reader means an empty pipe with a writer |
| Pipe.KilledWriterLosesWakeup | xv6-public/pipe.c:84-94 | From every fresh pipe with two processes there is a run to a reader asleep on a full pipe |
| Grep.LanguageOne | xv6-public/grep.c:93-94 | In the token language of patterns, a literal or dot consumes exactly one fitting character |
| Grep.LanguageStar | xv6-public/grep.c:99-106 | A star is its rest, or one more fitting character and the same again |
| Grep.PrefixStar | xv6-public/grep.c:89-90 | Some prefix of the text matches a starred pattern exactly if the rest matches here or one fitting character further on |
| Grep.PrefixOne | xv6-public/grep.c:93-94 | Some prefix matches an unstarred pattern exactly if the first character fits and the rest matches behind it |
| Grep.PrefixDollar | xv6-public/grep.c:91-92 | A final dollar matches exactly at the end of the text |
| Grep.MatchHere | xv6-public/grep.c:85-96 | matchhere answers whether the pattern's language, declared independently through tokens and splits, contains a prefix of the text (all of it before a final dollar) |
| Grep.MatchStar | xv6-public/grep.c:99-106 | matchstar answers the same for a starred pattern |
| Grep.Match | xv6-public/grep.c:72-82 | match answers 1 if and only if the pattern denotes a match in the text, anchored by ^ and $ |
| Scheduler.ScanFindsLightest | xv6-public/proc.c:39-74 | The scan over CPUs finds a core of the wanted kind with a shortest queue, the first of them, or none if there is none |
| Scheduler.CoreChoices | xv6-public/proc.c:39-74 | With cpu 0 an E core, new and woken processes go to a least loaded E core and the balancer's target is a lightest P core |
| Scheduler.FirstRunnable | xv6-public/proc.c:423-430 | The queued process found is RUNNABLE, and for the balancer is neither init nor the shell |
| Scheduler.OldestChosen | xv6-public/proc.c:435-447 | The P-core scan returns a RUNNABLE process with the smallest creation time of the queue |
| Scheduler.PickQueued | xv6-public/proc.c:419-457 | Whatever scheduler() picks is on that CPU's queue and RUNNABLE, so its failed-dequeue branch is dead |
| Scheduler.EnqueueInv | xv6-public/proc.c:719-736 | enqueue of a process that is nowhere keeps every queue duplicate-free and in step with process states |
| Scheduler.DequeueInv | xv6-public/proc.c:740-765 | dequeue takes a process that was RUNNABLE, queued here and nowhere else |
| Scheduler.BalanceInv | xv6-public/proc.c:768-805 | load_balance keeps the run-queue invariant |
| Scheduler.WakeupInv | xv6-public/proc.c:573-584 | wakeup1 keeps the run-queue invariant |
| Scheduler.TimerInv | xv6-public/trap.c:60-135 | The timer trap, with its slice count and quantum, keeps the run-queue invariant |
| Scheduler.StepInv | xv6-public/proc.c:399-508 | Fork, wakeup, timer, yield, sleep, exit, wait, kill and scheduling on any CPU each keep the run-queue invariant |
| Scheduler.RunInv | xv6-public/proc.c:399-508 | The invariant holds after every run |
| SchedulerRuns.RunQueueSafety | xv6-public/proc.c:399-805 | In every run from boot: a process is RUNNABLE if and only if it is on a queue or was killed asleep, RUNNING if and only if on a CPU, on at most one queue once and at most one CPU, and P cores never get pids 1 and 2 |
| SchedulerRuns.OrphansAreKilledSleepers | xv6-public/proc.c:598-616 | The RUNNABLE processes on no queue are exactly those killed while asleep |
| SchedulerRuns.KilledSleeperIsStranded | xv6-public/proc.c:598-616 | However the run goes on, a process killed while asleep stays RUNNABLE and is never queued or run |
| SchedulerRuns.AdmitPlaces | xv6-public/proc.c:285-288 | fork and wakeup put the process at the end of a queue no longer than any E core's, and change no other queue |
| SchedulerRuns.WakeupExact | xv6-public/proc.c:573-584 | wakeup1 makes RUNNABLE and queues on an E core exactly the sleepers on the channel, and leaves every other process as it was |
| SchedulerRuns.BalancePush | xv6-public/proc.c:768-805 | A balancing move takes one process with pid above 2 from an E core to the end of a lightest P core's queue and changes nothing else |
| SchedulerRuns.BalanceProgress | xv6-public/proc.c:768-805 | A move lowers the sum of squared queue lengths by at least 4, leaves the source longer than the target, and keeps every process queued as often as before |
| SchedulerRuns.BalancingStops | xv6-public/proc.c:768-805 | Balancing alone makes at most a quarter of that sum many moves |
| SchedulerRuns.DispatchesHead | xv6-public/proc.c:419-464 | An E core runs the head of its queue |
| SchedulerRuns.ScheduleOutcome | xv6-public/proc.c:399-473 | In one round, a process queued on an E core is run, moves up at least one place, or is pushed to a P core |
| SchedulerRuns.PositionKept | xv6-public/proc.c:399-508 | No event but its own core's scheduling changes a process's place in an E core's queue |
| SchedulerRuns.SlackStep | xv6-public/trap.c:120-134 | Each timer tick uses up part of the running slice, and only that core's scheduler starts a new one |
| SchedulerRuns.BoundedWaiting | xv6-public/proc.c:399-508 | In every run, while a process waits at place k of an E core's queue, that core dispatches at most k others and takes at most 3 (k + 1) ticks |
| SchedulerRuns.PCoreChooses | xv6-public/proc.c:432-464 | A P core runs the strictly oldest process of its queue |
| SchedulerRuns.FavouriteKept | xv6-public/proc.c:432-508 | Only its own sleep or exit takes the oldest process of a P core away from it |
| SchedulerRuns.PCoreSticks | xv6-public/proc.c:432-508 | In every run without those and without an older arrival, the P core stays with that process: the others starve |
| SchedulerRuns.DispatchedIsOldest | xv6-public/proc.c:432-464 | With distinct creation times, the process a P core dispatches is oldest there |
| RunQueue.ChainAppend | xv6-public/proc.c:722-731 | Linking behind the last node makes the linked list the queue with the process appended |
| RunQueue.ChainRemove | xv6-public/proc.c:745-762 | Bypassing a node makes the linked list the queue without it |
| RunQueue.RunQueues.constructor | xv6-public/main.c:62-70 | Zeroed tables give empty queues, consistent with the boot state of the scheduler |
| RunQueue.RunQueues.Enqueue | xv6-public/proc.c:719-736 | enqueue over next_run links does exactly the abstract enqueue and keeps count and links in step |
| RunQueue.RunQueues.Dequeue | xv6-public/proc.c:740-765 | dequeue returns 0 and removes the process if it is queued, else returns -1 and changes nothing |
| RunQueue.RunQueues.FindFirst | xv6-public/proc.c:423-430 | The walk finds the first RUNNABLE process of the queue |
| RunQueue.RunQueues.FindOldest | xv6-public/proc.c:435-447 | The walk finds the P core's choice |
| RunQueue.RunQueues.LightestCore | xv6-public/proc.c:39-74 | The loop over CPUs computes the specified choice |
| RunQueue.RunQueues.LoadBalance | xv6-public/proc.c:768-805 | load_balance over the links does exactly the abstract balancing step |
| RunQueue.RunQueues.Dispatch | xv6-public/proc.c:407-464 | A round of scheduler() over the links, with or without balancing, is exactly the abstract scheduling step |
| RunQueue.RunQueues.WakeUp | xv6-public/proc.c:573-584 | wakeup1's loop queues every sleeper on the channel, each on the E core least loaded at its turn |
| Layout.WordRoundTrip | xv6-public/fs.c:390-392 | A 32-bit word stored in a block reads back |
| Layout.SetBitEffect | xv6-public/fs.c:66-68 | Setting a bit of a block sets that bit and no other |
| Layout.ClearBitEffect | xv6-public/fs.c:88-92 | Clearing a bit of a block clears that bit and no other |
| Inodes.PointersDiffer | xv6-public/fs.c:372-400 | No two places of any inodes, direct, indirect or in an indirect block, hold the same block |
| Inodes.PointerInData | xv6-public/fs.c:372-400 | A block a file points to is a data block, marked in the bitmap |
| Inodes.BitmapExact | xv6-public/fs.c:56-95 | A bit is set if and only if the block is metadata or some place points to it |
| Inodes.AllocOwned | xv6-public/fs.c:56-78 | balloc of a clear bit changes no file and leaves one marked block that nothing points to |
| Inodes.LinkDirect | xv6-public/fs.c:378-381 | Storing a fresh block in a direct slot links it there, keeps ownership exact and changes no data |
| Inodes.LinkIndirect | xv6-public/fs.c:387-388 | Storing a fresh zeroed block as the indirect block does the same |
| Inodes.LinkEntry | xv6-public/fs.c:389-394 | Storing a fresh block in an entry of the indirect block does the same |
| Inodes.FreeOwned | xv6-public/fs.c:81-95 | bfree of a block at some place finds it marked and leaves every other place owned |
| Inodes.UpdatedRecords | xv6-public/fs.c:220-236 | iupdate records its inode in the inode block and no other inode's record changes |
| Inodes.WriteOwned | xv6-public/fs.c:498-504 | Storing into one block of one file changes that block of that file only |
| Inodes.RecordKept | xv6-public/fs.c:498-504 | Writes to data and bitmap blocks keep every inode's on-disk record |
| FileSystem.Volume.Balloc | xv6-public/fs.c:56-78 | balloc returns the first free block, marked and zeroed; it panics only if every block is in use |
| FileSystem.Volume.FreeBit | xv6-public/fs.c:65-74 | The inner loop stops at the first clear bit of the bitmap block |
| FileSystem.Volume.Bfree | xv6-public/fs.c:81-95 | bfree clears exactly that bit and panics exactly if it was clear |
| FileSystem.Volume.MapDirect | xv6-public/fs.c:378-382 | The direct part of bmap returns the mapped block, allocating only if the slot is empty |
| FileSystem.Volume.MapIndirect | xv6-public/fs.c:387-388 | The indirect block is found or allocated |
| FileSystem.Volume.MapEntry | xv6-public/fs.c:389-396 | The entry of the indirect block is found or filled |
| FileSystem.Volume.Bmap | xv6-public/fs.c:372-400 | bmap returns the block of the file, changes nothing if it is there, keeps ownership exact and all data; it panics only for a block number out of range or a full disk |
| FileSystem.Volume.Readi | xv6-public/fs.c:452-476 | readi returns exactly the bytes of the file from off, cut at its end, changes nothing, and returns -1 exactly when off is past the end or off + n overflows |
| FileSystem.Volume.ReadPiece | xv6-public/fs.c:469-474 | A round reads the bytes up to the end of one block |
| FileSystem.Volume.WritePiece | xv6-public/fs.c:498-504 | A round stores its bytes in one block of the file and nowhere else |
| FileSystem.Volume.WriteLoop | xv6-public/fs.c:498-504 | The loop stores all bytes at off in order, or stops only on a full disk |
| FileSystem.Volume.Iupdate | xv6-public/fs.c:220-236 | iupdate writes the inode's record through the log |
| FileSystem.Volume.Writei | xv6-public/fs.c:481-511 | writei makes the file its old contents with the bytes spliced in at off, leaves every other file as it was, keeps the volume invariant, and returns -1 exactly when off is past the end, off + n overflows or the file would exceed MAXFILE blocks |
| FileSystem.DirectMapped | xv6-public/fs.c:378-381 | Allocating and linking a direct block is one step that adds a block to one file only |
| FileSystem.EntryMapped | xv6-public/fs.c:389-394 | Allocating and linking an indirect entry is one step that adds a block to one file only |
| FileSystem.GrownValid | xv6-public/fs.c:506-509 | Growing the size over the written blocks and recording it restores the volume invariant |
| FileSystem.LoggedStep | xv6-public/fs.c:498-504 | A round of writei logs only blocks of the written range, their bitmap blocks and the indirect block |
| Truncate.DropDirects | xv6-public/fs.c:414-419 | The first loop frees every direct block and clears its slot |
| Truncate.DropEntries | xv6-public/fs.c:422-427 | The second loop frees every block named in the indirect block |
| Truncate.Itrunc | xv6-public/fs.c:407-435 | itrunc empties the file, never frees a free block, keeps every other file and the volume invariant, and clears exactly the bits of the blocks the file had |
| Truncate.TruncatedFrees | xv6-public/fs.c:407-435 | A block is in use afterwards if and only if it was before and the file did not hold it |
| FileOps.ChunkLogsSeven | xv6-public/file.c:134-139 | On a volume with one bitmap block, a writei of a filewrite chunk logs at most 7 distinct blocks, below the budget log admission needs |
| FileOps.SpliceTwice | xv6-public/file.c:137-153 | Writing b behind a is writing both at once |
| FileOps.WriteChunk | xv6-public/file.c:137-153 | One transaction of filewrite writes one chunk at the offset, advances it, logs at most 7 blocks behind the log area, and has changed the disk as its calls of log_write say |
| FileOps.Filewrite | xv6-public/file.c:118-157 | filewrite writes the buffer chunk by chunk as one splice at the file offset; what is written on refusal is a prefix, and it is refused exactly when the offset is past the end or the file would get too large |
| FileOps.CopyBuffer | xv6-public/file.c:235-261 | One round of make_duplicate appends the next buffer of the source, in a transaction of at most 7 blocks |
| FileOps.Duplicate | xv6-public/file.c:235-261 | The copy loop leaves the new file equal to the source and every other file as it was; the only other way out is a full disk |
| DurableWrite.CommitChunk | xv6-public/file.c:137-153 | Each disk write of a chunk's commit recovers to exactly the file system before the chunk or exactly the one after it |
| DurableWrite.DurableFilewrite | xv6-public/file.c:118-157 | For every filewrite and a crash after any disk write, recovery leaves exactly the disk of a valid file system in which a whole number of chunks is written and no other file changed; later writes keep at least as many; after the return all of it survives; it goes through with an idle cache, a log of 9 blocks and one bitmap block |
| DurableWrite.Reboot | xv6-public/log.c:53-67 | Booting from a disk that recovers to a file system completes and leaves the log ready for that file system |
| DiskImage.EmptyImageValid | xv6-public/mkfs.c:94-115 | For every consistent superblock there is a volume that meets the invariant, built by marking exactly the metadata blocks |
| PageTables.PopInv | xv6-public/kalloc.c:82-95 | Taking the first page off the free list keeps the frame-role invariant |
| PageTables.PushInv | xv6-public/kalloc.c:59-77 | Freeing a held page keeps the invariant and the links of the free list |
| PageTables.SetPteMaps | xv6-public/vm.c:60-80 | A page-table entry stored is read back by its own page of its own directory only |
| PageTables.NewTableInv | xv6-public/vm.c:35-55 | Hanging a zeroed page into a directory keeps the invariant |
| PageTables.HangInv | xv6-public/vm.c:60-80 | Mapping a held frame at a user page gives the frame that one role |
| PageTables.UserFrameAlone | xv6-public/vm.c:221-345 | A mapped user frame is mapped once, in one address space, is not free and is no directory or table |
| PageTables.TableFrameAlone | xv6-public/vm.c:35-55 | A page table is behind one directory entry, is not free and is no directory |
| PageTables.EveryFramePlaced | xv6-public/kalloc.c:46-95 | Free frames are exactly the free list; tables and user frames hang exactly where their role says |
| VirtualMemory.Memory.constructor | xv6-public/kalloc.c:31-37 | Before freerange nothing is free and the kernel's frames belong to it |
| VirtualMemory.Memory.Freerange | xv6-public/kalloc.c:46-53 | Exactly the whole pages between the two addresses become free; it panics exactly if one of them is the kernel's or beyond physical memory, the 32-bit end of the loop included |
| VirtualMemory.Memory.Kalloc | xv6-public/kalloc.c:82-95 | kalloc gives the first free page, changing no mapping, and fails exactly if none is free |
| VirtualMemory.Memory.Kfree | xv6-public/kalloc.c:59-77 | kfree fills the page, puts it first on the list, and panics exactly for an unaligned or out-of-range address |
| VirtualMemory.Memory.Walk | xv6-public/vm.c:35-55 | walkpgdir finds the table or, if asked and a page is free, makes one, and no mapping of any directory changes; each table made uses one free frame |
| VirtualMemory.Memory.MapPage | xv6-public/vm.c:69-73 | A round of mappages sets that one entry; it fails exactly without a table and a free page, and panics exactly if the page is present |
| VirtualMemory.Memory.UnmapPage | xv6-public/vm.c:269-276 | The frame of a present user page becomes free, its entry is cleared and no other mapping changes; the panic is dead |
| VirtualMemory.Memory.ShrinkAt | xv6-public/vm.c:265-277 | A round of deallocuvm handles one page, or jumps over a missing table, whose pages are all absent |
| VirtualMemory.Memory.Deallocuvm | xv6-public/vm.c:255-279 | deallocuvm frees exactly the mapped pages from newsz up to oldsz and changes nothing else |
| VirtualMemory.Memory.FreeTables | xv6-public/vm.c:291-296 | freevm's loop frees every table of the directory once |
| VirtualMemory.Memory.Freevm | xv6-public/vm.c:283-298 | freevm makes every frame of that address space free, exactly once, and touches no other address space |
| AddressSpaces.Mappages | xv6-public/vm.c:60-80 | mappages maps the pages of the range to consecutive frames with the flags given, makes exactly the missing tables, changes no other mapping, and runs out of memory only if missing tables outnumber free frames |
| AddressSpaces.GrowPage | xv6-public/vm.c:234-246 | A round of allocuvm maps a zeroed fresh frame |
| AddressSpaces.Allocuvm | xv6-public/vm.c:221-249 | Success maps a fresh zeroed page for every new page, and comes exactly if the free frames cover the pages and the missing tables; failure restores every mapping, and leaves every frame its role exactly if no page is reached that lacks a table with two frames left |
| AddressSpaces.GrowthStopped | xv6-public/vm.c:234-245 | Where growth stops there were too few frames, and a table was made if and only if free frames covered the pages before the first one without a table and two more |
| AddressSpaces.TablesAreRoles | xv6-public/vm.c:221-249 | A frame has become a table if and only if the directory has a new entry |
| AddressSpaces.GrowthUndone | xv6-public/vm.c:235-245 | deallocuvm after a partial growth gives back exactly what was mapped |
| SpaceCopy.RegionPages | xv6-public/vm.c:105-115 | The kmap regions cover consecutive kernel pages with the frames and permissions listed |
| SpaceCopy.Setupkvm | xv6-public/vm.c:118-136 | setupkvm gives a directory with exactly the kernel mappings, or puts every frame back; it succeeds if and only if 65 frames are free |
| SpaceCopy.MapRegion | xv6-public/vm.c:129-134 | A round of setupkvm maps one region |
| SpaceCopy.GoneRestores | xv6-public/vm.c:283-298 | Freeing a new address space gives every frame the role it had |
| SpaceCopy.CopyPage | xv6-public/vm.c:330-338 | A round of copyuvm copies flags and bytes of one page into a fresh frame, or leaves nothing in hand |
| SpaceCopy.Copyuvm | xv6-public/vm.c:315-345 | copyuvm gives a new address space with equal flags and equal bytes in fresh frames and the source unchanged, or every frame as it was; it fails only with fewer free frames, and succeeds only with as many, as 65 plus pages plus user tables; it panics only for a missing page |
| SpaceCopy.TableLeftBehind | xv6-public/vm.c:221-249 | A state of two free frames in which allocuvm of two pages fails and keeps a table |
| FreeList.InsertOrdered | xv6-public/umalloc.c:24-44 | Inserting a block and coalescing on both sides keeps the list ordered with no two blocks touching |
| FreeList.InsertCovers | xv6-public/umalloc.c:24-44 | Afterwards the list covers exactly the block's units and what it covered before |
| FreeList.CarveOrdered | xv6-public/umalloc.c:75-85 | Taking a block, or its tail, keeps the list ordered with no two blocks touching |
| FreeList.CarveCovers | xv6-public/umalloc.c:75-85 | The units taken were covered and no longer are; all others are as before |
| UserHeap.PlaceFor | xv6-public/umalloc.c:30-32 | A live block belongs between two free ones, at exactly one place of the circle |
| UserHeap.CircleAt | xv6-public/umalloc.c:30-32 | free()'s two exit conditions hold at that place and nowhere else |
| UserHeap.FreeOk | xv6-public/umalloc.c:24-44 | After free() the live and free blocks still tile the areas from sbrk without overlap |
| UserHeap.CarveOk | xv6-public/umalloc.c:75-85 | After a carve the live and free blocks still tile the areas |
| UserHeap.AreaOk | xv6-public/umalloc.c:46-61 | A new area from sbrk keeps the tiling |
| UserHeap.UnitsSuffice | xv6-public/umalloc.c:69-69 | The rounded units hold the bytes asked for if and only if the request is at most 0xFFFFFFF8 bytes |
| UserHeap.SbrkGrows | xv6-public/umalloc.c:46-61 | When sbrk does not refuse, the process has grown by the area morecore goes on to use if and only if the request takes fewer than 2^31 bytes with its header: beyond, the signed argument shrinks the process or leaves it as it is |
| UserHeap.HugeRequest | xv6-public/umalloc.c:46-61 | malloc of 2^31 bytes in a process of one page: sbrk answers as if it had grown |
| UserHeap.Allocator.Free | xv6-public/umalloc.c:24-44 | free() over the circular list makes exactly that block free, coalesced, wherever the rover is |
| UserHeap.Allocator.Relink | xv6-public/umalloc.c:33-43 | The pointer assignments of free() perform the specified insertion |
| UserHeap.Allocator.Morecore | xv6-public/umalloc.c:46-61 | morecore adds one area of at least 4096 units to the list, or changes nothing if sbrk refuses |
| UserHeap.Allocator.Take | xv6-public/umalloc.c:75-85 | The answer is a new live block of the size asked, carved from the tail or the whole of the block found |
| UserHeap.Allocator.Search | xv6-public/umalloc.c:74-89 | One lap finds a block if and only if one fits, and it is the first behind the rover |
| UserHeap.Allocator.Malloc | xv6-public/umalloc.c:63-90 | malloc returns a block apart from every live one and of the size asked; it asks sbrk once and only if nothing fits, and returns 0 exactly if sbrk then refuses |
| ShellGrammar.GetToken | xv6-public/sh.c:345-388 | A token lies in order within the line, and every token but the end advances |
| ShellParser.Parser.GetToken | xv6-public/sh.c:345-388 | gettoken's loops and switch compute the specified token |
| ShellParser.Parser.Peek | xv6-public/sh.c:390-400 | peek skips spaces and tells whether the next character is among those asked |
| ShellParser.Parser.Redirections | xv6-public/sh.c:454-477 | parseredirs' loop reads the specified redirections or the missing-file error |
| ShellParser.Parser.Arguments | xv6-public/sh.c:495-526 | parseexec's loop reads the specified arguments and redirections, or its errors |
| ShellParser.Parser.ParseExec | xv6-public/sh.c:495-526 | parseexec computes the specified result and position |
| ShellParser.Parser.ParseBlock | xv6-public/sh.c:479-493 | parseblock computes the specified result and position |
| ShellParser.Parser.ParsePipe | xv6-public/sh.c:441-452 | parsepipe computes the specified result and position |
| ShellParser.Parser.ParseLine | xv6-public/sh.c:424-439 | parseline computes the specified result and position |
| ShellParser.ParseCommand | xv6-public/sh.c:407-422 | parsecmd returns the tree or the error, and after it every word of the tree reads in the buffer as the text it had in the line |
| ShellWords.LineWords | xv6-public/sh.c:424-439 | Every word of a parsed line is a maximal run of word characters of the line |
| ShellWords.EndsOutside | xv6-public/sh.c:529-573 | The places where nulterminate writes are outside every word |
| ShellWords.PartSurvives | xv6-public/sh.c:529-573 | After termination every word of every part of the tree reads as it did before |
| ShellWords.NulTerminate | xv6-public/sh.c:529-573 | nulterminate writes NUL exactly where words end |
| ShellPrinter.ArgsBack | xv6-public/sh.c:495-526 | parseexec reads back a printed argument list, word by word |
| ShellPrinter.LineBack | xv6-public/sh.c:407-526 | parseline reads back every printed command tree, with the positions of its words |
| ShellPrinter.RoundTrip | xv6-public/sh.c:407-526 | Parsing the printing of any legal command tree gives that tree |
| ShellPrinter.AcceptedMeansLegal | xv6-public/sh.c:407-526 | Every accepted line has a legal tree, and the printing of that tree is accepted and gives the same tree: the legal trees are exactly those of accepted lines |
| ShellSyntax.LineSound | xv6-public/sh.c:424-526 | What parseline returns is derived by the declarative grammar from exactly the tokens it consumed |
| ShellSyntax.LineComplete | xv6-public/sh.c:424-526 | Whatever the grammar derives from a stretch of tokens, parseline returns, and stops where the stretch ends |
| ShellSyntax.AcceptsExactly | xv6-public/sh.c:407-526 | parsecmd accepts a line with a tree if and only if a declarative grammar over its tokens, with the precedence of pipes over & over ; and right-nested pipes and lists, derives that tree |
| ShellSyntax.Unambiguous | xv6-public/sh.c:407-526 | No line has two trees in that grammar |
| ShellCoverage.AcceptedCovers | xv6-public/sh.c:407-526 | In every accepted line a character is a word character if and only if it is in a word of the tree: nothing is dropped and nothing invented |
| ShellCoverage.LineCovers | xv6-public/sh.c:424-439 | Every word character parseline passes over is in a word of its result |

## Left out

- Memory ordering, interrupt disabling inside `acquire` and `release`, and hardware: spinlocks are atomic, and so is `swtch`.
- The IDE port protocol: the disk is the synchronous one of `memide.c`.
- Console, keyboard, UART, interrupt controllers, multiprocessor start and boot code.
- `exec`, system-call argument fetching, `runcmd`, and the reading loop of `grep`: they would add only easy members.
- Directories, path lookup, `ialloc`, `iget` and `iput`: files are named by inode number, and the in-memory inode is always the loaded one.
- Device files: the branches of `readi` and `writei` that call a device's own functions.
- DiskImage.EmptyImageValid: one image that meets the volume invariant for every layout, not the image `mkfs` writes, which holds a root directory and files.
- `inituvm`, `loaduvm`, `clearpteu` and `copyout`, and the constant check that PHYSTOP lies below the devices.
- RedoLog.Logger.History: transactions follow one another, by one process with the cache to itself; interleaved operations and cache users are in GroupCommit.
- RedoLog.Logger.Transaction: the updates of one group come from one process; updates of several are in GroupCommit.
- GroupCommit.OperationsAtomic: does not model the admission wait of begin_op, which LogAdmission does, nor that a commit completes, which RedoLog.Logger.Commit does; changes to a block are taken to be logged by the operation that made them.
- DurableWrite.DurableFilewrite: the block updates of a chunk are replayed to the log when the chunk has been computed, not one by one; between them only the cached contents would differ.
- LogAdmission.AdmissionSafety: the emptying of the header inside commit() is one step with the end of the commit; log_write's checks are made with the lock held, and LogAdmission.ChecksPassUnlocked shows that they pass without it as well.
- SchedulerRuns.RunQueueSafety: exit is a wakeup event followed by an exit event, and whether the tick count calls for balancing is a flag of the event.
- RwLock.RwSafety: the lock's fields are changed by the operations of a protocol, not in place; aliasing of two locks is not modelled. The same holds of SleepLock.SleepLockSafety.
- PriorityLock.PlockSafety: queue nodes always exist; the panic when kalloc has no page for one is not modelled.
- Pipe.PipeFifo: file descriptors and the freeing of the pipe after both ends are closed are not modelled.
- UserHeap.Allocator.Malloc: sbrk's answer is a parameter, an area at or above everything given before; where sbrk gives no such area, for requests that take 2^31 bytes or more with their header and fit no free block, only UserHeap.SbrkGrows speaks of it.
- UserHeap.Allocator.Search: malloc's one loop is cut into laps at the call of morecore.
- ShellParser.ParseCommand: redirections of a simple command are collected in a list and wrapped around it at the end, where the code wraps a node whose arguments it still fills in; lines hold no NUL.
- ShellPrinter.RoundTrip: for trees within the parser's limit of arguments whose words are words of the grammar, printed with parentheses; other ways of writing a line are in ShellSyntax.AcceptsExactly.
- VirtualMemory.Memory.Freerange: requires that the frames of the range behind the kernel are not in use yet; kfree does not check it.
