# xv6 in Dafny

A model of the parts of the xv6-riscv kernel that are hard to get right, of mkfs, and of two user-level algorithms, with
proofs. `dafny verify dfyconfig.toml` checks everything.

Code that works on data structures in place is a class or a method with the loops of the source, proved against
functions and predicates on values. Code that several threads or CPUs run at once is a state machine: a `State`, `Label`s
for the steps between lock operations, an invariant that every step keeps, and theorems over all runs.

| part | modules | main results |
|---|---|---|
| write-ahead log (`kernel/log.c`) | `LogFormat`, `LogCommit`, `LogDevice`, `GroupCommit`, `GroupCommitRuns`, `GroupCommitLeft`, `GroupCommitHistory`, `LogReservation` | crash atomicity with interrupted recovery; group commit keeps whole operations; what becomes of unlogged changes; the exact reservation bound |
| memory (`kernel/vm.c`, `kernel/kalloc.c`, parts of `kernel/proc.c`) | `Sv39`, `PageOwner`, `PageMap`, `VmSteps`, `VmFill`, `VmFree`, `Vm`, `UserVm`, `ByteWords`, `Bytes`, `UserCopy`, `ProcTables`, `ProcMemory` | the three-level tree is a flat map; every page has exactly one owner; failures undo themselves; user copies are byte by byte |
| processes (`kernel/proc.c`, `kernel/spinlock.c`, `kernel/sleeplock.c`) | `ProcTypes`, `ProcLife`, `ProcLifeInv`, `ProcLifeRuns`, `ProcLifeWait`, `ProcLifeStates`, `Switch`, `SwitchInv`, `SwitchRuns`, `SwitchSleep`, `SwitchThreads`, `SleepLock` | no lost exits, wait() reports each exit once with its status, parents lead to init; safe hand-off between CPUs, no lost wakeups, with interrupts, sleep() comes back with its lock; sleep locks exclude |
| files (`kernel/fs.c`, `kernel/file.c`, `mkfs/mkfs.c`) | `BlockOwner`, `FileData`, `Fs`, `FileWrite`, `Mkfs`, `MkfsImage`, `InodeTable`, `InodeTableInv`, `InodeTableRuns`, `InodeTableFree`, `InodeTableCalls` | every block in use has exactly one owner, from the image mkfs makes on; files are byte sequences; what a write logs is the file it leaves; inodes agree with the disk through reuse and are freed exactly without links |
| buffer cache (`kernel/bio.c`) | `BufCache`, `BufCacheInv`, `BufCacheRuns`, `BufCacheCalls`, `BufRing` | one buffer per block, exact reference counts, when contents are the latest, recycling by age |
| disk driver (`kernel/virtio_disk.c`) | `Virtio`, `VirtioInv`, `VirtioRuns`, `VirtioRequests`, `VirtioDescs` | every request served exactly once, as asked, over wrapping 16-bit indices |
| pipes (`kernel/pipe.c`) | `Pipe`, `PipeInv`, `PipeRuns`, `PipeCalls` | first in, first out over wrapping counters; what each call moves; who may sleep when |
| allocator (`user/umalloc.c`) | `FreeRing`, `Umalloc` | one coalesced circle, units conserved, searches end |
| shell parser (`user/sh.c`) | `ShellLex`, `ShellTree`, `ShellGrammar`, `ShellRoundTrip`, `ShellSpans`, `ShellCover`, `ShellDerive`, `ShellAccepts`, `Shell` | exactly the lines of an unambiguous grammar, print and parse round trip, every word exactly once, termination, pointers read back |

Seven places where the code does less than one might think, each with the exact condition and an input:

- A budget of MAXOPBLOCKS distinct blocks per operation does not rule out "too big a transaction" on the log that mkfs
  makes; every smaller budget does (`LogReservation.BudgetThreshold`, `LogReservation.TenIsTooMany`).
- A write whose copy from the process fails in the middle of a block may show bytes that it does not count; it shows just
  the bytes it counts if and only if the others agree with what the file has there (`Fs.FileSystem.Writei`,
  `FileWrite.Filewrite`, `FileWrite.FailedWriteShows`).
- For the same reason bread() returns the latest contents logged or written if and only if no changed buffer was released
  with other contents (`BufCacheRuns.HoldersIffNoStray`, `BufCacheRuns.FailedCopyIsSeen`).
- commit() copies the blocks of a group as the cache has them, so recovery produces just the writes that were logged if
  and only if no block of the group was left with other contents (`GroupCommitLeft.RecoveryIsLogged`,
  `GroupCommitLeft.LoggedIffNoSealLeft`, `GroupCommitLeft.LeftIsDurable`).
- A writer that is killed in pipewrite() may leave readers asleep beside bytes they could read; nothing else does
  (`PipeRuns.StrandingIsExact`, `PipeRuns.KilledWriterStrands`).
- A kill() that comes between the test of wait() and its sleep() leaves the process asleep, and so does one that comes
  between the tests of pipewrite() or piperead() and their sleep(); no other kill() does (`ProcLifeWait.KilledAsleep`,
  `PipeCalls.KilledAsleep`).
- mkfs rounds up the size of the root directory; that leaves no hole if and only if the number of its entries is not a
  multiple of 64 (`MkfsImage.MakeImage`, `MkfsImage.WholeBlockOfEntries`).

## Model

| member | source | states |
|---|---|---|
| LogFormat.HeadRoundTrip | kernel/log.c:86-114 | what write_head() stores, read_head() reads back, whatever the header block held before |
| LogFormat.RecoversToUnique | kernel/log.c:116-123 | a disk image determines the home contents that recovery produces from it |
| LogCommit.CommitAdvances | kernel/log.c:178-203 | each block write of commit() takes disk and cache one step along the sequence copies, header, installs, cleared header |
| LogCommit.CommitIsAtomic | kernel/log.c:193-203 | after any number of block writes of commit() the image recovers to the contents before (up to the header write) or after the transaction (from it on); there is no third outcome |
| LogCommit.InstallKeepsRecovery | kernel/log.c:68-83 | installing one block from its copy does not change what recovery produces |
| LogCommit.RecoverAdvances | kernel/log.c:68-123 | each block write of recovery keeps what recovery is to produce and installs one more block |
| LogCommit.RecoverEnds | kernel/log.c:116-123 | a recovery that ran to its end leaves exactly the home contents and an empty log |
| LogDevice.Log.constructor | kernel/log.c:54-65 | a machine booted from an image: empty header, no operations, the cache agrees with the disk |
| LogDevice.Log.Bwrite | kernel/bio.c:106-112 | one atomic block write: disk and cache change at one block, and the image joins the trace |
| LogDevice.Log.WriteLog | kernel/log.c:178-191 | all copies are in the log, nothing outside the log changes, and every image on the way still recovers to the old contents |
| LogDevice.Log.WriteHead | kernel/log.c:102-114 | only the header block changes, to one that reads back as the in-memory header |
| LogDevice.Log.InstallTrans | kernel/log.c:68-83 | every home block ends up with the committed contents, and every image on the way recovers to them |
| LogDevice.Log.InstallAndClear | kernel/log.c:193-203 | install and clear: the home blocks hold the transaction, the log is empty, and every image on the way recovers to the same contents, whatever the cache has in other blocks |
| LogDevice.Log.RecoverFromLog | kernel/log.c:116-123 | from any image that recovers to home, the home blocks become exactly home, on disk and in the cache, the log is empty, and a crash in between leaves an image that recovers to home again |
| LogDevice.Log.LogAndSeal | kernel/log.c:193-203 | up to the header write every image recovers to the old contents, and the last one to the new |
| LogDevice.Log.Commit | kernel/log.c:193-203 | of the 2n+2 images commit() goes through, the first n recover to the old home contents and all others to these with the blocks of the group as the cache had them; at the end these are in place and the log is empty |
| LogDevice.Log.TryBegin | kernel/log.c:126-142 | begin_op() sleeps exactly if a commit runs or the reservation could exceed the log, and otherwise counts one operation more |
| LogDevice.Log.LogWrite | kernel/log.c:214-235 | log_write() panics exactly on a full header or outside an operation, changing nothing; otherwise the header names the block once and the cache holds the data |
| LogDevice.Log.EndOp | kernel/log.c:146-175 | the last operation out commits the blocks logged so far, as the cache has them, and every image on the way recovers to the contents before or after; any other reaches no disk block; a panic exactly while committing |
| LogDevice.Log.Change | kernel/fs.c:521-524 | a buffer changed and released without log_write() changes what the next commit makes durable if and only if the header names its block |
| GroupCommitRuns.InvStep | kernel/log.c:126-235 | every step of operations, commit, crash and recovery, and every change of a buffer without log_write(), keeps the invariant of the log |
| GroupCommitRuns.CrashKeepsWholeOps | kernel/log.c:126-235 | at every point of every run recovery would produce the replay of a prefix of the history that consists of whole operations; the history has the writes logged and the changes left in blocks of the open group |
| GroupCommitRuns.CommitExcludesOps | kernel/log.c:126-175 | committing and outstanding > 0 never hold together, end_op() and log_write() never find themselves outside, the cache has the blocks of the open group as the history says, and with no operation running the disk holds all of the history |
| GroupCommitRuns.RecoveringKeepsHistory | kernel/log.c:116-123 | crashes during recovery, any number of them, lose nothing that was durable at the first crash |
| GroupCommitRuns.FirstCompletedRecovery | kernel/log.c:68-123 | however often recovery is cut short, the first one that completes leaves exactly the durable history of the first crash, made of whole operations, and an empty log |
| GroupCommitLeft.NoneLeftIff | kernel/log.c:178-191 | replaying all changes gives what the logged ones give if and only if no block ends with a change that was left in it unlogged |
| GroupCommitLeft.RecoveryIsLogged | kernel/log.c:178-203 | at every point of every run recovery would produce just the logged writes of whole operations if and only if none of their blocks was left with other contents |
| GroupCommitLeft.FirstRecoveryIsLogged | kernel/log.c:116-123 | the first recovery that completes leaves just the logged writes under the same condition |
| GroupCommitLeft.LoggedIffNoSealLeft | kernel/log.c:178-203 | recovery would produce just the logged writes in every state of a run if and only if every header was written while the blocks of the group were as last logged |
| GroupCommitLeft.LeftIsDurable | kernel/fs.c:515-527 | a run in which a block is logged, changed without log_write() and committed: recovery gives the contents never logged |
| GroupCommitLeft.CacheIffNoneOutside | kernel/fs.c:515-527 | the cached blocks are what the history did to them in every state of a run if and only if no block outside the open group was left changed |
| LogReservation.ReservedStep | kernel/log.c:126-142 | header blocks plus unspent reservations of running operations fit the log, kept by every step |
| LogReservation.NineIsEnough | kernel/log.c:214-235 | on the 30-block log of mkfs, operations of at most 9 distinct blocks never meet "too big a transaction" |
| LogReservation.TenIsTooMany | kernel/log.c:214-235 | a run in which operations of at most 10 distinct blocks meet the panic |
| LogReservation.BudgetThreshold | kernel/log.c:126-142 | a per-operation budget is safe if and only if it is below MAXOPBLOCKS |
| GroupCommitHistory.HistoryIsAsked | kernel/log.c:126-235 | in every run the history that recovery is measured by is made of the calls of begin_op(), log_write() and end_op() and the changes left unlogged, as their callers made them, cut at a crash to what was durable |
| GroupCommitHistory.OpsAreInProgress | kernel/log.c:126-175 | the operations that are running are those that have begun since the last crash and not ended, each once |
| Sv39.PteRoundTrip | kernel/riscv.h:348-352 | an entry gives back the page it was made from and its flags |
| Sv39.MadeFlags | kernel/vm.c:142-165 | what mappages() stores is valid, and a leaf exactly if the permissions say so |
| Sv39.ClearUKeeps | kernel/vm.c:337-346 | clearing PTE_U leaves page and validity alone, and each of R, W and X |
| Sv39.IndicesArePage | kernel/riscv.h:355-363 | below MAXVA the three indices determine the page and conversely |
| PageMap.FlatAddTable | kernel/vm.c:85-103 | hanging an empty table below an invalid entry changes no mapping of any table |
| PageMap.FlatSet | kernel/vm.c:142-165 | storing one lowest-level entry changes the mapping of exactly one page of exactly one table |
| PageMap.HangTable | kernel/vm.c:85-103 | walk()'s allocation keeps the tree well formed and the flat map as it was |
| PageMap.PageOfInjective | kernel/riscv.h:355-363 | distinct index triples are distinct pages |
| PageOwner.AddTable | kernel/vm.c:85-103 | a fresh page may become an interior page: every page still has exactly one owner |
| PageOwner.SetLeaf | kernel/vm.c:142-165 | a held page may become a leaf: every page still has exactly one owner |
| PageOwner.ClearLeaf | kernel/vm.c:170-192 | clearing a leaf entry hands the page back to the caller |
| PageOwner.ChangeFlags | kernel/vm.c:337-346 | changing the flags of a leaf changes no owner |
| PageOwner.DropTable | kernel/vm.c:271-287 | a table page with nothing below it may be returned |
| PageOwner.NewRoot | kernel/vm.c:196-205 | a zeroed page may become the root of an empty table |
| Vm.Machine.constructor | kernel/kalloc.c:26-31 | every page from the end of the kernel to PHYSTOP, and no other, is free |
| Vm.Machine.Freerange | kernel/kalloc.c:33-40 | exactly the whole pages of the range become free |
| Vm.Machine.Kalloc | kernel/kalloc.c:68-82 | the first free page, filled with junk, is now held; 0 exactly if there is none |
| Vm.Machine.Kfree | kernel/kalloc.c:46-63 | the page is free again and first on the list; a panic exactly on an address that is no allocatable page |
| Vm.Machine.NewTable | kernel/vm.c:85-103 | walk()'s allocating branch: the table grows by one empty page, and only if none is free does it fail |
| Vm.Machine.Descend | kernel/vm.c:85-103 | one turn of walk()'s loop finds or makes the next table, or says that there is none |
| Vm.Machine.WalkSlot | kernel/vm.c:85-103 | the loop of walk() ends at the one page that holds the entry, or at none |
| Vm.Machine.Walk | kernel/vm.c:85-103 | the entry of va, or none; creating tables never changes a mapping; a panic exactly beyond MAXVA; allocation fails only with at most one page free |
| Vm.Machine.StoreLeaf | kernel/vm.c:142-165 | one entry is stored and its page is labelled as this leaf |
| Vm.Machine.MapPage | kernel/vm.c:142-165 | one turn of mappages(): exactly one binding of the flat map changes; a panic exactly on a remap or beyond MAXVA |
| Vm.Machine.MapLoop | kernel/vm.c:142-165 | the loop of mappages() stores the entries of consecutive pages in order |
| Vm.Machine.Mappages | kernel/vm.c:142-165 | consecutive pages are mapped to consecutive physical pages and nothing else changes; short of memory a prefix is mapped, and that needs fewer than two free pages for each page; with that many, a panic exactly on an empty range, beyond MAXVA or on a remap |
| Vm.Machine.ClearEntry | kernel/vm.c:170-192 | one entry is cleared and its page is held |
| Vm.Machine.UnmapPage | kernel/vm.c:170-192 | one turn of uvmunmap(): one binding goes and its page is freed if asked; a panic exactly if it is not mapped |
| Vm.Machine.Uvmunmap | kernel/vm.c:170-192 | exactly the given pages are unmapped, and freed if asked; a panic exactly if one is not mapped or va is not aligned |
| Vm.Machine.FreeBranch | kernel/vm.c:271-287 | one turn of freewalk()'s loop returns one branch |
| Vm.Machine.Freewalk | kernel/vm.c:271-287 | all table pages under p are free and nothing else changed; a panic exactly if a leaf is left |
| VmFree.BranchEnds | kernel/vm.c:271-287 | what freewalk() has after it came back from a child and cleared the entry |
| VmFill.FillsNext | kernel/vm.c:225-249 | one more fresh page joins those filled |
| VmFill.FillsUndone | kernel/vm.c:225-267 | unmapping what was filled restores every mapping, label and page but for empty table pages |
| UserVm.AllocPage | kernel/vm.c:225-249 | one page is allocated, filled and mapped, or nothing but empty table pages is left behind |
| UserVm.Uvmdealloc | kernel/vm.c:255-267 | exactly the pages beyond newsz are freed; a panic exactly if one of them is not mapped |
| UserVm.TakeBack | kernel/vm.c:225-249 | a failed uvmalloc() gives back all pages it mapped |
| UserVm.AllocTurn | kernel/vm.c:225-249 | one turn of uvmalloc()'s loop |
| UserVm.Uvmalloc | kernel/vm.c:225-249 | fresh zeroed user pages with the right permissions from oldsz to newsz; failing, the user leaves are as before, and that happens only with fewer than three free pages for each new one |
| UserVm.Entry | kernel/vm.c:305-333 | walk() without allocation as uvmcopy() uses it: the entry of the flat map, changing nothing |
| UserVm.CopyTurn | kernel/vm.c:305-333 | one turn of uvmcopy()'s loop |
| UserVm.Uvmcopy | kernel/vm.c:305-333 | the new table maps fresh pages with the same flags and contents; failing, it maps what it mapped, and that happens only with fewer than three free pages for each page |
| UserVm.CopyBack | kernel/vm.c:305-333 | a failed uvmcopy() gives back all pages it mapped |
| UserVm.Uvmclear | kernel/vm.c:337-346 | exactly one entry changes, and only in PTE_U; a panic exactly if there is no entry |
| UserCopy.Walkaddr | kernel/vm.c:108-126 | the physical page of a user page, or 0 exactly if it is not mapped for the user |
| UserCopy.UserPagesDistinct | kernel/vm.c:108-126 | distinct user pages are distinct pages of memory |
| UserCopy.CopyoutTurn | kernel/vm.c:351-371 | one turn of copyout(): the bytes that go to one page |
| UserCopy.Copyout | kernel/vm.c:351-371 | the process sees src at dstva and everything else as before; it succeeds exactly if every page of the range is mapped for the user, and otherwise stops at the first that is not |
| UserCopy.CopyinTurn | kernel/vm.c:376-396 | one turn of copyin(): the bytes of one page |
| UserCopy.Copyin | kernel/vm.c:376-396 | the bytes the process sees; it succeeds exactly if every page of the range is mapped for the user |
| UserCopy.WriteThenRead | kernel/vm.c:351-396 | copyin() over the range of a successful copyout() returns what was written, across page boundaries and for every address |
| UserCopy.ScanPage | kernel/vm.c:402-439 | the inner loop of copyinstr() stops at the first zero byte |
| UserCopy.StringTurn | kernel/vm.c:402-439 | one turn of copyinstr()'s outer loop |
| UserCopy.Copyinstr | kernel/vm.c:402-439 | success if and only if the process has a string of at most max bytes at srcva, zero included, in pages mapped for the user, and then it is the result; failure means no zero so far and max reached or a page not mapped for the user |
| UserCopy.NoStringMissed | kernel/vm.c:402-439 | what copyinstr() has scanned when it gives up rules out every string of at most max bytes, wherever srcva lies |
| ProcTables.FreeEmpty | kernel/vm.c:271-297 | freewalk() on a whole table: a panic exactly if something is still mapped |
| ProcTables.Uvmfree | kernel/vm.c:291-297 | all pages of the table and all it maps are free; a panic exactly if it maps anything but the pages for sz |
| ProcTables.Uvmcreate | kernel/vm.c:196-205 | an empty table; 0 exactly if no page is free |
| ProcTables.ProcFreepagetable | kernel/proc.c:210-216 | everything the table had is free and nothing else changed; a panic exactly if it did not map the special pages and the pages for sz and nothing else |
| ProcTables.ProcPagetable | kernel/proc.c:176-206 | a table with exactly the two special pages; failing, nothing is lost, and with five free pages it does not fail; no panic |
| ProcTables.MapSpecial | kernel/proc.c:176-206 | mapping one special page of a new table |
| ProcTables.AddedThenFreed | kernel/proc.c:176-216 | creating and freeing a table restores all labels, mappings and data |
| ProcTables.SpecialsAreKernels | kernel/proc.c:176-206 | user code reaches neither trampoline nor trapframe |
| ProcMemory.PagesBehind | kernel/proc.c:259-275 | the pages of a process are as many distinct pages of memory |
| ProcMemory.SizeBounded | kernel/proc.c:259-275 | so no process is larger than memory, and growing by any int stays below the trapframe |
| ProcMemory.Growproc | kernel/proc.c:259-275 | for every int n: the table stays that of a process of the new size, new pages hold zeros and are the user's to read and write, exactly the pages beyond the new size are freed, and all else is as it was; it fails only for want of memory and never panics |
| ProcMemory.ForkMemory | kernel/proc.c:279-326 | the child has the pages of the parent, same flags and contents, in pages that were free, and the trampoline and its own trapframe; failing, everything is as before; no panic |
| ProcMemory.ForkThenFree | kernel/proc.c:155-172 | freeing a forked process restores all labels, mappings and data |
| ProcLifeRuns.InvStep | kernel/proc.c:279-435 | every step of fork(), exit(), wait(), reparent(), wakeup(), kill() and the scheduler keeps the invariant |
| ProcLifeRuns.NoLostExits | kernel/proc.c:346-435 | whenever wait_lock is free, a process asleep in wait() has a child and none of its children is a zombie |
| ProcLifeRuns.ParentsLeadToInit | kernel/proc.c:279-341 | every parent pointer names a live process and every chain of parents ends at init, without a cycle |
| ProcLifeRuns.ExitsReportedOnce | kernel/proc.c:390-435 | the pids wait() returned are distinct and have exited, and every other exited pid is that of exactly one process, a zombie whose parent is live |
| ProcLifeRuns.ReapedIsGone | kernel/proc.c:390-435 | wait() frees no slot whose process still runs on its stack |
| ProcLifeWait.WaitDecides | kernel/proc.c:390-435 | at the end of its scan wait() returns -1 if and only if the process has no child or has been killed, and goes on to sleep if and only if it has a child and has not; no child is a zombie then |
| ProcLifeWait.WaysOutOfWait | kernel/proc.c:390-435 | for every step of every run: -1 only without children or when killed and without a zombie child, sleep only with children of whom none has exited, a pid only for a child that is a zombie and off its stack, with its status |
| ProcLifeWait.KilledAsleep | kernel/proc.c:423-433 | a process asleep in wait() has been killed if and only if the kill() came between the test of wait() and its sleep() |
| ProcLifeWait.ToldAsAsked | kernel/proc.c:346-435 | with every pid wait() hands over the status that this process passed to exit() |
| ProcLifeWait.SleepsAndReaps | kernel/proc.c:279-435 | a run from boot in which init forks, sleeps in wait(), is woken by the exit of its child and returns the pid and status of the child |
| ProcLifeStates.KilledIff | kernel/proc.c:585-605 | the killed flag of a slot is set if and only if a kill() has found the slot since it was last freed |
| ProcLifeStates.StatesFollowDiagram | kernel/proc.c:279-605 | which process each step of fork(), exit(), wait(), wakeup(), kill() and the scheduler moves to which state; every change is an edge of the diagram of process states |
| SwitchRuns.InvStep | kernel/proc.c:444-580 | every step of scheduler(), sched(), sleep(), wakeup(), yield() and exit(), of interrupts in processes and in scheduler(), and of users of p->lock keeps the invariant |
| SwitchRuns.NeverOnTwoCpus | kernel/proc.c:444-472 | no process is on two CPUs, whether running or being switched in or out |
| SwitchRuns.ResumedFromSaved | kernel/proc.c:444-499 | a process is resumed only from a fully saved context, while no other CPU has it, and never after exit() |
| SwitchRuns.NoffCounts | kernel/spinlock.c:89-110 | noff is the number of locks the CPU holds, and under a lock interrupts are off; so pop_off() never panics |
| SwitchRuns.SchedPanicsIff | kernel/proc.c:481-499 | in every run, with whatever locks the callers hold, sched()'s four checks pass if and only if the caller holds no lock beside p->lock and the one it released; p->lock is held, the state is not RUNNING and interrupts are off in any case |
| SwitchRuns.SchedNeverPanics | kernel/proc.c:481-499 | if every call of sleep(), yield() and exit() is made with no lock held but the one it releases, none of sched()'s four checks can fail |
| SwitchRuns.NoLostWakeups | kernel/proc.c:535-580 | after wakeup(chan) by a holder of lk, in a process or in an interrupt on a CPU without one, nobody sleeps, or is about to sleep, in sleep(chan, lk) |
| SwitchRuns.SleeperIsRecorded | kernel/proc.c:535-562 | a sleeping process has its channel and its continuation recorded |
| SwitchSleep.SleepReturnsLocked | kernel/proc.c:535-562 | from a call of sleep(chan, lk) until the process is back in its caller, every CPU that runs it runs this sleep(), and the CPU on which it gets back holds lk; while it is asleep it is asleep on chan |
| SwitchSleep.WokenByOwnChannel | kernel/proc.c:564-605 | a process leaves its sleep only by a wakeup() of its own channel or a kill(), and is RUNNABLE then |
| SwitchThreads.InterruptsBelongToThread | kernel/spinlock.c:85-110 | the interrupt state belongs to the kernel thread: across locks, sleep(), yield() and moves between CPUs it is what it was, and only its own code and traps taken in it change it |
| SwitchThreads.RunningHasBase | kernel/spinlock.c:85-110 | a running process has one such state, that of its CPU |
| SwitchThreads.ChanOnlyInSleep | kernel/proc.c:535-562 | p->chan is set only while p is in a sleep() on that channel |
| SwitchThreads.StatesFollowDiagram | kernel/proc.c:444-605 | which process each step of scheduler(), yield(), sleep(), wakeup(), exit() and kill() moves to which state; every change is an edge of the diagram of process states |
| SleepLock.AtMostOneHolder | kernel/sleeplock.c:21-41 | two threads never have the sleep lock at once |
| SleepLock.HoldingSleepIsExact | kernel/sleeplock.c:43-52 | holdingsleep() is true of exactly the thread that has the lock |
| SleepLock.SleeperHasHolder | kernel/sleeplock.c:21-41 | a thread sleeps only while another has the lock |
| SleepLock.ReturnsOnlyWithLock | kernel/sleeplock.c:21-31 | acquiresleep() does not come back without the lock, also if the thread is killed while it sleeps |
| SleepLock.HeldUntilCleared | kernel/sleeplock.c:21-41 | from taking the lock until it releases it, the thread has it and nobody else takes it |
| BlockOwner.PlaceDirect | kernel/fs.c:382-421 | a direct slot takes over a held block: each block in use still has exactly one owner |
| BlockOwner.PlaceInd | kernel/fs.c:382-421 | a zeroed block becomes the indirect block |
| BlockOwner.PlaceEntry | kernel/fs.c:382-421 | an entry of the indirect block takes over a held block |
| BlockOwner.RemoveDirect | kernel/fs.c:425-453 | a direct slot gives up its block |
| BlockOwner.Detach | kernel/fs.c:425-453 | giving up the indirect block gives up all its entries |
| BlockOwner.AddrInjective | kernel/fs.c:382-421 | distinct slots of all inodes name distinct blocks |
| FileData.WriteChunk | kernel/fs.c:505-539 | a memmove into one block of a file changes exactly those bytes of that file |
| FileData.WroteContents | kernel/fs.c:505-539 | bytes written and the new size, seen as the byte sequence of the file |
| FileData.OthersKept | kernel/fs.c:505-539 | every other file keeps its contents |
| Fs.FileSystem.Claim | kernel/fs.c:65-88 | one bit set, one block zeroed, the block held |
| Fs.FileSystem.LogBit | kernel/fs.c:65-105 | log_write() of a bitmap block: the bit as last logged is the bit now, and the block joins those of the operation |
| Fs.FileSystem.Iupdate | kernel/fs.c:225-241 | the inode as last logged is the inode in memory, its block joins those of the operation, and every difference between the images at the start and as last logged is in such a block |
| Fs.FileSystem.LogWrite | kernel/log.c:214-235 | the block as last logged is the block in the cache, and it joins those of the operation |
| Fs.FileSystem.Balloc | kernel/fs.c:65-88 | the first free block, zeroed and marked; 0 exactly if every bit is set |
| Fs.FileSystem.Bfree | kernel/fs.c:91-105 | the bit is cleared and logged; "freeing free block" exactly if it was clear |
| Fs.FileSystem.AllocDirect | kernel/fs.c:382-421 | a direct block is allocated, or the disk is full and nothing changed |
| Fs.FileSystem.AllocIndirect | kernel/fs.c:382-421 | the indirect block is allocated, or the disk is full and nothing changed |
| Fs.FileSystem.AllocEntry | kernel/fs.c:382-421 | an indirect entry is allocated, or the disk is full and nothing changed |
| Fs.FileSystem.Bmap | kernel/fs.c:382-421 | the block of bn; one already there is returned and nothing changes; no byte of any file changes; 0 only on a full disk; a panic exactly beyond MAXFILE |
| Fs.FileSystem.IndirectMap | kernel/fs.c:382-421 | the indirect half of bmap() |
| Fs.FileSystem.TruncDirect | kernel/fs.c:425-453 | one direct block is freed; bfree() does not panic |
| Fs.FileSystem.TruncIndirect | kernel/fs.c:425-453 | the indirect block and all its entries are freed; bfree() does not panic |
| Fs.FileSystem.Itrunc | kernel/fs.c:425-453 | exactly the blocks the inode named are free, every other file keeps its contents, "freeing free block" is out of reach, and the inode as last logged is the empty one, its block in the log |
| Fs.FileSystem.ReadTurn | kernel/fs.c:471-496 | one turn of readi()'s loop |
| Fs.FileSystem.ReadLoop | kernel/fs.c:471-496 | the loop of readi() delivers the bytes of whole copies and part of the one that fails, and succeeds exactly if all copies do |
| Fs.FileSystem.Readi | kernel/fs.c:471-496 | the bytes of the file at off, as many as there are, up to and into the copy that fails; -1 exactly if a copy fails; nothing is allocated |
| Fs.FileSystem.WriteTurn | kernel/fs.c:505-539 | one turn of writei()'s loop: the chunk is written and logged, or the disk is full, or part of the chunk is left in the cached block, not logged |
| Fs.FileSystem.WriteLoop | kernel/fs.c:505-539 | the loop of writei(): as many bytes as whole copies carry, fewer only on a full disk; what the failing copy leaves in the cache alone; which blocks were logged |
| Fs.FileSystem.WriteRange | kernel/fs.c:505-539 | the same once the range is known to be good |
| Fs.FileSystem.FinishWrite | kernel/fs.c:529-538 | the end of writei(): the size covers the bytes counted, iupdate() has logged the inode as it is now, and the file system is valid again |
| Fs.FileSystem.Writei | kernel/fs.c:505-539 | the file is overwritten or extended by the bytes counted, and shows just these if and only if what the failing copy delivers agrees with what the file has there; the inode as last logged is the inode in memory, and if the blocks were as last logged before the call, the image as last logged, read through its own inode and indirect block, shows just the bytes counted; all that changed in it is in blocks of the log; no other file changes, no hole appears, each block in use keeps exactly one owner; -1 exactly on a bad range |
| Fs.ClippedIs | kernel/fs.c:519-527 | bytes delivered but not counted show exactly if they differ from what the file has there |
| Fs.FileSystem.constructor | kernel/fs.c:51-59 | a file system on an image is valid exactly if every block in use is metadata or named by exactly one inode and no file has a hole |
| FileWrite.ChunkBlocks | kernel/file.c:135-182 | a chunk of filewrite() lies in at most four blocks wherever it starts |
| FileWrite.LoggedCount | kernel/file.c:135-182 | with one bitmap block an operation logs at most three blocks besides data |
| FileWrite.WriteOp | kernel/file.c:135-182 | one operation of filewrite() logs at most 7 distinct blocks, the one of the inode among them, and all that the operation changed in the image as last logged is in these |
| FileWrite.Filewrite | kernel/file.c:135-182 | of src a prefix is written, in order, and the offset moves by it; n is returned exactly if all is written, which only a failing copy, a file too large or a full disk prevents; the file shows just that prefix if and only if the bytes of the failing copy agree with what the file has there; each operation logs at most 7 blocks |
| FileWrite.AllWritten | kernel/file.c:135-182 | with all copies good, a file that is not too large and a disk that is not full, all of src is written |
| FileWrite.FailedWriteShows | kernel/file.c:135-182 | a write of two bytes whose second is not mapped returns -1, and the next read sees the first |
| Mkfs.Builder.constructor | mkfs/mkfs.c:93-122 | an image without files: metadata in use, every other block free and zero |
| Mkfs.Builder.Ialloc | mkfs/mkfs.c:220-232 | the next inode, zeroed |
| Mkfs.Builder.NewDirect | mkfs/mkfs.c:252-294 | the next block in order becomes a direct block |
| Mkfs.Builder.NewIndirect | mkfs/mkfs.c:252-294 | the next block in order becomes the indirect block |
| Mkfs.Builder.NewEntry | mkfs/mkfs.c:252-294 | the next block in order becomes an indirect entry |
| Mkfs.Builder.MapBlock | mkfs/mkfs.c:252-294 | the block for a block number, handed out if there was none; the program exits exactly if the image has no block left |
| Mkfs.Builder.MapEntry | mkfs/mkfs.c:252-294 | the indirect half of this |
| Mkfs.Builder.AppendTurn | mkfs/mkfs.c:252-294 | one turn of iappend()'s loop |
| Mkfs.Builder.AppendLoop | mkfs/mkfs.c:252-294 | the loop of iappend(): which blocks the file then has, and that the rest of its last block is as before |
| Mkfs.Builder.Iappend | mkfs/mkfs.c:252-294 | the file grows by exactly the bytes given, has exactly the blocks they need and zeros behind its end, and no other file changes; the program exits exactly if the file would be too large or the image too small |
| Mkfs.Builder.RoundSize | mkfs/mkfs.c:163-168 | the file reads as before with zeros up to a block boundary; the image is what the kernel relies on if and only if the size was not a whole number of blocks |
| Mkfs.Builder.WriteBitmap | mkfs/mkfs.c:234-248 | the bitmap has exactly the bits of blocks handed out, no block is in use without an owner, and whether the image is what the kernel relies on stays as it was |
| Mkfs.RoundedRoot | mkfs/mkfs.c:163-168 | rounding up a size leaves no hole if and only if it was not a whole number of blocks |
| MkfsImage.LayoutOrder | mkfs/mkfs.c:20-27 | inode blocks and bitmap blocks lie behind the log and before the data blocks, for every size |
| MkfsImage.AppendData | mkfs/mkfs.c:147-161 | the data of a file, a block at a time |
| MkfsImage.StartRoot | mkfs/mkfs.c:93-131 | the layout, and the root directory with "." and ".." |
| MkfsImage.AddFile | mkfs/mkfs.c:133-161 | inode, entry and data of one file; the program exits exactly if they do not fit |
| MkfsImage.Finish | mkfs/mkfs.c:163-173 | rounding, bitmap, and the file system the kernel finds |
| MkfsImage.MakeImage | mkfs/mkfs.c:68-173 | mkfs ends well if and only if the files and the root directory fit; then the file system has every file as given, no inode or bitmap block is ever a file block, and it is valid if and only if the number of entries is not a multiple of 64 |
| MkfsImage.WholeBlockOfEntries | mkfs/mkfs.c:163-168 | sixty-two empty files: the root directory has 2048 bytes and no second block, so the image is not valid |
| InodeTable.Scan | kernel/fs.c:246-277 | iget()'s scan: the referenced entry of the inode, or else the first free entry |
| InodeTableInv.InvStep | kernel/fs.c:198-362 | every step of iget(), idup(), ilock(), iupdate(), iunlock(), iput(), ialloc(), filealloc(), filedup(), fileclose() and of fork() on files keeps the invariant |
| InodeTableRuns.OneEntryPerInode | kernel/fs.c:246-277 | at most one referenced entry per device and inode number |
| InodeTableRuns.RefCountsReferences | kernel/fs.c:246-288 | ref is the number of references that threads hold, plus one for every open file on the inode, however many processes share it |
| InodeTableRuns.FileCountsDescriptors | kernel/file.c:28-83 | a struct file counts the descriptors on it and keeps its inode referenced until the last is closed |
| InodeTableRuns.IputNeverBlocks | kernel/fs.c:336-362 | when a thread outside any lock puts the last reference, nobody has the sleep lock, so acquiresleep() under the spinlock does not block, and freeing can begin |
| InodeTableRuns.LockedInodeMatchesDisk | kernel/fs.c:292-317 | the holder of a lock who has not changed the inode sees the inode on disk, even if the number was freed and allocated again |
| InodeTableRuns.UnlockedInodeMatchesDisk | kernel/fs.c:225-241 | a cached inode that nobody has locked is the inode on disk |
| InodeTableRuns.AllocSparesCached | kernel/fs.c:198-219 | ialloc() takes no number that a valid entry caches, except one whose holder has just freed it and keeps it locked |
| InodeTableRuns.FreedWhileLocked | kernel/fs.c:336-362 | an inode being freed stays locked until its type is cleared on disk and the entry is invalid |
| InodeTableFree.IputFreesIff | kernel/fs.c:336-362 | iput() frees the inode if and only if it puts the last reference and the inode has been read and has no links; otherwise it only gives the reference up |
| InodeTableFree.FreedHasNoLinks | kernel/fs.c:336-362 | freeing begins only for an inode without links, in the table and on disk, and the last reference is dropped without freeing only if links are left or the inode was never read |
| InodeTableFree.DiskChanges | kernel/fs.c:198-362 | an inode on disk changes only when ialloc() takes a free one, when the holder of its lock writes it or when iput() frees it; its type goes to 0 only without links and without content |
| InodeTableFree.HolderWrites | kernel/fs.c:225-241 | what the holder of an inode's lock has made of it is what its next iupdate() puts on disk |
| InodeTableCalls.IgetReturnsEntry | kernel/fs.c:246-277 | iget() gives one more reference to an entry for the inode asked for: the one that has it, or else the first free entry, not believed to be read |
| InodeTableCalls.ReferencedKeepsInode | kernel/fs.c:246-362 | a referenced entry stands for the same inode from one step to the next |
| InodeTableCalls.IallocReturnsItsInode | kernel/fs.c:198-219 | ialloc() returns the inode that it has marked on disk as allocated |
| InodeTableCalls.LockIff | kernel/fs.c:292-362 | a thread has the lock of an entry if and only if it has taken it and not released it since |
| InodeTableCalls.FreesItsInode | kernel/fs.c:336-362 | every iput() that begins to free an inode has written it to disk as free and empty before it ends |
| BufCacheRuns.InvStep | kernel/bio.c:58-151 | every step of bget(), bread(), bwrite(), brelse(), log_write() and install keeps the invariant, also brelse() of a changed buffer that was not logged |
| BufCacheRuns.OneBufferPerBlock | kernel/bio.c:58-89 | at most one buffer caches a block of a real device |
| BufCacheRuns.RefcntCounts | kernel/bio.c:58-151 | refcnt is holders plus waiters, plus one if the block is in the uncommitted log |
| BufCacheRuns.HolderSeesLatest | kernel/bio.c:92-103 | bread() returns the latest contents logged or written, if no changed buffer was released with other contents before |
| BufCacheRuns.LatestIffNoStray | kernel/bio.c:92-137 | every cached block has its latest contents in every state if and only if no buffer was released with other contents |
| BufCacheRuns.HoldersIffNoStray | kernel/bio.c:92-137 | every holder sees the latest contents, during a run and however it could go on, if and only if the run has no such release |
| BufCacheRuns.StrayIsSeen | kernel/bio.c:92-137 | after any such release the next bread() of the block returns those other contents |
| BufCacheRuns.FailedCopyIsSeen | kernel/fs.c:519-527 | a concrete run: read, change, release without log_write(), read again |
| BufCacheRuns.SyncedIffNoStrayInstall | kernel/bio.c:105-112 | every block outside the uncommitted log is on disk as last logged or written, in every state, if and only if no commit installed other contents |
| BufCacheRuns.StrayIsCommitted | kernel/log.c:68-83 | such contents of a block in the uncommitted log reach the disk with the commit |
| BufCacheRuns.HoldersExclude | kernel/bio.c:58-89 | two threads never hold the same buffer |
| BufCacheRuns.RecycleIsSafeAndLru | kernel/bio.c:58-89 | the buffer recycled is unlocked, not pinned and the one released longest ago; its block is on disk as last logged or written, if no commit installed other contents |
| BufCacheRuns.PinnedStaysCached | kernel/bio.c:139-151 | a logged block stays cached until it is installed, with the logged contents if no changed buffer was released |
| BufCacheCalls.GetsItsBlock | kernel/bio.c:58-137 | from bget() to brelse() a thread has a buffer for the block it asked for |
| BufCacheCalls.WritesWhatWasPut | kernel/bio.c:105-112 | what the holder has put into its buffer is what its next log_write() makes the latest contents of that block, and what its next bwrite() writes to disk |
| BufCacheCalls.OnlyHoldersWrite | kernel/bio.c:92-151 | the latest contents of a block change only by its holder, the disk only by its holder or install_trans(), each to what is in the buffer; a block leaves the log only when it is installed |
| BufCacheCalls.RingMovesOnLastRelease | kernel/bio.c:116-137 | the ring changes only when the last reference to a buffer is given up, and then that buffer moves to the front |
| BufRing.Ring.constructor | kernel/bio.c:36-53 | binit(): all buffers in the ring, each once |
| BufRing.Ring.InsertFront | kernel/bio.c:36-53 | four pointer assignments put a buffer at the head of the list |
| BufRing.Ring.MoveToFront | kernel/bio.c:116-137 | unlinking and relinking by pointers moves exactly that buffer to the head |
| BufRing.Ring.FindCached | kernel/bio.c:58-89 | following next from the head finds the first buffer that caches the block, or the head |
| BufRing.Ring.FindUnused | kernel/bio.c:58-89 | following prev from the head finds the last unreferenced buffer, or the head |
| VirtioRuns.InvStep | kernel/virtio_disk.c:215-327 | every step of driver, device and interrupt handler keeps the invariant |
| VirtioRuns.DescriptorsPartitioned | kernel/virtio_disk.c:156-213 | free descriptors and the chains of unfinished requests partition the descriptors, and a free one is cleared |
| VirtioRuns.DeviceFindsRequest | kernel/virtio_disk.c:215-292 | what the device takes is a well-formed chain of one waiting thread |
| VirtioRuns.ServedAsAsked | kernel/virtio_disk.c:215-292 | the device moves the data of that request and no other |
| VirtioRuns.UsedEntryCompletesOne | kernel/virtio_disk.c:294-327 | each used entry completes exactly one waiting request, with status 0 |
| VirtioRuns.ReturnsAfterServed | kernel/virtio_disk.c:215-292 | virtio_disk_rw() returns only after its own request was served, and free_chain() does not panic |
| VirtioRuns.IndicesCountEntries | kernel/virtio_disk.c:215-327 | the 16-bit indices are the low bits of the true counts and never skip or repeat an entry |
| VirtioRequests.ServedOnceAsAsked | kernel/virtio_disk.c:215-327 | between the submission of a request and the return of its virtio_disk_rw() the device serves it exactly once: a write puts the data of the call into the block of the call, a read gives the caller what that block holds at that moment; nothing else changes |
| VirtioDescs.Table.AllocDesc | kernel/virtio_disk.c:156-166 | the lowest free descriptor; -1 exactly if none is free |
| VirtioDescs.Table.FreeDesc | kernel/virtio_disk.c:169-182 | the descriptor is cleared and free; a panic exactly on a bad or free one |
| VirtioDescs.Table.FreeChain | kernel/virtio_disk.c:185-197 | exactly the descriptors of the chain are freed, without a panic |
| VirtioDescs.Table.Alloc3Desc | kernel/virtio_disk.c:199-213 | three distinct free descriptors, or -1 exactly if there are fewer and then the same ones are free as before |
| PipeInv.InvStep | kernel/pipe.c:58-130 | every step of pipewrite(), piperead(), pipeclose() and kill() keeps the invariant |
| PipeInv.Tests | kernel/pipe.c:76-130 | the full and empty tests on wrapping 32-bit counters mean what they say |
| PipeInv.ReadersStep | kernel/pipe.c:76-103 | a step breaks the rule that sleeping readers have nothing to read if and only if a writer leaves without waking them |
| PipeRuns.FifoOverRuns | kernel/pipe.c:76-130 | what came out is what went in first, with at most 512 bytes in between |
| PipeRuns.WritersBytesInOrder | kernel/pipe.c:76-103 | a call's bytes go in once, in order |
| PipeRuns.ReadersGetOneStretch | kernel/pipe.c:105-130 | a read returns one stretch of what went in |
| PipeRuns.OneInside | kernel/pipe.c:76-130 | at most one process is inside the locked parts |
| PipeRuns.SleepingWriterMeansFull | kernel/pipe.c:76-130 | with the lock free a sleeping writer means a full pipe |
| PipeRuns.SleepingReaderMeansEmpty | kernel/pipe.c:76-130 | with the lock free a sleeping reader means an empty pipe, unless a writer stranded it |
| PipeRuns.StrandingIsExact | kernel/pipe.c:84-87 | the first time readers sleep beside bytes is exactly when a writer gives up with readers asleep and bytes in the pipe |
| PipeRuns.StrandedByKill | kernel/pipe.c:84-87 | such a writer was killed |
| PipeRuns.EmptyWithoutKills | kernel/pipe.c:76-130 | if no process is killed while it writes, then with the lock free a sleeping reader means an empty pipe |
| PipeRuns.KilledWriterStrands | kernel/pipe.c:84-87 | a run that ends with a reader asleep, the lock free and a byte in the pipe |
| PipeRuns.NotBothAsleep | kernel/pipe.c:76-130 | readers and writers do not sleep at the same time |
| PipeRuns.FreedPipeUnused | kernel/pipe.c:58-74 | once both ends are closed no process is in the pipe |
| PipeCalls.WritePutsItsBytes | kernel/pipe.c:76-103 | a call of pipewrite() puts in the first n of its bytes, once and in order: all of them if it returns normally, fewer only after a fault, a kill() or with no reader |
| PipeCalls.ReadReturnsItsBytes | kernel/pipe.c:105-130 | a call of piperead() that returns normally returns as many bytes as asked for, or fewer and leaves the pipe empty; none only if none are asked for or no writer is left; they are the last that came out |
| PipeCalls.WakeupsReachAll | kernel/pipe.c:58-130 | a wakeup reaches every sleeper of its kind, a kill() the process it is for, and nothing else ends a sleep |
| PipeCalls.KilledAsleep | kernel/pipe.c:84-91 | a process asleep in the pipe has been killed if and only if the kill() came between the test of its loop and its sleep() |
| PipeCalls.OpenIff | kernel/pipe.c:58-74 | an end of the pipe is open if and only if it has not been closed |
| FreeRing.FreedOrdered | user/umalloc.c:24-44 | inserting and merging keeps the list in address order and fully coalesced |
| FreeRing.FreedSum | user/umalloc.c:24-44 | free() adds exactly the units of the block |
| FreeRing.TakenDisjoint | user/umalloc.c:63-90 | taking the tail of a free block keeps all blocks apart |
| FreeRing.TakenSum | user/umalloc.c:63-90 | malloc() moves exactly the units it takes |
| Umalloc.StopsAt | user/umalloc.c:24-44 | free()'s search stops at a block if and only if it is the place of the block to be freed |
| Umalloc.FreeLinked | user/umalloc.c:24-44 | after the two ifs of free() the headers again form one circle |
| Umalloc.FreeKeeps | user/umalloc.c:24-44 | free() keeps order, links, disjointness and the number of units |
| Umalloc.Look | user/umalloc.c:63-90 | what one turn of malloc()'s loop finds, and that the search comes closer to its end |
| Umalloc.Units | user/umalloc.c:63-90 | room for nbytes and a header, and less than one unit more |
| Umalloc.Allocator.constructor | user/umalloc.c:21-22 | a process that has not called malloc() yet |
| Umalloc.Allocator.Start | user/umalloc.c:63-90 | the list that consists of base alone |
| Umalloc.Allocator.FindPlace | user/umalloc.c:24-44 | free()'s search ends at the last block below the freed one |
| Umalloc.Allocator.Splice | user/umalloc.c:24-44 | the two ifs of free() change exactly the headers they should |
| Umalloc.Allocator.Free | user/umalloc.c:24-44 | the block is back in the list, merged with what it touches; the list stays one circle in address order, coalesced, apart from live blocks; units are conserved |
| Umalloc.Allocator.Morecore | user/umalloc.c:46-61 | at least 4096 units from sbrk() join the list, or sbrk() fails and nothing changes |
| Umalloc.Allocator.Carve | user/umalloc.c:63-90 | n units leave the list for the caller |
| Umalloc.Allocator.Grow | user/umalloc.c:63-90 | after growing, the search will meet a block that is large enough before it comes round |
| Umalloc.Allocator.Malloc | user/umalloc.c:63-90 | a live block of exactly the units needed, apart from all others; 0 exactly if no free block is large enough and sbrk() fails; the heap grows exactly if no free block is large enough; the search ends |
| ShellLex.TokenAt | user/sh.c:266-309 | the bounds of a token; 0 exactly at the end of the line; a word is maximal |
| ShellLex.GetToken | user/sh.c:266-309 | the loops of gettoken() find that token |
| ShellLex.Peek | user/sh.c:311-321 | peek() skips blanks and tells whether one of the characters is next |
| ShellGrammar.LineAt | user/sh.c:345-360 | parsing ends on every input, within the line |
| Shell.ParseRedirs | user/sh.c:375-398 | the loop of parseredirs() collects the redirections |
| Shell.ParseExec | user/sh.c:416-447 | the loop of parseexec() builds the command, with its panics |
| Shell.ParseBlock | user/sh.c:400-414 | a parenthesised line with redirections |
| Shell.ParsePipe | user/sh.c:362-373 | pipes associate to the right |
| Shell.ParseLine | user/sh.c:345-360 | background marks and lists |
| Shell.ParseCmd | user/sh.c:328-343 | the command that the line is, every argv and file pointer reading exactly its word, or a panic that leaves the buffer alone |
| Shell.NulTerminate | user/sh.c:449-494 | a NUL at the end of every word and nothing else changed |
| Shell.EndArgs | user/sh.c:449-494 | the loop over argv |
| ShellRoundTrip.ArgsOf | user/sh.c:416-447 | printed words are parsed as these words |
| ShellRoundTrip.LineOf | user/sh.c:345-447 | a printed command is parsed as that command wherever it stands |
| ShellRoundTrip.RoundTrip | user/sh.c:328-447 | for every command with valid words and at most 9 arguments, parsing its parenthesised printing gives the command |
| ShellSpans.LineSpans | user/sh.c:345-447 | every line that parses gives pointers to whole words, at most 9 arguments, and redirections with the mode and descriptor of the arrow before the file name |
| ShellSpans.CommandSpans | user/sh.c:328-398 | the same for a whole line |
| ShellSpans.ArrowAndFile | user/sh.c:375-398 | < opens for reading on 0; > creates and truncates, >> creates, both on 1 |
| ShellCover.EachWordOnce | user/sh.c:328-447 | for every line that parses, each character of a word lies in exactly one argument or file name, and no other character in any |
| ShellSpans.Normalises | user/sh.c:328-447 | printing what any line was parsed as, and parsing that, gives the same command |
| ShellSpans.ReadsBack | user/sh.c:449-494 | once all ends are overwritten every pointer reads exactly its word |
| ShellDerive.ParsedByGrammar | user/sh.c:328-447 | every line that parses is parsed as a grammar says that is stated apart from the parser: blanks around tokens, words and redirections in any order with later redirections outside, bars and semicolons to the right, ampersands behind |
| ShellAccepts.AcceptsExactly | user/sh.c:328-447 | parsecmd() gives a line the command c if and only if the grammar does and no command in c has more than 9 arguments |
| ShellAccepts.OneMeaning | user/sh.c:328-447 | the grammar gives a line at most one such command |

## Left out

- Trap entry, the trampoline's code, swtch's registers, timer, PLIC and UART: swtch is two atomic steps, saving and loading, and a trap is a step that turns interrupts off.
- Memory fences and the atomic swap of spinlocks: spinlocks exclude each other and memory is sequentially consistent.
- Directories and path names, and so who changes link counts; exec, system call argument fetching, the console and all other user programs.
- One block write is atomic, and a crash loses no block that was written.
- The free list of kalloc.c is a sequence of pages, and the kernel's own page table and stacks are pages held by the kernel.
- Pids, sizes and addresses are unbounded natural numbers where the source has 32 or 64 bits, except in the tests and sums that wrap in the source: readi(), writei(), growproc(), the pipe's counters, the virtio indices.
- The block bitmap is a sequence of bits, and the inode in memory is the inode on disk while its lock is held, except in `InodeTable`, which is about the difference.
- malloc() and free() count addresses in units of one header, so the break stays a multiple of it.
- ilock()'s "no type" panic stops the model of the inode table; that no directory entry names a free inode is not proved.
- UserVm.Uvmdealloc: the old size is at most TRAPFRAME, as every size of a process is.
- UserVm.Uvmalloc: the start size is at most TRAPFRAME, and a larger end size needs the trapframe to be mapped, as it is in every process.
- UserCopy.Copyout: the special pages are mapped without PTE_U, as proc_pagetable() maps them; nothing is said about write permission, which walkaddr() does not test.
- Vm.Machine.UnmapPage: the entry is cleared before the page is freed; the source frees first, under the same conditions.
- Fs.FileSystem.Writei: the data blocks as last logged are spoken of only if the cache agreed with them before the call; what a commit makes durable otherwise is the subject of `GroupCommitLeft`. Other operations of the same group are not part of `Fs`.
- Fs.FileSystem.Itrunc: the slot of the indirect block is cleared before its blocks are freed; the source clears it last.
- Mkfs.Builder.Ialloc: there is an inode left, which mkfs does not test.
- MkfsImage.AddFile: there is an inode for the file, which mkfs does not test.
- MkfsImage.MakeImage: there are inodes for all files, which mkfs does not test; types, link counts and reading the files from the host are not modelled.
- VirtioRuns.UsedEntryCompletesOne: the device always reports status 0; on an I/O error virtio_disk_intr() would panic.
- VirtioDescs.Table.Alloc3Desc: the loop over three descriptors is unrolled.
- BufCache, InodeTable, Pipe: acquiresleep() and sleep() are one step each; `SleepLock` and `Switch` are about what happens inside.
- Umalloc.Allocator.Malloc: requests fit the int that sbrk() takes, and the heap lies above the static variable base.
- Pipe: an end is closed only when no process is reading or writing through it, because the file is then still open.
- Shell: memory for commands does not run out, and runcmd() is not modelled.
- Switch: the pushes and pops around mycpu() and myproc(), which cancel out; intr_on() and intr_off() are called only where no lock is held.
- InodeTable: a process closes no file on an inode that it has locked; the source unlocks first.
