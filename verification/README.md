# Models of the xv6 kernel's hard parts

Dafny models of the parts of xv6 where correctness is subtle, with proofs about every run or
every input. `dafny verify dfyconfig.toml` checks the whole project.

## What is modelled

**Write-ahead log.** `Log.dfy` has the on-disk format and, as sequences of one-block writes,
`commit` and `recover_from_log`; a crash may fall between any two writes, and recovery may crash
and restart any number of times. `LogCode.dfy` has the functions of log.c as they run and ties
their writes to those sequences. `LogMachine.dfy` is a step machine of any number of operations
(`begin_op`, `bread`, `log_write`, `brelse`, `end_op`), the committer, crashes and recovery over one
buffer cache and disk; `LogSafety.dfy` and `LogRuns.dfy` prove its invariant and the theorems about
runs; `LogBounds.dfy` has the runs that break the bounds and how large the region must be, and
`LogView.dfy` ties the machine's disk and its steps to the block writes of `Log.dfy`.

**Buffer cache and disk driver.** `Bio.dfy` is the doubly linked list of buffers with its
pointer assignments, and `bget`, `bread`, `bwrite`, `brelse`. `Ide.dfy` is the interrupt-driven queue
of ide.c, head and links included, as a step machine, refined to the synchronous driver of memide.c.

**Files.** `Fs.dfy` and `FsFrame.dfy` say who owns which disk block and what a change leaves alone;
`FsCode.dfy` has `balloc`, `bfree`, `bmap`, `itrunc`, `readi`, `writei` and `iupdate` over them;
`Bitmap.dfy` has the bitmap's bytes. `Dir.dfy` has link counts and the directory tree, `DirCode.dfy`
the directory operations of fs.c and sysfile.c on slots, `DirFile.dfy` the same slots as bytes of
files, and `Path.dfy` path names and what they find. `Icache.dfy` is the inode cache as a step machine
of any number of threads.

**Processes.** `ProcTable.dfy` has the scans of the process table. `ProcMachine.dfy` is a step
machine of any number of slots and CPUs: scheduler, context switch, `fork`, `exit`, `wait`, `sleep`,
`wakeup`, `yield`, `kill`, ptable.lock and any number of other spinlocks; a step is what one thread
does between two points at which another can interfere, and a thread can be interrupted and
preempted wherever it has interrupts on. `ProcSafety.dfy` and `ProcLocks.dfy` prove its invariants and
`ProcRuns.dfy` the theorems about runs.

**Memory.** `FreeList.dfy` and `Umalloc.dfy` are the allocator of section 8.7 of Kernighan and
Ritchie, The C Programming Language, with headers in memory linked in a circle. `Vm.dfy` and
`VmCode.dfy` are two-level page tables over the page free list, with what each operation leaves behind
when memory runs out.

**Smaller cores.** `Console.dfy` and `Pipe.dfy` over `Ring.dfy`, rings addressed by counters that wrap
at 2^32; `Grep.dfy`, the matcher against a declarative language; `Shell.dfy` and `ShellPrint.dfy`, the
parser, the terminator and the round trip. `Words.dfy` and `Options.dfy` are shared types.

## Where the code falls short of what one would expect

- `log_write` tests the header's size before it looks for the block in it, so an operation within
  its allowance can panic when it logs a block again (`RelogPanics`); `ReservationHolds` says
  exactly when the test fires.
- mkfs.c lays out LOGSIZE log blocks, a header and 29 slots, one block too few for the admissions of
  `begin_op`: an operation with allowance left can panic (`SmallRegionPanics`), and two operations
  that pass `log_write`'s unlocked size test together make `write_log` overwrite the first inode
  block (`Overrun`, `OverrunDestroys`). `RegionSuffices` and `AtomicityNeedsRoom` are equivalences;
  the theorems of `LogRuns` and `LogView` hold in larger regions, and in any region for the runs in
  which the header fits.
- Creating or linking in a directory that has been unlinked breaks link counts and the tree
  (`CreateInUnlinked`, `LinkInUnlinked`); the three `NeedsLink` lemmas are equivalences.
- A path that climbs by ".." out of a directory that outlived its parent makes `namex` lock a free
  inode, a panic (`ClimbPanics`); `PanicsExactly` is an equivalence.
- `iput` gives up the table lock while it frees an inode, and an `iget` by number then takes a
  reference to what is about to be free, so that the next `ilock` panics for want of a type
  (`ImproperGetFails`); `MissesExactly` and `SafeRunsExactly` are equivalences, and `NamedIsAskable`
  says which look-ups are safe.
- `setupkvm` loses what it has allocated when it fails, `allocuvm` and `copyuvm` lose a frame when
  `mappages` fails, and `allocuvm` then reports success if it was the last page; `Allocuvm`, `Setupkvm`
  and `Copyuvm` say what is left.
- `malloc` serves requests only up to 2^31 - 16 bytes (`RequestsServed`, an equivalence).
- `deallocuvm` strides over missing tables from an unaligned address and can miss a mapped page
  (`SkipUnsound`); `Deallocuvm` states its effect with those pages excepted, and `SkipSound` says
  when there are none.
- A writer killed while it fills the pipe returns without waking the readers
  (`KilledWriterStrandsReader`); `SleepKept` is an equivalence.
- `kill` compares pids of unused slots too, and a killed mark survives in a slot until it is
  used again; the model does the same.

## Model

| member | source | states |
|---|---|---|
| Log.HeadRoundTrip | log.c:84-112 | what write_head stores in the header block read_head reads back, whatever the block held before |
| Log.RedoAfterPrefix | log.c:68-81 | installing a transaction again after any part of it was installed gives the same blocks as installing it once |
| Log.RecoveryRestarts | log.c:114-121 | recovery cut short after any number of its one-block writes leaves a log that fits, and running it again gives the home blocks an uninterrupted recovery gives |
| Log.CrashingRecoveryConverges | log.c:114-121 | any number of recoveries, each cut short anywhere, followed by one that finishes, give the home blocks of a single recovery |
| Log.CommitCutRecovers | log.c:174-199 | commit cut short after k of its writes and recovered: all home blocks old up to the header write, all new after it |
| Log.CrashAtomicity | log.c:68-121 | for every transaction, every crash point in commit and every sequence of crashing recoveries: all old or all new, all new exactly when the header write reached the disk, and an empty log at the end |
| LogCode.Absorb | log.c:220-227 | log absorption: the header keeps its order, gains the block at most once and stays free of duplicates |
| LogCode.InMemoryLog.WriteLog | log.c:174-187 | the pinned copies reach the log slots in order, one write each, and nothing else changes |
| LogCode.InMemoryLog.WriteHead | log.c:100-112 | one write puts the in-memory header on the disk |
| LogCode.InMemoryLog.ReadHead | log.c:84-95 | the in-memory header becomes the one on the disk |
| LogCode.InMemoryLog.InstallTrans | log.c:68-81 | every logged block receives its slot, one write each in order, and its buffer is unpinned; the header block is untouched |
| LogCode.InMemoryLog.Commit | log.c:189-199 | the disk writes are exactly the sequence that CrashAtomicity cuts, the header ends empty and exactly the logged buffers are unpinned |
| LogCode.InMemoryLog.RecoverFromLog | log.c:114-121 | the disk writes are exactly the sequence that RecoveryRestarts cuts, and the header ends empty |
| LogCode.InMemoryLog.TryBeginOp | log.c:124-140 | one pass of begin_op lets a newcomer in exactly when nothing is committing and its whole allowance fits however much of theirs the others have left; a caller that has to sleep leaves behind a commit or an operation whose end wakes it |
| LogCode.InMemoryLog.LeaveOp | log.c:144-160 | end_op's panic cannot happen, exactly the last operation out takes the log for its commit, and otherwise somebody is left who will: what was logged always has an operation inside or a committer |
| LogCode.InMemoryLog.CommitAndReopen | log.c:162-170 | the committer commits the pinned transaction and reopens an empty log |
| LogCode.InMemoryLog.LogWrite | log.c:210-230 | panics exactly for a full header or outside an operation; otherwise the block is in the header once and pinned with the caller's data |
| LogMachine.OperationsAreWhole | log.c:124-171 | a point of the history at which no operation is open splits no operation |
| LogRuns.StepKeepsInv | log.c:114-230 | every step of operations, buffer cache, commit, crash and recovery that leaves the header within the region keeps the invariant that ties header, slots, home blocks, cache and history together |
| LogRuns.RoomyStepFits | log.c:124-230 | with LOGSIZE data slots no step takes the header out of the region |
| LogRuns.RunInv | log.c:114-230 | the invariant holds after every run in every interleaving, in a region of more than LOGSIZE blocks or as long as the header fits the region; in the first case it always does |
| LogRuns.WholeOperationAtomicity | log.c:124-171 | after any such run with any crashes, what recovery restores is the replay of a prefix of the history made of whole operations, and that is the whole history when nothing is active |
| LogRuns.CacheAgreement | log.c:201-230 | after any such run, outside recovery an unheld or uncached block reads as last logged, an idle clean buffer equals the disk, logged blocks stay cached and dirty, and home blocks are untouched until the header write |
| LogRuns.CommitIsExclusive | log.c:142-171 | after any such run: while committing no operation is outstanding, end_op's panic cannot happen, and nobody else changes header, disk or history |
| LogRuns.CommitNeverStuck | log.c:189-199 | after any such run a commit or recovery in progress can take its next step once no reader holds a buffer |
| LogRuns.BeginHasWaker | log.c:124-171 | when begin_op refuses, recovery, a commit or an active operation is there to wake the caller; and what has been logged always has one of them to commit it |
| LogRuns.ReservationHolds | log.c:124-140 | in a region of more than LOGSIZE blocks the header length plus the unspent allowances never exceeds LOGSIZE, and the size panic strikes exactly at a full header, when every active operation has spent its whole allowance |
| LogBounds.RelogPanics | log.c:210-218 | a reachable state, every operation within its allowance and the region roomy, in which logging an already logged block again panics: the size test precedes absorption |
| LogBounds.SmallRegionPanics | mkfs.c:25 | in every region of at most LOGSIZE blocks, a reachable state in which an operation with allowance left panics on a new block |
| LogBounds.Overrun | log.c:210-230 | in every region of at most LOGSIZE blocks, a reachable state whose header lists more blocks than there are slots: two operations pass the unlocked size test before either appends |
| LogBounds.OverrunDestroys | log.c:174-187 | from there write_log overwrites the block after the region, which nobody logged, with a logged block's data before the header is written |
| LogBounds.RegionSuffices | log.c:124-230 | the header fits the region in every run from every bootable disk if and only if the region has more than LOGSIZE blocks |
| LogBounds.AtomicityNeedsRoom | log.c:124-230 | recovery restores whole operations after every run from every bootable disk if and only if the region has more than LOGSIZE blocks |
| LogBounds.MkfsTooSmall | mkfs.c:25 | the disk mkfs lays out, with LOGSIZE log blocks at block 2 and the inodes at block 32, fails both; one more log block would do |
| LogView.StepOnDisk | log.c:68-199 | every step of the machine is at most one block write on the disk it is a view of |
| LogView.RunOnDisk | log.c:68-199 | so is every run: the machine's disk is the view of what a sequence of one-block writes, at most one a step, has left |
| LogView.CommitIsWrites | log.c:174-199 | however readers interleave with commit, after k of its steps the disk is the one that the first k writes of Log's commit sequence leave, with the data last logged |
| LogView.RecoveryIsWrites | log.c:68-121 | booting and letting recovery run takes the machine through the disks that the prefixes of Log's recovery sequence leave, to the recovered disk |
| LogView.RestoreIsRecovered | log.c:68-121 | the home blocks the machine's theorems speak of are those of the disk after recover_from_log |
| LogView.DiskRecovers | log.c:68-230 | whole-operation atomicity of the disk's blocks: after any such run recovering the disk gives the replay of the durable whole operations on the first disk's recovered home blocks |
| Bio.Binit | bio.c:39-57 | the loop links every buffer into one circular doubly linked list, last buffer first |
| Bio.UnlinkLinked | bio.c:131-132 | taking a node out by its two pointer assignments leaves the rest of the circle in order |
| Bio.PushLinked | bio.c:133-136 | putting a node after the head by four assignments makes it first and keeps the rest in order |
| Bio.MoveFront | bio.c:131-136 | brelse's six assignments are an unlink followed by a push to the front |
| Bio.ToFrontHolds | bio.c:124-142 | moving a node to the front keeps every buffer on the list exactly once |
| Bio.RecycleKeepsView | bio.c:83-94 | recycling an idle clean buffer for an uncached block changes what no block reads as |
| Bio.BufferCache.constructor | bio.c:39-57 | a fresh cache holds no block of a real device and its list holds every buffer |
| Bio.BufferCache.FindCached | bio.c:70-81 | the first scan finds the block's buffer if there is one |
| Bio.BufferCache.FindVictim | bio.c:83-94 | the second scan finds the least recently used buffer that is neither busy nor dirty, if there is one |
| Bio.BufferCache.Bget | bio.c:62-96 | uniqueness and agreement are kept and no block reads differently; the buffer is taken, slept on or recycled exactly as the flags say; no buffers means every one is busy or dirty |
| Bio.BufferCache.Bread | bio.c:99-109 | the buffer comes back busy, valid and holding the block's current contents, all other buffers untouched |
| Bio.BufferCache.Bwrite | bio.c:112-119 | refused exactly when not busy; else the block on the disk becomes the buffer's data and the dirty flag is cleared |
| Bio.BufferCache.Brelse | bio.c:122-142 | refused exactly when not busy; else only the busy flag changes and the buffer becomes the most recently used |
| Bio.BufferCache.Pin | log.c:228 | log_write's mark on a held buffer changes its dirty flag and nothing else, and keeps uniqueness and agreement |
| Bio.BufferCache.ChangeBlock | log.c:201-230 | bread, a change, log_write and brelse: the block reads as changed although the disk is not, no other block reads differently, and the buffer is left dirty and not busy, one that bget does not recycle |
| Ide.MemIderw | memide.c:37-59 | panics exactly when the buffer is not busy, nothing is to be done or the block is beyond the disk; else writes a dirty buffer or reads a clean one at once |
| Ide.Append | ide.c:147-151 | the pointer-to-pointer walk computes the machine's new head and links, which append the request to the queue |
| Ide.AppendQueue | ide.c:147-151 | following the links from the head ends at the last request, and linking there appends to the queue |
| Ide.PopQueue | ide.c:104-111 | the interrupt takes the first request and the linked queue goes on after it |
| Ide.StepRefines | ide.c:71-163 | each step of caller, device or interrupt on the head and qnext links is nothing, an outside change, or one whole iderw of the in-memory driver, and the links go on holding the queue |
| Ide.RunRefines | ide.c:71-163 | every run of the queueing driver is a run of the in-memory one |
| Ide.DriverRefinement | ide.c:71-163 | for every interleaving: buffers and disk are those of memide's iderw run in completion order, requests are served once each in call order, and a returning caller sees exactly the in-memory result |
| Ide.DriverProgress | ide.c:99-163 | a queued request always has the device at work or an interrupt due, and a served caller can return |
| Bitmap.MaskIsShift | fs.c:63 | the mask table is 1 shifted by the bit number |
| Bitmap.SetOne | fs.c:63-65 | marking a bitmap byte sets one bit and no other |
| Bitmap.ClearOne | fs.c:87-90 | clearing a bitmap byte clears one bit and no other |
| Bitmap.FindClear | fs.c:54-75 | the byte-and-mask search over bitmap blocks finds the lowest clear bit below the size, or there is none |
| Bitmap.Mark | fs.c:53-75 | marking on the bytes is the setting of one boolean, the lowest that is false; none exactly when all are true |
| Bitmap.Clear | fs.c:78-93 | freeing on the bytes is the clearing of one boolean, refused exactly when it is false already |
| Fs.SetGet | fs.c:374-378 | storing a word of an indirect block changes that word and no other |
| Fs.PointersDiffer | fs.c:356-384 | two different pointers never hold the same block, and a held block is marked in use |
| Fs.MarkedIsOwned | fs.c:78-93 | a data block is marked exactly when some pointer holds it |
| Fs.Grant | fs.c:356-384 | giving a free block to an empty pointer keeps block ownership |
| Fs.Revoke | fs.c:391-419 | taking the block from a pointer and clearing its bit keeps block ownership |
| Fs.RevokeEntry | fs.c:408-411 | freeing an indirect entry that stays in place keeps ownership of everything but the entries already passed |
| Fs.RevokeRoot | fs.c:413-414 | freeing the indirect block after its entries restores full ownership |
| FsFrame.PatchFrame | fs.c:480-484 | overwriting a block of one file changes no pointer and no byte of any other file |
| FsFrame.SameContents | fs.c:434-492 | a file whose blocks are the same has the same size and contents |
| FsCode.WriteStep | fs.c:479-485 | one round of the write loop extends the written prefix by the bytes that fit in the block |
| FsCode.WrittenContents | fs.c:462-492 | after the loop and the size update the file is the old contents overlaid with the source |
| FsCode.FileSystem.Balloc | fs.c:53-75 | the lowest free block, marked and zeroed; a panic exactly when all are in use |
| FsCode.FileSystem.Bfree | fs.c:78-93 | with ownership intact bfree panics exactly for a data block that no pointer holds; else only that block's bit is cleared |
| FsCode.FileSystem.Bmap | fs.c:356-384 | returns the block of that file position, allocating the block and the indirect block only if missing, keeps ownership and changes nothing else |
| FsCode.FileSystem.Iupdate | fs.c:199-215 | memory and disk agree on all inodes afterwards if and only if they agreed on all the others before, none of which changes on the disk |
| FsCode.FileSystem.WriteBlocks | fs.c:479-485 | the loop writes the whole source, keeps ownership and other files, and gives the file exactly the blocks it needs; within the file it cannot fail |
| FsCode.FileSystem.Writei | fs.c:462-492 | -1 exactly for a bad offset or an oversized write; else contents[..off] + src + contents[off+n..], other files unchanged, ownership kept, and on-disk inodes equal to in-memory ones although iupdate runs only on growth; a panic for want of blocks only on a full disk and never for a write within the file |
| FsCode.FileSystem.Readi | fs.c:434-458 | -1 exactly for a bad offset or an overflowing one; else the slice of the contents, shortened at the end of the file, with nothing changed |
| FsCode.FileSystem.FreeDirect | fs.c:398-403 | frees exactly the blocks of the direct pointers |
| FsCode.FileSystem.FreeIndirect | fs.c:405-415 | frees exactly the indirect entries' blocks and the indirect block |
| FsCode.FileSystem.Itrunc | fs.c:391-419 | frees exactly the inode's blocks, never reaches the panic for freeing a free block, leaves size 0 and all other files as they were |
| Dir.NamesUpdate | sysfile.c:215-217 | replacing a directory slot changes the count of names by exactly the old and the new entry |
| Dir.SumUpdate | sysfile.c:115-281 | replacing one inode changes the system-wide counts of names and of ".." by exactly that inode's share |
| Dir.RootedTree | sysfile.c:267-276 | from every linked directory, following ".." reaches the root in as many steps as its depth |
| Dir.TakeLink | sysfile.c:130-139 | taking a link before its name is entered keeps the counts, with one link pending |
| Dir.DropLink | sysfile.c:155-161 | the rollback of sys_link keeps the counts |
| Dir.EnterName | sysfile.c:141-148 | entering a pending link's name in a linked directory keeps counts, unique names and the tree |
| Dir.EnterFile | sysfile.c:258-280 | creating a file in a linked directory keeps counts, unique names and the tree |
| Dir.EnterDir | sysfile.c:258-280 | creating a directory with "." and ".." in a linked directory keeps counts, unique names and the tree |
| Dir.UnlinkFile | sysfile.c:215-225 | removing a file's name keeps counts, unique names and the tree |
| Dir.LoneDir | sysfile.c:208-221 | an empty named directory has one link, one name, no child, and the directory naming it as its parent with a link to spare |
| Dir.UnlinkDir | sysfile.c:208-225 | removing an empty directory keeps counts, unique names and the tree |
| Dir.FreeInode | fs.c:317-336 | freeing an inode without links keeps the counts and the tree |
| Dir.CreateFileNeedsLink | sysfile.c:258-280 | creating a file keeps the invariant if and only if the parent directory still has a link |
| Dir.CreateDirNeedsLink | sysfile.c:258-280 | creating a directory keeps the invariant if and only if the parent directory still has a link |
| Dir.EnterNameNeedsLink | sysfile.c:141-148 | entering a link's name keeps the invariant if and only if the directory still has a link |
| Dir.InitialInv | mkfs.c:117-128 | a file system with nothing but the root directory satisfies the invariant |
| DirCode.Dirlookup | fs.c:505-529 | the first slot in use with the name, or none exactly when the name is absent |
| DirCode.Dirlink | fs.c:532-559 | refuses an existing name, writes the first empty slot or the end, panics exactly when the directory is full |
| DirCode.Isdirempty | sysfile.c:164-178 | true exactly when no slot after the first two is in use |
| DirCode.FileTree.Ialloc | fs.c:176-196 | the first free inode, none exactly when all are taken |
| DirCode.FileTree.Create | sysfile.c:238-281 | an existing name is an error except a file asked for as a file; a new name is entered with its inode; panics exactly for no free inode or a full directory; in a linked directory the invariant is kept |
| DirCode.FileTree.LinkTake | sysfile.c:125-139 | refuses exactly directories, else takes a pending link |
| DirCode.FileTree.LinkEnter | sysfile.c:141-161 | enters the name or gives the link back, failing exactly on an existing name; in a linked directory the invariant is kept |
| DirCode.FileTree.LinkAbort | sysfile.c:155-161 | the rollback gives back exactly the pending link |
| DirCode.FileTree.Unlink | sysfile.c:181-236 | refuses exactly the dot names, missing names and directories that are not empty; else removes the name and adjusts both counts; the invariant is kept and no panic is reached |
| DirCode.FileTree.IputLast | fs.c:317-336 | the last put frees exactly an inode without links |
| DirCode.MkdirUnlink | sysfile.c:181-281 | mkdir and unlink of a directory still open leave a valid tree with an unlinked directory in use, and every other inode free |
| DirCode.CreateInUnlinked | sysfile.c:238-281 | from there creating a file, a device or a directory breaks the invariant whatever the plan: the states of the two equivalences about create occur |
| DirCode.LinkInUnlinked | sysfile.c:125-161 | and so do those of the one about link: a link taken to a file and entered there breaks the invariant whatever the plan |
| Icache.Iget | fs.c:220-252 | the scan takes the entry in use for the inode, else the first not in use, and panics exactly when all are in use for others |
| Icache.StepKeepsInv | fs.c:176-336 | every step of iget, ialloc, idup, ilock, iupdate, iunlock and the three stages of iput by any number of threads keeps counts, locks and copies right |
| Icache.StepKeepsSafe | fs.c:176-336 | a step keeps an inode being freed down to one reference, and a free one down to the iput that freed it, if and only if it is not an iget by number of an inode that is free or being freed |
| Icache.SafeRunsExactly | fs.c:176-336 | that stronger invariant holds in every state of a run exactly when inodes are asked for by number only while in use and not being freed |
| Icache.NamedIsAskable | fs.c:505-529 | an inode in use that has a link, as one named by a linked directory has, or that somebody outside iput refers to, as to the directory in which a dot is looked up, may be asked for |
| Icache.CacheCoherent | fs.c:220-336 | after any run the references to an inode share one entry that counts them, at most one holds the lock, an unlocked valid copy is the disk's, and iput's panic cannot happen |
| Icache.FreedAtLastReference | fs.c:262-336 | after any run in which inodes are so asked for an inode referred to outside iput is in use, ilock never misses its type, and an inode is freed only by its sole reference and without links |
| Icache.KeptWhileUsed | fs.c:311-336 | in such a run no step frees an inode while somebody outside iput refers to it |
| Icache.MissesExactly | fs.c:286-336 | along a run some ilock can be made to miss its type, by letting the iput in progress go on, if and only if an inode is asked for that is free or being freed |
| Icache.ImproperRunMisses | fs.c:286-336 | the steps of iput that follow the first such iget and lead to the missed type |
| Icache.ImproperGetFails | fs.c:286-336 | from every linked inode a reachable panic: the last link and the last reference go, and the inode is asked for by number while iput frees it, with the table lock given up, so that the next ilock finds no type |
| DirFile.SlotRoundTrip | fs.h:52-55 | decoding the sixteen bytes of a slot gives back the inode number and name encoded in them |
| DirFile.PutSlot | fs.c:553-556 | writing a slot's bytes at its offset, or at the end, changes exactly that slot of the directory |
| DirFile.ReadSlot | fs.c:515-516 | readi of sixteen bytes at a slot's offset gives that slot, with nothing changed |
| DirFile.Dirlookup | fs.c:505-529 | on the file's bytes: the first slot in use with the name, or none exactly when the name is absent |
| DirFile.Dirlink | fs.c:532-559 | on the file's bytes: exactly the first empty slot or the end receives the entry, all other files are unchanged, refused exactly for an existing name, a panic exactly for a full directory |
| DirFile.ClearSlot | sysfile.c:215-217 | unlink's zeros empty exactly one slot and change no other file, and the write cannot fail |
| Path.Skipelem | fs.c:564-599 | delivers the first of the path's names and leaves exactly the rest; a name is never empty, has no slash and at most DIRSIZ characters |
| Path.NamesGood | fs.c:564-599 | every name in a path is a good one |
| Path.Namex | fs.c:601-638 | the loop finds the inode where the path's names lead from the root or the current directory, or for nameiparent the directory holding the last name, and that name; it fails exactly when a name is missing or something before it is no directory, and panics exactly when it has to lock a free inode, never from the root or a linked directory |
| Path.NamedInUse | fs.c:505-529 | what a linked directory names is an inode in use that has a link |
| Path.LinkedNeverPanics | fs.c:601-638 | a walk from the root or any linked directory never locks a free inode, and what it reaches is in use |
| Path.PanicsExactly | fs.c:286-294 | namei and nameiparent both panic if and only if the path begins with dot elements that climb, by the second slots of directories, from the starting directory to a freed inode and does not end there |
| Path.LoseParent | sysfile.c:181-236 | mkdir a, mkdir a/b, chdir a/b, unlink of both and the last iput, run on a file tree of any four or more inodes, leave a valid tree in which b is unlinked and its parent entry names the freed a |
| Path.ClimbPanics | fs.c:286-294 | there namex of ../x panics |
| Path.WalkAppend | fs.c:601-638 | resolving a path in two parts is resolving it at once |
| Path.ParentThenLookup | fs.c:640-651 | namei of a path is dirlookup of nameiparent's name in nameiparent's directory, and fails or panics when nameiparent does |
| Path.DownAndUp | fs.c:601-638 | the name of a linked directory in its parent leads down to it, ".." leads back and "." leads nowhere else |
| Path.NamesOfSpell | fs.c:564-599 | splitting a path that spells good names gives the names back |
| Path.NameiFindsDirectory | fs.c:601-645 | every linked directory has an absolute path by which namei finds it from any current directory |
| ProcTable.Table.Wakeup1 | proc.c:392-403 | exactly the sleepers on the channel become runnable |
| ProcTable.Table.PassChildren | proc.c:199-206 | every child goes to init, which is woken if one of them is already dead |
| ProcTable.Table.TakeSlot | proc.c:34-50 | the first unused slot becomes an embryo with the next pid, the table is unchanged when there is none |
| ProcTable.Table.ReapOne | proc.c:222-250 | the first dead child is reaped and its pid returned, else the table is unchanged and the children are reported |
| ProcTable.Table.Kill | proc.c:414-435 | the first slot with the pid is marked and woken |
| ProcRuns.StepKeepsInv | proc.c:34-435 | every step of scheduler, fork, exit, wait, sleep, wakeup, yield, kill and other spinlocks keeps the invariant of the whole machine, with interrupts and preemption wherever interrupts are on: in kernel code, in the middle of fork and before sleep takes its lock again |
| ProcRuns.RunInv | proc.c:34-435 | the invariant holds after every run from boot, for any number of slots and CPUs |
| ProcRuns.ExitWaitSafety | proc.c:172-255 | after any run no process asleep in wait has a dead child, and every process but the first that is not unused or an embryo has a live parent |
| ProcRuns.ReapedAtMostOnce | proc.c:172-255 | after any run no CPU runs on a freed kernel stack, every pid exits and is reaped at most once, and an unreaped exit is still a zombie |
| ProcRuns.ReapIsSafe | proc.c:216-255 | what wait reaps is its own child, exited and not reaped before, and off every CPU |
| ProcRuns.SchedChecksHold | proc.c:304-322 | after any run, where sched is called ptable.lock is held by this CPU, it is the only lock held, and the state is not RUNNING; a dead process is never dispatched |
| ProcRuns.ForkIsPreempted | proc.c:123-165 | a reachable state in which a forking process is switched off and runnable while its child is an embryo: the runs do cover preemption inside fork |
| ProcLocks.StepKeepsLocks | proc.c:304-322 | every step keeps the number of locks of each CPU at what the code it runs has taken |
| ProcRuns.WakeupFindsSleeper | proc.c:355-412 | a wakeup issued under the lock finds every process that called sleep with that channel and lock sleeping on it or awake again, and leaves it awake |
| ProcRuns.AwakeStaysAwake | proc.c:355-390 | no step of anyone puts a woken process back to sleep within the same call of sleep |
| ProcRuns.NoLostWakeup | proc.c:355-412 | for any run, any wakeup under the lock and any continuation: a process inside that call of sleep is awake at the end |
| FreeList.InsertOrdered | umalloc.c:24-44 | inserting and joining keeps the list ordered, disjoint and fully coalesced |
| FreeList.InsertUnits | umalloc.c:24-44 | inserting and joining adds exactly the freed units |
| FreeList.TakeOrdered | umalloc.c:74-87 | taking the tail of a block keeps the list ordered and coalesced |
| FreeList.TakeUnits | umalloc.c:74-87 | the units taken and the units left are exactly those before, and disjoint |
| FreeList.UnitsCount | umalloc.c:20-44 | an ordered list covers exactly as many units as its sizes add up to |
| FreeList.Canonical | umalloc.c:20-44 | an ordered coalesced list is determined by the units it covers |
| Umalloc.UnitsFor | umalloc.c:63-69 | enough units for the bytes and a header, and no more than needed |
| Umalloc.RequestsServed | umalloc.c:46-69 | of all 32-bit requests exactly those up to 2^31 - 16 bytes get units enough with sbrk asked for just those: beyond, the product or the rounding wraps, or sbrk's int is negative |
| Umalloc.StopsExactly | umalloc.c:24-32 | free's loop test, wrap-around case included, holds exactly at the block below the freed address |
| Umalloc.RelinkFreed | umalloc.c:33-43 | free's header assignments are those of the two joins |
| Umalloc.FreedLinks | umalloc.c:33-43 | after those assignments the headers link the enlarged list into a circle |
| Umalloc.RelinkTaken | umalloc.c:74-85 | malloc's header assignments for a block taken whole or cut at its tail |
| Umalloc.TakenLinks | umalloc.c:74-85 | after those assignments the headers link the reduced list into a circle and the new block records its size |
| Umalloc.HoldRelease | umalloc.c:24-90 | freeing a block undoes allocating it |
| Umalloc.UnitsConserved | umalloc.c:24-90 | free units plus allocated units are exactly the units obtained from sbrk |
| Umalloc.Heap.Free | umalloc.c:24-44 | the block returns to its place, joined with its neighbours; free list, circle and books stay balanced |
| Umalloc.Heap.FindPlace | umalloc.c:29-32 | the search round the circle ends at the block below the freed one |
| Umalloc.Heap.Morecore | umalloc.c:46-61 | fails exactly when sbrk does; else the new units are on the free list and some block fits the request |
| Umalloc.Heap.Search | umalloc.c:74-89 | one round of the circle finds the first block that fits, or none exactly when none fits |
| Umalloc.Heap.Malloc | umalloc.c:63-90 | calls morecore at most once, exactly when no free block fits; fails exactly when that call fails; else a fresh block of the right size is allocated and the books stay balanced |
| Vm.KallocAccounts | kalloc.c:82-95 | the head of the free list leaves it and every managed frame stays accounted for once |
| Vm.KfreeAccounts | kalloc.c:59-77 | a returned frame is on the list once and every managed frame stays accounted for once |
| Vm.NewTable | vm.c:45-65 | hooking in a zeroed table changes no mapping and keeps frame ownership |
| Vm.EntryMaps | vm.c:79-83 | writing one table entry changes the mapping of exactly that page of that directory |
| Vm.MapPage | vm.c:79-83 | mapping an unmapped user page to a frame in hand keeps frame ownership |
| Vm.UnmapPage | vm.c:263-269 | unmapping a user page releases exactly its frame |
| Vm.Detach | vm.c:277-292 | giving up an address space leaves the ownership of all others intact |
| Vm.SkipSound | vm.c:259-262 | deallocuvm's stride over missing tables skips no mapped page from an aligned start, from a page that has a table, or in a contiguous prefix |
| Vm.SkipUnsound | vm.c:259-262 | a sound memory with 1024-entry tables in which the stride from page 1 misses the mapped page 1024 |
| VmCode.Kernel.constructor | kalloc.c:45-52 | freerange puts every managed frame on the free list exactly once |
| VmCode.Kernel.Kalloc | kalloc.c:82-95 | the first free frame, none exactly when the list is empty; accounts kept |
| VmCode.Kernel.Kfree | kalloc.c:59-77 | the frame is filled with junk and becomes the head of the list; no mapping changes |
| VmCode.Kernel.Walkpgdir | vm.c:45-65 | succeeds exactly when there is a table or one may be made and memory is left; no mapping and no data change |
| VmCode.Kernel.MapOne | vm.c:79-83 | panics exactly on a mapped page; without memory for a table nothing changes; else exactly that page is mapped |
| VmCode.Kernel.Mappages | vm.c:70-90 | exactly the requested pages are mapped, in order, to the frames given, and nothing else changes; when table frames run out exactly the first k are; panics only on a mapped page |
| VmCode.Kernel.Deallocuvm | vm.c:249-273 | exactly the mapped pages in the range, the stepped-over ones apart, are unmapped and their frames freed once |
| VmCode.Kernel.Freevm | vm.c:277-292 | every frame of the address space, pages, tables and directory, is back on the free list exactly once and the other address spaces are unchanged |
| VmCode.Kernel.Allocuvm | vm.c:220-243 | sizes in the kernel's half are refused and smaller ones change nothing; else every new page is mapped, user-writable, to its own zeroed frame; when kalloc fails every page mapped is unmapped again and only tables stay; a failing mappages loses one frame, and for the last page goes unnoticed; two free frames a page rule that out |
| VmCode.Kernel.AllocPages | vm.c:230-242 | the loop of allocuvm, page by page, with the same outcomes |
| VmCode.SkipMisses | vm.c:249-273 | deallocuvm on that memory from page 1 leaves page 1024 mapped |
| VmCode.Kernel.Setupkvm | vm.c:128-144 | a new address space with exactly the kernel's mappings; without memory everything else is unchanged and the unfinished directory is lost; panics only if PHYSTOP is too high or ranges overlap |
| VmCode.KernelMapFits | vm.c:115-138 | the kernel's four ranges overlap if and only if PHYSTOP is too high, so after the check mappages cannot panic |
| VmCode.Kernel.Copyuvm | vm.c:309-337 | every page of the child has the parent's bytes and flags in a frame that belonged to nobody, beside the kernel's mappings; the parent and others are unchanged; when memory runs out every place is as before and at most one frame is lost, or setupkvm's directory is; panics only on a missing page or in setupkvm |
| Ring.WrapIndex | pipe.c:92 | a counter that wraps at 2^32 still gives the right index into the ring |
| Ring.WrapWindow | console.c:250 | a window of the ring starting at a wrapped counter is the window without wrapping |
| Console.TypedOk | console.c:189-230 | every key keeps the ring within bounds, a full ring fully committed, and only extends what is committed |
| Console.BackspaceUndoes | console.c:207-217 | an accepted character followed by backspace leaves the line as it was |
| Console.DeliverPrefix | console.c:232-268 | one read takes the first committed characters in order and consumes a ^D only as a zero-length result |
| Console.DeliverStops | console.c:232-268 | a read that returns nothing has met a ^D, one that sleeps has taken everything, and one that stops early without a newline has left a ^D |
| Console.EofAfterData | console.c:238-268 | data before a ^D is returned whole, the next read returns nothing, and the one after goes on behind the ^D |
| Console.EofTaken | console.c:238-268 | a stretch of a reader's loop takes a ^D exactly when the call returns empty |
| Console.OneEofEach | console.c:189-268 | for every interleaving of keys and readers, sleeping ones included, the calls that return empty and the ^Ds not yet read add up to the ^Ds there were and those typed |
| Console.InOrder | console.c:189-268 | for every interleaving of keys and readers, what readers take is exactly what keys committed, in order |
| Console.Input.Key | console.c:196-226 | the ring and its wrapping indices follow the line discipline for every key |
| Console.Input.KillLine | console.c:200-205 | ^U drops exactly the uncommitted line |
| Console.Input.Read | console.c:238-268 | the read loop delivers from the ring what the line discipline says |
| Pipe.Ringbuf.Put | pipe.c:82-93 | bytes enter in order until the ring is full, under wrapping counters |
| Pipe.Ringbuf.Get | pipe.c:112-116 | the oldest bytes leave in order, under wrapping counters |
| Pipe.Ringbuf.RunWrite | pipe.c:77-99 | pipewrite on the ring, from one acquisition of the lock to the next release, is the machine's step: the same contents, the same thread state and the same wakeups |
| Pipe.Ringbuf.RunRead | pipe.c:101-121 | piperead on the ring likewise, and what it returns is what the machine's step delivers |
| Pipe.StreamKept | pipe.c:58-120 | every step keeps accepted = delivered + buffered with at most 512 buffered |
| Pipe.SleepKept | pipe.c:77-120 | a step keeps sleepers justified if and only if it is not a killed writer filling the pipe past a sleeping reader |
| Pipe.PipeStream | pipe.c:58-120 | for every interleaving the bytes delivered are a prefix of the bytes accepted |
| Pipe.SleepersHaveReason | pipe.c:77-120 | without that step, whenever the lock is free a sleeping reader means an empty pipe and a sleeping writer a full one |
| Pipe.NoKillNoStranding | pipe.c:77-120 | that step cannot occur in a run in which nobody is killed |
| Pipe.KilledWriterStrandsReader | pipe.c:85-88 | a concrete run after which a reader sleeps on a full pipe |
| Grep.DenotesStar | grep.c:98-106 | a starred item matches exactly some number of leading instances followed by the rest |
| Grep.MatchHere | grep.c:84-96 | true exactly when a prefix of the text is in the language of the pattern |
| Grep.MatchStar | grep.c:98-106 | true exactly when some number of instances is followed by a match of the rest |
| Grep.Match | grep.c:72-82 | true exactly when the pattern matches at some position, or only at the first after ^ |
| Shell.GetToken | sh.c:266-309 | tokens advance within the line, the end gives NUL exactly there, and a word token is a whole word |
| Shell.Gettoken | sh.c:266-309 | the token loop computes that token |
| Shell.Redirlist | sh.c:375-398 | the redirection loop collects every redirection in order, or panics on a missing file name |
| Shell.Parseargs | sh.c:416-447 | the argument loop collects words and redirections in order, and panics on a bad token or too many words |
| Shell.ParseLine | sh.c:345-360 | parsing terminates on every line, moves forward within it, and records only whole words of it |
| Shell.CutKeeps | sh.c:449-494 | terminating changes no character of any word and removes no NUL |
| Shell.WordsTerminated | sh.c:328-343 | after parsing and terminating, every recorded word read as a C string is its token |
| Shell.Nulterminate | sh.c:449-494 | the buffer receives a NUL exactly where the specification puts one |
| ShellPrint.RoundTrip | sh.c:328-447 | parsing the fully parenthesised print of any command tree with at most nine words a command gives that tree back |

## Left out

- Hardware, boot, interrupt enabling (`pushcli`, `popcli`: a CPU that holds a lock takes no interrupt),
  system-call argument fetching, `exec`: no deep invariant; `swtch` is one atomic step.
- Lock acquisition inside the file system and the memory code: those operations are modelled one
  at a time, as the locks they hold make them; interleavings are modelled for the log, inode cache,
  processes, disk queue, pipe and console.
- The log's step machine has as many buffers as it needs; the fixed number of buffers is in
  `Bio.BufferCache`, whose `Bget` reports when none is left.
- Log.CrashAtomicity: the header found on the disk is one the log wrote, naming at most LOGSIZE
  distinct blocks outside the log; log.c does not check it either.
- The link between a file write of fs.c and the log: `filewrite` sizes its chunks by LOGSIZE, so the
  allowance of MAXOPBLOCKS blocks per operation is a hypothesis of the step machine.
- Device inodes in `readi` and `writei`, and device errors in ide.c: foreign behaviour.
- `Icache` takes it from its callers that a changed inode is copied to the disk before it is unlocked
  and that `iput` is not called with the inode locked; `DirCode` frees an inode when told that it is the
  last use, which `Icache` decides.
- A header that overruns the region is followed in the machine only up to what commit and recovery
  then do to home blocks; `LogCode.InMemoryLog` keeps the header within the region.
- `FsCode` keeps the bitmap as a sequence of booleans, which `Bitmap.Bits` reads off the bytes, and
  `DirCode` keeps directories as sequences of slots, which `DirFile.Slots` reads off the files; the
  tree operations are not run on the bytes as a whole.
- DirFile.Dirlink: inode numbers below 2^16 and names without zero bytes, as C strings are.
- `copyout`, `loaduvm`, `inituvm`, `clearpteu`, and `growproc`.
- VmCode.Kernel.Allocuvm: the pages above the old size are unmapped, as the size of a process says;
  otherwise mappages panics.
- VmCode.Kernel.Mappages: virtual and physical addresses are page numbers; the rounding of
  unaligned addresses is not modelled.
- Umalloc.Heap.Malloc: the request is at most 2^31 - 16 bytes, the requests that `RequestsServed` shows
  to be the ones served; larger ones are not modelled.
- Umalloc.Heap.Morecore: takes sbrk's answer to the request for the units, without the wrapping of
  larger ones.
- Umalloc.Heap.constructor: base lies below everything sbrk returns, as it does in a program's data.
- Overflow of pids and link counts.
- Console echo, the process listing, `consolewrite`, and the -1 a killed process gets from `consoleread`.
- Device numbers in the drivers' checks.
- `pipealloc` and the memory of a pipe after both ends are closed.
- grep's read loop and the shell's `runcmd`.
