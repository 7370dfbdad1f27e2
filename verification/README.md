# xv6 in Dafny

A model of the parts of xv6 (the x86 teaching kernel and its user library) where correctness is
hard, with proofs. Code that changes things in place is imperative here too: classes and methods
with loops, proved against functions of the old state; what those functions promise is proved as
lemmas. Concurrency is modelled as transition systems whose steps are critical sections or single
block writes, and the main results are statements about every state of every run.

The layers, bottom up:

* **Disk and buffer cache.** `Buffer`, `BufList` (the LRU ring through `prev` and `next`),
  `BufState`, `BufRun` (all runs of bget, bread, log_write, bwrite, brelse) and `Bio` (the code).
  `IdeState`, `IdeRun` and `IdeDriver` are the interrupt-driven disk, proved to do what the
  in-memory disk `memide.c` does, one request at a time, in the order the requests were made.
* **Log.** `LogState` and `LogCrash` (commit and recovery one block write at a time, with crashes),
  `Log` (the code), `LogRun` (group commit over all interleavings and crashes), `LogSpace` (when the
  log region is large enough, and what happens when it is not), `LogFull` (when a commit runs out of
  buffers) and `LogCache` (the pinned blocks in the buffer cache).
* **Inodes, directories, paths.** `Bitmap`, `Dinode`, `FsState` (block ownership), `FsGrow`,
  `FsData`, `FsStep`, `FsBytes`, `FsWrite`, `FsTrunc`, `FileSystem` (the code), `File` (filewrite and
  fileread), `DirState`, `Directory`, `Path`, `Namei`. `FsFormat`, `MkfsStep` and `Mkfs` are mkfs.
  `FsShare`, `FsShareRun` and `FsShareSteps` are this layer with any number of operations at once, each
  under the locks of the inodes it works on. `FsCrash` joins it to the log: the file system survives every crash if
  operations, together, leave it consistent whenever the last of them ends, as overlapping operations
  under the inode locks do.
* **Processes.** `Sleep` proves one theorem about sleep and wakeup for any client that keeps a
  stated discipline; `SleepLock`, `LogWait`, `ProcWait` and `PipeRun` are its four clients. `Pipe` is
  the ring buffer. `ProcState`, `ProcRun` and `Proc` are the process table.
* **Memory.** `VmState`, `VmStep`, `VmFree`, `VmRoom` (how many pages are needed) and `Vm` are the page
  allocator and the two-level page tables; `FreeList`, `HeapStep` and `Umalloc` are the user-level allocator.
* **Two language pieces.** `ShGrammar`, `ShLex` and `Shell` are the shell's parser, `Grep` the
  regular-expression matcher.

A panic of the kernel appears as a result (`ok == false`, `Err`, an outcome) where callers can cause
it, and as an unreachable case, proved so, where the design excludes it. `hide` keeps definitions out
of proofs that do not need them.

Places where the code does less than it seems to, each with a lemma that shows it and one that says
exactly when it does what is wanted:

* log_write's tests come before it takes the lock, and mkfs makes the log region LOGSIZE blocks, one
  short of LOGSIZE entries and a header. An operation within its quota can be refused:
  `LogSpace.RefusedEarly`, `LogSpace.QuotaExactly`. The header can outgrow the region:
  `LogSpace.Overflow`, `LogSpace.RoomyExactly`. In a region of fewer than LOGSIZE blocks write_log then
  writes over the first inode block before anything is committed: `LogSpace.OverflowDamages`. In the
  region that mkfs makes it does not, because NBUF is no larger than LOGSIZE: a header that is too long
  has every buffer pinned. So group commit holds of every run there: `LogRun.GroupCommit`,
  `LogSpace.AtomicExactly`.
* For the same reason a commit of NBUF blocks panics in bget, before its first write:
  `LogFull.CommitPanics`, `LogFull.PanicsExactly`, `LogRun.NeverStuck`.
* A writer killed at a full pipe returns without waking the readers:
  `PipeRun.KilledWriterLosesWakeup`, `PipeRun.WakeupsExactly`.
* malloc's size arithmetic wraps for requests near 4 GB, and sbrk takes an int:
  `Umalloc.RightSizeExactly`, `Umalloc.Allocator.Malloc`.
* dirlink stores inode numbers in 16 bits: `DirState.LinkFindsOwn`.
* mkfs rounds the root directory's size up to the next block even when its entries fill their blocks
  exactly, as the 32 entries for 30 files do; the last block of the directory is then missing:
  `Mkfs.ThirtyFiles`, `MkfsStep.RootSizeExactly`, `Mkfs.MakeFs`.

## Model

| member | source | states |
|---|---|---|
| LogState.HeaderRoundTrip | xv6/log.c:84-113 | the list written by write_head over any old header block is the list read_head reads back |
| LogState.AdvanceIsAtomic | xv6/log.c:177-202 | every single block write of commit and recovery keeps the invariant and what a replay would produce, except the header write, which switches from the old contents to all the new ones |
| LogCrash.CommitIsAtomic | xv6/log.c:192-202 | a commit stopped after any number of its writes stands for the old contents up to the header write, and for the cached contents after it |
| LogCrash.CommitFinishes | xv6/log.c:192-202 | after its last write no transaction and no pinned buffer is left |
| LogCrash.RecoveryKeepsMeaning | xv6/log.c:115-122 | any prefix of recovery keeps what the disk and its log stand for together |
| LogCrash.CrashAtomicity | xv6/log.c:69-122 | cut a commit off anywhere, cut recovery off any number of times anywhere, let it finish: home blocks are all old or all new, as the header write decides |
| Log.CommitTrace | xv6/log.c:177-202 | every disk state that commit passes through stands for the old or for the new contents |
| Log.RecoveryTrace | xv6/log.c:115-122 | every disk state that recovery passes through stands for the replayed contents |
| LogState.WriteLogBuffers | xv6/log.c:181-184 | while write_log runs it needs one buffer more than there are entries |
| Log.EnoughBuffers | xv6/log.c:181-202 | a commit of fewer than NBUF blocks finds its buffers at every write |
| Log.Log.constructor | xv6/log.c:53-66 | boot: only the disk survives |
| Log.Log.WriteLog | xv6/log.c:176-190 | panics, with nothing written, exactly when NBUF blocks are listed; otherwise the loop makes exactly the machine's log writes, one a round |
| Log.Log.WriteHead | xv6/log.c:98-113 | the header block on disk lists the in-memory header |
| Log.Log.ReadHead | xv6/log.c:84-96 | the in-memory header is the disk's |
| Log.Log.InstallTrans | xv6/log.c:68-82 | the loop makes exactly the machine's home writes, one a round |
| Log.Log.Commit | xv6/log.c:192-202 | panics, with nothing written, exactly when NBUF blocks are listed; otherwise home blocks end with the cached contents, and each state passed through is the old or the new contents |
| Log.Log.RecoverFromLog | xv6/log.c:115-122 | home blocks end with the replayed contents; the log is empty; each state passed through means the same |
| Log.Log.TryBegin | xv6/log.c:124-141 | joins exactly when no commit runs and every reservation still fits |
| Log.Log.LogWrite | xv6/log.c:213-233 | absorbs or appends the block and pins it; refuses exactly by the three tests |
| Log.Log.EndOp | xv6/log.c:143-174 | leaves the group, and commits it when it was the last one out; panics exactly while a commit runs or when that commit finds no buffer |
| LogRun.RunKeeps | xv6/log.c:124-233 | the invariant holds after every prefix of every run of begins, tests, appends, ends, block writes, panics and crashes, as long as no commit has written past the region |
| LogRun.GroupCommit | xv6/log.c:145-174 | in every run of a log whose region has at least LOGSIZE blocks or whose tests are not separated from the append, and in every other run until a commit writes past the region: committing excludes active operations, end_op's panic is unreachable, and the recovered disk is the effect of exactly the committed groups, made only of operations that had ended |
| LogRun.CommittedGrows | xv6/log.c:192-202 | committed groups are never taken back |
| LogRun.NeverStuck | xv6/log.c:177-202 | a commit or recovery under way makes its next write, except that write_log panics for want of a buffer exactly when it starts with NBUF blocks listed, and then nothing has changed |
| LogRun.SpaceBound | xv6/log.c:132-136 | in every run, for any region: header entries plus what active operations may still add never exceed LOGSIZE, a commit excludes active operations, and the panics of end_op and of a log_write outside a transaction are unreachable |
| LogRun.RoomyContains | xv6/log.c:213-233 | when tests and append are not separated, or the region has a block for each of LOGSIZE entries, the header stays within the region in every run |
| LogRun.SafeKeeps | xv6/log.c:124-233 | when tests and append are not separated, or the region has at least LOGSIZE blocks, no commit of any run writes past the region, and the invariant holds |
| LogRun.QuotaIsHonoured | xv6/log.c:218-221 | with a region of more than LOGSIZE blocks no operation within its quota is refused |
| LogSpace.RefusedEarly | xv6/log.c:218-219 | with a region of at most LOGSIZE blocks, as mkfs makes it, an operation that has logged fewer than MAXOPBLOCKS blocks can be refused |
| LogSpace.QuotaExactly | xv6/log.c:218-221 | no run refuses an operation with quota left if and only if the region has more than LOGSIZE blocks |
| LogSpace.Overflow | xv6/log.c:218-230 | two operations that pass the tests together can list one block more than the region holds |
| LogSpace.RoomyExactly | xv6/log.c:213-233 | the header stays within the region in every run if and only if tests and append are not separated or the region has a block for each of LOGSIZE entries |
| LogSpace.OverflowDamages | xv6/log.c:176-190 | for a region of fewer than LOGSIZE blocks, a run in which write_log puts any given contents on the first block after the log with nothing committed and an empty header on disk |
| LogSpace.AtomicExactly | xv6/log.c:176-233 | in every state of every run the disk stands for exactly the committed groups, if and only if tests and append are not separated or the region has at least LOGSIZE blocks |
| LogFull.RunBounded | xv6/log.c:213-233 | in every run the header lists at most one block more than the region has, or one block fewer if tests and append are not separated; blocks are pinned only while listed |
| LogFull.PanicNeedsFull | xv6/log.c:181-184 | in no run, damaged or not, does a write lack a buffer unless it is a commit of NBUF blocks |
| LogFull.CommitPanics | xv6/bio.c:78-92 | a run of three operations with MAXOPBLOCKS blocks each whose commit panics for want of a buffer |
| LogFull.PanicsExactly | xv6/bio.c:78-92 | no run panics for want of a buffer if and only if the header cannot come to list NBUF blocks; with the region mkfs makes it can |
| LogCache.PinnedPanics | xv6/bio.c:61-93 | in any state of the buffer cache: at most NBUF blocks are pinned; with NBUF pinned bget panics for every other block; with fewer and no buffer referenced it panics for none |
| LogCache.GuardIsBget | xv6/log.c:183-184 | when the log machine has no buffer for a round of write_log, bget panics for the log block; when it has and no buffer is referenced, bget finds one; the listed block is always found |
| BufList.UnlinkKeeps | xv6/bio.c:132-133 | taking a buffer out leaves the ring of the others |
| BufList.PushKeeps | xv6/bio.c:134-137 | putting it behind the head makes it the first of the ring |
| BufState.NextKeeps | xv6/bio.c:61-141 | every step keeps: each buffer once on the list, the list sorted by release time, no block in two buffers, buffers and disk together hold what was recorded |
| BufRun.RunKeeps | xv6/bio.c:38-141 | so in every state of every run by any number of processes |
| BufRun.BreadSeesRecorded | xv6/bio.c:96-106 | bread returns the contents last recorded for the block |
| BufRun.InUseIsKept | xv6/bio.c:78-91 | no step changes the block of a referenced or dirty buffer; only its holder changes its data; only bwrite makes it clean |
| BufRun.RecordedChanges | xv6/log.c:213-233 | what is recorded for a block changes only by log_write or bwrite on it |
| BufRun.PinnedUntilWritten | xv6/bio.c:78-91 | a dirty buffer keeps its block until it is written |
| BufRun.RecordStands | xv6/log.c:213-233 | between two records of a block, what is recorded stands |
| BufRun.LaterBreadSeesIt | xv6/log.c:177-190 | the bread in write_log returns what log_write recorded |
| BufRun.CleanEqualsDisk | xv6/bio.c:96-106 | a valid, clean, unheld buffer equals the disk |
| BufRun.PickIsUnique | xv6/bio.c:61-93 | bget has no choice of buffer |
| BufRun.VictimIsOldest | xv6/bio.c:78-91 | the recycled buffer was released longest ago among the unreferenced clean ones |
| BufRun.PanicsWhen | xv6/bio.c:61-93 | bget panics exactly when the block is not cached and every buffer is referenced or dirty |
| Bio.BufferCache.constructor | xv6/bio.c:38-56 | binit links all buffers into the ring |
| Bio.BufferCache.Lookup | xv6/bio.c:68-76 | the forward search finds the block's buffer or proves there is none |
| Bio.BufferCache.Victim | xv6/bio.c:78-92 | the backward search finds the last free buffer or proves there is none |
| Bio.BufferCache.Get | xv6/bio.c:61-93 | the cache after bget is the one the machine's step gives, on the buffer it picks |
| Bio.BufferCache.Acquire | xv6/bio.c:96-106 | the buffer is locked and holds the block |
| Bio.BufferCache.Iderw | xv6/memide.c:38-60 | writes a dirty buffer or reads an invalid one, and nothing else |
| Bio.BufferCache.Bwrite | xv6/bio.c:108-116 | the block is on disk and the buffer clean |
| Bio.BufferCache.Drop | xv6/bio.c:126-141 | one reference less, and to the front of the ring with the last one |
| Bio.BufferCache.MoveToHead | xv6/bio.c:130-137 | the buffer becomes the first of the ring, the others keep their order |
| IdeState.CommandTarget | xv6/ide.c:72-100 | the ports name the sector and drive of the buffer's block |
| IdeState.NextKeeps | xv6/ide.c:102-168 | queue without duplicates, its head the request given to the device, sleepers served exactly when out of the queue |
| IdeState.StepRefines | xv6/ide.c:102-168 | every step is memide's iderw of the first request, or no step of memide at all |
| IdeState.QueueMoves | xv6/ide.c:102-131 | while requests wait, the device works or its interrupt is up |
| IdeState.ReturnsWhenServed | xv6/ide.c:161-164 | the wait loop ends exactly when the request has left the queue |
| IdeRun.RunKeeps | xv6/ide.c:102-168 | the queue invariant in every state of every run |
| IdeRun.IderwLikeMemide | xv6/ide.c:137-168 | a call of iderw does, at one moment between call and return, what memide's iderw does: same flags, data and disk |
| IdeRun.DiskChangesWhenServed | xv6/ide.c:102-131 | the disk changes at no other moment |
| IdeRun.FirstInFirstOut | xv6/ide.c:151-155 | served requests followed by waiting ones are the submitted ones, in order |
| IdeRun.HeadIsActive | xv6/ide.c:102-129 | the head of the queue is the command the device has |
| IdeDriver.Driver.Submit | xv6/ide.c:137-159 | appends through the qnext links; starts the device exactly when the queue was empty |
| IdeDriver.Driver.EndOfQueue | xv6/ide.c:153-154 | the pointer-to-pointer walk ends at the last link |
| IdeDriver.Driver.Interrupt | xv6/ide.c:103-131 | pops and completes the head, starts the next request |
| IdeDriver.Driver.Start | xv6/ide.c:72-100 | the command for the buffer, with none of the panics |
| FsState.PointersDistinct | xv6/fs.c:372-400 | two positions that hold the same nonzero block number are the same position |
| FsGrow.GrowKeeps | xv6/fs.c:372-400 | one more mapped block keeps ownership, bits and contents in order |
| FsGrow.TableKeeps | xv6/fs.c:385-389 | so does a fresh indirect block |
| FsData.StoredKeeps | xv6/fs.c:220-236 | iupdate makes that dinode agree and disturbs no other |
| Dinode.DinodeRoundTrip | xv6/fs.c:220-236 | a stored dinode is read back, its neighbours are untouched |
| Bitmap.BlockBitOfSet | xv6/fs.c:66-68 | setting a bit changes that bit only |
| FsBytes.WroteStep | xv6/fs.c:498-504 | one round of writei's loop writes those bytes of that file and no others |
| FsWrite.ChunkTouches | xv6/file.c:126-133 | a chunk touches and newly maps at most seven blocks together |
| FsWrite.ChunkBill | xv6/file.c:126-133 | with the inode, indirect block and one bitmap block an allocation, a chunk logs at most MAXOPBLOCKS blocks |
| FsTrunc.HeldIsOwned | xv6/fs.c:407-435 | the blocks an inode points to are exactly those it owns |
| FsTrunc.NextIsHeld | xv6/fs.c:81-95 | the next block itrunc frees is allocated: "freeing free block" is unreachable |
| FsTrunc.TruncKeeps | xv6/fs.c:407-435 | with its blocks free and pointers zero the invariant holds without them |
| FsTrunc.TruncBill | xv6/fs.c:407-435 | truncating a file of any length logs at most as many blocks as the bitmap has, and one |
| FsStep.FreeCount | xv6/fs.c:53-78 | the clear bits are as many as the data blocks that no file owns |
| FsStep.PutInodeKeeps | xv6/fs.c:216-236 | an inode written with the same pointers changes no byte of any file |
| FsFormat.FormattedInv | xv6/mkfs.c:110-115 | the zeroed image that mkfs starts from, with the bitmap it would write, satisfies the invariant |
| MkfsStep.MarkedTake | xv6/mkfs.c:271-285 | counting up a free block is what balloc in the kernel does to the image with its bitmap |
| MkfsStep.RoundedBlocks | xv6/mkfs.c:158-163 | rounding the size adds a block exactly when the size fills its blocks |
| MkfsStep.RootSizeExactly | xv6/mkfs.c:158-163 | rounding a directory's size leaves a consistent file system, under some assignment of owners, if and only if its entries do not fill its blocks exactly |
| Mkfs.Zeroes | xv6/mkfs.c:110-111 | an image of zero blocks |
| Mkfs.Balloc | xv6/mkfs.c:237-253 | the bitmap block with exactly the first bits set |
| Mkfs.Image.Rinode | xv6/mkfs.c:197-208 | the dinode on the image is the inode |
| Mkfs.Image.Winode | xv6/mkfs.c:183-195 | the inode is on the image, its neighbours are as before |
| Mkfs.Image.Ialloc | xv6/mkfs.c:223-235 | the next inode, of that type, with one link and no content, exactly when there is one; no other file changes |
| Mkfs.Image.MapBlock | xv6/mkfs.c:266-285 | the block of that position, taken only at the end of the file; succeeds exactly when there are blocks for it and, if need be, for the table |
| Mkfs.Image.Iappend | xv6/mkfs.c:255-297 | the bytes are added at the end of that file and no other file changes; succeeds exactly when the file stays within MAXFILE blocks and there are blocks for it |
| Mkfs.Image.CopyIn | xv6/mkfs.c:152-153 | the new file holds the host file's bytes |
| Mkfs.Image.AddFile | xv6/mkfs.c:130-156 | one more directory entry and the file it names |
| Mkfs.Image.Finish | xv6/mkfs.c:158-165 | the rounded root size and the bitmap are on the disk, which is consistent exactly when the root's entries do not fill its blocks |
| Mkfs.ThirtyFiles | xv6/mkfs.c:158-163 | with 30 files, rounding the root's size leaves an inconsistent file system |
| Mkfs.MakeFs | xv6/mkfs.c:67-168 | succeeds exactly when the files fit; leaves the log empty; the disk is a consistent file system if and only if the root's entries do not fill its blocks exactly, and then it holds the root directory, padded with free entries, and every file |
| FileSystem.FileSystem.Balloc | xv6/fs.c:55-78 | the first block with a clear bit, now set, the block zeroed; panics exactly on a full bitmap |
| FileSystem.FileSystem.Bfree | xv6/fs.c:80-95 | clears that bit; panics exactly when it is clear |
| FileSystem.FileSystem.Bmap | xv6/fs.c:370-400 | the block mapped at bn, allocated only when the file is being extended by it; fails exactly when the blocks it takes, with the indirect block if need be, are more than are free |
| FileSystem.FileSystem.Readi | xv6/fs.c:464-476 | the slice of the file's bytes, with nothing allocated |
| FileSystem.FileSystem.Writei | xv6/fs.c:493-511 | -1 and no change, or a splice of the file's bytes; runs out of blocks exactly when the extension takes more than are free, and otherwise takes exactly so many; the disk inode agrees with memory; no other file changes; every block changed is logged, at most MAXOPBLOCKS of them for a chunk; its log_writes alone take a consistent file system to a consistent one, and are those of steps of the shared layer under the inode's lock |
| FileSystem.FileSystem.Iupdate | xv6/fs.c:220-236 | the dinode on disk is the inode in memory |
| FileSystem.FileSystem.Itrunc | xv6/fs.c:407-435 | frees exactly the inode's blocks, each once; logs exactly the bitmap blocks with their bits and the inode's block, which are at most the bitmap and one more; the log_writes alone take a consistent file system to a consistent one, and are those of steps of the shared layer under the inode's lock |
| FileSystem.FileSystem.FreeInode | xv6/fs.c:339-345 | nothing is left of the inode but its zero type; every other file is as before; it logs what itrunc logs, in steps of the shared layer |
| FsShare.IdleInv | xv6/fs.c:135-155 | with nobody at work the invariant of the shared layer is the file system's |
| FsShare.NextKeeps | xv6/fs.c:41-435 | every step of balloc, bmap, writei, iupdate, itrunc and ialloc, made by anyone who holds the inode's lock with any number of others at work, keeps every block free, owned by one pointer or loose for one locked inode, and touches no other inode or its blocks |
| FsShareRun.Isolated | xv6/fs.c:135-155 | the lock protects the file: no step for another inode changes a field, a pointer or a byte of this one |
| FsShareRun.BallocSteps | xv6/fs.c:55-78 | balloc's two steps, with nobody in between, come to its effect |
| FsShareRun.BmapSteps | xv6/fs.c:370-400 | after them the step that records the block can be made, in the place bmap has for it |
| FsShareRun.LogsAll | xv6/fs.c:41-435 | every step changes the blocks exactly by its log_writes |
| FsShareRun.SharingKeeps | xv6/fs.c:135-155 | so in every interleaving, and the blocks are what the log_writes, in order, make of the first ones |
| FsShareRun.SharingIsTransaction | xv6/log.c:10-24 | operations that overlap, from a point with nobody at work to another, are together one transaction |
| FsShareRun.InterleavedIsTransaction | xv6/log.c:10-24 | so are log_writes of which only that is known |
| FsShareSteps.EntrySteps | xv6/fs.c:385-397 | bmap's block for an entry of the indirect block is three steps under the inode's lock: bit, zeroing, entry |
| FsShareSteps.RoundSteps | xv6/fs.c:414-428 | so is a round of itrunc's loops: the bit, and a direct pointer cleared |
| FsCrash.RecoversToQuiet | xv6/log.c:115-202 | a crash at any point of any run of a log region with at least LOGSIZE blocks, and of any other until a commit writes past it: recovery brings back, outside the log, exactly what the cache showed at an earlier moment with no operation in progress |
| FsState.IdleIsConsistent | xv6/fs.c:216-236 | between operations the inode layer's state is the file system that the blocks hold |
| FsState.IsTransaction | xv6/log.c:10-24 | log_writes that take the inode layer from one idle state to another are a transaction: replayed on a consistent file system they leave one |
| FsCrash.SameInv | xv6/fs.h:4-27 | the invariant does not depend on the blocks below the inodes, where the log is |
| FsCrash.SurvivesCrash | xv6/log.c:115-202 | if whenever the last active operation ends the cache shows a consistent file system, then at every point of every such run the recovered disk holds one |
| FsCrash.ViewSpan | xv6/log.c:213-233 | while operations are active, the cache is what the first of them found with their log_writes replayed |
| FsCrash.TransactionsKeep | xv6/log.c:124-174 | in every such run in which operations, those that overlap taken together, log the changes of a transaction when they find a consistent file system, the cache shows one whenever the last active operation ends |
| FsCrash.TransactionsSurvive | xv6/log.c:115-202 | the file system survives every crash of every such run |
| FsCrash.OverlapSurvives | xv6/log.c:115-202 | the file system survives every crash of every such run in which the operations, as many at once as begin_op admits, work in the inode layer under its locks |
| FsCrash.AloneContains | xv6/log.c:213-233 | operations that do not overlap never write past the region, however small it is |
| FsCrash.ZeroLogIsEmpty | xv6/mkfs.c:110-111 | the log that mkfs leaves is empty |
| File.SpliceTwice | xv6/file.c:135-152 | writing the next piece is one longer splice |
| File.OpenFile.Read | xv6/file.c:96-113 | the slice at the offset, which moves past it |
| File.OpenFile.WriteChunk | xv6/file.c:136-151 | one round is one transaction of at most MAXOPBLOCKS blocks, and its log_writes are the changes to the blocks and those of steps of the shared layer: the next chunk is in the file, or it is the one refused, or the disk lacks the blocks for what filewrite accepts |
| File.OpenFile.Write | xv6/file.c:117-156 | exactly the accepted bytes are spliced in, one transaction a chunk and one for a refused chunk, each within MAXOPBLOCKS blocks and together logging every block changed; n exactly when all were accepted; gives up exactly when the accepted bytes take more blocks than are free |
| DirState.LinkKeepsNames | xv6/fs.c:551-578 | live names stay distinct under the 14-byte comparison |
| DirState.LinkKeepsOthers | xv6/fs.c:551-578 | lookups of all other names are as before |
| DirState.LinkFindsOwn | xv6/fs.c:572-573 | the new name is found under its number if and only if that fits in 16 bits |
| DirState.LinkKeepsInums | xv6/fs.c:551-578 | entries keep naming inodes of the disk |
| Directory.Namecmp | xv6/fs.c:516-520 | zero exactly for equal names, cut at a NUL or 14 characters |
| Directory.Strncpy | xv6/string.c:68-79 | the name padded with NULs to 14 characters |
| Directory.Dirlookup | xv6/fs.c:524-548 | the first live entry of that name, by reading the directory file |
| Directory.FreeEntry | xv6/fs.c:564-570 | the first free entry, or the end |
| Directory.AddEntry | xv6/fs.c:564-578 | for a name that is not there the directory file changes by that entry and no other file changes; its log_writes are a transaction of at most MAXOPBLOCKS blocks, in steps of the shared layer; panics exactly when there is no free entry and the directory cannot grow, for want of blocks or at its greatest size |
| Path.ComponentsOfJoined | xv6/fs.c:583-594 | slashes, component, slashes, component and so on has exactly those components |
| Path.Skipelem | xv6/fs.c:595-618 | takes off the first component, cut to 14 characters; fails exactly when there is none; the rest is empty exactly when it was the last |
| Namei.LastInParent | xv6/fs.c:624-670 | namei is the last component looked up in nameiparent |
| Namei.WalkOn | xv6/fs.c:634-651 | walking a path is walking its first part and on from there |
| Namei.InodeCache.Iget | xv6/fs.c:238-272 | one reference more to that inode and to no other, in one slot; panics exactly when it is not cached and no slot is free |
| Namei.InodeCache.Idup | xv6/fs.c:274-283 | one reference more |
| Namei.InodeCache.Ilock | xv6/fs.c:287-312 | the inode counts as read; panics exactly when it was not read before and is free |
| Namei.InodeCache.Iput | xv6/fs.c:331-352 | one reference less; the last reference to an inode that was read and has no links frees it and its blocks, logging at most the bitmap and one block more, any other changes nothing on disk; its log_writes are a transaction, in steps of the shared layer |
| Namei.InodeCache.Dirlink | xv6/fs.c:551-578 | refuses exactly an existing name, whose inode's reference is given up again with nothing freed and all counts as before; panics exactly when iget finds no slot, or the name is new and there is no room for its entry; otherwise the directory file changes by that entry and no other file changes; its log_writes are a transaction, in steps of the shared layer |
| Namei.InodeCache.Namex | xv6/fs.c:620-657 | equals the fold of dirlookup over the components; reference counts change only by one on the inode returned; no iput on the way frees an inode that a directory entry names |
| Sleep.NextKeeps | xv6/proc.c:759-818 | every step of sleep and wakeup keeps: whoever sleeps has its condition, or a wakeup of its channel is still owed |
| Sleep.NoLostWakeup | xv6/proc.c:759-818 | for every client that keeps the discipline, in every run: when the guarding lock is free, every sleeper's wait condition holds |
| Sleep.RunLawful | xv6/proc.c:759-818 | a client's own invariant holds in every run whether or not its wakeups are right |
| SleepLock.LockHonest | xv6/sleeplock.c:22-42 | acquiresleep and releasesleep keep the discipline |
| SleepLock.SleepersWaitForLock | xv6/sleeplock.c:22-42 | a sleeper waits for a lock that is taken |
| SleepLock.MutualExclusion | xv6/sleeplock.c:22-42 | at most one process holds the sleep-lock |
| LogWait.LogHonest | xv6/log.c:125-174 | begin_op, log_write and end_op keep the discipline, although commit empties the log without the lock |
| LogWait.SleepersWaitForLog | xv6/log.c:125-141 | a sleeper waits for a commit or for space |
| ProcWait.WaitHonest | xv6/proc.c:287-359 | fork, exit and wait keep the discipline, although exit wakes the parent before it is a ZOMBIE |
| ProcWait.SleepersWaitForChildren | xv6/proc.c:317-359 | a parent asleep in wait has no ZOMBIE child |
| Pipe.TestsAreRight | xv6/pipe.c:85-114 | the full and empty tests are right wherever the 32-bit counters stand |
| Pipe.StoreAppends | xv6/pipe.c:93 | a stored byte is appended to the contents |
| Pipe.TakeRemovesFirst | xv6/pipe.c:116 | a byte taken is the first of the contents |
| Pipe.PipeBuffer.Fill | xv6/pipe.c:84-94 | stores in order until all is stored or the pipe is full |
| Pipe.PipeBuffer.Drain | xv6/pipe.c:113-117 | takes the first bytes, as many as asked for and there |
| PipeRun.PipeLawful | xv6/pipe.c:59-121 | every step of readers, writers and closers keeps: stored bytes are the taken ones and the contents |
| PipeRun.FirstInFirstOut | xv6/pipe.c:78-121 | in every run bytes taken are a prefix of bytes stored, and at most PIPESIZE are in between |
| PipeRun.ReadTakesNext | xv6/pipe.c:101-121 | what a piperead returns are the stored bytes right after those taken before it, in order, and no more than asked for |
| PipeRun.ZeroMeansEnd | xv6/pipe.c:101-121 | a read of n > 0 returns 0 only when the pipe is empty and its write end closed |
| PipeRun.PipeHonest | xv6/pipe.c:59-121 | every step of readers, writers and closers but the late return of a killed writer keeps the sleep discipline |
| PipeRun.SleepersWaitForPipe | xv6/pipe.c:59-121 | in every run, until a writer is killed with bytes it has not told a sleeping reader of: a sleeping reader finds the pipe empty with the writer open, a sleeping writer full with the reader open |
| PipeRun.KilledWriterLosesWakeup | xv6/pipe.c:86-88 | a run in which a killed writer leaves a reader asleep beside a full pipe |
| PipeRun.WakeupsExactly | xv6/pipe.c:85-92 | run by run: sleepers are right to sleep in all its states if and only if no writer in it is killed at a full pipe, with bytes stored that it has not told the readers of, while a reader sleeps |
| ProcRun.NextKeeps | xv6/proc.c:214-490 | every step of schedulers, fork, exit, wait, kill, sleep, wakeup keeps CPUs, pids, the process tree and the history of exits in order |
| ProcRun.RunKeeps | xv6/proc.c:214-490 | so in every state of every run |
| ProcRun.RunningOnOneCpu | xv6/proc.c:427-490 | when ptable.lock is free, RUNNING means on a CPU, and on exactly one |
| ProcRun.ParentsOutliveChildren | xv6/proc.c:289-304 | a parent is neither UNUSED nor ZOMBIE and has a smaller pid; every process but init has one |
| ProcRun.RootedAtInit | xv6/proc.c:289-304 | parents lead to init through ever smaller pids |
| ProcRun.ReapedOnce | xv6/proc.c:311-416 | wait returns no pid twice; each exited pid was returned or is still a ZOMBIE |
| Proc.ProcTable.Wakeup1 | xv6/proc.c:802-810 | exactly the sleepers on the channel become RUNNABLE |
| Proc.ProcTable.Kill | xv6/proc.c:823-842 | the first slot of that pid is killed and woken |
| Proc.ProcTable.Alloc | xv6/proc.c:85-123 | the first UNUSED slot becomes an EMBRYO with the next pid |
| Proc.ProcTable.Exit | xv6/proc.c:287-305 | parent woken, children given to init, init woken for a ZOMBIE among them, the process a ZOMBIE |
| Proc.ProcTable.Wait | xv6/proc.c:317-359 | frees the first ZOMBIE child and returns its pid; otherwise says whether to give up or sleep |
| Proc.ProcTable.NextRunnable | xv6/proc.c:435-438 | the next RUNNABLE slot |
| Proc.ProcTable.HighestPriority | xv6/proc.c:465-477 | a RUNNABLE process that no other comes before |
| FreeList.InsertKeeps | xv6/umalloc.c:24-44 | a block put back leaves an address-ordered, fully coalesced ring with exactly its units more |
| FreeList.Relink | xv6/umalloc.c:33-43 | the headers written make the new ring |
| HeapStep.FreedLinks | xv6/umalloc.c:33-43 | free's header writes give the ring with the block inserted and merged |
| HeapStep.FreeHeap | xv6/umalloc.c:24-44 | free keeps ring, live blocks and their disjointness |
| HeapStep.TakeHeap | xv6/umalloc.c:75-84 | malloc's step takes exactly the units asked for out of one free block, disjoint from all live and free blocks |
| HeapStep.BlocksApart | xv6/umalloc.c:24-90 | no two blocks, free or live, share a unit |
| Umalloc.RightSizeExactly | xv6/umalloc.c:54-69 | the block has room for the bytes exactly up to 2^32 - 8 of them, and none beyond; sbrk gets a positive int exactly below 2 GB less two headers, or beyond 2^32 - 8 |
| Umalloc.Allocator.Place | xv6/umalloc.c:30-32 | the circular search ends, at the block that the freed one goes after |
| Umalloc.Allocator.Splice | xv6/umalloc.c:33-42 | the header writes |
| Umalloc.Allocator.Free | xv6/umalloc.c:24-44 | that live block's units are free again, the others are untouched |
| Umalloc.Allocator.Morecore | xv6/umalloc.c:46-61 | at least MORE units more, or nothing changed; the heap then ends within the process's memory exactly when sbrk takes the request for a positive number |
| Umalloc.Allocator.Malloc | xv6/umalloc.c:63-90 | a new live block, with room for the bytes exactly when the size arithmetic does not wrap; free and live units add up to those obtained; sbrk is asked once, and only when no free block suffices; fails only when sbrk does; the heap leaves the process's memory exactly when sbrk takes the request for a negative number |
| Umalloc.Allocator.Take | xv6/umalloc.c:75-84 | the block found becomes live, whole or its tail |
| VmState.EntryIs | xv6/vm.c:73 | an entry holds its page and flags |
| VmStep.TakenKeeps | xv6/kalloc.c:82-95 | kalloc keeps owners and page tables in order |
| VmStep.FreedKeeps | xv6/kalloc.c:55-77 | kfree does |
| VmStep.HungKeeps | xv6/vm.c:45-53 | a new page table changes no mapping |
| VmStep.MappedKeeps | xv6/vm.c:69-73 | a mapped frame belongs to that page only; no other entry changes |
| VmStep.UnmappedKeeps | xv6/vm.c:266-276 | an unmapped frame is free; no other entry changes |
| VmStep.RangeOwners | xv6/vm.c:264-277 | the page-by-page walk frees exactly the frames of the range |
| VmStep.RangeKeeps | xv6/vm.c:264-277 | and clears exactly their entries |
| VmStep.SkipTable | xv6/vm.c:267-268 | where there is no page table the walk may go on at the next 4 MB |
| VmFree.TableFreedKeeps | xv6/vm.c:291-296 | freeing a page table of a dying address space leaves all others alone |
| Vm.Memory.Kalloc | xv6/kalloc.c:82-95 | the first free page, through the link in its first word; none exactly when the list is empty |
| Vm.Memory.Kfree | xv6/kalloc.c:55-77 | the page is free, filled with junk and linked in |
| Vm.Memory.Freerange | xv6/kalloc.c:46-53 | exactly those pages become free |
| Vm.Memory.Walk | xv6/vm.c:32-55 | finds or makes the page table; fails only without memory, and then without change |
| VmRoom.OneMoreTable | xv6/vm.c:40-52 | mapping one more page takes a page table exactly when its directory entry has none by then |
| Vm.Memory.MapPages | xv6/vm.c:57-80 | exactly the entries asked for; user pages all or nothing; succeeds exactly when none is mapped and there are pages for the missing page tables; panics exactly when it comes to a mapped page before those run out |
| Vm.Memory.Setupkvm | xv6/vm.c:117-136 | the kernel layout in a new directory, exactly when 65 pages are free; otherwise every owner and page in use as before |
| Vm.Memory.Dealloc | xv6/vm.c:264-277 | with its 4 MB skip, the same state as the page-by-page walk |
| Vm.Memory.Deallocuvm | xv6/vm.c:255-279 | the range between the rounded sizes, and the size returned |
| Vm.Memory.Freevm | xv6/vm.c:281-298 | every page of the address space is free, every other as before |
| Vm.Memory.Allocuvm | xv6/vm.c:219-249 | fresh zeroed frames for the new pages, exactly when none of them is mapped and there are free pages for them and the missing page tables; panics exactly when it comes to a mapped page before memory runs out; otherwise the range is unmapped and all else as before |
| Vm.Memory.Copyuvm | xv6/vm.c:313-345 | equal bytes and flags in frames that were free, exactly when all pages are there and enough are free; panics exactly when it comes to a missing page before memory runs out; otherwise every owner and page in use as before |
| ShGrammar.CmdRoundTrip | xv6/sh.c:331-450 | the tokens printed for a command tree are parsed as that tree |
| ShGrammar.LineRoundTrip | xv6/sh.c:348-363 | so is a line in front of a closing parenthesis |
| ShGrammar.ExecRoundTrip | xv6/sh.c:378-450 | so are words and redirections, or a block |
| ShLex.LexText | xv6/sh.c:269-312 | tokens written with blanks are read back |
| ShLex.RoundTrip | xv6/sh.c:331-450 | a command line printed for a tree with at most 19 plain words a command is read as that tree |
| ShLex.ParserRange | xv6/sh.c:331-450 | such trees are exactly what the parser returns for some text |
| Shell.Gettoken | xv6/sh.c:269-312 | takes off the first token; a word's span is a maximal run of plain characters |
| Shell.Peek | xv6/sh.c:314-324 | moves over blanks only, and looks at the next character |
| Shell.Parseredirs | xv6/sh.c:378-401 | the loop collects what the grammar says |
| Shell.ParseWords | xv6/sh.c:433-448 | so does the loop over words, up to 19 of them |
| Shell.Parseexec | xv6/sh.c:419-450 | parses as the grammar says, or fails as it does; terminates |
| Shell.Parseblock | xv6/sh.c:403-417 | likewise |
| Shell.Parsepipe | xv6/sh.c:365-376 | likewise |
| Shell.Parseline | xv6/sh.c:348-363 | likewise |
| Shell.Parsecmd | xv6/sh.c:331-346 | fails exactly on a syntax error or leftovers |
| Shell.Nulterminate | xv6/sh.c:452-497 | NULs exactly at the ends of words |
| Shell.WordsAre | xv6/sh.c:452-497 | afterwards every argv and file string is exactly its token |
| Shell.RunParser | xv6/sh.c:331-346 | parsecmd in place: the command read from the buffer is the grammar's |
| Shell.ReadBack | xv6/sh.c:331-497 | the round trip through the code and the buffer |
| Grep.Match | xv6/grep.c:72-82 | true exactly when some substring belongs to the pattern's language, anchored by ^ and $ |
| Grep.MatchHere | xv6/grep.c:84-96 | true exactly when some prefix does |
| Grep.MatchStar | xv6/grep.c:98-106 | true exactly when a run of c is followed by such a prefix |

## Left out

- FileSystem.FileSystem.Readi: not the T_DEV branch (`devsw`); device files have no content here.
- FileSystem.FileSystem.Writei: not the T_DEV branch either.
- Namei.InodeCache.Namex: for link counts that are right, that is, every inode a directory entry names has links; an unlinked working directory is allowed.
- Namei.InodeCache.Iget: one device only, so a slot is named by its inode number.
- Shell.Parseexec: command nodes are values, not objects reached through the parent while argv is filled.
- Proc.ProcTable.Alloc: not the MLFQ queues and pstat arrays, which are indexed by an ever-growing pid.
- ProcRun.NextKeeps: pids are unbounded; an int nextpid would wrap after 2^31 forks.
- Umalloc.Allocator.Malloc: memory is counted in units of one header; sbrk answers an address above the heap, as it does while the heap lies within the process's memory; whether a store past the process's memory faults is not modelled.
- Vm.Memory.MapPages: page numbers, that is, addresses rounded down as mappages does first.
- Mkfs.MakeFs: mkfs does not check that there are inodes and blocks left; without them the model stops where mkfs would write past the inodes or the disk. The superblock's bytes, host files and a leading underscore in names are left out.
- FsCrash.SurvivesCrash: that operations leave the file system consistent when the last one ends is a hypothesis, derived in `FsCrash.TransactionsKeep` and `FsCrash.OverlapSurvives`.
- FsCrash.OverlapSurvives: that system calls running at once come to an interleaving of the steps of `FsShare` is a hypothesis; of writei, itrunc, iput and dirlink on their own it is proved. ialloc is assumed to find inodes of type 0 empty, as iput and mkfs leave them.
- LogRun.NeverStuck: buffers that processes outside the log hold are not counted; they could make bget panic with fewer blocks pinned, and that panic too writes nothing.
- Log.Log.LogWrite: for a log whose header fits the region; longer headers are in `LogRun`.
- Namei.InodeCache.Ilock: not the sleep-lock, which is in `SleepLock`, nor the fields read from disk, which agree with those in memory by the inode layer's invariant.
- IdeRun.IderwLikeMemide: no device errors and no interrupts the device did not raise.
- PipeRun.PipeHonest: an end is closed only when nobody is inside a call on it, as the reference counts in file.c ensure.
- Sleep.NoLostWakeup: safety only; that a woken process gets to run is up to the scheduler.
- fcfs_scheduler and MLFQ_scheduler, waitx's times, growproc, exec, console input.
- nlink accounting in sysfile.c, ialloc's search, stat.
- grep's line buffer, the shell's runcmd, other user programs.
- Hardware and boot code, trap and system-call plumbing, the implementation of spinlocks and memory ordering: a spinlock's critical section is one step.
