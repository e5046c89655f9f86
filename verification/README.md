# A verified model of the kernel, its user programs and the file server

This project models the parts of the repository whose correctness rests on an
invariant that many functions share, and proves what those parts are for. Each
group of files stands for one component; the object whose methods update it in
place is a class, protocols between processors, processes, interrupts and
machines are state machines over their atomic steps, and the programs that only
compute are functions.

* **File system** (`Words`, `Layout`, `BlockMap`, `Files`, `Release`, `Effects`,
  `FileSystem`, `Names`, `Directory`, `DirectoryOps`, `Shortfalls`): bitmap allocator, block
  map, byte-level reading and writing, truncation, block checksums kept in the
  top byte of addresses, and directories, all over a disk of 512-byte blocks. A
  ghost owner map says which inode slot every used block belongs to; from it
  follow the refinements from blocks to byte sequences and from byte sequences
  to maps from names to inode numbers.
* **Image builder** (`Image`, `ImageFiles`, `Mkfs`): `mkfs` lays out an image and
  appends files to it; the result satisfies the invariant the kernel keeps.
* **Link counts** (`Links`): create, link (in its two halves), unlink, open and
  close, interleaved, with 16-bit counts.
* **Processes and locks** (`Kernel`, `KernelInv`, `KernelSteps`,
  `KernelSpecial`, `KernelRuns`, `KernelTheorems`, `KernelCalls`): any number of CPUs running
  fork, exit, wait, sleep, wakeup, kill, yield and the scheduler, with spinlocks
  handed across context switches and interrupts nested at any point.
* **Buffer cache and disk queue** (`Recency`, `Buffers`, `BufferInv`,
  `BufferSteps`, `BufferTheorems`, `BufferProgress`, `BufferList`, `ExactLru`): the cache under
  interleaved processes and the disk interrupt, the doubly linked list it walks,
  and the exact replacement rule.
* **User-level allocator** (`FreeList`, `Umalloc`): the circular, address-ordered
  free list with next fit and coalescing.
* **Page allocator and page tables** (`Paging`, `AddressSpace`, `Mappings`,
  `VirtualMemory`): the free list threaded through the pages, two-level page
  tables in the same pages, and who owns each page.
* **Pipe** (`Pipe`, `PipeTheorems`, `PipeProgress`), **matcher** (`Grep`), **shell parser**
  (`Shell`, `ShellRoundTrip`, `ShellSource`, `ShellParser`).
* **Log-structured file server** (`LfsTree`, `LfsLaws`, `LfsLog`,
  `LfsServer`, `LfsRetry`, `LfsProgress`):
  what each request means, the log image that implements it, the calls over that
  image, and the retry protocol between client and server.

Where the code and its comments differ the model follows the code: `itrunc`
passes stored words to `bfree` with the checksum byte still on them, `balloc`
looks at bits after the last block, a killed writer leaves a pipe without waking
readers, and a link count wraps at 32767. For each of these the exact condition
under which the code meets its purpose is proved, and an input that fails is given.

The state machines come with laws of progress: what a call has done when it
returns, told in the fields of the state, and that its steps do get it there.

`dafny verify dfyconfig.toml` checks everything.

## Model

| member | source | states |
|---|---|---|
| FileSystems.FileSystem.Balloc | xv6/kernel/fs.c:56-78 | takes the least clear bit of the bitmap and sets exactly that one; `None` means every bit of the bitmap blocks is set |
| Effects.AllocationInside | xv6/kernel/fs.c:64-76 | the block taken lies below `sb.size` if and only if some block below `sb.size` is free (the inner loop also looks at the bits after it) |
| FileSystems.FileSystem.Bfree | xv6/kernel/fs.c:82-99 | zeroes the block and clears its bit, nothing else; reports the "freeing free block" panic exactly when the bit was clear |
| BlockMap.OwnershipMeaning | xv6/kernel/fs.c:312-373 | under the ownership invariant the used bits are exactly the metadata blocks and the blocks reachable from inodes, no block is reachable twice, and every free block is all zero |
| BlockMap.IndirectIsPrivate | xv6/kernel/fs.c:352-367 | no data block of any file is the indirect block of an inode, so rewriting an indirect block changes no file contents |
| Files.AllocDirect | xv6/kernel/fs.c:329-341 | a free block put in a direct slot (or as the indirect block) keeps the ownership invariant, maps only that slot, and no file reads differently: a fresh indirect block reads as empty because free blocks are zero |
| Files.AllocIndirect | xv6/kernel/fs.c:352-367 | the same for an entry of the indirect block |
| FileSystems.FileSystem.Bmap | xv6/kernel/fs.c:322-373 | returns the mapped block, allocating only when there was none; every other inode and every file content is unchanged; fails only beyond MAXFILE or with no free block |
| FileSystems.FileSystem.Iupdate | xv6/kernel/fs.c:174-189 | afterwards the inode table on disk, decoded, equals the in-core view, and no file reads differently |
| Layout.DecodeEncode | xv6/kernel/fs.c:174-189 | decoding an inode slot after encoding it gives the inode back, for every field width |
| FileSystems.FileSystem.Ialloc | xv6/kernel/fs.c:149-170 | takes the least free inode from 1 on, leaves it zero but for its type, keeps the whole image sound and every other file as it was |
| FileSystems.FileSystem.Readi | xv6/kernel/fs.c:441-491 | returns exactly the requested range of the file contents, clamped to the size; refuses an offset past the end and a wrapping `off + n`; for T_CHECKED it fails exactly when some block of the range does not match its stored checksum; nothing changes |
| FileSystems.FileSystem.Writei | xv6/kernel/fs.c:495-550 | the new contents are the old ones overlaid with the clamped source; size and disk inode agree with the in-core copy; every other inode and file is unchanged; the image stays sound, checksums included; it comes back without a count only when every block below the size is in use |
| FileSystems.FileSystem.WriteThenRead | xv6/kernel/fs.c:441-550 | after a write, any later read of any range returns the bytes of the overlaid contents, for T_CHECKED files too |
| Words.ChecksumDetectsOneByte | xv6/kernel/fs.c:465-470 | changing exactly one byte of a block changes the exclusive-or of its 512 bytes |
| Files.CorruptionDetected | xv6/kernel/fs.c:465-486 | on a T_CHECKED file whose checksums are right, changing one byte of one data block makes the check of that block fail and leaves the checks of all other blocks right |
| Files.IntactRange | xv6/kernel/fs.c:465-486 | in a sound image every range of every T_CHECKED file passes the checks |
| FileSystems.FileSystem.StampSum | xv6/kernel/fs.c:518-539 | refreshing the top byte of one stored address moves no block, changes no contents, and makes every checksum of the file right |
| FileSystems.FileSystem.Itrunc | xv6/kernel/fs.c:379-408 | succeeds for every type other than T_CHECKED, and for T_CHECKED exactly when every block of the file has checksum zero (it passes stored words to `bfree` with the checksum byte on); then the file is empty, exactly the blocks it reached are free and zero again, and every other file is unchanged |
| Names.Strncmp | xv6/kernel/string.c:54-62 | zero exactly when both names are equal up to the first NUL or the given length; otherwise the difference of the first unequal bytes |
| Names.Strncpy | xv6/kernel/string.c:64-75 | the cut name padded with NULs to the full length; it denotes the same name |
| Directory.LinkBinds | xv6/kernel/fs.c:595-622 | writing an entry in an unused place adds exactly one binding to the map from names to inode numbers and keeps names unique |
| Directory.UnlinkUnbinds | xv6/kernel/sysfile.c:192-194 | zeroing an entry removes exactly its binding |
| Directory.BlockEntry | xv6/kernel/fs.c:575-590 | scanning whole blocks past the size is sound: entries there read as unused because bytes past the size are zero |
| Directory.FindIsLookup | xv6/kernel/fs.c:564-592 | the first used entry with the name is the map entry of that name, both directions |
| DirectoryOps.Dirlookup | xv6/kernel/fs.c:564-592 | finds a name exactly when the map binds it, with that inode number and the offset of its entry; nothing changes |
| DirectoryOps.Dirlink | xv6/kernel/fs.c:596-622 | refuses a bound name and changes nothing, otherwise the map gains exactly this binding and no other file changes; it gets stuck only with the directory at its maximum size and full, or no free block |
| DirectoryOps.ClearEntry | xv6/kernel/sysfile.c:192-194 | overwriting the found entry with zeros removes exactly that name |
| Links.CreatePlainKeeps | xv6/kernel/sysfile.c:208-240 | creating a file keeps every link count equal to its entries |
| Links.CreateDirExactly | xv6/kernel/sysfile.c:208-240 | creating a directory keeps the counts right (its ".." counts for the parent) if and only if the count of the parent is not at 32767 |
| Links.LinkBeginExactly | xv6/kernel/sysfile.c:123-125 | raising a count before making the entry keeps the books if and only if the count is not at 32767 |
| Links.LinkEndKeeps | xv6/kernel/sysfile.c:127-136 | the entry takes the place of the pending link |
| Links.LinkUndoKeeps | xv6/kernel/sysfile.c:138-143 | the undo path gives the count back, keeps all books, and frees the inode exactly when that was its only link and nothing refers to it |
| Links.UnlinkPlainKeeps | xv6/kernel/sysfile.c:161-206 | removing a name of a file lowers its count by the entry that went, and frees it exactly when it was the last and nothing refers to it |
| Links.UnlinkDirKeeps | xv6/kernel/sysfile.c:161-206 | removing an empty directory lowers its own count to zero and its parent by the ".." that no longer counts, and frees it exactly when nothing refers to it |
| Links.EmptyDirFacts | xv6/kernel/sysfile.c:145-159 | a directory that is empty but for "." and ".." is counted by its one name only and is not its own parent |
| Links.UnlinkCountPositive | xv6/kernel/sysfile.c:185-186 | the "nlink < 1" panic of unlink cannot happen |
| Links.PutKeeps | xv6/kernel/fs.c:284-302 | an inode is freed exactly when it has neither links nor references, and all counts stay right |
| Links.CountsExactly | xv6/kernel/sysfile.c:110-240 | a call keeps all counts right and frees what nothing refers to if and only if it does not raise a count that is at the largest value of the 16-bit field |
| Links.CountsEver | xv6/kernel/sysfile.c:110-240 | from an image with only a root directory and files, after any interleaved calls through linked parents every count is the number of entries other than "." from linked directories, plus the links being made, and an inode is free exactly when it has neither links nor references; what opens and closes do to the references is Links.OpenStays |
| KernelTheorems.NextKeeps | xv6/kernel/proc.c:33-408 | every atomic step of every CPU keeps the invariant of the process table, the locks and the CPUs |
| KernelTheorems.ReachableInv | xv6/kernel/proc.c:33-408 | the invariant holds in every state reachable from boot, for any number of CPUs and processes and any interleaving |
| KernelTheorems.NoPanic | xv6/kernel/proc.c:291-306 | none of the panics of acquire, release, popcli, sched and exit is reached, except for init exiting; `sched` is entered holding exactly `ptable.lock` with interrupts off once |
| KernelTheorems.OnlyLocksBlock | xv6/kernel/spinlock.c:24-39 | a thread inside the process module is held up by nothing but a lock another thread holds |
| KernelTheorems.InterruptStateFollows | xv6/kernel/spinlock.c:96-115 | outside all locks the interrupt flag is the one the thread had asked for, whatever CPU it is on |
| KernelTheorems.InterruptStateIsOwn | xv6/kernel/proc.c:291-306 | only the thread itself changes its interrupt flag, never a switch to another CPU |
| KernelTheorems.OneCpu | xv6/kernel/proc.c:256-286 | a process runs on at most one CPU |
| KernelTheorems.ReapSafe | xv6/kernel/proc.c:217-231 | when `wait` frees a zombie no CPU is on its stack, has its page directory loaded or is about to resume it |
| KernelTheorems.ScheduledHasMemory | xv6/kernel/proc.c:262-281 | the scheduler resumes only slots with a kernel stack and a page directory, and that are on no CPU |
| KernelTheorems.ParentsLive | xv6/kernel/proc.c:186-198 | every process past EMBRYO but init has a parent, and a parent is neither unused nor a zombie; init is alive |
| KernelTheorems.NoZombieUnnoticed | xv6/kernel/proc.c:182-246 | whenever `ptable.lock` is free, no process that sleeps in `wait` has a zombie child |
| KernelTheorems.WaitingCovered | xv6/kernel/proc.c:332-364 | from the call of `sleep` until it is woken a process holds its lock, or holds `ptable.lock`, or is SLEEPING on the channel |
| KernelTheorems.WakeupNotLost | xv6/kernel/proc.c:369-385 | a wakeup on the channel by any later holder of the lock makes the process RUNNABLE: no wakeup is lost |
| KernelTheorems.WaitingEnds | xv6/kernel/proc.c:332-408 | nothing but a wakeup on its channel or a kill ends the wait |
| KernelTheorems.WaitsThroughRun | xv6/kernel/proc.c:332-408 | the same over whole runs |
| BufferSteps.ScanKeeps | xv6/kernel/bio.c:61-93 | `bget`: a hit, a sleep, or the reuse of the least recently released free buffer keeps the invariant |
| BufferSteps.BrelseKeeps | xv6/kernel/bio.c:119-137 | releasing a buffer whose changes were written keeps the invariant and wakes its sleepers |
| BufferSteps.InterruptKeeps | xv6/kernel/ide.c:91-118 | the interrupt finishes the head request, whose buffer then holds exactly the data of the last write, starts the drive on the next, and keeps the invariant |
| BufferSteps.EnqueueKeeps | xv6/kernel/ide.c:124-154 | appending to the queue and starting the drive if it was idle keeps the invariant |
| BufferTheorems.CoherentEver | xv6/kernel/bio.c:61-137 | in every run: a sector is in at most one buffer, a busy buffer has exactly one holder, a free buffer is never dirty, and a valid free buffer equals the disk and the last write |
| BufferTheorems.ReturnsLast | xv6/kernel/bio.c:97-115 | what `bread` returns is a valid buffer of the requested sector with the last data written |
| BufferTheorems.ReadGivesLastWrite | xv6/kernel/bio.c:97-115 | after a `bwrite`, the next read of that sector in any run without another write to it returns the bytes given to `bwrite` |
| BufferTheorems.ReadGivesDisk | xv6/kernel/bio.c:97-105 | before any write it returns what the disk had at boot |
| BufferTheorems.OnlyPanic | xv6/kernel/bio.c:92-122 | the only panic of the cache and the driver is `bget` with all buffers busy and the sector in none of them |
| BufferTheorems.SleepersCovered | xv6/kernel/ide.c:146-151 | a sleeper in `iderw` has its request queued and the drive at work; a sleeper in `bget` waits for a buffer of its sector that a process holds |
| BufferTheorems.ServedInOrder | xv6/kernel/ide.c:91-154 | a request is finished after as many interrupts as there are requests up to and including it |
| BufferList.Bcache.constructor | xv6/kernel/bio.c:39-56 | `binit` links all buffers in one circle, last one first |
| BufferList.Bcache.Bget | xv6/kernel/bio.c:61-93 | one pass under the lock, walking `next` then `prev`, makes exactly the choice of the specification |
| BufferList.Bcache.Brelse | xv6/kernel/bio.c:119-137 | the rewired links are the circle with the buffer moved to the front |
| BufferList.LinkCircle | xv6/kernel/bio.c:128-131 | linking behind the head keeps one circle through exactly the listed buffers, in both directions |
| BufferList.UnlinkCircle | xv6/kernel/bio.c:126-127 | unlinking keeps the circle of the others |
| BufferList.ScanIsBget | xv6/kernel/bio.c:61-93 | the concurrent machine and the pointer walk take the same decision |
| ExactLru.ReadAndRelease | xv6/kernel/bio.c:97-137 | the linked list performs exactly the access of the specification |
| ExactLru.HitExactly | xv6/kernel/bio.c:39-93 | with reads released before the next one, a sector hits if and only if it was released before and fewer than NBUF distinct other sectors have been released since |
| Umalloc.RoomExact | xv6/user/umalloc.c:69 | a block of `nunits` headers has room for `nbytes` if and only if the 32-bit rounding did not wrap |
| Umalloc.SbrkArgExact | xv6/user/umalloc.c:54 | the argument of `sbrk` is the number of bytes meant if and only if fewer than 2^28 headers are asked for |
| Umalloc.GapIsStop | xv6/user/umalloc.c:31-33 | the two exit conditions of the search loop hold at the right gap of the list and nowhere else |
| Umalloc.Allocator.Search | xv6/user/umalloc.c:31-33 | the search ends, at the gap where the block belongs, from any starting point |
| Umalloc.Allocator.Free | xv6/user/umalloc.c:25-44 | the list stays one address-ordered coalesced circle; exactly the given block is no longer live, its units are in a free block, and no unit is lost |
| FreeList.FreeOk | xv6/user/umalloc.c:34-43 | putting a block in place and merging it with the neighbours it touches keeps ring, partition and coalescing |
| FreeList.UnlinkOk | xv6/user/umalloc.c:76-77 | handing out an exact fit keeps them |
| FreeList.CarveOk | xv6/user/umalloc.c:78-82 | cutting the tail off a larger block keeps them; the tail was no block before |
| FreeList.ExtendOk | xv6/user/umalloc.c:54-59 | fresh memory from the system joins the heap without overlap |
| FreeList.Disjoint | xv6/user/umalloc.c:24-90 | two distinct blocks never overlap |
| Umalloc.LiveBlocksApart | xv6/user/umalloc.c:63-90 | live blocks lie above `base`, in memory obtained from the system, and overlap neither each other nor a free block |
| Umalloc.Allocator.Morecore | xv6/user/umalloc.c:47-61 | fails exactly on refusal; otherwise live blocks are unchanged, the units are conserved plus the new ones, and some free block holds them all |
| Umalloc.Allocator.Scan | xv6/user/umalloc.c:74-89 | next fit: the first fitting block after `freep` is taken; the system is asked at most once and only when nothing fits; the loop ends |
| Umalloc.Allocator.Malloc | xv6/user/umalloc.c:64-90 | the new block was not live, has the asked number of units, and all other live blocks are untouched; null exactly when nothing fits and the system refuses |
| Pipes.CountersExact | xv6/kernel/pipe.c:82-111 | although the 32-bit counters wrap, the full and empty tests are right for the true lengths and the ring index is the true one |
| Pipes.NextSafe | xv6/kernel/pipe.c:58-118 | every step of every reader, writer, close and kill keeps the ring equal to the outstanding bytes |
| PipeTheorems.FifoEver | xv6/kernel/pipe.c:76-118 | in every run the bytes read are a prefix of the bytes written and at most PIPESIZE are outstanding |
| PipeTheorems.ReadReturns | xv6/kernel/pipe.c:110-117 | a read returns the next bytes of the stream, fewer than asked for only from an empty pipe, none only at end of file |
| PipeTheorems.WriteReturns | xv6/kernel/pipe.c:76-95 | a write returns its count only after storing exactly its bytes in order; it fails only on a full pipe with no reader or when killed |
| PipeTheorems.LiveExactly | xv6/kernel/pipe.c:82-108 | sleepers stay covered through a step if and only if the step is not a killed writer giving up on a full pipe while a reader sleeps |
| PipeTheorems.SleepersCovered | xv6/kernel/pipe.c:82-108 | with nobody killed, whenever the lock is free a sleeping reader means empty with writers open, a sleeping writer means full with readers open, and never both sleep |
| PipeTheorems.StrandedRun | xv6/kernel/pipe.c:82-86 | a concrete run in which a killed writer leaves a reader asleep in front of a full pipe |
| Grep.Match | xv6/user/grep.c:71-81 | returns true if and only if some part of the text, tied by a leading `^` to its start, lies in the language of the pattern |
| Grep.MatchHere | xv6/user/grep.c:84-95 | true if and only if a prefix of the text (all of it under a final `$`) lies in the language |
| Grep.MatchStar | xv6/user/grep.c:98-105 | true if and only if after some number of fitting characters the rest matches; the shortest-first loop ends |
| Grep.StarStep | xv6/user/grep.c:98-105 | a starred item followed by the rest denotes exactly those splits |
| Grep.OneStep | xv6/user/grep.c:92-93 | a single character followed by the rest denotes exactly that step |
| ShellRoundTrip.RoundTrip | xv6/user/sh.c:327-445 | for every tree of real words, at most nine to a command, parsing its parenthesised printing succeeds and gives the same tree with the same words |
| ShellRoundTrip.LinePrinted | xv6/user/sh.c:344-358 | the same for a printed tree anywhere in the buffer, up to the end or a closing parenthesis |
| ShellParser.Parsecmd | xv6/user/sh.c:327-341 | builds exactly the tree of the grammar functions or fails as they do, and every word read back as a C string is its source word; on failure the buffer is as it was; which texts are accepted and what they mean is ShellSource.AcceptsExactly |
| ShellParser.Parseline | xv6/user/sh.c:344-358 | the cursor-advancing parser computes the grammar function, cursor included |
| ShellParser.Parseexec | xv6/user/sh.c:415-445 | the same for simple commands, at most nine words |
| ShellParser.Parseredirs | xv6/user/sh.c:374-396 | the same for redirections |
| ShellParser.Gettoken | xv6/user/sh.c:265-307 | the same for tokens |
| ShellParser.ParseLineSpanned | xv6/user/sh.c:344-445 | every word of the tree is a whole word of the buffer |
| ShellParser.Nulterminate | xv6/user/sh.c:449-492 | writes a NUL at the end of every word of the tree and nowhere else |
| ShellParser.TreeKept | xv6/user/sh.c:449-492 | those NULs fall outside all words, so every string of the tree is its source word |
| LfsTree.TwiceIsOnce | linux/lfs.c:183-526 | carrying out any valid request twice leaves the same files and gives the same reply as once |
| LfsTree.CreatTwice | linux/lfs.c:239-333 | for creat: the second time the name is found |
| LfsTree.UnlinkTwice | linux/lfs.c:465-526 | for unlink: the second time the name is gone |
| LfsTree.StepShaped | linux/lfs.c:183-526 | requests keep directories well formed: unused entries are called "DNE", "." and ".." come first |
| LfsTree.OthersUntouched | linux/lfs.c:344-391 | a request changes only the file or directory it names |
| LfsLog.AppendSafe | linux/lfs.c:91-95 | a block written at the end of the log is nobody else's |
| LfsLog.RepointSafe | linux/lfs.c:369-384 | rewriting an inode block with a pointer to an unreferenced block changes that block of that file only |
| LfsLog.SetBlockSafe | linux/lfs.c:276-279 | overwriting a directory block in place changes that directory only |
| LfsLog.NewNodeSafe | linux/lfs.c:309-314 | a new inode at the end of the log changes no other file |
| LfsServer.Server.constructor | linux/lfs.c:112-165 | a fresh image is safe, checkpointed, and has only an empty root directory |
| LfsServer.Server.Restart | linux/lfs.c:166-170 | what a restart reads from the checkpoint region is exactly the inode map and the end of the log, after every request: nothing is lost |
| LfsServer.Server.LookupServer | linux/lfs.c:183-206 | returns the number of the first entry with the name, over the blocks in use |
| LfsServer.Server.CreatServer | linux/lfs.c:239-333 | does to the files exactly what the request means, keeping all live pointers distinct and inside the log |
| LfsServer.Server.WriteServer | linux/lfs.c:344-391 | replaces one block of one file and nothing else |
| LfsServer.Server.ReadServer | linux/lfs.c:403-419 | gives the reply that the request means: the bytes of that block of the file, or -1 for a bad inode or block number |
| LfsServer.Server.StatServer | linux/lfs.c:216-225 | returns type and size |
| LfsServer.Server.UnlinkServer | linux/lfs.c:465-526 | the files change and the reply is as the request means (spelled out in LfsLaws.UnlinkExactly): name and inode removed, an occupied directory refused |
| LfsLog.CheckpointSafe | linux/lfs.c:33-45 | copying one map entry and the end of the log makes the checkpoint agree with the server again, when no other entry had changed; no file changes |
| LfsRetry.NextKeeps | linux/sendPacket.c:36-57 | every call, retransmission, loss, execution and reply keeps the protocol invariant |
| LfsRetry.AtLeastOnceIsExactlyOnce | linux/listenServer.c:26-87 | over any run with lost packets and repeated executions, every call returns what exactly-once execution would return, and between calls the files are those of exactly-once execution |
| ImageFiles.BlankHolds | xv6/tools/mkfs.c:67-95 | the empty image is sound: its blocks in use are exactly the metadata blocks, every inode is free, every data block zero |
| Mkfs.Builder.constructor | xv6/tools/mkfs.c:67-95 | when the sizes add up, every block is zeroed, the superblock reads back as the three sizes, and the first block to hand out is the first after the metadata |
| Mkfs.Builder.Ialloc | xv6/tools/mkfs.c:296-308 | the next inode number gets a fresh inode with one link; the files so far are unchanged |
| Mkfs.Builder.Iappend | xv6/tools/mkfs.c:328-375 | the file grows by exactly the bytes given, across direct and indirect blocks, and no other file changes; it succeeds if and only if the longer file stays within the largest size and all blocks fit the image |
| Mkfs.Builder.BlockFor | xv6/tools/mkfs.c:341-364 | a block is taken exactly when the byte is the first of one, two when it is the first beyond the direct blocks, always the next ones in order; nothing reads differently |
| Image.NextIndirect | xv6/tools/mkfs.c:350-364 | the next block put in an entry of the indirect block keeps the ownership invariant of the image read as if the blocks handed out were marked, and maps that slot alone |
| Image.OnlyClaimed | xv6/tools/mkfs.c:341-364 | claiming a block maps one slot of one inode and no other slot of it |
| Mkfs.Builder.Balloc | xv6/tools/mkfs.c:310-324 | the bitmap written last marks exactly the blocks handed out; the finished image satisfies the invariants of the kernel and holds the files; it fails exactly when one bitmap block is too small |
| Mkfs.Builder.RoundSize | xv6/tools/mkfs.c:188-193 | rounding up a size appends the zeros that are in the last block already, and the image stays sound; with the size on a block boundary the image is no longer sound |
| Mkfs.Build | xv6/tools/mkfs.c:200-235 | any run of requests, roundings included: the image is made if and only if all files fit, and then it is sound, every free block is zero, and each inode holds exactly what was appended to it |
| ImageFiles.RoundedDirectory | xv6/tools/mkfs.c:188-193 | rounding up the size of a directory leaves every block below the size mapped if and only if the size was not already a multiple of the block size |
| Paging.NeverShared | xv6/kernel/vm.c:228-251 | in a sound state no physical page is mapped at two places, in one user space or in two |
| Paging.PteMeans | xv6/kernel/vm.c:52-72 | every entry is empty, a fixed kernel mapping, or names the page that this very virtual page owns |
| Paging.UnmapKeeps | xv6/kernel/vm.c:264-275 | freeing a mapped page before clearing its entry leaves every page again free or with one owner |
| VirtualMemory.Memory.constructor | xv6/kernel/kalloc.c:23-32 | at boot every page after the kernel is on the free list, once, and none is owned |
| VirtualMemory.Memory.Kfree | xv6/kernel/kalloc.c:38-54 | the page is filled with junk and pushed through its own first word; the panic is reported exactly for addresses that are no page of the pool; giving back a page the caller holds keeps every page free or with one owner |
| VirtualMemory.Memory.Kalloc | xv6/kernel/kalloc.c:59-70 | takes the head of the list, 0 exactly when it is empty; every other page keeps its owner |
| AddressSpace.FreeIsTheRest | xv6/kernel/kalloc.c:38-70 | each page of the pool that has no owner is listed exactly once, no other page at all |
| VirtualMemory.Memory.Walkpgdir | xv6/kernel/vm.c:52-72 | finds the entry, or adds an empty page table, after which every virtual page maps as before; it fails exactly when the table is missing and may not or cannot be made |
| VirtualMemory.Memory.Mappages | xv6/kernel/vm.c:77-98 | maps exactly the range, taking one page per missing table; out of memory only when fewer pages are free than tables are missing, so with its table present a single page below USERTOP cannot fail |
| Mappings.TableCount | xv6/kernel/vm.c:83-97 | over a run of mappings the tables taken are exactly those that were missing |
| Mappings.Rows | xv6/kernel/vm.c:122-131 | the four rows of the fixed map are the page ranges meant, the 32-bit wrap-around of the last one included |
| VirtualMemory.Memory.Setupkvm | xv6/kernel/vm.c:134-149 | the new directory maps the kernel pages, each to itself and closed to user programs, read-only exactly from 1 MB to the kernel data, and nothing else; it takes thirteen pages and succeeds if and only if that many are free; failing, it has taken all there were and gives none back; what was owned is untouched |
| VirtualMemory.Memory.Allocuvm | xv6/kernel/vm.c:228-251 | with enough free pages exactly the new range is mapped, open to the user, to zeroed pages that were free; with too few the mappings, the owners and the contents of all pages are as before the call; both directions |
| AddressSpace.Rollback | xv6/kernel/vm.c:239-244 | pages added to an empty range and then unmapped leave every mapping, owner and owned page as before |
| AddressSpace.RestoredFree | xv6/kernel/vm.c:239-244 | with the same owners the free list holds the same pages again, each once |
| VirtualMemory.Memory.Deallocuvm | xv6/kernel/vm.c:257-278 | exactly the user pages from the rounded new size to the old one are unmapped and freed |
| VirtualMemory.Memory.Freevm | xv6/kernel/vm.c:282-295 | frees exactly what the space owned: user pages, page tables, directory; every other page keeps owner and contents |
| VirtualMemory.Memory.Copyuvm | xv6/kernel/vm.c:299-326 | the copy holds the same memory on pages that were free, plus the kernel part; nothing that was there changes; it succeeds if and only if there are pages for both; failing restores everything if and only if the kernel part fitted or no page was free at all |
| VirtualMemory.SpacesApart | xv6/kernel/vm.c:228-326 | growing, shrinking or freeing one space leaves every other space its mappings and its memory |
| VirtualMemory.GrewApart | xv6/kernel/vm.c:228-251 | what growing a space leaves alone: every page outside it |
| VirtualMemory.CopyThenFree | xv6/kernel/vm.c:282-326 | copying a space and freeing the copy leaves nothing behind: same owners, same contents, same free pages |
| Effects.TruncatableExactly | xv6/kernel/fs.c:379-408 | every file that is not T_CHECKED can be truncated; a T_CHECKED file can exactly when all its checksums are zero |
| Shortfalls.CheckedStays | xv6/kernel/fs.c:387-403 | a sound image with a one-byte T_CHECKED file that `itrunc` cannot free |
| Shortfalls.AllocationPastEnd | xv6/kernel/fs.c:64-76 | a disk with every block of the file system in use, where the least clear bit is that of the block past its end |
| Links.RunExactly | xv6/kernel/sysfile.c:110-240 | over any run of calls the books stay right throughout if and only if no count at its limit is raised |
| Links.LimitReached | xv6/kernel/sysfile.c:123-125 | a run that takes a count to 32767 with all books right, after which the next call makes it negative and breaks them |
| ShellParser.ParsedPrints | xv6/user/sh.c:327-492 | whatever the parser accepts is a tree of real words, at most nine to a command, and parsing its canonical printing gives the same command |
| LfsLaws.ReadsLastWrite | linux/lfs.c:344-419 | after a successful write and any valid requests that leave that block alone, a read returns exactly the bytes written |
| LfsLaws.CreatedIsFound | linux/lfs.c:239-333 | after a successful creat the name is found; a new one at the least free number, where a fresh file or directory now is |
| LfsLaws.UnlinkedIsGone | linux/lfs.c:465-526 | after a successful unlink the name is not found and its inode is unused |
| Words.ChecksumIsParity | xv6/kernel/fs.c:465-470 | bit k of the checksum is the parity of bit k over the 512 bytes |
| Paging.EntryBits | xv6/kernel/vm.c:115-131 | in literal bits: an entry below USERTOP is open to the user and writeable; one above is closed to the user, maps its own address, and is read-only exactly from 1 MB up to the kernel data |
| Paging.DirectoryBits | xv6/kernel/vm.c:59-69 | every directory entry is 0 or a page table of the pool, present, writeable and open |
| Links.OpenStays | xv6/kernel/fs.c:200-232 | after any run, an inode with more opens than closes is not free whatever was unlinked; a close is possible exactly when an open is outstanding; with none, no entries and no link being made, it is free |
| Links.OpenKeeps | xv6/kernel/fs.c:284-302 | while an inode is open it keeps its kind, and its entries but for those a call makes or removes by name |
| Links.CreateMakes | xv6/kernel/sysfile.c:214-261 | the name is entered in the parent for a fresh inode with one link; a directory has itself and its parent; no other inode changes |
| Links.LinkMakes | xv6/kernel/sysfile.c:110-138 | the two halves of link: one more name and one more link for the inode, nothing else |
| Links.LinkUndone | xv6/kernel/sysfile.c:140-145 | giving the link up restores the state before it was begun |
| Links.UnlinkRemoves | xv6/kernel/sysfile.c:165-208 | exactly the name given goes; the inode goes or keeps its kind and entries, every other inode is as it was |
| LfsLaws.LookupFinds | linux/lfs.c:183-206 | the first entry with the name answers, in block and entry order |
| LfsLaws.LookupMisses | linux/lfs.c:183-206 | -1 when no entry of the directory has the name |
| LfsLaws.UnlinkExactly | linux/lfs.c:465-526 | removing a found name succeeds if and only if it is a regular file or entries 2 to 127 of its first block are unused; then that name and inode are gone and nothing else is; refused, nothing changes |
| LfsLaws.UnlinkOtherwise | linux/lfs.c:465-504 | an absent name succeeds and changes nothing; a place that is no directory gives -1 |
| LfsLaws.WriteExactly | linux/lfs.c:344-391 | a write succeeds if and only if the file is regular and the block is 0 to 13; that block is replaced, the size covers it, nothing else changes |
| LfsLaws.ReadStatExactly | linux/lfs.c:216-225 | stat gives type and size, read the bytes of the block, both -1 for numbers out of range, and neither changes anything |
| LfsLaws.CreatExactly | linux/lfs.c:239-333 | a new name is created if and only if an inode number is unused and the directory has room; the least number is taken, fresh contents by type, and nothing else changes |
| LfsLaws.CreatOtherwise | linux/lfs.c:239-262 | a name that is there succeeds and changes nothing; a place that is no directory gives -1 |
| LfsProgress.ExchangeCompletes | linux/sendPacket.c:15-56 | from any state of the protocol, one sending after which nothing is lost ends the call with the reply and the effect of carrying the request out once, whatever is still under way |
| KernelCalls.SchedulerRuns | xv6/kernel/proc.c:264-277 | in every reachable state where the scheduler scans a runnable slot its next step runs that process: RUNNING, on this CPU, with its page directory and its own interrupt state; nothing else changes |
| KernelCalls.SchedulerProgress | xv6/kernel/proc.c:255-286 | a CPU in its scheduler with the table lock free runs the first runnable process within two steps more than there are slots |
| KernelCalls.WakeupDoes | xv6/kernel/proc.c:380-385 | the call goes through and makes exactly the sleepers on the channel runnable; locks and CPUs are as before |
| KernelCalls.KillDoes | xv6/kernel/proc.c:391-408 | exactly the victim is marked, and made runnable if it slept |
| KernelCalls.SleepDoes | xv6/kernel/proc.c:332-365 | the process is off its CPU, asleep on the channel, its lock released, the table lock handed to the scheduler |
| KernelCalls.SleepReturns | xv6/kernel/proc.c:354-364 | run again, the channel is forgotten, the lock is held again and the table lock free |
| KernelCalls.YieldDoes | xv6/kernel/proc.c:310-316 | the process is off its CPU and runnable, no other has changed |
| KernelCalls.WaitReaps | xv6/kernel/proc.c:208-235 | with a zombie child the first one is reaped: slot, stack, page directory; no other process changes |
| KernelCalls.WaitRefuses | xv6/kernel/proc.c:237-241 | without children, or killed, and no zombie: it returns with nothing changed |
| KernelCalls.WaitSleeps | xv6/kernel/proc.c:243-245 | with living children only it sleeps on its own address |
| KernelCalls.ExitDoes | xv6/kernel/proc.c:166-204 | a zombie off its CPU; its children belong to init; the parent is woken from wait, and init when it inherits a zombie; nothing else changes |
| KernelCalls.ForkDoes | xv6/kernel/proc.c:128-161 | with memory the first unused slot is a runnable child with stack and page directory, starting in forkret; nothing else changes |
| KernelCalls.ForkRefused | xv6/kernel/proc.c:33-57 | without memory for a stack the slot is given back and nothing has changed |
| KernelCalls.ForkFull | xv6/kernel/proc.c:36-44 | without an unused slot nothing changes |
| PipeProgress.WriteCompletes | xv6/kernel/pipe.c:76-95 | with room for its bytes the writer gets through: all are stored in order, sleeping readers are woken, the count is returned, the lock is free |
| PipeProgress.WriteWaits | xv6/kernel/pipe.c:82-89 | at a full pipe the writer sleeps and wakes the readers, or gives up exactly when it was killed or nobody can read |
| PipeProgress.ReadCompletes | xv6/kernel/pipe.c:98-119 | with bytes there or no writer left the reader gets through: as many bytes as it asked for and there are, the next ones, and sleeping writers are woken |
| PipeProgress.ReadWaits | xv6/kernel/pipe.c:102-109 | at an empty pipe open for writing the reader sleeps, or gives up exactly when it was killed |
| PipeProgress.ClosingWakes | xv6/kernel/pipe.c:58-73 | closing an end wakes every sleeper at the other, a kill its victim |
| BufferProgress.ReadCompletes | xv6/kernel/bio.c:97-106 | bread of a sector that can be had returns within a number of steps bounded by the queue, holding a buffer that was free, with the data last written; a cached valid one takes no disk access |
| BufferProgress.WriteCompletes | xv6/kernel/bio.c:109-115 | bwrite returns within a number of steps bounded by the queue, and then the disk has the bytes that were in the buffer |
| BufferProgress.Served | xv6/kernel/ide.c:91-121 | the drive and its interrupts get through the queue: a waiting request is finished after two steps at most for each request up to it |
| BufferProgress.ChangeStores | xv6/kernel/bio.c:109-115 | the holder changes the bytes of its buffer and nothing else |
| BufferProgress.ReleaseFrees | xv6/kernel/bio.c:119-138 | the buffer is free, in front, not held any more, and every sleeper for it looks through the cache again |
| ShellSource.SourceParses | xv6/user/sh.c:264-445 | source text as typed: any words and redirections in any order, bare or parenthesised pipelines, lists and `&`, any blanks between tokens; the parse is the command meant, with every redirection in order, `>>` as an output |
| ShellSource.AcceptsExactly | xv6/user/sh.c:327-445 | the parser accepts a text if and only if it is such a line, with at most nine words to a command, and gives its meaning |
| ShellSource.ListInto | xv6/user/sh.c:440-444 | `ls>o` keeps its redirection |
| KernelCalls.SchedulerResumes | xv6/kernel/proc.c:278-282 | back from a process the scheduler is on the kernel page directory, runs no process and goes on with the next slot |
| KernelCalls.ScanEnds | xv6/kernel/proc.c:265-284 | a scan that meets nothing runnable ends after a step for each slot left, with the table lock free and the loop at its top |
| KernelCalls.InterruptDoes | xv6/kernel/trap.c:34-95 | an interrupt stops a thread with interrupts off and returns to the very same place with them on; on an idle CPU it wakes exactly the sleepers on its channel |
| KernelCalls.LockDoes | xv6/kernel/spinlock.c:22-68 | the acquired lock is held with interrupts off and cannot be had again; releasing it restores locks, nesting and interrupt flag |

## Left out

* Hardware: boot code, context-switch and trap assembly, interrupt controllers, timer, console and port input/output. An `xchg` is one atomic step, `swtch` a change of which thread a CPU runs, the disk an array of sectors without errors.
* Crash points inside a file operation: there is no journal, so nothing is claimed about them.
* `stati`: it reads half of the indirect entries and never releases its buffer.
* The O_CHECKED branch of `sys_open`, which is never reached.
* Device reads and writes: `readi` and `writei` report that the driver is called; what it does is a parameter.
- FileSystems.FileSystem.Bmap: the model of the file system works on disk blocks directly; that buffers hold the same bytes is the subject of the buffer cache model. Locking of inodes and the table of in-core inodes are not modelled: the caller holds one locked inode at a time.
- FileSystems.FileSystem.Writei: with no block below `sb.size` free the original panics or, when bits after the last block are clear, goes on with a block past the end; both are the one result `Panic`, and the state after it is not described. The same holds of `Bmap` and of directory entries.
- DirectoryOps.Dirlink: inode numbers from 1 to 65535, which is what fits the entry; reference counts of the inode that `dirlookup` returns are not modelled.
* Path names (`skipelem`, `namex`), file descriptors and the open file table.
- Links.CountsEver: runs in which no count at 32767 is raised (see Links.RunExactly for all runs); parents are linked directories and the image starts with one directory; an image with subdirectories from the image builder starts with counts that do not include their "..". Names are those left after the cut at 14 bytes.
* Processes: contents of trap frames, names, working directories and open files; `exec`, `growproc` and `userinit`; address spaces are a model of their own. The loops of `wakeup1`, of the child scan in `wait` and of the orphan hand-over in `exit` run under `ptable.lock` and are single steps; allocation failures are free choices there (when they happen is the subject of the page allocator).
- KernelTheorems.NoPanic: init does not call `exit`, and the callers outside the process module keep to its rules: they call `sleep` holding exactly the lock they name, `wait`, `yield`, `exit` and `fork` holding none, acquire no lock they hold and release only those they hold.
- BufferTheorems.CoherentEver: holders write their changes before releasing a buffer, devices are 0 and (if present) 1, sectors have 28 bits, and the drive reports no errors; a critical section under the cache or disk lock is one step. The drive interrupts only when a request is finished, or with no request queued.
- ExactLru.HitExactly: the sectors asked for do not carry the device number of an unused buffer.
- Umalloc.Allocator.Malloc: the answer of the system to `sbrk` is a parameter, fresh memory above the static `base`; requests whose byte count overflows are reported as such and go no further. The units are header-sized; a user program that calls `sbrk` itself is not modelled.
- PipeTheorems.SleepersCovered: with kills the promise is given by PipeTheorems.LiveExactly instead. Allocation of the pipe and its freeing when both ends are closed are not modelled.
* The line buffer loop of `grep`, which looks at bytes left from earlier input.
* Running commands in the shell; the panics of its parser are one failure result without a message.
- ShellRoundTrip.RoundTrip: `>>` builds the same redirection as `>`, so the printing uses `>` for both.
- LfsTree.TwiceIsOnce: for valid types, inode numbers out of range or in use, blocks that were written, names other than ".", ".." and "DNE", and removal from directories of one block; reading a directory is not modelled. Blocks are typed: no inode block is read as data.
- LfsServer.Server.LookupServer: the parent is a directory or its number out of range; the original also scans the data of a regular file as if it were entries. Names are unbounded strings; the original has 28 bytes for each.
- LfsServer.Server.WriteServer: file offsets are unbounded; the original keeps them in a 32-bit int, which is exact below 524288 blocks.
- LfsRetry.AtLeastOnceIsExactlyOnce: one client; sockets and timers appear only as the freedom to send again and to lose packets.
- Mkfs.Build: walking the host directory tree (`add_dir`) is a list of requests; requests name existing files, sizes on a block boundary are not rounded up (see Mkfs.Builder.RoundSize), the image is smaller than 2^24 blocks, inode numbers stay below the number of inodes (the builder does not check), and no file is T_CHECKED. Its printing is left out.
- VirtualMemory.Memory.Setupkvm: the panic on remapping cannot happen there and is not a result.
- VirtualMemory.Memory.Allocuvm: the range to grow into is unmapped, and the directory has its first page table, as after `setupkvm`; sizes end at USERTOP. Memory is kept as 32-bit words.
- VirtualMemory.Memory.Copyuvm: every page below the size is mapped; the original panics otherwise.
* The lock of the page allocator, `inituvm`, `loaduvm`, `copyout`, segment descriptors and the switching of page tables on the hardware; the kernel's data section starts on a page boundary.
- KernelCalls.SleepDoes: like the other laws of single calls, for a call whose CPU takes its steps one after the other while the table lock is free at its start; how calls interleave is the subject of KernelTheorems. How long a process keeps its CPU is not modelled, so nothing is claimed about when the scheduler comes back from it.
- BufferProgress.ReadCompletes: for a sector whose buffer is free, or that has none while some buffer is free; otherwise `bget` sleeps or panics (BufferTheorems.OnlyPanic).
