# Verified models of the kernel, its image builder and its shell

Dafny models of an ARMv8 teaching kernel with a crash-safe file system, of the program that builds its
disk image, and of its shell's parser, with proofs of what they promise. `dafny verify dfyconfig.toml`
checks everything. The models follow the code; where the code falls short of its comments, the exact
condition under which it does what it should is proved, with an example where it does not.

- **Storage stack.** `Disk` is a card of sectors with a history of its states, one for every write, so that
  a power failure leaves one of them. `Bcache` is the buffer cache with its linked list (`CircularList`);
  `BufferLocks` is who waits for and holds its buffers, over all interleavings;
  `Log` the redo log on top of it; `Recovery` says what recovery makes of a card and proves crash atomicity;
  `GroupCommit` is the locking protocol of `begin_op`, `log_write` and `end_op` over all interleavings.
  `Layout`, `Blocks` and `Files` are the free map, the ownership of blocks and the contents of files;
  `OpenFiles` reads and writes through an open file in bounded transactions. `Updates` is what these
  operations pass to `log_write`; `Transactions` puts the file system on the card, byte by byte, and runs
  whole operations through the cache, the log and `commit`: a power failure at any write leaves, after
  recovery, the file system from before the operation or the one from after it. `Journal` is group commit
  with contents: operations whose updates mix, committed together, each found whole or not at all after a
  failure at any point of any run. `Directories`, `Paths` and `Names` are directories, path names and the
  inode cache. `Mkfs` builds an image; `Boot` writes it to a card as bytes and boots the kernel from it;
  `RootDirectory` says what the names in its root directory lead to, and `DiskFormat` which byte of the card
  is what.
- **Memory.** `Frames` is physical memory with a role for every page and the hardware's table walk;
  `PageTables` the page allocator, `pgdir_walk` and `map_region`; `Uvm` growing and shrinking;
  `AddressCopy` copying for `fork`; `TableFree` what `wait` frees; `DeallocGap` an address space that
  `uvm_dealloc` does not empty.
- **Processes.** `Processes` is a step system of any number of CPUs, processes and sleep locks: `scheduler`,
  `sched`, `fork`, `exit`, `wait`, `sleep`, `wakeup`, `acquiresleep` and `releasesleep`. `Families` is about
  parents and children, and about what these calls come back with.
- **SD driver.** `SdQueue` is the request queue shared by `sdrw` and the interrupt handler.
- **Shell.** `Shell` is what the recursive parser computes. `ShellGrammar` writes the language down apart from
  the parser: tokens, how a text spells them, and sentences with their commands. `ShellText` proves that the
  parser accepts exactly those sentences, `ShellPrint` that every command can be printed and read back, and
  `ShellParser` is the parser at work on its buffer, with `nulterminate`.

Conventions. An operation that changes state is a method of a class with the fields of the C struct;
pointers into an array of structs are indices. A panic is an out-parameter `ok` that is false. Ghost
fields and parameters carry history only. Predicates on value states say what an operation did, so that
lemmas can talk about whole sequences.

Where the code and its comments or the design disagree:

- `log_write` panics at `log.size - 1` entries and tests before it looks for absorption. With operations of
  at most 9 distinct blocks the panic is out of reach; with the advertised 10 it is not
  (`GroupCommit.PanicFree`, an equivalence).
- `uvm_dealloc` passes over the first page behind a missing table. It empties its range exactly when no page
  that it passes over is mapped (`Uvm.DeallocComplete`, `DeallocGap.PageLeftMapped`).
- `copyuvm` loses the pages of a copy that runs out of memory, but for the root (`AddressCopy.Copyuvm`).
- `vm_free(pgdir, 1)` frees the tables of levels 0, 1 and 3, not those of level 2 and not the user pages
  (`TableFree.FreeRoot`).
- `dirlink` stores inode numbers in 16 bits: a multiple of 65536 adds no binding (`Directories.LinkBinds`).
- `mkfs` adds a whole block to the size of a root directory that fills whole blocks already, which leaves a
  hole (`Mkfs.RoundedRoot`, an equivalence; thirty files do it, `Boot.HoleInRoot`).
- `>>` opens a file as `>` does: the mode is fixed by the first character (`Shell.RedirsFrom`).
- `sd_intr` treats any interrupt as the end of a read, since `INT_READ_RDY` stands there as a constant; a
  write ends with `INT_DATA_DONE` alone and is started again otherwise (`SdQueue.Driver.SdIntr`).

## Model

| member | source | states |
|---|---|---|
| Recovery.CrashAtomicity | kern/log.c:125-220 | Whichever state of the card a failure leaves during a commit, from before its first write on, and however often recovery is cut off between two of its writes and started over, the next complete recovery leaves all home blocks old if the failure came before the switch, and all new from it on |
| Recovery.RestartsConverge | kern/log.c:125-133 | However often recovery is cut off and started over, the outcome of a complete one stays the same |
| Recovery.InstallTwice | kern/log.c:74-89 | Installing a log over a card where the first entries are installed already gives the same card as installing it once |
| Recovery.AfterHeader | kern/log.c:209-220 | Writing the header over a log that holds the blocks makes recovery yield the new contents: the header write is the switch |
| Recovery.BeforeHeader | kern/log.c:192-207 | As long as only log slots were written under an empty header, recovery yields the old contents |
| Recovery.WhileInstalling | kern/log.c:74-89 | After each write of `install_trans`, recovery still yields the new contents |
| Recovery.HeaderCommits | kern/log.c:106-123 | The header block with `n` and the block list turns the cache's view into what recovery will install |
| Recovery.NewHeader | kern/log.c:106-123 | Read as words, the new header block is the count, the list, and behind it the old words |
| Log.Log.Commit | kern/log.c:209-220 | The states of the card, the one before the first write included, split in two: up to some write every state recovers to the old file system, and from it on every state recovers to the view that the cache had; at the end the log is empty and nothing is pinned |
| Log.Log.WriteLog | kern/log.c:192-207 | Copies the cached contents of the listed blocks to the log slots and writes nothing else |
| Log.Log.WriteLogStep | kern/log.c:200-205 | One turn: one write, to the next log slot, of what the cache has for the next block of the list |
| Log.Log.BreadTwo | kern/log.c:82-83 | Two different blocks held at once; it succeeds when two buffers can be had |
| Log.Log.Copy | kern/log.c:82-87 | One block of the view is written over another, on the card and in the view; the destination is unpinned and both are released |
| Log.Log.WriteLogAndHead | kern/log.c:213-215 | Up to the header write every state of the card recovers to the old contents; the state after it to the new ones |
| Log.Log.InstallTrans | kern/log.c:74-89 | Copies the logged blocks home, one write each, unpins them, and with room in the cache never fails |
| Log.Log.InstallStep | kern/log.c:82-87 | One turn: one write, which brings the next logged block home |
| Log.Log.Erase | kern/log.c:217-218 | The header write with count 0 empties the log and nothing else changes |
| Log.Log.WriteHead | kern/log.c:106-123 | One write, of the header block, with the in-memory count and list over the rest of the old header |
| Log.Log.FillHeader | kern/log.c:116-120 | The count, the list, and behind it the old words |
| Log.Log.RecoverFromLog | kern/log.c:125-133 | At boot the card becomes what the log says, the log is empty afterwards, and every single write on the way leaves a point from which recovery can start over |
| Log.Log.ReadHead | kern/log.c:91-104 | The in-memory list is that of the header block |
| Log.Log.LoadHeader | kern/log.c:98-102 | Count and list are those of the block |
| Log.Log.LogWrite | kern/log.c:232-257 | Succeeds exactly below both limits, absorbs a block that is listed, keeps the list free of repetitions, and pins the buffer; the panic changes nothing |
| Log.Log.FindEntry | kern/log.c:246-250 | The first entry with the block, or the end of the list |
| Log.Log.LogRewrite | kern/fs.c:421-424 | The pattern of every change to a block: new content, `log_write`, `brelse`; the view has it, the block is logged, and it fails exactly where `log_write` panics |
| Log.Log.SettledUnheld | kern/log.c:209-220 | With no block held, a block that is not logged is as on the card: what `commit` relies on |
| GroupCommit.GroupCommitSafety | kern/log.c:135-190 | In every reachable state: committing excludes open operations, an idle log is empty, the list has at most 28 entries, the panic was not hit, the list does not change while it is written, what an operation logged is listed, at most one process commits, and a sleeper in `begin_op` coexists with a commit or an open operation |
| GroupCommit.PanicFree | kern/log.c:232-257 | For two or more processes, the panic of `log_write` is unreachable if and only if an operation logs fewer than `MAXOPBLOCKS` distinct blocks |
| GroupCommit.TenBlocksPanic | kern/log.c:232-257 | Two operations of ten distinct blocks each reach the panic |
| GroupCommit.StepKeeps | kern/log.c:135-257 | Every step of every process keeps the invariant of the protocol |
| GroupCommit.RunKeeps | kern/log.c:135-257 | So does every run |
| BufferCache.Coherence | kern/bio.c:60-99 | In a consistent cache a block has at most one buffer, and a valid, clean, unlocked buffer holds its sector |
| BufferCache.Exhaustion | kern/bio.c:84-98 | When no buffer can be recycled, the locked and the pinned blocks together fill the cache: `bget` panics only then |
| BufferCache.Bcache.Binit | kern/bio.c:39-58 | The list links all buffers, the last one first, and none is assigned a block |
| BufferCache.Bcache.Bget | kern/bio.c:60-99 | A locked buffer for the sector, the cached one or else the least recently used unpinned one; a pinned buffer is never recycled; fails only when all are busy |
| BufferCache.Bcache.Scan | kern/bio.c:74-82 | Following the next links finds the buffer of the sector if there is one |
| BufferCache.Bcache.Victim | kern/bio.c:84-97 | Following the prev links finds the least recently used buffer that is neither held nor pinned |
| BufferCache.Bcache.Sdrw | kern/sd.c:655-684 | A dirty buffer goes to the card in one write, any other is filled from it; it is valid and clean then |
| BufferCache.Bcache.Fill | kern/bio.c:109-111 | The buffer holds the view of its sector, read from the card only if it was not valid |
| BufferCache.Bcache.Bread | kern/bio.c:101-113 | The buffer returned holds the card overlaid with the pinned writes; neither the card nor that view changes |
| BufferCache.Bcache.Pin | kern/log.c:255 | Setting B_DIRTY adds the block to the pinned ones and changes nothing in view |
| BufferCache.Bcache.Bwrite | kern/bio.c:115-125 | One write of the buffer's sector, which is clean then |
| BufferCache.Bcache.Brelse | kern/bio.c:127-153 | The buffer is unlocked, its contents stay in view, and it moves to the front of the list if nobody else holds it |
| BufferCache.Bcache.MoveToFront | kern/bio.c:142-150 | The six pointer assignments move one node to the front of the list and keep the order of the others |
| BufferCache.FrontKeepsAll | kern/bio.c:142-150 | The reordered list has the same members |
| BufferLocks.StepKeeps | kern/bio.c:60-153 | Every step of every request keeps: references are counted, locks are held by those who have the buffer, a buffer that is waited for or held is for the block asked for, and no two buffers are for one block |
| BufferLocks.BgetReturnsTheBlock | kern/bio.c:60-99 | In every reachable state of any interleaving, who returned from `bget` holds a buffer for the block asked for, and nobody else holds one for it |
| BufferLocks.NeverRecycledUnderUse | kern/bio.c:84-97 | No buffer with a holder or a waiter is recycled, and no dirty one |
| BufferLocks.OneBufferEach | kern/bio.c:74-82 | Two requests for a block wait for the same buffer |
| BufferLocks.BgetPanics | kern/bio.c:86-98 | For a block that is not cached `bget` panics exactly when every buffer is dirty or still referred to |
| CircularList.LinkBetween | inc/list.h:48-62 | The four assignments of `__list_add` insert a node between two neighbours of a circular list, and nothing else |
| CircularList.Unlink | inc/list.h:90-101 | The two assignments of `__list_del` take out exactly one member |
| Layout.PutThenWord | kern/fs.c:427-437 | A little-endian word stored in a block is read back, and its neighbours are kept |
| Layout.PutWordsRead | kern/fs.c:232-255 | Words stored one behind the other are read back, and those beside them are kept |
| Blocks.OneLessFree | kern/fs.c:74-86 | Marking a free block leaves one free block less |
| Layout.BitAfter | kern/fs.c:74-104 | Setting or clearing the bit of a block changes that bit alone |
| Blocks.OneOwner | kern/fs.c:412-443 | Two places, in one file or in two, never name the same block, and none names metadata |
| Blocks.PointerOwned | kern/fs.c:419-431 | Putting a free block into an empty pointer keeps "a bit is set exactly for metadata and for blocks with one place naming them" |
| Blocks.EntryOwned | kern/fs.c:432-437 | The same for an entry of an indirect block |
| Blocks.PointerContent | kern/fs.c:419-431 | A fresh block in a pointer, even the indirect one, changes no byte of any file |
| Blocks.EntryContent | kern/fs.c:432-437 | Nor does one in an indirect entry |
| Blocks.DataWrite | kern/fs.c:563-569 | Writing a data block changes the bytes of that block of that file and no place |
| Files.Fs.Balloc | kern/fs.c:63-87 | The first block whose bit is clear, zeroed and marked; one free block less; fails exactly with every bit set |
| Files.Fs.AllocPointer | kern/fs.c:419-431 | A fresh zeroed block for an empty pointer: ownership is kept, no byte of a file changes |
| Files.Fs.AllocEntry | kern/fs.c:434-437 | The same for an entry of the indirect block, which is logged too |
| Files.Fs.Pointer | kern/fs.c:419-431 | The block of a pointer, a fresh one if it was empty |
| Files.Fs.Entry | kern/fs.c:432-437 | The block of an indirect entry, a fresh one if it was empty |
| Files.Fs.Indirect | kern/fs.c:425-440 | The block behind the indirect pointer, with up to two fresh blocks |
| Files.Fs.Bfree | kern/fs.c:89-107 | Clears one bit; the panic on a free block is exactly a clear bit |
| Files.Fs.Bmap | kern/fs.c:408-443 | The block of a file's block number, allocated if it had none, with ownership kept and no byte changed; what it logs is listed; it takes exactly the blocks that were lacking, and fails exactly out of range or with fewer free ones |
| Files.Fs.Readi | kern/fs.c:512-540 | Bytes of the file clipped to its size, -1 beyond it; reading a file without holes changes nothing |
| Files.Fs.ReadStep | kern/fs.c:533-538 | One turn reads the next stretch of the file within one block |
| Files.Fs.Writei | kern/fs.c:542-576 | The file becomes its old bytes with the new ones spliced in, no other file changes, the inode on disk is current, no hole appears, every change of a block was logged; -1 exactly beyond the size or the limit; otherwise it panics exactly when the blocks that the write lacks are more than are free; a bound on the blocks logged |
| Files.Fs.WriteStep | kern/fs.c:563-569 | One turn splices the next piece of the source into the file |
| Files.Fs.WriteLoop | kern/fs.c:563-569 | The loop splices the whole source into the file and takes exactly the blocks that were lacking, or fails exactly when there are fewer; what it logs is accounted for |
| Files.Fs.Itrunc | kern/fs.c:445-482 | Exactly the blocks of the file become free, no other file changes, and freeing a free block does not happen; nothing but the inode block and blocks of the free map is logged |
| Files.Fs.TruncDirect | kern/fs.c:460-465 | Exactly the blocks of the direct pointers become free, each from a set bit |
| Files.Fs.TruncIndirect | kern/fs.c:467-478 | Then those of the indirect entries and the indirect block itself |
| Files.Fs.Iupdate | kern/fs.c:232-255 | The inode on disk is the cached one, and that is what `log_write` gets |
| Files.NothingFresh | kern/fs.c:533-538 | Inside a file without holes `bmap` has nothing to allocate |
| Files.Resized | kern/fs.c:571-574 | After the loop of `writei`, setting the size leaves files without holes, and the file is the spliced one |
| Files.BoundCharge | kern/fs.c:546-576 | What the loop of `writei` logged is within the bound: data blocks, the indirect block, the inode block, and free-map blocks |
| Files.Fs.Mark | kern/fs.c:77-80 | The bit is set, and the byte of the free map is what `log_write` gets |
| Files.Fs.Rewrite | kern/fs.c:563-569 | The block is replaced, and its new content is what `log_write` gets |
| Files.TakesNext | kern/fs.c:563-566 | One more block of a file took what it and the indirect block lacked; its other blocks stay |
| Files.LackingSplit | kern/fs.c:563-566 | What a range of blocks lacks is what its start lacks, and what the rest lacks after the start was allocated |
| Updates.LeadsOn | kern/log.c:222-257 | One more logged update leads from the volume at the start of the transaction to the present one, and its block is among those logged |
| OpenFiles.File.Fileread | kern/file.c:101-123 | Reads the slice at the offset and advances by its length |
| OpenFiles.File.Filewrite | kern/file.c:125-172 | The chunks add up to one contiguous write at the offset; it is complete exactly when the offset is within the file and the end within the limit; within the limit it panics exactly when the blocks that the whole write lacks are more than are free; the transactions lead from the old blocks to the new ones, and none logs more than 10 blocks, or 7 with a one-block free map |
| OpenFiles.File.WriteChunk | kern/file.c:153-159 | One transaction writes a chunk at the offset, or nothing; the log bound holds for it; it panics exactly when it lacks more blocks than are free, and the disk is full then |
| OpenFiles.File.WriteNext | kern/file.c:147-168 | One turn: one more chunk is in the file, or why there is none |
| OpenFiles.TooMuch | kern/file.c:147-168 | If the next chunk lacks more blocks than are left, the write so far together with it lacks more than there were |
| OpenFiles.WroteTwice | kern/file.c:147-168 | Two adjacent writes are one write of both pieces |
| OpenFiles.ChunkFits | kern/file.c:139-145 | A chunk of at most 1536 bytes logs at most 10 blocks, and at most 7 when the free map is one block |
| Transactions.PutThenInode | inc/fs.h:49-62 | An inode stored in its block as bytes is read back, and the other inodes of the block are kept |
| Transactions.StoredOnce | inc/fs.h:49-68 | A card holds at most one volume: free map, inodes and data blocks can be read back |
| Transactions.StoredAfter | kern/fs.c:244-254 | Changing a byte of the free map, an inode or a block in its buffer is that change of the volume and no other, and the buffer is outside the log |
| Transactions.StoredHome | kern/log.c:74-89 | A volume is there on every image that agrees outside the log |
| Transactions.LogUpdate | kern/fs.c:244-254 | `bread`, the change, `log_write` and `brelse` of one block: the cache holds the changed volume, the block is logged, and the card is as before |
| Transactions.LogNext | kern/log.c:222-257 | One more update of an operation went through the cache to the log |
| Transactions.LogAll | kern/log.c:222-257 | All updates of an operation are in the cache and in the log and none on the card; with room in the log no panic is reached |
| Transactions.CommitIsAtomic | kern/log.c:209-220 | Recovery can start from each state of the card during a commit, and, cut off and restarted at will, finds the volume from before or the one from after, with one switch between them |
| Transactions.CommitVolume | kern/log.c:209-220 | `commit` from a card with one volume to a cache with another, atomic at every crash point |
| Transactions.EndTransaction | kern/log.c:159-190 | The operation's updates become durable together: recovery can start at any crash point and finds the old volume or the new one, and the new one is a file system whose blocks have one owner each and whose files have no holes; with room in the log no panic is reached |
| Transactions.WriteTransaction | kern/file.c:153-159 | A crash at any write of a chunk's transaction leaves the file system from before the write or that from after it; with a quiet cache it is complete unless the disk lacks room, and the cache is quiet again |
| Transactions.TruncateTransaction | kern/fs.c:445-482 | The same for `itrunc`; it is complete if the log has room for the inode block and the blocks of the free map |
| Transactions.LinkTransaction | kern/fs.c:615-643 | The same for `dirlink`; it is complete for a name that is there, and for a new one in a directory of whole entries with room for it |
| Transactions.Reboot | kern/log.c:58-72 | Booting from a card on which recovery finds a volume leaves cache and card holding it, with an empty log |
| Transactions.BootAfterCrash | kern/log.c:58-72 | From any state that a transaction left on the card, after any number of recoveries that were cut off, the next boot ends with cache and card holding the old volume or the new one, and transactions can go on |
| Transactions.RestartsAreChain | kern/log.c:125-133 | Recovery never leaves a card from which recovery cannot start |
| Journal.Journal.CrashPoint | kern/log.c:135-220 | At any crash point of any run of interleaved operations, recovery finds the volume after some of the committed groups; every operation is in it with all that it logged, or with nothing |
| Journal.Journal.BeginOp | kern/log.c:136-152 | A new operation is let in exactly when the log has room for MAXOPBLOCKS more blocks for it and for each open one |
| Journal.Journal.LogEvent | kern/log.c:222-257 | One update of one operation, in any order with those of the others, reaches the cache and the log; at most one block more is listed, none if the operation logged it before |
| Journal.Journal.LogWrite | kern/log.c:222-257 | As long as no operation logs more than MAXOPBLOCKS - 1 distinct blocks, the panic is out of reach, with the contents of the blocks in place |
| Journal.Journal.EndOp | kern/log.c:158-190 | The last operation to end commits all of them, and then every operation is durable with all that it logged; the others leave the card alone; crash points stay recoverable even if the commit panics |
| Journal.Journal.Commit | kern/log.c:209-220 | The events since the last commit become one group, durable together |
| Journal.WhollyOrNot | kern/log.c:135-220 | In the first k groups an operation is with all that it logged or with nothing |
| Journal.BudgetBegins | kern/log.c:142-146 | The test of `begin_op` keeps logged blocks and those that open operations may still log within the log |
| Journal.BudgetLogs | kern/log.c:246-254 | So does a block that an operation logs within its limit |
| Journal.MoreChains | kern/log.c:209-220 | The states of a commit extend the states of the run, each with the groups that recovery finds in it |
| Directories.Namecmp | kern/fs.c:580-584 | Equal exactly when the names agree, byte by byte, up to a NUL or 14 bytes |
| Directories.Dirlookup | kern/fs.c:586-613 | The first entry in use with the name, or none; it panics exactly on an inode that is no directory, or if the name is not there and a partial entry ends the directory |
| Directories.ReadEntry | kern/fs.c:599-601 | One entry of the directory; the panic is exactly a partial one |
| Directories.Dirlink | kern/fs.c:615-643 | -1 and no change for a name that is there; otherwise the entry goes into the first empty one or behind the last; it panics exactly on an inode that is no directory, or for a new name behind a partial entry, beyond the largest size, or without the free blocks that it lacks |
| Directories.LinkBinds | kern/fs.c:637-640 | After `dirlink` of a new name the directory maps that name to the inode number, and every other name as before, if and only if the number is not 0 modulo 2^16; otherwise nothing is bound |
| Directories.LinkUnique | kern/fs.c:623-640 | Names stay unique, and entries whole |
| Paths.Skipelem | kern/fs.c:648-684 | Splits off the first component, cut to 14 bytes, and leaves the other components; none if there is none |
| Paths.SkipSlashes | kern/fs.c:667-682 | Leading slashes do not matter to the components |
| Paths.WordFirst | kern/fs.c:671-680 | The components of a path that starts with a word are at most 14 bytes of that word and the components of the rest |
| Names.Icache.Iget | kern/fs.c:257-296 | The entry of the inode with one more reference, a new one only if it had none; entries stay unique; it fails exactly when all entries are in use for others |
| Names.Icache.Idup | kern/fs.c:298-310 | One more reference |
| Names.Icache.Iunlock | kern/fs.c:347-357 | The lock is released |
| Names.Icache.FreeInode | kern/fs.c:380-382 | The inode is empty and without type, on disk too; other files are as before |
| Names.Icache.Iput | kern/fs.c:359-391 | One reference less; the last one to an inode without links frees it and its blocks, and nothing else changes |
| Names.Icache.Ilock | kern/fs.c:312-345 | Locks and loads; the panic is exactly an inode without type |
| Names.Icache.Namex | kern/fs.c:686-725 | A path that begins with a slash is walked from inode 1, any other from the current directory; the result is lookup by lookup along the components; on every path all locks are released and the reference counts are as before, but for one more on the result; fails only with a full inode cache |
| Names.Icache.NamexStep | kern/fs.c:702-718 | One component: the reference moves from the directory to the inode found, or is given up |
| Names.Icache.ParentHere | kern/fs.c:703-712 | The stop before the last component: the directory, unlocked, or none if it is not one |
| Names.ParentIsPrefix | kern/fs.c:708-712 | The parent of a path is where the path without its last component leads, if that is a directory |
| Mkfs.Builder.Iappend | user/src/mkfs/main.c:269-311 | The file becomes its old bytes and the new ones, no other file changes, and blocks are handed out in order, each to one place; it takes exactly the blocks that the longer file needs, and fails exactly when the file would be too long or those blocks do not fit |
| Mkfs.Builder.PointerFor | user/src/mkfs/main.c:285-293 | An empty pointer gets the next block; no other place and no byte changes |
| Mkfs.Builder.EntryFor | user/src/mkfs/main.c:294-299 | So does an empty indirect entry |
| Mkfs.Builder.BlockFor | user/src/mkfs/main.c:285-300 | The block of a block number; no other block of the file comes or goes |
| Mkfs.Builder.AppendStep | user/src/mkfs/main.c:282-308 | One turn appends the next piece and takes exactly the blocks that it needs |
| Mkfs.Builder.Ialloc | user/src/mkfs/main.c:237-249 | The next inode, empty with one link; files are as before |
| Mkfs.Balloc | user/src/mkfs/main.c:251-265 | The bitmap block has exactly the first bits set |
| Mkfs.Build | user/src/mkfs/main.c:72-182 | Inode 1 is a directory, the inodes from 2 on are plain files, each with one link, and no other is in use; the free map marks exactly the blocks below `freeblock`, blocks are owned as the kernel wants, each file reads back as its chunks in order, and the root directory as its entries and zeros, unless it has a hole; the number of blocks is the sum of what the files and the root directory need, and the image is built exactly when inodes, file sizes and that sum fit |
| Mkfs.Builder.AddFile | user/src/mkfs/main.c:159-170 | One more plain file is in the image and listed in the root directory; the earlier ones are as they were; it succeeds exactly when the files up to it fit |
| Mkfs.AddRoot | user/src/mkfs/main.c:122-133 | Inode 1 is a directory with one link and two entries, in one block, and the only inode in use; this cannot fail |
| Mkfs.Builder.RoundRoot | user/src/mkfs/main.c:172-177 | Only the size of the root directory changes, to the next multiple of a block beyond it |
| Mkfs.RoundedRoot | user/src/mkfs/main.c:172-177 | The rounding leaves a file system without holes if and only if the root directory did not fill whole blocks; what it adds is zeros |
| Mkfs.AppendMore | user/src/mkfs/main.c:282-308 | One turn of the loop puts its bytes into the file, hands out no block but the one it needs, and leaves the unused blocks zero |
| Mkfs.FreshIsNeed | user/src/mkfs/main.c:282-302 | What is allocated for the next bytes of a file is what the longer file needs more |
| Mkfs.FitsLess | user/src/mkfs/main.c:136-170 | If some files fit, so do the first of them |
| Boot.SuperAgrees | user/src/mkfs/main.c:101-113 | What the kernel reads from the superblock is where the builder put everything |
| Boot.ImageHolds | user/src/mkfs/main.c:115-133 | The image as bytes holds the free map, the inodes and the blocks that were built, and an empty log |
| Boot.CopyImage | mksd.mk:36-39 | The image fills its partition and nothing else |
| Boot.FirstBoot | kern/log.c:58-72 | Built, copied to a card and booted, the kernel holds exactly the built volume, on the card and in the cache, ready for transactions and for path lookup, which finds the files by their names; it is a file system without holes unless the root directory fills whole blocks |
| Boot.ThirtyFiles | user/src/mkfs/main.c:172-177 | Thirty files of at most a block each fit, and make a root directory of exactly one block |
| Boot.HoleInRoot | user/src/mkfs/main.c:172-177 | A concrete image on which the root directory has a hole |
| RootDirectory.NamesLead | user/src/mkfs/main.c:122-164 | From the root, `.` and `..` lead back to it, the first 14 bytes of a file's name lead to its inode, the first one if two files share them, and nothing else leads anywhere |
| RootDirectory.RootLookup | user/src/mkfs/main.c:124-164 | A name is bound by its first entry, to the inode that this entry is for |
| RootDirectory.RootMisses | user/src/mkfs/main.c:172-177 | The zeros behind the last entry bind nothing |
| RootDirectory.ReadyForNames | user/src/mkfs/main.c:122-177 | The image meets what `namex` asks for: whole entries that lead to inodes in use, and no inode in use without links |
| DiskFormat.SuperBytes | inc/fs.h:34-42 | The superblock of an image says 1000, 941, 200, 30, 2, 32, 58, in words of four bytes, the low byte first |
| DiskFormat.InodeBytes | inc/fs.h:49-56 | The bytes of each field of an inode in its block |
| DiskFormat.BitOfByte | kern/fs.c:73-78 | The bit of block k is bit k % 8 of byte k / 8, counted from the lowest |
| DiskFormat.FileBytes | kern/fs.c:403-440 | Byte i of a file is in the block whose address is word i / 512 of the inode, and from the thirteenth block on of the indirect block |
| DiskFormat.OnCard | inc/fs.h:58-68 | On the card of a booted image inode j is in sector 0x20820 + j / 8, and the bit of block b in sector 0x2083A + b / 4096 |
| Frames.Translation | inc/mmu.h:24-46 | The hardware's walk through the tables maps a page exactly when the page has a place, and to that frame |
| Frames.NextTable | inc/mmu.h:15-31 | Following the four indices of an address leads through its own tables |
| Frames.ChildInjective | inc/mmu.h:15-31 | Different entries of different tables lead to different places |
| Frames.AttachKeeps | kern/vm.c:41-45 | A table put below an entry changes no translation; a page put below a last-level entry changes that page's alone |
| PageTables.PtxIsIndex | inc/mmu.h:27 | The shifted index of an address is the index of its page number |
| PageTables.PtxBits | inc/mmu.h:18-27 | Nine bits of the address each, from bit 39, 30, 21 and 12 on |
| PageTables.Vm.Kalloc | kern/kalloc.c:62-83 | The first free page, filled with junk, or 0 for an empty list |
| PageTables.Vm.Kfree | kern/kalloc.c:33-51 | The page goes to the front of the list, and its panic is not reached for a taken page |
| PageTables.Vm.PgdirWalk | kern/vm.c:27-48 | The entry of the address; only tables of that root on the way to it are added, each with a page off the free list, no translation and no page in use changes, and failure means a missing table or no memory |
| PageTables.Vm.WalkStep | kern/vm.c:36-46 | One level: the next table, a new one only if allowed and missing; no translation changes |
| PageTables.Vm.MapRegion | kern/vm.c:50-82 | Exactly the pages that the region touches are mapped to consecutive frames, with PTE_USER and PTE_RO as `perm` says and the bits of a valid, accessed page; every other translation is kept, no page is lost, every new place took one page; how far it came on failure; "remap" exactly at a mapped page |
| PageTables.RegionBits | kern/vm.c:74 | The bits of the entries of a mapped region |
| PageTables.Vm.MapOne | kern/vm.c:70-74 | One page of the region: mapped, or nothing but tables added; "remap" exactly if it was mapped |
| PageTables.Vm.MapNext | kern/vm.c:68-80 | One turn of the loop: one page more of the region, or the reason why not |
| PageTables.AllUsed | kern/vm.c:50-82 | When a range of pages is mapped, as many pages left the free list as pages and tables were missing |
| PageTables.TooFewForTwo | kern/vm.c:50-82 | If a page was taken and memory ran out for its table, the range needs more pages than there were |
| PageTables.Vm.FreeLeaf | kern/vm.c:217-223 | One page is unmapped and back on the free list; everything else is kept |
| PageTables.NewTable | kern/vm.c:41-45 | A cleared page from the free list becomes a table without changing any translation |
| PageTables.MapLeaf | kern/vm.c:74 | One leaf entry adds one translation |
| Uvm.UvmDealloc | kern/vm.c:195-227 | Exactly the pages of the range are unmapped and freed, but for those that the scan passes over; everything else is kept, nothing is lost, and the panic is not reached |
| Uvm.DeallocStep | kern/vm.c:212-225 | One turn of the loop, with the jump over a missing table |
| Uvm.DeallocComplete | kern/vm.c:212-216 | The whole range is unmapped if and only if no page that is passed over is mapped |
| Uvm.ContiguousIsComplete | kern/vm.c:212-216 | In an address space mapped from 0 without gaps no mapped page is passed over |
| Uvm.UvmAlloc | kern/vm.c:160-193 | Grown by zeroed pages from the free list, which user code may read and write, exactly when there are free pages for the new pages and for the tables that they lack; otherwise every translation and every page is as before and nothing stays taken |
| Uvm.UserMayWrite | kern/vm.c:185 | Every new page has PTE_USER and not PTE_RO |
| Uvm.GrowOne | kern/vm.c:177-191 | One turn: one more zeroed page, or what a failure leaves and what it lacked |
| Uvm.OutOfPages | kern/vm.c:177-191 | A failed turn means that the whole growth needs more pages than were free at its start |
| Uvm.AllGrown | kern/vm.c:177-191 | A complete growth had pages enough |
| Uvm.Fail | kern/vm.c:179-190 | The error paths leave every translation and no page taken |
| Uvm.UndoGrowth | kern/vm.c:179-190 | Shrinking back what a growth added restores every translation |
| DeallocGap.PageLeftMapped | kern/vm.c:212-216 | An address space from which `uvm_dealloc` down to 0 leaves page 512 mapped |
| AddressCopy.PgdirInit | kern/vm.c:112-124 | A new root with nothing in it; everything else is kept; the panic is exactly an empty free list |
| AddressCopy.Copyuvm | kern/vm.c:338-373 | Every page below the size has a fresh frame with the parent's bytes, and PTE_USER and PTE_RO exactly if the parent's page has them, nothing else is mapped, the parent is unchanged, "remap" is not reached; it succeeds exactly when all those pages are mapped and there are free pages for the root, the pages and their tables; out of memory, exactly the root is free again |
| AddressCopy.AccessCopied | kern/vm.c:359 | User code may use a copied page as it may use the original |
| AddressCopy.CopyOne | kern/vm.c:350-370 | One page copied; the panic is exactly a page that the parent does not map |
| AddressCopy.CopyMore | kern/vm.c:357-369 | One page more was copied, and all pages before are still copies |
| AddressCopy.GaveUp | kern/vm.c:361-369 | After a failed copy every address space is as before, and of the pages that were free only the root is |
| TableFree.VmFree | kern/vm.c:90-110 | Frees, in the subtree of a table, the tables of levels 0, 1 and 3, each once |
| TableFree.FreeRoot | kern/proc.c:471 | With level 1 for a root: tables of level 2 and user pages stay taken, the other tables are free, and other address spaces are unchanged |
| Processes.StepKeeps | kern/proc.c:142-484 | Every step of every CPU and process keeps the invariant |
| Processes.RunKeeps | kern/proc.c:142-484 | So does every run from boot |
| Processes.OneHolder | kern/sleeplock.c:12-43 | In every reachable state a sleep lock has at most one holder, is locked exactly while held, and `holdingsleep` is true for the holder only |
| Processes.NoLostWakeup | kern/sleeplock.c:12-32 | With the two spin locks free, a process asleep on a sleep lock sleeps because some process holds it |
| Processes.WaitSleepsForReason | kern/proc.c:452-484 | A process asleep in `wait` has no zombie child |
| Processes.OneCpu | kern/proc.c:142-201 | A process is run by at most one CPU, on a kernel stack that is not free; a RUNNING process is run by one; with the table lock free, what a CPU runs is RUNNING |
| Processes.ReapIsSafe | kern/proc.c:464-476 | `wait` never frees the kernel stack that a CPU is on |
| Processes.NoLockPanic | kern/spinlock.c:26-45 | The panics of `acquire`, `release` and `sched` are not reached, and a zombie is not resumed |
| Processes.NoWaiters | kern/proc.c:338-352 | When `wakeup1` has run for a cleared sleep lock, nobody waits for it |
| Families.FamiliesStep | kern/proc.c:234-274 | Every step keeps: a parent is alive, only the two first processes have none, and who is asleep in `wait` has a child |
| Families.ParentsLive | kern/proc.c:258-268 | In every reachable state every process but the two first has a parent that is neither free nor a zombie: `exit` leaves no orphan |
| Families.WaitsForChild | kern/proc.c:452-489 | Who is asleep in `wait` has a child that is not a zombie yet |
| Families.OnlyParentReaps | kern/proc.c:459-476 | A zombie goes away in one way only: its own parent finds it in `wait`, which frees its slot and its kernel stack |
| Families.ForkedByParent | kern/proc.c:409-446 | A slot is filled by one `fork` from beginning to end, and the process that comes of it is the child of the caller |
| Families.PidsDiffer | kern/proc.c:88-93 | Pids tell processes apart, and none is 0 |
| Families.AcquireReturns | kern/sleeplock.c:12-22 | `acquiresleep`, however often it slept, returns with the lock held and the pid of the caller in it |
| SdQueue.Driver.Sdrw | kern/sd.c:660-684 | A buffer that is dirty or not valid joins the end of the queue and the process sleeps on it; an idle card starts it; the panic is exactly a valid, clean buffer |
| SdQueue.Driver.SdIntr | kern/sd.c:598-653 | The first request alone is completed, its sleeper woken, and the next one started; a read ends on any interrupt, a write on the right one and is restarted otherwise; requests issued are those completed and those queued, in order |
| SdQueue.Driver.Complete | kern/sd.c:637-646 | The first request is done, its sleeper awake, and the next one in flight |
| SdQueue.Driver.Wakeup | kern/proc.c:354-362 | Exactly the sleepers on the buffer are woken |
| SdQueue.Driver.ListEmpty | inc/list.h:116-123 | The head pointing at itself is an empty queue |
| SdQueue.Driver.Return | kern/sd.c:679-684 | Whatever happened since the call, `sdrw` returns with the buffer valid, clean, off the queue, and equal to the card: if it came dirty the card has what it held, otherwise it has what the card held when it came |
| SdQueue.Driver.ListAddTail | inc/list.h:77-88 | Appends one member |
| SdQueue.Driver.ListDelFirst | inc/list.h:103-114 | Removes the first member and poisons its links |
| SdQueue.Finished | kern/sd.c:637-647 | Completing the first request keeps "asleep exactly while queued, and done once awake" for all callers |
| ShellGrammar.TokenLaw | user/src/sh/main.c:281-324 | What `gettoken` finds is the one token that there is: around it is white space and nothing of it is lost, a word is a maximal stretch of word characters, `>>` is a token of its own kind and a `>` that is not doubled another, and every other symbol is one character and its own kind |
| Shell.Parse | user/src/sh/main.c:343-358 | A parse takes the whole text, and every word in the tree is a whole word of it, at most nine to a command |
| Shell.RedirsFrom | user/src/sh/main.c:390-413 | Redirections are words of the text, the first one is to output exactly when its sign starts with `>`, and the parse does not go back |
| Shell.LineFrom | user/src/sh/main.c:360-375 | So is every word of a line; the recursion ends |
| ShellText.Grammar | user/src/sh/main.c:343-462 | A text parses to a command if and only if it spells, with any white space around its tokens and with `>` or `>>`, a sentence of the grammar that says this command |
| ShellText.Decides | user/src/sh/main.c:343-358 | A text says one command or none, and parsing tells which |
| ShellText.SentenceRead | user/src/sh/main.c:343-462 | The tokens of every sentence are read as its command, with any nesting of parentheses, pipes, lists, background and redirections |
| ShellText.ParseSaid | user/src/sh/main.c:343-462 | For a text that parses there is a sentence that it spells |
| ShellText.RedirsRead | user/src/sh/main.c:390-413 | Redirections are read in their order |
| ShellText.WordsRead | user/src/sh/main.c:445-461 | The loop over words reads up to nine words, and the redirections between and behind them |
| ShellText.ExecRead | user/src/sh/main.c:415-462 | A simple command, which redirections may begin, or a block with redirections behind it |
| ShellText.PipeRead | user/src/sh/main.c:377-388 | A pipeline nests to the right |
| ShellText.HeadRead | user/src/sh/main.c:365-369 | Ampersands behind a command nest to the left |
| ShellText.LineRead | user/src/sh/main.c:360-375 | A list nests to the right |
| ShellText.RedirsSaid | user/src/sh/main.c:390-413 | Redirections that were found are spelled there |
| ShellText.WordsSaid | user/src/sh/main.c:445-461 | So are the words and redirections that the loop found |
| ShellText.ExecSaid | user/src/sh/main.c:415-462 | A simple command or block that was found is spelled there by a sentence |
| ShellText.PipeSaid | user/src/sh/main.c:377-388 | So is a pipeline |
| ShellText.BacksSaid | user/src/sh/main.c:365-369 | So are the ampersands behind it |
| ShellText.LineSaid | user/src/sh/main.c:360-375 | So is a line |
| ShellPrint.RoundTrip | user/src/sh/main.c:343-462 | Every well-formed command, printed with any white space that keeps its tokens apart, none beside a symbol included, and with `>` or `>>`, parses to that command |
| ShellPrint.WrittenRead | user/src/sh/main.c:281-462 | The same for every sentence of the grammar |
| ShellPrint.PiecesSpell | user/src/sh/main.c:281-324 | Tokens written one behind the other, with white space only where two of them would be one, are those tokens |
| ShellPrint.ParsePrintParse | user/src/sh/main.c:343-462 | Results of parsing are well-formed, and printing and parsing again changes nothing |
| ShellParser.Parser.GetToken | user/src/sh/main.c:281-324 | The pointer loops find the token behind the position, as the law of tokens has it, and move the position behind it and the white space that follows |
| ShellParser.Parser.SkipSpaces | user/src/sh/main.c:288-289 | The loop stops at the first character that is no white space |
| ShellParser.Parser.Peek | user/src/sh/main.c:326-336 | True exactly when the next character is one of the given ones; the end of the text is none |
| ShellParser.Parser.ParseRedirs | user/src/sh/main.c:390-413 | The loop finds exactly the redirections that follow |
| ShellParser.Parser.ParseExec | user/src/sh/main.c:431-462 | The loop over words, within the bounds of its arrays, computes the command |
| ShellParser.Parser.ParseBlock | user/src/sh/main.c:415-429 | The parser of blocks computes what the grammar says |
| ShellParser.Parser.ParsePipe | user/src/sh/main.c:377-388 | So does the parser of pipelines |
| ShellParser.Parser.ParseLine | user/src/sh/main.c:360-375 | The recursive parser computes what the grammar says, and stops on every input |
| ShellParser.NulTerminate | user/src/sh/main.c:464-509 | Exactly the places behind the words of the tree are overwritten |
| ShellParser.WordSurvives | user/src/sh/main.c:481-488 | Wherever else a NUL was written behind a word, a word reads as before |
| ShellParser.ReadIsMeaning | user/src/sh/main.c:464-509 | After all the writes, in whatever order, the C strings at the word pointers are the words that the parser recorded |
| ShellParser.ParseCmd | user/src/sh/main.c:343-358 | It succeeds if and only if the string in the buffer spells a sentence, and what `runcmd` reads from the buffer afterwards is the command that the sentence says; a failed parse leaves the buffer alone |

## Left out

- Concurrency inside the log's data path, the file system, the page allocator and the shell: their methods
  are sequential. Interleavings are the subject of `GroupCommit`, `Journal`, `BufferLocks`, `Processes` and
  `SdQueue`; the contents of buffers are in `Bcache` and their waiters in `BufferLocks`; the waiting in
  `ilock` for a lock that another process holds is not modelled.
- Journal.Journal.LogWrite: one update, with the buffer that it changes, is one step. The steps inside
  `log_write`, `begin_op` and `end_op`, sleeping and waking are in `GroupCommit`, with block numbers only.
- `Files.Fs` reads blocks from an array, which stands for the view of the cache, and records what it passes to
  `log_write` in `updates`; `Transactions` takes these updates to the cache and the log after the operation
  and not during it. Nothing reaches the card before `commit`, so the crash points are the same.
- BufferCache.Bcache.Bget: a sector whose buffer another process has locked is excluded; the code waits.
- BufferCache.Bcache.Bread: the same.
- BufferCache.Bcache.Brelse: asks that a changed buffer was logged or written, as all callers do.
- Names.Icache.Ilock: an entry that another process has locked is excluded; the code waits.
- Log.Log.LogWrite: takes the guard and the critical section as one step; the gap between them is in
  `GroupCommit`.
- Files.Fs.Readi: T_DEV inodes, which go to the device switch, are excluded.
- Files.Fs.Writei: the same.
- OpenFiles.File.Fileread: pipes and T_DEV inodes are excluded.
- OpenFiles.File.Filewrite: the same.
- OpenFiles.File.WriteChunk: the same.
- OpenFiles.File.WriteNext: the same.
- Directories.Dirlookup: returns the inode number; the `iget` of that inode is in `Names`.
- Names.Icache.NamexStep: asks what `Names.Icache.Namex` asks.
- Names.Icache.ParentHere: the same.
- `stati`.
- Names.Icache.Namex: asks that no inode in use is without links and that directories lead to inodes in use,
  so that no `iput` on the way frees an inode; `Names.Icache.Iput` has that case. The current
  directory is an argument.
- Mkfs.Builder.Iappend: the assertion on the block number is checked before the loop, and an image that
  would outgrow FSSIZE is a failure, where the program writes on.
- Mkfs.Builder.Ialloc: fails when the slots of the inode blocks are used up, 208 of them; the program has no
  test, and a further inode would overwrite the block of the free map.
- Reference counts of the open file table, `filedup` and `fileclose`: easy members beside those above.
- The offset between kernel and physical addresses, the first pages below `end`, `free_range`, cache and
  translation-buffer maintenance, `copyout`, `uva2ka`, `uvm_load`, `clearpteu`, `uvm_init`, and `execve`.
- Uvm.UvmAlloc: asks that no page of the growth is mapped, as the callers keep it; `map_region` panics on
  such a page.
- Uvm.GrowOne: the same for its page.
- TableFree.VmFree: levels 1 to 3 of the table at one level less, as the kernel calls it; level 0, and the
  panic on other levels, are not modelled.
- AddressCopy.Copyuvm: says nothing about the state after its panics, which stop the machine.
- Processes: the choice of the scheduler is any runnable process, which covers priorities and CPU masks;
  sleeping on channels other than sleep locks and children; `kill`, but for a `wait` that returns though
  there are children; the memory and files that `fork` and `exit` handle; the boot of `pid 1`. Counters do
  not overflow.
- Whether a sleeper is ever scheduled again: the scheduler starts at slot 0 each time and is not fair.
- SdQueue: command registers, timeouts, and the transfer of words are one step; callers hold the lock of
  their buffer, which is why no two have the same block.
- ShellParser.Parser: tree nodes are values, so the node of a simple command that is filled in after it was
  wrapped in redirections is modelled by putting the redirections around it at the end. The arena of
  `malloc1`, `getcmd`, `cd` and `runcmd` are left out. That a text is refused is exact, which of the messages
  it is refused with is what `Shell.Parse` computes.
- Assembly, `kern/kpgdir.c`, system call dispatch, the console and timers.
