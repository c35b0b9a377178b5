# xv6-riscv with MLFQ: a verified model

This project models the parts of the kernel whose correctness is hardest to see from one function: the
crash-safe storage stack, the Sv39 page tables over the physical page allocator, process exit and wait,
the multi-level feedback queues, the user-level heap, and the virtio disk protocol.

Code that works on shared tables step by step appears twice.  A transition system on values (modules
such as `LogSystem`, `ExitWait`, `Mlfq`, `Virtio`) has one step per atomic section or block write; any
process may take the next step, and theorems speak about every run.  A class with the source's fields and
loops (`Log`, `ProcTable`, `MlfqKernel`, `VirtioDriver`) is proved to take exactly those steps.  For page
tables and files the steps are state functions with a local invariant (`PageTable`, `FsState`), and the
methods (`Kalloc`, `Vm`, `Uvm`, `UvmAlloc`, `UvmCopy`, `Freewalk`, `UserCopy`, `Fs`) are described by what
they do to flat maps: virtual page to entry, user address to byte, file offset to byte.

| area | modules |
|---|---|
| log, cache, recovery | `Layout`, `LogAdmission`, `LogHeader`, `LogSystem`, `LogRefinement`, `LogTheorems`, `LogHistory`, `Log` |
| buffer ring | `BufferRing` |
| blocks, inodes, files | `FsLayout`, `FsState`, `FsSteps`, `FsContents`, `FsTrunc`, `Fs`, `FsTheorems`, `DiskFormat` |
| physical pages, page tables | `PageTable`, `PageSteps`, `PageCount`, `Kalloc`, `Vm`, `UserPages`, `Uvm`, `UvmAlloc`, `UvmCopy`, `UserCopy`, `Freewalk` |
| processes, scheduling | `ProcState`, `ExitWait`, `ProcTree`, `ProcTable`, `Queue`, `Mlfq`, `MlfqTheorems`, `MlfqKernel` |
| heap, disk driver | `Heap`, `Allocator`, `Virtio`, `VirtioTheorems`, `VirtioDriver` |
| sequences and counting | `Finite` |

## How things are represented

- A crash loses all memory and can come between any two block writes, also during recovery.  `panic` stops
  the machine; methods report it in their result.
- A block is 1024 bytes with little-endian 32-bit words; header, bitmap and inode encodings are the
  source's.  The file system works on the blocks a `bread` returns; that log, cache and disk provide such
  blocks atomically is the subject of the log theorems.
- In `Fs` a cached inode stands in for its copy on disk.  Every block has a role (metadata, free, address k
  of inode i, or indirect entry k of inode i), and the bitmap, the addresses and the indirect blocks agree
  with the roles.  A block between `balloc` and the store of its number is `Loose`; no operation ends with one.
- A physical page is a free-list node, a table of 512 words, or 4096 bytes, and is named by its page
  number.  Its role says who has it: the free list, one position of one tree, one mapping of one process, or
  other kernel code.
- User copies in `readi`, `writei` and `filewrite` do not fault; the bytes are an argument or a result.
- The place of a buffer in the ring dates from the last `brelse` that left it without references; `bunpin` moves
  nothing, and `install_trans` calls it on buffers it also holds.
- `log_write` is bound by its two guards and nothing else.  The invariant of the log, its refinement and all
  crash theorems hold for every run.  That operations keep their budget of MAXOPBLOCKS blocks is a
  separate predicate on runs, used only for the reservation of `begin_op` (`LogAdmission.FrugalRunsFit`
  and the lemmas after it).
- What a run has done is also told from its list of actions alone (`LogTheorems.EditedTo`, `LogHistory`,
  `VirtioTheorems`, `ProcTree`, `MlfqTheorems.TicksSince`), and every reached state is proved to agree.
- The virtio device is a set of nondeterministic steps; locks are atomic sections.

## Where the code and its description differ

- The reservation of `begin_op` is exact for `log.size >= LOGSIZE + 1`; mkfs writes `LOGSIZE`, one less
  (`LogAdmission.ReservationExact`).
- `log_write` tests for room before it looks for the block, so writing a listed block again panics when the
  log is full (`LogAdmission.AbsorptionPanicsExactly`, `LogAdmission.AbsorptionCanPanic`).
- `qerase` of a process that is not queued drops the last one (`Queue.EraseExact`).
- The repository's README promises that a process returns to the tail of the queue it left.  Ageing looks at processes
  outside the queues too, so that holds exactly at level 0 or when the process is not aged
  (`Mlfq.ReturnsToItsQueue`; `Mlfq.SleeperChangesQueue` is a run in which it does not hold).
- The comment on `uvmdealloc` allows an old size above the actual one; the call panics when a page in
  between is not mapped (`UvmAlloc.Uvmdealloc`, and `UvmAlloc.DeallocCanPanic` for an input).

## Model

| member | source | states |
|---|---|---|
| `LogAdmission.StepKeepsInv` | kernel/log.c:126-175 | every atomic section of begin_op, end_op and log_write, and every commit step, keeps: at most LOGSIZE blocks listed, all distinct, outstanding the number of operations inside, committing only with nothing outstanding, an idle log empty, and every sleeper with something to wait for; log_write is bound by its two guards only |
| `LogAdmission.RunKeepsInv` | kernel/log.c:126-235 | the same after any interleaving of any number of processes |
| `LogAdmission.GroupCommitIsolation` | kernel/log.c:126-203 | in every reachable state committing implies outstanding == 0 and no enabled log_write, the panic of end_op is out of reach, an idle log lists nothing, and every sleeper of begin_op has an active operation or a commit ahead of it |
| `LogAdmission.WaitersAreWoken` | kernel/log.c:146-175 | the events a sleeper waits for put every sleeper back on its way |
| `LogAdmission.WokenMayEnter` | kernel/log.c:126-175 | after a commit the admission test of begin_op succeeds |
| `LogAdmission.FrugalRunsFit` | kernel/log.c:126-235 | in every run whose operations keep their budgets, listed blocks and unused budgets together are at most LOGSIZE |
| `LogAdmission.AppendHasRoom` | kernel/log.c:214-235 | while listed blocks and unused budgets are within LOGSIZE, an append by an operation within its budget of MAXOPBLOCKS distinct blocks finds fewer than LOGSIZE blocks listed |
| `LogAdmission.ReservationExact` | kernel/log.c:126-142 | in runs in which every operation keeps its budget no append ever meets either guard of log_write, if and only if log.size >= LOGSIZE + 1 (mkfs makes it LOGSIZE) |
| `LogAdmission.AbsorptionPanicsExactly` | kernel/log.c:214-235 | a repeated write of a listed block panics if and only if the log is full |
| `LogAdmission.AbsorptionCanPanic` | kernel/log.c:214-235 | a reachable run in which that happens |
| `LogHeader.PutHeader` | kernel/log.c:100-114 | write_head and read_head are inverse on every encodable header; words behind the entries keep their value |
| `LogRefinement.LogWriteRefines` | kernel/log.c:214-235 | log_write adds the block to the list once, pins it once, and changes nothing readers or recovery see |
| `LogRefinement.CommitBlockRefines` | kernel/log.c:178-191 | copying a block into its log slot changes neither what readers see nor what recovery would restore |
| `LogRefinement.CommitHeadRefines` | kernel/log.c:193-203 | writing the header makes exactly the current blocks the state recovery restores |
| `LogRefinement.CommitInstallRefines` | kernel/log.c:68-83 | installing a block keeps both views and drops exactly its log pin |
| `LogRefinement.CommitEraseRefines` | kernel/log.c:193-203 | erasing the header keeps the committed state |
| `LogRefinement.CrashRefines` | kernel/log.c:116-123 | a crash leaves what recovery restores |
| `LogRefinement.ReplayBlockRefines` | kernel/log.c:68-83 | one block of recovery keeps what recovery restores |
| `LogTheorems.StepRefines` | kernel/bio.c:58-151 | every step of bread, edit, log_write, release, eviction, commit, crash and recovery is a step of the atomic block store, and keeps the invariant |
| `LogTheorems.RunRefines` | kernel/log.c:68-235 | every run, with any interleaving and any crashes, is a run of the atomic block store |
| `LogTheorems.DiskHoldsLastCommit` | kernel/log.c:116-203 | in every state of every run readers see, of every block, the last edit since the last crash, and the disk alone determines the value at the last commit point; both values are read off the list of actions |
| `LogTheorems.CommitIsQuiescent` | kernel/log.c:146-203 | a commit point has no operation inside |
| `LogTheorems.RecoveryExact` | kernel/log.c:116-123 | recovery, with any number of crashes in it, ends with the home blocks equal to the committed state |
| `LogTheorems.CommitProgress` | kernel/log.c:178-203 | during a commit readers see the same blocks throughout; the durable state switches at the header write |
| `LogTheorems.CrashAtomicity` | kernel/log.c:68-123 | stop commit after any block write, crash, recover with any further crashes: the home blocks are all old or all new, decided by the header write |
| `LogTheorems.BreadSeesLatestEdit` | kernel/bio.c:92-103 | in every run from power-on, with any crashes, a bread that gets its lock returns the last edit of the block since the last crash, and without one the block recovery restored |
| `LogTheorems.WriteAhead` | kernel/log.c:68-83 | a home block changes on disk only while the header on disk names it |
| `LogTheorems.PinsExact` | kernel/bio.c:116-151 | in every run from power-on a buffer counts its users plus one pin exactly while the log still needs it, and is not recycled before |
| `LogHistory.AdmissionExact` | kernel/log.c:126-235 | in every run from power-on the operations inside, the sleepers, the commit in progress and the list of blocks are those computed from the list of actions alone |
| `LogHistory.UsersExact` | kernel/bio.c:58-137 | in every run from power-on a buffer is used by exactly the processes that got it and have not released it, and locked by the one that locked it last |
| `LogTheorems.StoreKeepsGood` | kernel/log.c:126-203 | over every run of the block store: a property of the blocks that the operations of this run keep while no crash intervenes holds of the durable blocks |
| `LogTheorems.OperationsSurviveCrashes` | kernel/log.c:116-203 | the same for every run of log, cache and disk |
| `Log.Log.Bread` | kernel/bio.c:92-103 | returns the current contents of the block and leaves it cached; stands for bread and the brelse that follows it in the commit |
| `Log.Log.LogWrite` | kernel/log.c:214-235 | panics exactly if n >= 30, n >= size - 1 or nothing is outstanding; otherwise the block is on the list, appended exactly if it was not there, and the step is LogWrite of the machine |
| `Log.Log.BeginOp` | kernel/log.c:126-142 | enters exactly if no commit runs and n + (outstanding + 1) * 10 <= 30, and counts itself; otherwise sleeps |
| `Log.Log.WriteLog` | kernel/log.c:178-191 | its loop is a run of commit steps that leaves every listed block in its slot |
| `Log.Log.WriteHead` | kernel/log.c:102-114 | its loop stores exactly the header encoding of the list |
| `Log.Log.InstallTrans` | kernel/log.c:68-83 | its loop is a run of install steps over the whole list |
| `Log.Log.Commit` | kernel/log.c:193-203 | the four parts in order are a run of the machine with the header write in the middle |
| `Log.Log.EndOp` | kernel/log.c:146-175 | when the last operation leaves, everything readers see is durable on return; otherwise the durable state is as before |
| `Log.Log.RecoverFromLog` | kernel/log.c:116-123 | the home blocks become the committed state and the header is empty |
| `BufferRing.LinkAll` | kernel/bio.c:36-53 | the loop of binit makes a ring of all buffers |
| `BufferRing.LinksAreInverse` | kernel/bio.c:36-53 | prev and next are inverse on every buffer and the head |
| `BufferRing.MoveKeepsRing` | kernel/bio.c:116-137 | unlinking a buffer and linking it at the head keeps the ring and visits every buffer once |
| `BufferRing.VictimAt` | kernel/bio.c:74-87 | walking backwards, the first unreferenced buffer is the one whose last brelse to zero is longest ago |
| `BufferRing.BufferCache.constructor` | kernel/bio.c:36-53 | a complete ring of idle buffers |
| `BufferRing.BufferCache.FindCached` | kernel/bio.c:65-72 | finds the buffer that carries the block, if and only if there is one |
| `BufferRing.BufferCache.FindVictim` | kernel/bio.c:74-87 | finds the unreferenced buffer released longest ago, if and only if there is one |
| `BufferRing.BufferCache.Bget` | kernel/bio.c:58-89 | counts a reference on the carrying buffer or recycles the victim; panics exactly if there is neither; at most one buffer carries a block |
| `BufferRing.BufferCache.Brelse` | kernel/bio.c:116-137 | drops a reference and moves the buffer to the front exactly when it was the last; keeps ring and release order |
| `BufferRing.BufferCache.Bpin` | kernel/bio.c:139-144 | one more reference, ring and order kept |
| `BufferRing.BufferCache.Bunpin` | kernel/bio.c:146-151 | one reference less, ring and order kept; a buffer left without references keeps its place |
| `Virtio.StepKeepsInv` | kernel/virtio_disk.c:203-315 | submit, device fetch, device completion in any order, interrupt and finish keep the protocol invariant |
| `Virtio.RunKeepsInv` | kernel/virtio_disk.c:144-315 | the invariant in every reachable state |
| `Virtio.DescriptorsSplit` | kernel/virtio_disk.c:144-201 | every descriptor is free or on exactly one three-long chain |
| `Virtio.DeviceSeesRequest` | kernel/virtio_disk.c:225-268 | the device finds the oldest posted chain intact, so no avail slot is overwritten before use |
| `Virtio.SubmitReads` | kernel/virtio_disk.c:225-268 | a request just submitted reads back as the command, sector, buffer and direction asked for, from the slot of the next index |
| `VirtioTheorems.DeviceReadsPosts` | kernel/virtio_disk.c:203-268 | in every run the k-th request the device reads is the k-th call of virtio_disk_rw, with its command, sector, buffer and direction |
| `VirtioTheorems.CompletionsInOrder` | kernel/virtio_disk.c:295-312 | in every run the driver handles each completion once, in the order the device made them |
| `VirtioTheorems.JournalExact` | kernel/virtio_disk.c:144-315 | in every run the busy buffers and the descriptors in use are those computed from the list of actions alone |
| `VirtioTheorems.OneRequest` | kernel/virtio_disk.c:203-315 | a run in which a request is posted, read, completed, announced and finished, and everything is free again |
| `Virtio.SlotOfIndex` | kernel/virtio_disk.c:260-268 | ring slots stay in step when a 16-bit index wraps |
| `Virtio.IntrPending` | kernel/virtio_disk.c:295-312 | the 16-bit indices differ exactly while completions are unseen |
| `Virtio.IntrFinds` | kernel/virtio_disk.c:295-312 | the handler finds the oldest unseen completion with status 0, so it does not panic |
| `Virtio.IntrClearsOwnBuffer` | kernel/virtio_disk.c:295-312 | a completion clears disk on its own buffer and on no other |
| `VirtioDriver.HasThreeExact` | kernel/virtio_disk.c:189-201 | alloc3_desc succeeds exactly if three descriptors are free |
| `VirtioDriver.Driver.AllocDesc` | kernel/virtio_disk.c:144-154 | the lowest free descriptor, or -1 if none |
| `VirtioDriver.Driver.FreeDesc` | kernel/virtio_disk.c:157-170 | panics exactly on a bad or free index; otherwise the descriptor is cleared and free |
| `VirtioDriver.Driver.Alloc3Desc` | kernel/virtio_disk.c:189-201 | the three lowest free descriptors, or nothing changed |
| `VirtioDriver.Driver.Start` | kernel/virtio_disk.c:203-268 | posts the request as the machine step Submit, so that the device will read this command and sector and this buffer in the right direction at the published slot; or changes nothing |
| `VirtioDriver.Driver.Interrupt` | kernel/virtio_disk.c:282-315 | its loop handles every unseen completion |
| `VirtioDriver.Driver.FreeChain` | kernel/virtio_disk.c:173-185 | ends after exactly the three descriptors of the chain |
| `VirtioDriver.Driver.Complete` | kernel/virtio_disk.c:270-280 | frees the chain of the completed request, as the machine step Finish |
| `FsLayout.InodeRoundTrip` | kernel/fs.h:31-38 | an inode stored in a block is read back, and no other inode of the block changes |
| `DiskFormat.InodeBytes` | kernel/fs.h:31-38 | the bytes of each field of an inode |
| `DiskFormat.HeaderBytes` | kernel/log.c:35-38 | the bytes of the log header |
| `DiskFormat.InodePlace` | kernel/fs.h:40-44 | the block and place of an inode |
| `DiskFormat.BitPlace` | kernel/fs.h:46-51 | the block, byte and bit that stand for a block of the disk |
| `DiskFormat.BlockPlace` | kernel/fs.c:377-405 | the address that stands for a block of a file, direct or indirect |
| `FsState.DataUnshared` | kernel/fs.c:377-405 | no data block belongs to two positions, in one file or in two |
| `FsSteps.TookKeeps` | kernel/fs.c:64-86 | marking and clearing a free block keeps the invariant |
| `FsSteps.TookExtends` | kernel/fs.c:64-86 | and changes no file |
| `FsSteps.SlotKeeps` | kernel/fs.c:383-387 | storing a fresh block as a direct address or as the indirect block keeps the invariant |
| `FsSteps.EntryKeeps` | kernel/fs.c:390-402 | storing a fresh block as an indirect entry keeps the invariant |
| `FsSteps.EntryExtends` | kernel/fs.c:390-402 | and changes no file |
| `FsContents.DataWrites` | kernel/fs.c:497-507 | writing into the block of one file changes exactly those bytes of that file, across the direct/indirect boundary |
| `FsContents.StoredKeeps` | kernel/fs.c:221-237 | iupdate changes nothing the kernel sees |
| `FsTrunc.CutDone` | kernel/fs.c:409-437 | with all its bits cleared and its addresses zeroed, a file is empty, exactly its blocks are free, and all other files are as before |
| `FsTheorems.OwnershipExact` | kernel/fs.c:64-103 | between operations a bitmap bit is set exactly if the block is metadata or is referred to, and then by one reference only |
| `FsTheorems.SyncedImage` | kernel/fs.c:218-237 | once cached inodes are stored, the blocks alone are a consistent file system |
| `FsTheorems.WriteThenRead` | kernel/fs.c:455-517 | a read where a write went, of at least as many bytes, begins with the bytes written |
| `FsTheorems.WriteElsewhere` | kernel/fs.c:455-517 | what was read elsewhere in the file or in another file is still read there |
| `FsTheorems.WriteConsistent` | kernel/fs.c:486-517 | from what writei promises: consistent states stay consistent, with every cached inode on disk |
| `FsTheorems.TruncConsistent` | kernel/fs.c:409-437 | the same for itrunc |
| `FsTheorems.PutConsistent` | kernel/fs.c:332-358 | the same for the iput that frees an inode |
| `FsTheorems.LoadConsistent` | kernel/fs.c:288-313 | the same for ilock |
| `FsTheorems.TransactionSound` | kernel/log.c:126-175 | a transaction of any number of such calls keeps the blocks and cached inodes consistent |
| `FsTheorems.DrivenRunHolds` | kernel/log.c:116-203 | over every run whose operations are such transactions: between them the current blocks, and always the durable blocks, are consistent |
| `FsTheorems.EmptyImage` | mkfs/mkfs.c:20-27 | a disk with empty inodes whose bitmap marks just the metadata is a consistent file system |
| `FsTheorems.ImageSurvivesCrashes` | kernel/log.c:116-203 | in every run from power-on of log, cache and disk whose operations are, one at a time, transactions of ilock, writei, itrunc and iput calls, with a crash at any moment, the disk recovers to a consistent file system |
| `Fs.Fs.FindFree` | kernel/fs.c:71-83 | the nested loops find the first clear bit of the bitmap |
| `Fs.Fs.Balloc` | kernel/fs.c:64-86 | the first free block, marked and cleared; panics exactly if none is free |
| `Fs.Fs.Bmap` | kernel/fs.c:377-405 | returns the block of the file, unchanged state if it was there, otherwise added; no file changes; every changed block is logged, at most one bitmap block per block added |
| `Fs.Fs.Bfree` | kernel/fs.c:89-103 | clears the bit, panics exactly if it is clear |
| `Fs.Fs.Itrunc` | kernel/fs.c:409-437 | never panics; the file is empty, exactly its blocks are free, other files unchanged, the inode on disk, every changed block logged, at most TruncBlocks blocks logged |
| `Fs.Fs.Readi` | kernel/fs.c:455-477 | delivers bytes of the file from off on, all that were asked for or all up to the size, and nothing on overflow; allocates nothing and changes nothing |
| `Fs.Fs.Writei` | kernel/fs.c:486-517 | refused exactly if off > size, off + n >= 2^32 or off + n > 268 blocks; otherwise splices exactly its bytes, grows the size, changes no other file, stores the inode, logs every block it changes; up to three blocks of data log at most MAXOPBLOCKS blocks |
| `Fs.Fs.Iupdate` | kernel/fs.c:221-237 | the inode on disk equals the one in memory |
| `Fs.Fs.Ilock` | kernel/fs.c:288-313 | the inode as the kernel sees it is in memory; panics exactly on an inode without references or on a free inode read from disk |
| `Fs.Fs.Iput` | kernel/fs.c:332-358 | the last reference to an unlinked inode frees the inode and exactly its blocks, logging at most TruncBlocks blocks; otherwise no file changes and nothing is logged |
| `Fs.TruncBlocks` | kernel/param.h:9-9 | the bitmap blocks and the inode block fit into MAXOPBLOCKS exactly on a disk of up to nine bitmap blocks |
| `Fs.Fs.Filewrite` | kernel/file.c:134-181 | writes the prefix its chunks cover and stops short only where writei refuses a chunk of 3072 bytes or the rest; returns n exactly if all was written, and every chunk logs at most MAXOPBLOCKS distinct blocks, together all that changed |
| `Fs.BillFacts` | kernel/file.c:149-156 | four data blocks, four bitmap blocks, the indirect block and the inode block bound a chunk, because an unaligned first block is already mapped |
| `PageTable.PteRoundTrip` | kernel/riscv.h:348-352 | PA2PTE and the flags give the entry pa >> 12 << 10 with perm and PTE_V, and PTE2PA undoes it for every page address |
| `Vm.PxShift` | kernel/riscv.h:355-357 | PX picks the index the model uses, at every level |
| `PageTable.PathsDiffer` | kernel/vm.c:80-98 | no level-0 entry serves two virtual pages, in one tree or in two |
| `PageSteps.AllocKeeps` | kernel/kalloc.c:68-82 | kalloc keeps the invariant and every translation |
| `PageSteps.FreePageKeeps` | kernel/kalloc.c:46-63 | kfree keeps the invariant and every translation |
| `PageSteps.LinkKeeps` | kernel/vm.c:91-95 | hanging a zeroed table in a tree keeps the invariant |
| `PageSteps.LinkMap` | kernel/vm.c:91-95 | and changes no translation of any tree |
| `PageSteps.SetPteMap` | kernel/vm.c:148-153 | writing one level-0 entry changes the translation of exactly one virtual page of one tree |
| `PageCount.NextNeeds` | kernel/vm.c:80-98 | the tables missing for the next page of a range are those counted for it before the first was mapped |
| `PageCount.FewTables` | kernel/vm.c:137-160 | a range needs at most one table per 2 MiB and one per GiB that it touches |
| `UserPages.FreeOnce` | kernel/kalloc.c:17-24 | the free list holds exactly the free pages, each once |
| `UserPages.TableOnce` | kernel/vm.c:80-98 | a page is a table in at most one position of one tree |
| `UserPages.HeldOnce` | kernel/vm.c:165-187 | a page is held through at most one mapping of one process |
| `Kalloc.Memory.constructor` | kernel/kalloc.c:26-31 | after kinit every managed page is free, once |
| `Kalloc.Memory.Kfree` | kernel/kalloc.c:46-63 | panics exactly on an unaligned or unmanaged address; otherwise the page heads the list |
| `Kalloc.Memory.Kalloc` | kernel/kalloc.c:68-82 | the head of the list, or 0 exactly if the list is empty |
| `Kalloc.Memory.Freerange` | kernel/kalloc.c:33-40 | frees exactly the managed whole pages of the range; panics exactly if it contains an unmanaged page |
| `Vm.Walk` | kernel/vm.c:80-98 | finds the slot of the level-0 entry; with alloc it adds exactly the missing tables of the path and changes no translation; fails exactly if fewer pages are free than tables are missing; panics exactly at or above MAXVA |
| `Vm.Mappages` | kernel/vm.c:137-160 | success adds exactly the range to the flat map and takes exactly the tables it needed; failure leaves a mapped prefix and happens exactly if fewer pages are free than the range needs tables; panics exactly on size 0 or if the page behind the filled prefix is mapped or at MAXVA |
| `Vm.Uvmcreate` | kernel/vm.c:191-200 | an empty tree; fails exactly if no page is free |
| `Uvm.Uvmunmap` | kernel/vm.c:165-187 | removes exactly the range and with do_free returns exactly its pages; panics exactly on an unaligned address or an entry that is missing, invalid or not a leaf |
| `UvmAlloc.Uvmalloc` | kernel/vm.c:220-244 | success adds exactly zeroed user pages between the rounded sizes and takes exactly the pages and tables that needs; on an unmapped range it fails exactly if fewer pages are free; failure restores every translation and every holder but for added tables |
| `UvmAlloc.Uvmdealloc` | kernel/vm.c:250-262 | unmaps and frees exactly the pages between the rounded sizes; panics exactly if one of them is not mapped |
| `UvmAlloc.DeallocCanPanic` | kernel/vm.c:246-262 | a process without memory and any larger old size, on which the pages in between are not mapped |
| `UvmAlloc.UndoMaps` | kernel/vm.c:229-242 | filling an unmapped range and unmapping it restores the translations |
| `UvmAlloc.UndoHolders` | kernel/vm.c:229-242 | and gives every page back, so that only tables were added |
| `UvmCopy.Uvmcopy` | kernel/vm.c:300-328 | success gives the child a page of its own with the parent's flags and bytes for every page below sz, takes exactly the pages and tables that needs and changes nothing else; short of a panic it fails exactly if fewer pages are free; failure restores translations and holders |
| `Freewalk.Freewalk` | kernel/vm.c:266-282 | frees exactly the tables under its argument, each once; panics exactly if a leaf is left |
| `Freewalk.FelledInv` | kernel/vm.c:266-282 | with a tree taken apart all other trees, held pages and the free list are in order |
| `Freewalk.Uvmfree` | kernel/vm.c:286-292 | every table and every user page of the process becomes free exactly once and no other page is touched; succeeds exactly if memory below sz is mapped and nothing above is |
| `UserCopy.Walkaddr` | kernel/vm.c:103-121 | the page a user address reaches: below MAXVA, with PTE_V and PTE_U set; otherwise 0 |
| `UserCopy.Copyin` | kernel/vm.c:371-391 | the bytes the process sees, or failure exactly when one is out of reach, across pages |
| `UserCopy.Copyout` | kernel/vm.c:346-366 | the bytes land in this process at this address and in no other place any process sees; fails exactly when one is out of reach |
| `UserCopy.ProcessesIsolated` | kernel/vm.c:346-391 | through any sequence of copyouts by any processes, each process reads what its own writes made of its memory |
| `UserCopy.ForkSameBytes` | kernel/vm.c:300-328 | after uvmcopy the child reads below sz what the parent did, with the same flags |
| `UserCopy.ForkIsolation` | kernel/vm.c:300-391 | after uvmcopy and any interleaving of writes, parent and child each read the bytes at the fork as changed by their own writes alone |
| `ExitWait.StepKeepsInv` | kernel/proc.c:287-453 | every step of fork, exit, reparent, wait, sleep, wakeup and kill keeps the invariant |
| `ExitWait.RunKeepsInv` | kernel/proc.c:287-453 | the invariant in every reachable state of any number of processes |
| `ExitWait.NoLostWakeup` | kernel/proc.c:688-734 | whenever wait_lock is free every recorded parent is neither UNUSED nor ZOMBIE and no process asleep in wait has a ZOMBIE child |
| `ExitWait.ReapedAtMostOnce` | kernel/proc.c:403-453 | every pid wait returns has exited, and none is returned twice |
| `ExitWait.ReapsOnlyTheDead` | kernel/proc.c:391-436 | wait frees a process only after it has left its kernel stack for good |
| `ExitWait.ScanFindsZombie` | kernel/proc.c:410-450 | a scanning parent neither sleeps nor gives up while a child is ZOMBIE |
| `ProcTree.StepAgrees` | kernel/proc.c:287-453 | every step of the code is the step of the family tree in which exit reparents at once |
| `ProcTree.TreeExact` | kernel/proc.c:287-453 | in every run the processes, their pids, parents, killed flags and exits are those computed from the list of actions alone: the parent is the forker, or initproc once the forker has exited |
| `ProcTree.WaitExact` | kernel/proc.c:403-453 | in every run a wait that reaps nothing returns -1 exactly if the caller was killed or has no child in the tree, and otherwise sleeps, with no exited child |
| `ProcTree.ParentReapsChild` | kernel/proc.c:287-453 | a run in which a parent forks, sleeps in wait, is woken by the exit of the child and returns its pid |
| `ProcTable.ProcTable.Wakeup` | kernel/proc.c:718-734 | its loop wakes exactly the sleepers of the channel other than the caller |
| `ProcTable.ProcTable.Reparent` | kernel/proc.c:340-352 | every process whose parent was p has initproc as parent, which is woken exactly if there was one; no other process changes |
| `ProcTable.ProcTable.Exit` | kernel/proc.c:357-399 | panics exactly for initproc; otherwise every child has initproc as parent, the parent is awake, the process a ZOMBIE, and no other process changed |
| `ProcTable.ProcTable.WaitRound` | kernel/proc.c:403-453 | reaps exactly the first exited child, sleeps exactly if there are only live ones, and gives up exactly without children or when killed |
| `Queue.EraseExact` | kernel/queue.c:48-64 | qerase removes exactly the process if and only if it is queued; otherwise it drops the last one |
| `Queue.ProcQueue.Push` | kernel/queue.c:9-22 | appends, panics exactly if NPROC are queued |
| `Queue.ProcQueue.Pop` | kernel/queue.c:24-37 | drops the first, panics exactly if empty |
| `Queue.ProcQueue.Front` | kernel/queue.c:39-46 | the first, or null exactly if empty |
| `Queue.ProcQueue.Qerase` | kernel/queue.c:48-64 | the bubbling loop leaves the queue without the process and the others in order; an empty queue gets size -1 |
| `Mlfq.StepKeepsInv` | kernel/trap.c:84-96 | every scheduler pass, clock tick, demotion, yield, sleep, wakeup and exit keeps queue membership |
| `Mlfq.RunKeepsInv` | kernel/proc.c:583-628 | the invariant in every reachable state |
| `Mlfq.MembershipExact` | kernel/proc.c:497-526 | in_queue holds exactly for processes that occur in a queue, once, in that of their level, and are RUNNABLE; levels stay below NMLFQ |
| `Mlfq.PushHasRoom` | kernel/proc.c:502-510 | push never panics |
| `Mlfq.SelectionCorrect` | kernel/proc.c:497-526 | null exactly if nothing is RUNNABLE; otherwise a process of least level after ageing, pushed earliest at that level |
| `MlfqTheorems.AgeingExact` | kernel/proc.c:796-815 | ageing as a whole: exactly the RUNNABLE processes that waited 128 ticks or more, queued or not, go up one level and out of their queues |
| `MlfqTheorems.EnqueueExact` | kernel/proc.c:502-510 | the first loop of mlfq_scheduler as a whole: each queue gets the waiting processes of its level appended in table order |
| `MlfqTheorems.PreparedExact` | kernel/proc.c:497-510 | the queues before the choice: first those that stayed, in order, then those that joined, in table order; every level, entry time and membership |
| `MlfqTheorems.ScheduleExact` | kernel/proc.c:511-618 | a whole pass: the choice leaves its queue, runs, and gets a slice of 1 << level ticks; nothing else changes |
| `MlfqTheorems.DemotionExact` | kernel/trap.c:84-96 | in every run a timer interrupt takes the CPU away exactly when 1 << level ticks have passed since the last pass, and lowers the level by one, down to the last |
| `MlfqTheorems.LifeCycle` | kernel/proc.c:497-734 | every event changes states only along the life cycle, and only timer and scheduler touch levels and queues |
| `Mlfq.TickKeepsInv` | kernel/trap.c:216-229 | the countdown of clockintr keeps the invariant |
| `Mlfq.ReturnsToItsQueue` | README.md:28-32 | a waking process is queued behind all others, in the queue it left if and only if that is level 0 or ageing does not move it, and otherwise one level up |
| `Mlfq.SleeperChangesQueue` | README.md:28-32 | a run in which a process leaves level 1 to sleep, wakes, and is queued at level 0 |
| `MlfqKernel.Kernel.Ageing` | kernel/proc.c:796-815 | its loop moves exactly the processes that have waited 128 ticks one level up and out of their queues, and leaves the other entries in order |
| `MlfqKernel.Kernel.Enqueue` | kernel/proc.c:502-510 | its loop queues every RUNNABLE process that is not queued |
| `MlfqKernel.Kernel.MlfqScheduler` | kernel/proc.c:497-526 | returns the choice of the specification and takes it out of its queue |
| `Heap.TilesDisjoint` | user/umalloc.c:24-90 | blocks never overlap |
| `Heap.UnitsConserved` | user/umalloc.c:46-61 | every unit obtained from sbrk belongs to a block |
| `Heap.BetweenExact` | user/umalloc.c:30-33 | the search of free stops exactly at the free block before the freed one |
| `Heap.FreeKeepsHeap` | user/umalloc.c:24-44 | the two tests of free join exactly the free neighbours, and the list stays circular, address-ordered and coalesced |
| `Heap.TakeWhole` | user/umalloc.c:75-77 | handing out a whole block keeps the heap in order |
| `Heap.TakeTail` | user/umalloc.c:78-82 | handing out the upper part of a block keeps the heap in order |
| `Allocator.Allocator.FindPlace` | user/umalloc.c:30-33 | the loop ends at the free block before the freed one |
| `Allocator.Allocator.Free` | user/umalloc.c:24-44 | exactly the freed block leaves the live blocks; neighbours are joined |
| `Allocator.Allocator.Morecore` | user/umalloc.c:46-61 | returns 0 exactly if sbrk failed; on success the break is up by max(nu, 4096) units and some free block is large enough; live blocks as before |
| `Allocator.Allocator.Malloc` | user/umalloc.c:63-90 | a new live block of the requested units disjoint from all others, or null exactly if sbrk failed, with the live blocks as before; sbrk is asked, and the break moves, only if no free block was large enough; the loop ends |
| `Log.Log.FindEntry` | kernel/log.c:225-228 | the absorption loop finds the first entry for the block, or none |
| `Log.Log.LeaveOp` | kernel/log.c:146-164 | the locked section of end_op is the machine step End; it commits exactly if it was the last and never finds a commit in progress |
| `Log.Log.WriteLogOne` | kernel/log.c:183-190 | one iteration of write_log is the machine step CommitBlock |
| `Log.Log.InstallOne` | kernel/log.c:73-82 | one iteration of install_trans is the machine step CommitInstall |
| `Log.Log.WriteCommitHead` | kernel/log.c:193-203 | the first write_head of commit is the machine step CommitHead |
| `Log.Log.EraseHead` | kernel/log.c:193-203 | the last two statements of commit are the machine step CommitErase |
| `Log.Log.ReadHead` | kernel/log.c:86-97 | read_head is the machine step ReadHead |
| `Log.Log.Replay` | kernel/log.c:68-83 | install_trans during recovery is a run of recovery steps over the whole list |
| `Log.Log.FinishReplay` | kernel/log.c:116-123 | clearing the log after recovery is the machine step ReplayErase |
| `BufferRing.BufferCache.AcquireSleep` | kernel/bio.c:65-72 | taking the sleep-lock of a counted buffer keeps the cache in order |
| `VirtioDriver.Driver.Format` | kernel/virtio_disk.c:222-268 | formats the three descriptors and publishes the chain exactly as the machine step Submit |
| `VirtioDriver.Driver.HandleOne` | kernel/virtio_disk.c:299-312 | one iteration of the handler is the machine step Intr |
| `Fs.Fs.AllocSlot` | kernel/fs.c:383-393 | adds a fresh block as an address of the inode and changes no file |
| `Fs.Fs.AllocEntry` | kernel/fs.c:394-400 | adds a fresh block as an indirect entry, logs the indirect block and changes no file |
| `Fs.Fs.WriteOne` | kernel/fs.c:497-507 | one iteration of writei splices its bytes into one block of the file and nothing else |
| `Fs.Fs.WriteBlocks` | kernel/fs.c:497-507 | the loop of writei splices all bytes, with the account of the blocks it logs |
| `Fs.Fs.FreeSlot` | kernel/fs.c:416-421 | frees the block of one address, whose bit is always set |
| `Fs.Fs.FreeEntries` | kernel/fs.c:423-432 | frees the blocks of all indirect entries, whose bits are always set |
| `Vm.Extend` | kernel/vm.c:91-95 | adds one table to the tree, or changes nothing when no page is free |
| `Vm.MapOne` | kernel/vm.c:148-158 | one iteration of mappages fills one vacant entry; panics exactly at MAXVA or on a mapped page; fails exactly if a missing table cannot be had |
| `Uvm.UnmapOne` | kernel/vm.c:174-186 | one iteration of uvmunmap clears one entry and frees its page if asked to |
| `UvmAlloc.MapFresh` | kernel/vm.c:231-241 | one fresh page with given contents is mapped and held, or everything is as before but for tables; fails exactly if fewer pages are free than it and the missing tables |
| `UvmAlloc.MapFilled` | kernel/vm.c:236-241 | the same from the point where the page has been filled |
| `UvmAlloc.AddZero` | kernel/vm.c:230-242 | one iteration of uvmalloc adds one zeroed page and keeps the earlier ones |
| `UvmAlloc.Undo` | kernel/vm.c:232-240 | the way out of uvmalloc restores translations and holders |
| `UvmCopy.CopyOne` | kernel/vm.c:308-322 | one iteration of uvmcopy adds one copied page and keeps the earlier ones, or fails because the free pages do not reach for this many |
| `UvmCopy.UndoCopy` | kernel/vm.c:325-328 | the way out of uvmcopy restores translations and holders |
| `ProcTable.ProcTable.AdoptOne` | kernel/proc.c:344-351 | one iteration of reparent |
| `ProcTable.ProcTable.Depart` | kernel/proc.c:385-394 | waking the parent, becoming a ZOMBIE and releasing wait_lock |
| `ProcTable.ProcTable.Scan` | kernel/proc.c:409-441 | the loop of wait stops at the first exited child or knows whether there are children |
| `ProcTable.ProcTable.Collect` | kernel/proc.c:424-440 | reaps the child found, or reports the failed copy and reaps nothing |
| `ProcTable.ProcTable.Conclude` | kernel/proc.c:443-451 | sleeps exactly with children and not killed |
| `Queue.ProcQueue.constructor` | kernel/queue.c:9-22 | an empty queue |
| `Queue.ProcQueue.Bubble` | kernel/queue.c:48-64 | the loop of qerase moves the process to the end and keeps the order of the others |
| `Queue.ProcQueue.SwapNext` | kernel/queue.c:48-64 | one swap of that loop |
| `MlfqKernel.Kernel.AgeOneProc` | kernel/proc.c:800-813 | one iteration of ageing: an overdue process goes up one level and leaves its queue, any other stays |
| `MlfqKernel.Kernel.EnqueueOneProc` | kernel/proc.c:502-509 | one iteration of the first loop of mlfq_scheduler, whose push does not panic |
| `MlfqKernel.Kernel.TakeAt` | kernel/proc.c:511-524 | the first queued process of the first busy level is the choice, because it is RUNNABLE |
| `Allocator.Allocator.Splice` | user/umalloc.c:33-44 | the joins at the end of free |
| `Allocator.Allocator.TakeFrom` | user/umalloc.c:75-85 | allocation from a free block adds exactly one live block, the upper end of it |
| `Allocator.Allocator.Search` | user/umalloc.c:74-89 | the loop of malloc ends with a new live block, or with 0 exactly if no free block was large enough and sbrk failed |
| `Allocator.UnitsFor` | user/umalloc.c:69-69 | the least number of units with room for nbytes behind the header |

## Left out

- Assembly, control registers, fences, boot, PLIC, UART and console: hardware effects.
- Directories, path names, link counts, `ialloc`, `iget` and the limit NINODE of the inode table: the
  ownership of blocks does not depend on them.
- Pipes, ELF loading, `uvmclear`, `uvminit`, `copyinstr`, mkfs, the shell and the user programs.
- Round robin, FCFS and PBS scheduling, run-time and wait-time counters, niceness, `waitx` results:
  `waitx` takes wait_lock and scans as `wait` does.
- MLFQ across several harts: the queues have no lock; picking and dispatching a process is one step.
- Starvation bounds under MLFQ.
- Wrap-around of ticks, pids and of 64-bit addresses.
- LogTheorems.StepRefines: a cache of unlimited size, so the panic of `bget` without a free buffer is
  modelled in `BufferRing` only.
- FsTheorems.ImageSurvivesCrashes: file system operations that overlap in time; inode locks would let them
  touch different files, and they share bitmap and inode blocks.  `LogTheorems.OperationsSurviveCrashes` covers
  overlapping operations for any property they keep together.
- FsTheorems.EmptyImage: mkfs also writes a root directory and the user programs; only its empty inodes and
  bitmap are modelled.
- Fs.Fs.Writei: copies that fault are not modelled; the source then leaves a buffer edited but not logged.
- Fs.Fs.Iput: the window in which itable.lock is released is one step here.
- Virtio.IntrFinds: the modelled device always completes with status 0; a failed request makes the handler panic.
- Vm.Mappages: addresses are natural numbers, so a range that wraps past the top of the 64-bit space is not
  modelled.
- UvmAlloc.Uvmdealloc: mapped pages of the range are held by the process; the page count is not truncated to
  int, which matters only above 8 TiB.
- Kalloc.Memory.Kfree: freeing a free page, which the source does not detect; and the junk written into a
  freed page is not kept beside the list link.
- Kalloc.Memory.Freerange: no page of the range is free yet, as in kinit.
- Uvm.Uvmunmap: do_free agrees with who holds the pages, as in every call of the kernel.
- Uvm.UnmapOne: the same.
- UvmCopy.Uvmcopy: parent pages below sz are assumed to be leaves held by the parent, as uvmalloc makes them.
- UvmCopy.CopyOne: the same.
- Freewalk.Freewalk: valid level-0 entries carry a permission bit, as all callers of mappages give them.
- Freewalk.Uvmfree: the same, and user pages are held by the process.
- Log.Log.EndOp: when the last operation leaves, no other process holds a block on the list, where the source
  would wait for its lock; `LogSystem` interleaves holders with commits.
- Log.Log.Commit: the same.
- Log.Log.WriteLog: the same.
- Log.Log.InstallTrans: the same.
- Log.Log.Bread: sleep-lock and reference count go up and down within the call; `LogSystem` has them as steps.
- ProcTable.ProcTable.Exit: the section under wait_lock without interference, so every p->lock is free when it
  is taken; `ExitWait` interleaves it.
- ProcTable.ProcTable.Depart: the same.
- ProcTable.ProcTable.Reparent: the same.
- ProcTable.ProcTable.AdoptOne: the same.
- ProcTable.ProcTable.WaitRound: the same.
- ProcTable.ProcTable.Scan: the same.
- Allocator.Allocator.Sbrk: fails or extends the break contiguously; only morecore moves the break.
