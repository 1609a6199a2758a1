# Verified model of Oxbow's journal, checkpoint, hash table, lock-free containers and LibFS paths

This project models, in Dafny, the parts of Oxbow where the order of small steps decides whether data
survives: the DevFS journal with its coalescing checkpoint, the `khash` table, the slab allocator, the
multi-producer/multi-consumer ring, and the page loops of LibFS. `dafny verify dfyconfig.toml` checks
everything.

**Storage** (`BlockDevice`). A disk is a map from (block, byte) to a value; every write is a map merge, so
any sequence of block copies and inode overlays is again one map. I/O is atomic per block.

**Checkpoint of one transaction** (`TagList`, `SourcePlan`, `Pass5`, `Checkpoint`, `InodeOrder`,
`CheckpointEntry`, `CheckpointLimits`). A tag list means the sequence of its cells, one per block. Pass 3
punches out exactly the cells that a later cell overwrites, pass 4 keeps the cells, pass 5 realises the plan
"cell k of a group comes from the k-th block after the group's base, going round the area" for any buffer
limit. The naive tag-by-tag checkpoint and the coalescing checkpoint are two methods with one postcondition,
`Effect`. They take the inodes in different orders; `InodeOrder.HoistExact` says exactly when that does not
matter, and the coalescing checkpoint is proved for all those entries. Groups that follow one another are taken
to begin at different addresses, as groups in disjoint space do.

**Journal** (`CircularLog`, `LogLayout`, `JournalTx`, `JournalRun`, `JournalProof`, `JournalWork`,
`JournalTheorems`, `JournalReach`, `CheckpointLoop`). Two committers, the `persist_data` calls of their
transactions and one checkpoint thread are a state machine whose steps are single block reads and writes, or
one update of the shared records under a lock. The steps use the source's own arithmetic: a data block goes
where the bios of its chunk send it, a chunk is counted when its blocks are on disk, the committer waits for
the counter alone, and the metadata and commit blocks go where their bio lists send them. That all of them
arrive at their places is proved. `JournalTx.Intended` says what a transaction means without reference to
where it stands in a log (for a single data block: that its target gets its content, `JournalTx.OneBlockMeans`).
The main theorem, `ViewIsReplay`, holds in every reachable state of every interleaving: the file system area
with what the live transactions mean laid over it is the initial area with what all committed transactions
mean laid over it in commit order. Around it stand conservation of log space, disjointness of live
transactions, commit and checkpoint order, "commit record last", and the oldest-log assertion of the source,
which never fails.

**khash** (`Bits`, `Probing`, `KHash`), **slab** (`Slab`), **ring** (`Bits`, `MpmcRing`), **LibFS** (`LibFs`):
see the table.

Conventions. Addresses in a circular area are computed with `Cyclic.Turn`, the remainder (`TurnIsMod`).
Some contracts say `true == P(...)`; this is `P(...)`, kept folded for the solver, and so is a quantifier over
the one value of `JournalRun.Look`. Lemmas carry `{:induction false}`: every induction is written out. In the
state machines, fields such as `hpos`, `written`, `committed` or `puts` record history; no step reads them to
decide anything. The job of a transaction (what its checkpoint will overlay and copy) comes with its `Begin`
step and is the one that follows from the transaction and its place (`JournalRun.Genuine`).

## What turned out to be false, and when it holds

- A data chunk is written to its cyclic place and counted only while its unwrapped start address does not
  pass the end of the log (`LogLayout.PersistData`, an if-and-only-if): `get_chunck_start` never wraps. One
  block past the end, the first bio list is empty and `persist_data` gives up before counting the chunk; the
  transaction then waits for ever (`JournalTheorems.NeverPlaced`), and otherwise it can get its space
  (`JournalReach.SpaceExact`, an if-and-only-if). Further past, a 32-bit length underflows and the chunk leaves
  the log (`LogLayout.ChunkInside`, an if-and-only-if); the journal model takes a transaction only when no chunk
  does.
- `persist_data` does not look at the free count; the data stays clear of live transactions exactly when
  descriptor and data fit the free space (`JournalTheorems.DataNeedsRoom`). The model takes a transaction
  only then.
- The first commit may have any id. A transaction with a smaller id then never commits
  (`JournalTheorems.Passed`); ids are consecutive all the same.
- The superblock's id is loaded from disk, while the sequence number starts at 0. The first checkpoint finds
  its own id in the superblock if and only if the loaded id is 0 or the first commit's; every later one does
  (`JournalTheorems.OldestIsFreed`, `JournalTheorems.RunSuperblock`). The source only warns.
- `start_checkpoint` does not end while the oldest entry is not ready. Left to itself it ends if and only if
  the entries that are ready can give the target (`CheckpointLoop.LoopEnds`).
- A stage transaction whose tag blocks run over the end of the stage area gives its data a base address
  beyond the area, and its first tag is then copied from wrong blocks (`CheckpointLimits.StageCutExact`, an
  if-and-only-if). In general a tag is copied from the right blocks exactly when its source address is at most
  one past the area (`CheckpointLimits.CutExact`).
- Pass 1 overlays all inodes before any data is copied. The outcome is that of the naive order on every disk
  if and only if every block that is copied onto before an inode is overlaid in it is copied onto again
  afterwards (`InodeOrder.HoistExact`, and `CheckpointEntry.CoalesceExact` for a whole entry).
- "Full" from the ring does not mean that `capacity` values wait in it (`MpmcRing.FullWhileDrained`); it
  means exactly that the ticket one lap behind is unreleased (`MpmcRing.FullMeans`).
- A LibFS write above 32 MB can leave a dirty page in a group that is not marked dirty
  (`LibFs.GroupMissed`); `LibFs.AllGroupsMarked` gives the exact condition, which every write up to 32 MB
  meets.
- The comment in `ckpt_list_dequeue` that null is returned when "there is no entry ready" is wider than the
  code, which looks only at the oldest entry; the model follows the code.

## Model

| member | source | states |
|---|---|---|
| TagList.Optimize | oxbow/devfs/src/journal.c:2907-3051 | Pass 3: the expanded list keeps every cell, its group and its place in the group, and a cell loses its destination exactly when a later cell has the same one; the FATAL branch is unreachable |
| TagList.CarveOlder | oxbow/devfs/src/journal.c:2911-3050 | The inner reverse walk: all older tags lose exactly the newer extent, whatever the overlap |
| TagList.CarvePunches | oxbow/devfs/src/journal.c:2911-3050 | Each of the overlap branches cuts an older tag into pieces that expand to the tag with the newer extent punched out |
| TagList.OptimizedDisjoint | oxbow/devfs/src/journal.c:2907-3051 | After pass 3 valid destination ranges are pairwise disjoint |
| TagList.MaskedOwner | oxbow/devfs/src/journal.c:2907-3051 | A surviving cell is the last one for its block |
| TagList.MaskedCovers | oxbow/devfs/src/journal.c:2907-3051 | Every block named by a tag is still named by a surviving cell |
| TagList.Coalesce | oxbow/devfs/src/journal.c:3055-3083 | Pass 4: merging neighbours changes no cell, and no two mergeable neighbours are left |
| SourcePlan.MaskedPreservesEffect | oxbow/devfs/src/journal.c:2907-3051 | Leaving out overwritten cells does not change what the copies come to, on any disk |
| Pass5.PlaceTag | oxbow/devfs/src/journal.c:3102-3165 | One node: the source address replaces the base, and the node is cut in two at the end of its area, also when the first half is empty |
| Pass5.WalkOn | oxbow/devfs/src/journal.c:3095-3165 | The loop variables keep standing in front of the next cell's source block, across groups, wraps and invalid nodes |
| Pass5.PlaceNext | oxbow/devfs/src/journal.c:3095-3180 | A step queues exactly the bios of the plan for the cells it passes and makes the termination measure smaller |
| Pass5.CheckpointTags | oxbow/devfs/src/journal.c:3095-3249 | Pass 5 ends, and for every buffer limit the device ends up as after one single flush of the whole plan |
| BlockDevice.Device.Dispatch | oxbow/devfs/src/journal.c:3183-3191 | A read list and then the write list of the same buffers: all sources are read before the first write |
| Checkpoint.CopyGroup | oxbow/devfs/src/journal.c:2196-2308 | The naive tag loop copies block k of the group from the k-th block behind its base, going round |
| Checkpoint.CopyTag | oxbow/devfs/src/journal.c:3557-3636 | One tag without or with a wrap split |
| Checkpoint.SplitTag | oxbow/devfs/src/journal.c:3569-3607 | The two bios of a tag that wraps |
| Checkpoint.PlanIsAllCopies | oxbow/devfs/src/journal.c:3095-3165 | The plan that pass 5 reads off the list is the naive loops' copies, group after group |
| CheckpointEntry.CheckpointInode | oxbow/devfs/src/journal.c:1956-2011 | Read-modify-write of the inode table block changes exactly the inode's bytes |
| CheckpointEntry.CheckpointStageTx | oxbow/devfs/src/journal.c:2100-2308 | A stage transaction: its inode, then its tags; only the inode when there are no tags |
| CheckpointEntry.CheckpointStages | oxbow/devfs/src/journal.c:2498-2540 | The stage transactions of a trace block, in order |
| CheckpointEntry.CheckpointByTag | oxbow/devfs/src/journal.c:3339-3640 | The naive checkpoint of an entry leaves the device with `Effect` merged over it |
| CheckpointEntry.ScanStages | oxbow/devfs/src/journal.c:2683-2822 | Pass 1: all inodes are overlaid and the list holds the stage tags in order |
| CheckpointEntry.ScanJournal | oxbow/devfs/src/journal.c:2825-2898 | Pass 2: the journal's own tags follow |
| InodeOrder.HoistAgrees | oxbow/devfs/src/journal.c:2683-2822 | Overlaying all inodes first comes to the same disk when every block copied onto before an inode is overlaid is copied onto again afterwards |
| InodeOrder.HoistExact | oxbow/devfs/src/journal.c:2683-2822 | The two orders agree on every disk if and only if that holds |
| CheckpointEntry.CoalesceExact | oxbow/devfs/src/journal.c:2683-3249 | The same if-and-only-if for a whole entry, its own tags included: inodes and masked plan have the naive effect on every disk |
| CheckpointEntry.CoalescedEffect | oxbow/devfs/src/journal.c:2683-3249 | Inodes and the masked plan come to the same as the naive order |
| CheckpointEntry.CheckpointCoalesced | oxbow/devfs/src/journal.c:2547-3249 | The five passes leave the device exactly as the naive checkpoint does, on every entry on which the inode order does not matter |
| CheckpointLimits.WritesOnce | oxbow/devfs/src/journal.c:3095-3191 | The coalesced checkpoint writes exactly the blocks the tags name, each once, from its last writer |
| CheckpointLimits.CutExact | oxbow/devfs/src/journal.c:2226-2278 | With the source's 32-bit length, the bios of a tag copy its blocks, going round, if and only if the source address is at most one past the area |
| CheckpointLimits.PlacedIsCut | oxbow/devfs/src/journal.c:3112-3162 | Pass 5 cuts a tag into the same two extents |
| CheckpointLimits.StageCutExact | oxbow/devfs/src/journal.c:2205-2278 | The first tag of a stage transaction is copied from the right blocks if and only if its tag blocks end inside the stage area |
| CircularLog.JournalLog.constructor | oxbow/devfs/src/journal.c:642-657 | An empty log: head and tail at its first block, everything free |
| CircularLog.Split | oxbow/devfs/src/journal.c:638-657 | The journal area is split into two disjoint logs of half its length |
| CircularLog.JournalLog.Alloc | oxbow/devfs/src/journal.c:748-807 | Space is taken at the head, round the end, exactly when enough is free |
| CircularLog.JournalLog.UpdateState | oxbow/devfs/src/journal.c:814-843 | The head moves n blocks on, round the end, and the books stay balanced |
| CircularLog.JournalLog.Free | oxbow/devfs/src/journal.c:877-914 | The oldest space is given back at the tail; anything else is refused |
| CircularLog.TakeOk | oxbow/devfs/src/journal.c:778-790 | Allocation keeps head, tail and free count consistent with the positions they stand for |
| CircularLog.ReleaseOk | oxbow/devfs/src/journal.c:893-904 | So does freeing |
| CircularLog.FreePercentIs | oxbow/devfs/src/journal.c:726-737 | The free count as a rounded-down percentage, between 0 and 100 |
| LogLayout.AddBio | oxbow/devfs/src/journal.c:942-970 | Splitting into bounded bios writes each buffer block to exactly one address, in order |
| LogLayout.AddBiosWrap | oxbow/devfs/src/journal.c:982-1022 | n blocks land at successive cyclic addresses, and the returned address is the next one |
| LogLayout.AddBioWrap | oxbow/devfs/src/journal.c:1261-1292 | A single block lands at its wrapped address |
| LogLayout.LayMeta | oxbow/devfs/src/journal.c:1518-1573 | The metadata, superblock and commit bio lists, for any addresses |
| LogLayout.MetaPositions | oxbow/devfs/src/journal.c:1518-1573 | The addresses these bio lists hold are the successive positions behind the data, round the end of the log |
| LogLayout.SplitChunk | oxbow/devfs/src/journal.c:1034-1070 | The two bio lists of a data chunk, with the 32-bit length as it is |
| LogLayout.PersistData | oxbow/devfs/src/journal.c:1072-1207 | A chunk is written to its cyclic place and counted if and only if its unwrapped start lies in the log |
| LogLayout.ChunkInside | oxbow/devfs/src/journal.c:1034-1070 | The blocks written for a chunk stay inside the log if and only if it starts at most one past the end |
| LogLayout.ChunkPositions | oxbow/devfs/src/journal.c:851-867 | The places of all chunks are the consecutive positions behind the descriptor block |
| JournalTx.FitsAnywhere | oxbow/devfs/src/journal.c:1585-1599 | A transaction that fits its log fits it at any start |
| JournalTx.PlanOk | oxbow/devfs/src/journal.c:3095-3180 | A checkpoint reads only the stage area and its own transaction's data, and writes only the file system area |
| JournalTx.CheckpointMeans | oxbow/devfs/src/journal.c:2547-3249 | With its data in the log, the checkpoint does what the transaction means, wherever it stands |
| JournalWork.Begins | oxbow/devfs/src/journal.c:1072-1112 | A transaction arriving at the head, with its requests still to be made, keeps the invariant |
| JournalWork.CallsChunk | oxbow/devfs/src/journal.c:1097-1161 | Making a request (the first one stores the descriptor's address, one with an empty first list gives up) keeps the invariant |
| JournalWork.WritesData | oxbow/devfs/src/journal.c:1072-1178 | A data block written where the bios of its chunk send it lands at its place behind the descriptor and touches no block of a live transaction |
| JournalWork.CountsChunk | oxbow/devfs/src/journal.c:1177-1199 | Counting a chunk whose blocks are all on disk keeps the invariant |
| JournalWork.CounterMeansData | oxbow/devfs/src/journal.c:1390-1419 | When the counter has reached the number of chunks every data block is on disk |
| JournalWork.Places | oxbow/devfs/src/journal.c:1463-1515 | Taking the space when the counter allows it keeps the invariant |
| JournalWork.WritesMeta | oxbow/devfs/src/journal.c:1525-1562 | A block of the metadata bio list lands at its place and touches no block of a live transaction |
| JournalWork.Commits | oxbow/devfs/src/journal.c:1626-1709 | So do the commit record, the checkpoint list, the superblock id and the sequence number |
| JournalProof.SpotSparesItem | oxbow/devfs/src/journal.c:748-843 | A block behind the head and before the tail is no block of a live transaction |
| JournalWork.StepKeepsInv | oxbow/devfs/src/journal.c:1072-3270 | Every step of committers, requests and checkpoint thread keeps the invariant, which ties every job to its transaction and every counter to what is on disk |
| JournalTheorems.InitInv | oxbow/devfs/src/journal.c:558-657 | It holds of an empty journal, whatever id its superblock was loaded with |
| JournalTheorems.RunKeepsInv | oxbow/devfs/src/journal.c:1072-3270 | And in every state of every run |
| JournalTheorems.ViewIsReplay | oxbow/devfs/src/journal.c:1072-3270 | In every reachable state the file system area with what the live transactions mean laid over it is the initial one with what all commits mean laid over it in order |
| JournalTheorems.StepAndView | oxbow/devfs/src/journal.c:1626-3270 | A commit changes the view by exactly what its transaction means; no other step, checkpoint and free included, changes it |
| JournalTheorems.RunView | oxbow/devfs/src/journal.c:1072-3270 | The same for every run from an empty journal |
| JournalTheorems.Drained | oxbow/devfs/src/journal.c:2547-3270 | When nothing is live the disk itself holds all commits |
| JournalTheorems.Conservation | oxbow/devfs/src/journal.c:748-914 | Free blocks plus the blocks of live and placed transactions are the log; head and tail stay inside |
| JournalTheorems.LiveDisjoint | oxbow/devfs/src/journal.c:748-843 | Live transactions share no block |
| JournalTheorems.OldestIsFreed | oxbow/devfs/src/journal.c:877-930 | The transaction under checkpoint begins at the tail of its log, so the oldest-log assertion never fails; exactly when the superblock names it |
| JournalTheorems.RunSuperblock | oxbow/devfs/src/journal.c:423-485 | In every run that starts with any loaded id, a checkpoint finds its own id in the superblock if and only if that id is 0 or the first commit's, or it is not the first checkpoint |
| JournalTheorems.IdsConsecutive | oxbow/devfs/src/journal.c:1626-1706 | Commits have consecutive ids and the checkpoint list is the last of them in that order |
| JournalTheorems.DataBeforePlace | oxbow/devfs/src/journal.c:1390-1515 | When the counter lets the committer go on, every data block stands on disk with its content, and no chunk began past the end of the log |
| JournalTheorems.NeverPlaced | oxbow/devfs/src/journal.c:1157-1161 | A transaction with a chunk one past the end of the log never gets its space, in any continuation |
| JournalReach.SpaceExact | oxbow/devfs/src/journal.c:1072-1515 | A transaction with room in the log gets its space in some run if and only if no chunk starts past the end |
| JournalTheorems.CommitRecordLast | oxbow/devfs/src/journal.c:1486-1657 | When the commit record goes out every other block of the transaction stands on disk, by the counter and the metadata list alone, and the record goes behind them |
| JournalTheorems.Passed | oxbow/devfs/src/journal.c:1633-1642 | A transaction whose id has been passed can never commit |
| JournalTheorems.DataNeedsRoom | oxbow/devfs/src/journal.c:851-867 | Data written behind the head spares live transactions if and only if it fits the free space |
| CheckpointLoop.StartCheckpoint | oxbow/devfs/src/journal.c:3893-3956 | When the ready entries can give the target the loop ends with both logs at least that free, and no entry is checkpointed needlessly |
| CheckpointLoop.LoopEnds | oxbow/devfs/src/journal.c:3939-3956 | Left to itself the loop ends if and only if the entries that are ready can give the target |
| CheckpointLoop.ReadyIsReachable | oxbow/devfs/src/journal.c:3939-3956 | With every entry ready and nothing in between, any target up to 100 can be given |
| CheckpointLoop.RoundIsRun | oxbow/devfs/src/journal.c:2547-3270 | Checkpointing a ready entry is a run of the journal's own steps that frees exactly that entry |
| CheckpointLoop.NothingToDo | oxbow/devfs/src/journal.c:1233-1252 | With an empty list or an entry that is not ready at its head the checkpoint thread changes nothing |
| CheckpointLoop.LoopIsRun | oxbow/devfs/src/journal.c:3939-3956 | From any reachable state the rounds of the loop are a run of the journal that ends with the target met |
| Probing.ProbeInjective | oxbow/devfs/include/common/khash.h:230-243 | Over a power of two the first n triangular probes hit n different buckets |
| Probing.ProbeReaches | oxbow/devfs/include/common/khash.h:230-243 | And therefore every bucket |
| Bits.ChainIsOnes | oxbow/devfs/include/common/khash.h:176 | The shift-and-or chain fills all bits below the highest one |
| Probing.KRoundUpIs | oxbow/devfs/include/common/khash.h:176 | The macro, in 32 bits, is the rounding up to a power of two that the table uses, for every 32-bit number |
| KHash.ProbeEnds | oxbow/devfs/include/common/khash.h:230-243 | With an unused bucket left, probing meets one within n steps |
| KHash.Table.constructor | oxbow/devfs/include/common/khash.h:212-214 | A new table is the empty map |
| KHash.Table.SizeIsCount | oxbow/devfs/include/common/khash.h:542 | The size field counts the map's entries |
| KHash.Table.Get | oxbow/devfs/include/common/khash.h:230-243 | The search ends and finds a key's bucket if and only if the map has the key |
| KHash.Table.Locate | oxbow/devfs/include/common/khash.h:319-335 | The search of put: the key's bucket, or a reusable or empty bucket on its path |
| KHash.Table.MakeRoom | oxbow/devfs/include/common/khash.h:310-318 | A full table is rehashed or doubled, keeps its map, and has room |
| KHash.Table.Put | oxbow/devfs/include/common/khash.h:307-348 | Map insertion with its three return codes and counters, over tombstones and rehashes |
| KHash.Table.Del | oxbow/devfs/include/common/khash.h:349-355 | Map removal, or nothing |
| KHash.Table.SetValue | oxbow/devfs/include/common/khash.h:521 | Assignment through the value macro |
| KHash.FirstEmpty | oxbow/devfs/include/common/khash.h:278-281 | The probing loop of the rehash ends at the first empty bucket of the key's path |
| KHash.Table.KickOne | oxbow/devfs/include/common/khash.h:277-292 | One turn of the kick-out loop moves one entry and leaves fewer to move |
| KHash.Table.KickOut | oxbow/devfs/include/common/khash.h:270-293 | The kick-out loop ends; entries not moved, moved and in hand are the map throughout, none lost or doubled |
| KHash.Table.MoveAll | oxbow/devfs/include/common/khash.h:268-294 | Afterwards no entry is left in the old table |
| KHash.Table.Resize | oxbow/devfs/include/common/khash.h:244-306 | Same map, new size, no tombstones, every key reachable again; nothing when the entries would not fit |
| KHash.Replay | oxbow/devfs/include/common/khash.h:230-355 | Any sequence of stores and removals leaves the map that a plain map would hold |
| Slab.Prefill | oxbow/devfs/src/common/oxb_slab.c:30-132 | Initialisation puts every object of every slab on the free list once |
| Slab.StepKeepsInv | oxbow/devfs/src/common/oxb_slab.c:162-345 | Every step of alloc, free, grow and of clients writing to their objects keeps the invariant |
| Slab.RunKeepsInv | oxbow/devfs/src/common/oxb_slab.c:162-345 | In every interleaving |
| Slab.ExactlyOnePlace | oxbow/devfs/src/common/oxb_slab.c:162-345 | Every object is in exactly one place: free list, an owner, or one push in transit |
| Slab.ReadsOnlyObjects | oxbow/devfs/src/common/oxb_slab.c:254-296 | A stale head is still an object of the allocator |
| Slab.AllocReturnsFree | oxbow/devfs/src/common/oxb_slab.c:254-296 | A pop that succeeds read the current next, and takes a free object |
| Slab.VersionIsNeeded | oxbow/devfs/src/common/oxb_slab.c:254-296 | From every reachable state with two free objects a run leads to one where, without the version, a pop would install a client's object as head |
| Bits.PowerTest | oxbow/devfs/src/common/ring_buffer_mpmc.c:11-14 | v & (v - 1) is zero exactly for the powers of two |
| MpmcRing.Create | oxbow/devfs/src/common/ring_buffer_mpmc.c:11-40 | The bit test accepts a capacity exactly when it is a power of two above one; the ring is empty |
| MpmcRing.StepKeepsInv | oxbow/devfs/src/common/ring_buffer_mpmc.c:50-127 | Every step of any thread keeps the invariant |
| MpmcRing.RunKeepsInv | oxbow/devfs/src/common/ring_buffer_mpmc.c:50-127 | In every interleaving positions stay within one lap, a ticket delivers what was enqueued under it, and none is lost or doubled |
| MpmcRing.SlotsAreOwned | oxbow/devfs/src/common/ring_buffer_mpmc.c:50-127 | Between claim and publish only the claiming thread works on a slot |
| MpmcRing.FullMeans | oxbow/devfs/src/common/ring_buffer_mpmc.c:60-80 | "Full" is answered if and only if the loaded position is current and the ticket one lap behind is unreleased |
| MpmcRing.EmptyMeans | oxbow/devfs/src/common/ring_buffer_mpmc.c:99-119 | "Empty" is answered if and only if the loaded position is current and its ticket unpublished |
| MpmcRing.AtRest | oxbow/devfs/src/common/ring_buffer_mpmc.c:50-127 | A ring at rest holds the undelivered values in ticket order |
| MpmcRing.FullWhileDrained | oxbow/devfs/src/common/ring_buffer_mpmc.c:60-80 | A run in which "full" is answered although no undelivered value waits unclaimed |
| LibFs.BitsApart | oxbow/devfs/src/common/shm.c:14-82 | No page, state or group shares a bit with another |
| LibFs.AllGroupsMarked | oxbow/libfs/src/filesystem/read_write.c:152-163 | When every touched group is marked dirty: always up to 32 MB, above that the exact condition |
| LibFs.GroupMissed | oxbow/libfs/src/filesystem/read_write.c:152-158 | A write above 32 MB that misses a group |
| LibFs.UncoveredIsLost | oxbow/libfs/src/filesystem/read_write.c:152-158 | Outside the condition a dirty page does end up in an unmarked group |
| LibFs.SkippedIsOverwritten | oxbow/libfs/src/filesystem/read_write.c:184-197 | Skip-read is set only when no old byte of the page survives |
| LibFs.File.AllocCheck | oxbow/devfs/src/common/shm.c:92-117 | A group's state block exists afterwards; a new one starts clear, an old one is untouched |
| LibFs.File.MarkGroups | oxbow/libfs/src/filesystem/read_write.c:152-163 | Exactly which groups get marked |
| LibFs.File.WritePage | oxbow/libfs/src/filesystem/read_write.c:176-223 | One page: the bytes, and all four state bits |
| LibFs.File.WritePages | oxbow/libfs/src/filesystem/read_write.c:165-228 | The page loop lays exactly the buffer over the file and sets exactly the pages' states |
| LibFs.File.Write | oxbow/libfs/src/filesystem/read_write.c:89-248 | Content and size are the overlay, all shared bits are as computed, and every dirty page is in a dirty group when the groups are covered |
| LibFs.File.Read | oxbow/libfs/src/filesystem/read_write.c:16-82 | Exactly the clipped range, or a refusal past the end |
| LibFs.WriteAll | oxbow/libfs/src/filesystem/read_write.c:89-248 | Any sequence of writes up to 32 MB: content is the overlay of all, every dirty page in a dirty group |

## Left out

- SPDK, NVMe-oF, RDMA, shared-memory RPC, the data fetcher and thread pools: I/O is modelled as atomic block reads and writes.
- Crash recovery and stage-area checkpointing: stubs in the source.
- The asynchronous dispatch branches and worker ids: compiled out.
- The daemon's building of transactions and its stage-area allocation: all chunks of a transaction are full but the last, the stage area is a constant input, and a transaction is any that describes its own data, targets only the file system area and has its stage data based inside the stage area.
- The `start` field of the superblock, and the contents of superblock copy and commit block: any block.
- Failure of malloc, of a dispatch, and the leak paths: not modelled; a refused allocation of log space is an assertion failure in the source and a disabled step here.
- `total_log_size`, which only feeds an assertion, and a client's reconnect, which resets the sequence number: not modelled.
- The commit under `g_tx_seqn_mutex` is one step; the checkpoint thread cannot observe its parts.
- Weak memory ordering, and overflow of counters, versions and positions: sequential consistency and unbounded numbers.
- The bit packing of khash flags, its sets without values, kh_clear, and table sizes above 2^31: only add easy members. A key carries its hash value.
- LibFs.File.Write: one writer at a time (the inode lock is held), counts below 2^32 and files below 1 TB, where the group bitmap ends.
- LibFs.File.Read: zero-length reads are outside the domain.
- `dirty_mgmt.c`, fsync bounce queue, POSIX wrappers, profiling and debug printing: not modelled.
