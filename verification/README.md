# Fusey in Dafny

Fusey is a log-structured filesystem. File bytes are appended to chunk objects, an in-memory index maps every
inode to extents of those chunks, a compactor rewrites extents, and persistence and recovery rebuild the same
filesystem after a crash. This project models that stack in Dafny and proves what it promises.

## How it is built

- `Extents.dfy`, `InPlaceFilter.dfy`, `FileData.dfy`: one file's extent list read as a sparse byte array; the
  overwrite as documented and as its in-place loop runs; all files at once, with no chunk byte shared by two extents.
- `ChunkIds.dfy`, `ChunkModel.dfy`: chunk ID printing and scanning; the chunk store under every outcome of a put.
- `IndexModel.dfy`, `Names.dfy`, `Tree.dfy`: the index operations, link counts, and the shape of the directory graph.
- `Filesystem.dfy`, `Runs.dfy`: the whole stack as one state machine: operations, the separate steps of a persist,
  compaction steps, store failures, crash and cold start; what holds over all its runs.
- `Races.dfy`: the four locked steps of a write, interleaved with other writers and every other operation; when the
  capacity limit survives that.
- `Flags.dfy`: exactly when a dirty flag that a persist clears tells the truth, with operations running beside it.
- `Attributes.dfy`: permissions, owners, sizes and times by the inodes each operation stamps; block counts, link sizes.
- `Refinement.dfy`: the reference filesystem (an entry table, inode types, permissions, owners, sizes, times, byte
  arrays, symlink targets, extended attributes), which computes every operation from its own state; every run of the
  stack is a run of it.
- `Wire.dfy`, `Persistence.dfy`: snapshot, codec, restore; the persist function, fsync and the cold start.
- `Packing.dfy`, `CompactionModel.dfy`, `Compactor.dfy`: greedy packing, the remap, and one compaction cycle.
- `Cache.dfy`, `CachedChunks.dfy`, `WarmStart.dfy`: the single-flight chunk cache as a state machine over any number of
  readers; joined with the chunk store whose seals and deletions drive it; and started over an old directory.
- `Index.dfy`, `ChunkStore.dfy`, `ObjectStore.dfy`, `Fusey.dfy`: the mutable objects. Their methods are proved to be
  steps of the machine, so theorems about its runs apply to sequences of calls.

A put has three outcomes: stored, lost, or stored although it reported failure. Clocks are parameters. Whether the
object store, the cache's disk and the snapshot's disk answer is a field of each that no call changes: while it is set
every call on them succeeds that can, and while it is not any of them may fail.

## Where the code departs from its intent

- `WriteExtent` filters in place over the slice it is ranging. A write strictly inside an extent that is not last
  loses every later extent. The loop is modelled as it runs; it agrees with the documented overwrite exactly when no
  extent before the last contains the write (`InPlaceAgreesIff`, `InPlaceReadsRightIff`, `SplitLosesData`). The
  refinement holds for the documented overwrite always, and for the loop under that guard.
- `Rename` of an entry onto itself drops a link or frees the inode (`RenameLinksIff`), and moving a directory below
  itself closes a cycle (`RenameTreeIff`). `Rename` into something that is no directory writes to a nil map, so an
  existing destination directory is required.
- The codec rejects the chunk IDs that compaction creates, so with the daemon's persist function a compaction that
  packs anything deletes nothing (`Compact`, parameter `production`).
- Persisting is not atomic: flush, encode, put and clearing the flag each take their own lock. What the put needs is
  that the active chunk was flushed when the index was encoded (`PutIndexSafeIff`, `EncodedFlushedIsSafe`); a write
  acknowledged between flush and encoding breaks it (`WriteInGapBreaks`). A write acknowledged between encoding and
  clearing leaves a clean flag over a store that lacks it, and the persist at shutdown then skips the index
  (`RemoteCleanIff`, `WriteForgotten`, `LostWriteRun`). The local snapshot has the same window (`LocalCleanIff`).
- The local snapshot is meant to survive an unreachable store, but it is saved before the active chunk is flushed. A
  start from it can read every file exactly when that chunk is flushed as far as the index uses it (`LocalStartIff`),
  which no acknowledged write leaves it (`SavedBeforeFlush`).
- A cache directory that an earlier session left is used unchecked. Every answer of the new session is right, over all
  interleavings, exactly when each file agrees with its stored chunk and none with a byte bears an ID that this session
  will issue (`WarmAnswersIff`, `SetCacheDir`). It fails when a chunk was deleted and its ID is issued again:
  `StaleAfterRestart` gives the run, whose read returns the byte of the deleted chunk.
- A truncation that grows a file skips the capacity check, and so does a start with a lower limit (`CapStepIff`).
- A write looks up the size, adds up the space in use, appends and records under four separate locks. Two writes that
  fit one by one can both pass the check and together exceed the limit (`RaceOverfills`, `RaceFromMount`). The limit is
  kept exactly when each write still fits as it is recorded (`ParCapRunIff`); for writes admitted together, in whatever
  order, exactly when the sizes they reach together fit (`TogetherFitsIff`). It is always kept when only one write is in
  flight and no size is set meanwhile (`LoneRun`). The bytes are right in every interleaving (`ParRunKeeps`), with the
  documented overwrite, or with the loop under the guard above.
- A link count at its maximum wraps on the next link, unchecked (`AddDirEntryLinks`). A call on the index that creates a
  directory under the inode number it is about to get makes it its own child (`MetaTree`); no node of the mounted
  filesystem has that number yet, so the kernel cannot ask for it.
- A symlink's target is not counted in its blocks (`LinkBlocksIff`), and setting a size on a symlink is not refused,
  which is exactly when its size is no longer its target's length (`SizesStepIff`).
- The start-up scan reads eight digits, so wider sequence numbers can be reissued (`RecoveredIdsFreshIff`).
- An empty append can share its remap key with the next one (`ConsecutiveKeysIff`); writes are taken to be non-empty.
- The specification's invariants that extents cover a file and add up to its size fail for holes. The invariant here
  is disjoint extents inside the file.

## Model

| member | source | states |
|---|---|---|
| `Extents.WriteFreshIsOverlay` | internal/index/index.go:488-543 | a copy-on-write overwrite of the extent list is an overlay on the byte array, zeros in any gap |
| `Extents.TrimIsResize` | internal/index/index.go:682-696 | trimming the list is a cut or zero-extension of the byte array |
| `Extents.TrimExtents` | internal/index/index.go:682-696 | the loop computes the trim |
| `Extents.SurvivorsAreParts` | internal/index/index.go:503-530 | survivors are parts of old extents, disjoint in the file and in the chunks |
| `InPlaceFilter.FilterInPlace` | internal/index/index.go:503-532 | the array loop, for any slice capacity, computes the in-place result |
| `InPlaceFilter.InPlaceAgreesIff` | internal/index/index.go:503-532 | the loop equals the fresh-list filter if and only if no extent before the last contains the write |
| `InPlaceFilter.SplitShape` | internal/index/index.go:503-532 | otherwise the result is prefix, head, repeated tails, new extent |
| `InPlaceFilter.InPlaceReadsRightIff` | internal/index/index.go:503-532 | the same if-and-only-if on the bytes a reader sees, over all chunk contents |
| `InPlaceFilter.SplitLosesData` | internal/index/index.go:503-532 | a concrete file whose last four bytes are lost |
| `FileData.WriteExtentOverlays` | internal/index/index.go:491-543 | a write overlays one file, leaves all others, and keeps all live extents disjoint across files |
| `FileData.SetAttrResizes` | internal/index/index.go:421-459 | setting a size resizes that file only |
| `FileData.MetaRetains` | internal/index/index.go:254-419 | no operation on names changes a byte of a file that lives on |
| `FileData.RemapKeepsFiles` | internal/index/index.go:663-680 | a remap that moves bytes unchanged changes no file |
| `ChunkIds.ScanPrinted` | internal/chunks/chunk_store.go:64-104 | the eight-wide scanner undoes the printer exactly below 10^8 |
| `ChunkIds.ParsePrinted` | internal/index/persist.go:59-73 | the codec's parser undoes the printer on 32-bit numbers and rejects the rest |
| `ChunkIds.RecoveredIdsFreshIff` | internal/chunks/chunk_store.go:49-82 | for any listing in any order, all IDs issued are new if and only if no listed number has nine digits |
| `ChunkIds.RecoveredActiveFreshIff` | internal/chunks/chunk_store.go:58-82 | exactly when the first active ID aliases a listed chunk |
| `ChunkIds.WideSeqMisread` | internal/chunks/chunk_store.go:64-80 | a listing of one nine-digit chunk, whose number is misread and reissued |
| `ChunkIds.ScanListing` | internal/chunks/chunk_store.go:64-70 | the scan loop finds the highest number |
| `ChunkModel.SealKeeps` | internal/chunks/chunk_store.go:177-201 | sealing loses no byte and changes no sealed object, whatever the store does |
| `ChunkModel.FlushKeeps` | internal/chunks/chunk_store.go:203-217 | flushing keeps the stored copy a prefix of the buffer, equal when clean |
| `ChunkModel.AppendKeeps` | internal/chunks/chunk_store.go:113-141 | a successful append stores its data in bytes no extent can be using |
| `ChunkModel.AppendReadsBack` | internal/chunks/chunk_store.go:113-167 | what an append returned reads back as its data after any run that does not delete its chunk |
| `ChunkModel.AppendPlaces` | internal/chunks/chunk_store.go:117-140 | an append fails exactly if its data exceeds a chunk or a rotation it needs cannot store the buffer, and leaves the active chunk exactly if the data does not fit |
| `ChunkModel.SealedNeverChanges` | internal/chunks/chunk_store.go:12-18 | over any run a sealed object never changes until deleted |
| `ChunkModel.ConsecutiveKeysIff` | internal/chunks/chunk_store.go:131-140 | two appends share a remap key exactly when the first is empty and the second does not rotate |
| `ChunkModel.RecoveredTight` | internal/chunks/chunk_store.go:49-82 | start-up goes past every number it scanned and no further: the number before the active chunk's was listed |
| `Names.RemoveDirEntryLinks` | internal/index/index.go:323-369 | link counts stay exact; the inode is freed if and only if its last entry went |
| `Names.AddDirEntryLinks` | internal/index/index.go:293-321 | exactly one entry is added; link counts stay exact if and only if the 32-bit count does not wrap |
| `Names.RenameLinksIff` | internal/index/index.go:371-419 | a rename keeps link counts exact if and only if its two entries differ |
| `Names.MetaLinks` | internal/index/index.go:254-419 | an operation on names that succeeds keeps counts exact, no entry dangling and nothing unowned, if and only if no count wraps and no entry is renamed onto itself |
| `Tree.RenameTreeIff` | internal/index/index.go:371-419 | a rename keeps the directories free of cycles if and only if no directory moves below itself |
| `Tree.MetaTree` | internal/index/index.go:254-419 | such an operation keeps the directories a tree if and only if it neither moves a directory below itself nor creates one under its own number; otherwise there is a cycle |
| `Tree.GetParentIno` | internal/index/index.go:614-630 | in a tree the scan gives the same parent for every iteration order |
| `Filesystem.StepSimulates` | internal/fuse/fs.go:427-492 | every operation with every store outcome keeps the machine's invariant and has its effect on the bytes of the running, the stored and the encoded index |
| `Filesystem.WriteUnflushes` | cmd/fusey/main.go:408-421 | every acknowledged write leaves the index referring to bytes not yet in the store |
| `Filesystem.FlushedIffStored` | cmd/fusey/main.go:392-399 | an index reads from the store alone if and only if the active chunk is flushed as far as the index uses it |
| `Runs.EncodedFlushedIsSafe` | cmd/fusey/main.go:408-420 | if the active chunk is flushed when the index is encoded, the put is safe however late it comes and whatever was written meanwhile |
| `Runs.WriteInGapBreaks` | cmd/fusey/main.go:408-420 | after a write acknowledged between flush and encoding, a put that lands leaves an index the store cannot serve |
| `Runs.LocalStartIff` | cmd/fusey/main.go:389-391 | what a start from the saved local snapshot would find in the store is every file as it is, if the active chunk is flushed as far as the index uses it, and otherwise cannot be read |
| `Runs.SavedBeforeFlush` | cmd/fusey/main.go:403-410 | after any acknowledged write, the snapshot saved before the flush refers to bytes that only memory holds |
| `Runs.ReachableDisjoint` | internal/index/index.go:491-543 | in every reachable state live extents are in bounds, share no chunk byte, and are identified by their key |
| `Runs.CrashRecovers` | cmd/fusey/main.go:401-458 | encode after a flush, any run, a put that lands, any run without another, crash: a cold start shows every file as when the index was encoded |
| `Runs.NameRun` | internal/index/index.go:254-419 | over every run, in memory and durably: exact link counts, no dangling entry, a tree |
| `Runs.CapStepIff` | internal/fuse/fs.go:466-482 | a step, a write being one, keeps within capacity if and only if it is no truncation up, and no start with a lower limit, that does not fit |
| `Runs.CapRun` | internal/fuse/fs.go:466-482 | over every sequential run in which those fit, each write being one step, file sizes never add up to more than the limit |
| `Attributes.SizesStepIff` | internal/index/index.go:421-563 | a step keeps every block count the least that holds the size, and every link as long as its target, if and only if it sets no link's size to another value |
| `Attributes.SizesRun` | internal/index/index.go:421-563 | so does every run, in memory and durably |
| `Attributes.LinkBlocksIff` | internal/index/index.go:545-563 | a new link's blocks hold its size if and only if the target is empty |
| `Races.UndisturbedWrite` | internal/fuse/fs.go:466-492 | the four locked steps of a write with nothing between them are the one step of the sequential machine, whatever fails |
| `Races.ParStepKeeps` | internal/fuse/fs.go:466-492 | in every interleaving each step of a writer keeps the invariant; unrecorded extents hold their data in bytes no file and no other writer uses; a write changes the bytes only when recorded, and then as a whole |
| `Races.ParRunKeeps` | internal/fuse/fs.go:466-492 | over every interleaving the bytes are those of the recorded writes and the other operations in that order |
| `Races.LateReadExact` | internal/fuse/fs.go:427-464 | whatever runs between taking the extent list and reading the chunks, each chunk read gives the bytes the file had when the list was taken, until the chunk is deleted |
| `Races.RecordAfterDeleteIff` | internal/fuse/fs.go:484-490 | after a deletion between append and record, the index is readable if and only if the extent lies in another chunk |
| `Races.ParCapStepIff` | internal/fuse/fs.go:471-490 | a step of an interleaving keeps within capacity if and only if it is no record, truncation or start that does not fit at that moment |
| `Races.ParCapRunIff` | internal/fuse/fs.go:471-490 | an interleaving keeps within capacity throughout if and only if each of them fits when it is taken |
| `Races.SettledInAnyOrder` | internal/fuse/fs.go:484-490 | the sizes that a set of writes reaches do not depend on the order of recording |
| `Races.TogetherFitsIff` | internal/fuse/fs.go:471-490 | writes that hold extents to record, in any order, keep within capacity throughout if and only if the sizes they reach together fit |
| `Races.RaceOverfills` | internal/fuse/fs.go:474-482 | any two appends to different files that fit one by one can both be acknowledged; the limit is then kept if and only if they fit together |
| `Races.RaceFromMount` | internal/fuse/fs.go:474-482 | the failing run from a fresh mount: a limit of one byte, two bytes in use |
| `Races.LoneRun` | internal/fuse/fs.go:471-490 | while at most one write is in flight and no size is set meanwhile, every interleaving with the other operations keeps within capacity |
| `Flags.FlagRun` | internal/index/index.go:143-173 | over every run, whatever fails, clean flags tell the truth as long as none is cleared over a change its copy lacks |
| `Flags.ReadsStayClean` | internal/index/index.go:604-612 | over every run without a structural operation, there is nothing new to put to the store |
| `Flags.RemoteCleanIff` | cmd/fusey/main.go:411-422 | after encode, any operations, a successful put and clearing, the clean flag is true if and only if no structural operation took effect since the encoding, the clock having moved on |
| `Flags.RemoteCleanIffNoWrite` | cmd/fusey/main.go:411-422 | with no assumption on the clock, among windows whose structural operations are writes: if and only if no write was acknowledged |
| `Flags.LocalCleanIff` | internal/index/persist.go:155-177 | the same of the local snapshot, where access times count too |
| `Flags.WriteForgotten` | cmd/fusey/main.go:414-421 | any write acknowledged between encoding and put: safe put, clean flag, and a store with the files before the write |
| `Flags.LostWriteRun` | cmd/fusey/main.go:232-247 | the failing run from a fresh mount: the running system shows the byte, the flag is clean, a cold start shows an empty file |
| `Refinement.MetaShows` | internal/index/index.go:254-419 | every operation on names does what the reference computes from its own entry table, where a file goes exactly with its last entry |
| `Refinement.MetaShowsStats` | internal/index/index.go:254-419 | every operation on names leaves the permissions, owners, sizes and times of the reference: a new inode has what its maker gave, and exactly the directories and the inode named are stamped |
| `Refinement.StepRefines` | internal/fuse/fs.go:427-492 | every operation, store failure and crash is the step of the reference, attributes included, which is told only whether the store took a write's data |
| `Refinement.RunRefines` | internal/fuse/fs.go:427-492 | so is every run |
| `Refinement.FilesystemRefines` | internal/fuse/fs.go:427-492 | every run from a fresh mount shows, and would restore after a crash, the names, types, permissions, owners, sizes, times, bytes, targets and extended attributes of the reference run |
| `Refinement.MountHolds` | internal/index/index.go:33-56 | a fresh mount satisfies every invariant that the run theorems start from |
| `Wire.RoundTripIff` | internal/index/persist.go:75-151 | for any entry order, encode, decode and restore give back the index if and only if all IDs are canonical |
| `Wire.TakeSnapshot` | internal/index/index.go:99-141 | the snapshot lists every entry, in any order |
| `Wire.EncodeSnapshot` | internal/index/persist.go:75-113 | the encoding loops compute the wire form or fail |
| `Wire.RestoreDirs` | internal/index/index.go:81-95 | any listing rebuilds the directories, empty ones included |
| `Wire.RebuildDirs` | internal/index/index.go:81-87 | the rebuilding loop gives the directories of the listing |
| `Wire.RestoreSnapshot` | internal/index/index.go:58-97 | the two loops compute the index that the snapshot stands for, which `RoundTripIff` relates to the original |
| `Persistence.PersistedExact` | internal/index/persist.go:194-206 | in every state that a run from a fresh mount reaches, persisting any snapshot fails to encode or stores exactly the index |
| `Persistence.Persister.Save` | internal/index/persist.go:153-177 | the local snapshot becomes the index, or nothing changes; it fails to encode exactly on an ID the codec has no form for, and to write only while the disk is down |
| `Persistence.Persister.Persist` | cmd/fusey/main.go:401-424 | wherever it fails readers see no change and a cold start shows the old or the present files; after success, changed or not, the present ones, and the local snapshot is the index if that had changed; while the disk is up a changed index that can be encoded is saved whatever the store does; an unchanged one is not put; while store and disk are up it succeeds if and only if nothing is dirty or every ID can be encoded |
| `Persistence.Persister.Fsync` | internal/fuse/fs.go:498-515 | after success the stored chunks hold every file, through the index and, with a cache directory, through the saved snapshot, which is never saved before they do; while store and disk are up it succeeds exactly when what it saves can be encoded |
| `Persistence.ColdStart` | cmd/fusey/main.go:373-458 | under any new limits, the filesystem that comes up shows the files of the last index put and its active chunk aliases nothing, given no number too wide for the scan and no stale cache file; a found index that can be encoded is cached locally while the disk is up; while store and disk are up it comes up, with its cache over the directory |
| `Packing.PackAllOk` | internal/compaction/compactor.go:97-135 | every packed extent is held unchanged in an output, no two in the same bytes |
| `Packing.PackAllFilled` | internal/compaction/compactor.go:118-127 | outputs fit the limit when extents do; two consecutive outputs together exceed it |
| `Packing.PackAllTotal` | internal/compaction/compactor.go:112-135 | outputs hold exactly as many bytes as were packed |
| `Packing.PackCount` | internal/compaction/compactor.go:97-135 | at most 2·(live/limit)+1 outputs |
| `CompactionModel.JobsAreLive` | internal/compaction/compactor.go:57-62 | what is packed is exactly the live extents of the targets, for any walk of the index |
| `CompactionModel.PackedRemapOk` | internal/compaction/compactor.go:126-148 | the remap, keyed by chunk and offset alone, gives no extent another's length, place or bytes |
| `CompactionModel.LiveInBounded` | internal/compaction/compactor.go:80-84 | the live bytes found in a chunk never exceed its size |
| `CompactionModel.CompactionSaves` | internal/compaction/compactor.go:93-160 | the store shrinks by exactly the orphaned bytes of the targets |
| `Compaction.OrphanFraction` | internal/compaction/compactor.go:80-87 | the orphaned fraction lies between zero and one |
| `Compaction.WorthwhileIff` | internal/compaction/compactor.go:76-87 | the fraction reaches the threshold exactly when the orphaned bytes reach threshold times the size |
| `Compaction.SelectedWell` | internal/compaction/compactor.go:70-88 | each chunk taken frees at least that share and each one left is not empty and frees less; at a threshold up to one a chunk no file uses is taken, and above zero a fully used one is left |
| `Compaction.SharesAddUp` | internal/compaction/compactor.go:70-88 | the orphaned bytes of all targets are at least threshold times their size |
| `Compaction.CrashSafeAtEveryStep` | internal/compaction/compactor.go:137-160 | at every boundary between effects, those of the persist included, every file reads back through memory, the stored index, and a cold start |
| `Compaction.Compactor.SelectTargets` | internal/compaction/compactor.go:70-88 | exactly the chunks that are empty or whose orphaned bytes reach threshold times their size, less those whose size the store would not tell; while the store is up it tells all |
| `Compaction.Compactor.Compact` | internal/compaction/compactor.go:55-163 | one cycle is a safe run of the machine; with the daemon's persist it deletes nothing if it packed anything; one that completes has deleted its targets and saved exactly their orphaned bytes, at least threshold times their size, kept every other object, and put few new ones that keep to the chunk size if the extents do; each chunk left would have freed less than its share; while store and disks are up no chunk is silent, and it completes if and only if there was nothing to compact or the index could be stored |
| `Cache.StepKeeps` | internal/chunks/cache.go:54-107 | every atomic step of any reader keeps the cache invariant |
| `Cache.OneFetcher` | internal/chunks/cache.go:72-88 | in every interleaving each chunk has at most one active fetcher |
| `Cache.OneSuccessfulFetch` | internal/chunks/cache.go:63-101 | at most one fetch of each chunk ever succeeds |
| `Cache.AnswersAreSealedBytes` | internal/chunks/cache.go:47-107 | every answer is the bytes sealed under the ID, however served |
| `Cache.WaiterSharesOutcome` | internal/chunks/cache.go:72-84 | a waiter gets the outcome of the fetch it waited for |
| `Cache.NeverStuck` | internal/chunks/cache.go:72-101 | an unanswered reader can move, or waits for an entry whose fetcher can move and will close it |
| `Cache.EveryReadEnds` | internal/chunks/cache.go:54-107 | however interleaved, every reader takes at most seven steps |
| `Cache.HealthyStep` | internal/chunks/cache.go:85-107 | while nothing fails and the chunk is not deleted, no fetch of it fails for any reader |
| `CachedChunks.InducedStore` | internal/chunks/chunk_store.go:177-234 | each operation of the chunk store does to the sealed chunks what the seal or deletion it induces does to the cache's store |
| `CachedChunks.RunJointKeeps` | internal/chunks/chunk_store.go:12-34 | over every interleaving of store operations and readers the joint invariant holds and what was sealed under an ID never changes |
| `CachedChunks.LiveExtentReadsExact` | internal/chunks/chunk_store.go:143-167 | any part of any live extent of a sealed chunk may be asked of the cache, and in every interleaving an answer is that part of the file |
| `CachedChunks.CachedReadExact` | internal/chunks/chunk_store.go:155-166 | in every interleaving a cached answer is what the view held when the read began and, until the chunk is deleted, what it holds now |
| `CachedChunks.UndisturbedReadSucceeds` | internal/chunks/cache.go:47-107 | a read that nothing disturbs, when it answers, answers with the bytes of the view |
| `WarmStarts.WarmAnswersIff` | internal/chunks/chunk_store.go:84-99 | over all interleavings of a session started on an old directory, every answer is what the view held if and only if no file disagrees with its stored chunk and no file with a byte bears an ID to be issued |
| `WarmStarts.StaleAfterRestart` | internal/chunks/chunk_store.go:84-99 | the failing run: sealed and cached, deleted, restarted, the ID issued again for another byte, the cache put failing: the read returns the old byte |
| `ChunkStores.ChunkStore.RecoverNextSeq` | internal/chunks/chunk_store.go:49-82 | the active chunk aliases nothing stored, unless a listed number is too wide for the scan |
| `ChunkStores.ChunkStore.SealLocked` | internal/chunks/chunk_store.go:177-201 | the in-place seal, with its best-effort cache put, is the seal of the joint model; while the disk is up the cache then holds the whole sealed chunk |
| `ChunkStores.ChunkStore.KeptServes` | internal/chunks/chunk_store.go:191-195 | every range of a chunk so kept is a hit with its bytes, so that reads of it succeed whatever the store does |
| `ChunkStores.ChunkStore.SetCacheDir` | internal/chunks/chunk_store.go:84-99 | over a directory with files, every answer of every interleaving that follows is right if and only if they agree with the store and, where not empty, bear no ID to be issued |
| `ChunkStores.ChunkStore.Append` | internal/chunks/chunk_store.go:113-141 | the in-place append is the append of the joint model, and reads back; while the disk is up the cache holds the chunk that a rotation sealed |
| `ChunkStores.ChunkStore.ReadRange` | internal/chunks/cache.go:54-107 | a cached read is a run of one reader of the cache machine, and its answer is the view's; it answers on a hit whatever the store does, and otherwise while store and disk are up; what was read is a hit from then on |
| `ChunkStores.ChunkStore.Read` | internal/chunks/chunk_store.go:143-167 | of a range that the view can serve, the bytes of the view; a range of the active chunk, a hit, and while store and disk are up any such range, succeeds |
| `ChunkStores.ChunkStore.FlushActive` | internal/chunks/chunk_store.go:203-217 | the in-place flush is the flush of the joint model; the view is unchanged |
| `ChunkStores.ChunkStore.PutSealed` | internal/chunks/chunk_store.go:230-234 | a chunk put under a name never used is sealed for store and cache alike |
| `ChunkStores.ChunkStore.DeleteChunk` | internal/chunks/chunk_store.go:219-228 | the store loses the chunk, the cache keeps what it has of it, and the joint invariant holds |
| `ChunkStores.ChunkStore.ListSealed` | internal/chunks/chunk_store.go:250-267 | exactly the stored chunks other than the active one, each once |
| `Indexes.Index.CreateInode` | internal/index/index.go:254-291 | the update in place is `IndexModel.CreateInode`, whose fields `Refinement.MetaShowsStats` and `Fusey.MakeNode` give, and both dirty flags are set |
| `Indexes.Index.AddDirEntry` | internal/index/index.go:293-321 | the update in place is `IndexModel.AddDirEntry`, with both dirty flags set, or nothing changes on error |
| `Indexes.Index.RemoveDirEntry` | internal/index/index.go:323-369 | the update in place is `IndexModel.RemoveDirEntry`, with both dirty flags set, or nothing changes on error |
| `Indexes.Index.Rename` | internal/index/index.go:371-419 | the update in place is `IndexModel.Rename`, with both dirty flags set, or nothing changes on error |
| `Indexes.Index.SetAttr` | internal/index/index.go:421-459 | the update in place is `IndexModel.SetAttr`, whose fields `Refinement.StepRefines` and `Fusey.Setattr` give, with both dirty flags set, or nothing changes on error |
| `Indexes.Index.WriteExtent` | internal/index/index.go:488-543 | the in-place filter's state and flags, for any slice capacity |
| `Indexes.Index.TouchAtime` | internal/index/index.go:604-612 | only the access time and the local flag change |
| `Indexes.Index.UsedBytes` | internal/index/index.go:637-649 | the sum of regular-file sizes in any order |
| `Indexes.Index.LiveExtents` | internal/index/index.go:651-661 | all lists, one after the other in any order |
| `Indexes.Index.RemapExtents` | internal/index/index.go:663-680 | every list remapped slot by slot |
| `FuseyLayer.Fusey.Read` | internal/fuse/fs.go:427-464 | through the cache, exactly the requested part of the file's bytes; while store and disk are up it succeeds on every inode there is; the access time is touched exactly when bytes were read |
| `FuseyLayer.Fusey.Admit` | internal/fuse/fs.go:469-482 | no space exactly when the bytes beyond the present end do not fit beside all that is in use; an overwrite always fits |
| `FuseyLayer.Fusey.Write` | internal/fuse/fs.go:466-492 | acknowledged exactly when the data has been overlaid on the file; no space exactly when it does not fit; while the store is up its put succeeds |
| `FuseyLayer.Fusey.Setattr` | internal/fuse/fs.go:81-121 | the file is cut or zero-extended; mode without type bits, owner, group, size and times are as requested or as they were, with the clock for the modification time of a resize; nothing else changes, in this inode or another |
| `FuseyLayer.Fusey.MakeNode` | internal/fuse/fs.go:174-230 | succeeds exactly on a free name of a directory; the new inode has the type, permission bits, owner and group asked for, is empty and bears that name; of the others only the directory's times change |
| `FuseyLayer.Fusey.Symlink` | internal/fuse/fs.go:232-259 | succeeds exactly on a free name of a directory; the new link has mode 0777, the owner and group asked for, the target and its length as size; of the others only the directory's times change |
| `FuseyLayer.Fusey.Link` | internal/fuse/fs.go:269-295 | succeeds exactly for a non-directory and a free name; link counts stay exact if and only if the count does not wrap |
| `FuseyLayer.Fusey.Unlink` | internal/fuse/fs.go:297-303 | succeeds exactly when the index can remove the entry; link counts stay exact |
| `FuseyLayer.Fusey.Rmdir` | internal/fuse/fs.go:305-325 | succeeds exactly on an empty directory and otherwise changes nothing |
| `FuseyLayer.Fusey.Rename` | internal/fuse/fs.go:327-337 | succeeds exactly when the index can move the entry; link counts stay exact if and only if it is not moved onto itself |

## Left out

- FuseyLayer.Fusey.Rename: requires an existing destination directory, without which the code panics.
- FuseyLayer.Fusey.Setattr: sizes and times are unbounded; the conversions to 64 bits are not modelled.
- Compaction.Compactor.SelectTargets: the threshold comparison is over exact reals, not 64-bit floating point.
- Compaction.Compactor.Compact: requires that the clock gives output names never used before, as the code takes for granted.
- Persistence.ColdStart: takes the object-store path; of a start from the local snapshot only what it would find is stated (`LocalStartIff`).
- Flags.RemoteCleanIff: no compaction runs beside the persist, as it runs in a process of its own; without the assumption on the clock the equivalence is proved for writes.
- ChunkStores.ChunkStore.ReadRange: a range beyond the end of a fetched chunk, which makes the code panic, is an error.
- ChunkIds.ScanPrinted: of the blanks a scan skips, only the ASCII ones are modelled.
- 64-bit overflow of sizes and offsets; integers are unbounded except for link counts and codec sequence numbers.
- Reading a cached file does not fail by itself, and the temporary file of one cache write is not shared with another.
- Two persists towards the same copy at once, which only an fsync beside the periodic save or the shutdown can bring about.
- Compaction beside a mounted daemon: the compactor takes a filesystem that nothing else uses.
- Several goroutines: each call on the index or the chunk store is one step, as its lock makes it. Persists and writes are split where they release their locks, and so are cached reads and the chunk reads of a file; a create, mkdir or symlink, which takes two or three locks, is one step.
- WarmStarts.WarmAnswersIff: takes a chunk size above zero, without which nothing is ever written, and counts reads of ranges that the view serves.
- Races.ParRunKeeps: a deletion or remap must spare the extents that writers have not recorded yet (`RecordAfterDeleteIff` says why); compaction runs in a process of its own.
- `AppendExtent`, `Readdir`, statfs, xattr buffer sizes, attribute filling and errno mapping: one-branch facts.
- S3 client, broker client and broker, CBOR bytes, temp-file and rename mechanics, daemon start, signals and configuration.
