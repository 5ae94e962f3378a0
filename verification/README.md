# Dentry files and what is built on them

A model, in Dafny, of the parts of the distributed file service that keep data consistent: the
dentry file of the cloud disk, the recycle bin, the pairing of the file table with the dentry files,
the recycle-size cache, the actor with its haltable queue, the LRU caches and the id codec. The main
results are about all inputs, all runs or all interleavings; where the code falls short of a property,
the exact condition under which it holds is proved.

The dentry file is modelled from the bytes up.

- `Layout.dfy` has the 32-bit layout arithmetic of levels, buckets and groups.
- `Bitmap.dfy` has the slot bitmap, on arrays of bytes, and the first-fit search.
- `Dentry.dfy`, `Group.dfy` and `GroupBuffer.dfy` have one entry, one group as a value with its tiling
  invariant, and one group in memory as arrays that are edited in place.
- `DentryFile.dfy` has the whole-file invariant and the directory a file stands for.
- `MetaFile.dfy` has the class `CloudDiskMetaFile`: search, growth, create, lookup, update, remove and
  listing, each with its locks, and with stat, growing, locking, reading, writing and unlocking failing.
- `LockTrace.dfy` has what the locking discipline, which every operation's trace keeps, buys when several
  processes interleave; `RacingCreates.dfy` has which interleavings of creates keep names unique.
- `Children.dfy`, `NewName.dfy`, `MetaFileOps.dfy` and `BoundedScan.dfy` have what is built from these:
  listing, fresh names, rename and the bin, the refinement of a plain map by any sequence of
  operations, and the size-bounded search of the older file class.

On top of it:

- `DentryDirs.dfy` holds the dentry files of all directories.
- `TwoStores.dfy` says, on values, what it means that the file table and the dentry files agree: rows and
  dentries correspond one to one, a live row's dentry under its parent and name, a recycled row's in
  `.trash` under name_rowId, each describing its row; only the bin's own dentry in the root directory has
  no row. It shows exactly which requests keep that, and that every run of them does. What each request
  means is also said by its arguments alone, field by field (`TableSays`, `DirsSay`), and proved of it.
- `RdbStore.dfy` has the requests themselves, as methods that change the table under a transaction and
  then the dentry files of `DentryDirs`. It shows that an error leaves both as they were, and replays any
  sequence of requests.

The remaining modules stand alone: `RecycleSize.dfy`, `Actor.dfy`, `LruCache.dfy` with `MetaFileMgr.dfy`
and `NotifyUri.dfy`, and `IdCodec.dfy`. `Common.dfy` has what several share, `Decimal.dfy` prints and
reads numbers.

Names and ids are strings in which one character is one byte. The name hash is any function. System
calls are parameters: an `Io` value says which of them fail during one operation, an `Env` value does the
same for a request. Clock readings, stat results, row ids and errno values are parameters too.

What the model shows about the code beyond its expected behaviour:

- Bucket addresses are right exactly up to level 30 (`Layout.AddressesRightIffLevelSafe`).
- The level computed from the file size is right exactly up to level 18 (`BoundedScans.MaxLevelRightIff`),
  and deeper entries are then missed (`BoundedScans.BoundedIsFullIff`, `BoundedScans.DeepEntryMissed`).
- A create that cannot read the group of an existing entry, but one with room, makes a second entry of that
  name (`MetaFiles.CloudDiskMetaFile.DoCreate`, `MetaFiles.CreateTwice`).
- A move to or from the bin whose removal cannot read the entry reports success and leaves the entry in both
  places (`MetaFileOps.Transfer`, `MetaFileOps.RecycleLeavesBoth`).
- Two processes that create one name both succeed when each searches before the other writes: no lock is held
  in between (`RacingCreates.UniqueIffRaceFree`, `RacingCreates.BothCreatesSucceed`).
- Listing decodes the buffer as it is when a read fails: entries go missing or come twice
  (`ChildLists.RelistedIff`, `ChildLists.ListedTwice`).
- A creation overwrites the dentry of a taken name, and a file may even take the bin's name in the root
  directory (`TwoStores.MakeKeepsIff`).
- Setting an attribute with a name or id that is not the row's changes one store's row and another row's
  dentry, or creates a dentry (`TwoStores.EditKeepsIff`).
- A request whose commit fails three times still reports success (`TwoStores.LostCommitIff`). An input for this
  and the two before is `TwoStores.StoresPart`.
- Cache keys of cloud-disk files coincide across certain pairs of bundles, and the second caller is given the
  first one's file (`MetaFileMgrs.KeysCollideIff`, `MetaFileMgrs.AskTwice`).
- A URI depends on what is cached when the ancestors pass through the stored root id further up, or exceed
  the database walk's limits (`NotifyUris.CacheShowsIff`, `NotifyUris.StoredRootShows`, `NotifyUris.LongPathShows`).

## Model

| member | source | states |
|---|---|---|
| `Layout.LevelOfUnique` | utils/dentry/src/meta_file_clouddisk.cpp:244-283 | every group index belongs to exactly one level: levels neither overlap nor leave gaps |
| `Layout.LayoutBijection` | utils/dentry/src/meta_file_clouddisk.cpp:260-283 | (level, bucket, block) to group index is a bijection: each index is hit, and only by its own triple |
| `Layout.WholeFileSize` | utils/dentry/src/meta_file_clouddisk.cpp:234-258 | a file of levels 0..L, L at most 30, has exactly the bytes of their groups plus the header |
| `Layout.FileHoldsExactlyItsLevels` | utils/dentry/src/meta_file_clouddisk.cpp:239-258 | such a file holds a group if and only if the group is on a level up to L |
| `Layout.LowLevelsDoNotWrap` | utils/dentry/src/meta_file_clouddisk.cpp:260-283 | up to level 30 no 32-bit step wraps, and a bucket lies inside its level |
| `Layout.AddressesRightIffLevelSafe` | utils/dentry/src/meta_file_clouddisk.cpp:359-366 | the 32-bit bucket address is right for every hash if and only if the level is at most 30 |
| `Layout.HighLevelsWrap` | utils/dentry/src/meta_file_clouddisk.cpp:260-283 | from level 31 on hash 1 already gets a wrong address |
| `Bitmap.MaskIsShift` | utils/dentry/include/meta_file.h:199-202 | testing a bit by its mask is testing it by shifting it down |
| `Bitmap.WriteBit` | utils/dentry/include/meta_file.h:204-212 | writing one bit of one byte writes one bit of the whole bitmap and no other |
| `Bitmap.TestBit` | utils/dentry/include/meta_file.h:199-202 | reads the numbered bit |
| `Bitmap.SetBit` | utils/dentry/include/meta_file.h:209-212 | sets the numbered bit and leaves every other |
| `Bitmap.ClearBit` | utils/dentry/include/meta_file.h:204-207 | clears the numbered bit and leaves every other |
| `Bitmap.FindNextBit` | utils/dentry/include/meta_file.h:214-223 | the first set bit from start on, all before it clear, or the maximum |
| `Bitmap.FindNextZeroBit` | utils/dentry/include/meta_file.h:225-234 | the first clear bit from start on, all before it set, or the maximum |
| `Bitmap.RoomForFilename` | utils/dentry/src/meta_file_clouddisk.cpp:285-306 | first fit: the least position with that many clear bits inside the maximum |
| `Bitmap.FirstFitExact` | utils/dentry/src/meta_file_clouddisk.cpp:285-306 | first fit has one answer, which is the maximum if and only if nothing fits |
| `Dentries.FlagsReadBack` | utils/dentry/src/meta_file_clouddisk.cpp:86-117 | position, type and no-upload flag read back as their low bits, whatever the slot held before |
| `Dentries.FilledSlotReports` | utils/dentry/src/meta_file_clouddisk.cpp:614-622 | a slot filled from a MetaBase reports exactly its fields and the stored 33-byte id |
| `Dentries.ReportedStoresBack` | utils/dentry/src/meta_file_clouddisk.cpp:308-343 | storing what a lookup reported, by create or by update, loses nothing |
| `Dentries.CreatedSays` | utils/dentry/src/meta_file_clouddisk.cpp:308-343 | field by field what a create leaves: the caller's values cut to their widths, the id in front and zero bytes behind it |
| `Dentries.UpdatedSays` | utils/dentry/src/meta_file_clouddisk.cpp:641-648 | field by field what an update leaves: the caller's values cut to their widths, the new id's bytes in front and the old id's behind, zero bytes for an id that does not fit |
| `Dentries.PaddedApart` | utils/dentry/src/meta_file_clouddisk.cpp:329-330 | ids without zero bytes are told apart in their 33-byte fields |
| `Groups.RunsDisjoint` | utils/dentry/src/meta_file_clouddisk.cpp:308-343 | runs of different entries of a tiled group are disjoint |
| `Groups.WalkStep` | utils/dentry/src/meta_file_clouddisk.cpp:402-429 | at a boundary a set bit is a head, and the skipping walk lands on the next boundary without passing a head |
| `Groups.InsertAdds` | utils/dentry/src/meta_file_clouddisk.cpp:308-343 | an insertion over clear, possibly stale slots adds exactly that entry, keeps every other and keeps the tiling |
| `Groups.DeleteRemoves` | utils/dentry/src/meta_file_clouddisk.cpp:577-581 | clearing an entry's bits removes exactly that entry and keeps the tiling, stale fields and all |
| `Groups.ModifyChanges` | utils/dentry/src/meta_file_clouddisk.cpp:639-651 | an update in place changes only that entry's fields, never its name, hash or another entry |
| `Groups.EntryNameFits` | utils/dentry/src/meta_file_clouddisk.cpp:308-343 | stored names have 1 to 8 times the slot count bytes |
| `GroupBuffers.GroupBuffer.FindInBlock` | utils/dentry/src/meta_file_clouddisk.cpp:402-429 | finds the first matching entry of a tiled group, or there is none |
| `GroupBuffers.GroupBuffer.Room` | utils/dentry/src/meta_file_clouddisk.cpp:285-306 | first fit on the buffer's bitmap |
| `GroupBuffers.GroupBuffer.UpdateDentry` | utils/dentry/src/meta_file_clouddisk.cpp:308-343 | writes the entry if name and id can be copied, and says whether they could |
| `GroupBuffers.GroupBuffer.ClearEntry` | utils/dentry/src/meta_file_clouddisk.cpp:577-581 | clears the entry's bits and nothing else |
| `GroupBuffers.GroupBuffer.Refill` | utils/dentry/src/meta_file_clouddisk.cpp:639-651 | overwrites the slot's fields, laying the id over the old one |
| `DentryFiles.InsertIntoFile` | utils/dentry/src/meta_file_clouddisk.cpp:511-559 | inserting a new name on its path keeps the file invariant and adds that name to the directory |
| `DentryFiles.DeleteFromFile` | utils/dentry/src/meta_file_clouddisk.cpp:561-595 | deleting keeps the file invariant and removes that name alone |
| `DentryFiles.ModifyInFile` | utils/dentry/src/meta_file_clouddisk.cpp:625-665 | modifying keeps the file invariant and changes that name's entry alone |
| `DentryFiles.GrowFile` | utils/dentry/src/meta_file_clouddisk.cpp:345-357 | appending empty groups keeps the invariant and the directory |
| `LockTraces.HoldIsAfter` | utils/dentry/src/meta_file_clouddisk.cpp:385-460 | what a process holds in the log is what its own steps leave it holding |
| `LockTraces.NeverBroken` | utils/dentry/src/meta_file_clouddisk.cpp:473-665 | at every point of an interleaving of traces that end unlocked, each process holds at most one group and has written only groups it locked and then read |
| `LockTraces.Exclusive` | utils/dentry/src/meta_file_clouddisk.cpp:385-460 | no two processes hold the same group |
| `LockTraces.NoLostUpdate` | utils/dentry/src/meta_file_clouddisk.cpp:473-665 | every such interleaving leaves the file as if each read-edit-write had been atomic: no group update is lost |
| `LockTraces.OperationsLoseNothing` | utils/dentry/src/meta_file_clouddisk.cpp:473-739 | so for processes that carry out operation after operation, each of which starts and ends unlocked |
| `MetaFiles.OwnSegment` | utils/dentry/src/meta_file_clouddisk.cpp:473-739 | what an operation that starts and ends unlocked adds to the trace itself starts and ends unlocked |
| `MetaFiles.SharedFileLosesNothing` | utils/dentry/src/meta_file_clouddisk.cpp:473-739 | so for objects of the class, each from one point between its operations to another |
| `ChildLists.DecodeDentrys` | utils/dentry/src/meta_file_clouddisk.cpp:688-708 | the slot-by-slot walk yields the entries of the group in slot order |
| `ChildLists.RelistedIffNoneLost` | utils/dentry/src/meta_file_clouddisk.cpp:725-737 | with failed reads the listing is the directory's, in some order, if and only if what is repeated in place of the failed groups is what they hold |
| `ChildLists.RelistedIff` | utils/dentry/src/meta_file_clouddisk.cpp:725-737 | that is, over a blank buffer, if and only if every failed group is empty and so is the last group read before it |
| `ChildLists.ListedTwice` | utils/dentry/src/meta_file_clouddisk.cpp:725-737 | a file of one entry whose second group cannot be read lists that entry twice |
| `ChildLists.ListingIsDirectory` | utils/dentry/src/meta_file_clouddisk.cpp:710-739 | the listing has each name of the directory exactly once and agrees with lookup on every field it carries |
| `MetaFiles.GrowthIsNextLevel` | utils/dentry/src/meta_file_clouddisk.cpp:345-357 | a search for room asks for the present groups or exactly the next level, and growing keeps invariant and directory |
| `MetaFiles.FreshLevelHasRoom` | utils/dentry/src/meta_file_clouddisk.cpp:473-509 | a level just added has room for any name of at most 52 slots |
| `MetaFiles.CrowdedLevelIsOld` | utils/dentry/src/meta_file_clouddisk.cpp:473-509 | a level without room was in the file before, so growth is at most one level |
| `MetaFiles.CreateEffect` | utils/dentry/src/meta_file_clouddisk.cpp:511-559 | writing on the path adds the entry if the name is new and breaks uniqueness if it is not |
| `MetaFiles.BlockNumbers` | utils/dentry/src/meta_file_clouddisk.cpp:431-460 | the search's 32-bit block numbers are the bucket's two blocks on levels up to 30 |
| `MetaFiles.MissedEverywhere` | utils/dentry/src/meta_file_clouddisk.cpp:462-471 | a name missed on its hash's path is nowhere in the file |
| `MetaFiles.CloudDiskMetaFile.LockGroup` | utils/dentry/src/meta_file_clouddisk.cpp:385-400 | a lock is taken or an error returned, and the trace records it |
| `MetaFiles.CloudDiskMetaFile.FindDentryPage` | utils/dentry/src/meta_file_clouddisk.cpp:385-400 | the group under lock, or nothing and no lock held |
| `MetaFiles.CloudDiskMetaFile.InLevel` | utils/dentry/src/meta_file_clouddisk.cpp:431-460 | an entry found is there and its group still locked; otherwise both blocks of the bucket lack the name, as far as readable |
| `MetaFiles.CloudDiskMetaFile.FindDentry` | utils/dentry/src/meta_file_clouddisk.cpp:462-471 | finds the name if and only if some readable group holds it; without a find no lock is held |
| `MetaFiles.CloudDiskMetaFile.HandleFileByFd` | utils/dentry/src/meta_file_clouddisk.cpp:345-357 | exact result and groups for every request; on a sound file no group is dropped or altered and exactly the next level is added |
| `MetaFiles.QuietFindsRoom` | utils/dentry/src/meta_file_clouddisk.cpp:473-509 | undisturbed, the search for room always finds some |
| `MetaFiles.CloudDiskMetaFile.RoomInBucket` | utils/dentry/src/meta_file_clouddisk.cpp:486-505 | the first of the two blocks with room, locked, if and only if the blocks up to it can be locked and read |
| `MetaFiles.CloudDiskMetaFile.RoomOnLevel` | utils/dentry/src/meta_file_clouddisk.cpp:473-509 | first-fit room in one of the bucket's blocks with that group locked, or neither block has room |
| `MetaFiles.CloudDiskMetaFile.GetCreateInfo` | utils/dentry/src/meta_file_clouddisk.cpp:473-509 | succeeds if and only if the blocks on the path can be locked and read up to the first with room; grows by at most one level; never ENOSPC while the next level is at most 30 |
| `MetaFiles.CloudDiskMetaFile.AddEntry` | utils/dentry/src/meta_file_clouddisk.cpp:520-559 | adds the entry and moves no other, or leaves the directory as it was; every changed group is a write of its trace |
| `MetaFiles.CloudDiskMetaFile.StoreEntry` | utils/dentry/src/meta_file_clouddisk.cpp:539-558 | fills the slot, writes the group and unlocks it, or leaves the file as it was |
| `MetaFiles.CloudDiskMetaFile.WriteBack` | utils/dentry/src/meta_file_clouddisk.cpp:545-558 | the group written, if writing works, and in any case unlocked |
| `MetaFiles.InsertMovesNothing` | utils/dentry/src/meta_file_clouddisk.cpp:520-559 | writing an entry of a name leaves every other name in its place |
| `MetaFiles.CloudDiskMetaFile.DoCreate` | utils/dentry/src/meta_file_clouddisk.cpp:511-559 | EEXIST if and only if the name is in sight, ENAMETOOLONG if and only if over 52 slots, success if and only if there is room in sight and the rest works; success adds that name alone, or a second entry of a name out of sight; failure changes nothing, short of a failing unlock; the new entry holds the caller's fields, its id in front and zero bytes behind |
| `MetaFiles.CreateTwice` | utils/dentry/src/meta_file_clouddisk.cpp:511-559 | an entry in a group that cannot be read, room in one that can: the create succeeds and the file has two entries of the name |
| `RacingCreates.StepKeeps` | utils/dentry/src/meta_file_clouddisk.cpp:473-559 | every step keeps the layout and every entry in its place; only writing an entry adds one |
| `RacingCreates.InformedRun` | utils/dentry/src/meta_file_clouddisk.cpp:462-471 | what a search has looked at shows the name only where it slipped in since |
| `RacingCreates.RaceFreeKeeps` | utils/dentry/src/meta_file_clouddisk.cpp:511-559 | without a race the whole file invariant is kept |
| `RacingCreates.RaceBreaks` | utils/dentry/src/meta_file_clouddisk.cpp:511-559 | after such a race the name is in two places to the end of the run |
| `RacingCreates.UniqueIffRaceFree` | utils/dentry/src/meta_file_clouddisk.cpp:462-559 | over every interleaving of creates, names stay unique if and only if no create writes its entry into a group that another create of that name has already looked at, and which then writes too |
| `RacingCreates.BothCreatesSucceed` | utils/dentry/src/meta_file_clouddisk.cpp:511-559 | two processes that both search before either writes both succeed in creating one name, on an empty file |
| `MetaFiles.CloudDiskMetaFile.DoLookup` | utils/dentry/src/meta_file_clouddisk.cpp:597-623 | success if and only if the name is in sight, reporting the stored fields; otherwise the caller's record is untouched |
| `MetaFiles.CloudDiskMetaFile.DoRemove` | utils/dentry/src/meta_file_clouddisk.cpp:561-595 | ENOENT if and only if the name is not in sight; success removes that name alone |
| `MetaFiles.CloudDiskMetaFile.DoUpdate` | utils/dentry/src/meta_file_clouddisk.cpp:625-665 | ENOENT if and only if the name is not in sight; success replaces that entry alone, the id laid over the old one; the entry holds the caller's fields, the new id's bytes in front and the old id's behind |
| `MetaFiles.CloudDiskMetaFile.LoadChildren` | utils/dentry/src/meta_file_clouddisk.cpp:710-739 | the buffer decoded once per group, a failed read leaving it as it was; the first failing lock ends it; none is held on return |
| `MetaFileOps.Perform` | utils/dentry/src/meta_file_clouddisk.cpp:511-665 | each operation answers and acts as on a plain map from name to entry |
| `MetaFileOps.Replay` | utils/dentry/src/meta_file_clouddisk.cpp:511-665 | map refinement: for any sequence of operations all answers and the final directory are those of the plain map |
| `MetaFileOps.CreatedIsFound` | utils/dentry/src/meta_file_clouddisk.cpp:511-623 | a lookup after a create reports the caller's fields and id |
| `MetaFileOps.UpdatedIsFound` | utils/dentry/src/meta_file_clouddisk.cpp:597-665 | a lookup after an update reports the update's fields, the old id's bytes behind a shorter new one |
| `MetaFileOps.CopyEntry` | utils/dentry/src/meta_file_clouddisk.cpp:800-813 | succeeds if and only if the entry is in sight and enters the other file under its new name; then every field is equal, and the source entry is where it was |
| `MetaFileOps.Transfer` | utils/dentry/src/meta_file_clouddisk.cpp:797-855 | the common course of both moves, with failing reads, exact: succeeds if and only if the copy does and the removal does not find an entry it cannot write over; a removal that does not see its entry goes unnoticed and leaves it in both places, also within one file |
| `MetaFileOps.QuietEnters` | utils/dentry/src/meta_file_clouddisk.cpp:511-559 | undisturbed, an entry enters a file if and only if its name is new and it fits |
| `MetaFileOps.RecycleLeavesBoth` | utils/dentry/src/meta_file_clouddisk.cpp:797-825 | an entry in a group that can be read for the copy and not for the removal: the move to the bin reports success and the entry is in both places |
| `MetaFileOps.DoLookupAndUpdate` | utils/dentry/src/meta_file_clouddisk.cpp:167-189 | the entry edited, or a fresh one created; on error the directory is unchanged |
| `MetaFileOps.DoLookupAndCreate` | utils/dentry/src/meta_file_clouddisk.cpp:148-165 | creates an absent name; a present one is left alone |
| `MetaFileOps.DoChildUpdate` | utils/dentry/src/meta_file_clouddisk.cpp:191-208 | edits a present entry; an absent one is ENOENT |
| `MetaFileOps.DoLookupAndRemove` | utils/dentry/src/meta_file_clouddisk.cpp:210-223 | the name is gone afterwards unless the write fails; an absent name is no error |
| `MetaFileOps.DoRename` | utils/dentry/src/meta_file_clouddisk.cpp:667-686 | succeeds if and only if the new name enters and the old one is in sight and can be written over; success moves the entry; failure leaves both directories unchanged unless the undo itself fails to lock, read, write or unlock |
| `MetaFileOps.MoveIntoRecycleDentryfile` | utils/dentry/src/meta_file_clouddisk.cpp:797-825 | succeeds exactly when the copy does and the removal does not fail to write; the entry leaves its directory and appears in the bin under name_rowId with every field equal if the removal gets to see it, otherwise it is in both; failure changes neither |
| `MetaFileOps.RemoveFromRecycleDentryfile` | utils/dentry/src/meta_file_clouddisk.cpp:827-855 | succeeds exactly when the copy does and the removal does not fail to write; the entry leaves the bin and appears under its new name with every field equal if the removal gets to see it, otherwise it is in both; failure changes neither |
| `MetaFileOps.MovesUnchanged` | utils/dentry/src/meta_file_clouddisk.cpp:810-812 | a reported entry created elsewhere under another name is stored unchanged |
| `MetaFileOps.TrashNameInjective` | utils/dentry/src/meta_file_clouddisk.cpp:801-813 | name_rowId determines name and row, so rows never collide in the bin |
| `MetaFileOps.TrashNameSays` | utils/dentry/src/meta_file_clouddisk.cpp:797-855 | the trash name is the name, an underscore and the row's number in decimal |
| `MetaFileOps.MoveAndBack` | utils/dentry/src/meta_file_clouddisk.cpp:797-855 | a move conserves the number of entries and moving back restores both directories |
| `MetaFileOps.RecycleThenRestore` | utils/dentry/src/meta_file_clouddisk.cpp:797-855 | recycling succeeds if and only if the name is there and its trash name is new and fits, and moves the entry; restoring it then succeeds and puts both directories back |
| `NewNames.CandidatesDiffer` | utils/dentry/src/meta_file_clouddisk.cpp:870-886 | different counters give different candidate names |
| `NewNames.CandidateSays` | utils/dentry/src/meta_file_clouddisk.cpp:870-886 | a candidate is the name with the counter in parentheses in front of its last extension |
| `NewNames.FirstFree` | utils/dentry/src/meta_file_clouddisk.cpp:870-886 | the least counter whose name is free, within one try more than there are names |
| `NewNames.GetNewName` | utils/dentry/src/meta_file_clouddisk.cpp:857-887 | the least candidate not listed, within one try more than there are names listed; without failed reads the least that is free, so a create of it cannot find it taken |
| `BoundedScans.GetMaxLevel` | utils/dentry/src/meta_file.cpp:645-659 | the shift loop counts halvings of the bucket count |
| `BoundedScans.SearchLevel` | utils/dentry/src/meta_file.cpp:616-643 | one level of it: a block that cannot be read ends the search of the bucket |
| `BoundedScans.MaxLevelRightIff` | utils/dentry/src/meta_file.cpp:645-659 | the computed level is one past the file's last if and only if that last level is at most 18; beyond it is stuck at 19 |
| `BoundedScans.FindDentry` | utils/dentry/src/meta_file.cpp:661-671 | the search bounded by the computed level, entry by entry, with failing reads |
| `BoundedScans.LevelsInFileSuffice` | utils/dentry/src/meta_file.cpp:616-643 | scanning the levels in the file finds exactly what scanning all 63 would, wrapped addresses included |
| `BoundedScans.ScanFindsIff` | utils/dentry/src/meta_file.cpp:616-643 | the levels below any safe one find a name if and only if an entry of it lies there within reach |
| `BoundedScans.BoundedIsFullIff` | utils/dentry/src/meta_file.cpp:661-671 | the bounded search equals the full one if and only if an entry of the name lies within reach on the first nineteen levels, or none does anywhere; always up to nineteen levels |
| `BoundedScans.DeepEntryMissed` | utils/dentry/src/meta_file.cpp:645-671 | in a file of twenty or more levels, empty but for an entry on the last, the bounded search misses it and the full one finds it |
| `DentryDirStores.DentryDirs.Open` | utils/dentry/src/meta_file_clouddisk.cpp:757-778 | opening a directory's dentry file changes no directory; an unknown one is empty |
| `DentryDirStores.DentryDirs.LookupAndUpdate` | utils/dentry/src/meta_file_clouddisk.cpp:167-189 | one entry of one directory changes and every other directory stays |
| `DentryDirStores.DentryDirs.LookupAndCreate` | utils/dentry/src/meta_file_clouddisk.cpp:148-165 | one absent entry of one directory is created and every other directory stays |
| `DentryDirStores.DentryDirs.ChildUpdate` | utils/dentry/src/meta_file_clouddisk.cpp:191-208 | one present entry of one directory changes and every other directory stays |
| `DentryDirStores.DentryDirs.FreshName` | utils/dentry/src/meta_file_clouddisk.cpp:857-887 | a name free in the directory; no directory changes |
| `DentryDirStores.DentryDirs.Move` | utils/dentry/src/meta_file_clouddisk.cpp:797-855 | one entry changes directory and every other directory stays; failure changes none |
| `TwoStores.EmptyStoresAgree` | services/clouddisk_database/src/clouddisk_rdbstore.cpp:631-761 | an empty table and empty directories agree, before the bin is listed |
| `TwoStores.IdsApart` | services/clouddisk_database/src/clouddisk_rdbstore.cpp:631-720 | in stores that agree a dentry shows its row's id, and different ids without zero bytes have different dentry ids |
| `TwoStores.InsertKeeps` | services/clouddisk_database/src/clouddisk_rdbstore.cpp:631-685 | a new row with a free home and its dentry keep rows and dentries one to one |
| `TwoStores.RewriteAgreesIff` | services/clouddisk_database/src/clouddisk_rdbstore.cpp:345-435 | after one dentry is written and rows change in place, both stores agree if and only if the dentry belongs to a row or the bin and every row is still described |
| `TwoStores.MoveKeeps` | services/clouddisk_database/src/clouddisk_rdbstore.cpp:1298-1326 | a row given a new home and its dentry moved there keep the agreement |
| `TwoStores.MadeIsDescribed` | services/clouddisk_database/src/clouddisk_rdbstore.cpp:610-618 | the dentry of a creation says what the new row says |
| `TwoStores.EditedEntry` | services/clouddisk_database/src/clouddisk_rdbstore.cpp:370-376 | an edited dentry keeps its id, mode and other flags, says what the edited row says, and still says what another row says if and only if nothing changed |
| `TwoStores.RestoredFromBin` | services/clouddisk_database/src/clouddisk_rdbstore.cpp:1390-1437 | only the row's own dentry is restored: never a live row, nor one under another name |
| `TwoStores.MakeKeepsIff` | services/clouddisk_database/src/clouddisk_rdbstore.cpp:588-608 | a creation keeps the agreement if and only if its place is free, outside the bin and other than the bin's own |
| `TwoStores.EditKeepsIff` | services/clouddisk_database/src/clouddisk_rdbstore.cpp:345-435 | an attribute set or write keeps it if and only if the dentry is the row's own, or nothing changes on either side |
| `TwoStores.RecycleKeepsIff` | services/clouddisk_database/src/clouddisk_rdbstore.cpp:1439-1482 | a recycling keeps it if and only if the row is live at the parent and name given and the clock is past its epoch |
| `TwoStores.RestoreKeepsIff` | services/clouddisk_database/src/clouddisk_rdbstore.cpp:1390-1437 | a restoring keeps it if and only if its place is outside the bin and other than the bin's own |
| `TwoStores.RequestKeepsIff` | services/clouddisk_database/src/clouddisk_rdbstore.cpp:345-934 | every request that succeeds keeps both stores in agreement if and only if it is fitting |
| `TwoStores.RequestSays` | services/clouddisk_database/src/clouddisk_rdbstore.cpp:345-1482 | every request that succeeds does to row and directories what its arguments say, field by field, and changes nothing else |
| `TwoStores.MadeSays` | services/clouddisk_database/src/clouddisk_rdbstore.cpp:631-760 | the entry a creation leaves, by its arguments |
| `TwoStores.EditSaysSo` | services/clouddisk_database/src/clouddisk_rdbstore.cpp:345-930 | the entry a setter leaves, by its arguments: the set fields, and the rest as it was or blank |
| `TwoStores.MovedSays` | utils/dentry/src/meta_file_clouddisk.cpp:797-855 | an entry moved leaves one directory and appears in the other as it was, and nothing else changes |
| `TwoStores.LostCommitIff` | services/clouddisk_database/src/clouddisk_rdb_transaction.cpp:75-96 | success with a lost commit leaves both stores in agreement if and only if the dentry written was there and still describes its row or names the bin; never after a move |
| `TwoStores.TwoFilesCanBe` | services/clouddisk_database/src/clouddisk_rdbstore.cpp:631-685 | two files and the bin, made one after the other from nothing, are in agreement |
| `TwoStores.StoresPart` | services/clouddisk_database/src/clouddisk_rdbstore.cpp:345-685 | on that store a taken name, the bin's name, a size set under the other file's name and a lost commit each succeed and part the two stores |
| `TwoStores.ListBinKeeps` | utils/dentry/src/meta_file_clouddisk.cpp:780-795 | listing the bin in the root directory keeps the agreement |
| `TwoStores.BinStays` | utils/dentry/src/meta_file_clouddisk.cpp:780-795 | no fitting request takes the bin off the root directory |
| `TwoStores.ServedKeepsAgreement` | services/clouddisk_database/src/clouddisk_rdbstore.cpp:345-1482 | every action of a run keeps the agreement, and the bin listed |
| `TwoStores.RunKeepsAgreement` | services/clouddisk_database/src/clouddisk_rdbstore.cpp:345-1482 | both stores agree after every action of every run, and the bin stays listed once it is |
| `RdbStores.CheckName` | services/clouddisk_database/src/clouddisk_rdbstore.cpp:540-566 | accepts exactly names of 1 to 246 bytes other than dot and dot-dot, without any of nine characters |
| `RdbStores.CheckNameForSpace` | services/clouddisk_database/src/clouddisk_rdbstore.cpp:522-538 | refuses a leading blank, and for a directory a trailing one and the bin's name |
| `RdbStores.RetryTransaction` | services/clouddisk_database/src/clouddisk_rdb_transaction.cpp:42-57 | succeeds if and only if fewer attempts fail than are allowed |
| `RdbStores.TransactionOperations.Start` | services/clouddisk_database/src/clouddisk_rdb_transaction.cpp:59-73 | starts at most once, remembering the table |
| `RdbStores.TransactionOperations.Finish` | services/clouddisk_database/src/clouddisk_rdb_transaction.cpp:75-96 | commits, or after three failures restores the table, without telling which |
| `RdbStores.TransactionOperations.Close` | services/clouddisk_database/src/clouddisk_rdb_transaction.cpp:33-39 | what was not committed is rolled back |
| `RdbStores.OutcomeKeepsAgreement` | services/clouddisk_database/src/clouddisk_rdbstore.cpp:345-1482 | a fitting request that ends with its commit is a step of a run and keeps the agreement |
| `RdbStores.CloudDiskRdbStore.constructor` | services/clouddisk_database/src/clouddisk_rdbstore.cpp:631-761 | a fresh store agrees |
| `RdbStores.CloudDiskRdbStore.CreateRecycleDentry` | utils/dentry/src/meta_file_clouddisk.cpp:780-795 | the bin is listed in the root directory afterwards, as a local directory with its own name for an id, and nothing else changes |
| `RdbStores.CloudDiskRdbStore.NextRowId` | services/clouddisk_database/src/clouddisk_rdbstore.cpp:669-674 | a row id no row has |
| `RdbStores.CloudDiskRdbStore.Execute` | services/clouddisk_database/src/clouddisk_rdbstore.cpp:345-1482 | any action fails without effect or does what it says, does it in an undisturbed environment if it is admitted, and leaves the stores ready for the next |
| `RdbStores.CloudDiskRdbStore.Replay` | services/clouddisk_database/src/clouddisk_rdbstore.cpp:345-1482 | any sequence of actions is a run, in which every admitted action in an undisturbed environment succeeds; with fitting requests and working commits both stores agree at its end |
| `RdbStores.CloudDiskRdbStore.UpdateDentry` | services/clouddisk_database/src/clouddisk_rdbstore.cpp:588-608 | one dentry changes as the request says, or nothing does |
| `RdbStores.CloudDiskRdbStore.Make` | services/clouddisk_database/src/clouddisk_rdbstore.cpp:663-684 | an error leaves table and dentry files unchanged; success makes row and dentry |
| `RdbStores.CloudDiskRdbStore.Insert` | services/clouddisk_database/src/clouddisk_rdbstore.cpp:631-760 | the row inserted and the dentry created under the transaction, or neither |
| `RdbStores.CloudDiskRdbStore.Create` | services/clouddisk_database/src/clouddisk_rdbstore.cpp:631-685 | refuses bad names, then row and dentry or neither: on success a live row and a dentry with the given parent, name, size, times, mode and upload flag |
| `RdbStores.CloudDiskRdbStore.MkDir` | services/clouddisk_database/src/clouddisk_rdbstore.cpp:687-761 | refuses bad names, then row and dentry or neither: on success a live directory row and its dentry with what was given |
| `RdbStores.CloudDiskRdbStore.SizeSetAttr` | services/clouddisk_database/src/clouddisk_rdbstore.cpp:345-386 | row and dentry get the size, or neither changes |
| `RdbStores.CloudDiskRdbStore.MtimeSetAttr` | services/clouddisk_database/src/clouddisk_rdbstore.cpp:388-435 | row and dentry get the time, or neither changes; a missing row is an error |
| `RdbStores.CloudDiskRdbStore.LocationSetXattr` | services/clouddisk_database/src/clouddisk_rdbstore.cpp:887-934 | only locations 1 to 3; row and dentry get it, or neither changes |
| `RdbStores.CloudDiskRdbStore.Write` | services/clouddisk_database/src/clouddisk_rdbstore.cpp:835-885 | row and present dentry get size and time, or neither changes |
| `RdbStores.CloudDiskRdbStore.HandleRecycleXattr` | services/clouddisk_database/src/clouddisk_rdbstore.cpp:1439-1482 | the row becomes recycled and its dentry moves to the bin, or neither changes |
| `RdbStores.CloudDiskRdbStore.CheckIsConflict` | services/clouddisk_database/src/clouddisk_rdbstore.cpp:1279-1296 | the name itself if free in the directory, else the first candidate that is free |
| `RdbStores.CloudDiskRdbStore.RestoreUpdateRdb` | services/clouddisk_database/src/clouddisk_rdbstore.cpp:1298-1326 | the row becomes live at its new place and its dentry moves there, or neither changes |
| `RdbStores.CloudDiskRdbStore.HandleRestoreXattr` | services/clouddisk_database/src/clouddisk_rdbstore.cpp:1390-1437 | restores under the old name if free there, else the first free candidate, or changes nothing |
| `RecycleSizes.SizeReadsBack` | utils/cloud_disk/src/recycle_size_cache.cpp:266-325 | a written size reads back, for every size below 2^63 |
| `RecycleSizes.SizeReads` | utils/cloud_disk/src/recycle_size_cache.cpp:266-301 | a size is read past blanks and up to whatever follows its digits |
| `RecycleSizes.SizeReadsZero` | utils/cloud_disk/src/recycle_size_cache.cpp:266-301 | what does not start with a number is no size, and a long text is cut at 31 bytes |
| `RecycleSizes.CacheFilePathInjective` | utils/cloud_disk/src/recycle_size_cache.cpp:260-264 | valid users and bundles have cache files of their own |
| `RecycleSizes.RecycleSizeCache.GetCacheVersion` | utils/cloud_disk/src/recycle_size_cache.cpp:332-335 | the version of the key's slot |
| `RecycleSizes.RecycleSizeCache.AddCacheVersion` | utils/cloud_disk/src/recycle_size_cache.cpp:337-340 | that slot alone goes up by one, modulo 2^64 |
| `RecycleSizes.RecycleSizeCache.ReadCachedSize` | utils/cloud_disk/src/recycle_size_cache.cpp:266-301 | the number at the front of the file, 0 for anything else |
| `RecycleSizes.RecycleSizeCache.WriteCachedSize` | utils/cloud_disk/src/recycle_size_cache.cpp:303-325 | the file holds the size, negative ones as 0 |
| `RecycleSizes.RecycleSizeCache.IssueChange` | utils/cloud_disk/src/recycle_size_cache.cpp:130-198 | a task is issued exactly for valid parameters and entries that count, with the slot's present version |
| `RecycleSizes.RecycleSizeCache.IssueReset` | utils/cloud_disk/src/recycle_size_cache.cpp:200-258 | a reset task with the slot's present version |
| `RecycleSizes.RecycleSizeCache.SumOf` | utils/cloud_disk/src/recycle_size_cache.cpp:224-258 | the sum of the entries that count |
| `RecycleSizes.ShareSays` | utils/cloud_disk/src/recycle_size_cache.cpp:79-82 | an entry counts with its size if and only if it is on the device, no directory, and of a positive signed size |
| `RecycleSizes.TotalSays` | utils/cloud_disk/src/recycle_size_cache.cpp:224-258 | the total is the sum of the sizes of entries on the device that are no directories |
| `RecycleSizes.RecycleSizeCache.Run` | utils/cloud_disk/src/recycle_size_cache.cpp:130-258 | a task acts only if its version is still current; undisturbed, an increase adds its size to the stored one, a decrease subtracts it down to zero, a reset stores its total; no other key changes |
| `RecycleSizes.VersionCounts` | utils/cloud_disk/src/recycle_size_cache.cpp:327-340 | a slot's version is the number of its successful resets modulo 2^64, after every interleaving |
| `RecycleSizes.PassesIff` | utils/cloud_disk/src/recycle_size_cache.cpp:130-258 | a task acts if and only if the number of successful resets of its slot since its issue is a multiple of 2^64, I/O failures included |
| `RecycleSizes.StaleTaskExcluded` | utils/cloud_disk/src/recycle_size_cache.cpp:130-258 | so within 2^64 events if and only if there was none |
| `RecycleSizes.LateTasksAreNewer` | utils/cloud_disk/src/recycle_size_cache.cpp:130-258 | whatever changes the size after a reset was issued after that reset |
| `RecycleSizes.PassesIsCounts` | utils/cloud_disk/src/recycle_size_cache.cpp:130-258 | the version test agrees with a definition that never mentions versions |
| `RecycleSizes.SizeIsFold` | utils/cloud_disk/src/recycle_size_cache.cpp:130-258 | the stored size is the last reset's total folded with the clamped deltas that count since |
| `RecycleSizes.SizeIsSum` | utils/cloud_disk/src/recycle_size_cache.cpp:130-258 | over every interleaving, while the running sum stays within bounds, the stored size is what the last acting reset left plus the acting increases minus the acting decreases since |
| `Actors.ThreadSafeQueue.Push` | dfs_utils/include/dfsu_thread_safe_queue.h:42-52 | appends unless halted |
| `Actors.ThreadSafeQueue.PushFront` | dfs_utils/include/dfsu_thread_safe_queue.h:54-64 | prepends unless halted |
| `Actors.ThreadSafeQueue.WaitAndPop` | dfs_utils/include/dfsu_thread_safe_queue.h:66-77 | the front command, or the halt of an empty queue |
| `Actors.ThreadSafeQueue.HasVital` | dfs_utils/include/dfsu_actor.h:101-110 | whether a VITAL command is queued |
| `Actors.ThreadSafeQueue.Halt` | dfs_utils/include/dfsu_thread_safe_queue.h:85-90 | from then on the queue is halted |
| `Actors.StartInvariants` | dfs_utils/include/dfsu_actor.h:36-70 | the start state has both invariants |
| `Actors.StepKeepsBudget` | dfs_utils/include/dfsu_actor.h:73-167 | every step keeps: executions plus tries left make up the initial budget, and no command is in two places |
| `Actors.RunKeepsBudget` | dfs_utils/include/dfsu_cmd.h:76-84 | over every run a command executes at most its initial number of tries |
| `Actors.RemainingFalls` | dfs_utils/include/dfsu_actor.h:112-145 | the total budget falls with each execution and rises only by new commands and a reboot's 1 + retryTimes |
| `Actors.RunKeepsRetry` | dfs_utils/include/dfsu_actor.h:80-85 | over every run a command under retry is the last executed, and held or first in the queue |
| `Actors.AttemptsAreConsecutive` | dfs_utils/include/dfsu_actor.h:112-145 | in every run, when a command above TRIVIAL executes again the last one executed is itself |
| `Actors.HaltedStep` | dfs_utils/include/dfsu_actor.h:49-56 | once halted nothing enters the queue, and each step of the main loop lowers a measure |
| `Actors.ShutdownDrains` | dfs_utils/include/dfsu_actor.h:147-167 | after Halt the main loop takes at most 5n + 5 steps for n queued commands, and leaves a dry queue only after popping all of them |
| `Actors.GivesUpIff` | dfs_utils/include/dfsu_actor.h:112-145 | the main loop leaves early exactly when a VITAL command is out of tries or a body reports the queue stopped |
| `Actors.OrderlyShutdown` | dfs_utils/include/dfsu_actor.h:49-56 | if that never happens, a main loop that leaves after Halt has popped everything queued, Stop included |
| `Actors.HaltedProgress` | dfs_utils/include/dfsu_actor.h:147-167 | a main loop that has not left can always go on |
| `Actors.DecideSays` | dfs_utils/include/dfsu_actor.h:112-145 | what the handler decides, by importance, tries left and a queued Stop |
| `Actors.RetrySays` | dfs_utils/include/dfsu_actor.h:73-85 | a retry goes to the front, a delayed one to the end |
| `Actors.RebootSays` | dfs_utils/include/dfsu_actor.h:87-99 | a reboot appends a Stop of one try and then a Start of the configured tries |
| `Actors.RebootsIff` | dfs_utils/include/dfsu_actor.h:138-142 | in every run the actor is about to reboot if and only if its main loop last decided on a NORMAL command that has used up its tries |
| `Actors.ExecuteSays` | dfs_utils/include/dfsu_cmd.h:76-84 | a body that succeeds is done with, one that throws has a try less, and every execution is counted once |
| `Actors.GoneForGood` | dfs_utils/include/dfsu_actor.h:112-167 | in every run, a command that is done with neither comes back nor executes again |
| `Actors.DfsuActor.ExceptionHandler` | dfs_utils/include/dfsu_actor.h:112-145 | which command is tried again, now or later, which one reboots the actor by a Stop and a Start, which one is dropped, and which one ends the loop; a run of the machine in each case |
| `Actors.DfsuActor.Turn` | dfs_utils/include/dfsu_actor.h:147-167 | one turn of the main loop is a run of the machine, from idle to idle or to the end |
| `LruCaches.TouchedIsSame` | utils/dentry/src/meta_file.cpp:844-871 | moving to the front changes the order only |
| `LruCaches.TouchedAt` | utils/dentry/src/meta_file.cpp:844-871 | the touched entry is in front and those before it move back by one |
| `LruCaches.DroppedIsRest` | utils/dentry/src/meta_file.cpp:889-909 | removing a key removes that entry alone |
| `LruCaches.DroppedAt` | utils/dentry/src/meta_file.cpp:889-909 | what is left keeps its order |
| `LruCaches.InsertedKeepsRecent` | utils/dentry/src/meta_file.cpp:844-871 | an insertion keeps the newest entries up to the capacity |
| `LruCaches.HoldsMostRecent` | utils/dentry/src/meta_file_clouddisk.cpp:757-778 | after any requests the cache holds the keys asked for most recently, in that order, as many as fit |
| `LruCaches.IndexIsOrder` | utils/dentry/src/meta_file.cpp:844-871 | the map finds exactly the listed keys, each at its node |
| `LruCaches.SpliceLinks` | services/clouddisk_database/src/clouddisk_notify_utils.cpp:119-130 | splicing keeps list and map in bijection |
| `LruCaches.EraseLinks` | utils/dentry/src/meta_file.cpp:889-909 | erasing keeps list and map in bijection |
| `LruCaches.EmplaceLinks` | services/clouddisk_database/src/clouddisk_notify_utils.cpp:132-154 | a new front node keeps list and map in bijection |
| `LruCaches.AssignLinks` | services/clouddisk_database/src/clouddisk_notify_utils.cpp:132-154 | assigning through an iterator keeps list and map in bijection |
| `LruCaches.LruCache.Touch` | services/clouddisk_database/src/clouddisk_notify_utils.cpp:119-130 | the entry found, now most recent |
| `LruCaches.LruCache.Assign` | services/clouddisk_database/src/clouddisk_notify_utils.cpp:132-154 | the entry replaced, now most recent |
| `LruCaches.LruCache.Evict` | utils/dentry/src/meta_file.cpp:844-871 | the oldest entry goes |
| `LruCaches.LruCache.Erase` | utils/dentry/src/meta_file.cpp:889-909 | the key goes, the rest stays in order |
| `LruCaches.LruCache.EmplaceFront` | utils/dentry/src/meta_file.cpp:844-871 | a new entry in front |
| `LruCaches.LruCache.CheckSize` | utils/dentry/src/meta_file.cpp:873-880 | list and map always have one size |
| `MetaFileMgrs.ParentIsLighter` | utils/dentry/src/meta_file.cpp:297-309 | the measure of the constructor recursion: the parent is lighter than its path, "/" included |
| `MetaFileMgrs.ParentDirSays` | utils/dentry/src/meta_file.cpp:297-309 | the parent is what stands before the last slash, or the root |
| `MetaFileMgrs.ColdOpens` | utils/dentry/src/meta_file.cpp:325-360 | with nothing cached and nothing failing a request opens the path, everything up to one of its slashes and the root, each once, longest first |
| `MetaFileMgrs.OpensFront` | utils/dentry/src/meta_file.cpp:325-360 | in general a front of that list, up to the first cached, refused or failing one |
| `MetaFileMgrs.MetaFileMgr.MakeRoom` | utils/dentry/src/meta_file.cpp:844-871 | the oldest go until there is room for one more |
| `MetaFileMgrs.MetaFileMgr.GetMetaFile` | utils/dentry/src/meta_file.cpp:844-871 | the recursion ends and gives the whole order: the files opened on the way, nearest first, then the cached ancestor they end at, then the other entries as they were, the oldest dropped past 100; from an empty cache these are the path, its ancestors and the root |
| `MetaFileMgrs.MetaFileMgr.RemoveByPath` | utils/dentry/src/meta_file.cpp:889-909 | that path goes from the cache; a missing file is no error |
| `MetaFileMgrs.MetaFileMgr.ClearAll` | utils/dentry/src/meta_file.cpp:882-887 | the cache is empty, the other one untouched |
| `MetaFileMgrs.MetaFileMgr.GetCloudDiskMetaFile` | utils/dentry/src/meta_file_clouddisk.cpp:757-778 | the cached file made most recent, or a new one inserted in front |
| `MetaFileMgrs.AskMany` | utils/dentry/src/meta_file_clouddisk.cpp:757-778 | after any requests the cache holds the files of the 150 keys asked for most recently |
| `MetaFileMgrs.MetaFileMgr.ClearCloud` | utils/dentry/src/meta_file_clouddisk.cpp:741-748 | that key goes and the rest stays |
| `MetaFileMgrs.MetaFileMgr.CloudDiskClearAll` | utils/dentry/src/meta_file_clouddisk.cpp:750-755 | the cache is empty, the other one untouched |
| `MetaFileMgrs.StillAbsent` | utils/dentry/src/meta_file.cpp:325-368 | constructing a path's parent never caches the path itself |
| `MetaFileMgrs.AfterOpening` | utils/dentry/src/meta_file.cpp:844-871 | inserting a path after its parent was asked for gives the order that one request for the whole chain does |
| `MetaFileMgrs.KeysOfOneBundle` | utils/dentry/src/meta_file_clouddisk.cpp:757-778 | within a bundle the concatenated key tells directories apart |
| `MetaFileMgrs.KeysCollideIff` | utils/dentry/src/meta_file_clouddisk.cpp:757-778 | across bundles keys collide if and only if one id is the other followed by the front of the other's bundle name |
| `MetaFileMgrs.AskTwice` | utils/dentry/src/meta_file_clouddisk.cpp:757-778 | two callers are given one file if and only if their keys collide, whichever bundles they ask for |
| `NotifyUris.GetParentNode` | services/clouddisk_database/src/clouddisk_rdbstore.cpp:2207-2234 | the row's parent and name, or an error |
| `NotifyUris.GetUriFromDB` | services/clouddisk_database/src/clouddisk_rdbstore.cpp:2236-2267 | the exact answer: along any line of ancestors the full URI, the path without prefix past a missing later ancestor, or the error code of a missing first one or of the limits; without a line the limits end the walk with an error |
| `NotifyUris.NotifyCache.GetCacheNode` | services/clouddisk_database/src/clouddisk_notify_utils.cpp:119-130 | the cached node made most recent, or an error |
| `NotifyUris.NotifyCache.PutCacheNode` | services/clouddisk_database/src/clouddisk_notify_utils.cpp:132-154 | only directories are cached, replacing or evicting |
| `NotifyUris.NotifyCache.GetUriFromCache` | services/clouddisk_database/src/clouddisk_notify_utils.cpp:156-177 | succeeds if and only if the line meets a root and all below it is cached, and then gives the URI of what is below |
| `NotifyUris.NotifyCache.GetNotifyUri` | services/clouddisk_database/src/clouddisk_rdbstore.cpp:2269-2288 | the exact answer for every consistent cache: the cache's if it gets through, otherwise the database's |
| `NotifyUris.NoneTwice` | services/clouddisk_database/src/clouddisk_rdbstore.cpp:2236-2267 | no ancestor comes twice on a line |
| `NotifyUris.LineUnlessCyclic` | services/clouddisk_database/src/clouddisk_rdbstore.cpp:2236-2267 | there is a line of ancestors if and only if climbing never comes back to an ancestor |
| `NotifyUris.TooLongToCache` | services/clouddisk_database/src/clouddisk_notify_utils.cpp:132-154 | a line that does not fit beside the node is never answered from the cache |
| `NotifyUris.CacheShowsIff` | services/clouddisk_database/src/clouddisk_rdbstore.cpp:2269-2288 | along a chain to the literal root the answer is independent of the cache if and only if there is nothing to walk, or too much to cache, or the stored root id is not met and the limits are kept; otherwise an empty cache and one holding the chain answer differently |
| `NotifyUris.StoredRootShows` | services/clouddisk_database/src/clouddisk_rdbstore.cpp:2236-2288 | with the stored root as a folder, an empty cache puts its name into the URI and a warm one does not |
| `NotifyUris.LongPathShows` | services/clouddisk_database/src/clouddisk_rdbstore.cpp:2236-2288 | a path too long for the database is an error from an empty cache and a URI from a warm one |
| `IdCodecs.RecordIdToCloudId` | utils/dentry/src/meta_file.cpp:911-941 | pairs of digits to bytes; any bad pair or too long a result gives the empty id |
| `IdCodecs.CloudIdToRecordId` | utils/dentry/src/meta_file.cpp:951-974 | bytes to digits, in home-data-centre mode without the frame |
| `IdCodecs.HexReadsBack` | utils/dentry/src/meta_file.cpp:951-974 | printed bytes read back |
| `IdCodecs.BytesPrintBack` | utils/dentry/src/meta_file.cpp:911-941 | lower-case hexadecimal of even length prints back |
| `IdCodecs.CaseDoesNotMatter` | utils/dentry/src/meta_file.cpp:911-949 | capital digits mean what small ones do |
| `IdCodecs.PairSays` | utils/dentry/src/meta_file.cpp:911-941 | a blank or a plus before a digit stands for a zero, a minus negates modulo 256, anything else is refused |
| `IdCodecs.CloudIdRoundTrips` | utils/dentry/src/meta_file.cpp:911-974 | bytes to text and back is the identity if and only if there are at most 33 bytes |
| `IdCodecs.RecordIdRoundTrips` | utils/dentry/src/meta_file.cpp:911-974 | text to bytes and back is the identity if and only if the text is lower-case hexadecimal of even length up to 66 digits |
| `IdCodecs.HdcRoundTripsIff` | utils/dentry/src/meta_file.cpp:911-974 | in home-data-centre mode encode then decode is the identity if and only if there is no "ff", no final 'f', no leading 0 at even length, and at most 33 bytes |

## Left out

- Raw file transfer in pieces (`utils/dentry/src/file_utils.cpp`): a group is read or written whole, or the call fails without effect.
- Levels from 31 on: create is stated for files whose next level is at most 30, which is several terabytes; searches cover all 63 levels.
- MetaFileOps.Replay: stops before a create on a file that has grown past level 30, which it reports by returning fewer answers.
- MetaFileOps.DoRename: when an entry that does not exist is renamed to its own name in its own file, success is exact only if searches see every group. Asks that unlocking works, that an existing entry of the new name is in sight, and that the next level is at most 30; otherwise the file may be left with two entries of a name, as stated for creating.
- MetaFileOps.Transfer: asks the same, as do the two moves of the recycle bin built on it.
- MetaFiles.CloudDiskMetaFile.LoadChildren: asks that names in the uninitialised buffer, if the first read fails, do not run past its end; what the code would read there is not modelled.
- MetaFiles.CloudDiskMetaFile.DoCreate: a lock or read of a group fails throughout one operation or not at all.
- DentryDirStores.DentryDirs.Open: opening works, and a file dropped from the cache and opened again is the same file.
- DentryDirStores.DentryDirs.Move: asks, like the other operations on directories, that locking, reading and undoing work, so that a failure has no effect.
- RacingCreates.UniqueIffRaceFree: is about creates whose system calls work; growing the file by a level is one step, and removals by other processes are not part of the runs.
- MetaFileOps.CopyEntry: asks what DoRename asks.
- The arithmetic of the name hash: it is an arbitrary function.
- `MetaFile::DoCreate` and the other operations of the older class: it has no existence check; only its bounded search and its cache are modelled.
- The bounds-checked copy functions come from a library outside the repository: a copy into no room, or of more than there is room for, is taken to fail, the latter zeroing its destination.
- The per-object mutex, and record locks being per process: one operation of one process at a time works on a file object.
- RdbStores.CloudDiskRdbStore.Make: asks, like every request, that failed dentry steps have no effect, which they do as long as locking, reading and undoing work, and that files can grow by a level.
- RdbStores.CloudDiskRdbStore.HandleRestoreXattr: the directory found for the source path is a parameter; directories created on the way there are requests of their own.
- RdbStores.TransactionOperations.Start: the retries of beginning a transaction are one error code.
- RdbStores.TransactionOperations.Finish: a rollback is taken to work.
- RdbStores.TransactionOperations.Close: a rollback is taken to work.
- Columns of the table that no dentry repeats (dirty type, operation type, file status, times of adding and visiting, attributes), and the sync triggers.
- RdbStores.CloudDiskRdbStore.LocationSetXattr: the number is parsed by the caller.
- The table side of rename, and the copying of rows: they do not keep the two stores in step.
- RecycleSizes.SizeIsFold: file accesses work and sizes stay below 2^63; equality with the bytes actually in the bin is not claimed, since clamping at zero depends on the order of tasks.
- NewNames.FirstFree: the counter is unbounded, not a 32-bit integer.
- NotifyUris.NotifyCache.GetUriFromCache: asks for a line of ancestors, which only a cycle in the table rules out; on a cycle of cached nodes the loop would not end. GetNotifyUri, which calls it, asks the same.
- NotifyUris.CacheShowsIff: is about chains that end at the literal root; for other lines GetNotifyUri's exact answer is stated.
- Actors.HaltedProgress: command bodies return; threads, sleeping and waking are steps in any order.
- MetaFileMgrs.MetaFileMgr.GetMetaFile: what the constructor writes into the parent's dentry file is not modelled.
- The version number and reserved bytes of dentries and groups, and the file header.
- Upgrading the table, JSON attributes, preferences, migration, inter-process calls, plugins, timers, logging and access checks.
