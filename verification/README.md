# MaeroOS: a verified model of five kernel components

MaeroOS is a small kernel written in C. This project models the parts of it whose correctness is
hardest to see from the code, and proves what they promise.

* **The exFAT driver** (`fs/exfat.c`): a write-back, set-associative sector cache over a sector
  device; a FAT and an allocation bitmap read and written through that cache; files stored as
  contiguous runs or as FAT chains, moved past the cache; directories of checksummed entry sets;
  names, timestamps, and the directory tree under rename.
* **The ALSA PCM device** (`drivers/alsa.c`, `drivers/alsa_resample.h`): interval refinement of
  hardware parameters by 18 relations, the 16.16 resampler, and the stream pointers.
* **The audio pumps** (`drivers/hda.c`, `drivers/ac97.c`): a byte ring that feeds a cyclic DMA
  buffer, with 32-bit positions that wrap.
* **The read-only ext4 driver** (`fs/ext4.c`): extent trees, indirect block maps, the block cache,
  file reads and hash-tree directory lookup.
* **inotify accounting and the NVMe queues** (`fs/inotify.c`, `drivers/nvme.c`).

Code that changes things step by step is modelled by classes and methods with loops; ghost fields
hold what the concrete fields stand for (positions without wrap-around, a file's cluster list, the
stream bytes heard so far), and every method is proved against them. The main results are these.

1. **The exFAT file system is a tree of names and byte sequences** (`ExfatFs.FileSystem.Run`). Any run of
   lookups, creations, unlinks, renames, reads, writes, truncations, opens and closes, from the entry bytes
   of the directories down to the cache, the bitmap and the FAT, leaves and answers exactly what the same
   run does on plain values (`ExfatState.Step`): a tree of links, a byte sequence per file, a list of used
   slots per directory, and a number of free clusters. Every reply is determined, `-ENOSPC` included; no
   cluster is lost or found; and after each operation the device holds everything. `ExfatMount.Format` is a
   formatted volume to start from. What the operations on plain values mean is said again by laws that do not
   name them (`ExfatLaws`): which links and bytes there are afterwards, and each error exactly when it
   applies.
2. **No sector of a file is ever in the sector cache** (`ExfatFs.FileSystem.FilesCold`), in every such run,
   although directories live in it, give their clusters back to files, and a creation that fails frees
   a zeroed cluster without dropping it from the cache: whoever allocates next drops it.
3. **What is linked is on the volume** (`ExfatFs.FileSystem.Persists`): every linked node is recorded by its
   entry set, and a node made from that record has the same clusters and bytes.
4. **Rename keeps a tree** (`ExfatState.RenameMeans`, `ExfatState.RenameFrees`), with names unique under the
   up-case table, the moved node the same node with the same bytes, and `-ENOSPC` exactly when the new entry
   set finds no room; the clusters of a replaced node are free again exactly when nobody has it open.
5. **A directory is a finite map** (`ExfatDir`): first fit plus the writes of a set, in the order the
   driver makes them, shows exactly the old files until the last write and then the new one too. Reading it
   by number misses no file that stays and shows none twice, whatever is deleted meanwhile
   (`ExfatReaddir.Sweep`).
6. **Parameter refinement is sound** (`AlsaHwParams.HwParams.HwRefine`): no runnable configuration is
   lost, none is added, and `-EINVAL` means there was none. For a request that says what to run it is also
   complete: 0 means there is one (`AlsaFixed.Decides`).
7. **Every byte written is heard once, in order** (`AudioPumps.Hda.Run`, `AudioPumps.Ac97.Run`),
   across wrap-around, underruns, stops and restarts; only a drop loses any, and after every drop at most
   the guard bytes of what had been written are still heard.
8. **The PCM pointers stay ordered** in any interleaving of writers, starts, drains and changes of the
   thresholds with status calls (`AlsaPcm.Pcm.Run`).
9. **ext4 block mapping and directory lookup** agree with a flat list and with a linear scan, read through
   the block map and the block cache (`Ext4Inode.Inode.Read`, `Ext4Htree.HtreeFind`, `Ext4Htree.Finddir`).
   Trees, block pointers, directory entries and index nodes are given by the layout of the medium, and the
   readers give them back (`Ext4Layout.LaidStored`, `Ext4Entries.RecsRead`).
10. **The NVMe phase handshake** gives each command its own answer under any interleaving of host and
    controller, for any number of commands, wraps and resets (`NvmeQueue.Queue.Walk`, `NvmeQueue.Queue.Run`);
    a transfer moves exactly its sectors, and a cached write ends with a flush that succeeded
    (`NvmeDisk.Disk.Rw`).
11. **inotify charges are conserved** (`Inotify.Accounts.Run`, `Inotify.Limits`).

## Where the code and its comments or expectations differ

* `iv_refine` is described as answering 0 when nothing changed. A whole-number interval given with an
  open end is rewritten although 0 is answered: `AlsaRefine.ZeroRewrites` is such an interval, `AlsaRefine.ZeroMeansSame`
  gives the exact condition.
* `hw_refine` makes at most 64 passes over its relations. They do not always suffice: for the request of
  `AlsaSlow.Unsettled` the answer is 0 although no configuration fits and the relations would still tighten
  it. They do when the formats and the room in the eleven refined intervals, after masks and limits, come to
  64 or less (`AlsaHwParams.Slack` in the contract of `AlsaHwParams.HwParams.HwRefine`). And two of them do for a
  request with one format and one value each for channels, rate, period size and periods
  (`AlsaFixed.Decides`), whose answer is then 0 exactly when a configuration fits. Which of the other requests
  settle is not characterised.
* The staging area of a PCM stream is sized so that a whole buffer fits. It always does exactly when it is as
  long as a buffer in steps of the resampler (`AlsaResample.StageRoomy`): then nothing written before the start is
  cut off in any run (`AlsaPcm.Pcm.NothingCut`), and otherwise a frame, a RESET, which leaves the resampler where
  it is, and a buffer lose frames (`AlsaPcm.CutOff`). Cards up to 48 kHz have the room (`AlsaResample.StageFits`);
  `AlsaResample.StageClips` has cases at 192 kHz that have not, one of them only behind a RESET.
* inotify's header speaks of a single `IN_Q_OVERFLOW`. A queue can hold several: `Inotify.TwoOverflows` is a
  run that ends with two. `Inotify.OneOverflow` and `Inotify.OverflowAdded` say exactly when one more is
  added, and the limits are proved with them counted.

## Assumptions

The exFAT volume is consistent when mounted, with a node for everything on it, and has at most 2^30 - 2
clusters, so that `c * 4` does not wrap; its device does not fail. Names come without zero bytes and new ones
with at most 255 bytes, as the kernel passes them. The audio engine moves less than one cyclic buffer between
two pumps. An NVMe controller answers each command at most once, or is reset. Device registers, clocks, the
page allocator and the scheduler are parameters: the times and attribute bits stored in a file entry, the
queue fill a status call reads, the position register, whether memory is available, when and how a controller
answers.

## Model

| member | source | states |
|---|---|---|
| `ExfatCache.SectorCache.constructor` | fs/exfat.c:1876-1888 | every slot empty: the view is the device |
| `ExfatCache.SectorCache.Writeback` | fs/exfat.c:284-289 | the slot reaches the device, becomes clean, and the view is the same |
| `ExfatCache.SectorCache.Evict` | fs/exfat.c:302-307 | a victim is written out if dirty and emptied; the view is the same |
| `ExfatCache.SectorCache.Probe` | fs/exfat.c:291-301 | a hit exactly when the sector is cached anywhere; else the oldest way of its set |
| `ExfatCache.SectorCache.Get` | fs/exfat.c:291-314 | with `load` the view never changes; without it a miss reads as zeros and a hit is not cleared; no sector is ever in two ways |
| `ExfatCache.SectorCache.Poke` | fs/exfat.c:316-318 | a write through the slot changes exactly that sector of the view |
| `ExfatCache.SectorCache.Drop` | fs/exfat.c:332-346 | by scan or by probing, exactly the range shows the device again and none of it is cached |
| `ExfatCache.SectorCache.Flush` | fs/exfat.c:320-327 | the device equals the view, which is the same as before |
| `ExfatCache.SectorCache.DevRead` | fs/exfat.c:263-280 | with nothing of the range cached, the device has what the cache would show |
| `ExfatCache.SectorCache.DevWrite` | fs/exfat.c:263-280 | with nothing of the range cached, exactly the range of the view changes |
| `ExfatCache.OverlayWriteback` | fs/exfat.c:284-289 | writing a cached copy out is invisible |
| `ExfatCache.InstallFresh` | fs/exfat.c:303-313 | a sector entering an empty way changes the view of that sector only |
| `ExfatCache.ForgetRange` | fs/exfat.c:332-346 | forgetting a range keeps the cache coherent and exposes the device there only |
| `ExfatLayout.FatPlace` | fs/exfat.c:362-379 | the sector and offset of a FAT word, computed from `c * 4`, lie inside the FAT |
| `ExfatLayout.FatWriteIs` | fs/exfat.c:371-379 | writing one FAT word changes that word and no bit, word or heap sector else |
| `ExfatLayout.BitWriteIs` | fs/exfat.c:421-436 | setting one bitmap bit changes that bit and no other bit, word or heap sector |
| `ExfatLayout.WithBitIs` | fs/exfat.c:421-436 | setting or clearing a bit of a byte changes no other bit |
| `ExfatClusters.ClusterHeap.FatRd` | fs/exfat.c:362-369 | the FAT word, through the cache |
| `ExfatClusters.ClusterHeap.FatWr` | fs/exfat.c:371-379 | exactly one FAT word changes |
| `ExfatClusters.ClusterHeap.FatNext` | fs/exfat.c:383-395 | end of chain, next cluster, or an error for a bad link |
| `ExfatClusters.ClusterHeap.BmGet` | fs/exfat.c:406-411 | the bit of the cluster |
| `ExfatClusters.ClusterHeap.BmSet` | fs/exfat.c:421-436 | the one bit changes, except that the volume's own clusters are never freed; the free count, once known, stays the number of clear bits |
| `ExfatClusters.ClusterHeap.FindClear` | fs/exfat.c:448-472 | the first clear bit of a circular search despite the skip over full bytes, or none exactly when all are set |
| `ExfatClusters.ClusterHeap.Alloc` | fs/exfat.c:448-472 | the first free cluster from the hint on; only its bit changes and nothing of it is cached; fails exactly when none is free |
| `ExfatClusters.ClusterHeap.FreeRun` | fs/exfat.c:439-445 | exactly the bits of the run are cleared, but for the volume's own clusters |
| `ExfatClusters.ClusterHeap.CountFree` | fs/exfat.c:1666-1677 | the byte-wise count with the last byte masked is the number of clear bits |
| `ExfatClusters.ClusterHeap.ReadHeap` | fs/exfat.c:263-280 | file data read past the cache is what the volume holds |
| `ExfatClusters.ClusterHeap.WriteHeap` | fs/exfat.c:263-280 | file data written past the cache changes exactly those heap sectors |
| `ExfatClusters.ClusterHeap.ZeroCluster` | fs/exfat.c:964-971 | a cluster of which nothing is cached becomes zeros, in the cache |
| `ExfatClusters.ClusterHeap.DropRun` | fs/exfat.c:332-346 | dropping clusters changes no bit, no FAT word and no other cluster |
| `ExfatClusters.ClearUpdate` | fs/exfat.c:421-436 | how the number of clear bits follows one change |
| `ExfatClusters.CountByte` | fs/exfat.c:1666-1677 | one step of the count, spare bits of the last byte masked off |
| `ExfatClusters.SetFromStep` | fs/exfat.c:448-472 | a full byte may be skipped in the circular search |
| `ExfatStorage.NodeClus` | fs/exfat.c:633-657 | cluster `ci` of the list for runs and chains, from any valid cursor, or past the end; the cursor stays valid |
| `ExfatStorage.ToChain` | fs/exfat.c:1065-1072 | the cluster list is the same, now linked in the FAT; no other FAT word changes |
| `ExfatStorage.ChainFree` | fs/exfat.c:476-486 | exactly the clusters met on the way are freed, up to the limit, the end or a link that leads nowhere |
| `ExfatStorage.ChainSplit` | fs/exfat.c:1075-1094 | ending a chain after `keep` clusters leaves two chains |
| `ExfatStorage.CutRun` | fs/exfat.c:1075-1094 | a run keeps its first clusters, the rest is freed |
| `ExfatStorage.CutChain` | fs/exfat.c:1075-1094 | a chain is ended after `keep` clusters and the rest freed |
| `ExfatStorage.FileCut` | fs/exfat.c:1075-1094 | the first `keep` clusters stay stored, exactly the others are freed |
| `ExfatStorage.GrowOne` | fs/exfat.c:1111-1131 | one more cluster that was free: the one behind a run when that is free, and then the file stays a run |
| `ExfatStorage.GrowLoop` | fs/exfat.c:1100-1137 | clusters are added until the storage is long enough or none is free |
| `ExfatStorage.GrowUndo` | fs/exfat.c:1138-1142 | everything added goes back: bitmap and cluster list as before |
| `ExfatStorage.FileGrow` | fs/exfat.c:1100-1145 | `-ENOSPC` exactly when fewer clusters are free than missing, and then bitmap and list are restored |
| `ExfatFileIo.FindRun` | fs/exfat.c:1157-1168 | clusters that follow each other in the file and on the volume, as many as there are up to the number wanted |
| `ExfatFileIo.FileSecRun` | fs/exfat.c:1157-1171 | a run of clusters is a run of sectors |
| `ExfatFileIo.WriteChunk` | fs/exfat.c:1149-1199 | one transfer: whole sectors of a run, or a patched sector |
| `ExfatFileIo.FileWrite` | fs/exfat.c:1149-1199 | exactly the bytes asked for change, and no sector of another cluster |
| `ExfatFileIo.FileRead` | fs/exfat.c:1149-1199 | exactly the bytes asked for |
| `ExfatFileIo.FileZero` | fs/exfat.c:1202-1212 | exactly the range reads as zeros |
| `ExfatFileIo.WrotePart` | fs/exfat.c:1184-1194 | read-modify-write of a sector changes only the bytes given |
| `ExfatDirIo.DirPos` | fs/exfat.c:660-670 | the cluster, sector and offset of an entry, or that it is past the end |
| `ExfatDirIo.EntGet` | fs/exfat.c:672-680 | the bytes of the entry, through the cache |
| `ExfatDirIo.EntPut` | fs/exfat.c:682-690 | exactly those bytes of the heap change, in the cache; the other clusters stay cold |
| `ExfatNodes.InvStep` | fs/exfat.c:1100-1145 | an operation that spares all marked clusters outside its node keeps every list disjoint, marked and well stored |
| `ExfatNodes.OpStep` | fs/exfat.c:1100-1145 | and leaves every other file and the set of lost clusters as they were |
| `ExfatNodes.ClearStep` | fs/exfat.c:421-436 | the free clusters follow the length of the one cluster list that changed |
| `ExfatNodes.GrowCommit` | fs/exfat.c:1233-1265 | after growing, the file is the old one extended by zeros |
| `ExfatNodes.ExtendCommit` | fs/exfat.c:974-986 | after a cluster of zeros was added to a directory, its bytes are the old ones and zeros |
| `ExfatNodes.CutCommit` | fs/exfat.c:1075-1094 | after cutting, the file is a prefix and its other clusters are free |
| `ExfatNodes.PutCommit` | fs/exfat.c:1233-1265 | after writing, the file is the old one overwritten, gap zero-filled |
| `ExfatNodes.FreeCommit` | fs/exfat.c:1411-1414 | after freeing, the node holds nothing and nobody else lost anything |
| `ExfatNodes.PutContent` | fs/exfat.c:1233-1265 | the bytes of a file after its storage grew and was written, ValidDataLength included |
| `ExfatNodes.CutContent` | fs/exfat.c:1267-1295 | the bytes of a file after it was cut |
| `ExfatNodes.AllocCommit` | fs/exfat.c:1386-1389 | a cluster allocated and zeroed for a directory to come is the only one lost meanwhile |
| `ExfatNodes.AdoptCommit` | fs/exfat.c:1390-1400 | the new directory takes it, and nothing is lost |
| `ExfatNodes.ReleaseCommit` | fs/exfat.c:1402-1403 | clearing its bit gives it back, and nothing is lost |
| `ExfatVolume.Volume.Read` | fs/exfat.c:1214-1231 | the bytes of the file, zeros behind ValidDataLength, short at the end of the file |
| `ExfatVolume.Volume.Write` | fs/exfat.c:1233-1265 | on success the first `r` bytes of the buffer, as many as fit, are in the file at `off`, the gap is zeroed and the rest is as before; the reply from the length, the free clusters and the request alone |
| `ExfatVolume.Volume.Truncate` | fs/exfat.c:1267-1295 | the file cut or extended with zeros; the reply from the length, the free clusters and the request alone |
| `ExfatVolume.Volume.FreeStorage` | fs/exfat.c:1411-1414 | the clusters of an unlinked, closed node go, nobody else's |
| `ExfatVolume.Volume.Orphan` | fs/exfat.c:1418-1424 | an unlinked node keeps clusters and contents while open and gives them back otherwise |
| `ExfatVolume.Volume.Retain` | fs/exfat.c:1590-1596 | one more reference, nothing else |
| `ExfatVolume.Volume.Close` | fs/exfat.c:1598-1613 | the last close of an unlinked node gives its clusters back; any other close changes no file |
| `ExfatVolume.Volume.DirGet` | fs/exfat.c:672-680 | the entry bytes of a directory, or the end |
| `ExfatVolume.Volume.DirPut` | fs/exfat.c:682-690 | the directory overwritten at that entry; everything else as before |
| `ExfatVolume.Volume.DirGrow` | fs/exfat.c:974-986 | one cluster of zeros more, exactly when one is free and the directory may grow; else nothing changed |
| `ExfatVolume.Volume.NewCluster` | fs/exfat.c:1386-1389 | a marked cluster of zeros that nobody has, exactly when one is free |
| `ExfatVolume.Volume.Release` | fs/exfat.c:1402-1403 | the undo of a creation: everything as before it, though the cluster stays cached |
| `ExfatVolume.Volume.Unlock` | fs/exfat.c:190-195 | when an operation ends, the device holds everything |
| `ExfatNames.Utf8Next` | fs/exfat.c:533-551 | a character exactly when its shortest UTF-8 form is there; else -1 |
| `ExfatNames.EncShaped` | fs/exfat.c:533-569 | decoding inverts encoding |
| `ExfatNames.ShapedEnc` | fs/exfat.c:533-569 | encoding inverts decoding of accepted bytes |
| `ExfatNames.EncAllPrefix` | fs/exfat.c:533-551 | a byte string spells at most one character string |
| `ExfatNames.NameToU16` | fs/exfat.c:579-601 | the UTF-16 form without trailing dots, exactly for acceptable names; `-ENAMETOOLONG` exactly for what becomes too long before anything is wrong with it, else `-EINVAL` |
| `ExfatNames.RunesBack` | fs/exfat.c:702-736 | decoding stored units gives the characters back, surrogate pairs included |
| `ExfatNames.RunesShort` | fs/exfat.c:718-733 | a name spelt back needs at most three bytes per unit |
| `ExfatNames.DotsAgree` | fs/exfat.c:579-601 | stripping dots commutes with both encodings |
| `ExfatNames.NameReadBack` | fs/exfat.c:579-601 | a strict name read back is the name without trailing dots |
| `ExfatSets.SetChecksum` | fs/exfat.c:613-620 | the checksum of the set, its own field skipped |
| `ExfatSets.SumSkips` | fs/exfat.c:613-620 | storing the checksum does not change it |
| `ExfatSets.NameHash` | fs/exfat.c:603-611 | the hash of the up-cased units |
| `ExfatSets.SameHash` | fs/exfat.c:603-611 | names equal under the up-case table hash alike |
| `ExfatSets.SameNameFold` | fs/exfat.c:771-776 | matching is equality of the up-cased names |
| `ExfatSets.Collect` | fs/exfat.c:707-717 | the units of the name entries, all of which must be name entries |
| `ExfatSets.Spell` | fs/exfat.c:718-735 | the UTF-8 name shown for stored units |
| `ExfatSets.SetValid` | fs/exfat.c:702-736 | accepts exactly the well-formed sets, and returns their name |
| `ExfatSets.SetBuild` | fs/exfat.c:1025-1049 | type bytes, counts, hash, checksum, templates and name of the set built, the last name entry filled up with zeros |
| `ExfatSets.SetReadBack` | fs/exfat.c:1025-1049 | the set built for a strict name is accepted and reads back as that name without trailing dots |
| `ExfatSets.StoreKeeps` | fs/exfat.c:928-957 | rewriting the first two entries and the checksum keeps the set valid and its name |
| `ExfatDir.AddListed` | fs/exfat.c:1052-1060 | writing a set into a free run: exactly the old files and the new one |
| `ExfatDir.PartListed` | fs/exfat.c:1052-1060 | before the first entry is written nothing shows |
| `ExfatDir.FirstFit` | fs/exfat.c:990-1009 | the first free run starts before any end marker |
| `ExfatDir.DelListed` | fs/exfat.c:1012-1020 | deleting entries removes exactly one file from the first write on |
| `ExfatDir.StoreListed` | fs/exfat.c:928-957 | rewriting a set in place leaves the same files |
| `ExfatDir.ExtendListed` | fs/exfat.c:974-986 | a zeroed cluster adds no file |
| `ExfatDir.AddMaps` | fs/exfat.c:1052-1060 | a new name is added in all its spellings, and no other |
| `ExfatDir.DelMaps` | fs/exfat.c:1012-1020 | a removed name is gone in all its spellings, and no other |
| `ExfatDir.BuiltFresh` | fs/exfat.c:1025-1049 | a set that is built can be added |
| `ExfatDir.FolderAdd` | fs/exfat.c:1052-1060 | slots and names after a set is added |
| `ExfatDir.FolderDel` | fs/exfat.c:1012-1020 | slots and names after one is deleted |
| `ExfatDir.FolderWiden` | fs/exfat.c:974-986 | more free slots and the same names |
| `ExfatDir.PlanIs` | fs/exfat.c:990-1009 | where a set goes: the first fit in the directory as it is or as often extended as needed; `-ENOSPC` when it cannot be |
| `ExfatRecords.RestoredIs` | fs/exfat.c:928-957 | a set rewritten for a node is valid, has the same name and records that node |
| `ExfatRecords.BuiltRecord` | fs/exfat.c:1025-1049 | a set that is built records what its templates do |
| `ExfatRecords.RecordsAdd` | fs/exfat.c:1052-1060 | adding a set adds its record and touches no other |
| `ExfatRecords.RecordsDel` | fs/exfat.c:1012-1020 | deleting a set takes its record away and touches no other |
| `ExfatRecords.RecordsStore` | fs/exfat.c:928-957 | rewriting a set changes its record and no other |
| `ExfatFolders.Iter` | fs/exfat.c:740-769 | the next valid set before any end marker |
| `ExfatFolders.List` | fs/exfat.c:740-769 | all files, each once, in order |
| `ExfatFolders.Find` | fs/exfat.c:779-789 | the file with that name, or none has it |
| `ExfatFolders.IsEmpty` | fs/exfat.c:1426-1433 | no valid set before any end marker |
| `ExfatFolders.StoreSet` | fs/exfat.c:928-957 | the first two entries are replaced under a new checksum |
| `ExfatFolders.NodeStore` | fs/exfat.c:928-957 | afterwards the entry set records the node, and nothing else can be seen of it |
| `ExfatFolders.Extend` | fs/exfat.c:974-986 | one cluster of free slots more, recorded in the parent directory, exactly when one is free and the directory may grow; else no change |
| `ExfatFolders.Slots` | fs/exfat.c:990-1009 | the slot of the plan, after as many extensions as it says, recorded each |
| `ExfatFolders.WriteSet` | fs/exfat.c:1052-1060 | the entries of the set, last one first, which keeps the directory well formed |
| `ExfatFolders.Add` | fs/exfat.c:1052-1060 | exactly one name more at the slot of the plan, or `-ENOSPC` as it says and the same names |
| `ExfatFolders.Del` | fs/exfat.c:1012-1020 | exactly one name less |
| `ExfatView.Remount` | fs/exfat.c:817-859 | a node made from the record of another has its clusters and bytes |
| `ExfatView.NeatNode` | fs/exfat.c:817-957 | a change to one node and its record keeps all others recorded |
| `ExfatTree.PathMoved` | fs/exfat.c:1478-1550 | all ways up still lead to the root after a move that is not below itself |
| `ExfatTree.RootedMoved` | fs/exfat.c:1478-1550 | so the tree stays a tree |
| `ExfatTree.FileNotPassed` | fs/exfat.c:1478-1550 | only directories lie on a way up |
| `ExfatTree.CreateWf` | fs/exfat.c:1362-1408 | a new node keeps the tree and adds exactly its name |
| `ExfatTree.UnlinkWf` | fs/exfat.c:1435-1459 | unlinking a file or an empty directory keeps the tree |
| `ExfatTree.MoveWf` | fs/exfat.c:1478-1550 | moving a link to a free name keeps the tree and unique names |
| `ExfatTree.RenameDone` | fs/exfat.c:1478-1550 | what a rename promises of the final state |
| `ExfatTree.SameEnd` | fs/exfat.c:1478-1550 | the order of the driver's writes ends in the same directories |
| `ExfatTree.RenamedSame` | fs/exfat.c:1506-1510 | renaming to the very same name is a rename that changes nothing |
| `ExfatState.CreateOk` | fs/exfat.c:1362-1408 | a creation on plain values keeps the tree and adds exactly its name |
| `ExfatState.UnlinkOk` | fs/exfat.c:1435-1459 | an unlink keeps the tree and takes away exactly its name |
| `ExfatState.MoveOk` | fs/exfat.c:1478-1550 | a move keeps the tree, replaces one name by the other and orphans the node in its place |
| `ExfatState.RenameMeans` | fs/exfat.c:1478-1550 | each error exactly when it applies and then no name or node changed; `-ENOSPC` exactly when the new set finds no room; else one name replaced by the other, same node, victim orphaned |
| `ExfatState.RenameFrees` | fs/exfat.c:1418-1424 | the clusters of a replaced node are free again exactly when nobody has it open; those added to the directory are not |
| `ExfatState.StepKeeps` | fs/exfat.c:1214-1613 | no operation but a write or a truncation of the file itself changes the bytes of a file somebody can still reach |
| `ExfatState.RunKeeps` | fs/exfat.c:1214-1613 | nor does any run of others |
| `ExfatState.ReadBack` | fs/exfat.c:1233-1265 | what was written is read back, the rest as before, zeros in a gap |
| `ExfatState.ShrinkExtend` | fs/exfat.c:1267-1295 | shrinking and extending reads zeros, never stale bytes |
| `ExfatFs.FileSystem.FindName` | fs/exfat.c:779-789 | the slot of the name under the up-case table, and its set; nothing changes |
| `ExfatFs.FileSystem.Lookup` | fs/exfat.c:1299-1313 | the node with that name, or none |
| `ExfatFs.FileSystem.Read` | fs/exfat.c:1214-1231 | the bytes of the file |
| `ExfatFs.FileSystem.Write` | fs/exfat.c:1233-1265 | the first `r` bytes of the buffer are in the file at `off`; free clusters, reply and record as on plain values |
| `ExfatFs.FileSystem.Truncate` | fs/exfat.c:1267-1295 | file, free clusters, reply and record as on plain values |
| `ExfatFs.FileSystem.Open` | fs/exfat.c:1590-1596 | one more reference |
| `ExfatFs.FileSystem.Close` | fs/exfat.c:1598-1613 | one reference less; the last one of an unlinked node frees its clusters |
| `ExfatFs.FileSystem.Create` | fs/exfat.c:1362-1408 | name, node and a zeroed cluster for a directory, or the error it calls for; when no slot is found the cluster goes back |
| `ExfatFs.FileSystem.ReleaseDir` | fs/exfat.c:1402-1403 | that undo: nothing lost, everything as before |
| `ExfatFs.FileSystem.Unlink` | fs/exfat.c:1435-1459 | the name is gone, its node orphaned; files, empty directories, and the errors for all others |
| `ExfatFs.FileSystem.Above` | fs/exfat.c:1497-1502 | whether a node is on the way up from a directory |
| `ExfatFs.FileSystem.MayReplace` | fs/exfat.c:1511-1521 | `-ENOTDIR` exactly for a directory over a file, `-EISDIR` exactly for a file over a directory, `-ENOTEMPTY` exactly for a directory over one with entries |
| `ExfatFs.FileSystem.Bring` | fs/exfat.c:1522-1533 | the new entry set is in, where the plan says, or `-ENOSPC` |
| `ExfatFs.FileSystem.Finish` | fs/exfat.c:1534-1539 | the replaced name goes, then the old one, and the node is where the new one is |
| `ExfatFs.FileSystem.Rename` | fs/exfat.c:1478-1550 | names, nodes, free clusters and reply as on plain values |
| `ExfatFs.FileSystem.Do` | fs/exfat.c:1214-1613 | one operation steps the plain values and answers as they say; no cluster is lost; the device holds everything |
| `ExfatFs.FileSystem.Run` | fs/exfat.c:1214-1613 | any run refines the run on plain values, replies included, and loses no cluster |
| `ExfatFs.FileSystem.FilesCold` | fs/exfat.c:448-472 | no sector of a file is in the cache, whoever had its clusters before |
| `ExfatFs.FileSystem.InUseAll` | fs/exfat.c:740-769 | the slot of every file is in use, as `ExfatState.RenameMeans` asks |
| `ExfatFs.FileSystem.Persists` | fs/exfat.c:817-957 | every linked node is recorded: the node made from its entry set has the same clusters and bytes |
| `ExfatLaws.LookupLaw` | fs/exfat.c:1299-1313 | the one node the name leads to, by the links and the up-case table, or none; "." and ".." |
| `ExfatLaws.CreateLaw` | fs/exfat.c:1362-1408 | `-EINVAL` exactly for a name that is none, `-EEXIST` exactly for one that is there, `-ENOSPC` exactly when there is no room; else one link more, an empty node, and everything else as before |
| `ExfatLaws.UnlinkLaw` | fs/exfat.c:1435-1459 | `-ENOENT` exactly for a name that leads nowhere, `-ENOTEMPTY` exactly for a directory with names; else that link gone and no other |
| `ExfatLaws.BareLaw` | fs/exfat.c:1426-1433 | an empty directory is one without links |
| `ExfatLaws.RenameLaw` | fs/exfat.c:1478-1550 | every refusal with its code exactly when it applies, a replaced directory that is not empty among them; `-ENOSPC` without a change of names; else the new name for the old one |
| `ExfatLaws.ReadLaw` | fs/exfat.c:1214-1231 | every byte there is from `off` on |
| `ExfatLaws.WriteLaw` | fs/exfat.c:1233-1265 | every byte of the file afterwards: the buffer, zeros in the gap, the old ones; `-EFBIG` and `-ENOSPC` exactly when the length or the clusters do not allow it |
| `ExfatLaws.TruncateLaw` | fs/exfat.c:1267-1295 | the bytes up to the new length, zeros behind them, or the error |
| `ExfatLaws.OpenCloseLaw` | fs/exfat.c:1590-1613 | references are counted; the last one of an unlinked node frees its clusters |
| `ExfatLaws.WriteReadLaw` | fs/exfat.c:1214-1265 | what was written is read, whatever was done to other nodes in between |
| `ExfatLaws.CreateLookup` | fs/exfat.c:1299-1408 | what was created is found |
| `ExfatLaws.UnlinkLookup` | fs/exfat.c:1299-1459 | what was unlinked is not |
| `ExfatLaws.RenameLookup` | fs/exfat.c:1299-1550 | what was renamed is found under its new name |
| `ExfatLaws.ClusterLaw` | fs/exfat.c:1214-1613 | free clusters and those of all nodes add up to the same after every operation |
| `ExfatLaws.PlannedOnce` | fs/exfat.c:990-1010 | there is one place and one number of clusters for a new entry set |
| `ExfatDisk.BitIs` | fs/exfat.c:406-420 | bit `k` of a number is worth 2 to the `k` |
| `ExfatDisk.TypeBits` | fs/exfat.c:745-758 | an entry is in use by bit 7 of its type, secondary by bit 6 besides |
| `ExfatDisk.ClearedBits` | fs/exfat.c:1012-1020 | deleting an entry takes bit 7 away and nothing else |
| `ExfatDisk.RotIs` | fs/exfat.c:603-620 | a step of the sums turns right by one bit and adds |
| `ExfatDisk.SumIs` | fs/exfat.c:613-620 | the checksum is over all bytes of a set but its own two |
| `ExfatDisk.HashIs` | fs/exfat.c:603-611 | the name hash is the same sum over the up-cased units, low byte first |
| `ExfatDisk.NameChars` | fs/exfat.c:572-574 | a name may hold all characters but controls and nine others |
| `ExfatDisk.ShownSafe` | fs/exfat.c:717-731 | whatever units are stored, the name shown has no slash and no zero |
| `ExfatDisk.RecordRead` | fs/exfat.c:817-826 | attributes, first cluster, lengths and the contiguous flag from the bytes of an entry set laid out as specified |
| `ExfatDisk.StampedBytes` | fs/exfat.c:910-924 | the file entry stored differs in attributes, times and zones only |
| `ExfatDisk.RestoredBytes` | fs/exfat.c:928-957 | `node_store` changes exactly those fields and those of the stream entry, with the sum to match |
| `ExfatDisk.BuiltBytes` | fs/exfat.c:1025-1049 | the entry set of a new node, byte for byte |
| `ExfatReaddir.Readdir` | fs/exfat.c:1315-1360 | the file with that number if the cursor is right, which it then stays; for the next number the next file behind the cursor, whatever was deleted since |
| `ExfatReaddir.Sweep` | fs/exfat.c:1329-1354 | reading on while files are deleted shows every file that stays, in order and once |
| `ExfatMount.BlankInv` | fs/exfat.c:1891-1916 | a volume without files has the invariant of all volumes |
| `ExfatMount.BlankState` | fs/exfat.c:1891-1916 | and the values behind it are a root without names |
| `ExfatMount.Mount` | fs/exfat.c:1876-1916 | mounting it gives a valid file system |
| `ExfatMount.SmallBlank` | fs/exfat.c:1876-1916 | a formatted volume of any number of clusters from 3 to 126 is one |
| `ExfatMount.Format` | fs/exfat.c:1876-1916 | so there are valid file systems, with all clusters but three free |
| `ExfatTime.InYear` | fs/exfat.c:206-217 | the year computed for a day of an era holds that day |
| `ExfatTime.InMonth` | fs/exfat.c:206-217 | the month computed for a day of a year holds that day |
| `ExfatTime.DayToDate` | fs/exfat.c:206-226 | every day has a calendar date, and that date has this day |
| `ExfatTime.DateToDay` | fs/exfat.c:206-226 | every date from 1970 on is the date of its day |
| `ExfatTime.YearsCovered` | fs/exfat.c:230-238 | 32-bit times from 1980 on need no clamping |
| `ExfatTime.Unpack` | fs/exfat.c:230-258 | the fields of a timestamp are read back |
| `ExfatTime.TimeReadBack` | fs/exfat.c:910-924 | a time written is read back to the second, odd seconds included |
| `AlsaRefine.In` | drivers/alsa.c:296-301 | membership of a whole number |
| `AlsaRefine.Refine` | drivers/alsa.c:313-345 | the refined interval and the answer 1, 0 or `-EINVAL` |
| `AlsaRefine.Tighten` | drivers/alsa.c:313-329 | the ends and the flag of the intersection |
| `AlsaRefine.CloseUp` | drivers/alsa.c:330-345 | whole-number ends are closed, a point becomes whole, an empty interval is found |
| `AlsaRefine.RefineIsIntersection` | drivers/alsa.c:313-345 | refinement is exactly intersection |
| `AlsaRefine.RefineFailsIff` | drivers/alsa.c:313-345 | `-EINVAL` exactly when the intersection is empty |
| `AlsaRefine.ZeroMeansSame` | drivers/alsa.c:313-345 | 0 loses no value; the structure is unchanged exactly when it was in normal form |
| `AlsaRefine.ZeroRewrites` | drivers/alsa.c:313-345 | an interval that is rewritten although the answer is 0 |
| `AlsaRefine.RefineShrinks` | drivers/alsa.c:313-345 | an answer of 1 means that the interval got smaller |
| `AlsaRefine.MulSound` | drivers/alsa.c:373-379 | products of members are members |
| `AlsaRefine.MulKDivSound` | drivers/alsa.c:381-406 | quotients of members are members, rounding and saturation included |
| `AlsaRefine.MulDivKSound` | drivers/alsa.c:409-416 | scaled products of members are members |
| `AlsaRefine.ApplySound` | drivers/alsa.c:420-439 | every rule bounds its variable soundly |
| `AlsaHwParams.RefinesLimit` | drivers/alsa.c:539-564 | a device limit loses no runnable configuration |
| `AlsaHwParams.RefinesRule` | drivers/alsa.c:572-585 | a relation loses no runnable configuration |
| `AlsaHwParams.RefinesFormats` | drivers/alsa.c:482-503 | dropping formats of excluded widths loses none |
| `AlsaHwParams.RefinesWidth` | drivers/alsa.c:482-503 | bounding the width by the formats left loses none |
| `AlsaHwParams.SizesShrink` | drivers/alsa.c:313-345 | a refinement that changes something leaves less room in all |
| `AlsaHwParams.HwParams.RefineMask` | drivers/alsa.c:454-462 | the mask is intersected |
| `AlsaHwParams.HwParams.RefineVar` | drivers/alsa.c:313-345 | one interval is intersected and the rest stays |
| `AlsaHwParams.HwParams.ScanFormats` | drivers/alsa.c:482-494 | formats with an excluded width go, the hull of the other widths |
| `AlsaHwParams.HwParams.RefineFormat` | drivers/alsa.c:482-503 | formats and width constrain each other soundly |
| `AlsaHwParams.KeptIs` | drivers/alsa.c:482-494 | the formats that stay are those with an allowed width, and the hull has their widths |
| `AlsaHwParams.SlackSpent` | drivers/alsa.c:566-606 | every pass but the last takes something off the room there is |
| `AlsaHwParams.RulesRefine` | drivers/alsa.c:572-585 | a pass loses no runnable configuration |
| `AlsaHwParams.StartedWithin` | drivers/alsa.c:520-564 | what is left after masks and limits is within them |
| `AlsaHwParams.FixStays` | drivers/alsa.c:566-606 | passes that change nothing can be left out |
| `AlsaHwParams.HwParams.RefineMasks` | drivers/alsa.c:520-537 | every mask is intersected with what the device has |
| `AlsaHwParams.AdmissibleIs` | drivers/alsa.c:442-606 | the configurations kept are those that can be run: spelt out as ranges, six relations and a format of that width |
| `AlsaHwParams.WithinIs` | drivers/alsa.c:520-564 | being within masks and limits, spelt out the same way |
| `AlsaHwParams.CoheresIs` | drivers/alsa.c:572-585 | the eighteen relations say no more and no less than six |
| `AlsaHwParams.LimitsRanges` | drivers/alsa.c:539-564 | the limits leave exactly the values in range, at one rate only without resampling |
| `AlsaHwParams.HwParams.RefineLimits` | drivers/alsa.c:539-564 | exactly the values within the device's ranges are left, the rate of the card alone without resampling; or one of them is empty |
| `AlsaHwParams.HwParams.RulePass` | drivers/alsa.c:572-585 | the intervals after the relations, or that one is empty; an answer of 0 means that no rule can tighten anything |
| `AlsaHwParams.HwParams.HwRefine` | drivers/alsa.c:506-606 | no runnable configuration lost and none added; all that is left in range; `-EINVAL` only when nothing is runnable; what the passes compute, each but the last of which changes something; settled when there is little enough room at the start |
| `AlsaFixed.Determined` | drivers/alsa.c:572-585 | after one pass over a request that says what to run everything but the times is one value |
| `AlsaFixed.TimeIn` | drivers/alsa.c:381-406 | an interval a time was taken into is empty or has that time, though it lies between two whole numbers |
| `AlsaFixed.Related` | drivers/alsa.c:420-439 | the relations hold of the configuration such a request means |
| `AlsaFixed.Fits` | drivers/alsa.c:506-606 | after a pass that leaves nothing empty it can be run |
| `AlsaFixed.Settles` | drivers/alsa.c:566-606 | and a second pass changes nothing |
| `AlsaFixed.Decides` | drivers/alsa.c:506-606 | such a request is settled after two passes, and the answer is 0 exactly when a configuration fits |
| `AlsaSlow.PassesBoxed` | drivers/alsa.c:566-606 | after `k` passes on the slow request at least this much is left |
| `AlsaSlow.NotSettled` | drivers/alsa.c:572-585 | and the relations can still tighten it |
| `AlsaSlow.NothingFits` | drivers/alsa.c:506-606 | though no configuration fits it |
| `AlsaSlow.Unsettled` | drivers/alsa.c:566-606 | so 64 passes do not suffice: 0 is answered, not settled, and nothing fits |
| `AlsaResample.Lerp` | drivers/alsa_resample.h:19-21 | every sample lies between its neighbours |
| `AlsaResample.OnTheLine` | drivers/alsa_resample.h:19-42 | every output is the linear interpolation of its channel at that time, rounded down |
| `AlsaResample.ChunkIs` | drivers/alsa.c:698-703 | a chunk is the most frames that fit the input buffer and convert to what fits the output buffer, and one at least |
| `AlsaResample.StageFramesIs` | drivers/alsa.c:826-826 | the staging area lasts as long as a buffer, and eight frames more |
| `AlsaResample.Resampler.constructor` | drivers/alsa.c:705-709 | a reset resampler has nothing to go on |
| `AlsaResample.Resampler.Feed` | drivers/alsa_resample.h:25-42 | the outputs for one more input are those of the closed form, unless the cap stops it, and then the position underflows |
| `AlsaResample.Resampler.Convert` | drivers/alsa.c:676-695 | a chunk of any size continues the closed form and never stops on its cap |
| `AlsaResample.ExpectKept` | drivers/alsa_resample.h:25-42 | later inputs do not change earlier outputs |
| `AlsaResample.CountIs` | drivers/alsa_resample.h:25-42 | how many frames have come out after `m` inputs |
| `AlsaResample.CountBounds` | drivers/alsa_resample.h:25-42 | the position always lies within one step behind the last input |
| `AlsaResample.CountSpan` | drivers/alsa.c:676-695 | however frames are split, `k` inputs give a bounded number of outputs |
| `AlsaResample.ChunkFits` | drivers/alsa.c:698-703 | a chunk's output fits the output buffer |
| `AlsaResample.StageFits` | drivers/alsa.c:826-826 | up to 48 kHz cards the staging area is as long as a buffer |
| `AlsaResample.StageHolds` | drivers/alsa.c:826-826 | then whatever up to a buffer converts to fits, wherever the resampler stands |
| `AlsaResample.StageShort` | drivers/alsa.c:826-826 | and else a whole buffer behind the first frame does not |
| `AlsaResample.StageExact` | drivers/alsa.c:826-826 | a whole buffer fits wherever the resampler stands exactly when the staging area is as long |
| `AlsaResample.StageFirst` | drivers/alsa.c:826-826 | from a reset it fits exactly when its last frame does |
| `AlsaResample.StageClips` | drivers/usb/usb_audio.c:667-667 | at 192 kHz it does not fit; one that does from a reset does not behind a frame |
| `AlsaPcm.CutOff` | drivers/alsa.c:1126-1136 | and else some run loses frames: one frame, a RESET, and a buffer |
| `AlsaPcm.ConvertedIs` | drivers/alsa.c:978-988 | the frames counted for staging are those the resampler makes |
| `AlsaPcm.RingBoundary` | drivers/alsa.c:836-838 | the largest doubling of the buffer size that leaves a buffer below 2^31 |
| `AlsaPcm.Pcm.constructor` | drivers/alsa.c:800-845 | a configured stream with nothing written, its thresholds and its boundary |
| `AlsaPcm.Pcm.SwParams` | drivers/alsa.c:847-858 | the thresholds, a boundary that is not below the buffer size, and the errors |
| `AlsaPcm.Pcm.UpdateHw` | drivers/alsa.c:723-743 | played frames from the queue fill, never back and never past what the card was given; the state after it |
| `AlsaPcm.Pcm.PendingIs` | drivers/alsa.c:723-731 | the least number of stream frames that last as long as the queue of the card |
| `AlsaPcm.Pcm.UsedIs` | drivers/alsa.c:713-716 | the 32-bit difference is the number of frames in between |
| `AlsaPcm.Pcm.Check` | drivers/alsa.c:949-977 | the frames taken next, or the error |
| `AlsaPcm.Pcm.Stage` | drivers/alsa.c:978-988 | frames are staged and counted; none is cut off if the staging area is as long as a buffer |
| `AlsaPcm.Pcm.NothingCut` | drivers/alsa.c:978-988 | then all that is written and not played is staged, in every state before the start |
| `AlsaPcm.Pcm.Start` | drivers/alsa.c:1137-1141 | an empty stream that would underrun at once is not started |
| `AlsaPcm.Pcm.StartBegin` | drivers/alsa.c:746-752 | the stream runs while its staging area is pushed |
| `AlsaPcm.Pcm.StartEnd` | drivers/alsa.c:753-761 | afterwards all of it counts as given; a drain goes on |
| `AlsaPcm.Pcm.PushBegin` | drivers/alsa.c:992-996 | frames in flight are not counted yet |
| `AlsaPcm.Pcm.PushEnd` | drivers/alsa.c:997-1004 | now they are |
| `AlsaPcm.Pcm.Prepare` | drivers/alsa.c:1056-1065 | everything starts from zero, unless the stream is not open |
| `AlsaPcm.Pcm.Drop` | drivers/alsa.c:1042-1054 | what is queued counts as played |
| `AlsaPcm.Pcm.Reset` | drivers/alsa.c:1126-1136 | the same without a change of state |
| `AlsaPcm.Pcm.ForceXrun` | drivers/alsa.c:1144-1151 | what is queued or staged is thrown away |
| `AlsaPcm.Pcm.Drain` | drivers/alsa.c:1010-1023 | what is left to do: nothing, a start for staged frames, or waiting; the errors |
| `AlsaPcm.Pcm.DrainMark` | drivers/alsa.c:1024-1026 | a stream that still runs drains |
| `AlsaPcm.Pcm.DrainWait` | drivers/alsa.c:1028-1039 | over when the queue is empty, and then everything written has been played, or when the caller gives up |
| `AlsaPcm.Pcm.Do` | drivers/alsa.c:847-1165 | one step of some thread: only status calls, checks, drain waits, drops and resets move the played position, and only pushes and throwing away move what is given |
| `AlsaPcm.Pcm.Run` | drivers/alsa.c:847-1165 | in any interleaving played <= given <= written <= played + buffer, and none goes back |
| `AudioStream.PosLtIs` | drivers/ac97.c:101-109 | the signed 32-bit comparison is the order of positions less than half the range apart |
| `AudioStream.PosLtSigned` | drivers/hda.c:170-170 | the comparison is by the sign of the 32-bit difference |
| `AudioStream.AlignedIs` | drivers/hda.c:625-629 | writing goes on at the next position on the same byte of a frame |
| `AudioStream.IndexKept` | drivers/hda.c:542-565 | wrap-around does not move a buffer index |
| `AudioStream.PutByte` | drivers/hda.c:542-554 | the next stream byte goes to the next position and nowhere else |
| `AudioStream.Advance` | drivers/hda.c:557-565 | zeroing what was played keeps the window true |
| `AudioStream.CutBack` | drivers/hda.c:585-596 | zeroing the end keeps the window true |
| `AudioStream.LineMoved` | drivers/hda.c:617-624 | the engine's progress changes nothing in what has been and will be heard |
| `AudioStream.LineMore` | drivers/hda.c:542-554 | what is copied in will be heard after everything before it |
| `AudioStream.LineCut` | drivers/hda.c:585-596 | a drop leaves what is placed before the guard, and takes away the rest |
| `AudioStream.ObeyedHeard` | drivers/hda.c:585-596 | of what had been written when a drop was asked for, at most the guard bytes are heard after that |
| `AudioStream.LineEnds` | drivers/hda.c:632-637 | once the engine has passed the last byte all of it has been heard |
| `AudioStream.Stream.Move` | drivers/hda.c:548-551 | bytes move from the ring to the next positions, each once, in order |
| `AudioStream.Stream.CopyIn` | drivers/hda.c:542-554 | as many as the ring has and the limit allows |
| `AudioStream.Stream.ZeroRange` | drivers/hda.c:557-565 | exactly that range becomes silence |
| `AudioStream.Stream.MoveTo` | drivers/hda.c:617-624 | the window follows the engine; what it passed was heard and is silence now |
| `AudioStream.Stream.Resync` | drivers/hda.c:625-629 | after an underrun writing goes on ahead of the engine on a frame boundary |
| `AudioStream.Stream.DropQueued` | drivers/hda.c:585-596 | everything queued goes but the guard bytes |
| `AudioStream.Stream.Begin` | drivers/hda.c:605-610 | a new window of silence |
| `AudioStream.Stream.Accept` | drivers/hda.c:722-765 | the ring takes what fits, never more than its size |
| `AudioPumps.Fill` | drivers/hda.c:542-554 | the copying goes on until the ring is empty or the limit is reached, behind all that was there |
| `AudioPumps.LpibGap` | drivers/hda.c:618-621 | the register difference is how far the engine went |
| `AudioPumps.CivGap` | drivers/ac97.c:146-163 | so is the difference of buffer numbers |
| `AudioPumps.Hda.TakeDrop` | drivers/hda.c:585-596 | a drop empties the ring, sets the write position to the guard if it is further, and leaves nothing at or above it: of the line only the guard bytes are still to be heard |
| `AudioPumps.Hda.TryStart` | drivers/hda.c:598-615 | starts exactly with a cushion or a quiet writer; what was queued is heard next |
| `AudioPumps.Hda.Refill` | drivers/hda.c:617-630 | the running part: unplayed PCM stays, new bytes come behind it, the buffer is filled as far as it may be |
| `AudioPumps.Hda.Pump` | drivers/hda.c:580-638 | all that together; behind a drop request what is still to be heard is the bytes placed within the guard, and no more; stops only when everything has been heard |
| `AudioPumps.Hda.Do` | drivers/hda.c:580-765 | a write, a drop or a pump |
| `AudioPumps.Hda.Run` | drivers/hda.c:580-765 | heard bytes are the stream in order and no byte twice; without a drop all of it, and frames stay aligned; after every drop at most the guard bytes of what had been written |
| `AudioPumps.Ac97.TakeDrop` | drivers/ac97.c:171-181 | a drop empties the ring, sets the write position to the guard if it is further, and leaves nothing at or above it: of the line only the guard bytes are still to be heard |
| `AudioPumps.Ac97.TryStart` | drivers/ac97.c:183-213 | starts exactly with a cushion or a quiet writer; what was queued is heard next |
| `AudioPumps.Ac97.UpdatePlay` | drivers/ac97.c:146-163 | the play position from buffer number and samples left, never back |
| `AudioPumps.Ac97.SkipGuard` | drivers/ac97.c:221-222 | writing never enters the bytes about to be fetched |
| `AudioPumps.Ac97.Refill` | drivers/ac97.c:215-225 | unplayed PCM stays, new bytes come behind it, the buffer is filled as far as it may be |
| `AudioPumps.Ac97.Pump` | drivers/ac97.c:166-234 | all that together; behind a drop request what is still to be heard is the bytes placed within the guard, and no more; stops only when everything has been heard |
| `AudioPumps.Ac97.Do` | drivers/ac97.c:166-339 | a write, a drop or a pump |
| `AudioPumps.Ac97.Run` | drivers/ac97.c:166-339 | heard bytes are the stream in order and no byte twice; without a drop all of it, and frames stay aligned; after every drop at most the guard bytes of what had been written |
| `Ext4Blocks.BlockCache.DevRead` | fs/ext4.c:157-169 | whole blocks from the device, exactly when they are on it |
| `Ext4Blocks.BlockCache.Bread` | fs/ext4.c:172-200 | through the cache the same bytes as without it |
| `Ext4Map.PlaceInKid` | fs/ext4.c:266-324 | a block between two keys is looked up in one subtree alone |
| `Ext4Map.LeafMap` | fs/ext4.c:281-299 | the extent or the hole with the block, every block of the run as the flat list of its extents says (`Ext4Layout.LeafRead` gives those of a leaf written out) |
| `Ext4Map.Pick` | fs/ext4.c:300-305 | the last index entry not behind the block, and the limit of its subtree |
| `Ext4Map.StepDown` | fs/ext4.c:300-320 | going down keeps what the flat list says |
| `Ext4Map.HoleBeforeKids` | fs/ext4.c:306-312 | before the first key there is a hole |
| `Ext4Layout.ExtentRead` | fs/ext4.c:284-293 | an extent written out is read as that extent: written ones of 1 to 32768 blocks, unwritten ones of 1 to 32767, any 48-bit start |
| `Ext4Layout.LeafRead` | fs/ext4.c:276-293 | a leaf written out gives back all of its extents |
| `Ext4Layout.IndexNodeRead` | fs/ext4.c:276-314 | an index node written out gives back its keys and the 48-bit blocks of its subtrees |
| `Ext4Layout.HeaderExact` | fs/ext4.c:276-280 | the driver takes for a node exactly what was written as one |
| `Ext4Layout.LaidStored` | fs/ext4.c:266-324 | a tree written out, wherever its nodes are, is the tree the driver walks |
| `Ext4Layout.TreeWritten` | fs/ext4.c:266-324 | every tree of at most 5 levels with all leaves at one depth, and no more entries than its nodes have room for, can be written out |
| `Ext4Inode.Inode.EncodedMapped` | fs/ext4.c:266-353 | so reads and maps are about trees given without the driver's reader |
| `Ext4Inode.SpreadAt` | fs/ext4.c:327-353 | following indirect blocks is indexing the flat list of pointers |
| `Ext4Inode.IndFlatAt` | fs/ext4.c:327-353 | the levels of the indirect map by position |
| `Ext4Inode.Inode.ExtMap` | fs/ext4.c:266-324 | of a tree written out on the medium, of any depth up to 5: every block of the run returned agrees with the flat list of its extents; no answer without a node in the inode |
| `Ext4Inode.Inode.IndMap` | fs/ext4.c:327-353 | agrees with the flat list of pointers; fails exactly when a pointer does or past the end |
| `Ext4Inode.Inode.Map` | fs/ext4.c:355-374 | so does the memo after any history of calls; fails exactly where the flat list does |
| `Ext4Inode.Inode.DirBlock` | fs/ext4.c:437-442 | a hole, a block, or a read error, as the flat list says |
| `Ext4Inode.Inode.Piece` | fs/ext4.c:396-420 | one transfer: a hole, whole blocks or part of one |
| `Ext4Inode.Inode.Read` | fs/ext4.c:385-427 | of a file whose tree is written out on the medium, or one with block pointers, exactly the bytes of the file, zeros in holes and unwritten extents; short only before a block that cannot be read, within one transfer of it |
| `Ext4Entries.SpreadIs` | fs/ext4.c:327-353 | following pointers finds the blocks that were put under them |
| `Ext4Entries.IndFlatIs` | fs/ext4.c:327-353 | twelve pointers and three levels in sixty bytes are the blocks of the file in order |
| `Ext4Entries.RecRead` | fs/ext4.c:444-457 | a directory entry written out is read as that entry, lengths from 64 KiB on included |
| `Ext4Entries.DeExact` | fs/ext4.c:450-457 | the driver takes for an entry exactly what was written as one |
| `Ext4Entries.RecsRead` | fs/ext4.c:539-549 | a block filled with entries has those entries |
| `Ext4Entries.NodeRead` | fs/ext4.c:673-690 | an index node written out gives back its hashes and its blocks without their top four bits |
| `Ext4Entries.NodeExact` | fs/ext4.c:673-676 | the driver takes for an index node exactly a room and a count that fit |
| `Ext4Entries.RootRead` | fs/ext4.c:664-672 | the root header is taken exactly with nothing reserved, a length of 8, a known hash and no more levels than the volume has |
| `Ext4Entries.NblocksIs` | fs/ext4.c:431-434 | the blocks of a directory are enough for its size and no more |
| `Ext4Entries.MostIs` | fs/ext4.c:415-416 | a transfer takes the blocks of 64 KiB, or one |
| `Ext4Htree.BlockFind` | fs/ext4.c:539-549 | an entry with that name, or the block has none |
| `Ext4Htree.LinearFind` | fs/ext4.c:736-742 | the scan of the whole directory, unreadable blocks passed over |
| `Ext4Htree.Search` | fs/ext4.c:677-685 | the last key not above the hash |
| `Ext4Htree.NodeSorted` | fs/ext4.c:661-723 | a node of a sorted index is sorted |
| `Ext4Htree.Narrow` | fs/ext4.c:677-696 | one level down are the leaves of the entry picked |
| `Ext4Htree.NotThere` | fs/ext4.c:697-721 | once the collision run is tried the name is nowhere |
| `Ext4Htree.Descend` | fs/ext4.c:673-696 | the first leaf to try and the entry behind it; succeeds on every readable index that makes sense |
| `Ext4Htree.NextInRoot` | fs/ext4.c:709-720 | the entry behind that of a leaf |
| `Ext4Htree.RootNext` | fs/ext4.c:709-720 | which is the next leaf of the index |
| `Ext4Htree.TryLeaves` | fs/ext4.c:697-723 | the leaves of the collision run, one after the other |
| `Ext4Htree.HtreeFind` | fs/ext4.c:661-723 | 1 and 0 are the answers of a linear scan, collision runs included; on a readable index -1 exactly when 64 leaves do not decide it, or below the root when the node ends or the run goes on |
| `Ext4Htree.Finddir` | fs/ext4.c:725-747 | with a well-formed index and unique names the answer does not depend on the index |
| `Inotify.NameLenIs` | fs/inotify.c:60-64 | a name takes the least multiple of 16 bytes that holds it and its end |
| `Inotify.CostIs` | fs/inotify.c:102-102 | what an event is charged |
| `Inotify.Change` | fs/inotify.c:104-121 | a change to one instance keeps all sums and limits |
| `Inotify.Covers` | fs/inotify.c:116-121 | no counter is smaller than what is taken from it |
| `Inotify.NobodyBound` | fs/inotify.c:79-91 | a bucket nobody is bound to holds nothing |
| `Inotify.BucketsAddUp` | fs/inotify.c:98-121 | the buckets add up to the instances |
| `Inotify.Limits` | fs/inotify.c:104-156 | total, per-user and queue limits, overflow events counted |
| `Inotify.QueuedIs` | fs/inotify.c:123-156 | a queue ends with the event, or with an overflow event if it does not fit, and never repeats an event right behind it |
| `Inotify.OverflowAdded` | fs/inotify.c:123-156 | when exactly a queue gains an overflow event |
| `Inotify.OneOverflow` | fs/inotify.c:123-156 | when exactly a queue keeps to one |
| `Inotify.SecondOverflow` | fs/inotify.h:24-24 | how a second one comes about |
| `Inotify.TwoOverflows` | fs/inotify.h:24-24 | a run of the accounts after which a queue holds two |
| `Inotify.Accounts.Charge` | fs/inotify.c:104-114 | charged exactly when the limits allow or it is forced |
| `Inotify.Accounts.Uncharge` | fs/inotify.c:116-121 | counters stop at zero |
| `Inotify.Accounts.Queue` | fs/inotify.c:123-156 | merged, taken, or an overflow event instead; charges follow |
| `Inotify.Accounts.Pop` | fs/inotify.c:233-259 | the first event leaves and its charge is given back in full |
| `Inotify.Accounts.Read` | fs/inotify.c:233-259 | whole events from the front, as many as fit |
| `Inotify.Accounts.Put` | fs/inotify.c:272-291 | everything charged is given back |
| `Inotify.Accounts.Bind` | fs/inotify.c:79-91 | the user's bucket; if there is none, one nobody is bound to; the shared one exactly when there is neither |
| `Inotify.Accounts.Run` | fs/inotify.c:79-291 | every run keeps the accounts |
| `NvmeQueue.PhaseNext` | drivers/nvme.c:288-291 | head and phase after one more completion |
| `NvmeQueue.PhasePass` | drivers/nvme.c:288-291 | one pass on, the same slot has the other tag |
| `NvmeQueue.SlotsPosted` | drivers/nvme.c:264-307 | a completion posted overwrites only its slot |
| `NvmeQueue.NothingNew` | drivers/nvme.c:276-283 | at the expected slot a stale entry never has the expected tag |
| `NvmeQueue.VerdictIs` | drivers/nvme.c:284-307 | success exactly when the controller answers with a zero status, a timeout exactly when it does not answer |
| `NvmeQueue.Queue.Reset` | drivers/nvme.c:244-257 | host and controller start in step |
| `NvmeQueue.Queue.Submit` | drivers/nvme.c:266-271 | the command is in its slot and the doorbell rung |
| `NvmeQueue.Queue.Complete` | drivers/nvme.c:264-307 | the controller answers the next command under the current tag |
| `NvmeQueue.Queue.Poll` | drivers/nvme.c:276-292 | an entry is taken exactly when it is new, and it is the next one |
| `NvmeQueue.Queue.Exec` | drivers/nvme.c:264-307 | the completion consumed is for the command just submitted, whenever the controller acts; -1 for an error status, -2 exactly when it does not act in time |
| `NvmeQueue.Queue.Walk` | drivers/nvme.c:264-307 | any interleaving of submissions, completions, polls and resets: the host takes each answer once, for the command it is for |
| `NvmeQueue.Queue.Run` | drivers/nvme.c:264-399 | any number of commands, wraps and resets: every answer belongs to its command |
| `NvmeDisk.SetPrps` | drivers/nvme.c:310-325 | the PRP fields name exactly the pages of the transfer |
| `NvmeDisk.PlaceIs` | drivers/nvme.c:310-325 | so sector `k` is where it belongs in the bounce buffer |
| `NvmeDisk.PagesIs` | drivers/nvme.c:310-325 | as many pages as the bytes need |
| `NvmeDisk.WriteIs` | drivers/nvme.c:566-587 | sector by sector, what a write leaves |
| `NvmeDisk.EndsIs` | drivers/nvme.c:609-624 | an attempt succeeds exactly when its command does, and its flush where there is one; it loses the controller exactly when one of them is not answered and the reset fails |
| `NvmeDisk.SettledIs` | drivers/nvme.c:609-624 | a chunk is done by the first attempt, or by the second unless the controller is lost |
| `NvmeDisk.OnChunk` | drivers/nvme.c:601-606 | every chunk starts on a page |
| `NvmeDisk.Disk.Transfer` | drivers/nvme.c:566-587 | through those pages exactly the sectors asked for move |
| `NvmeDisk.Disk.IoExec` | drivers/nvme.c:566-587 | one command within the transfer limit, through the queue |
| `NvmeDisk.Disk.Try` | drivers/nvme.c:609-624 | one attempt; behind a write to a cache it succeeds only with a flush that does; a reset after a timeout |
| `NvmeDisk.Disk.Chunk` | drivers/nvme.c:609-624 | two attempts, a reset after a timeout, and what is left of the controller |
| `NvmeDisk.Disk.Rw` | drivers/nvme.c:589-632 | succeeds exactly when every chunk does; then exactly the sectors asked for moved, and the last command answered with success is the flush behind a write to a cache; else nothing outside the range changed |

## Left out

- Device errors of the exFAT volume: reads and writes of sectors succeed, so no `-EIO` path and no `bad` node is modelled.
- ExfatFs.FileSystem.Create: the times and attribute bits stored in a file entry are given, apart from the directory bit; what time it is and how modes become attributes is not modelled.
- ExfatFs.FileSystem.Rename: requires a new name of at most 255 bytes, as the kernel passes it; the same holds for `Create`. The inode number and the in-memory name of a node are not modelled.
- ExfatFs.FileSystem.Do: an operation on a node that nobody can have answers `-EBADF` and changes nothing; the kernel never makes one.
- ExfatFs.FileSystem.Lookup: every node is known before it is looked up, so the hash table of nodes, their allocation and its failures are not modelled.
- ExfatReaddir.Readdir: the cursor is passed and returned instead of kept in the node; "." and ".." and the inode number and type of an entry are not modelled.
- ExfatClusters.ClusterHeap.FreeRun: requires clusters outside the allocation bitmap, as on every consistent volume; dropping cached sectors of the bitmap itself would forget bits that are not yet written, and the free count with them.
- ExfatStorage.ChainFree: requires the same of the clusters it meets.
- ExfatFileIo.FileZero: the length zeroed at once is a number, not the zero buffer the driver cuts it by.
- ExfatCache.SectorCache.DevRead: requests are not split by the size of a device request; the same holds for `DevWrite`.
- ExfatMount.Mount: a volume without files; the checks of the boot sector, the search of the root for the bitmap and the up-case table, and a root of several clusters are not modelled.
- The up-case table's loading, volume flags, read-only volumes, `setattr`, `settimes` and `statfs` of exFAT: local checks and field copies.
- AlsaFixed.Decides: requires a card at 8 kHz or more if its rate is the only one, and a tick time that is not empty, which the driver does not look at.
- AlsaHwParams.HwParams.HwRefine: does not model the `cmask`, `msbits`, `rate_num` and `info` answers.
- AlsaPcm.Pcm.Do: threads take turns as the device lock makes them; sleeping and signals are not modelled, nor a new configuration of an open stream, nor a card that is unplugged outside a write.
- Sample formats and their conversion to 16 bits, mixer controls and the layout of ioctl structures.
- AlsaResample.Resampler.Convert: requires a chunk that fits, which `AlsaResample.ChunkFits` proves of the driver's chunks.
- AudioPumps.Hda.Pump: requires the engine to have moved less than one cyclic buffer since the last pump, and `AudioPumps.Ac97.Pump` less than one round of buffers; registers, interrupts and stream set-up are not modelled.
- AudioStream.Stream.Accept: one pass of the write loop; waiting for room and the writers' turn are not modelled.
- Inodes of ext4, checksums other than as a yes or no, inline data, fast symbolic links, `readdir` and the hash functions themselves, of which only that hashes are even is used.
- Ext4Htree.HtreeFind: of an inode whose block map is ill formed only that it keeps the cache.
- Ext4Inode.Inode.ExtMap: of an ill-formed tree only that an answer has at least one block, and that there is none if the inode does not hold a node.
- Watches, delivery to instances and instance slots of inotify; its counters are unbounded here, and their limits keep them far below 32 bits.
- Inotify.Accounts.Read: begins where there is something to read; waiting is not modelled.
- NvmeQueue.Queue.Exec: time is a number of polls; admin commands, identification and the registers of a reset are not modelled.
- NvmeDisk.Disk.Rw: the outcome of each attempt is given by a plan; what a failed command left in its range is arbitrary.
- Other drivers and file systems of the kernel.
