# Cronix OS: verified models of its file system, heap, network stack, receive ring and editor

This project models six parts of the Cronix kernel and its formatter in Dafny and proves what
they promise. `dafny verify dfyconfig.toml` checks all of it.

**FAT16 file system** (`kernel/fat.c`). `FatDriver.Driver` has the driver's fields, its one
shared sector buffer and its operations as methods over an array of 512-byte sectors. The
methods are specified by what they do to a volume value: the file allocation table, the sectors
of the root directory and those of each cluster (`FatDisk.Holds` ties the sectors, both table
copies included, to that value, and no sector outside of it, the boot sector for one, changes
after mounting). A volume is well formed (`FatState.WellFormed`) when chains
are acyclic, in range and disjoint, live entries and chains point at each other, every file has
as many clusters as its size takes, no name occurs twice in a directory and nothing live follows
the first unused slot. `FatTheorems` says what the operations mean for files by path, for free
space and for the invariant. `FatRuns` gives the exact condition on the volume before a call
under which the call keeps the invariant, shows that a run keeps it if and only if each call
meets the condition, and that the files at the end of such a run are the calls' updates applied
in order to a map. A freshly formatted disk mounts and is well formed (`Mkfs`, `FatStart`), so
the invariant is met from the start.

- `FatTable`: chains, freeing and linking as functions on the table.
- `FatDir`, `FatDisk`: entries, slots, places on the disk.
- `FatState`, `FatOps`, `FatFiles`, `FatSteps`, `FatWrites`, `FatFacts`: the invariant, the three
  ways an operation changes a volume (erasing an entry, committing one, growing a directory), and
  their effect on the map from directory and name to contents. `FatLost`: what becomes of an entry
  committed under a name that reads as deleted.
- `FatNames`: 8.3 names. `Mkfs`: the formatter (`scripts/mkfs.py`).

**Heap** (`kernel/heap.c`). `Heap.Heap` keeps block headers in memory by address, linked as in
the source; `HeapBlocks` is the same list as a sequence, with the results about free runs,
canonical form and recovery.

**TCP** (`kernel/net.c`). `TcpNet` is an honest peer and a network that may lose, repeat and
reorder anything ever sent, as a step function driven by an arbitrary script of events. `TcpClient`
has the client's steps as functions and what they keep, `Tcp.Socket` is the client with its fields
and loops, proved to compute those functions, `TcpWaits` says over the script of events exactly when
connecting, sending a chunk and receiving succeed and when they give up, and `TcpTheorems` says
exactly when the success of a send means delivery and what the results of receiving add up to. `Checksum`, `Frames` and `Dns` are
the codecs; `SegFrames` joins the segments of the protocol to the frames that carry them.

**Receive ring** (`kernel/e1000.c`). `RxRing.Ring` lets any number of hardware steps happen
between any two steps of the driver, inside the copy loop too.

**Editor** (`kernel/edit.c`). `EditText` has lines, positions and the editor as a state machine;
`Editor.Editor` is the buffer with its loops and its screen. `EditorFile` joins the editor to the
file system: what a session of keys leaves on the disk.

## Findings

- A replacement that runs out of space has freed the old chain and left the entry pointing at
  it. The volume stays well formed exactly when the old file was empty or there was none
  (`FatTheorems.FailedWriteIff`). So a save of changed text on a full disk can lose the file;
  a save of text no longer than the file cannot (`EditorFile.CleanSaveKeeps`).
- A name whose first stored byte is 0xE5 is written, reported as stored, and never found again
  (`FatTheorems.WriteReadsBackIff`). Its clusters are then held by no entry: a write under such a
  name keeps the volume well formed exactly when it stored nothing, a mkdir never
  (`FatTheorems.WriteKeepsIff`, `FatTheorems.MkdirKeepsIff`).
- A delete lets a dot entry through. It goes exactly when the directory, or for ".." what is read
  as directory number 0, passes for empty, and then the invariant is lost
  (`FatRuns.DeleteKeepsIff`). `mkdir` stores dot names no caller can name; the formatter stores
  blank ones, so deleting "." in BIN of a fresh volume succeeds (`FatStart.FormattedDotDelete`).
- A listed name leads back to its entry exactly when the stored name is tidy, that is without
  blanks inside, lower case, or a dot in the base (`FatNames.PrettyRoundTrip`). Names without
  blanks keep every listing usable over whole runs (`FatRuns.ListedNamesWork`).
- Formatter and driver store a base of more than eight characters alike only by accident
  (`Mkfs.PadAgreesIff`). The formatter itself passes five fixed names (`scripts/mkfs.py:102-110`),
  none of them that long, so no volume it makes is affected.
- `kernel/heap.c:1` says 16-byte aligned. Headers are 24 bytes: a payload lies on a multiple of 16
  exactly when an odd number of the blocks below it have a multiple of 16 for their size, and the
  first one never does (`HeapBlocks.PayloadAligned16Iff`, `HeapBlocks.FirstIsMisaligned`). A request
  above 2^64 - 16 wraps and is handed less than it asked for (`HeapBlocks.WantedIsEnough`).
- The acknowledgment test of `tcp_send` is a plain comparison. For every client in step with its
  peer, `tcp_send` tells the truth about delivery, whatever the network does, if and only if the data
  begins with the bytes outstanding from a failed send, if any, and no sequence number wraps
  (`TcpTheorems.SuccessMeansDeliveryIff`). In every other case there is a run in which it returns 0
  and the peer does not hold the data; two of them are written out
  (`TcpTheorems.WrappedSendIsFooled`, `TcpTheorems.RetriedSendIsFooled`).
- `tcp_recv` acknowledges a FIN that arrives with data but does not report it. A reader that took the
  FIN, with room for every segment, has every byte, and is told the end of the stream if and only if
  no data came with the FIN (`TcpTheorems.EndReportedIff`). Every client with bytes still to come can
  be led there (`TcpTheorems.EndIsMissed`), and `wget` then throws its complete download away
  (`kernel/wget.c:165-170`). With `cap` 0 data is reported as 0, as the end would be, and is gone
  (`TcpTheorems.NoRoomLooksLikeEnd`).
- The editor opens a path without a leading slash but never saves it (`EditorFile.SavesWhereLoaded`).
- `scripts/mkfs.py` accepts exactly the sizes from 16 to 256 MB (`Mkfs.ConvergeFat`).

## Model

| member | source | states |
|---|---|---|
| FatTable.ChainUnique | kernel/fat.c:142-155 | the table and a first cluster determine a chain |
| FatTable.ChainAcyclic | kernel/fat.c:142-155 | a chain that ends never visits a cluster twice |
| FatTable.ChainsMeetOnlyInSuffixes | kernel/fat.c:142-155 | two chains that share a cluster agree from there to their ends |
| FatTable.FreeFrom | kernel/fat.c:142-155 | the freeing walk ends on every in-range table, cyclic or cross-linked ones too, and leaves it in range |
| FatTable.FreeingTouchesOnlyReachable | kernel/fat.c:142-155 | on any in-range table an entry that freeing changed becomes free and is reached by a path of entries from the start |
| FatTable.FreeChain | kernel/fat.c:142-155 | freeing a chain zeroes exactly its clusters |
| FatTable.LinkMakesChain | kernel/fat.c:492-507 | clusters that were free, linked in the order taken, form a chain and stay in range |
| FatTable.FreeUndoesLink | kernel/fat.c:493-500 | freeing a freshly linked chain restores the table: a failed allocation gives everything back |
| FatTable.FreeCountAfterFreeing | kernel/fat.c:142-155 | freeing a chain adds exactly its length to the free clusters |
| FatTable.FreeCountAfterLinking | kernel/fat.c:493-507 | linking n free clusters takes exactly n from the free clusters |
| FatDir.PutEntHere | kernel/fat.c:533-542 | writing slot idx of a directory changes that slot and no other of the same directory, across sectors and clusters |
| FatDir.PutEntElsewhere | kernel/fat.c:533-542 | and no slot of a directory on other clusters |
| FatDir.InDirBound | kernel/fat.c:197-199 | the scan limit clusters * spc * 16 lies past the last slot of every directory |
| FatDir.CommittedBytes | kernel/fat.c:528-545 | at byte offsets, where a committed entry holds name, attribute, first cluster and size, and that its other bytes stay |
| FatDisk.PutSectorHolds | kernel/fat.c:516-519 | writing one sector of a directory or file keeps both table copies and every other sector |
| FatState.DropChainOk | kernel/fat.c:482 | freeing one file's chain leaves every other chain a chain and every cluster owned as before |
| FatState.AddChainOk | kernel/fat.c:493-507 | linking free clusters as a new chain disturbs no other chain |
| FatState.GrowChainOk | kernel/fat.c:247-264 | appending a free cluster to a directory's chain keeps it a chain without repeats and disturbs no other |
| FatOps.EraseKeepsWellFormed | kernel/fat.c:586-591 | marking an entry deleted and freeing its chain keeps the invariant |
| FatOps.CommitKeepsWellFormed | kernel/fat.c:528-545 | committing an entry with its new chain to a vacant slot keeps the invariant |
| FatOps.GrowKeepsWellFormed | kernel/fat.c:239-276 | growing a full directory by a zeroed cluster keeps the invariant |
| FatOps.FullDirMeansFullDisk | kernel/fat.c:231-287 | a subdirectory with every slot up to the scan limit live owns every cluster, so no cluster is free |
| FatFiles.FindKept | kernel/fat.c:201-224 | a name is found where it was when the slots with that name are as they were |
| FatSteps.EraseStep | kernel/fat.c:586-591 | the sectors and table after an erase hold a well-formed volume in which all other slots and all other files' bytes are as before |
| FatSteps.CommitStep | kernel/fat.c:528-545 | the same for a commit |
| FatSteps.GrowStep | kernel/fat.c:247-272 | the same for growing a directory |
| FatWrites.CreateStep | kernel/fat.c:483-545 | creating a file sets that directory and name to the bytes and changes no other file or directory |
| FatWrites.ReplaceStep | kernel/fat.c:478-545 | freeing the old chain, reusing clusters of it for the new one and rewriting the entry sets just that file |
| FatWrites.RemoveStep | kernel/fat.c:586-591 | deleting a file removes just that file |
| FatNames.To83 | kernel/fat.c:290-316 | the copying loops compute the stored name as specified |
| FatNames.StoredBytes | kernel/fat.c:298-315 | every stored character is that of the name's base or extension but for case, none is lower case, and blanks fill up each part |
| FatNames.StoredAlikeIff | kernel/fat.c:290-316 | any two names are stored alike if and only if their bases and their extensions are the same but for the case of letters and blanks at the end |
| FatNames.PlainAlikeIff | kernel/fat.c:298-304 | the same for names without a dot of at most eight characters |
| FatNames.ListedAs | kernel/fat.c:370-381 | a name without blanks is listed as its base, a dot and its extension in upper case |
| FatNames.Pretty | kernel/fat.c:370-381 | the listing loops compute the listed name as specified |
| FatNames.PrettyRoundTrip | kernel/fat.c:290-316 | storing what was listed gives the stored name back if and only if it is tidy |
| FatNames.BlankFreeIsTidy | kernel/fat.c:290-316 | every name without blanks is stored tidy |
| FatDriver.Driver.FatGet | kernel/fat.c:92-103 | reads the table entry of the volume |
| FatDriver.Driver.FatSet | kernel/fat.c:105-122 | changes one entry of the volume, in both copies, and nothing else of it |
| FatDriver.Driver.ClAlloc | kernel/fat.c:125-140 | fails exactly when no cluster is free; otherwise marks the lowest free one |
| FatDriver.Driver.ClFreeChain | kernel/fat.c:142-155 | frees what the freeing walk reaches, and ends |
| FatDriver.Driver.DirLba | kernel/fat.c:158-181 | succeeds exactly for slots inside the directory and gives the sector of the slot |
| FatDriver.Driver.DirFind | kernel/fat.c:194-226 | returns the one live entry with the name, with its place, or that there is none |
| FatDriver.Driver.DirSlot | kernel/fat.c:229-288 | fails exactly when the directory is full and is the root or no cluster is free; grows it only when full; the slot delivered is the first one not in use and the invariant holds |
| FatDriver.Driver.AllocChain | kernel/fat.c:492-507 | succeeds exactly when enough clusters are free; otherwise leaves the volume as it was |
| FatDriver.Driver.Pour | kernel/fat.c:508-527 | the chain's bytes start with the data, and no other cluster changes |
| FatDriver.Driver.ReplaceFile | kernel/fat.c:478-547 | succeeds exactly when the data fits in the free clusters plus the old chain, with the exact free count; on failure only the old chain is freed |
| FatDriver.Driver.CreateFile | kernel/fat.c:483-547 | succeeds exactly when there is a slot, or room to grow one, and room for the data, with the exact free count either way; a failure changes no file; under a name read as deleted no file changes and the clusters taken are held by a dead slot |
| FatDriver.Driver.Write | kernel/fat.c:458-547 | one of the outcomes of a write, in which the results of FatTheorems and FatRuns are stated, names read as deleted included |
| FatDriver.Driver.Read | kernel/fat.c:387-448 | given memory, succeeds exactly when the path names a file and then returns exactly its contents |
| FatDriver.Driver.Delete | kernel/fat.c:549-595 | one of the outcomes of a delete: a file goes always, a directory exactly when nothing beyond its dots is live, a dot entry exactly when its directory, or what is read as directory number 0, passes for empty |
| FatDriver.Driver.Mkdir | kernel/fat.c:612-663 | succeeds exactly when the name is new, the root has room and a cluster is free; adds one empty directory and changes nothing else, or under a name read as deleted changes nothing but loses a cluster; a failure changes nothing |
| FatDriver.Driver.List | kernel/fat.c:341-385 | emits every live entry that is not a volume label exactly once, in order |
| FatDriver.Driver.Mount | kernel/fat.c:49-85 | accepts exactly the boot sectors with a FAT16 geometry and takes that geometry over; a check that fails leaves set just the fields taken before it |
| FatFacts.MountIff | kernel/fat.c:53-84 | by the bytes of the boot sector: which ones are mounted, and where the parts then lie |
| FatTheorems.WriteThenRead | kernel/fat.c:458-547 | after a successful write the path reads exactly the data, for every length, every other path reads as before, the volume is well formed, and the entry has no attributes and the right size |
| FatTheorems.WriteReadsBackIff | kernel/fat.c:215-217 | a successful write reads back if and only if the stored name does not start with the deleted mark, whatever else then holds of the volume; otherwise no file has changed |
| FatLost.LostStep | kernel/fat.c:528-545 | committing under a name that reads as deleted changes no file or directory, and the clusters taken for it belong to a dead slot |
| FatTheorems.OrphanBreaks | kernel/fat.c:215-217 | a volume in which a dead slot owns clusters is not well formed for any choice of chains |
| FatTheorems.WriteKeepsIff | kernel/fat.c:458-547 | a successful write keeps the volume well formed if and only if the stored name does not start with the deleted mark or nothing was stored |
| FatTheorems.MkdirKeepsIff | kernel/fat.c:612-663 | a successful mkdir keeps it if and only if the stored name does not start with that mark |
| FatTheorems.WriteSucceedsIff | kernel/fat.c:458-547 | a write succeeds if and only if the directory exists, the name is no directory, there is a slot or a cluster to grow by, and the data fits in what is free plus what is replaced |
| FatTheorems.WriteConserves | kernel/fat.c:478-507 | a successful write changes the free count by the old chain less the clusters needed less one if the directory grew |
| FatTheorems.FailedCreateKeepsFiles | kernel/fat.c:484-500 | a failed create keeps every path and the invariant and costs one cluster exactly when the directory was full, no root, and a cluster was free, and otherwise none |
| FatTheorems.UsedIffHeld | kernel/fat.c:105-155 | a cluster is in use if and only if a live entry's chain holds it, and then just one does |
| FatTheorems.ChainHasNeededLength | kernel/fat.c:467-468 | a file's chain has the least number of clusters that hold its size |
| FatTheorems.ShapeDetermined | kernel/fat.c:194-226 | the chains of a well-formed volume are determined by the disk alone |
| FatTheorems.FailedReplaceBreaks | kernel/fat.c:478-500 | after a failed replacement of a file with contents no choice of chains makes the volume well formed |
| FatTheorems.FailedWriteIff | kernel/fat.c:478-500 | after a failed write some choice of chains makes the volume well formed if and only if there was no file to replace or it was empty, and then no file has changed |
| FatTheorems.DeletedFile | kernel/fat.c:586-594 | deleting a file removes its path, keeps all others, and gives back exactly its chain |
| FatTheorems.DeletedDir | kernel/fat.c:564-594 | a deleted directory was empty; it is gone from the root, its chain is free, and all other directories and files are as before |
| FatTheorems.DotsAreBlank | kernel/fat.c:290-316 | a dot entry is found only by the blank names the formatter gives those entries |
| FatTheorems.DeletedDotBreaks | kernel/fat.c:561-594 | a deleted dot entry leaves a volume that no choice of chains makes well formed |
| FatTheorems.ListedNameFindsSlot | kernel/fat.c:370-382 | looking up a tidy listed name finds the very slot it was listed from |
| FatTheorems.ListedNamesDiffer | kernel/fat.c:351-384 | no two listed entries have the same stored name |
| FatTheorems.ListingBytes | kernel/fat.c:341-385 | by the bytes of the entries: what is listed is neither free, deleted nor a volume label and all else is; name, attribute and size are those of the entry |
| FatTheorems.WrittenIsListed | kernel/fat.c:341-385 | what a write left is listed exactly once, with its name, attribute 0 and its size |
| FatTheorems.FolderIsListed | kernel/fat.c:341-385 | a directory is listed exactly once in the root, with the directory attribute |
| FatRuns.DeleteKeepsIff | kernel/fat.c:549-595 | a delete keeps the volume well formed if and only if it does not find a dot entry that passes for an empty directory |
| FatRuns.StepKeepsIff | kernel/fat.c:458-663 | every write, delete and mkdir, successful or not, leaves a volume that some choice of chains makes well formed if and only if a condition on the volume before the call holds |
| FatRuns.RunsKeepIff | kernel/fat.c:458-663 | every volume of a run is well formed if and only if each call of it meets that condition |
| FatRuns.StepIsApply | kernel/fat.c:458-663 | each call updates the map of directories and files as stated, succeeds only where that is possible, and a delete just where it is |
| FatRuns.RunIsFold | kernel/fat.c:387-663 | after any such run every path reads as the updates applied in order say |
| FatRuns.ListedNamesWork | kernel/fat.c:341-385 | over every such run that stores names without blanks, every listed name but those of the dots finds the slot it was listed from |
| FatStart.FormattedFs | scripts/mkfs.py:95-124 | a formatted volume, as a map, is the three system directories and no file, all with tidy names |
| FatStart.FormattedResolve | kernel/fat.c:319-339 | on a formatted volume exactly the names that are "bin", "sys" and "home" but for case resolve, to clusters 2, 3 and 4 |
| FatStart.FormattedDotDelete | kernel/fat.c:561-591 | on a formatted volume deleting "." in BIN reports success and breaks the volume |
| Mkfs.ConvergeFat | scripts/mkfs.py:51-63 | the sizes accepted are exactly 16 to 256 MB; for those the loop gives one table sector per MB, an entry to every cluster, and cluster numbers below 0xFFF0 |
| Mkfs.PadAgrees | scripts/mkfs.py:44-46 | formatter and driver store a name alike when its base has at most eight characters |
| Mkfs.PadAgreesIff | scripts/mkfs.py:44-46 | on any name they do so if and only if the base fits or the three characters behind the eighth are those behind the dot |
| Mkfs.Format | scripts/mkfs.py:49-129 | for every start sector, formats exactly when the size is accepted and the image is large enough, changing nothing outside the volume, and otherwise leaves the image alone |
| Mkfs.MountAgrees | kernel/fat.c:67-84 | fat_mount computes the cluster count, table and root geometry the formatter chose |
| Mkfs.FormattedMounts | scripts/mkfs.py:75-125 | the formatted disk mounts, holds a volume with both table copies equal, whatever was in the free clusters |
| Mkfs.FormattedIsWellFormed | scripts/mkfs.py:95-124 | that volume is well formed, has BIN, SYS and HOME by name on clusters 2, 3 and 4, and no files |
| HeapBlocks.WantedIsEnough | kernel/heap.c:26-39 | the rounded request is at least the request if and only if it is at most 2^64 - 16 |
| HeapBlocks.AllocGood | kernel/heap.c:40-55 | a request keeps the pool tiled with no two free neighbours |
| HeapBlocks.AllocLive | kernel/heap.c:40-55 | exactly one block is added to those handed out, from free bytes, and it is large enough; all others keep place and size |
| HeapBlocks.RefusedIff | kernel/heap.c:40-56 | a request is refused if and only if no free run of the pool holds a header and the request |
| HeapBlocks.LowestFit | kernel/heap.c:40-41 | the block handed out starts no later than any free run that would do |
| HeapBlocks.AllocUses | kernel/heap.c:42-52 | a request uses up less than 40 bytes more than it asks for, and only what it asks for unless nothing free is left behind it; what was free elsewhere stays free |
| HeapBlocks.PayloadAligned16Iff | kernel/heap.c:40-55 | a payload is 8-byte aligned, and 16-byte aligned if and only if an odd number of the blocks below it have a multiple of 16 for their size |
| HeapBlocks.FirstIsMisaligned | kernel/heap.c:1-24 | the first payload handed out never is 16-byte aligned |
| HeapBlocks.LiveApart | kernel/heap.c:10-14 | blocks handed out do not overlap, headers included |
| HeapBlocks.ReleaseGood | kernel/heap.c:67-76 | a release takes exactly that block away and merges every pair of free neighbours |
| HeapBlocks.HeapDetermined | kernel/heap.c:67-76 | two heaps that hand out the same blocks are equal, whatever their histories |
| HeapBlocks.ReleaseUndoesAlloc | kernel/heap.c:31-77 | releasing what was just handed out restores the heap exactly |
| HeapBlocks.AllReleased | kernel/heap.c:18-24 | the heap is the one initial block if and only if nothing is handed out |
| HeapBlocks.RunsKeepBlocks | kernel/heap.c:31-77 | over every run the pool stays tiled and a block keeps its place and size until it is given back |
| HeapBlocks.RunsRecover | kernel/heap.c:31-77 | a run that has given everything back, in any order, is in its initial state |
| Heap.Heap.Init | kernel/heap.c:18-24 | sets up the one initial block |
| Heap.Heap.Kmalloc | kernel/heap.c:31-57 | the linked search does what HeapBlocks says, returns NULL exactly when it must, and writes no header into a payload handed out |
| Heap.Heap.Kfree | kernel/heap.c:59-77 | the linked coalescing pass does what HeapBlocks says and touches no payload still handed out |
| TcpNet.EnvKeeps | kernel/net.c:496-529 | whatever the network and the peer do, the peer's bytes are a prefix of what was sent and only grow |
| TcpNet.EnvRunKeeps | kernel/net.c:496-529 | the same over any number of steps, after a failed send too |
| TcpNet.AckTestSoundIff | kernel/net.c:513 | the acknowledgment test tells a full acknowledgment from older ones if and only if the sequence numbers have not wrapped |
| TcpClient.ConnectKeeps | kernel/net.c:462-494 | connecting ends with both sides agreed on where the streams start, or with nothing delivered |
| TcpClient.AllKeeps | kernel/net.c:496-529 | a send that is ready, from any chunk on, keeps the client in step; on success the peer holds exactly what was delivered before and then the data, otherwise a beginning of that |
| TcpClient.RecvdHears | kernel/net.c:531-574 | a receive returns the next piece of the peer's stream, moves by just what was taken and acknowledges no more |
| TcpWaits.WaitedIff | kernel/net.c:436-460 | over the script of events: what a wait delivers, and where it ends |
| TcpWaits.ConnectedIff | kernel/net.c:475-493 | connecting succeeds if and only if one of its waits, each after one more SYN, brings a SYN-ACK for the next number |
| TcpWaits.SentChunkIff | kernel/net.c:505-524 | a chunk counts as delivered if and only if one of its waits, each after sending it once more, brings an acknowledgment not below its end |
| TcpWaits.AckSwallows | kernel/net.c:514-519 | data in order that comes along with that acknowledgment is passed over, other data is not |
| TcpWaits.RecvdWaits | kernel/net.c:545-572 | a receive goes on through quiet waits and segments out of order, each of the latter answered by an acknowledgment of the current position |
| TcpWaits.RecvdGets | kernel/net.c:545-562 | after fewer such waits than there is time for, the next piece of the stream is returned when a wait brings it |
| TcpWaits.RecvdEnds | kernel/net.c:564-568 | and so is the end of the stream |
| TcpWaits.RecvdFailsIff | kernel/net.c:537-574 | a receive returns -1 if and only if all its waits are idle or a reset comes after idle ones |
| Tcp.Socket.Connect | kernel/net.c:462-494 | success means both sides agree on where both streams start, and the SYN is acknowledged |
| Tcp.Socket.Send | kernel/net.c:496-529 | from every state: as long as every send begins with the bytes outstanding from a failed one and wraps no sequence number, retries included, success means the peer holds exactly what was delivered before and then the data, and in any case it holds a beginning of that; no segment acknowledges more than was taken |
| TcpTheorems.SuccessMeansDeliveryIff | kernel/net.c:503-518 | for every client in step and all data: over all scripts of events success means delivery if and only if the data begins with the outstanding bytes and no sequence number wraps |
| TcpTheorems.UnreadyIsFooled | kernel/net.c:513 | in every other case, a run in which tcp_send returns 0 and the peer does not hold the data |
| TcpTheorems.WrappedSendIsFooled | kernel/net.c:503-518 | an instance past a wrap: tcp_send returns 0 and the peer received nothing |
| TcpTheorems.RetriedSendIsFooled | kernel/net.c:503-518 | an instance after a failed send: tcp_send returns 0 for a byte the peer never received |
| Tcp.Socket.Recv | kernel/net.c:531-574 | data returned is the next piece of the peer's stream, 0 its end, and the position moves by just what was taken, which the last segment sent acknowledges |
| TcpTheorems.ReadingIsStream | kernel/net.c:549-562 | successive results with room for their segments are a gap-free piece of the peer's stream without repeats |
| TcpTheorems.ZeroMeansAll | kernel/net.c:564-568 | a result of 0 with room means the whole rest of the stream was delivered |
| TcpTheorems.NothingAfterFin | kernel/net.c:557-563 | once the FIN was taken every later call returns -1 |
| TcpTheorems.EndReportedIff | kernel/net.c:549-568 | with room, once the FIN was taken every byte has been returned, and some result is 0 if and only if the result that took the FIN took no data |
| TcpTheorems.EndIsMissed | kernel/net.c:557-563 | for every client with bytes still to come, a run that returns them, takes the FIN with them, and is followed by -1 whatever happens |
| TcpTheorems.NoRoomLooksLikeEnd | kernel/net.c:549-562 | with no room for data a segment is reported as 0 and its bytes are passed over |
| SegFrames.SegIsHeard | kernel/net.c:413-460 | a segment sent as a frame is heard by the one it is addressed to as the same segment |
| SegFrames.StepsFit | kernel/net.c:462-574 | connecting, sending and receiving send only segments whose numbers and length fit a frame, whatever the network does |
| Checksum.FoldIs | kernel/net.c:65-67 | folding computes the residue modulo 65535, with 0 only for 0 |
| Checksum.SumMeans | kernel/net.c:54-69 | the folded sum is congruent to the word sum and zero only for all-zero input |
| Checksum.WordSumBytes | kernel/net.c:54-64 | the words are big-endian: bytes at even offsets count 256 times, an odd last one too |
| Checksum.OddIsPadded | kernel/net.c:62-64 | an odd number of bytes sums as if a zero followed |
| Checksum.FilledChecks | kernel/net.c:187-195 | a message with its checksum put into its zeroed field sums to zero |
| Checksum.ChecksumOf | kernel/net.c:54-69 | the 32-bit loop is right for every input up to 131074 bytes |
| Checksum.TcpSum | kernel/net.c:389-409 | equals the checksum of the pseudo-header followed by the segment, odd lengths included |
| Frames.IpHeaderChecks | kernel/net.c:180-195 | every header built sums to zero |
| Frames.SegmentChecks | kernel/net.c:420-432 | every segment built sums to zero with its pseudo-header |
| Frames.RoundTrip | kernel/net.c:413-460 | a frame is read back by the one it is addressed to as the same sequence number, acknowledgment, flags and payload, with any padding and any leftover buffer contents |
| Frames.HeardOnlyBy | kernel/net.c:210-222 | a frame is heard only with its own protocol, address and ports, and only whole |
| Frames.OptionsSkipped | kernel/net.c:212-222 | by the bytes of the packet: options of either header are skipped and what follows is heard |
| Frames.IpFrameBytes | kernel/net.c:71-195 | at byte offsets: destination, source and type, version, length, identification, flags, 64 hops, protocol, addresses and payload |
| Frames.TcpFrameBytes | kernel/net.c:413-434 | at byte offsets: ports, numbers, flags, window 0xFFFF, data, and a checksum that is right |
| Frames.Sender.IpSend | kernel/net.c:170-197 | hands over exactly the specified frame, with the bytes of IpFrameBytes, to the gateway from our own address, or nothing when it is too long for the card; the packet counter moves on |
| Frames.Sender.TcpTx | kernel/net.c:413-434 | hands over one frame with the segment, with the bytes of TcpFrameBytes, for every payload up to 1460 bytes and refuses longer ones |
| Dns.Encode | kernel/net.c:300-332 | succeeds for exactly the names without an empty or oversized stretch between dots, one trailing dot apart, and of at most 494 bytes; the labels a reader finds in the query, joined by dots, are the name less a trailing dot; header and end are given byte by byte |
| Dns.LabelsJoin | kernel/net.c:308-325 | the labels of a name, joined by dots, are the name less one trailing dot |
| Dns.AskableIff | kernel/net.c:316-318 | the labels exist and fit if and only if the name meets that condition |
| Dns.SkipWire | kernel/net.c:349-351 | the skipping loop stops at the terminating zero of encoded labels and meets exactly those labels |
| Dns.SkipQuestion | kernel/net.c:347-352 | skipping the question of an encoded query lands exactly at its end |
| Dns.ScanRecords | kernel/net.c:353-379 | reading records of any kind gives the address of the first A record, or nothing when there is none |
| Dns.PointerIff | kernel/net.c:356-363 | a record name is skipped as a pointer exactly when its two high bits are set |
| Dns.ReplyIsRead | kernel/net.c:347-379 | so does reading a whole reply to an encoded question |
| Dns.Read | kernel/net.c:347-379 | the parser's loops compute that and end on every byte string |
| RxRing.Ring.Hardware | kernel/e1000.c:115-131 | one hardware fill step keeps the ring's state consistent at every point inside the driver |
| RxRing.Ring.Recv | kernel/e1000.c:206-230 | returns the oldest frame not yet returned, with the length the hardware gave it cut at 2048, and always when one is there, under any interleaving |
| RxRing.Ring.RingState | kernel/e1000.c:221-223 | after each call RDT is one behind the current descriptor and the descriptors marked done are exactly those from there up to RDH |
| RxRing.Ring.FirstInFirstOut | kernel/e1000.c:206-230 | the frames returned are a prefix of the frames filled, each once and in order |
| EditText.UpMeans | kernel/edit.c:357-372 | up moves one line, to the same column or the end of a shorter line |
| EditText.DownMeans | kernel/edit.c:374-393 | down likewise |
| EditText.UpThenDown | kernel/edit.c:357-393 | up and then down is the identity if and only if the line above is long enough for the column |
| EditText.DownThenUp | kernel/edit.c:357-393 | down and then up likewise |
| EditText.PosIs | kernel/edit.c:170-177 | row and column determine the offset |
| EditText.BackspaceUndoes | kernel/edit.c:135-159 | a backspace undoes an insertion |
| EditText.LinesJoin | kernel/edit.c:170-177 | the lines hold no newline and, joined by newlines, are the text |
| EditText.TypingInserts | kernel/edit.c:135-146 | typing any bytes puts them in at the cursor in order, as far as there is room, and moves the cursor behind them |
| EditText.BacksRemove | kernel/edit.c:148-159 | any number of backspaces takes out that many characters before the cursor, as far as there are any |
| EditText.ArrowsMove | kernel/edit.c:395-404 | left and right move by one, stop at the ends, and undo each other elsewhere |
| EditText.EndsStay | kernel/edit.c:357-393 | up on the first line and down on the last leave the cursor where it is |
| EditText.KeysKeep | kernel/edit.c:351-430 | only characters and backspaces change the text, and only a save with success what counts as saved |
| EditText.OpenedIs | kernel/edit.c:332-346 | loading takes the first 32767 bytes and puts the cursor behind them |
| EditText.CleanMeansSaved | kernel/edit.c:252-287 | over every key sequence, without the dirty mark the text is the one last saved or loaded, cut at 32767 bytes |
| EditText.DirtyIff | kernel/edit.c:135-287 | over every key sequence the dirty mark is set if and only if some change was not followed by a save with success |
| EditText.QuitIsMeant | kernel/edit.c:419-424 | the editor is left with unsaved changes only by two ^X in a row, ignored keys aside |
| EditText.QuitLeavesIff | kernel/edit.c:419-424 | ^X leaves the editor if and only if nothing is unsaved or the key before was ^X too, ignored keys aside |
| Editor.Editor.Insert | kernel/edit.c:135-146 | the shifting loop inserts at the cursor, or does nothing when the buffer is full |
| Editor.Editor.Backspace | kernel/edit.c:148-159 | the shifting loop removes the character before the cursor |
| Editor.Editor.MoveUp | kernel/edit.c:357-372 | the scanning loops find the offset one line up |
| Editor.Editor.MoveDown | kernel/edit.c:374-393 | the scanning loops find the offset one line down |
| Editor.Editor.Redraw | kernel/edit.c:162-221 | afterwards the cursor's line is one of the 24 shown, each row shows its line cut to 80 columns, and the window has moved only as far as it had to |
| Editor.Editor.Edit | kernel/edit.c:351-430 | over every key sequence the buffer follows the state machine and the screen is up to date after every key |
| EditorFile.SavesWhereLoaded | kernel/edit.c:252-323 | a save goes to the place the file was loaded from, or nowhere, the latter if and only if the path has no leading slash or names no file in a directory; the cut of the kept path does not matter |
| EditorFile.PathMeans | kernel/edit.c:252-323 | a path of a slash, a directory, a slash and a file leads to that directory and file |
| EditorFile.SessionSaves | kernel/edit.c:252-287 | over every session whose saves keep the volume well formed, the file is the text as last saved, or what was there at first, and no other file has changed |
| EditorFile.CleanReadsBack | kernel/edit.c:252-349 | in such a session a clean editor means the path reads back as the text, once it was saved or loaded whole, and otherwise that nothing was written |
| EditorFile.TypedIsSaved | kernel/edit.c:252-349 | opening a place, typing and saving with success: the path then reads back what was there followed by what was typed |
| EditorFile.CleanSaveKeeps | kernel/fat.c:478-500 | a save of text no longer than the file it replaces always fits and keeps the volume well formed |

## Left out

- FatDriver.Driver.Write: needs the length plus one cluster below 2^32, where the source's rounding would wrap.
- FatDriver.Driver.Read: the branches for a chain shorter than the file's size are left out, as they cannot be taken on a well-formed volume; allocation failure is a parameter.
- Disk errors: reads and writes of sectors always succeed, so the error paths of the FAT code are not modelled.
- Volumes with 65519 or more clusters, or with a table too small for them: excluded by `FatDisk.LayoutOk`, since the walkers stop at 0xFFF0. The formatter makes none.
- FatTheorems.DeletedFile: entries other than dot entries only; for those see FatRuns.DeleteKeepsIff.
- The volume label, the image file itself and the argument parsing of the formatter; it takes start sectors that are not negative, and the results about mounting are for sector 2048, where the kernel looks.
- Heap.Heap.Kfree: only for NULL and payloads that are handed out; anything else is undefined in the source too.
- Tcp.Socket.Recv: bytes that `tcp_send` swallowed along with an acknowledgment are not delivered; the stream is stated from the position reached by then.
- TcpTheorems.SuccessMeansDeliveryIff: about clients in step; a send that is not ready can leave the client out of step with its peer, and nothing is promised for sends after it.
- tcp_close, ARP and the choice of ports: thin. Deadlines are scripts of events or numbers of waits rather than time.
- Frames.Sender.IpSend: the transmit ring is not modelled; a frame is handed over when the card accepts its length.
- Frames.IpFrameBytes: headers with options are not built by the client; for reading them see Frames.OptionsSkipped.
- Dns.ReplyIsRead: records whose names mix labels and a pointer are outside the statement; sending, retries and matching the transaction are left out.
- RxRing.Ring.Recv: buffer allocation and the registers other than RDH and RDT are left out; a fill is one step.
- Editor.Editor.Redraw: the status bar and the colours are left out.
- Editor.Editor.Edit: starts from decoded keys; whether the file system takes a save is part of the event, which EditorFile ties to the driver's outcome.
- kernel/vfs.c, kernel/shell.c, kernel/wget.c: would only add easy members.
