# A verified model of the KarnixSOC firmware

This project states in Dafny what the storage, transfer, drawing, sound, USB, network and game code of the KarnixSOC
firmware does, and proves what it is meant to guarantee. `dafny verify dfyconfig.toml` checks all of it.

## What is modelled

**The FAT32 driver** (`karnix_monitor/src/fat.c`), in layers that follow its own:

| modules | subject |
|---|---|
| `Bytes`, `Arith`, `Chain` | bytes and sectors; cluster chains as a theory of the table alone |
| `Layout`, `FatVolume`, `Allocator` | where things are on a volume; the class `Fat` with its one write-back buffer; every entry read and write, allocation, release; runs of allocations |
| `LongName`, `Records`, `Names` | short and long entries; a directory as a list of records, and what lookup, insertion and removal mean on it; directories in which no name hides another |
| `DirLayout`, `DirGrow`, `Directory` | where the entries of a directory lie; growing it; the class `Dir` |
| `Unlink`, `Creating` | deleting and creating |
| `FileBytes`, `Files`, `Sessions`, `Interleaving` | the bytes of a chain; the class `File` with its own sector buffer; whole sequences of calls; two files in use at once |
| `Sparing`, `Bystanders` | what happens to all other chains and files, also when an operation stops half way |
| `Folder`, `Jobs` | a directory as a map from names to bytes; whole runs of files opened, used, closed and deleted |

The card behind the driver is `Disk`: reads and writes of single sectors, each of which may fail; a failed write leaves
the card as it was. A *volume state* is what the card would hold if the buffer were written now (`Fat.Now`). The ghost
history of `Fat` records every volume state and every state of the card, and `Ordered` says that the card only moves
forward through the history. That is what a power cut can leave, and it is what the crash clauses (`AllSafe`,
`SafeOnCard`, `CrashSafe`) speak of. The hints in FSInfo, the second table, and the buffer's eviction between the two
writes of an entry are all in the model.

An open file is a byte array with a cursor (`Sessions.Tape`). `Sessions.Use` proves that any sequence of seeks, reads,
writes and syncs answers like it, `Interleaving.UseBoth` that two files used in turns answer like two. A directory is a map
from names to bytes (`Folder.Contents`). `Jobs.RunJobs` proves that any sequence of files opened or made, used, closed
and deleted by name does to that map what it should, that a job that fails harms no file but its own, and that none fails when the jobs fit,
enough clusters are free and the card takes every transfer. `Disk.refused` counts the transfers it did not take; from the
cache upwards every I/O error is a refused transfer, and every other error has its exact reason.

A failed read is the one thing after which the driver cannot be trusted: it has overwritten the buffer, but the number of
the sector the buffer stood for is still there. `Fat.Trusted` is the exact condition under which a request is answered
from the volume. The cache and table operations are described for all states; the operations above them ask that their
first request be trusted, and say which one that is.

**ZMODEM** (`karnix_monitor/src/zmodem.c`): `ZmCrc` and `ZmFraming` (checksums, escapes, subpackets, positions as
functions on what is on the line), `ZmPort` (the loops that compute them), `ZmReceive` (the receiver against any
sequence of headers and subpackets, and which of them bring a file).

**One module each**: `Blit` and `Line` (`cga.c`), `Audio` (`audiodac.c`), `Usb` (the control transfer of `usb10.c`,
against a device and a bus that loses packets, section 8.6 of the USB 2.0 specification), `Tetris` (`tetris.c` and the
loop of `main.c`), `Mac` (`mac.c`).

Numbers the code keeps in 32 bits are bounded where a wrap could matter, and the words of the frame buffer, of the
network and of the checksums are bit vectors. Unspecified values (an uninitialised buffer, the result of a failed
transfer) are arbitrary.

## Where the code does not do what one would expect

Each of these is stated as it is, with the exact condition where there is one.

- `remove_chain` on cluster 0 or 1 counts a reserved entry as a free cluster (`Chain.EraseCountIff`).
- `dir_next` finds a cluster boundary by a mask on the sector number, which is right if and only if the data area is
  aligned to the cluster size (`DirLayout.BoundaryTestIff`).
- After a failed read, the next request for the sector held before is answered with what the failed read left in the
  buffer, and a change to it is written over that sector. A request is answered right if and only if it is not that one
  (`FatVolume.Fat.UpdateBuf`, `FatVolume.Fat.PutAfterFailedRead`).
- `fat_file_write` reports success whatever happens after it has begun: the error stays in a variable of the loop. The
  report is true of a write that ends inside the sector of the cursor, and false, whatever the card does, of one that
  ends past 32 bits or past the clusters the file has or could get; one that fills the last cluster of a full volume to
  its end is such a write (`Files.File.Write`, whose `done` and `why` the driver does not return).
- A failing probe inside the scan of `stretch_chain` returns a flag word instead of the error. An allocation succeeds
  without a cluster exactly when the first probe of a new chain fails and the uninitialised flag word is 0 (`lost` of
  `FatVolume.Fat.StretchChain`, `FatVolume.Fat.FindFree`).
- `dir_at_root` holds for the first entry of the root directory itself, so that entry cannot be deleted
  (`Unlink.RootStart`).
- A directory without an end marker that is otherwise empty cannot be deleted: the search for live entries ends with
  EOF (`Unlink.CheckEmpty`).
- A read that ends at the very end of the last cluster of a file goes on to the next sector: it appends a cluster to the
  file, and on a full volume it fails with FULL although every byte was there (`Files.File.Read`).
- `sfn_char` takes digits for characters that must be replaced: `FILE1.TXT` has the short name `FILE_.TXT`
  (`LongName.SfnCharIs`).
- `fat_unlink` frees the clusters before it marks the entry. If power goes in between, the directory lists a file whose
  first cluster is free and may be the next one to be allocated (`Unlink.FreeClusters`, `Folder.CutWhileUnlinking`).
- `dir_add` writes a record from its first entry on, sector by sector. A card on which it has been cut short answers every
  search that does not succeed before that place with BROKEN: names behind it cannot be reached, and no new one can be
  made (`Names.TornSearch`).
- `audiodac0_submit_buffer` fills the ring to the brim when the write pointer is not behind the read pointer, and a full
  ring reads as empty; samples are kept if and only if the condition of `Audio.SubmitIff` holds.
- The SETUP data goes out as DATA1 after an odd number of garbled answers, although section 8.5.3 of the USB 2.0
  specification asks for DATA0. For an endpoint other than 0 the code presets one toggle and reads another
  (`Usb.SetupStage`).
- The data stage stores eight bytes for every packet, so a response buffer of just the size asked for is overrun unless
  that is a multiple of 8 (`Usb.WholePackets`, `Usb.Host.DataStage`).
- `cga_bitblit` flushes an uninitialised word to an uninitialised place for an image without pixels, or a frame without
  any, exactly when the tests for lying outside let it through (`Blit.Bitblit`).
- `mac_rx` runs past a receive buffer of length zero exactly when one comes before the end of the frame
  (`Mac.OverrunIff`).
- `zrdata` stores one byte more than its limit before it refuses a long subpacket (`ZmFraming.TooLongRefused`).
- `draw_pixel` lets one word behind the screen through (`Line.PlotIs`).
- `newGame` does not clear the arena; its caller does (`Tetris.Game.NewGame`).

## Model

| member | source | states |
|---|---|---|
| Chain.ChainUnique | src/main/c/karnix/karnix_monitor/src/fat.c:297-326 | a cluster starts at most one chain |
| Chain.ChainNoDup | src/main/c/karnix/karnix_monitor/src/fat.c:360-388 | a walk that reaches an end-of-chain value never meets a cluster twice: proper chains are acyclic |
| Chain.EraseChain | src/main/c/karnix/karnix_monitor/src/fat.c:360-388 | releasing a proper chain zeroes exactly its clusters, all of them, counts each once, and succeeds |
| Chain.EraseOkHasChain | src/main/c/karnix/karnix_monitor/src/fat.c:360-388 | the release succeeds if and only if the start has a proper chain, on any table, also a cyclic one |
| Chain.EraseCycleFails | src/main/c/karnix/karnix_monitor/src/fat.c:360-388 | if the links from the start come back to a cluster the release fails |
| Chain.EraseCount | src/main/c/karnix/karnix_monitor/src/fat.c:360-388 | the number of free data clusters grows by exactly what was counted, also when the release fails half way |
| Chain.EraseCountIff | src/main/c/karnix/karnix_monitor/src/fat.c:360-388 | after a successful release the count is right if and only if it started at a data cluster, not at a reserved entry |
| Chain.ScanResult | src/main/c/karnix/karnix_monitor/src/fat.c:416-434 | the wrapping probe ends, finds a free cluster between its start and the last allocated one if there is any, and none otherwise |
| Chain.ChooseResult | src/main/c/karnix/karnix_monitor/src/fat.c:399-434 | FULL is reported exactly when every cluster but the last allocated one is taken (and that one is not the free one behind the tail) |
| Chain.AllocNoDangling | src/main/c/karnix/karnix_monitor/src/fat.c:436-447 | where every used cluster leads to an end of chain, no entry links to a free cluster |
| Chain.AllocNoBroken | src/main/c/karnix/karnix_monitor/src/fat.c:436-447 | a sound table has no broken value, so no allocation and no walk on it can end as BROKEN |
| Chain.TakenFew | src/main/c/karnix/karnix_monitor/src/fat.c:399-434 | an allocation that finds nothing leaves at most one cluster free, the one allocated last |
| Chain.FreeHead | src/main/c/karnix/karnix_monitor/src/fat.c:360-388 | taking the first link off a chain nothing links to leaves no dangling and no double link, and again a chain nothing links to |
| Chain.LinkSafe | src/main/c/karnix/karnix_monitor/src/fat.c:436-447 | after each of the two entry writes of an allocation no entry links to a free cluster |
| Chain.LinkedChain | src/main/c/karnix/karnix_monitor/src/fat.c:436-447 | the chain that ended at the tail ends at the new cluster; every other chain is as before |
| Chain.LinkedAllocOk | src/main/c/karnix/karnix_monitor/src/fat.c:391-453 | linking a free cluster keeps all chains acyclic, ended and disjoint, and takes one cluster off the free ones |
| Chain.ChainsDisjoint | src/main/c/karnix/karnix_monitor/src/fat.c:360-453 | chains that nothing links into share no cluster |
| Chain.ErasedAllocOk | src/main/c/karnix/karnix_monitor/src/fat.c:360-388 | releasing one such chain keeps the allocator sound and every other such chain |
| Layout.CellAfterPut | src/main/c/karnix/karnix_monitor/src/fat.c:329-344 | storing an entry changes that entry below its upper nibble and no other entry |
| Layout.AfterPutBoth | src/main/c/karnix/karnix_monitor/src/fat.c:347-357 | put_fat changes one entry in both copies alike, keeps each copy's upper nibbles and everything else; in between, the active copy is the old or the new one |
| Layout.AfterPuts | src/main/c/karnix/karnix_monitor/src/fat.c:297-357 | after any sequence of put_fat calls both copies give back, for every cluster, the value last put, agree if they agreed before, and keep their own upper nibbles |
| Layout.AfterPutInfo | src/main/c/karnix/karnix_monitor/src/fat.c:276-284 | the FSInfo hints read back from offsets 488 and 492, where FAT32 has them, and the tables do not notice them |
| Layout.DataKeepsTables | src/main/c/karnix/karnix_monitor/src/fat.c:232-235 | writing data sectors changes no table value |
| FatVolume.Disk.Write | src/main/c/karnix/karnix_monitor/src/fat.c:242-243 | the card behind the callback: a write succeeds and shows, or fails and changes nothing |
| FatVolume.Fat.SyncBuf | src/main/c/karnix/karnix_monitor/src/fat.c:238-248 | writes the buffer back if it is dirty, and fails only if the card refuses that write; what the volume means does not change; after success the card is it; the card only moves forward through the states meant so far |
| FatVolume.Fat.UpdateBuf | src/main/c/karnix/karnix_monitor/src/fat.c:251-266 | the buffer holds the wanted sector of the volume as it is meant, evicting what it held; after a failed read that is so for every request except one for the sector held before, which is answered at once with what the failed read left; it fails only if the card refuses a transfer |
| FatVolume.Fat.SyncFs | src/main/c/karnix/karnix_monitor/src/fat.c:269-294 | in every state: after success everything meant is on the card, with the hints, when they had changed, in FSInfo as the request finds it |
| FatVolume.Fat.GetFat | src/main/c/karnix/karnix_monitor/src/fat.c:297-326 | in every state: the value is that of the table as the request finds it, with the right flags; it is that of the volume as it is meant unless the sector is the one a failed read has spoiled; a value that is no kind of entry is reported broken |
| FatVolume.Fat.PutFat2 | src/main/c/karnix/karnix_monitor/src/fat.c:329-344 | in every state: one entry of one copy is changed in the volume as the request finds it |
| FatVolume.Fat.PutFat | src/main/c/karnix/karnix_monitor/src/fat.c:347-357 | both copies are changed, the mirror first; an error leaves the state before it or between the two; after a failed read the leftovers in the buffer may become part of it |
| FatVolume.Fat.PutAfterFailedRead | src/main/c/karnix/karnix_monitor/src/fat.c:251-266 | the input on which that goes wrong: a failed read left zeroes, the next request changes an entry of the table sector held before; no error is reported, another cluster in use is free now, and a link to it dangles; writing back puts that on the card |
| Sparing.TakingSpares | src/main/c/karnix/karnix_monitor/src/fat.c:436-447 | an allocation behind a tail, also one that stops after its first write, keeps the table sound and every other chain of a head |
| Sparing.FreeingStep | src/main/c/karnix/karnix_monitor/src/fat.c:360-388 | so does every turn of a release: the second cluster of the chain becomes the one nothing links to |
| FatVolume.Fat.FreeOne | src/main/c/karnix/karnix_monitor/src/fat.c:366-387 | one turn of the release: the link is read before the entry is zeroed; with no link to the cluster, no state of the card dangles |
| FatVolume.Fat.RemoveChain | src/main/c/karnix/karnix_monitor/src/fat.c:360-388 | ends on every table; tables and free count become what the release of the chain comes to, all on the card; no state a power cut could leave has a link to a free cluster, when nothing links to the start; wherever it stops, the table stays sound and every other chain what it was |
| FatVolume.Fat.FindFree | src/main/c/karnix/karnix_monitor/src/fat.c:416-434 | finds what the scan finds or reports FULL; a failing read or broken value is answered with a flag word: at the first probe whatever was there before, later exactly that of the cluster probed before |
| FatVolume.Fat.PickCluster | src/main/c/karnix/karnix_monitor/src/fat.c:399-434 | the cluster behind the tail if it is free, else the first free one the scan meets |
| FatVolume.Fat.LinkBehind | src/main/c/karnix/karnix_monitor/src/fat.c:436-447 | marks the new cluster as an end before it links the tail to it |
| FatVolume.Fat.StretchChain | src/main/c/karnix/karnix_monitor/src/fat.c:391-453 | appends the chosen free cluster to the tail, updates the hints, all on the card; FULL changes nothing; with a card that takes every transfer and a sound table it fails exactly with FULL, when there is none to choose, and BROKEN exactly answers a broken table value; an allocation is lost exactly when the first probe fails and the uninitialised flag word is 0; wherever it stops, at most the one cluster has been taken; no state a power cut could leave has a link to a free cluster |
| FatVolume.Fat.SafeOnCard | src/main/c/karnix/karnix_monitor/src/fat.c:238-266 | prefix order put to use: when no meant state dangles, neither does the card now nor after any of its writes |
| FatVolume.Fat.WriteRaw | src/main/c/karnix/karnix_monitor/src/fat.c:1525 | a file handle's write past the cache shows in what the volume means and leaves the order of everything else |
| FatVolume.Fat.ClustClear | src/main/c/karnix/karnix_monitor/src/fat.c:462-482 | exactly the sectors of the cluster are zero afterwards, straight through the buffer |
| FatVolume.OrderedRaw | src/main/c/karnix/karnix_monitor/src/fat.c:1525-1530 | writes past the cache keep the prefix order of all other sectors |
| FatVolume.OrderedSynced | src/main/c/karnix/karnix_monitor/src/fat.c:238-248 | writing the buffer back brings the card to the last meant state and keeps the order |
| FatVolume.PutKeepsSafe | src/main/c/karnix/karnix_monitor/src/fat.c:347-357 | put_fat extends a history without dangling links by states without them |
| Allocator.AllocatesKeeps | src/main/c/karnix/karnix_monitor/src/fat.c:391-459 | an allocation keeps the allocator sound (chains acyclic, disjoint, ended; mirrored; free counter right; last_used in range); it takes a free cluster and changes only the tail's chain |
| Allocator.ReleasesKeeps | src/main/c/karnix/karnix_monitor/src/fat.c:360-388 | so does a release of a chain nothing links to, which succeeds exactly when the cluster is in use, and keeps every other such chain |
| Allocator.FormattedSound | src/main/c/karnix/karnix_monitor/src/fat.c:391-459 | a volume with nothing but a root directory in cluster 2 is sound, so the invariant has a start |
| Allocator.RunSound | src/main/c/karnix/karnix_monitor/src/fat.c:360-459 | over any run of allocations and releases the allocator stays sound |
| LongName.PutSfnName | src/main/c/karnix/karnix_monitor/src/fat.c:597-632 | the 11 bytes are the upper-cased, filtered, space-padded base and extension |
| LongName.SfnCharIs | src/main/c/karnix/karnix_monitor/src/fat.c:597-613 | letters become capitals, the 17 special characters stay, everything else becomes an underscore, the digits too |
| LongName.ShortTextOf | src/main/c/karnix/karnix_monitor/src/fat.c:615-650 | a name of at most eight and three characters that need not be replaced is read back from its own short name |
| LongName.SfnNotFree | src/main/c/karnix/karnix_monitor/src/fat.c:597-632 | no short name can be read as a free entry or as the end marker |
| LongName.GetCrc | src/main/c/karnix/karnix_monitor/src/fat.c:184-190 | the loop computes the checksum of the 11 bytes that LongName.ChecksumIs is about |
| LongName.ChecksumIs | src/main/c/karnix/karnix_monitor/src/fat.c:184-190 | the checksum is what eleven steps end with, in each of which every bit goes one place down, the lowest to the top, and the next byte is added modulo 256 |
| LongName.ChecksumOfReadme | src/main/c/karnix/karnix_monitor/src/fat.c:184-190 | the short name README.TXT has the checksum 0x73 that other systems write |
| LongName.PutLfnNameFrag | src/main/c/karnix/karnix_monitor/src/fat.c:652-672 | a fragment lies at the 13 places, ended by a zero and filled with 0xff, nothing else of the entry changes |
| LongName.UnitsStored | src/main/c/karnix/karnix_monitor/src/fat.c:652-672 | the 13 characters are 16-bit units at the places where FAT32 has them, 5, 6 and 2 of them, with a zero and 0xffff behind |
| LongName.FragReadsBack | src/main/c/karnix/karnix_monitor/src/fat.c:652-722 | reading a written fragment gives back its characters |
| LongName.BuildLfn | src/main/c/karnix/karnix_monitor/src/fat.c:1003-1024 | one long entry of the run: fragment, number, head bit, checksum |
| LongName.BuildSfn | src/main/c/karnix/karnix_monitor/src/fat.c:1028-1047 | the short entry holds name, attribute, start cluster, size zero, and the times of its making where FAT32 has them |
| Records.SearchIsLookup | src/main/c/karnix/karnix_monitor/src/fat.c:675-777 | on well-formed directories dir_search, with its shared name buffer, finds what a direct reading of the records finds |
| Records.RunIsGood | src/main/c/karnix/karnix_monitor/src/fat.c:675-722 | long-name round trip: the reversed run written for any name of 1..255 bytes without 0x00 and 0xff is parsed back to that name, its checksum fits, no entry looks free |
| Records.SlotIsGood | src/main/c/karnix/karnix_monitor/src/fat.c:949-984 | the place dir_add settles on is a stretch of deleted entries, or reaches past the end marker, and is long enough |
| Records.AddedLookup | src/main/c/karnix/karnix_monitor/src/fat.c:938-1050 | after the run is written the name is found there and every other name is found, or not, as before |
| Records.AddedLookups | src/main/c/karnix/karnix_monitor/src/fat.c:938-1050 | the same for all names at once, and the directory stays well-formed |
| Records.RemovedLookup | src/main/c/karnix/karnix_monitor/src/fat.c:907-935 | after a record is marked free every name not found there is found, or not, as before |
| Records.RemovedLookups | src/main/c/karnix/karnix_monitor/src/fat.c:907-935 | the same for all names at once, and the directory stays well-formed |
| DirLayout.BoundaryTestIff | src/main/c/karnix/karnix_monitor/src/fat.c:514 | dir_next's mask test finds the cluster boundary if and only if the data area is aligned to the cluster size |
| DirLayout.NextSect | src/main/c/karnix/karnix_monitor/src/fat.c:504-532 | where the test leads: the next sector of the directory, in this cluster or the next |
| DirLayout.ChainSectUnique | src/main/c/karnix/karnix_monitor/src/fat.c:232-235 | different positions of a chain are different sectors |
| DirLayout.DirentsPut | src/main/c/karnix/karnix_monitor/src/fat.c:563-566 | writing an entry changes that entry of that directory and no other sector of the data area |
| DirLayout.DirentsExtend | src/main/c/karnix/karnix_monitor/src/fat.c:547-560 | a directory grown by a cleared cluster goes on with end markers |
| DirGrow.StretchDir | src/main/c/karnix/karnix_monitor/src/fat.c:547-560 | growing a directory takes one free cluster, appends it to the chain and touches no data outside it |
| DirGrow.GrowKeepsAlloc | src/main/c/karnix/karnix_monitor/src/fat.c:391-453 | growing one chain any number of times keeps the allocator sound and every chain that ends elsewhere |
| DirGrow.GrownCount | src/main/c/karnix/karnix_monitor/src/fat.c:436-450 | every cluster a chain grows by is one free cluster less, so a right free counter stays right |
| DirGrow.AddedBy | src/main/c/karnix/karnix_monitor/src/fat.c:984-1049 | moved end marker, long entries and short entry together are the added record |
| Directory.Dir.Enter | src/main/c/karnix/karnix_monitor/src/fat.c:493-501 | the handle stands at the first entry; cluster 0 means the root directory |
| Directory.Dir.Next | src/main/c/karnix/karnix_monitor/src/fat.c:504-532 | steps to the next entry, across sectors and clusters; EOF exactly behind the last; the table is read only where a cluster ends |
| Directory.Dir.ReadFrag | src/main/c/karnix/karnix_monitor/src/fat.c:696-712 | copies a fragment into the name buffer, up to its zero; 0xff before it is malformed |
| Directory.Dir.CollectFrags | src/main/c/karnix/karnix_monitor/src/fat.c:690-717 | the loop over fragments does what the parse function says, error cases included |
| Directory.Dir.ParseLfnName | src/main/c/karnix/karnix_monitor/src/fat.c:675-722 | the name, its length and the entry behind it, or the error, are those of the parse function |
| Directory.Dir.SearchName | src/main/c/karnix/karnix_monitor/src/fat.c:725-777 | finds the record, its start and its short entry, or reports EOF or BROKEN, as the search function says; fails otherwise only if the card refuses a transfer; the volume does not change |
| Directory.Dir.NewCluster | src/main/c/karnix/karnix_monitor/src/fat.c:547-560 | allocates and clears one cluster behind the last one of the directory |
| Directory.Dir.NextStretch | src/main/c/karnix/karnix_monitor/src/fat.c:547-560 | steps to the next entry, growing the directory by a cleared cluster at its end |
| Directory.Dir.FindRoom | src/main/c/karnix/karnix_monitor/src/fat.c:949-976 | finds enough consecutive free entries, growing the directory where necessary |
| Directory.Dir.MoveEndMark | src/main/c/karnix/karnix_monitor/src/fat.c:978-989 | puts a new end marker behind the entries to come |
| Directory.Dir.WriteLfns | src/main/c/karnix/karnix_monitor/src/fat.c:1003-1024 | writes the long entries of the name in reverse order |
| Directory.Dir.Place | src/main/c/karnix/karnix_monitor/src/fat.c:978-1049 | the whole record is written and nothing else of the directory |
| Directory.Dir.Add | src/main/c/karnix/karnix_monitor/src/fat.c:938-1050 | dir_add: afterwards the name is found at its entry, which carries the given attribute, cluster and times, and size 0, and every other name is found or not as before, also when deleted runs are reused, the end marker moves or the directory grows; the free count stays right; on a sound table, with a card that takes every transfer and more free clusters than the record can take, it succeeds; failed half way, every other file keeps its chain and its bytes |
| Directory.RoomBound | src/main/c/karnix/karnix_monitor/src/fat.c:949-976 | a directory grows by no more clusters than the entries asked for fill, and one |
| Unlink.RemoveEntries | src/main/c/karnix/karnix_monitor/src/fat.c:907-935 | marks exactly the entries of the record |
| Unlink.CheckEmpty | src/main/c/karnix/karnix_monitor/src/fat.c:1266-1292 | accepts a directory with nothing live behind its first two entries before the end marker, denies one with a live entry; one without end marker runs into EOF |
| Unlink.ReleaseApart | src/main/c/karnix/karnix_monitor/src/fat.c:1295 | releasing the chain frees exactly its clusters and keeps the directory, its entries, all other chains, and a right free count; for a reserved cluster 0 all but the last |
| Unlink.Unlink | src/main/c/karnix/karnix_monitor/src/fat.c:1248-1304 | success frees exactly the chain of the entry, marks exactly its record, only for unprotected entries and empty directories; unless the card refuses a transfer, the answer is the one that is right for the entry; refused, nothing changes; a file entry with start cluster 0 is covered, and spoils only the free count |
| Unlink.OneAnswer | src/main/c/karnix/karnix_monitor/src/fat.c:1248-1304 | for every entry only one answer is right: DENIED for the four reasons, EOF for an otherwise empty directory without end marker, success for all others |
| Unlink.RootStart | src/main/c/karnix/karnix_monitor/src/fat.c:780-786 | dir_at_root is true of a handle on the first entry of the root directory, and of no other |
| Unlink.FreeClusters | src/main/c/karnix/karnix_monitor/src/fat.c:1295 | the first step of a deletion: exactly the clusters of the entry are free, on the card, which lists the name still |
| Unlink.UnlinkName | src/main/c/karnix/karnix_monitor/src/fat.c:1248-1304 | the name is looked up and deleted in the directory given: every search of it afterwards answers as if the record had never been there; unless the card refuses a transfer the answer is EOF for a name that is not there, and else the one that is right for the entry; refused, nothing changes; failed half way, every other file keeps its chain and its bytes |
| Unlink.UnlinkKeepsOthers | src/main/c/karnix/karnix_monitor/src/fat.c:1248-1304 | deleting changes neither chain nor bytes of any file but the deleted one and the directory |
| Bystanders.GrownKeepsOthers | src/main/c/karnix/karnix_monitor/src/fat.c:1417-1542 | writing, seeking and adding names change neither chain nor bytes of any other file, and keep the allocator sound |
| Bystanders.HarmlessTaking | src/main/c/karnix/karnix_monitor/src/fat.c:436-447 | an allocation that stops half way changes neither chain nor bytes of any other file, and keeps the allocator sound |
| Bystanders.HarmlessGrown | src/main/c/karnix/karnix_monitor/src/fat.c:391-453 | so does the growing of a chain by any number of clusters, with any bytes in them |
| FileBytes.AllocatedPut | src/main/c/karnix/karnix_monitor/src/fat.c:1518-1526 | storing a sector of a file replaces its 512 bytes of the file and no others |
| FileBytes.AllocatedExtend | src/main/c/karnix/karnix_monitor/src/fat.c:1495-1516 | a longer chain has the old bytes first |
| FileBytes.ClusterIndex | src/main/c/karnix/karnix_monitor/src/fat.c:1485-1487 | the cluster index of an offset is its sector index divided by the cluster size |
| Files.File.Attach | src/main/c/karnix/karnix_monitor/src/fat.c:1345-1363 | the handle is a byte array of the size in the entry, or empty when truncated, with the cursor at 0 |
| Files.File.FollowOne | src/main/c/karnix/karnix_monitor/src/fat.c:1499-1515 | follows one link, which cannot fail but for the card, or appends a free cluster to the file's chain |
| Files.File.Follow | src/main/c/karnix/karnix_monitor/src/fat.c:1497-1516 | after the loop the cluster is the wanted element of the chain, which has grown only if it was shorter |
| Files.File.Turn | src/main/c/karnix/karnix_monitor/src/fat.c:1521-1539 | a changed sector goes back to its place before another is read; what the handle means does not change |
| Files.File.Seek | src/main/c/karnix/karnix_monitor/src/fat.c:1463-1542 | after success the cluster is element offset / cluster size of the chain, the sector and buffer fit, no byte has changed; EOF exactly for targets outside 32 bits; a seek inside the chain fails only if the card refuses a transfer, and beyond it, on a sound table, only if there are too few free clusters as well; within the sector it cannot fail; one that fails leaves every other file its chain and its bytes |
| Files.ShortBefore | src/main/c/karnix/karnix_monitor/src/fat.c:1493-1516 | too few clusters for a later step are too few for the whole way: what a file has and what is free stay the same in sum |
| Files.File.Read | src/main/c/karnix/karnix_monitor/src/fat.c:1381-1409 | delivers exactly the slice from the cursor up to the length asked for or the size, and changes no byte; fails below the end of the chain only if the card refuses a transfer; a read up to the very end of a chain asks for one more cluster, and may be FULL; after an error, a prefix of it |
| Files.File.Write | src/main/c/karnix/karnix_monitor/src/fat.c:1417-1453 | replaces exactly the bytes from the cursor on and appends past the end; its success report is true of every write that ends inside the sector of the cursor, and false of every one that ends past 32 bits or past the clusters the file has or could get; otherwise the dropped error tells |
| Files.File.Sync | src/main/c/karnix/karnix_monitor/src/fat.c:1548-1585 | after success the card alone holds the file: chain, bytes, and size in its directory entry |
| Files.SyncedEntryReads | src/main/c/karnix/karnix_monitor/src/fat.c:1561-1578 | the entry keeps name and start cluster and states the new size when the file was written to |
| Files.SyncedTimes | src/main/c/karnix/karnix_monitor/src/fat.c:1561-1578 | the times of reading and writing are where FAT32 has them, the archive bit is set by a write, and no other attribute changes |
| Sessions.Start | src/main/c/karnix/karnix_monitor/src/fat.c:1345-1363 | after the first seek, to the start or to the end, a handle is ready: the byte array of the entry, cursor at 0 or at the size |
| Sessions.Use | src/main/c/karnix/karnix_monitor/src/fat.c:1381-1585 | any sequence of seeks, reads, writes and syncs answers as the byte array with a cursor does, up to the first that fails; only the chain, its bytes and the entry change; a right free count stays right; after a sync at the end the card alone holds the content, in the chain and with the size its entry states; on a sound table a call fails only if the card refuses a transfer, a write goes past 32 bits, or there are too few free clusters for how far it goes; one that fails, too, leaves every other file its chain and its bytes |
| Sessions.RunReach | src/main/c/karnix/karnix_monitor/src/fat.c:1381-1542 | no call of a run gets further into the file than its size and the weights of the calls so far: bytes written and forward seeks |
| Sessions.QuietRun | src/main/c/karnix/karnix_monitor/src/fat.c:1381-1542 | between writes the content stays, whatever is sought, read and synced |
| Sessions.ReadsWhatWasWritten | src/main/c/karnix/karnix_monitor/src/fat.c:1381-1453 | what was written is what a later read at the same place delivers, if nothing was written in between |
| Sessions.SyncWorked | src/main/c/karnix/karnix_monitor/src/fat.c:1548-1585 | a sync changes the entry of the file under its name and nothing else |
| Sessions.HeldKept | src/main/c/karnix/karnix_monitor/src/fat.c:391-453 | a growing file never takes a cluster in use, so the sector of its own entry stays what it was |
| Sessions.WorkKeepsOthers | src/main/c/karnix/karnix_monitor/src/fat.c:1381-1585 | after any such sequence every other file has its chain and its bytes, and the allocator is sound |
| Interleaving.NeighbourStays | src/main/c/karnix/karnix_monitor/src/fat.c:1381-1585 | work on one open file leaves the other one, its chain, its bytes, its buffer and its entry, as it was |
| Interleaving.UseBoth | src/main/c/karnix/karnix_monitor/src/fat.c:1381-1585 | two open files used in any order of calls each answer as a byte array of its own, up to the first call that fails; between any two turns there was work on the chain and the entry of the one file and on nothing else; a right free count stays right; after a sync at the end the card alone holds that file; a call fails only where it would on that file alone, and harms no third file |
| Interleaving.RunAlone | src/main/c/karnix/karnix_monitor/src/fat.c:1381-1585 | taken for itself, what happened to either of them is a run of that file alone |
| Creating.CreateFile | src/main/c/karnix/karnix_monitor/src/fat.c:1331-1363 | creating a file takes a free cluster, adds the name, and gives an empty handle on it; its entry is dated; every other file keeps its chain and its bytes, all other names are found as before, the copies still agree, the free count stays right, and no state a power cut could leave has a link to a free cluster; with a card that takes every transfer it fails only for a bad length of the name or as FULL, with no more free clusters than it can take |
| Creating.CreateAndOpen | src/main/c/karnix/karnix_monitor/src/fat.c:1317-1369 | fat_file_open of a new name ends in an open file without a byte, its cursor at 0 |
| Creating.CreatedKeepsOthers | src/main/c/karnix/karnix_monitor/src/fat.c:1331-1363 | starting the chain and growing the directory disturb no other file |
| Creating.AfterEntry | src/main/c/karnix/karnix_monitor/src/fat.c:1331-1363 | the directory growing for the entry touches neither the new chain nor any other |
| Names.FoundOnce | src/main/c/karnix/karnix_monitor/src/fat.c:725-777 | where no name hides another, a record found for a name is the only one that goes by it |
| Names.AddedOnce | src/main/c/karnix/karnix_monitor/src/fat.c:938-1050 | adding a name that is not there hides no name |
| Names.RemovedOnce | src/main/c/karnix/karnix_monitor/src/fat.c:907-935 | removing a record hides none, and uncovers none |
| Names.AddedLive | src/main/c/karnix/karnix_monitor/src/fat.c:938-1050 | after an addition the entries in use are those there were and the new one |
| Names.RenewedLookup | src/main/c/karnix/karnix_monitor/src/fat.c:1561-1578 | new dates, sizes and archive bits are seen by no search |
| Names.TornSearch | src/main/c/karnix/karnix_monitor/src/fat.c:1003-1049 | after a power cut between the sectors of a record being written, every search that does not succeed before it fails as BROKEN |
| Folder.CreatedContents | src/main/c/karnix/karnix_monitor/src/fat.c:1331-1363 | creating adds the name, without bytes, to the map from names to contents, and changes nothing else of it; no other name starts where it does |
| Folder.DeletedContents | src/main/c/karnix/karnix_monitor/src/fat.c:1248-1304 | deleting takes the names of the one file out of the map and changes nothing else of it |
| Folder.SyncedContents | src/main/c/karnix/karnix_monitor/src/fat.c:1381-1585 | work on a file, synced, gives its names the new bytes and changes nothing else of the map |
| Folder.EmptyContents | src/main/c/karnix/karnix_monitor/src/fat.c:938-1050 | an empty directory is the empty map |
| Folder.CutWhileUnlinking | src/main/c/karnix/karnix_monitor/src/fat.c:1294-1304 | between the two steps of a deletion the card lists the name of a file that starts at a free cluster, the next one an allocation may take |
| Jobs.OpenFound | src/main/c/karnix/karnix_monitor/src/fat.c:1343-1369 | opening a name that is there: the handle sees the bytes the name stands for, or none when truncated |
| Jobs.OpenListed | src/main/c/karnix/karnix_monitor/src/fat.c:1343-1369 | the same told of the map, with what the opening may have taken |
| Jobs.OpenMissing | src/main/c/karnix/karnix_monitor/src/fat.c:1320-1369 | a name that is not there is made and opened, or refused without any change |
| Jobs.OpenNew | src/main/c/karnix/karnix_monitor/src/fat.c:1325-1369 | opening a new name: the map has it, and the handle is on its empty file |
| Jobs.OpenNamed | src/main/c/karnix/karnix_monitor/src/fat.c:1317-1369 | fat_file_open for one directory: found, made, or refused with DENIED or PATH, and then without any change; otherwise it fails only if the card refuses a transfer, the name is too long, or there are too few free clusters |
| Jobs.UseAndClose | src/main/c/karnix/karnix_monitor/src/fat.c:1373-1585 | any calls and a close: the map has the bytes the calls have left, and the card alone holds them |
| Jobs.DoUpdate | src/main/c/karnix/karnix_monitor/src/fat.c:1317-1585 | open, use and close as one step on the map; it fails only if the card refuses a transfer, the file would get past 32 bits, the name is too long, or there are no more free clusters than the job can take |
| Jobs.DoDelete | src/main/c/karnix/karnix_monitor/src/fat.c:1248-1304 | delete as one step on the map, with the answer that is right for the entry; it fails only if the card refuses a transfer |
| Jobs.RunJobs | src/main/c/karnix/karnix_monitor/src/fat.c:938-1585 | any sequence of files opened or made, used, closed and deleted does to the map from names to bytes what it should, up to the first job that fails, and that one harms no other file; with jobs that fit, more free clusters than they can take, and a card that takes every transfer, none fails; after a job that succeeds the card alone holds it all; no state a power cut could leave has a link to a free cluster |
| Jobs.RunCounted | src/main/c/karnix/karnix_monitor/src/fat.c:938-1585 | over a run a right free count stays right, and no more clusters are taken than the jobs can take |
| Jobs.FitThroughout | src/main/c/karnix/karnix_monitor/src/fat.c:938-1585 | jobs whose names are not too long and whose bytes, all put on the largest file, stay below 32 bits, fit from the first to the last |
| Jobs.NoExcuse | src/main/c/karnix/karnix_monitor/src/fat.c:938-1585 | such jobs have no reason to fail but the card, as long as there are enough free clusters at the start |
| Jobs.FailureKeeps | src/main/c/karnix/karnix_monitor/src/fat.c:360-453 | after a failed job every file it was not about has its chain and its bytes, and the allocator is sound |
| ZmCrc.Residue16Iff | src/main/c/karnix/karnix_monitor/src/zmodem.c:301 | the 16-bit register comes to zero behind the sender's trailer and behind no other two bytes |
| ZmCrc.Residue32Iff | src/main/c/karnix/karnix_monitor/src/zmodem.c:346 | the 32-bit register comes to 0xDEBB20E3 behind the sender's trailer and behind no other four bytes |
| ZmCrc.TableIsSerial16 | src/main/c/karnix/karnix_monitor/src/zmodem.c:266-301 | a step through crctab is eight steps of the division by x^16 + x^12 + x^5 + 1, bit by bit |
| ZmCrc.TableIsSerial32 | src/main/c/karnix/karnix_monitor/src/zmodem.c:303-346 | a step through cr3tab is eight steps of the mirrored division by 0xedb88320, from the lowest bit on |
| ZmCrc.CheckValues | src/main/c/karnix/karnix_monitor/src/zmodem.c:266-346 | the text 123456789 has the check values 0x31c3 and 0xcbf43926 the two codes are known by |
| ZmFraming.TakeSent | src/main/c/karnix/karnix_monitor/src/zmodem.c:828-952 | a byte sent by zsendline is read back by zdlread, whatever bytes that do not count are inserted |
| ZmFraming.SentClean | src/main/c/karnix/karnix_monitor/src/zmodem.c:828-859 | nothing that is sent is an XON or XOFF, nor a control character when those are escaped |
| ZmFraming.SentHarmless | src/main/c/karnix/karnix_monitor/src/zmodem.c:828-859 | the line never sees DLE, XON or XOFF, a CR behind an @, nor, when those are escaped, a control character other than ZDLE |
| ZmFraming.GoodIff | src/main/c/karnix/karnix_monitor/src/zmodem.c:499-524 | a subpacket is accepted exactly with the trailer that belongs to what was received |
| ZmFraming.RoundTrip | src/main/c/karnix/karnix_monitor/src/zmodem.c:436-586 | any block within the limit, both widths, both escape settings, noise inserted anywhere: frame end and bytes come back, and the line is left behind the subpacket |
| ZmFraming.TooLongRefused | src/main/c/karnix/karnix_monitor/src/zmodem.c:491-530 | a longer block is refused after one byte more than the limit has been stored |
| ZmFraming.SubpacketClean | src/main/c/karnix/karnix_monitor/src/zmodem.c:436-476 | no byte of a subpacket can be taken for noise |
| ZmFraming.HeaderRoundTrip | src/main/c/karnix/karnix_monitor/src/zmodem.c:981-1003 | a position survives stohdr and rclhdr, in both directions |
| ZmPort.Port.ZSendLine | src/main/c/karnix/karnix_monitor/src/zmodem.c:828-859 | sends the byte plain or escaped, and remembers what was sent last |
| ZmPort.Port.ZdlRead | src/main/c/karnix/karnix_monitor/src/zmodem.c:897-952 | the loops of zdlread read what the reading function says, CAN sequences and bad escapes included |
| ZmPort.Port.ZsData | src/main/c/karnix/karnix_monitor/src/zmodem.c:436-476 | sends the subpacket of the block, and XON after a ZCRCW |
| ZmPort.Port.ZrData | src/main/c/karnix/karnix_monitor/src/zmodem.c:482-586 | returns the code of the receiving function, stores exactly what it stores, at most one byte past the limit, and counts the block |
| ZmReceive.Session.HeaderTurn | src/main/c/karnix/karnix_monitor/src/zmodem.c:1673-1715 | one step of the receiving function on headers, for every code; ZEOF is accepted only at the right place, and then the whole file is stored |
| ZmReceive.Session.DataTurn | src/main/c/karnix/karnix_monitor/src/zmodem.c:1716-1763 | one step of the receiving function on subpackets, for every code, with the receipts GOTCRCQ and GOTCRCW ask for; a valid one is stored once, at its place |
| ZmReceive.Session.RzFile | src/main/c/karnix/karnix_monitor/src/zmodem.c:1655-1765 | for every sequence of headers, subpackets, repeats and silences: code, memory and headers sent are those of the receiving function; every transfer that is brought to its end, with no more than 20 failures in a row, ends with ZEOF and the file; memory is a prefix of the file of length ZModemRxBytes, ZEOF means the whole file; the 21st penalty since the last accepted subpacket ends it; every position told to the sender is what is stored |
| ZmReceive.DeliveredIff | src/main/c/karnix/karnix_monitor/src/zmodem.c:1655-1765 | any file is received exactly when the line brings it as frames of any subpackets at the right places, some of which may not come through, among stray headers and silences, with no more than 20 failures between two subpackets that do, and its end at last |
| ZmReceive.FaultlessBearable | src/main/c/karnix/karnix_monitor/src/zmodem.c:1655-1765 | frames all of which come through, however the file is cut, are such a transfer |
| Blit.MergeIs | src/main/c/karnix/karnix_soc/src/cga.c:224-240 | the masking and shifting of the inner loop replaces one pixel of the register |
| Blit.Offsets | src/main/c/karnix/karnix_soc/src/cga.c:224-240 | pixel k of a word is at bit (15 - k) * 2, pixel k of a byte at (3 - k) * 2 |
| Blit.OnePixel | src/main/c/karnix/karnix_soc/src/cga.c:209-243 | one turn of the inner loop is one step of the naive copy |
| Blit.BlitRow | src/main/c/karnix/karnix_soc/src/cga.c:209-243 | a row through the register, flushed when the word changes, is a row of the naive copy |
| Blit.Bitblit | src/main/c/karnix/karnix_soc/src/cga.c:169-249 | the whole equals the naive clipped copy: every covered pixel takes its source pixel, no other pixel changes, for any position; the last flush goes astray exactly for a job without pixels that passes the tests for lying outside |
| Line.PlotIs | src/main/c/karnix/karnix_soc/src/cga.c:277-293 | exactly the pixel at the index takes the color; one word behind the screen is let through |
| Line.Decide | src/main/c/karnix/karnix_soc/src/cga.c:303-312 | the two tests step along the longer axis always and keep the deviation within half a pixel |
| Line.Arrived | src/main/c/karnix/karnix_soc/src/cga.c:301-302 | both coordinates reach the end at the same point, after as many moves as the longer axis is long |
| Line.DrawLine | src/main/c/karnix/karnix_soc/src/cga.c:295-314 | ends at the end point after exactly max(|dx|, |dy|) moves; every point is within half a pixel of the ideal line; those points are drawn and nothing else |
| Audio.SubmitIff | src/main/c/karnix/karnix_soc/src/audiodac.c:34-69 | samples are appended in order exactly when the write pointer is behind the read pointer or no more is passed than is available; otherwise a full ring looks empty |
| Audio.Ring.Filled | src/main/c/karnix/karnix_soc/src/audiodac.h:99-113 | the fill arithmetic counts the waiting samples |
| Audio.Advance | src/main/c/karnix/karnix_soc/src/audiodac.c:195-196 | moving the read pointer drops the oldest samples and frees as many places |
| Audio.Player.Xmit | src/main/c/karnix/karnix_soc/src/audiodac.c:250-278 | sends the first samples, in order, never more than the FIFO has room for, and stops short only when there is no room for one |
| Audio.Player.Isr | src/main/c/karnix/karnix_soc/src/audiodac.c:140-206 | sends what is waiting, as much as there is room for, or fillers when nothing is waiting, behind what was sent before; as much as it sends becomes available |
| Audio.Player.Store | src/main/c/karnix/karnix_soc/src/audiodac.c:34-69 | the copying and wrapping does what the ring function says |
| Audio.Player.Submit | src/main/c/karnix/karnix_soc/src/audiodac.c:14-86 | sent so far, then waiting, stays all that was submitted, in order, with the handler running before or at the end; what was sent stays sent; as much is taken as was available |
| Usb.Host.Attempt | src/main/c/karnix/karnix_soc/src/usb10.c:203-313 | one attempt, by what came over the bus: silence, a stall, damage and other identifiers have one code each; every packet that comes undamaged is acknowledged; a duplicate, which is the packet before, is thrown away, a new one is stored at its place if there is room |
| Usb.Host.Fetch | src/main/c/karnix/karnix_soc/src/usb10.c:198-313 | the outcomes of its attempts: one to nine of them, nine when the last one failed as such; success, a stall and an overrun end it; it gives up on a packet the device has only after nine losses, that of the last ACK among them |
| Usb.Host.DataStage | src/main/c/karnix/karnix_soc/src/usb10.c:192-344 | against lost and damaged packets and lost ACKs, every stored packet is the device's next one, once, at 8 * i; a stage that delivers what was asked for has delivered all, end to end; with a device that answers in packets of the expected size, room in the buffer, no stall and at most eight losses altogether it delivers exactly what was asked for; it runs over the end of the buffer at the first packet that does not fit whole |
| Usb.WholePackets | src/main/c/karnix/karnix_soc/src/usb10.c:195-313 | a buffer of just the size asked for holds whole packets exactly when that is a multiple of 8 |
| Usb.StoredJoined | src/main/c/karnix/karnix_soc/src/usb10.c:305-313 | packets of full size lie end to end |
| Usb.SetupStage | src/main/c/karnix/karnix_soc/src/usb10.c:122-192 | a try of the setup data goes as DATA0 exactly when an even number of garbled answers came before it, for endpoint 0; for another endpoint that depends on the toggle earlier requests have left |
| Tetris.QuarterTurn | src/main/c/karnix/karnix_tetriscv/src/tetris.c:64-77 | one more rotation is a quarter turn; four are none |
| Tetris.FourCells | src/main/c/karnix/karnix_tetriscv/src/tetris.c:6-14 | every piece has four cells in every rotation |
| Tetris.DroppedSettles | src/main/c/karnix/karnix_tetriscv/src/tetris.c:132-164 | taking out a full row changes nothing about what clearing comes to, and leaves one full row less |
| Tetris.SettledFilled | src/main/c/karnix/karnix_tetriscv/src/tetris.c:132-164 | clearing takes ten cells per full row and no others |
| Tetris.Game.ValidPos | src/main/c/karnix/karnix_tetriscv/src/tetris.c:41-62 | true exactly when every cell of the piece is in the arena or above it, and on an empty place |
| Tetris.Game.ProcessInputs | src/main/c/karnix/karnix_tetriscv/src/tetris.c:79-103 | a key turns or moves the piece if it fits there, and does nothing otherwise |
| Tetris.MovedCells | src/main/c/karnix/karnix_tetriscv/src/tetris.c:79-103 | left, right and down move every cell of the piece by one place, up turns the piece in its own square |
| Tetris.Game.MoveDown | src/main/c/karnix/karnix_tetriscv/src/tetris.c:105-111 | the piece falls by one exactly when it fits there |
| Tetris.Game.AddToArena | src/main/c/karnix/karnix_tetriscv/src/tetris.c:113-130 | exactly the four places of the piece are filled |
| Tetris.Game.CheckLines | src/main/c/karnix/karnix_tetriscv/src/tetris.c:132-164 | ends although it steps back; the rows that are not full are at the bottom in order, blank ones above; 100 points for each full one |
| Tetris.Game.NewTetromino | src/main/c/karnix/karnix_tetriscv/src/tetris.c:25-31 | the game is over exactly when the new piece does not fit |
| Tetris.Game.NewGame | src/main/c/karnix/karnix_tetriscv/src/tetris.c:34-39 | the counts start anew, the arena stays |
| Tetris.Game.Fall | src/main/c/karnix/karnix_tetriscv/src/main.c:630-637 | a tick: fall, or be fixed, clear and be followed |
| Tetris.Game.Play | src/main/c/karnix/karnix_tetriscv/src/main.c:568-637 | a game is the function of its keys and ticks, which move, fix, clear and deal in turn until it is over; over whole games: filled cells + 10 * lines = 4 * pieces, score = 100 * lines, and the current piece fits while the game is on |
| Mac.PacksNext | src/main/c/karnix/karnix_soc/src/mac.c:410-419 | putting one more byte into the word, pushing it when full, is one more byte of the stream |
| Mac.Pack | src/main/c/karnix/karnix_soc/src/mac.c:390-438 | the words carry the concatenated fragments, four bytes each, low byte first, filled up with zeroes |
| Mac.FateIff | src/main/c/karnix/karnix_soc/src/mac.c:255-311 | a frame is stored exactly when the buffers have room for it and no empty one comes before its end |
| Mac.OverrunIff | src/main/c/karnix/karnix_soc/src/mac.c:255-311 | a byte goes past a buffer of length zero exactly when one comes before the end of the frame |
| Mac.Controller.Send | src/main/c/karnix/karnix_soc/src/mac.c:368-438 | the length in bits and the words go into the FIFO |
| Mac.Controller.Receive | src/main/c/karnix/karnix_soc/src/mac.c:196-331 | the buffers hold the bytes of the words, all words are consumed, and the next frame starts clean |
| Mac.RoundTrip | src/main/c/karnix/karnix_soc/src/mac.c:196-438 | what was sent in any fragments is received in any buffers of the same total length |
| Mac.Transfer | src/main/c/karnix/karnix_soc/src/mac.c:196-438 | one frame over the wire, of any length up to 2048 bytes |

## Left out

FAT32 driver:

- Mounting and volume probing: the model starts from a well-formed volume (`GeoOk`, `HoldsClusters`): tables and clusters lie on the medium, the cluster size is a power of two, so that shifts and masks are division and remainder, and sector numbers fit 32 bits.
- Paths (`follow_path`, the volume table, `fat_dir_open`): a directory is opened by its first cluster; a name is one component of a path.
- `fat_dir_create`, `fat_dir_read`, `fat_stat`: made of the parts that are modelled.
- Clocks: dates and times are parameters.
- Checks for null pointers and closed handles.
- FatVolume.Fat.RemoveChain: a start cluster beyond the table, for which the driver reads behind the table, is not modelled; nor is a first request for the sector a failed read has spoiled.
- Directory.Dir.Next: a directory whose own chain is broken, for which the driver reports BROKEN, is not modelled.
- FatVolume.Fat.FreeOne: a first request for the sector a failed read has spoiled is not modelled; what comes back from it is told by `FatVolume.Fat.GetFat`.
- FatVolume.Fat.FindFree: a first probe in the sector a failed read has spoiled is not modelled.
- FatVolume.Fat.PickCluster: neither is it here.
- FatVolume.Fat.LinkBehind: a first put into the sector a failed read has spoiled is not modelled; what it writes is told by `FatVolume.Fat.PutFat`.
- Sessions.Start: the same is asked of the volume's buffer as for `Sessions.Use`.
- Sessions.Use: the volume's buffer is asked not to be spoiled in the place of a table sector, of FSInfo or of the file's entry; the single operations ask for less.
- Two handles on one file, or a handle on a cluster whose sector sits in the volume's buffer: handles write past the buffer, and each keeps its own copy. The file operations ask that no sector of the file be in the volume's buffer.
- A failed write that corrupts its sector: a write happens or does not.
- A handle after a failed seek: its cluster may be ahead of its offset, and its buffer may stand for the wrong sector. Nothing is claimed about later calls on that handle.
- A directory entry that states more bytes than its chain has.
- Files.File.Write: the bytes between the old end and a cursor beyond it are not determined; the driver does not clear them.
- FatVolume.Fat.StretchChain: what the caller does with the undefined cluster number after a `lost` allocation is not modelled; the model stops there. Nor is a first request for the sector a failed read has spoiled.
- DirLayout.NextSect: for a data area that is not aligned to the cluster size only `DirLayout.BoundaryTestIff` is claimed.
- FatVolume.OrderedRaw: sectors written past the volume's buffer (file contents) are outside the prefix order; only the order of all other sectors is kept.
- Unlink.Unlink: a directory entry with start cluster 0 is not covered; the driver then looks for live entries in the root directory.
- Jobs.RunJobs: one directory; a file is closed before the next job begins, names hold no byte 0x00 or 0xff, and subdirectories are there to be deleted only.
- Names.TornSearch: says what is found once a card holds a record cut short; which cuts leave one is not derived from the writes of `Directory.Dir.WriteLfns`.
- Unlink.ReleaseApart: the chain of the entry and that of the directory are asked to be different chains that nothing else links to (or the entry's to be the reserved cluster 0); cross-linked volumes are covered by `Chain.EraseChain` and `FatVolume.Fat.RemoveChain` only.

ZMODEM:

- `zgethdr` and the encoding of headers: the receiver sees headers as events, the four position bytes excepted.
- The tables of the checksums: computed from the polynomials they are made from, 0x1021 and 0xedb88320.
- `zsdata` and `zsda32`, and `zrdata` and `zrdat32`, are the same code up to the register; they are modelled once, over the register.
- The text mode of `putsec`: never reached, because the receiver is always in binary mode.
- More than one file a session, the sender's protocol, and the XMODEM and YMODEM leftovers.
- Different escape settings at the two ends.

Others:

- Blit.Bitblit: coordinates so large that their sums leave 32 bits are not modelled.
- Line.DrawLine: end points so far apart that twice the error term leaves 32 bits are not modelled.
- Line.PlotIs: an x outside the row lands in another row, as in the code; the model does not call that an error.
- Audio.Player.Submit: a missing ring, a ring shorter than ten samples, and the conversion of a sample to a converter word are not modelled.
- Usb.Device.In: a packet identifier damaged into another valid one is not modelled.
- OUT requests and interrupt endpoints of USB.
- Drawing, keyboards and the random number of Tetris: the next piece is a parameter.
- Mac.Controller.Receive: waiting for the FIFO is not modelled, and the words of a frame are all there. The count of bytes left in a buffer is asked to be 0 at the start of a frame: buffers longer than the frame asked for leave another count, and the next frame then begins in the old payload. Buffers of exactly the length asked for never do.
- The queue of packet buffers is a sequence of buffers; allocation failures and statistics are left out.
- Console, command line, fonts, EEPROM, I2C, QSPI, UART, the lwIP wrappers, Modbus, interrupt and context code.
