# Verified models of MkPFS-PS5

Dafny models of the conversion engine, the transfer code and the codecs of MkPFS-PS5, with proofs of what its
documentation promises. `dafny verify dfyconfig.toml` checks the whole project.

**Conversion** (`src/mkpfs_native.c`).
`Pfsc` defines the PFSC stream, the reader's acceptance rules and the round trip; `PfscPack` and `PfscVerify`
are the packer and the windowed verifier as loops over files, offset tables and a journal (`Resume`);
`PfscPool` is the compression pool as interleaved critical sections. `ExfatLayout` assigns clusters, finds the
bitmap size and chains the FAT; `ExfatDirectory`, `ExfatVolume` and `ExfatWriter` build the volume; `ExfatReader`
is an independent reader written from the exFAT specification, which also computes the checksums its way, and
`ExfatAllocation` has it look up the allocation bitmap and the up-case table. `Workspace` is the pre-flight estimate.
`Disks`, `Conversion` and `ConversionProof` are the checkpointed phase machine over volatile writes that may be
lost or torn at any crash; `ConversionChecked` follows which blocks the verifier has seen along a run, `ConversionProgress`
shows that a run left alone publishes, and `ConversionLevels` that the records saved by the loops are those of the
machine's checkpoint steps. `EndToEnd` puts the exFAT writer's plan into that machine: over every run, a file under the
final name verifies, unpacks, and a reader of the image inside it recovers the captured source tree; and a conversion
whose estimate was granted gets there.

**Transfers**.
`CopyRing` is the three-slot copy pipeline (`src/filemgr.c`), `UrlSlots` the bounded queue of URL workers
(`src/filemgr.c`), `Download` the resumable downloader (`src/url_download.c`), each over every interleaving,
failure and, for the downloader, every kill and recovery; `DownloadPower` and `DownloadLoss` add losing power.

**Codecs**.
`TarHeader`, `TarStream` and `TarArchive` are the streamed ustar writer (`src/download.c`) with an independent
reader; `Text` is the editor's save path (`src/text.c`); `Names` is a file name's way through JSON and back
(`src/json_util.c`, `src/path_util.c`); `Utf8` is section 3 of RFC 3629. `Bytes` holds bytes, little-endian
words, writes at an offset and the sequential file used by the imperative models.

Code that changes things step by step is modelled by methods with loops, arrays and classes, each proved against
a specification function; concurrency is a state machine whose steps are the critical sections, and a class beside
it has those critical sections as methods.

## Where the code and its promises differ

- **A stale byte counter can publish a truncated download.** `README.md:140` promises that a retry never publishes a
  partial final name. An attempt whose part file is missing or empty does not reset the counter
  (`src/url_download.c:735-739`), and the counter is clamped to the announced total (`src/task.c:224-227`), so the
  length check passes early. `Download.AttemptSafeExactly` gives the exact condition, `Download.LosingThePartMayTruncate`
  a run that gets there, and `Download.UndisturbedIsWhole` shows that nothing goes wrong while nobody removes the part.
- **Without Content-Length a truncated answer is published as complete**: `Download.UnannouncedMayTruncate` is such a
  run. `Download.WholeExactly`: undisturbed histories publish only whole files, of those with an announced length and of
  those without, if and only if the length was announced or the remote file is empty.
- **A journaled offset is not durable**, although the comment at `src/url_download.c:1021-1023` says so: the journal is
  synchronized when it is saved (`src/url_download.c:186`), the part file only when recovery cuts it (1025-1032) and
  before it is published (956). `DownloadLoss.SyncedDecides`: after any history, losing power is safe, whatever the
  system flushed on its own, if and only if the remote content has only zeros between the length last synchronized and
  the journaled offset; `DownloadLoss.LossSafeExactly` is the condition without restriction, when the journal counts more
  than the part has. `DownloadPower.PowerLossMayCorrupt` is a run of one byte, a pause and a power loss after which
  recovery accepts a part that is not the remote content, `DownloadPower.PowerLossMayPublishCorruption` continues it
  until a corrupted file is published under an announced length, and `DownloadPower.SynchronizedSavesSuffice` shows that
  synchronizing the part before each save excludes all of this.
- **An entry that cannot be archived may silently disappear from a tar download**, depending on the buffer sizes the
  HTTP library asks for (`src/download.c:315-318`): `TarArchive.FaultsExactly` says when, `TarArchive.EntryDisappears`
  what the client receives, and `TarArchive.SmallestDisappearing` is an empty file, such an entry, and 513 bytes.
- **A file that shrinks while it is archived shifts every later block** because its padding is skipped
  (`src/download.c:344-350`): `TarArchive.ArchiveRoundTrip` holds exactly without such files, and
  `TarArchive.SmallestShrunk` is a file that shrank from one byte to none.
- **A second byte-order mark is lost on save** (`src/text.c:151-154`): `Text.SavingTwiceExactly` and
  `Text.UnchangedTextReproducesTheFile` state exactly when saving is the identity; `Text.DoubledMarkIsLost` is the file
  of two marks.
- **The exFAT writer's FAT size wraps in 32 bits** (`src/mkpfs_native.c:1472`) exactly from 2^30 - 127 FAT entries on
  (`ExfatLayout.Geometry32Exact`): for one file of 2^30 clusters, which scan and content limit admit, it computes 128
  sectors where 8388736 are needed (`Workspace.WriterWrapsAlone`). A granted estimate excludes it (`Workspace.GrantedFits`).
- **At most two transfers** rests on who may clear a cancellation: the worker looks at the flag twice
  (`src/filemgr.c:2439` and `2442`), and `UrlSlots.UnguardedResumeBreaksTheBound` shows that without the test at
  `src/filemgr.c:3462-3463` a third transfer could start in between. With it the bound holds (`UrlSlots.CounterIsExact`).

## Model

| member | source | states |
|---|---|---|
| Pfsc.RoundTrip | src/mkpfs_native.c:400-437 | for every input, empty or not block-aligned included: a file carrying the packed stream is accepted, reports the padded logical size and block count, and its blocks are the input followed by zeros |
| Pfsc.AcceptedTable | src/mkpfs_native.c:721-728 | an accepted offset table starts at the data offset, is monotone over any two entries, stays inside the file and has gaps of at most 64 KiB |
| Pfsc.HeaderExactly | src/mkpfs_native.c:681-689 | the verifier takes a header if and only if its bytes are the letters PFSC, the two constants, the block size twice and the place of the table, the data offset lies between 64 KiB and the end of the file, and the logical size is a positive multiple of 64 KiB |
| Pfsc.TableEntry | src/mkpfs_native.c:589-601 | entry i of the table is the little-endian offset of block i |
| Pfsc.PayloadSlice | src/mkpfs_native.c:511-522 | between the offsets of blocks i and i+1 lies exactly what is stored for block i |
| Pfsc.BlockIsCompressed | src/mkpfs_native.c:511-522 | in a carried stream the table leaves each block as many bytes as compression needs, 64 KiB at most, and they are the compressed block whenever that is smaller, else the block itself |
| Pfsc.CarriedBlock | src/mkpfs_native.c:731-745 | every block of a packed stream passes the range check and decodes to its 64 KiB of the padded input |
| Pfsc.OffsetFits | src/mkpfs_native.c:402-404 | under the table limit no offset and no logical size exceeds its 64-bit field |
| PfscVerify.CheckOffsets | src/mkpfs_native.c:721-728 | accepts exactly the windows whose entries are in order, in the file and at most 64 KiB apart |
| PfscVerify.CheckPayloads | src/mkpfs_native.c:729-747 | accepts exactly the windows whose blocks all decode |
| PfscVerify.CheckWindow | src/mkpfs_native.c:713-748 | one window succeeds if and only if every one of its blocks is well formed |
| PfscVerify.VerifyWindows | src/mkpfs_native.c:713-769 | the window loop accepts exactly the well-formed rest, and saves one record after each window and a last one, in this order |
| PfscVerify.VerifyStream | src/mkpfs_native.c:672-773 | success means every block from the start index on is well formed; without cancellation or failing checkpoints it succeeds whenever that holds; every record it saves vouches only for blocks that passed, PUBLISH is recorded only after all did, and the records saved are the first ones of that pass |
| PfscVerify.ResumeVerdict | src/mkpfs_native.c:689-706 | on a file whose first k blocks passed, a pass from k gives the verdict of one full pass |
| PfscVerify.VouchedRecord | src/mkpfs_native.c:749-769 | what one pass saves is a sound start for the next |
| PfscVerify.VouchedChain | src/mkpfs_native.c:689-769 | however many passes it takes, interrupted anywhere and resumed from any saved record, each record vouches only for blocks that passed, and one that says PUBLISH means the whole stream is accepted |
| PfscPack.PackStream | src/mkpfs_native.c:380-620 | from a true record, fresh or resumed, the file ends up carrying the stream of an uninterrupted run (whose blocks Pfsc.BlockIsCompressed describes), every record saved on the way is sound and at most 128 blocks behind the one before, and it succeeds unless cancelled or a checkpoint fails; an oversized table is refused |
| PfscPack.StartPacking | src/mkpfs_native.c:413-437 | a resumed file is cut to the recorded block and offsets 0..k are read back; a fresh one gets header and zeros |
| PfscPack.PackBlocks | src/mkpfs_native.c:472-579 | the block loop extends the stream block by block, computes every offset, and records its progress in steps of at most 128 blocks |
| PfscPack.AppendBlock | src/mkpfs_native.c:511-522 | one block, through the write buffer or past it, appends exactly its stored form, which Pfsc.BlockIsCompressed describes |
| PfscPack.SaveCheckpoint | src/mkpfs_native.c:534-566 | a checkpoint puts the window's table entries and every payload byte on disk before the record is saved |
| PfscPack.WriteWindow | src/mkpfs_native.c:534-552 | flushing the buffer and writing the window's entries leaves a stage that holds every block so far |
| PfscPack.FinishPacking | src/mkpfs_native.c:580-616 | the final table completes the stream, and the next phase is recorded after it |
| PfscPack.EncodeOffsets | src/mkpfs_native.c:586-602 | the buffered table is the concatenation of the entries |
| PfscPack.ReadEntries | src/mkpfs_native.c:413-423 | a stage that holds k blocks yields offsets 0..k |
| PfscPack.TruncatedHolds | src/mkpfs_native.c:420-428 | cutting the stage at the recorded size leaves the first k blocks and a state to continue from |
| PfscPack.HeldForever | src/mkpfs_native.c:531-566 | a stage that holds m blocks holds every smaller number of them |
| PfscPack.HeldEntry | src/mkpfs_native.c:417-418 | a stage that holds k blocks has readable table entries 0..k with the right offsets |
| PfscPack.DoneCarries | src/mkpfs_native.c:580-602 | a stage that holds all blocks carries the complete stream |
| PfscPool.PoolRefinesSequential | src/mkpfs_native.c:424-530 | for every worker count and interleaving, started fresh or resumed at any block, after every step the bytes and offsets written are those of the in-order packer, and a finished pool has written the same stream |
| PfscPool.WrittenIsCompressed | src/mkpfs_native.c:350-369 | in every reachable state, each block written so far has as many bytes as compression needs, 64 KiB at most, and they are the compressed block whenever that is smaller, else the block itself |
| PfscPool.ResumedPoolStarts | src/mkpfs_native.c:413-427 | a stage that holds the first k blocks is a start state of the pool at block k |
| PfscPool.UndisturbedPoolFinishes | src/mkpfs_native.c:472-579 | a pool that nobody cancels never aborts, and when no step is left it has written the whole stream |
| PfscPool.SlotOwnership | src/mkpfs_native.c:353 | a slot is claimed exactly when one worker is busy with it, never two, and the dispatcher never refills a slot before its block was written |
| PfscPool.AwakeCoversOpen | src/mkpfs_native.c:493-495 | unclaimed pending slots never outnumber awake workers |
| PfscPool.Progress | src/mkpfs_native.c:350-369 | until the pool finishes or stops, the dispatcher or some worker can move |
| PfscPool.StepInv | src/mkpfs_native.c:346-371 | every critical section of dispatcher and workers, in any order, keeps the pool's invariant |
| PfscPool.Termination | src/mkpfs_native.c:472-530 | every step of the pool decreases a bound on the steps left |
| PfscPool.RunsEnd | src/mkpfs_native.c:472-579 | a run without spurious wake-ups is no longer than that bound |
| PfscPool.Pool.Scan | src/mkpfs_native.c:350-356 | a scan claims the first open slot, or the worker sleeps |
| PfscPool.Pool.Work | src/mkpfs_native.c:358-362 | a claimed slot is compressed, or posted as cancelled |
| PfscPool.Pool.Post | src/mkpfs_native.c:363-369 | posting a result releases the claim and wakes the dispatcher |
| PfscPool.Pool.Dispatch | src/mkpfs_native.c:473-510 | the dispatcher fills a slot that is free, or waits for the block it has to write |
| PfscPool.Pool.Hand | src/mkpfs_native.c:493-495 | a filled slot is opened and one sleeper is signalled |
| PfscPool.Pool.Emit | src/mkpfs_native.c:511-523 | the written payload grows by the next block in order |
| PfscPool.Pool.Recycle | src/mkpfs_native.c:524-530 | a slot is recycled after its block was written |
| ExfatLayout.BitmapLeast | src/mkpfs_native.c:1468 | the bitmap loop ends, at the least number of clusters that is enough |
| ExfatLayout.BitmapMonotone | src/mkpfs_native.c:1468 | more content never needs a smaller bitmap |
| ExfatLayout.BitmapCovers | src/mkpfs_native.c:1572-1574 | the bitmap has a bit for every cluster, its own included |
| ExfatLayout.BitmapSmall | src/mkpfs_native.c:1466-1469 | the bitmap stays within the headroom the content limit leaves |
| ExfatLayout.Need32Exact | src/mkpfs_native.c:1468 | within the content limit the 32-bit loop body is exact |
| ExfatLayout.FindBitmap | src/mkpfs_native.c:1468 | the writer's 32-bit loop returns the least fixed point |
| ExfatLayout.FatSectorsExact | src/mkpfs_native.c:1472 | the 32-bit FAT size is right if and only if four bytes per entry, rounded, fit 32 bits |
| ExfatLayout.Geometry32Exact | src/mkpfs_native.c:1472 | for every tree within the content limit, the writer's 32-bit FAT size and heap offset are those of the volume if and only if the FAT has at most 2^30 - 128 entries |
| ExfatLayout.RunsTotal | src/mkpfs_native.c:1207-1217 | the runs assigned to a tree add up to its cluster count |
| ExfatLayout.RunsDisjoint | src/mkpfs_native.c:1213-1217 | no cluster lies in two runs |
| ExfatLayout.RunsCover | src/mkpfs_native.c:1213-1217 | every cluster up to the end of the runs lies in one |
| ExfatLayout.Tiling | src/mkpfs_native.c:1468-1472 | bitmap, up-case table and all node runs partition clusters 2 to cluster_count + 1 (exFAT specification, section 7.1) |
| ExfatLayout.FatOfRun | src/mkpfs_native.c:1561-1566 | the FAT of the volume holds each run's chain at the run's clusters |
| ExfatLayout.ChainFollowed | src/mkpfs_native.c:1293-1302 | following the FAT from a run's first cluster visits exactly the run and then ends (exFAT specification, section 4.1) |
| ExfatLayout.WriteChain | src/mkpfs_native.c:1293-1297 | one chain is written in place and nothing else changes |
| ExfatLayout.ChainTree | src/mkpfs_native.c:1299-1302 | the recursion over the tree writes the chains of all its runs |
| ExfatDirectory.SetFields | src/mkpfs_native.c:1239-1252 | the fields of an entry set, times and stream flags included, lie where the exFAT specification (section 7.4 and following) puts them |
| ExfatDirectory.StoredSum | src/mkpfs_native.c:1230-1237 | the stored checksum does not change the checksum: its own two bytes are skipped |
| ExfatDirectory.SetSumIsFold | src/mkpfs_native.c:1230-1237 | the checksum of an entry set is that of the exFAT specification, section 6.3.3, taken front to back |
| ExfatDirectory.NameHashIsFold | src/mkpfs_native.c:1219-1228 | the hash of an ASCII name is that of section 7.6.4 over the bytes of the up-cased UTF-16 name |
| ExfatDirectory.SetRoundTrip | src/mkpfs_native.c:1239-1252 | an entry set read back gives name, kind, first cluster and size (sections 7.4, 7.6, 7.7) |
| ExfatDirectory.ListingRoundTrip | src/mkpfs_native.c:1270-1276 | a directory's bytes read back as its children in order |
| ExfatVolume.FatFits | src/mkpfs_native.c:1561-1567 | the FAT has an entry for every cluster and fits its sectors |
| ExfatReader.BootAccepted | src/mkpfs_native.c:1541-1555 | name, fixed fields, signatures, checksum and backup of the written boot region pass a check written from section 3 of the exFAT specification |
| ExfatReader.BootSumIsFold | src/mkpfs_native.c:1549-1554 | the boot checksum is that of section 3.4, taken front to back without flags and percentage in use |
| ExfatReader.FatDecoded | src/mkpfs_native.c:1561-1567 | every FAT entry decodes from the image as written |
| ExfatReader.Mounts | src/mkpfs_native.c:1541-1567 | a reader that starts at the boot sector finds FAT, heap and root directory; the FAT lies before the heap, has room for every cluster and begins with the two reserved entries |
| ExfatReader.ImageRoundTrip | src/mkpfs_native.c:1444-1634 | for every ASCII-named tree whose FAT size does not wrap, a reader following boot sector, FAT and entry sets recovers exactly the tree, and the image has volume_length * 512 bytes |
| ExfatAllocation.EveryClusterMarked | src/mkpfs_native.c:1568-1575 | a reader that looks the bitmap up in the root directory finds the bit of every cluster of the heap, and so of every run, set; and the up-case table it finds is the one given (sections 7.1 and 7.2) |
| ExfatAllocation.SpecialsRead | src/mkpfs_native.c:1262-1267 | first cluster and length in both special entries of the root directory lead, through the FAT, to what was written for them |
| ExfatWriter.VolumeTiled | src/mkpfs_native.c:1537-1590 | the extents of the prologue and of the files lie in the image and leave no byte out |
| ExfatWriter.SpansTile | src/mkpfs_native.c:1279-1291 | within a subtree every byte belongs to a directory's or a file's extent |
| ExfatWriter.BuildFat | src/mkpfs_native.c:1561-1566 | the FAT filled in place is media descriptor, reserved entry and the chains of all runs |
| ExfatWriter.WriteFront | src/mkpfs_native.c:1541-1586 | a fresh stage starts with both boot regions, FAT, bitmap, up-case table and root directory |
| ExfatWriter.WriteDirectories | src/mkpfs_native.c:1279-1291 | every directory below the root is written in place |
| ExfatWriter.Writer.CopyData | src/mkpfs_native.c:1374-1389 | a file's pieces and padding fill its clusters |
| ExfatWriter.Writer.WriteFile | src/mkpfs_native.c:1340-1402 | one file is skipped, counted or copied; the stage then holds everything but the files still to come, and so does each record saved; its bytes are counted once |
| ExfatWriter.Writer.MoveOn | src/mkpfs_native.c:1390-1400 | behind a file, a record is saved when one is due: the newest is less than 4096 files old and less than 128 MiB were copied since |
| ExfatWriter.Writer.Checkpoint | src/mkpfs_native.c:1304-1317 | a saved record describes the stage it was saved with |
| ExfatWriter.WriteFiles | src/mkpfs_native.c:1329-1339 | the recursion visits the files in preorder, counts all their bytes, and keeps the newest record less than 4096 files and 128 MiB of copied data old |
| ExfatWriter.WriteStage | src/mkpfs_native.c:1483-1611 | from an empty stage or from one that holds everything but the files from the recorded one on, the finished stage is the same image byte for byte; it succeeds unless cancelled, a source file changed or a checkpoint fails |
| Workspace.EstimateFromExfat | src/mkpfs_native.c:154-178 | answers exactly for block-aligned images whose table fits, with stage plus largest output |
| Workspace.EstimateBitmap | src/mkpfs_native.c:241-255 | the estimate's 64-bit loop finds the writer's bitmap size |
| Workspace.EstimateWorkspace | src/mkpfs_native.c:185-273 | answers exactly when no checked operation overflows and the limits hold, with the peak of the unbounded formula |
| Workspace.MulCheckedExact | src/mkpfs_native.c:51-55 | the division test detects exactly the products beyond 64 bits |
| Workspace.ContentBound | src/mkpfs_native.c:203-236 | for every tree the estimated content is at least the real content |
| Workspace.WorkspaceBound | src/mkpfs_native.c:185-273 | whenever an estimate is given, the exFAT stage and the largest packed output of the real tree fit in it together, the image can be packed, and the writer's FAT size does not wrap |
| Workspace.ContentSlack | src/mkpfs_native.c:200-236 | the estimated content exceeds the real one by one cluster a file, and one for every 64 KiB of directory entries, at most |
| Workspace.BoundReached | src/mkpfs_native.c:154-273 | the bound is reached: a tree of few nodes whose files are one byte longer than whole clusters, packed without any block getting smaller, needs all of the estimate |
| Workspace.NoWrap | src/mkpfs_native.c:1472 | an image whose offset table fits the limit is far from the 32-bit limit of the writer |
| Workspace.WriterWrapsAlone | src/mkpfs_native.c:1466-1472 | one file of 2^30 clusters passes the scan and the content limit, and its FAT is computed as 128 sectors instead of 8388736 |
| Workspace.GrantedFits | src/mkpfs_native.c:185-273 | a granted estimate keeps the writer's 32-bit FAT size exact |
| Workspace.DirectoryFits | src/mkpfs_native.c:1202-1203 | directory byte counts of an admitted tree fit 32 bits |
| ConversionProof.StepInv | src/mkpfs_native.c:1744-1878 | every step of the machine, crashes, error exits and source changes included, keeps its invariant |
| ConversionProof.CrashSafety | src/mkpfs_native.c:1744-1878 | over every run with crashes and restarts at any step, a file under the output name is byte for byte what one uninterrupted conversion of the captured source produces |
| ConversionProof.OutputUnpacks | src/mkpfs_native.c:1858-1867 | such a file is accepted by the verifier and unpacks to the captured image and zeros |
| ConversionProof.OutputAnnounces | src/mkpfs_native.c:955-962 | over every run, the metadata before the stream of a published file is that for the captured inner name, the length of the stream and the logical size the stream itself announces |
| ConversionProof.PublishOnlyVerified | src/mkpfs_native.c:1830-1849 | while the journal says PUBLISH and nothing is published, the stage would be accepted, as it is and after a crash |
| ConversionProof.CaptureFixed | src/mkpfs_native.c:1490-1498 | a recorded fingerprint never changes, and after the exFAT phase neither does the inner name |
| ConversionChecked.VouchedWasChecked | src/mkpfs_native.c:713-757 | over every run, whatever the stages contain, each block the record counts as verified was checked by a window of the verifier, and no restart has gone back behind it since |
| ConversionChecked.PublishAfterEveryBlock | src/mkpfs_native.c:765-769 | over every run, PUBLISH is entered only after each block of the stage at that moment was checked |
| ConversionChecked.PublishedWasChecked | src/mkpfs_native.c:1830-1849 | while the journal says PUBLISH, each block of the captured image was checked, and until publication the stage would be accepted again, now and after a crash |
| ConversionProgress.UndisturbedConversionPublishes | src/mkpfs_native.c:1744-1878 | in every undisturbed run, whatever the order of its checkpoints, no step is left if and only if the conversion of the captured source is under the final name and recorded as done |
| ConversionProgress.UndisturbedRunsEnd | src/mkpfs_native.c:1744-1878 | apart from checkpoints between files, an undisturbed run is no longer than a bound computed from its first state |
| ConversionProgress.InterruptedPublishes | src/mkpfs_native.c:1744-1878 | after any history of crashes, errors, restarts and source changes, every start that is accepted can be left alone and publishes the conversion of the source captured in the record |
| ConversionProgress.StartsExactly | src/mkpfs_native.c:1483-1511 | a start is accepted exactly if nothing is published and, in phase EXFAT, the source is the recorded one and, once a file was recorded, the stage has the recorded size and the source the recorded number of files |
| ConversionLevels.PackRecordsAreSteps | src/mkpfs_native.c:534-616 | the records the packing loop may save, with their stages, are exactly those that a checkpoint step of the crash machine saves |
| ConversionLevels.ExfatRecordsAreSteps | src/mkpfs_native.c:1304-1317 | the same for the exFAT writer |
| ConversionLevels.VerifyRecordsAreSteps | src/mkpfs_native.c:749-769 | the records of the crash machine's verifier are, one after the other, those of the verifying loop |
| ConversionLevels.HoldsIsPacked | src/mkpfs_native.c:531-566 | what the packing loop says about its stage is what the crash machine's invariant says, except for the file's length |
| EndToEnd.PlanValid | src/mkpfs_native.c:1537-1611 | the writer's extents for any family of trees make a plan the crash results apply to |
| EndToEnd.ConvertedTreeRecovered | src/mkpfs_native.c:1744-1878 | over every run, a published file verifies and unpacks to an image from which a reader recovers the captured tree |
| EndToEnd.GrantedTreeRecovered | src/mkpfs_native.c:185-273 | if the estimate was granted for a scan of the captured ASCII-named tree, over every run a published file unpacks to an image from which that tree is recovered, and exFAT stage and file fit in the estimate together |
| EndToEnd.GrantedConversionPublishes | src/mkpfs_native.c:1744-1878 | a fresh conversion of an ASCII-named tree whose estimate was granted can be left alone and publishes a file from whose image a reader recovers the tree |
| CopyRing.StepKeeps | src/filemgr.c:818-1026 | every critical section, read, write, failure and cancellation keeps the ring's invariant |
| CopyRing.CopyIsFaithful | src/filemgr.c:866-1026 | under every interleaving the destination is a prefix of the source, and a copy that returns 0 is the whole source |
| CopyRing.CancelledCopyFails | src/filemgr.c:983-999 | a copy that is cancelled at any moment before its last look at the flag returns failure |
| CopyRing.ReadySlots | src/filemgr.c:836-846 | the ready slots are the cyclic range from the write index; while the reader looks for a slot its index is the end of the range |
| CopyRing.SlotsNotShared | src/filemgr.c:845-863 | the reader never fills the slot the writer is draining |
| CopyRing.NeverStuck | src/filemgr.c:928-930 | until the copy returns, reader or writer can move without any call failing |
| CopyRing.CopiesEnd | src/filemgr.c:921-965 | a copy takes boundedly many steps however the threads interleave |
| CopyRing.UndisturbedCopySucceeds | src/filemgr.c:921-974 | without failing calls and cancellation a copy that returns, returns success |
| CopyRing.Pipeline.ReaderEnter | src/filemgr.c:835-847 | the reader's wait loop takes a free slot, sleeps or leaves |
| CopyRing.Pipeline.ReaderRead | src/filemgr.c:849 | a read lands the next bytes in the slot taken |
| CopyRing.Pipeline.ReaderPost | src/filemgr.c:851-862 | a slot is published, or the end or a failure announced |
| CopyRing.Pipeline.WriterEnter | src/filemgr.c:927-943 | the writer's wait loop picks the next slot, sleeps, fails or finishes |
| CopyRing.Pipeline.WriterWrite | src/filemgr.c:945-958 | a possibly short write appends slot bytes, and none once cancelled |
| CopyRing.Pipeline.WriterRelease | src/filemgr.c:960-964 | a drained slot is handed back |
| CopyRing.Pipeline.Leave | src/filemgr.c:976-985 | leaving raises both flags so that the reader leaves too |
| UrlSlots.StepInv | src/filemgr.c:2424-2460 | every step of workers and requests, cancellations and resumes between the two looks at the flag included, keeps the queue's invariant |
| UrlSlots.CounterIsExact | src/filemgr.c:2437-2447 | in every reachable state the counter is the number of workers holding a slot, at most two, and every transfer holds one, although the counter is not tested again after the wait loop |
| UrlSlots.SlotReturnedOnce | src/filemgr.c:2414-2422 | every way out, early cancellation and pause included, gives a slot back exactly as often as it was taken |
| UrlSlots.OneTransferPerTask | src/filemgr.c:3461-3470 | no two workers ever transfer for the same download |
| UrlSlots.OutcomeStands | src/filemgr.c:2663-2674 | once its worker has reported, and until it is resumed, a download is in the state its transfer ended with; one that failed with a cancellation asked for is cancelled, and a later request may turn a paused or failed one into a cancelled one |
| UrlSlots.NoneAbandoned | src/filemgr.c:2815-2850 | no download stays queued or running when its workers are gone |
| UrlSlots.AllSlotsFreeAtRest | src/filemgr.c:2662-2675 | when every worker has gone the counter is zero |
| UrlSlots.NeverStuck | src/filemgr.c:2438-2442 | while a worker is left, a worker or an announced broadcast can move |
| UrlSlots.NoLostWakeup | src/filemgr.c:2438-2441 | in every reachable state a sleeping worker waits for one of two slots that are both taken, and its download is not cancelled, or else a broadcast is on its way |
| UrlSlots.UnguardedResumeBreaksTheBound | src/filemgr.c:3462-3464 | if any download could be resumed, a flag cleared between the two looks at it would let a third worker take a slot |
| UrlSlots.Queue.AwaitSlot | src/filemgr.c:2436-2441 | the wait loop sleeps while both slots are taken, unless cancelled, and otherwise ends with the lock held |
| UrlSlots.Queue.Acquire | src/filemgr.c:2442-2446 | the second look at the flag: a cancelled download takes no slot, any other one does; the lock is released |
| UrlSlots.Queue.CheckCancel | src/filemgr.c:2448-2458 | a transfer starts only with a slot and without a cancellation |
| UrlSlots.Queue.LookAgain | src/filemgr.c:2815-2817 | behind the transfer, the last look at the flag turns a failure into a cancellation |
| UrlSlots.Queue.Tell | src/filemgr.c:2823-2850 | the outcome becomes the state of the download |
| UrlSlots.Queue.Exit | src/filemgr.c:2414-2424 | leaving returns a held slot and wakes everybody waiting |
| UrlSlots.Queue.RequestCancel | src/filemgr.c:3383-3419 | cancels exactly active, paused and failed downloads, and announces a broadcast |
| UrlSlots.Queue.RequestResume | src/filemgr.c:3461-3470 | clears the flag only for a failed or paused download and starts one worker |
| Download.StepInv | src/url_download.c:692-982 | every event of attempts, kills, recoveries and file removals keeps part and answer in step |
| Download.PartIsPrefix | src/url_download.c:718-745 | across fresh, ranged, range-ignored, paused, failed, killed and recovered attempts, part, destination and everything ever published are prefixes of the remote content |
| Download.AnnouncedIsWhole | src/url_download.c:946-962 | as long as attempts start with a counter that matches the part, a file published with an announced length is the whole content |
| Download.UndisturbedStartsFresh | src/url_download.c:735-745 | unless somebody removes the part or a publication fails after moving it, every attempt starts that way, kills and recoveries included |
| Download.UndisturbedIsWhole | src/url_download.c:946-962 | so without such interference every file published with an announced length is the whole content (RFC 9110, sections 14.2 and 15.3.7) |
| Download.AttemptSafeExactly | src/url_download.c:718-745 | an attempt publishes nothing but the announced content, whatever server and storage do, if and only if it starts with a non-empty part or a zero counter (or the remote file is empty, or the counter exceeds a one-byte one) |
| Download.StaleCounterPublishesTruncation | src/task.c:224-227 | in every other case there is a run that publishes a strict prefix as complete |
| Download.LosingThePartMayTruncate | src/url_download.c:735-739 | such a start is reachable: pause, lose the part, resume |
| Download.UnannouncedMayTruncate | src/url_download.c:908-915 | without an announced length even an undisturbed run may publish an empty file |
| Download.WholeExactly | src/url_download.c:946-962 | undisturbed histories publish only whole files under a given flag if and only if the flag says announced or the remote file is empty |
| Download.RecoveryAsksForTheRest | src/url_download.c:1011-1036 | after a kill the part is cut to the journaled offset and the next request asks for exactly the rest |
| Download.KillLosesLittle | src/url_download.c:911-931 | wherever a kill strikes an undisturbed history while bytes arrive, recovery cuts off less than 4 MiB, or 4 MiB and one read while the counters are being saved |
| DownloadLoss.LossSafeExactly | src/url_download.c:692-1036 | after any history of events and whatever was flushed meanwhile, losing power is safe if and only if for each length recovery would accept, the remote content is zero from the sure bytes up to the journaled offset; lengths, sure bytes and offset follow from the events |
| DownloadLoss.SyncedDecides | src/url_download.c:1011-1036 | while the journal counts no more than the part has: losing power is safe if and only if the remote content has only zeros between the last synchronized length (0 when the part is created, lost or cleared) and the journaled offset |
| DownloadLoss.RecoveredIsSettled | src/url_download.c:1021-1034 | after a safe loss and recovery everything is durable, and the condition applies anew to the next loss |
| DownloadPower.PrefixUnderSafeLosses | src/url_download.c:692-1036 | if at each power loss the durable part holds the journaled bytes, part and everything published are prefixes of the remote content over the whole run |
| DownloadPower.SynchronizedSavesSuffice | src/url_download.c:922-930 | if the part were durable at each save of the journal, every power loss would be safe |
| DownloadPower.PowerLossMayCorrupt | src/url_download.c:175-186 | as it is, a pause after one byte and a power loss leave a part that recovery accepts and that is not the remote content |
| DownloadPower.PowerLossMayPublishCorruption | src/url_download.c:1021-1036 | such a run goes on to publish a corrupted file under an announced length |
| Download.Transfer.OpenPart | src/url_download.c:718-739 | an existing part sets offset and counters, an empty or missing one leaves the counters |
| Download.Transfer.TakeAnswer | src/url_download.c:882-908 | a 206 answer continues, a 200 answer to a range request truncates and resets |
| Download.Transfer.TakeChunk | src/url_download.c:911-923 | a read is appended, counted with the clamp, and checkpointed every 4 MiB |
| Download.Transfer.Transmit | src/url_download.c:909-931 | the loop reads exactly what the answer delivers, and a matching counter stays matching |
| Download.Transfer.Conclude | src/url_download.c:932-962 | stop requests, the length check and publication decide the outcome |
| Download.Transfer.Move | src/url_download.c:660-690 | publication never overwrites and may fail before, between or after its two steps |
| Download.Transfer.Leave | src/url_download.c:964-981 | success and cancellation discard part and journal, everything else saves the counters |
| Download.Transfer.Run | src/url_download.c:692-982 | a whole attempt is a run of the model; its outcome is fixed by the answer: an announced one completes exactly when every remaining byte was delivered |
| TarHeader.OctalRoundTrip | src/download.c:136-140 | an octal field reads back the number written, within its width |
| TarHeader.SplitIsLossless | src/download.c:85-115 | a name is accepted exactly if it is short or has a usable slash; the last such slash is used, and prefix, slash and name give the name back |
| TarHeader.SplitName | src/download.c:97-112 | the backward scan finds that slash |
| TarHeader.HeaderRoundTrip | src/download.c:117-157 | an independent ustar reader accepts the checksum and recovers name, kind, size, mode and time (POSIX.1 pax, ustar Interchange Format) |
| TarHeader.RecordedExactly | src/download.c:85-130 | a header is refused exactly for 8 GiB or more, or for a name of 100 bytes or more without a usable slash |
| TarHeader.PlainFields | src/download.c:130-147 | user and group are 0, and link name, owner names and device numbers are empty |
| TarHeader.ChecksumHolds | src/download.c:70-83 | the stored checksum is the sum of the header with its own field blank |
| TarHeader.Checksum | src/download.c:70-83 | the loop over the header computes that sum in place |
| TarHeader.MakeHeader | src/download.c:130-147 | filling the fields in place gives the specified header, or refuses the name or size |
| TarStream.TarStream.StartPath | src/download.c:199-227 | a directory is stacked, a file's header queued and the file opened; a failing entry leaves exactly its fault behind |
| TarStream.TarStream.PrepareNext | src/download.c:229-300 | padding, directories, paths and final blocks come in the specified order; every turn delivers or makes progress |
| TarStream.TarStream.NextChild | src/download.c:261-275 | the next directory entry is taken and started |
| TarStream.TarStream.TakePending | src/download.c:319-332 | queued bytes are delivered up to the buffer |
| TarStream.TarStream.ReadFile | src/download.c:333-365 | file bytes are delivered for any length a read returns |
| TarStream.TarStream.Read | src/download.c:302-373 | one call delivers exactly the next bytes of the specified stream, up to its buffer, its end or a fault |
| TarArchive.BufferSizesDoNotMatter | src/download.c:302-373 | for any sequence of buffer sizes the concatenated output is the beginning of the same archive |
| TarArchive.FaultsExactly | src/download.c:315-318 | an entry that fails ends the stream for every way of reading it if and only if it comes first or directly before another failing one |
| TarArchive.SkipsTheFault | src/download.c:302-373 | for every sequence of buffer sizes, what is delivered around a failing entry: if a buffer reaches past it, everything before it and then what the later buffers deliver of the rest; otherwise a beginning of what is before it |
| TarArchive.EntryDisappears | src/download.c:199-373 | a selection with one entry in the middle that cannot be archived is delivered as the complete archive of the others, readable as such, if and only if a buffer reaches past the entry and later ones ask for enough |
| TarArchive.SmallestDisappearing | src/download.c:315-318 | the smallest such selection and two buffers that hide the failure |
| TarArchive.ArchiveRoundTrip | src/download.c:333-365 | a reader recovers every entry and its bytes if and only if no file shrank while it was read |
| TarArchive.SmallestShrunk | src/download.c:344-350 | a file that shrank from one byte to none is not read back, however the stream is read |
| TarArchive.ArchiveAligned | src/download.c:286-295 | an archive of intact files is a whole number of 512-byte blocks and ends in two zero blocks |
| TarArchive.SelectionRecovered | src/download.c:199-373 | the stream of a selection is, for all buffer sizes, one archive from which a reader recovers every entry exactly when no file shrank |
| TarArchive.SelectionUnpacked | src/download.c:199-373 | a reader of an archive of intact, plainly named files finds an entry for every file and folder, directly named or inside a folder, and none besides |
| TarArchive.EveryNodeNamed | src/download.c:199-275 | a folder is recorded under its name with one slash at its end, and each child under that name followed by its own |
| TarArchive.DirectoriesEndInSlash | src/download.c:207-209 | every directory entry ends in a slash |
| TarArchive.NothingElse | src/download.c:199-275 | the archive has as many entries as the selection has files and folders |
| Utf8.ProperEncodes | src/path_util.c:386-415 | lead bits and continuation bytes in range are the encoding of their code point |
| Utf8.EncodedIsProper | src/path_util.c:386-411 | every encoded character has that form, so nothing valid is refused |
| Utf8.StartsOnce | src/path_util.c:373-416 | at most one character begins a text |
| Utf8.TextStep | src/text.c:63-93 | a text is UTF-8 exactly if it is after its first character |
| Text.DecodeTail | src/text.c:70-92 | the bytes after a lead byte give the one character that begins there, or there is none |
| Text.ValidUtf8 | src/text.c:59-95 | accepts exactly the UTF-8 encodings of non-zero scalar values (RFC 3629, section 3) |
| Text.DetectNewline | src/text.c:109-131 | the scan returns the majority style |
| Text.StyleIsMajority | src/text.c:109-131 | no break occurs in the text more often than that of the style; line feed wins every tie and stands for a text without breaks, CR LF wins a tie with CR |
| Text.FormatText | src/text.c:133-189 | writes mark and converted body without ever leaving the buffer of the computed capacity, or refuses above 1 MiB |
| Text.TokensOfConverted | src/text.c:163-179 | a converted text scans as the same tokens with all breaks in one style |
| Text.SavedTextIsStable | src/text.c:133-189 | what was written, opened and saved again, is written unchanged |
| Text.SavingTwiceExactly | src/text.c:151-162 | saving the written bytes over the same earlier file is the identity unless the body began with two marks and the file with none |
| Text.UnchangedTextReproducesTheFile | src/text.c:133-189 | saving what the editor shows reproduces the file if and only if its breaks have one style and it begins with at most one mark |
| Text.DoubledMarkIsLost | src/text.c:151-154 | a file of two marks is written back with one, and such a text over a file without a mark loses both in two saves |
| Names.StrBuf.Reserve | src/json_util.c:8-30 | room is made by doubling from 4096, contents unchanged |
| Names.StrBuf.Append | src/json_util.c:32-41 | a string and its terminator are appended |
| Names.StrBuf.JsonEscape | src/json_util.c:64-90 | the escaped string is appended |
| Names.JsonRoundTrip | src/json_util.c:64-90 | a JSON reader sees one code point, equal to the byte, for every byte of the name (RFC 8259, section 7) |
| Names.DecodeChar | src/path_util.c:373-416 | returns the character that begins at the cursor, or there is none |
| Names.FsPathValue | src/path_util.c:418-465 | both passes give the specified conversion |
| Names.NameSurvives | src/path_util.c:418-465 | every NUL-free byte string, escaped to JSON, read back, sent as UTF-8 and converted, is itself again |
| Names.ConvertedExactly | src/path_util.c:418-465 | a received text is converted exactly if it is UTF-8, all its characters are below U+0100 and one is not ASCII; every other one stays as it is |
| Names.JsonIsAscii | src/json_util.c:64-90 | the escaped string is printable ASCII, and a name that needs no escape stands in it unchanged |

## Left out

- zlib: compression is an abstract codec of which only `uncompress(compress(block)) == block` is used; a failing `compress2` is not modelled.
- PFS metadata: its bytes are an abstract function of name and sizes that leaves the gaps between its parts zero; only where and when it is written is modelled.
- The fingerprint is taken to identify the captured source; collisions of FNV are not modelled.
- Creating, linking, renaming and removing files are single durable steps; `fsync` makes exactly one file's writes durable, and unsynchronized writes may survive in any part.
- The file models of the packer, the verifier and the exFAT writer do not fail on single reads and writes; error exits of the conversion between any two steps are covered by the crash machine.
- The crash machine writes without the packer's 64 KiB write buffer, which only delays writes a crash may lose or tear anyway, and restarts from the journal only, not from a record left in memory.
- Resuming an exFAT stage also compares its boot header (`src/mkpfs_native.c:1423-1441`), a further reason to refuse that the model does not need; stages that grew after their last checkpoint are refused.
- ExfatWriter.WriteFront: places the FAT by its mathematical size, which ExfatLayout.Geometry32Exact equates with the writer's 32-bit one for at most 2^30 - 128 entries; what the writer does beyond that is not modelled.
- ExfatWriter.Writer.WriteFile: a change of the source file while it is being copied (`src/mkpfs_native.c:1379-1386`) is not modelled.
- ExfatWriter.WriteStage: the same FAT size; and a source file is compared with its scan when it is opened (`src/mkpfs_native.c:1367-1374`), as the code does, but a change while it is being copied (`src/mkpfs_native.c:1379-1386`) is not modelled.
- ExfatReader.ImageRoundTrip: the image is the one for the mathematical FAT size, which ExfatLayout.FatSectorsExact equates with the writer's; trees are values rather than mutated nodes, timestamps are the writer's constant, and the up-case table is a parameter of the right size.
- ConversionProof.CrashSafety: does not say that an error means no output, because cleanup after publication may fail (`src/mkpfs_native.c:1867-1870`).
- PfscPool.Progress: spurious wake-ups are allowed but bounded only by PfscPool.RunsEnd leaving them out; joining the workers after the pool stopped is not modelled.
- CopyRing.CopyIsFaithful: opening, permissions, the temporary name and the final rename are not part of this model.
- Download.UndisturbedIsWhole: covers the host branch and the death of the process; TLS, redirects, the `__SCE__` branch, a changing remote file and two downloads for one destination are not modelled.
- ConversionProgress.InterruptedPublishes: restarts from the record only; a source that cannot be packed is refused after its exFAT stage.
- ConversionLevels.PackRecordsAreSteps: is about each record with its stage, not about the order of a run's records; the front of the stage, which the loop does not touch, is taken to be blank outside the metadata.
- DownloadLoss.LossSafeExactly: as in DownloadPower, the journal, the published file and the existence and name of a file are durable at once; only the bytes of the part lag behind.
- TarArchive.EntryDisappears: is about one entry of the selection itself that cannot be started; several, or one inside a directory, are covered by TarArchive.SkipsTheFault without a reader.
- UrlSlots.NeverStuck: says that some step is possible, not that the scheduler takes it; the queue limit of eight and other kinds of tasks are not modelled.
- TarArchive.SelectionUnpacked: is about names that are not empty and do not end in a slash, as names in a directory are; a selected path that ends in one gets no second.
- TarStream.TarStream.Read: cancellation, out-of-memory, read errors and a directory that vanishes before its header end the call like a fault and are not modelled; a path that is too long, cannot be opened or is not a regular file or directory is an entry that fails.
- TarHeader.HeaderRoundTrip: needs times below 8^11 seconds; later ones keep only their eleven leading octal digits, as TarHeader.Stamp has it.
- Names.NameSurvives: the JSON reader refuses surrogate escapes, which the escaper never writes; the size arithmetic of the buffer does not wrap.
- Text.FormatText: the capacity computation does not wrap, and allocation does not fail.
- HTTP routing, uploads, archive extraction, package installation, progress, speeds and messages.
