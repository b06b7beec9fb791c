# fragments: a verified model of the photo catalog

fragments catalogs the JPEG and RAW files of an S3 bucket: it lists the bucket,
renders thumbnails, records one row per capture in SQLite, lets the user rate and
reject photos, purges the rejected ones, recognises Fujifilm recipes, and pages the
result to a web gallery. This project models that behaviour in Dafny and proves what
it is meant to keep, over whole runs and for every input.

`dafny verify dfyconfig.toml` checks everything.

## How it is organised

**The scan.** `Pool` is the concurrent scan as a step system: the run goroutine, one
producer, n workers, the writer, the status goroutine and a cancellation, joined by
three bounded channels, where a send on a closed channel and a second close are steps
that leave the channel broken. `PoolInvariant`, `PoolOutcome` and `PoolProgress` hold
what every step keeps; `PoolTheorems` the results about whole runs. `ScanLoop` is the
sequential loop of the command line, which the pool refines. `ScanOutcomes` tells what
either does to each photo by its row and its listing alone, and `PoolMessages` what a run
says. `Rescan` is about scanning twice. `Status` is the event pipeline and the counters, `Hub` the fan-out of snapshots to
subscribers.

**Bucket, catalog, purge.** `Listing` pairs JPEG and RAW keys, `BucketDelete` deletes
objects, `CatalogStore` has the statements on one row, `World` the bucket, the rows, the
thumbnails and the albums together. `Coordinator` is the object that starts, runs and
ends purges, in the imperative form of the program; each of its methods is proved equal
to a function of `World` or `Purge`. `Purge` and `PurgeConverges` prove what purges do,
`PurgeOutcomes` tells it photo by photo,
`PurgeSpares` exactly what they leave alone, `History` what any interleaving of scans, purges,
failures and user decisions keeps, `PurgeHistory` and `ScanHistory` that each purge and
each scan, by the loop or by the pool, is such a history, and `Reconciliation` for which
prefixes a scan can orphan a RAW file. `ThumbPaths` compares the thumbnail paths with
those of the program.

**Recipes.** `MakerNote` is the parser, `MakerNoteFormat` its layout byte by byte,
`MakerNotePrinter` the printer and the round trip. `Recipe`, `RecipeCodec` and `RecipeRoundTrip` are the fields, the decoder and the
maker note of a recipe; `Fingerprint` is the text that is hashed; `RecipeTheorems` joins
them. `RecipeDecoding` tells what a decoded recipe says in the tags and codes of the
camera, `RecipeRules` what a recipe may say, and `RecipeIdentity` which recipes are the
same and what text they have. `Library` is the recipe library with its import and
export, `LibraryRules` what it takes and refuses.

**Gallery.** `Decimal` and `Cursor` print and read cursors, `Pagination` is one page,
`PaginationTheorems` a walk over pages with or without changes in between, `Gallery` the
client store, and `Retiming` what a photo that is dated anew does to its list.

**Files.** `Orientation` turns and scales thumbnails; `Restore` is the restore of a
backup, with the disk of every intermediate moment kept in a ghost field.

`Lex` orders strings by bytes, as Go and SQLite do.

## Assumptions

- Rows that come from the bucket record keys of the form base + kept extension
  (`World.FromBucket`, proved of every listing); rows from local directories carry an
  ETag that starts with `local-`, and bucket ETags do not.
- Key bases have no empty path elements. The program cleans the path of a thumbnail, so
  that "a//b" and "a/b" share a file; `CatalogStore.ThumbPath` does not.
  `ThumbPaths.CleanIsThumbPath` shows that they agree on such bases, and
  `ThumbPaths.SharedExactly` which other bases share a thumbnail.
- The prefix of a bucket scan does not separate the JPEG of a row from its RAW. Without
  this, reconciliation can remove a row whose RAW file is still there; with it, it
  cannot: `Reconciliation.NeverOrphanedExactly`. The prefix of a folder, and none at all,
  always meet this: `ScanHistory.FolderScanBegins`.
- Listings and single SQL statements are atomic, and other machines upload only between
  runs. Objects may vanish, and the user may rate and reject, at any moment.
- A call that deletes objects and is answered has deleted every key it does not report;
  one that fails may have deleted any part of its keys.
- Strings stand for their bytes, upper-casing and blanks are those of ASCII, and tones
  are multiples of 1/16 (what maker notes carry; validation asks for multiples of 1/2).

## Where the code and its comments part

- `RestoreBackup` treats every error of its first `Stat` as "no catalog": the catalog is
  then replaced without `-force` and without being parked. `Restore.MainKeptExactly` and
  `Restore.ForceRespectedExactly` tell exactly when the old file survives and when
  `-force` is respected; `Restore.StatErrorLosesCatalog` is a disk on which it is lost.
- It says that deleting the log is safe because the checkpoint came first, but a
  checkpoint that fails as unreadable is passed over: `Restore.FramesLost` tells exactly
  when the parked file then reads as before. A log whose removal fails stays next to the
  restored file: `Restore.ReadsDownloadExactly` tells exactly when the result then reads
  as the download, and `Restore.StaleLogSpoilsDownload` is a disk on which it does not.
- It says that the live catalog is touched only after the download was verified, and so
  it is (`Restore.FileSystem.Fetch`); a failure after that can leave the path without its
  catalog: `Restore.FailureReadsExactly` tells exactly when.
- Scrolling is said never to skip or duplicate a row. That holds of a timestamp and id; a
  photo that a rescan dates anew between two pages can be shown twice or not at all, and
  `Retiming.TwiceExactly` and `Retiming.ShownExactly` tell exactly when
  (`Retiming.RescanShowsTwice` is an example).
- A message dropped for a slow subscriber is said to do no harm because the next one
  supersedes it. The last broadcast of a run has no next one: `Hub.NewestSeenExactly`
  tells exactly which readers see it, and `Hub.StalledKeepsOldest` what a stalled one is
  left with.
- A failed thumbnail removal is called harmless. The file stays for good once its row is
  gone: `PurgeConverges.ReplayConverges` tells exactly which files do
  (`PurgeConverges.StuckThumbStays` is an example).
- A purge is meant to leave photos alone that are not rejected. It does, unless a
  rejected row from a local directory has a file named like one of their originals:
  `PurgeSpares.SparedInHistory`, with an example in `PurgeSpares.LocalRowErases`.
- A cursor is unambiguous exactly for timestamps without `|` and 64-bit ids
  (`Cursor.CursorRoundTrip`).
- Different recipes would hash the same text if a string held a newline
  (`Fingerprint.NewlineCollides`). No validated and no decoded recipe has one, and among
  those the text identifies the recipe (`RecipeTheorems.ValidSameText`,
  `RecipeTheorems.DecodedIdentified`, `RecipeTheorems.DecodedMatchesExactly`).
- The pool counts a failed skip check as one more failed photo where the loop stops
  (`PoolTheorems.LoopFailsExactlyOnCheck`).

## Model

| member | source | states |
|---|---|---|
| PoolTheorems.SafeAndLive | worker/coordinator.go:165-321 | in every interleaving: no send on a closed channel and no second close; until the run has returned some process other than the canceller can move; afterwards no step of the run is possible, so nothing of it can write the store |
| PoolTheorems.Terminates | worker/coordinator.go:165-321 | no schedule, cancelled or not, has more than 13 steps per photo, 3 per worker and 30 |
| PoolTheorems.RunKeeps | worker/coordinator.go:165-321 | every state of every run satisfies the whole invariant (shutdown order, place of every photo, catalog, log) |
| ScanOutcomes.PoolOutcomes | worker/coordinator.go:237-314 | a run that ends "done" passes over exactly the photos whose row has the listed nonempty JPEG ETag and the RAW ETag and whose thumbnail is there, none under force; writes exactly the others that do not fail, with what was listed and read and the id, rating and decision of an earlier row; renders their thumbnails; and counts them so |
| ScanOutcomes.LoopOutcomes | catalog/catalog.go:195-290 | the same of the loop |
| ScanOutcomes.FateMeans | catalog/catalog.go:268-290 | the outcome of a photo in these terms |
| PoolMessages.RunTells | worker/coordinator.go:231-314 | every event of every run is true: a failure names a photo and one of its errors in the right words, no photo is skipped under force, no bytes are freed, the total is that of the list |
| PoolMessages.EndsAs | worker/coordinator.go:197-320 | a finished run says "done" or "error" as its listing went, or "cancelled" only if it was |
| PoolMessages.StartMeans | worker/coordinator.go:92-101 | a run starts with nothing counted and every worker idle |
| PoolMessages.RoomOf | worker/coordinator.go:217-236 | no queue ever holds more than its room, two photos a worker on either side and 256 events, and senders wait exactly when there is none left |
| PoolInvariant.ControlKept | worker/coordinator.go:217-314 | each step keeps the shutdown order: who may still send on which channel, and which channels are closed when |
| PoolInvariant.PlacesKept | worker/coordinator.go:217-314 | each step keeps every photo in exactly one place: a queue, a hand, the store, or reported |
| PoolOutcome.InvKept | worker/coordinator.go:217-314 | each step keeps the catalog equal to the starting one plus exactly the photos stored, and the log equal to the outcomes reported |
| PoolProgress.NeverStuck | worker/coordinator.go:165-321 | a running state always has an enabled step that is not the cancellation, whatever is full, empty or closed |
| PoolProgress.Descends | worker/coordinator.go:165-321 | every step, the cancellation included, lowers the measure of the work left |
| PoolTheorems.Accounts | worker/coordinator.go:231-320 | of a finished run: no photo counted twice; at "done" each photo counted once, under the outcome its job decides; processed + skipped + failed = total (at most total otherwise); errors are the last 50 failures |
| PoolTheorems.PoolRefinesLoop | worker/coordinator.go:237-314 | a run that ends "done" without skip-check errors leaves the rows (up to new ids), thumbnails and counters of the sequential loop |
| PoolTheorems.LoopFates | catalog/catalog.go:195-266 | the loop meets, in list order, the fate that each job and the starting catalog decide |
| PoolTheorems.LoopFailsExactlyOnCheck | catalog/catalog.go:209-212 | the loop goes on through the first k photos exactly when none of their skip checks fails |
| ScanLoop.Cataloger.Run | catalog/catalog.go:195-229 | the loop, with limit, force, errors and interruption, changes the table, the thumbnails and the counters as `After` says, and returns the error that stopped it; under force nothing is skipped, and without an error the counters add up to the photos |
| ScanLoop.TruncateMeans | catalog/catalog.go:196-198 | a limit above 0 takes the first photos of the list |
| Rescan.ScanIsIdempotent | catalog/catalog.go:101-144 | after a scan without failure and any decisions, the same listing makes reconciliation remove nothing and skips exactly the photos that have an ETag; if all do, nothing changes |
| Rescan.PoolScanIsIdempotent | worker/coordinator.go:279-307 | the same for two runs of the pool, whatever their interleavings and sizes |
| Rescan.LoopUpdates | catalog/catalog.go:237-266 | a failure-free stretch of the loop leaves the row and the thumbnail of each of its photos up to date |
| Status.StatusBoard.Apply | worker/coordinator.go:361-408 | one event changes exactly the fields it concerns; only a phase asks for an immediate broadcast |
| Status.StatusBoard.Drain | worker/coordinator.go:326-347 | the status goroutine leaves the snapshot that the log alone determines |
| Status.ReplayAccounts | worker/coordinator.go:361-408 | the counters partition the outcomes in the log, the freed bytes are those of the photos done, the errors are the last 50 in order |
| Status.ReplayTotal | worker/coordinator.go:361-373 | total and phase are the last announced |
| Status.SnapshotCounts | worker/coordinator.go:386-400 | the three numbers count their events, and at most fifty errors are kept |
| Status.SnapshotErrors | worker/coordinator.go:389-396 | the errors kept are the last ones, oldest first; the error shown is the newest, photo and cause |
| Status.FailurePlaces | worker/coordinator.go:389-396 | they are the failures of the log, in its order |
| Status.SlotShows | worker/coordinator.go:371-385 | a worker's slot shows the photo of the last start on it, or none since it is idle |
| Status.SlotPreviews | worker/coordinator.go:371-385 | its preview is the photo started before the last event on it |
| Hub.RunKeeps | worker/hub.go:12-50 | however subscribers come, read, stall and go: no send on a closed queue, no second close, and each queue got its messages in order, once, all but those it missed |
| Hub.InvKept | worker/hub.go:12-50 | every step keeps this |
| Hub.OnlyOpenQueues | worker/hub.go:31-50 | messages go to queues that were never closed, and only such are closed |
| Hub.HolderMoves | worker/hub.go:41-50 | the holder of the lock can always move whatever the readers do, and is done after one step a subscriber and one more |
| Hub.AnyOrder | worker/hub.go:41-50 | the order in which subscribers are served makes no difference |
| Hub.MissedExactly | worker/hub.go:44-49 | a message is missed exactly by the queues that are full when it is offered |
| Hub.MissedForGood | worker/hub.go:44-49 | and never arrives later |
| Hub.NewestSeenExactly | worker/hub.go:8-10 | a reader through with its queue has the newest message exactly when its queue was not full at that broadcast |
| Hub.StalledKeepsOldest | worker/hub.go:8-10 | a subscriber that reads nothing keeps the first eight messages and misses all later ones, the last one included |
| Hub.Hub.Register | worker/hub.go:22-28 | a new open queue of a new subscriber |
| Hub.Hub.Leave | worker/hub.go:31-38 | closes the queue of a subscriber once; of anyone else nothing changes |
| Hub.Hub.Publish | worker/hub.go:41-50 | every subscriber is offered the message, full queues are passed over |
| Hub.Hub.Receive | server/run.go:86-93 | a reader gets the oldest message waiting |
| Listing.ListPhotos | catalog/s3.go:153-217 | over any pages: an error exactly if a page fails; else the captures with a JPEG in key order, with cleaned folder and name, and the set of all key bases seen |
| Listing.SortedPhotos | catalog/s3.go:205-216 | the photos of the pairs that have a JPEG, each once, in key order |
| ThumbPaths.FolderAndName | catalog/s3.go:322-328 | folder and name put together give the base back, unless it has empty path elements |
| ThumbPaths.NamelessBases | catalog/s3.go:187-192 | the name of the empty base is "." and that of slashes "/" |
| ThumbPaths.CleanIsThumbPath | catalog/catalog.go:292-295 | the cleaned path of the program is the thumbnail path of the model on bases without empty elements |
| ThumbPaths.SharedExactly | catalog/catalog.go:292-295 | two bases share a thumbnail file exactly when they differ in empty path elements only |
| ThumbPaths.SharedByDoubling | catalog/catalog.go:292-295 | so every base with a slash shares its thumbnail file with another base |
| Listing.PairedIsLast | catalog/s3.go:165-202 | for each base its last JPEG and last RAW are kept, and a base is present exactly when some kept key has it, RAW-only ones included |
| Listing.ListedPhotos | catalog/s3.go:184-216 | a listed photo has the last JPEG and the last RAW of its base, and every base with a JPEG is listed |
| Listing.KeptMeans | catalog/s3.go:164-179 | the keys kept: of a JPEG or RAW by their extension, not absolute, no folder, no backslash, no element "." or ".." |
| Listing.KindMeans | catalog/s3.go:311-320 | the two JPEG and eleven RAW extensions, whatever the case of their letters |
| Listing.ExtMeans | catalog/s3.go:169-183 | the extension is what follows the last dot of the last path element |
| World.ListedIsPresent | catalog/s3.go:205-208 | an object that is listed makes its key base present |
| World.ListedFromBucket | catalog/s3.go:165-202 | a listed photo records keys made of its base and a kept extension |
| World.ListsExactly | catalog/s3.go:153-163 | a complete listing holds exactly the objects whose key has the prefix |
| World.FromBucketExactly | catalog/s3.go:165-202 | what a photo of the bucket is |
| World.MissingIsGone | catalog/catalog.go:101-144 | a row that reconciliation takes for missing has none of its recorded keys in the bucket, as long as the prefix does not separate its JPEG from its RAW |
| World.ReconciledMeans | catalog/catalog.go:101-144 | row by row: a row goes exactly when the listing is not empty, its ETag is not a local one, its JPEG key has the prefix and its base is not listed; its thumbnails go but for those stuck, its album memberships too, and nothing else changes |
| World.EmptyListingKeeps | catalog/catalog.go:102-104 | an empty listing removes nothing |
| World.LocalEtagMeans | catalog/query.go:461-469 | a local ETag starts with "local-" in any case of letters |
| World.PileMeans | catalog/query.go:405-427 | the pile by the fields of the rows |
| World.RecordedMeans | catalog/query.go:405-427 | a row records the key of its JPEG and, if it has one, of its RAW |
| World.DeleteRowsMeans | catalog/query.go:529-543 | deleting rows takes them out of the albums and touches nothing else |
| History.InvKept | worker/purge.go:109-214 | every atomic step of scans, purges, failures and users keeps rows well keyed, the purge's snapshot accurate, and erased photos without objects |
| History.EmptyScanKeeps | catalog/catalog.go:97-104 | a scan whose listing holds no photo changes nothing |
| History.RemovedOnlyWhenGone | catalog/query.go:529-543 | whatever step removes a row, none of the keys it records is in the bucket |
| History.NoOrphans | worker/purge.go:64-221 | over any history, from any well-keyed catalog: no row disappears while the bucket still holds one of its originals; scans may use any prefix that separates no JPEG from its RAW |
| ScanHistory.LoopIsHistory | catalog/catalog.go:166-229 | a scan of the command line, stopped anywhere, is a sequence of steps of that machine from idle to idle, and no row it removes has an original in the bucket |
| ScanHistory.PoolIsHistory | worker/coordinator.go:165-321 | the same for a scan of the server, in any state of any interleaving of the pool |
| ScanHistory.FolderScanBegins | catalog/catalog.go:101-144 | a scan of a folder, or of the whole bucket, always meets the prefix condition |
| Reconciliation.NeverOrphanedExactly | catalog/catalog.go:101-144 | whatever the bucket and its complete listing, reconciliation never removes a given row while one of its originals is there, exactly when the scan does not concern the row, it has no RAW, or the prefix reaches the RAW too |
| Reconciliation.LongPrefixOrphans | catalog/catalog.go:101-144 | for every other row and prefix, a bucket and a listing that make it remove the row while its RAW is there |
| Reconciliation.ExampleRow | catalog/catalog.go:101-144 | "a.JPG" with "a.RAF" and the prefix "a.J" is such a case |
| History.SoundKept | catalog/store.go:202-277 | every step keeps ids unique and never reused, and no photo both rated and rejected |
| History.SurvivorsKeepIdentity | catalog/store.go:202-277 | through any stretch of history in which its row stays, a photo keeps id, albums, and the rating and decision the user gave it |
| History.DecideSound | catalog/query.go:349-388 | rating and rejecting keep the two selections exclusive |
| History.UpsertSound | catalog/store.go:202-277 | an upsert keeps ids unique and selections exclusive |
| History.OwnThumbsKept | catalog/store.go:202-277 | every step keeps each row with its own thumbnail path or none |
| History.RowsAt | catalog/store.go:202-277 | at every moment of every history the rows are well keyed and sound and record their own thumbnails |
| Coordinator.Coordinator.Start | worker/coordinator.go:76-107 | refused exactly when a run is active, changing nothing; otherwise the lock is taken and the pool has the size asked for, the default for 0 or less, and 32 for more |
| Coordinator.Coordinator.StartPurge | worker/purge.go:30-62 | refused when a run is active, when the store cannot tell the pile, or when there are not as many rejected photos as displayed, changing nothing; otherwise takes the lock with the whole pile |
| Coordinator.Coordinator.Cancel | worker/coordinator.go:112-118 | heard exactly while something can be cancelled |
| Coordinator.Coordinator.ListDiscarded | catalog/query.go:405-427 | all rejected photos, each once, in key order, with the keys and sizes of their rows |
| Coordinator.Coordinator.DeletePhotos | catalog/query.go:529-543 | deletes chunk by chunk, with album membership; a failure leaves exactly the chunks before it deleted |
| Coordinator.Coordinator.ReconcileMissing | catalog/catalog.go:101-144 | on success removes exactly the rows that a nonempty listing should have shown and did not, with their thumbnails, and returns their number; on a store failure only some of those rows; an empty listing removes nothing and returns 0 |
| Coordinator.Coordinator.RemoveThumbFiles | catalog/catalog.go:136-142 | removes exactly the thumbnail paths of the removed rows, except those whose removal fails |
| Coordinator.Coordinator.KeepLive | worker/purge.go:132-139 | splits a batch into the photos still rejected and one skip for each spared one |
| Coordinator.Coordinator.CollectKeys | worker/purge.go:146-152 | exactly the keys of the live photos, at most two each |
| Coordinator.Coordinator.KeepSurvivors | worker/purge.go:171-185 | one failure for each photo with a refused key, in order; the others survive to the next stage |
| Coordinator.Coordinator.EraseBatch | worker/purge.go:144-214 | originals, thumbnails, rows of the live photos, with every failure path, as `EraseLive` says |
| Coordinator.Coordinator.PurgeSurvivors | worker/purge.go:189-213 | thumbnails first, then rows; a store failure keeps every row |
| Coordinator.Coordinator.PurgeBatch | worker/purge.go:109-214 | one round, from recheck to rows, equals `RunBatch` on the world, the events and the stop |
| Coordinator.Coordinator.PurgeBatches | worker/purge.go:109-214 | the loop over batches of 200 equals `RunPurge` |
| Coordinator.Coordinator.Purge | worker/purge.go:70-221 | starts and ends with its phase, releases the lock, and changes the world as `RunPurge` says; an unreachable bucket changes nothing |
| Coordinator.Coordinator.SetRating | catalog/query.go:349-367 | refuses a rating outside 0 to 5; else changes the selection of that row alone, to this rating, and a positive one clears the reject |
| Coordinator.Coordinator.SetDecision | catalog/query.go:372-388 | refuses an unknown decision; else changes the selection of that row alone, and a reject clears the rating |
| Coordinator.Coordinator.Decisions | catalog/query.go:349-388 | user decisions act on the rows one after the other |
| BucketDelete.Bucket.DeleteObjects | catalog/s3.go:245-271 | calls of at most 1000 keys, one after the other: the objects, the errors in order and the failure are those of `Deleted`, also when a call fails after others succeeded |
| BucketDelete.Bucket.Explained | catalog/s3.go:262-268 | the refusals, one error each in order, code before message |
| BucketDelete.DeletedMeans | catalog/s3.go:245-271 | only the given keys are touched, and without a failure every key not reported is gone |
| BucketDelete.CallMeans | catalog/s3.go:245-271 | of the first thousand keys exactly those refused stay, or those a failed call had not got to, and nothing is deleted after a failure |
| BucketDelete.AnswersPurge | worker/purge.go:146-170 | for the keys of a batch, the objects, the errors by key and the failure are what the purge makes of one answer of the bucket |
| Purge.PurgeAccounts | worker/purge.go:109-214 | of any purge: exactly one outcome per photo unless cancelled, at most one then; "done" for exactly the photos erased, with their sizes |
| Purge.PurgeSnapshot | worker/coordinator.go:361-408 | the snapshot a purge ends with: processed + skipped + failed = total (at most when cancelled), processed the photos erased, bytes freed their sizes, the last 50 failures |
| PurgeOutcomes.BucketMeans | worker/purge.go:132-170 | an object goes exactly when a photo of the batch that is rejected at the recheck has its key and the bucket did not keep it |
| PurgeOutcomes.RowsMean | worker/purge.go:200-214 | a row goes, with its album memberships, exactly when its photo lost all its originals so and the store did not fail |
| PurgeOutcomes.ThumbsMean | worker/purge.go:189-199 | a thumbnail goes exactly when such a photo has it and it can be removed |
| PurgeOutcomes.OutcomesTold | worker/purge.go:109-214 | each photo is told its one outcome: spared, failed with its cause, or done with the bytes of JPEG and RAW |
| PurgeOutcomes.StopsExactly | worker/purge.go:112-163 | a batch stops the purge exactly when the cancellation is seen before it or cuts its delete call short |
| PurgeOutcomes.BatchesOf | worker/purge.go:109-115 | batches of two hundred, the last of those left |
| PurgeOutcomes.SizesMean | worker/purge.go:211-213 | the freed bytes add up the sizes of JPEG and RAW |
| PurgeConverges.BatchKeepsTarget | worker/purge.go:109-214 | a batch with any failures neither loses nor gains anything relative to the clean result but exactly the thumbnails it leaves behind, and its lost rows are exactly those reported done |
| PurgeConverges.LeftExactly | worker/purge.go:189-199 | these are the thumbnails of the photos it erased that were there and could not be removed |
| PurgeConverges.PurgeKeepsTarget | worker/purge.go:64-221 | the same for a whole purge |
| PurgeConverges.CleanPurgeReaches | worker/purge.go:64-221 | a purge without failure reaches the world without the rejected photos: objects, rows, thumbnails, memberships |
| PurgeOutcomes.TargetMeans | worker/purge.go:64-221 | that world, by the fields of the rows: the objects, rows, thumbnails and memberships of the rejected photos are gone, all others are as before |
| PurgeConverges.ReplayConverges | worker/purge.go:64-221 | after any number of failed or cancelled purges, one clean purge reaches what a single clean purge from the start would, together with exactly the thumbnails that the earlier ones left behind; it is the same world exactly when they left none |
| PurgeConverges.StuckThumbStays | worker/purge.go:189-210 | one rejected photo whose thumbnail cannot be removed: the row goes and the file stays |
| PurgeSpares.SparedKeepsAll | worker/purge.go:109-214 | through any purge, with any failures, cancellation and decisions meanwhile, a photo that is not rejected when its batch is rechecked keeps its row, its originals, its thumbnail and its albums, as long as no other photo of the list records one of these files |
| PurgeSpares.TargetSpares | worker/purge.go:64-221 | in the clean result a photo not rejected keeps all of these exactly under that condition |
| PurgeSpares.SparedExactly | worker/purge.go:64-221 | every purge keeps them exactly under that condition |
| PurgeSpares.SparedInHistory | worker/purge.go:64-221 | in every history of scans, purges and decisions, every purge keeps all that belongs to a photo not rejected exactly when no rejected row from a local directory has a file named like one of its originals |
| PurgeSpares.LocalRowErases | catalog/catalog.go:314-361 | "a.JPG" in the bucket, and the rejected row that a scan of the directory "." adds for the file of that name: purging it erases the object of the other photo |
| PurgeSpares.UnlistedIsSpared | worker/purge.go:109-139 | a photo that is not on the list is such a photo in every purge |
| PurgeHistory.PurgeIsHistory | worker/purge.go:70-221 | every purge, with any faults and decisions meanwhile, is a sequence of steps of the step machine |
| PurgeHistory.PurgeOrphansNothing | worker/purge.go:64-221 | after any purge, a photo without row has no object in the bucket, and one with a row records the same objects as before |
| MakerNote.ParseMakerNote | catalog/fuji.go:35-103 | on any bytes below 2^32 it ends, reads in bounds, and returns what the block at the first magic says, or the error it deserves |
| MakerNoteFormat.MagicMeans | catalog/fuji.go:36-39 | the magic is the eight letters FUJIFILM |
| MakerNoteFormat.ParsesMean | catalog/fuji.go:35-52 | a note is what follows the first magic; without one there is none |
| MakerNoteFormat.BlockMeans | catalog/fuji.go:40-52 | the four bytes after it are the place of the table, the two there the number of entries, lowest byte first |
| MakerNoteFormat.NumbersMean | catalog/fuji.go:70-101 | a numeric entry of 1 to 64 elements gives each of them from its own bytes, signed types negative in their upper half |
| MakerNoteFormat.NothingElse | catalog/fuji.go:70-82 | any other entry but a text has no value |
| MakerNoteFormat.TextMeans | catalog/fuji.go:57-69 | a text is its bytes without the NULs at its end, of at most 4096, empty when they are not there |
| MakerNoteFormat.LastWins | catalog/fuji.go:53-101 | of the entries with a tag the last one counts |
| MakerNoteFormat.TagKept | catalog/fuji.go:53-101 | and a tag that no entry has is not there |
| MakerNote.IndexOfMagic | catalog/fuji.go:36-39 | the first place of the magic, if any |
| MakerNote.ReadEntry | catalog/fuji.go:53-101 | one entry, inline or out of line; no 32-bit sum wraps behind the guards |
| MakerNote.DecodeElements | catalog/fuji.go:79-99 | the elements of one tag, with their signs |
| MakerNotePrinter.BuildMakerNote | catalog/fuji_test.go:21-65 | the printer's single pass produces header, table and tails in their places |
| MakerNotePrinter.RoundTrip | catalog/fuji.go:35-103 | for every printable list of at most 65535 entries, wherever the note sits among other bytes, parsing gives exactly the last value of each tag |
| MakerNotePrinter.RoundTripAlone | catalog/fuji.go:35-103 | the same for the note alone, whose size is below 2^32 |
| MakerNotePrinter.ValueBack | catalog/fuji.go:57-101 | the value of a printed entry is read back, from the entry or from the tail |
| MakerNotePrinter.ElementsBack | catalog/fuji.go:83-99 | little-endian elements of the six integer types are read back with their signs |
| MakerNotePrinter.TrimmedBack | catalog/fuji.go:106-118 | the NUL a text ends with is dropped, and nothing else |
| Recipe.ApplyNeutralDefaults | catalog/recipe.go:172-188 | fills exactly the absences that mean "neutral" |
| Recipe.MissingFields | catalog/recipe.go:192-219 | lists exactly the required fields that are absent after defaults; empty exactly for complete fields |
| Recipe.Validate | catalog/recipe.go:228-288 | no complaint exactly for fields within the vocabulary and the bounds |
| RecipeRules.ValidExactly | catalog/recipe.go:53-288 | valid are exactly the names of the vocabulary, tones from -2 to 4 by halves, and the bounds of the scales, shifts and temperature |
| RecipeRules.MissingExactly | catalog/recipe.go:192-219 | the names reported missing are those of the settings that are asked for and absent |
| RecipeRules.DefaultsMean | catalog/recipe.go:172-188 | which absences are filled in, and with what |
| Recipe.Normalize | catalog/recipe.go:297-314 | the stepwise normalization gives the four equivalences of a fingerprint |
| Recipe.NormalizedIdempotent | catalog/recipe.go:297-314 | normalizing twice is normalizing once, and neither completes nor spoils a recipe |
| Recipe.NormalizedValid | catalog/recipe.go:228-314 | normalizing keeps a valid recipe valid |
| RecipeIdentity.SameTextExactly | catalog/recipe.go:290-359 | recipes without newlines have the same text exactly when they are the same setting by setting: no priority is Off, tones up to the sign of zero, color only of color simulations and monochromatic color only of the others, size only of a grain, temperature only of Kelvin |
| RecipeIdentity.TextExactly | catalog/recipe.go:172-225 | there is a text exactly when every setting that is asked for is told |
| RecipeIdentity.TextSpelled | catalog/recipe.go:316-359 | the text in full: a version line and one line a setting in the order of the names |
| RecipeIdentity.ToneSpelled | catalog/recipe.go:326-331 | a tone prints as its sign, whole part and decimals, both zeros as 0 |
| RecipeIdentity.DecimalsSpelled | catalog/recipe.go:326-331 | the decimals make up the sixteenths and end in no zero |
| RecipeCodec.DecodeRecipe | catalog/recipe.go:366-442 | overwriting the defaults tag by tag gives, for each setting, what its own tags say |
| RecipeCodec.DecodeScales | catalog/recipe.go:374-401 | tones, color, sharpness, noise reduction and clarity, unknown codes leaving the default |
| RecipeCodec.DecodeEffects | catalog/recipe.go:402-421 | grain, grain size and the two color chromes |
| RecipeCodec.DecodeColors | catalog/recipe.go:422-440 | white balance, Kelvin temperature, shifts and monochromatic color |
| RecipeDecoding.FilmMeans | catalog/fuji.go:170-201 | the simulation by tags 0x1003 and 0x1401 and the codes of the camera; none without either |
| RecipeDecoding.TonesMean | catalog/recipe.go:374-379 | highlight is minus the first element of 0x1041, shadow that of 0x1040, in sixteenths |
| RecipeDecoding.ScalesMean | catalog/recipe.go:380-401 | color 0x1003, sharpness 0x1001 and noise reduction 0x100E by their codes, clarity 0x100F in thousands cut towards 0 |
| RecipeDecoding.EffectsMean | catalog/recipe.go:402-421 | grain 0x1047, size 0x104C, color chrome 0x1048 and FX blue 0x104E by their codes |
| RecipeDecoding.ColorsMean | catalog/recipe.go:422-440 | white balance 0x1002, temperature 0x1005 of Kelvin, monochromatic color 0x1049 and 0x104B |
| RecipeDecoding.ShiftsMean | catalog/fuji.go:303-312 | red and blue are the two elements of 0x100A in twentieths, rounded |
| RecipeDecoding.RangesMean | catalog/fuji.go:454-501 | dynamic range by 0x1402 and 0x1403, its priority by 0x1443 and 0x1445 |
| RecipeCodec.DecodedComplete | catalog/recipe.go:361-442 | whatever the note, a decoded recipe is complete |
| RecipeRoundTrip.FilmModeBack | catalog/fuji.go:170-187 | every color simulation of the vocabulary has a film mode that decodes to it |
| RecipeRoundTrip.SaturationBack | catalog/fuji.go:191-201 | every monochrome simulation has a saturation code that decodes to it |
| RecipeRoundTrip.ScalesBack | catalog/fuji.go:205-225 | every step of the three scales has a code that decodes to it, and color codes name no simulation |
| RecipeRoundTrip.WhiteBalanceBack | catalog/fuji.go:230-250 | every white balance of the vocabulary has a code that decodes to it |
| RecipeRoundTrip.RecipeHasMakerNote | catalog/recipe.go:228-442 | for every complete recipe that validation accepts there are bytes from which parser and decoder recover its normalized fields, -0 read as 0 |
| RecipeTheorems.DecodedIsRecipe | catalog/recipe.go:228-442 | what is decoded from these bytes is the same recipe, setting by setting |
| Fingerprint.SortedByKey | catalog/recipe.go:332-355 | sorting the lines puts them in the order of their keys, whatever the values, the temperature included |
| Fingerprint.NumInjective | catalog/recipe.go:326-331 | tones that print alike are the same number, the two zeros being one |
| Fingerprint.SameTextSameRecipe | catalog/recipe.go:297-359 | complete recipes without newlines have the same text exactly when their normalized fields are the same, up to the sign of zero |
| Fingerprint.NormalizedSameText | catalog/recipe.go:297-359 | normalizing first does not change the text |
| Fingerprint.NewlineCollides | catalog/recipe.go:332-357 | why strings must be free of newlines, which those of the program are: with newlines, different recipes would share a text |
| RecipeTheorems.DecodedSameText | catalog/recipe.go:290-297 | what is decoded from the maker note of a valid recipe hashes the same text as the recipe |
| RecipeTheorems.DecodedHasText | catalog/recipe.go:361-366 | a decoded recipe always has a fingerprint |
| RecipeTheorems.DecodedOneLiners | catalog/recipe.go:361-442 | no string of a decoded recipe has a newline, whatever the note, names made up for unknown codes included |
| RecipeTheorems.DecodedIdentified | catalog/recipe.go:297-366 | two decoded recipes have the same text exactly when their normalized fields are the same, up to the sign of zero |
| RecipeTheorems.DecodedMatchesExactly | catalog/recipe.go:228-366 | so have a decoded and a validated one |
| RecipeTheorems.EditedSameRecipe | catalog/recipe.go:228-359 | recipes that the editor takes have one text exactly when they are the same setting by setting |
| RecipeTheorems.DecodedSameRecipe | catalog/recipe.go:290-366 | so have two decoded ones |
| RecipeTheorems.PhotoMatchesExactly | catalog/recipe.go:228-366 | a photo matches an edited recipe exactly when it was taken with it |
| RecipeTheorems.ValidSameText | catalog/recipe.go:228-359 | among valid complete recipes the text identifies the recipe |
| RecipeTheorems.ValidOneLiners | catalog/recipe.go:53-118 | no name of the vocabulary has a newline |
| Library.Library.Create | server/recipes.go:63-86 | stores the trimmed document exactly when the editor's checks pass and nothing conflicts; otherwise changes nothing and names the conflict |
| Library.Library.Update | catalog/recipes.go:154-170 | replaces a known card and its fingerprint, or changes nothing and says whether the id is unknown or which other card conflicts |
| Library.Library.Delete | catalog/recipes.go:174-181 | removes the card and says whether it was there |
| Library.Library.Import | server/recipes.go:255-342 | refuses more than 1000 entries; otherwise each entry is stored, skipped or reported, the counters match the items and add up to the entries, and the library stays sound |
| Library.Library.ImportEntry | server/recipes.go:291-340 | the fate of one entry: its checks, its link, its conflict, its completeness |
| Library.Library.ListRecipes | catalog/recipes.go:83-99 | every card once, by name without regard to case |
| Library.Library.Export | server/recipes.go:346-361 | the documents of the listing |
| LibraryRules.AcceptableExactly | server/recipes.go:66-78 | the import takes a named document of at most 200, 200, 200, 500 and 10000 characters that says only what is allowed |
| LibraryRules.EditableExactly | server/recipes.go:63-86 | the editor also asks for every setting of a fingerprint and a usable link or none |
| LibraryRules.TrimMeans | server/recipes.go:64-64 | trimming takes away the blanks at both ends and nothing else |
| LibraryRules.CleanedMeans | server/recipes.go:285-309 | what becomes of a document before it is stored |
| LibraryRules.ConflictExactly | catalog/recipes.go:103-150 | a write conflicts exactly with another card of its name or of its settings |
| LibraryRules.EntryMeans | server/recipes.go:284-340 | an entry is refused, kept out by a conflict, or added as the newest card, and reported so |
| LibraryRules.EntriesInOrder | server/recipes.go:284-340 | entries are taken in order, each against what those before it left |
| LibraryRules.CountMeans | server/recipes.go:278-283 | the counters count the lines of the report |
| LibraryRules.ListedByName | catalog/recipes.go:83-99 | no card comes before one whose name, in small letters, is less |
| Library.InsertSound | catalog/recipes.go:135-150 | an insert without conflict keeps names and fingerprints unique and each fingerprint that of its fields |
| Library.ReplaceSound | catalog/recipes.go:154-170 | so does an update |
| Library.ImportKeeps | server/recipes.go:255-342 | any import keeps the library sound and re-importable |
| Library.CountersSum | server/recipes.go:278-283 | the four counters add up to the items |
| Library.ExportImports | server/recipes.go:344-361 | importing an export into an empty library gives the same cards, complete ones imported and the others incomplete, none skipped or refused |
| Library.ImportTwice | server/recipes.go:249-254 | importing any file a second time changes nothing: every entry is skipped or refused |
| Decimal.ParseItoa | catalog/query.go:323-330 | a printed integer is read back, exactly when it has 64 bits |
| Decimal.ParseMeans | catalog/query.go:547-561 | an integer is read from an optional sign and digits whose value fits into 64 bits |
| Decimal.ItoaMeans | catalog/query.go:323-330 | one is printed without leading zeros |
| Decimal.ValueMeans | catalog/query.go:323-330 | the value of digits |
| Cursor.DecodeEncode | catalog/query.go:547-551 | base64url decoding undoes encoding on every string of bytes |
| Cursor.SymbolMeans | catalog/query.go:328-330 | the alphabet of section 5 of RFC 4648 |
| Cursor.ThreeBytesMean | catalog/query.go:328-330 | three bytes are four symbols, highest bits first |
| Cursor.TwoBytesMean | catalog/query.go:328-330 | two bytes at the end are three symbols, filled up with zero bits |
| Cursor.OneByteMeans | catalog/query.go:328-330 | one byte at the end is two symbols |
| Cursor.CursorHolds | catalog/query.go:323-330 | a cursor holds null flag, text and id with bars between |
| Cursor.CursorExactly | catalog/query.go:547-561 | exactly which texts decode, and to what |
| Cursor.LineEndsIgnored | catalog/query.go:547-551 | line ends in a cursor make no difference |
| Cursor.CursorRoundTrip | catalog/query.go:323-561 | a cursor decodes to the null flag, text and id it was made of exactly for 64-bit ids and texts without a bar |
| Pagination.CountPhotos | catalog/query.go:140-151 | the number of rows that the filter asks for, by their fields |
| Pagination.ListPhotos | catalog/query.go:157-223 | an error exactly for a cursor that does not decode; else at most 60, 200 or the asked number of rows, all asked for by their fields and beyond the cursor, in order, none such passed over before the next cursor; a next cursor exactly when there are more; and the total of the filter in the table that was counted, which need not be the one read |
| Pagination.MatchesAsked | catalog/query.go:104-138 | what each part of the filter asks of a row |
| Pagination.StricterFilter | catalog/query.go:121-124 | a higher bar for the rating only removes rows |
| Pagination.PilesPartition | catalog/query.go:125-137 | every row is in exactly one of the piles keep, discard and none |
| Pagination.BeforeMeans | catalog/query.go:203-203 | later rows before earlier ones, undated ones last, of equal ones the greater id first |
| Pagination.BeyondMeans | catalog/query.go:176-190 | which rows a cursor has left behind |
| Pagination.BeforeOrders | catalog/query.go:203-203 | dated rows latest first, undated rows last, ties by id: a strict total order on (timestamp, id) |
| Pagination.BeyondIsBefore | catalog/query.go:176-190 | the cursor predicate selects exactly what comes after the cursor's row in that order |
| Pagination.NextCursorPos | catalog/query.go:323-330 | the next cursor is never empty and stands for the last row returned |
| Pagination.StorableExactly | catalog/query.go:323-330 | the tables this is about: distinct ids of 64 bits and timestamps without a bar |
| Pagination.AnswersUnique | catalog/query.go:192-204 | filter, cursor and order determine the answer |
| PaginationTheorems.ReturnedAtMostOnce | catalog/query.go:153-157 | whatever changes between requests and whatever the limits, a row with fixed timestamp and id is never returned twice |
| PaginationTheorems.ReturnedExactlyOnce | catalog/query.go:153-157 | one that exists and matches throughout a walk to the end is returned exactly once |
| PaginationTheorems.UnchangingWalk | catalog/query.go:153-223 | on an unchanging table the pages of a complete walk are the matching rows in order, no walk is longer than the rows, every page has the true total |
| PaginationTheorems.WalkGoesOn | catalog/query.go:168-174 | no page leaves a cursor that does not decode |
| Gallery.PhotosStore.Reset | web/src/stores/photos.ts:55-65 | a new epoch with an empty list; the loads in flight become stale |
| Gallery.PhotosStore.SetFilter | web/src/stores/photos.ts:66-70 | a new epoch that loads the first page of the new filter |
| Gallery.PhotosStore.Refresh | web/src/stores/photos.ts:73-76 | a new epoch that loads the first page of the same filter |
| Gallery.PhotosStore.BeginLoad | web/src/stores/photos.ts:77-89 | sends one load exactly when none of this epoch is in flight and there is more; at most one per epoch ever is |
| Gallery.PhotosStore.EndLoad | web/src/stores/photos.ts:89-99 | a stale answer changes nothing; a page of this epoch extends the chain; an error leaves the list and may be retried |
| Gallery.EightyAPage | web/src/stores/photos.ts:77-99 | pages of at most eighty rows, eighty when more follow |
| Gallery.OnScreen | web/src/stores/photos.ts:55-100 | the list on screen never shows a timestamp and id twice; while the catalog does not change it is a prefix of the listing of the current filter, all of it at the end |
| Retiming.ShownExactly | catalog/query.go:157-223 | a photo is on the page of a request exactly when it matches and the request goes past the place of its timestamp of that moment |
| Retiming.FixedTimesShowOnce | catalog/query.go:157-223 | when no photo is dated anew between the requests, no id is shown twice |
| Retiming.TwiceExactly | catalog/store.go:202-277 | an id is shown twice exactly when two requests go past the places it had at their moments |
| Retiming.RetimedShownAgain | catalog/store.go:202-277 | a photo that was shown and is then dated beyond the cursor reached is shown again by the end of the walk, if it stays and matches |
| Retiming.RetimedSkipped | catalog/store.go:202-277 | one whose place falls behind the cursor is on no page from there on |
| Retiming.RescanShowsTwice | catalog/store.go:202-277 | two photos, two requests and a rescan between them: the complete list shows the first photo twice |
| Orientation.ApplyOrientation | catalog/thumb.go:74-93 | every pixel goes where the Orientation tag puts it, for all eight values and unknown ones |
| Orientation.Rotate90 | catalog/thumb.go:95-105 | a quarter turn realises orientation 6 |
| Orientation.Rotate270 | catalog/thumb.go:107-117 | the other quarter turn realises orientation 8 |
| Orientation.Rotate180 | catalog/thumb.go:119-129 | a half turn realises orientation 3 |
| Orientation.FlipH | catalog/thumb.go:131-141 | a horizontal mirror realises orientation 2 |
| Orientation.FlipV | catalog/thumb.go:143-153 | a vertical mirror realises orientation 4 |
| Orientation.MirrorTurns | catalog/thumb.go:82-89 | mirroring after a quarter turn realises 5 and 7 |
| Orientation.PlaceMeans | catalog/thumb.go:74-153 | the eight orientations by coordinates |
| Orientation.PlaceBijective | catalog/thumb.go:74-93 | each orientation places every pixel inside the upright picture, and its inverse brings it back |
| Orientation.UprightUnique | catalog/thumb.go:74-93 | the upright picture is determined by the tag |
| Orientation.InverseRestores | catalog/thumb.go:74-93 | 6 and 8 undo each other, the others themselves, on every image |
| Orientation.ScaleToFit | catalog/thumb.go:43-70 | each side at least 1, never enlarged, none above the edge |
| Orientation.ScaledOnlyDown | catalog/thumb.go:46-48 | a picture is left alone exactly when it fits |
| Orientation.ScaledMeans | catalog/thumb.go:49-70 | otherwise the longer side becomes the edge and the other keeps the proportion, cut to whole pixels but never to none |
| Orientation.ScalingCommutes | catalog/query.go:298-308 | scaling then turning has the sides of turning then scaling, which the listing announces |
| Restore.FileSystem.RestoreBackup | catalog/backup.go:83-148 | the result and the final disk are those of `RestoreEnd`; at every intermediate disk the main file that was in place is in place or aside exactly when the restore fails or the file was seen or coincides with the download or an earlier aside; each sidecar is left exactly when it was there and its removal failed; refused without force when seen; only a verified download is ever installed |
| Restore.FileSystem.Fetch | catalog/backup.go:97-128 | download and verification never touch the catalog, and succeed only with a verified file |
| Restore.FileSystem.DrainOld | catalog/backup.go:185-204 | a checkpoint, complete, busy or failing, never changes what a reader sees |
| Restore.FileSystem.ParkOld | catalog/backup.go:130-140 | the catalog found is parked as the checkpoint left it, or stays in place |
| Restore.FileSystem.Install | catalog/backup.go:141-148 | at every disk meanwhile the parked catalog stays and only the verified download comes into place; no sidecar is left unless its removal failed |
| Restore.MainSurvives | catalog/backup.go:83-148 | at every moment the main file that was found is in place or aside |
| Restore.MainKeptExactly | catalog/backup.go:83-148 | when the restore ends, the main file that was in place is in place or aside exactly when the restore fails, or its `Stat` did not, or the file coincides with the download or an earlier aside |
| Restore.ForceRespectedExactly | catalog/backup.go:83-148 | without force an existing catalog is refused exactly when it is seen, and left in place exactly when it is seen, the restore fails, or the download is the same file |
| Restore.StatErrorLosesCatalog | catalog/backup.go:83-96 | a disk and a failing `Stat` for which the restore succeeds without force and the old catalog is nowhere |
| Restore.ReadsDownloadExactly | catalog/backup.go:130-148 | after a success the catalog reads as the download exactly when the log was removed, absent or emptied, or no frame of it disagrees with the download |
| Restore.StaleLogSpoilsDownload | catalog/backup.go:130-148 | a disk for which the restore succeeds and the catalog reads as something else |
| Restore.FailureReadsExactly | catalog/backup.go:83-148 | a failed restore leaves the catalog reading as before, except exactly when the last rename fails after the catalog was parked, or, unseen, after a log with news was removed |
| Restore.NothingLost | catalog/backup.go:130-145 | after a checkpoint that succeeded, at every moment the whole old content is readable in place or aside |
| Restore.FramesLost | catalog/backup.go:185-204 | after one that failed, the parked file reads as before exactly when every frame with news had been folded in |
| Restore.VerifiedMeans | catalog/backup.go:150-183 | a file is taken for a catalog when it is intact, of version 3 or less, and has the table of photos |
| Restore.FailsWith | catalog/backup.go:83-148 | which error a restore ends with: the first that happens, in the order of its steps |
| Restore.TempsMean | catalog/backup.go:97-128 | a restore that ends before its download changes no file, one that ends later leaves no temporary file it could remove, and a success has the verified download in place |
| Restore.AsideMeans | catalog/backup.go:130-140 | a success leaves aside the file that was seen, after its checkpoint, or what was there |
| Restore.AfterDrainMeans | catalog/backup.go:185-204 | a checkpoint folds in all frames, or those it got to |
| Restore.LogicalMeans | catalog/backup.go:185-204 | a reader sees the frames of the log over the pages of the main file |

## Left out

- HTTP, sessions, sign-in, static files and the transport of server-sent events: plumbing around the snapshots modelled here.
- SQLite, the S3 client and the file system themselves: maps with atomic steps and arbitrary failures; transactions and schema migration are not modelled.
- SHA-256 and its truncation: two recipes are told apart by the text before hashing.
- Listing: quotes around ETags are already trimmed, and upper-casing of extensions is that of ASCII.
- Clocks, rates, remaining-time estimates and the status ticker: they change nothing modelled here. `StatusBoard` keeps no times, and the texts of fatal errors are not part of the snapshot.
- PoolTheorems.PoolRefinesLoop: the run is modelled from the table that reconciliation leaves, so the count of reconciled rows is not among its events, and a failure of the listing or of reconciliation is one error; user decisions during a scan are in `History`, not in `Pool`.
- PurgeConverges.ReplayConverges: decisions are unchanged between the purges, as the property says; with changed decisions `History.NoOrphans` and `PurgeHistory.PurgeOrphansNothing` still hold.
- MakerNote.ParseMakerNote: inputs of 4 GiB and more.
- RecipeCodec.DecodeRecipe: the display labels of `named`, which no recipe field uses; whether a decoded recipe passes validation (it need not: grain without size, fixed priority without strength and unknown codes do not).
- Recipe.Validate: the wording of the complaints.
- Pagination.ListPhotos: errors of the database; the columns of an item that neither the filter nor the order reads.
- Gallery.PhotosStore.EndLoad: the optimistic edits of single items by rating and rejecting.
- Library.Library.Import: the messages of the report, blanks outside ASCII when trimming, and which links parse as http or https, which is a parameter.
- Orientation.ScaleToFit: the resampling of pixels and JPEG encoding; truncated floating-point division is integer division.
- Restore.FileSystem.RestoreBackup: SQLite leaving the old log behind on its own, and leftover sidecars of the temporary file after success.
- Backup upload and rotation, album order and export, configuration, local-directory listing, and the Vue components: easy members or foreign processes.
