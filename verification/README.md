# tg2s3: a verified model of an object store on Telegram messages

tg2s3 answers the S3 protocol and keeps each object as a list of Telegram messages, called blocks. What the messages
mean is recorded in SQLite: a row per block with a reference count, the blocks of each object and of each part of an
unfinished upload, and a queue of blocks whose messages are to be deleted. Deleting a message cannot be undone, and
several actors work on the same rows at once: requests, upload tasks and their cleanup, the background collector and
the collector that runs right after a release. This project models that core and proves its safety and its meaning.

| files | subject |
|---|---|
| `Prelude`, `Conditions` | result types, 64-bit integers, ETag conditions |
| `Schema`, `Transactions`, `Invariants` | the tables, each transaction as a function on them, the invariant every one keeps |
| `Outcomes` | what each transaction leaves in every row and queue entry, in terms of the tables alone |
| `Database`, `Store` | the same transactions as row-by-row code on objects, proved equal to those functions |
| `Lifecycle`, `Safety`, `RunTheorems` | the whole service as a state machine, the inductive invariant, theorems over all runs |
| `Progress` | that the steps take effect: a sent block becomes a part, a due block is deleted, a condemned one is cleaned |
| `ReusedIds`, `TornRead` | runs in which SQLite gives an old object id out again: when a read is sound, and a run that tears one |
| `Engine`, `Completion`, `Collector` | a plain put with its rollback, multipart completion, one pass of the collector |
| `Splitter`, `KnownLength`, `Spooled` | cutting a body into blocks, streaming or spooled |
| `Download`, `RangeReader`, `RoundTrip`, `RangeHeader` | exact ranges out of arbitrary chunks, clipping blocks, the round trip, `Range` headers |
| `EndToEnd` | from the frames of the parts through upload, commit and stream to the bytes of a range |
| `KeyOrder`, `Listing`, `Scan`, `Pagination` | key order and successors, the naive listing, the scan with seeks, following the cursor |
| `CleanupRegistry` | the registry of staged blocks of an upload, over every interleaving |
| `Bandwidth`, `CanonicalQuery` | the bandwidth schedule, the canonical query string of SigV4 |

## How it is modelled

- A transaction is one atomic step. SQLite transactions are taken as serializable, and an error rolls back: in
  `Database` a transaction works on a copy of the tables that becomes current only at commit.
- An interleaving is a sequence of events of `Lifecycle`. A message is sent, then recorded, then put into a part, by
  separate events; the collector and the cleaner read, delete and report by separate events; a read of an object is two
  events. A database error in a cleaner, a Telegram error that comes after the message is gone, a cancelled task and a
  restart of the process are events too. The collector's lock is not modelled, which only adds interleavings.
- Row ids, message ids and upload ids are chosen by the event and are new over the whole run. The schema has no
  AUTOINCREMENT, so for row ids this is an assumption and not a fact of the code. For object ids `ReusedIds` drops it: a
  commit or copy takes any id that is free once the row it replaces is gone. A read of two queries is then torn exactly
  when an event between them gave the id to other blocks of the same size and that row is still stored; SQLite's rule
  (one more than the largest id) excludes this while a larger id stays stored, and `TornRead` has a run from the empty
  database, by that rule, in which an overwrite of the only object tears a read.
- A staged block belongs to the one request that uploaded it until that request puts it into a part or gives it up.
- The pair (chat id, message id) is one number, and so are row ids; a clock reading is a parameter, one for each
  transaction. Bandwidth is computed over the reals.
- Loops of the source are loops here, with the same branches and the same order of checks; some are split into a method
  for the loop and one for its body. What a loop computes is stated by a function that does not mention the loop.

Where the code and its documentation part ways, the model follows the code: a suffix range longer than the object has a
negative start and an announced length that is too large, and a page that ends in a common prefix of nothing but
char::MAX can be marked truncated with nothing left. Both are proved with a concrete input and with the exact condition,
on the header and the size for the first, on the keys and the request for the second.

## Model

| member | source | states |
|---|---|---|
| RunTheorems.CollectionIsSafe | src/engine/gc.rs:44-151 | over every run: once a message is gone, no object and no part refers to its block, then or at any later moment, whoever deleted it |
| RunTheorems.DeletedForever | src/transfer/cleanup.rs:154-223 | over every run: a deleted message never comes back under its id |
| RunTheorems.StoredObjectsAreReadable | src/db/support.rs:170-188 | over every run: each piece of each stored object has a row, an unqueued one, whose message Telegram still holds |
| RunTheorems.RefCountsAreExactInRuns | src/db/support.rs:108-134 | over every run: a block counts exactly its rows in both tables and is unqueued, or has none and is staged with count 1 or queued with count 0 |
| RunTheorems.QueuedIsAbsorbing | src/db/gc.rs:138-175 | over every run: a queued block stays queued, at count 0 and unreferenced, until its row is deleted for good |
| RunTheorems.HistoryWasStored | src/db/object.rs:11-36 | every object id ever seen was stored, with that very row, at some moment of the run |
| RunTheorems.TornReadsNeverEscape | src/engine/object.rs:82-91 | a read of two queries, with any events in between, returns the object exactly as it was stored at its first query, or nothing |
| RunTheorems.CopySourceIsCurrent | src/db/object.rs:123-140 | when the source lock of a copy succeeds, the earlier snapshot is what is stored now, block for block |
| RunTheorems.StoredNameStep | src/db/support.rs:139-167 | in any step, a name changes only by a write or delete whose condition allows the ETag in force at that moment |
| RunTheorems.ListedTagsProtect | src/model.rs:44-58 | in any step, a write or delete under If-Match with a list of tags changes a name only if the stored ETag is one of them, and under If-None-Match only if it is none of them |
| RunTheorems.FailedConditionChangesNothing | src/db/multipart.rs:260-262 | a commit, copy or delete whose condition fails leaves the whole state as it was |
| RunTheorems.GoneMeansDeleted | src/db/object.rs:87-112 | a name that is stored and later is not was deleted by a successful delete in between |
| RunTheorems.CreateOnlyWritesNeedADelete | src/model.rs:44-58 | between a write and a later If-None-Match: * write of the same name there is a successful delete |
| RunTheorems.UploadFinishesOnce | src/db/multipart.rs:230-240 | over every run at most one commit, abort or expiry of an upload takes effect |
| RunTheorems.CommitConservesBlocks | src/db/multipart.rs:264-346 | a commit matches the persisted parts, and each block the upload held is then in the new object or in the queue, never both, and in no other object |
| RunTheorems.AbortConservesBlocks | src/db/multipart.rs:352-386 | after an abort each block the upload held is queued, at count 0 and unreferenced |
| Safety.StepKeepsInv | src/db/support.rs:170-188 | every step of every actor keeps the invariant that no actor is about to delete a message that is or may become referenced |
| Safety.RunKeepsInv | migrations/20260801000000_baseline.sql:1-81 | the invariant holds after every run from the empty database |
| Safety.CleanupStepKeeps | src/transfer/cleanup.rs:154-223 | each step of the cleanup of one block is safe, with the branch that deletes although queueing failed |
| Safety.StageBlockKeeps | src/transfer/upload/task.rs:155-196 | recording a sent message makes a row that nobody is going to delete |
| Safety.StageThenCancelKeeps | src/transfer/upload/task.rs:95-153 | a task cancelled after its row exists deletes a message that no part can ever use |
| Safety.PutPartKeeps | src/engine/multipart.rs:56-67 | putting owned blocks into a part ends their owner's hold, and no condemned block is among them |
| Safety.ReadIsExact | src/engine/object.rs:128-146 | what passes the layout check after the second query is the row read first, with its own pieces |
| Progress.DueBlockIsCollected | src/engine/gc.rs:137-143 | a due block that is picked, whose message Telegram deletes and that is reported has no row, queue entry or message left |
| Progress.FailedDeleteIsRetried | src/engine/gc.rs:144-149 | if Telegram fails, the block keeps row and message, and its entry has one more attempt and the next one at the time given |
| Progress.SentBlockEntersPart | src/transfer/upload/task.rs:155-196 | a message that is sent, recorded and put into a part is that part, its message lives, and nobody owns it any more |
| Progress.CondemnedBlockIsCleaned | src/transfer/cleanup.rs:154-223 | a block that its request gives up is queued, its message deleted and its row removed, and nothing else changes |
| Progress.StoredObjectIsRead | src/engine/object.rs:82-91 | a read with nothing in between returns the stored object |
| Progress.CommittableIsCommitted | src/db/multipart.rs:217-346 | a commit that nothing stands against stores the flattened parts under its name |
| Progress.CurrentSourceIsCopied | src/db/object.rs:114-193 | a copy of a row that is still stored, under a condition that holds, stores it under the new name |
| Progress.DeleteTakesEffect | src/db/object.rs:87-112 | a delete removes the object exactly when the condition allows its ETag |
| TornRead.ReusedObjectIdTearsARead | migrations/20260801000000_baseline.sql:7 | a run from the empty database in which both puts take the id that SQLite's rule gives: a read that races with an overwrite returns the size and ETag of the old object with the block of the new one |
| ReusedIds.NewIdsAreFree | src/db/object.rs:11-36 | with ids that are new over the run, the runs with any free id are those of `Lifecycle` |
| ReusedIds.RunKeepsRows | migrations/20260801000000_baseline.sql:7-17 | over every run with any free id: stored rows have different ids and valid layouts, and so do the snapshots read |
| ReusedIds.TornIffInterfered | src/db/object.rs:11-36 | over every run with any free id: a read of two queries is torn if and only if an event between them gave its id to other blocks of the same size, and that row is still stored |
| ReusedIds.ReadIsSoundWithoutReuse | src/db/object.rs:11-36 | a read is sound if no commit or copy between its queries is given its id, or if the object has no bytes |
| ReusedIds.LargerIdPreventsReuse | migrations/20260801000000_baseline.sql:7 | with SQLite's rule for ids, no event is given an id while a larger one stays stored |
| ReusedIds.ReadIsSoundBelowALargerId | src/engine/object.rs:82-91 | with SQLite's rule, the read of an object is sound as long as one with a larger id stays stored |
| Schema.RefCountsAreExact | src/db/support.rs:108-134 | in valid tables the reference count is the number of rows that mention the block, counted row by row |
| Invariants.FloorIsNeverReached | src/db/support.rs:112-116 | every block about to be released counts at least one reference and is released on one account only |
| Invariants.AddStagedBlockKeepsValid | src/db/multipart.rs:67-86 | a new staged row keeps the invariant |
| Invariants.ReplacePartKeepsValid | src/db/multipart.rs:88-165 | replacing a part keeps the invariant, unqueues nothing and refers to nothing new but the given blocks |
| Invariants.CommitUploadKeepsValid | src/db/multipart.rs:217-346 | a commit keeps the invariant, unqueues nothing and refers to nothing that was unreferenced |
| Invariants.AbortUploadKeepsValid | src/db/multipart.rs:352-386 | an abort keeps the invariant and unqueues nothing |
| Invariants.RemoveObjectKeepsValid | src/db/support.rs:139-167 | removing an object keeps the invariant and unqueues nothing |
| Invariants.CopyObjectKeepsValid | src/db/object.rs:114-193 | a copy of a current snapshot keeps the invariant and unqueues nothing, onto its own name too |
| Invariants.SelfCopyKeepsBlocks | src/db/object.rs:140-186 | copying an object onto its own key succeeds, leaves every block row and the set of queued blocks as they were, and changes the object's id only |
| Invariants.QueueStaleBlockKeepsValid | src/db/gc.rs:138-175 | claiming a stale block keeps the invariant |
| Invariants.GcSuccessKeepsValid | src/db/gc.rs:51-62 | deleting the row of a collected block keeps the invariant |
| Invariants.GcFailureKeepsValid | src/db/gc.rs:64-84 | postponing or orphaning a queue entry keeps the invariant |
| Invariants.FlattenedLayoutIsValid | src/db/multipart.rs:281-313 | parts that pass the commit's check flatten into an object that passes the read's check, with the same size, within 64 bits |
| Invariants.FlattenBlocks | src/db/multipart.rs:281-313 | flattening keeps exactly the blocks of the parts, each once |
| Outcomes.PartReplaced | src/db/multipart.rs:88-165 | whether or not the part number existed: the upload has the new row under it and its other parts as before, and each block that only the old row had is queued, at count 0 and unreferenced; every other block is as it was |
| Outcomes.UploadCreated | src/db/multipart.rs:13-32 | the upload has no parts, and everything else is as it was; it fails exactly without the bucket or for an id in use |
| Outcomes.UploadAborted | src/db/multipart.rs:352-386 | only the upload is gone, each block it held waits in the queue, and every other block is as it was |
| Outcomes.ObjectDeleted | src/db/object.rs:87-112 | exactly under a condition that the stored ETag meets: the object is gone, each of its blocks loses one reference and waits if that was the last, and every other block is as it was |
| Outcomes.ObjectCopied | src/db/object.rs:114-193 | when it succeeds: exactly if the source is still the row that was read and the condition holds; each block gains one reference from the copy, loses one with what the name held, and the others are as they were |
| Outcomes.CommitsIff | src/db/multipart.rs:217-346 | a commit takes effect if and only if the upload is there, the parts differ in number, are stored as given, are laid out and add up to the size, and the condition holds |
| Outcomes.UploadCommitted | src/db/multipart.rs:264-346 | the rows after it: the blocks of the parts count one committed reference, the other blocks of the upload wait, those of the replaced object lose one reference, and the rest are as they were |
| Outcomes.CandidateIffDue | src/db/gc.rs:29-49 | in valid tables a block is a candidate exactly when it is queued, due and no orphan |
| Outcomes.CollectedRow | src/db/gc.rs:51-62 | a queued block has neither row nor queue entry afterwards; for any other block nothing changes |
| Outcomes.ClaimedRow | src/db/gc.rs:138-175 | a claim succeeds exactly for a staged block that nothing refers to, which then waits in the queue, and touches no other |
| Database.Transaction.DecrementBlock | src/db/support.rs:108-134 | one decrement is a release of that block |
| Database.Transaction.RemoveExistingObject | src/db/support.rs:139-167 | the condition decides, and on success the object is gone and all its blocks are released |
| Database.Transaction.VerifyParts | src/db/support.rs:193-252 | accepts exactly a duplicate-free list of which each part equals the persisted one |
| Database.Transaction.InsertObjectBlock | src/db/multipart.rs:287-312 | one inserted row installs one more piece: its block is unqueued and adopted |
| Database.Transaction.InsertCommittedBlocks | src/db/multipart.rs:281-313 | the loop over parts and blocks installs the flattened object, and the running offset never leaves 64 bits |
| Database.Transaction.InsertCopiedBlocks | src/db/object.rs:162-186 | the loop over blocks installs the copy, or a foreign key fails |
| Store.ValidatePartsLayout | src/db/support.rs:33-54 | accepts exactly the part lists that are contiguous, distinct and sum up to their sizes within 64 bits, and returns the total |
| Store.Db.CreateUpload | src/db/multipart.rs:13-32 | a new upload, or a missing bucket or duplicate id, with the whole new state |
| Store.Db.AddStagedBlock | src/db/multipart.rs:67-86 | a new staged row, or a duplicate, with the whole new state |
| Store.Db.ReplacePart | src/db/multipart.rs:88-165 | succeeds exactly if the upload is there and the blocks are different, recorded and unqueued; then the part is the new one even if there was one before, and the blocks that only the old one had are queued, at count 0, and returned; each error leaves the tables as they were |
| Store.Db.CommitUpload | src/db/multipart.rs:217-346 | the whole new state, each error and rollback, and which blocks were released |
| Store.Db.AbortUpload | src/db/multipart.rs:352-386 | the whole new state and the blocks released, or that the upload is gone |
| Store.Db.ExpireUploads | src/db/gc.rs:86-98 | an upload survives if and only if it was created at or after the bound; the blocks of the others wait in the queue, the rest is as it was, and the number of expired uploads is returned |
| Store.UploadsExpired | src/db/gc.rs:86-98 | aborting all uploads below the bound at once leaves exactly the others, queues exactly the blocks of the aborted ones and touches no object |
| Store.AbortOneMore | src/db/gc.rs:91-96 | one more abort after some others releases each block once, because no block is in two uploads |
| Store.Db.DeleteObject | src/db/object.rs:87-112 | the whole new state and the released blocks, absence, or a failed condition |
| Store.Db.CopyObject | src/db/object.rs:114-193 | the whole new state, each error and rollback, and the blocks released |
| Store.Db.QueueStaleBlock | src/db/gc.rs:138-175 | queues if and only if the block is staged and unreferenced |
| Store.Db.GcSuccess | src/db/gc.rs:51-62 | a queued block has neither row nor queue entry afterwards; nothing else changes |
| Store.Db.GcFailure | src/db/gc.rs:64-75 | counts one more attempt, sets the next one, and changes nothing else |
| Store.Db.GcOrphan | src/db/gc.rs:77-84 | marks the queue entry an orphan and changes nothing else |
| Engine.ValidateObjectLayout | src/engine/object.rs:128-146 | accepts exactly the valid layouts of that size, overflow included |
| Engine.PutObject | src/engine/object.rs:10-80 | stores exactly what was uploaded if and only if the bucket is there, the body came with the announced length and a valid layout, its blocks are recorded and unqueued, and the condition allows the stored ETag; otherwise no object changed, no upload is left, and each uploaded block has lost its row or is queued, or nothing changed at all if the part was never to be persisted |
| Engine.CleanUp | src/engine/object.rs:49-57 | when the part cannot be persisted, each uploaded block ends without a row or queued, whatever Telegram answers, and no other block is touched |
| Engine.RolledBack | src/engine/object.rs:70-78 | the rollback of the upload leaves none of the blocks over |
| Completion.SelectParts | src/engine/multipart.rs:91-131 | accepts exactly the lists of 1 to 10,000 lines with increasing numbers whose parts are stored with the same ETag up to quotes and blanks, with a 16-byte digest, at least 5 MiB each but the last, and within the limit; yields parts, total and ETag |
| Completion.SelectableMeans | src/engine/multipart.rs:91-131 | the line-by-line checks accept exactly those lists |
| Completion.InListOrder | src/engine/multipart.rs:112-131 | the selected parts are those of the lines in order, and what is hashed is their digests in order, 16 bytes each |
| Completion.TakeLine | src/engine/multipart.rs:107-129 | which line is refused, and for which reason |
| Completion.AcceptedListCommits | src/engine/multipart.rs:132-145 | an accepted list is committed unless the upload or its parts changed since they were read |
| Completion.CompleteMultipart | src/engine/multipart.rs:78-147 | success needs a multipart upload and a list as above, each ETag equal to the stored one up to quotes and blanks, and replaces the upload by the flattened parts it still had; failure changes nothing |
| Collector.GroupingLosesNothing | src/engine/gc.rs:77-100 | orphaning first and going backend by backend reports every candidate once |
| Collector.BatchIffOthers | src/engine/gc.rs:103-128 | there is a batch call for a candidate exactly when another one that is not given up goes to the same backend |
| Collector.PassMeans | src/engine/gc.rs:72-151 | from Telegram's answers to the tables: a Bot API message with 0 < date < now - 48 h becomes an orphan and keeps its row; one that a batch covered, or that was removed or missing when asked for alone, loses row and queue entry; one whose deletion failed keeps both with one more attempt and the next 300 seconds later; other blocks, objects and uploads are as they were |
| Collector.DeleteGroup | src/engine/gc.rs:103-151 | batch first, then one by one: each candidate is reported as Telegram answered, up to the first database error |
| Collector.ProcessGcCandidates | src/engine/gc.rs:72-101 | each of different queued candidates has the outcome that its age and Telegram's answers call for, and nothing else changes; the count is theirs; after a database error each has its outcome or is as it was |
| Collector.RunGc | src/engine/gc.rs:8-28 | never more than the limit is processed; the new state is expiry, then claims, then the outcome of each of the first candidates that the limit leaves, all of them unless a database error ends the run |
| Collector.ClaimedMeans | src/engine/gc.rs:16-20 | of the stale blocks found, exactly the staged and unreferenced ones are queued and counted, and nothing else changes |
| Conditions.HeaderListMatchesItsTags | src/model.rs:84-92 | a header that lists tags, quoted or bare, with blanks around them, matches exactly the tags it lists |
| Conditions.QuotedNormalizes | src/model.rs:60-62 | normalizing a tag gives the tag, quoted or bare, with any blanks before and after |
| Conditions.NormalizeMeans | src/model.rs:60-62 | of any value: exactly the whitespace around it, and then the quotes around the rest, are dropped |
| Conditions.ConditionsMean | src/model.rs:44-58 | If-Match with a list allows exactly a stored ETag on it, If-None-Match exactly the others and the absent object; * stands for any stored one; with both headers both must allow, with none anything is allowed |
| Conditions.CreateOnlyMeansAbsent | src/model.rs:44-58 | If-None-Match: * allows exactly the absent object, and If-Match never allows it |
| Splitter.WellCutIsCut | src/transfer/upload.rs:192-203 | blocks that follow one another by the block size and reach the end are the reference cut |
| Splitter.ReapOne | src/transfer/upload.rs:162-169 | taking any finished task loses no block, or reports its failure |
| Splitter.DrainTasks | src/transfer/upload.rs:171-184 | waiting for all tasks in any order loses no block and keeps the first failure |
| Splitter.SortedIsIssued | src/transfer/upload.rs:126-127 | sorting by ordinal recovers the order of issue from any order of completion |
| Splitter.JoinedInOrder | src/transfer/upload/known.rs:67-126 | the body is the data of its frames in order, however it is framed |
| KnownLength.FillPipe | src/transfer/upload/known.rs:90-125 | one write keeps the blocks well cut, and a full pipe becomes the next block |
| KnownLength.Feed | src/transfer/upload/known.rs:67-126 | for a frame of any size the blocks stay well cut, tasks stay within the concurrency, and the block size never fails on the layout |
| KnownLength.UploadKnownLength | src/transfer/upload/known.rs:10-144 | for every framing the uploaded blocks are the reference cut of the body; it succeeds whenever the length is right and the outside world works |
| Spooled.SpoolBody | src/transfer/upload/spool.rs:105-160 | the spool file is the joined frames, within the size limit |
| Spooled.UploadSpooled | src/transfer/upload/spool.rs:162-207 | the uploaded blocks are the reference cut of the file, with tasks within the concurrency |
| Spooled.UploadUnknownLength | src/transfer/upload/spool.rs:42-73 | for every framing the uploaded blocks are the reference cut of the body |
| PartUpload.CutShape | src/transfer/upload/spool.rs:173-201 | every block of a cut but the last has the chunk size, they are adjacent, and each holds its stretch of the body |
| PartUpload.CutLayoutIsValid | src/db/support.rs:33-54 | the pieces of any cut pass the layout check with the size of the body |
| PartUpload.UploadPart | src/transfer/upload.rs:102-140 | either splitter gives the same blocks in order, those of the reference cut |
| ExactRange.ExactStream.Take | src/telegram/download.rs:64-74 | at most what remains is taken from a chunk |
| ExactRange.ExactStream.Next | src/telegram/download.rs:17-53 | each chunk is the next non-empty piece of the range; an error comes only when the source is short |
| ExactRange.ReadAll | src/telegram/download.rs:6-74 | over any chunking, empty chunks included: exactly the range, or what there is of it and one error |
| ExactRange.ChunksInOrder | src/telegram/download.rs:17-53 | what a source yields is its chunks in order up to the first error |
| ExactRange.ReadPastTheEnd | src/telegram/download.rs:18-20 | after the end or the error nothing more comes |
| ExactRange.EveryFetchGivesTheRange | src/telegram/grammers.rs:216-243 | the skip of each way of fetching gives the requested range of the document |
| RangeReader.RangeStream.PullCurrent | src/transfer/download.rs:37-66 | a chunk of the current block is the next piece of what is owed |
| RangeReader.RangeStream.OpenNext | src/transfer/download.rs:68-96 | a block outside the range is skipped, and one inside is asked for its clip |
| RangeReader.RangeStream.Next | src/transfer/download.rs:32-98 | each chunk is the next piece of the range, and the body ends only when nothing is owed |
| RangeReader.ReadRange | src/transfer/download.rs:9-114 | what is read is a prefix of the range, and all of it unless an error is reported |
| RangeReader.ServedRange | src/telegram/grammers.rs:216-243 | whichever way Telegram serves a block, what it delivers is the start of the requested range, and all of it from a source that does not stop early |
| RangeReader.ServedWorldIsTruthful | src/transfer/download.rs:68-96 | blocks served in these ways are what the reader relies on |
| RangeReader.ServedWorldIsHealthy | src/transfer/download.rs:68-96 | if nothing is refused or stops early, every block delivers its clip |
| RoundTrip.ClipsAreTheSlice | src/transfer/download.rs:68-75 | the clips of the blocks, joined, are the requested slice of the object |
| RoundTrip.BodiesInOrder | src/db/multipart.rs:281-313 | bodies are joined in order with nothing between them |
| RoundTrip.CutHoldsTheBody | src/transfer/upload.rs:102-140 | the messages of a cut, joined, are the body |
| RoundTrip.FlattenedContent | src/db/multipart.rs:281-313 | the messages of a committed object, joined, are the bodies of its parts in order |
| RoundTrip.ReadsWhatWasWritten | src/transfer/download.rs:32-98 | for any bodies, chunk sizes and range, the clips of the committed object are that slice of the joined bodies |
| EndToEnd.StageBlocks | src/transfer/upload/task.rs:155-196 | the blocks of an upload get their rows, and their messages hold their content |
| EndToEnd.SendPart | src/engine/multipart.rs:30-76 | a body is cut, recorded and persisted under its number: it replaces what was there, whose blocks then wait for deletion, leaves the other parts alone, and succeeds whenever the outside works |
| EndToEnd.SendParts | src/engine/multipart.rs:30-76 | after any number of parts, in any order and some of them again, the upload has under each number that was sent the part made of the last body sent under it, and the other parts as before |
| EndToEnd.ReadObject | src/s3/object.rs:22-34 | without a Range header the whole object is read, with one exactly the positions that bytes=first-last asks for, and there is an answer whenever the header can be met and Telegram delivers |
| EndToEnd.WriteThenRead | src/transfer/download.rs:9-114 | upload parts, commit some numbers, read: without a Range header an answer is the joined bodies, each the last sent under its number; with one it is the stretch of them that it asks for; there is one whenever the outside works |
| EndToEnd.SendTwiceThenRead | src/db/multipart.rs:124-160 | one number sent twice and completed: the second body is read back |
| RangeHeader.PrintedRanges | src/s3.rs:733-771 | first-last, first- and -suffix are parsed as section 14.1.2 of RFC 9110 prints them |
| RangeHeader.ParsesNumerals | src/s3.rs:747-763 | a number is understood exactly if it is written in decimal digits after an optional sign and fits 64 bits, leading zeros included |
| RangeHeader.ParsesWhatIsAsked | src/s3.rs:733-771 | a header is understood exactly if it is bytes=first-last and asks for positions of the object, and then as those; without one the whole object is meant; the answer is partial exactly with a header |
| RangeHeader.LongSuffixIffAsked | src/s3.rs:747-755 | the parsed start is negative exactly for a header bytes=-n with n above the size |
| RangeHeader.AnnouncedLengthIsExactIff | src/s3/object.rs:22-34 | the announced length is the number of bytes streamed if and only if the header is not bytes=-n with n above the size; in that case the whole object is streamed |
| RangeHeader.LongSuffixOverstatesLength | src/s3.rs:747-755 | the last five bytes of a three-byte object are announced as five |
| KeyOrder.Utf8PreservesOrder | src/model.rs:64-67 | UTF-8 bytes and code points order strings alike |
| KeyOrder.EncodedChar | src/model.rs:64-67 | the lead byte tells how many bytes follow, and their payloads make up the code point (section 3 of RFC 3629) |
| KeyOrder.KeySuccessor | src/model.rs:68-82 | the popping loop computes the successor, over the surrogate gap and carries of char::MAX |
| KeyOrder.RangeIsPrefix | src/db/object.rs:50-70 | the half-open range from a prefix to its successor holds exactly the keys with that prefix |
| KeyOrder.SuccessorIsLeastBound | src/model.rs:64-67 | the successor is the least string above every string with the prefix |
| KeyOrder.NoSuccessorMeansNoBound | src/model.rs:68-82 | there is no successor exactly when there is no such bound |
| Listing.SelectedMeans | src/db/object.rs:42-85 | the conditions of the query select exactly by prefix and bound |
| Listing.RowsAreASuffix | src/db/object.rs:42-85 | the selected rows are the matching keys from the bound on |
| Listing.GroupMembers | src/s3/list.rs:187-194 | the keys of a group are exactly those that start with its common prefix |
| Listing.EntryMeans | src/s3/list.rs:187-194 | a key is listed as the text up to and with the first delimiter after the prefix, and as itself exactly if there is none or no delimiter was given |
| Listing.EntryMonotone | src/s3/list.rs:187-194 | along increasing keys the entries repeat or increase |
| Listing.EntriesIncrease | src/s3/list.rs:64-157 | the naive listing has no entry twice and is in order |
| Scan.SeekPastGroup | src/s3/list.rs:104-115 | one seek jumps over exactly the rest of a group |
| Scan.TakeKey | src/s3/list.rs:97-137 | one row lists its entry once and moves the bound past what it covers, the rest of its group if a seek can pass it |
| Scan.TakeBatch | src/s3/list.rs:87-149 | the rows of one batch, with those that a seek has covered skipped |
| Scan.NextBatch | src/s3/list.rs:78-153 | each batch moves the bound forward, and a short one is the last |
| Scan.FullPage | src/s3/list.rs:116-126 | the probe tells whether a key is left, and the page is the one that the keys and the request determine |
| Scan.ListObjects | src/s3/list.rs:28-157 | for every batch size the same page, a function of the keys and the request, which PageMeans spells out; the loop ends |
| Pagination.PageIsFirstEntries | src/s3/list.rs:64-157 | a page shows the first max-keys entries of the naive listing above the floor |
| Pagination.PageMeans | src/s3/list.rs:64-157 | a page shows, in order, exactly the listed keys and groups up to its cursor; a truncated one has max-keys of them, and any other has no cursor and so all of them; for max-keys 0 it is empty and final |
| Pagination.ListedIff | src/s3/list.rs:64-157 | the listing has exactly the texts above the floor that some key with the prefix stands for |
| Pagination.TruncationIsExactIff | src/s3/list.rs:116-147 | the flag is exact if and only if the listing does not fill the page exactly with a last group that no string follows and that has two keys or more |
| Pagination.TruncatedInVain | src/s3/list.rs:111-126 | with two keys in the group of char::MAX the scan sets the flag for every batch size, and nothing is left |
| Pagination.CursorOfPage | src/s3/list.rs:116-147 | a truncated page is full and its cursor is the text of its last entry; any other page leaves nothing |
| Pagination.Resume | src/s3/list.rs:68-74 | listing again from the text of an entry continues right after it |
| Pagination.FollowCursor | src/s3/list.rs:64-157 | following the cursor shows, each once and in order, exactly the keys above the floor that have no delimiter after the prefix and exactly the groups that some key belongs to, in at most one page more than they fill |
| Pagination.ListingIsComplete | src/s3/list.rs:187-194 | from the start every non-empty key with the prefix has exactly one entry, itself or its text up to the first delimiter, and there are no other entries; they are in strictly increasing order |
| CleanupRegistry.UploadCleanup.Register | src/transfer/cleanup.rs:39-52 | a closed registry hands the block over at once, an open one keeps it |
| CleanupRegistry.UploadCleanup.CloseAndTake | src/transfer/cleanup.rs:54-58 | takes everything and closes in one step |
| CleanupRegistry.UploadCleanupGuard.Cleanup | src/transfer/cleanup.rs:119-125 | undisturbed, every registered block is cleaned, in order |
| CleanupRegistry.UploadCleanupGuard.Disarm | src/transfer/cleanup.rs:127-130 | nothing is handed over and the registry is empty and closed |
| CleanupRegistry.UploadCleanupGuard.Drop | src/transfer/cleanup.rs:133-142 | an armed guard hands everything over, a disarmed one does nothing |
| CleanupRegistry.RunIsAccounted | src/transfer/cleanup.rs:39-142 | over every interleaving each registered block is held, late, handed over or kept, and what is kept is none of the others |
| CleanupRegistry.NothingIsLost | src/transfer/cleanup.rs:119-142 | when all is over each registered block was handed over or was kept by the disarm, never both; without a disarm all were handed over |
| CleanupRegistry.NothingIsOutOfSight | src/transfer/cleanup.rs:39-81 | at no moment of a run is a registered block lost, whatever is cancelled where |
| CleanupRegistry.DisarmKeepsTheRegistry | src/transfer/upload.rs:109-131 | a disarm keeps every block registered so far, and none of them is cleaned, then or later |
| Bandwidth.RateSchedule.Reserve | src/limits.rs:118-141 | refuses exactly a call that would wait longer than it accepts; a grant waits until the line is free, which then is busy for bytes / rate; a refusal or a poisoned lock leaves the schedule alone |
| Bandwidth.LastCall | src/limits.rs:118-141 | after any run, the next call is refused exactly if it would wait longer than it accepts, and else its slot begins at its clock reading, or where the last slot ends if that is later |
| Bandwidth.SlotsAreDisjoint | src/limits.rs:132-140 | granted slots never overlap, in whatever order the clock readings come |
| Bandwidth.RefusedCallsChangeNothing | src/limits.rs:115-117 | removing the refused calls from a run changes no slot |
| Bandwidth.GrantsAreTimely | src/limits.rs:132-140 | a grant keeps its bound, never starts in its past, and leaves no gap it could have used: a later start is the start of the slot before plus its bytes / rate |
| Bandwidth.BytesInSplit | src/limits.rs:118-141 | the bytes of a window are those of each slot that begins in it, added up |
| Bandwidth.RateBound | src/limits.rs:118-141 | in any window the bytes of the slots that begin in it exceed the rate by at most one reservation |
| CanonicalQuery.AwsEncode | src/auth.rs:243-255 | the pushing loop computes the percent-encoding of the UTF-8 bytes |
| CanonicalQuery.ByteMeans | src/auth.rs:243-255 | exactly the unreserved characters of section 2.3 of RFC 3986 stand for themselves; every other byte is '%' and two uppercase hexadecimal digits |
| CanonicalQuery.DecodeEncoded | src/auth.rs:243-255 | percent-decoding undoes the encoding (section 2.1 of RFC 3986) |
| CanonicalQuery.EscapeIsInjective | src/auth.rs:243-255 | different strings have different encodings |
| CanonicalQuery.EscapeIsPlain | src/auth.rs:243-255 | neither separator of a query appears in an encoded string |
| CanonicalQuery.SortedIsUnique | src/auth.rs:207 | the same parameters have one sorted order |
| CanonicalQuery.CanonicalIffPermutation | src/auth.rs:201-213 | two queries have the same canonical string if and only if their signed parameters are permutations of each other |
| CanonicalQuery.CanonicalMeans | src/auth.rs:201-213 | cut at '&' the string is key=value, escaped, of each signed parameter once, ascending by escaped key and then escaped value |
| CanonicalQuery.KeptMeans | src/auth.rs:202-205 | a presigned request drops every spelling of the signature parameter and nothing else |

## Left out

- HTTP routing, XML, CORS, metadata, error codes, bucket listing: plumbing around the core.
- MD5, SHA-256, HMAC, hex, base64 and JSON: the digests of a completion are uninterpreted functions, the cursor is its
  plain text.
- Telegram clients, retries and sessions: Telegram is a set of live messages with its answers as parameters.
- Eventual deletion: the code does not promise it; queued staged rows are selected again and can use up the whole limit.
- That the bucket of every object exists: a copy checks the bucket outside its transaction, so a racing delete of the
  bucket breaks it; the model proves it for uploads only.
- Which order released blocks are returned in, and which rows a query picks first among equals: sets here.
- The read of the stored object at the end of a commit or copy, after its transaction: the result is the row that was
  installed.
- The size check before an upload begins, and the config limits behind it: one comparison each.
- Cleanup of a message that never got a row and whose deletion fails (id 0): it is recorded and queued, which adds a row
  that nothing refers to.
- A missing Tokio runtime at the moment of a cleanup, a poisoned registry lock, panics: the environment. Without a
  runtime the registry logs and gives up, so the theorems about it assume one.
- The branch that skips an empty chunk of an open block (src/transfer/download.rs:39-42): an exact stream yields none,
  so it is never taken.
- Cancelling the wait of a reservation, the number of upload and download permits: environment.
- max-keys is any number here; the request handler caps it at 1000. Listing version 1 and 2 differ only in the fields of
  the response and share the scan.
- Bandwidth.RateSchedule.Reserve: computes over the reals; the rounding of floating point and of nanoseconds is not
  modelled.
- Engine.PutObject: nothing else runs in between; the interleaved form is the events of Lifecycle. A put whose length
  turns out wrong leaves its blocks staged, as the code does, until the collector claims them.
- EndToEnd.WriteThenRead: the parts are sent one after the other and nothing else runs in between; the interleavings are
  in RunTheorems. The checks on the part number (1 to 10,000), on the announced size and on the kind of the upload come
  before it, and the ETags and sizes that a completion checks are in Completion.
- Completion.CompleteMultipart: upload, kind and parts are as an earlier query read them; the digests are parameters.
- Collector.RunGc: what the two queries select is a parameter, and a database error in expiry, claims or queries, which
  also ends the run, is not modelled; one in a report is.
- Collector.ProcessGcCandidates: nothing else runs in between; the interleavings are the events of Lifecycle.
- ReusedIds.TornIffInterfered: only object ids may come back; the ids of block rows are new over the whole run.
- Legacy databases and migrations: runs start from the empty schema.
