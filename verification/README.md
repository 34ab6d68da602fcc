# Woozi: what its export log, removals, search window and limiters keep

Woozi imports council meetings and documents from several suppliers, keeps an append-only change log
per source, indexes projections of the live entities for search, and offers the log to consumers.
This project models the parts of it whose correctness depends on many steps together, and proves
what they promise. One module per component:

- `EntityCommit`, `CommitEvent`, `JsonText`, `JsonMentions`: JSON values, the canonical text behind the
  content hash, what of an entity is hashed and stored, and what looking for a quoted id in the JSON
  text of a record finds.
- `ExportRecords`, `ExportSystem`, `ExportReads`, `ExportInterleaving`, `ExportConsumer`,
  `ExportLog`, `ExportStaleFlush`: the export change log. `ExportSystem` is a transition system over
  appends, any number of flush calls queued on the promise chain, object puts that land late or fail,
  commits, and crashes; a history that no code reads says what the log should contain. `ExportLog` has
  the class itself, each method proved against the functions the theorems are about.
- `SourceRemovals`, `SourceRemovalRuns`, `SuspectTable`, `DeleteDocument`, `DocumentStorage`,
  `SourceRemovalWorld`, `SuspectThatStays`: noticing documents a source took off a meeting, deciding
  over several runs that they are gone, and retracting them with their files. `SourceRemovalWorld` puts the three together with the log, from an empty one, and
  `SuspectThatStays` is a run of events in it.
- `MapLimit`, `Reindex`, `RepairRecords`, `RepairIbabsTimes`, `PurgeSource`: walks over the log,
  concurrent or writing to the log they read.
- `SearchGrouping`, `SearchWindow`: collapsing index rows into results and paging over them.
- `RateLimiter`, `IbabsRateLimiter`: the token bucket of the public API, and the pacer and breaker
  for iBabs, over reals.
- `AdaptiveWindows`, `DateChunks`: windows halved on a time-out, and calendar chunks.

Hypotheses, stated where they are used:

- One process flushes a source at a time: the promise chain is per process (src/exports/log.ts:259-270).
  `ExportStaleFlush` shows what a second flusher does, and exactly when it does no harm.
- Consumers who follow changes are not disturbed by a flush commit between the two queries of one
  `readChanges` call in the way `ReadIsGapFreeIff` describes. `FlushDuringReadLosesRecords` is a run
  in which they are: the page skips two records and its cursor moves past them.
- Each database transaction and each single query is one atomic step; a put that was acknowledged
  has stored its object. The content hash is injective, so a record's hash is modelled by the
  canonical text itself. Sorting by key uses code-point order, a total order. Times are milliseconds,
  days or reals; clocks do not go back where that is said.
- The supplier, the index, object storage and the clock are parameters.

Where the code and its own documentation disagree, the code is modelled:

- The header of src/pipeline/source_removals.ts says a suspect the supplier serves again is
  forgotten (lines 34-35). A suspect that is served again in a run that reaches it too early stays,
  because only entries with a first sighting are cleared (src/ingest.ts:374-379).
  `ServedAgainForgottenIff` gives the exact condition and `YoungSuspectServedAgainStays` a run of
  events from an empty log that ends so.
- Its third guard keeps a document that another live meeting or motion still lists (lines 19-20). The
  log is asked once, when the step plans; `TakenDownThoughListedIff` says when the guard fails.
- `readChanges` is offered as lossless (src/exports/log.ts:56-60); see the second hypothesis.
- A live record counts as listing a document when its text holds the quoted id. `FoundIff` says what
  that is; a title that ends with a quotation mark and the id is enough (`TitleCounts`).
- A retraction is to delete "every object storage prefix holding something derived from the document"
  (src/ops/delete_document.ts:80-81). A native id with a slash puts its files within another
  document's folder (`SlashSpills`); `OverlapIff` says exactly when files of two documents meet.
- A recording and its meeting are to be decided by which one matched (web/search_api.ts:1052-1057).
  That holds of any two rows; among three a row that did not match can stand for the result
  (`MatchesCanBeLost`).
- A number of months per chunk taken from the environment may be a fraction. Below one it never ends
  the loop of `splitDateRange`; `EndsIff` says exactly when the call returns.

## Model

| member | source | states |
|---|---|---|
| `Basics.LessIff` | src/exports/log.ts:427-474 | ids are ordered by the first place where they differ, a beginning before what it begins |
| `EntityCommit.StringifyCanonical` | src/events/entity_commit.ts:3-17 | the hashed texts of two payloads are equal if and only if the payloads are equal with objects read as unordered maps |
| `CommitEvent.PayloadMeaning` | src/events/entity_commit.ts:39-43 | the committed payload is, as an unordered map, the entity without its raw data |
| `CommitEvent.HashIgnoresRawAndOrder` | src/events/entity_commit.ts:31-47 | committing an entity onto a live record of another appends nothing exactly when the two are equal up to key order and raw data |
| `CommitEvent.RecordSays` | src/events/entity_commit.ts:31-70 | the record of a committed entity is an upsert of it with the hash of its canonical text, holds every needed field as the entity has it and none of the bulky ones |
| `CommitEvent.AttachmentsAreKept` | src/quickwit/project.ts:257-377 | a committed meeting or motion lists the attachments the entity lists |
| `JsonText.AttachmentIsInText` | src/exports/log.ts:418-447 | an id a payload lists under "attachment" is found, quoted, in the payload's JSON text |
| `JsonText.AttachmentIdsAre` | src/pipeline/source_removals.ts:103-108 | an id is among the attachment ids exactly when the last "attachment" field of the payload is a list that holds it as a string |
| `JsonText.QuotedReadsBack` | src/exports/log.ts:435-437 | what JSON.stringify puts between the quotation marks of a string is a JSON string under section 7 of RFC 8259 and reads back as that string |
| `JsonMentions.FoundIff` | src/exports/log.ts:435-440 | an id with a character that can only stand in a string is found, quoted, in the JSON text of a value if and only if it is one of its strings or keys or one of them ends with a quotation mark and the id |
| `JsonMentions.TitleCounts` | src/exports/log.ts:435-440 | any id but "name" is found in a value none of whose strings it is |
| `ExportRecords.FoldIsLastRecord` | src/exports/log.ts:188-254 | the state of an entity is its last record in the history, and there is none without a record |
| `ExportRecords.ConsecutiveRecordsDiffer` | src/exports/log.ts:190-211 | two consecutive records of an entity are never both deletes nor both upserts with one hash |
| `ExportRecords.FirstRecordIsAnUpsert` | src/exports/log.ts:199-203 | no entity's history starts with a delete |
| `ExportRecords.CommitDeduplicatesByMeaning` | src/exports/log.ts:204-211 | committing a payload appends nothing exactly when the live record came from one equal up to key order |
| `ExportSystem.CommitConsistent` | src/exports/log.ts:285-311 | committing a stored front of the pending table moves exactly it to the end of the segments and keeps tables, objects and history in agreement |
| `ExportSystem.PutConsistent` | src/exports/log.ts:279-283 | storing an object again never changes a body, so registered segments stay readable |
| `ExportSystem.OnlyOneRuns` | src/exports/log.ts:259-270 | while a flush call runs, every earlier call of the chain is over |
| `ExportSystem.AlwaysConsistent` | src/exports/log.ts:188-311 | the invariant of tables, objects, history, promise chain and puts holds after every schedule from an empty log |
| `ExportReads.ClampLimit` | src/exports/log.ts:29-34 | a page limit is 500 when none is given, else the floor of the number brought between 1 and 1000 |
| `ExportReads.NothingIsLost` | src/exports/log.ts:51-63 | after any interleaving of appends, flush steps, late puts and crashes, segments then pending rows are the history, segments tile it from 0, a key has one body, flushes do not overlap |
| `ExportReads.PageIsASliceIff` | src/exports/log.ts:330-372 | front and tail of a page are one stretch of the history exactly when the pending rows seen start no later than where the segments ended for the reader, or the page was full |
| `ExportReads.ReadChangesIsASlice` | src/exports/log.ts:322-377 | without a flush in between, a page is the next stretch of the history, hasMore is exact, and a page before the head makes progress |
| `ExportInterleaving.ReadsAreSound` | src/exports/log.ts:322-377 | whatever happens during a read, the page holds true records from the cursor on, strictly ascending, at most the limit |
| `ExportInterleaving.ReadIsCompleteIff` | src/exports/log.ts:330-372 | a page is the full next stretch if and only if no commit moved rows the reader had not reached between its queries, or segments filled it |
| `ExportInterleaving.ReadIsGapFreeIff` | src/exports/log.ts:360-377 | a page skips records its next cursor moves past if and only if, in addition, newer rows were pending |
| `ExportInterleaving.FlushDuringReadLosesRecords` | src/exports/log.ts:322-377 | a run in which a flush commit inside a read loses two records for the reader |
| `ExportStaleFlush.LateCommitIff` | src/exports/log.ts:285-311 | a commit by a flusher that read its rows earlier keeps tables and history in agreement if and only if it extends the segments, regrows the last one or repeats one |
| `ExportStaleFlush.FlushersAgreeIff` | src/exports/log.ts:259-311 | any number of processes flushing one source from an empty log: tables and history agree at every point if and only if every commit is harmless in that sense |
| `ExportStaleFlush.StaleFlusherLosesARecord` | src/exports/log.ts:272-303 | two processes flushing one source: a schedule from the empty log after which a record is in no segment and not pending |
| `ExportConsumer.PageCovers` | src/exports/log.ts:452-474 | a snapshot page lists exactly the live entities between its cursor and its next cursor, and the next cursor selects exactly the rest |
| `ExportConsumer.QuietSnapshotListsAll` | src/exports/log.ts:449-474 | with no writer, the pages list each live entity once, in id order, for every page size |
| `ExportConsumer.FollowingYieldsEachOnce` | src/exports/log.ts:322-377 | following cursors with any limits while others write yields each record from the cursor on once, in order |
| `ExportConsumer.SnapshotThenFollowConverges` | src/exports/log.ts:22-27 | a snapshot read with arbitrary writes between pages, then the changes from its first changesCursor past its end, give exactly the entities live at the point reached |
| `ExportConsumer.CaughtUpConsumerHoldsTheLiveTable` | src/exports/log.ts:51-63 | from an empty log through any schedule, a consumer caught up with the head holds the live table |
| `ExportConsumer.QuietConsumerCatchesUp` | src/exports/log.ts:22-63 | once nobody writes, the consumer reaches the head if and only if its calls asked for as many records as were ahead of it, one call for each is always enough, and then it holds the live table |
| `ExportLog.ExportChangesLog.Append` | src/exports/log.ts:188-254 | appends the numbered record of this source unless it is a no-op, keeps state, pending and history in agreement |
| `ExportLog.ExportChangesLog.RecordDelete` | src/exports/log.ts:155-178 | takes exactly that entity out of the live table, and appends the deletion, with its type, supplier, time and reason, if and only if it was live |
| `ExportLog.TombstoneTakesOut` | src/exports/log.ts:199-203 | a tombstone is a no-op exactly for what is not live and otherwise removes its entity alone |
| `ExportLog.ExportChangesLog.PutObject` | src/exports/log.ts:279-283 | storing a stretch of the history under its key keeps the log sound |
| `ExportLog.ExportChangesLog.FlushCommit` | src/exports/log.ts:285-311 | the commit of rows at the front of the pending table registers them and drops exactly them |
| `ExportLog.ExportChangesLog.FlushNow` | src/exports/log.ts:272-311 | an undisturbed flush empties the pending table and leaves what readers can reach unchanged |
| `ExportLog.ExportChangesLog.GetEntityRecord` | src/exports/log.ts:411-416 | answers for exactly the entities ever recorded, with the last record of the history |
| `ExportLog.ExportChangesLog.ReadChanges` | src/exports/log.ts:322-377 | the loops over segment objects and the pending tail return the next stretch of the history |
| `ExportLog.ReadSegments` | src/exports/log.ts:337-357 | reading object by object with its early stop gives the first lines from the cursor on |
| `ExportLog.ExportChangesLog.ReadSnapshot` | src/exports/log.ts:452-474 | asking for one row more than the limit gives the page and an exact hasMore |
| `ExportLog.ExportChangesLog.FindReferencedEntityIds` | src/exports/log.ts:418-447 | the scan with its early exits finds exactly the ids that some live record, whose id begins with one of the prefixes, mentions |
| `ExportLog.InRangeIff` | src/exports/log.ts:427-432 | the range asked of the database holds exactly the ids that begin with the prefix and do not go on with U+FFFF or later |
| `ExportLog.ReferencedExactly` | src/exports/log.ts:418-447 | of the ids of documents the scan reports exactly those that such a record holds: in a field of its own, as a string or key of its payload, or at the end of one after a quotation mark |
| `SourceRemovals.SourceRemovalTracker.constructor` | src/pipeline/source_removals.ts:110-121 | a new tracker remembers an empty run |
| `SourceRemovals.SourceRemovalTracker.ObserveMeeting` | src/pipeline/source_removals.ts:124-149 | keeps the tracker's fields what they should be of all meetings seen: documents dropped by a meeting that kept another, the last list of each meeting, emptied meetings, the first kept document |
| `SourceRemovals.SourceRemovalTracker.ObserveEmitted` | src/pipeline/source_removals.ts:152-154 | adds the entity to those emitted and keeps the rest |
| `SourceRemovals.SourceRemovalTracker.MakePlan` | src/pipeline/source_removals.ts:156-226 | from what the tracker remembers the loops make the plan of the specification, which the next three rows spell out |
| `SourceRemovals.PlannedIff` | src/pipeline/source_removals.ts:156-226 | a plan names, each once, exactly the documents that are live, not emitted, mentioned by no live meeting or motion, and were dropped in this run by a meeting that kept another or are suspects that are due; over the cap it names none and says how many there are |
| `SourceRemovals.ClearedIff` | src/pipeline/source_removals.ts:165-205 | the suspects to clear are exactly those listed again, those emitted or no longer live when their meeting came back, and those due but mentioned elsewhere |
| `SourceRemovals.PlannedControlIs` | src/pipeline/source_removals.ts:143-187 | the document to ask first is the first one kept by the first meeting that dropped a part, and without such a meeting the first document still listed by the meeting of the first due suspect that has one |
| `SourceRemovals.PlanIsSafe` | src/pipeline/source_removals.ts:14-36 | every document to remove is live, not emitted, neither mentioned nor attached by any live record whose id begins with "meeting:" or "motion:", and seen dropped by the meeting it names, now or for the second time late enough; the cap is all or nothing |
| `SourceRemovals.NotListedMeans` | src/pipeline/source_removals.ts:44-45 | a document found unlisted is neither mentioned nor an attachment of any live record whose id begins with "meeting:" or "motion:" |
| `SourceRemovals.ControlIsListed` | src/pipeline/source_removals.ts:143-187 | the document asked first was still listed by a meeting of this run |
| `SourceRemovals.ConfirmRemovalsAtSource` | src/pipeline/source_removals.ts:246-281 | the loop asks first about the control document and then about each entry, each at its own address, and confirms and keeps accordingly |
| `SourceRemovals.ConfirmedIff` | src/pipeline/source_removals.ts:253-281 | an entry is confirmed if and only if the control document answered live at the address in its own record, and the question after the entry's position, about the address in its own record, was answered gone; the others are kept with the answer about their own address, or without one |
| `SourceRemovals.ConfirmedByAddress` | src/pipeline/source_removals.ts:253-281 | if the answer depends on the address alone, a planned document is confirmed exactly when the control document is live and its own address is gone |
| `SourceRemovalRuns.RetractionNeedsTwoSightings` | src/ingest.ts:326-439 | over any history of runs stopping anywhere, a document is retracted only after a run saw its meeting drop it and keep another and this run, the minimum age later, saw it still left out, both finding it gone with a live control, and no finished run between saw it listed, emitted, deleted or served again |
| `SourceRemovalWorld.OnlyTwiceSeenIsTakenDown` | src/ingest.ts:209-439 | in every run of imports, clean-ups, removal steps and other writes, also between a step's plan and its tombstones, from an empty log, whatever a retraction takes out of the live table was seen so by two runs |
| `SourceRemovalWorld.TakenDownThoughListedIff` | src/pipeline/source_removals.ts:189-201 | a retraction takes down a document that a live meeting or motion lists if and only if such a record was written after the step planned and still stands |
| `SourceRemovalWorld.ListedMeanwhileIsTakenDown` | src/ingest.ts:400-408 | whenever a live document is next to be retracted, a meeting or motion that lists it may be written just before, and it is taken down all the same |
| `SourceRemovalWorld.AlwaysInv` | src/pipeline/source_removals.ts:110-154 | in every such run of events the tracker remembers exactly the meetings seen, the table of suspects is what the steps so far make it, and a step under way planned with what was so then |
| `SourceRemovalWorld.RunHasSeen` | src/ingest.ts:209-256 | after any run of events, what counts as emitted are the entities and meetings of the import under way, and the meetings seen are its meetings, each with what its last live record listed when it came |
| `SourceRemovalWorld.IncompleteIsTriedAgain` | src/ingest.ts:404-430 | when a step that went to its end is over, a document it retracted is a suspect still unless its retraction got to the end and the delete task worked |
| `SourceRemovalRuns.SuspectRetractedIff` | src/ingest.ts:348-408 | a finished run retracts a suspect if and only if it is due and left out, mentioned nowhere live, under the cap, and confirmed gone |
| `SuspectTable.RetractedExactly` | src/ingest.ts:348-408 | in terms of the meetings seen, the log and the answers about each document's own address: a finished run retracts exactly the rows of at most thirty days that are due, when no more documents are to be asked about than the cap, and of which the supplier says they are gone |
| `SuspectTable.TableAfter` | src/ops/store.ts:1243-1293 | after a finished run a document has a row exactly when it had one of at most thirty days that is not over, not served again and not retracted completely, which stays as it was, or it is gone and no suspect was due; a new row names the meeting that dropped it last |
| `SuspectTable.StoppedInOrder` | src/ingest.ts:352-420 | wherever a run stopped: before any retraction it forgot what is over or served again and recorded every first sighting, and what it retracted it forgot only after all its retractions |
| `SourceRemovalRuns.FirstSightingBecomesSuspect` | src/ingest.ts:390-399 | a document found dropped and gone for the first time is a suspect once the run finished the step |
| `SourceRemovalRuns.RowHasOrigin` | src/ops/store.ts:1251-1293 | every suspect row was recorded by some run, and every run since listed it and did not forget it |
| `SourceRemovalRuns.ForgetsIff` | src/ingest.ts:352-420 | a run forgets exactly what its plan clears, what is served again on a second sighting, and what it retracted completely |
| `SourceRemovalRuns.ServedAgainForgottenIff` | src/ingest.ts:374-379 | a suspect the supplier serves again is forgotten if and only if its own meeting came back and lists it again or the sighting is old enough |
| `SuspectThatStays.YoungSuspectServedAgainStays` | src/ingest.ts:374-379 | a run of events from an empty log, of four imports, after which a suspect the supplier just served again is still there |
| `SourceRemovalRuns.IngestMeeting` | src/ingest.ts:209-256 | a meeting is compared with its last record before the new one is committed |
| `SourceRemovalRuns.DropSeenIff` | src/ingest.ts:244-250 | a meeting is seen to drop a document exactly when the last record of the history it is compared with is live and lists it, the meeting no longer does, and another of that record stays; so comparing after the commit would see nothing |
| `DeleteDocument.ParsedIff` | src/ops/delete_document.ts:33-47 | an id parses to given parts if and only if it is their text, none empty and only the native id with colons |
| `DeleteDocument.RetractOne` | src/ops/delete_document.ts:271-297 | the calls made are a prefix of find, hide, tombstone, empty storage, with at most one failed call at the end, and the outcome names that prefix |
| `DeleteDocument.RetractDocumentsGoneAtSource` | src/ops/delete_document.ts:262-322 | every document gets its own run of the steps; one delete task covers exactly the tombstoned ones, and its failure becomes the error of those that got past their tombstone and had none |
| `DeleteDocument.ReachedIsWhatHappened` | src/ops/delete_document.ts:253-297 | storage is touched only after the tombstone, a deletion record of this document with its supplier, reason and meeting, and that only after hiding it and its pages; reached says exactly which were completed |
| `DocumentStorage.RetractionTakesItsOwn` | src/ops/delete_document.ts:82-93 | of all storage keys a retraction leaves those not stored for its document, and once the outcome is deleted none that is |
| `DocumentStorage.OverlapIff` | src/documents/process.ts:301-308 | a key can be stored for two documents if and only if they are of one source and the native or full id of the one is that of the other or a folder within it |
| `DocumentStorage.OverlapOfDifferent` | src/documents/process.ts:301-308 | with native ids without a slash, for two different documents: if and only if they are of one source and the native id of the one is the full id of the other |
| `DocumentStorage.SlashSpills` | src/ops/delete_document.ts:82-93 | whenever a native id continues another with a slash, all files under it go with the other document |
| `DocumentStorage.OthersKeepTheirFiles` | src/ops/delete_document.ts:262-322 | a call for several documents leaves every file of a document that overlaps none of them |
| `DeleteDocument.CoveredIff` | src/ops/delete_document.ts:300-311 | a document is covered by the delete task if and only if it got as far as its tombstone |
| `DeleteDocument.ExactlyTheTombstonedAreGone` | src/ops/delete_document.ts:282-290 | after the call an entity is live if and only if it was and no entry naming it got past its tombstone |
| `DeleteDocument.RecommitBringsBack` | src/exports/log.ts:199-211 | whatever is written about other entities after a tombstone, committing the content that was live before it appends, and then the live entities are those there would be had nothing been retracted, the others unchanged up to numbering |
| `MapLimit.EachItemOnce` | src/util/map_limit.ts:1-24 | for every completion order each task starts once, in order, at most max(1, min(limit, n)) workers run, and results stand at their items' positions |
| `MapLimit.EveryRunEnds` | src/util/map_limit.ts:9-23 | every run has at most two actions for each item and one for each worker, is over exactly when it has them all, and can go on until then |
| `Reindex.IngestsDoNotOverlap` | src/pipeline/reindex.ts:268-278 | at most one ingest call is under way in any schedule |
| `Reindex.EveryRecordOnce` | src/pipeline/reindex.ts:175-330 | for every order of reads and ingests, the rows handed over are as a multiset the projections of all records without an issue, and entities plus issues count every record once |
| `Reindex.EveryLiveEntityOnce` | src/pipeline/reindex.ts:235-330 | over a quiescent log that is every live entity exactly once |
| `Reindex.EveryRunReturns` | src/pipeline/reindex.ts:235-330 | every run of reads, flushes and pages is bounded by the size of its pages and can go on exactly until the call has returned |
| `Reindex.PendingIsBounded` | src/pipeline/reindex.ts:268-320 | in any order of reads and flushes: with at most m rows a record never more rows wait than one short of a batch and m for each worker, a full batch never waits without a flush queued, and nothing is flushed before a batch was full |
| `RepairRecords.RepairedPayloadIs` | src/pipeline/repair_ibabs_times.ts:48-61 | a planned payload has exactly the wrong times corrected and every other field as before |
| `RepairRecords.PlannedIff` | src/pipeline/repair_ibabs_times.ts:27-62 | a repair is planned exactly for a live iBabs meeting, document or motion recorded before the cutoff that holds a wrong time in one of the three fields |
| `CommitEvent.CompactKeeps` | src/quickwit/project.ts:257-377 | a field the compacted payload has is the entity's own, unchanged |
| `RepairRecords.PlannedRepairIsNotDropped` | src/pipeline/repair_ibabs_times.ts:84-104 | the log's deduplication never drops a planned repair of a record whose hash is that of the payload it was cut from |
| `RepairRecords.WrittenIsTraced` | src/events/entity_commit.ts:31-47 | imports, tombstones and repairs in any order from an empty log leave only such records |
| `RepairIbabsTimes.RepairPage` | src/pipeline/repair_ibabs_times.ts:137-154 | a page's records needing repair are counted and their repairs appended in order, or nothing without apply |
| `RepairIbabsTimes.RepairIbabsTimes` | src/pipeline/repair_ibabs_times.ts:118-168 | although it appends to the log it pages over, the walk repairs each live entity once, as it was: an applied pass leaves each record with its wrong times corrected and its new hash, or, where none was planned, as it was; on a log of its writers nothing is left needing repair, and with nothing repaired nothing changes |
| `RepairIbabsTimes.AnyWrittenLogIsRepaired` | src/pipeline/repair_ibabs_times.ts:118-168 | on any log its writers can produce, one pass with a clock past the cutoff leaves no record needing repair |
| `RepairIbabsTimes.RepairTwice` | src/pipeline/repair_ibabs_times.ts:118-168 | run twice, the second pass repairs nothing and leaves the log as the first left it |
| `RepairIbabsTimes.SecondWalkAppendsNothing` | src/pipeline/repair_ibabs_times.ts:148-153 | whatever the hashes, walking the records a pass has left appends nothing |
| `PurgeSource.CollectEntities` | src/ops/purge_source.ts:34-47 | paging collects every live record, in id order |
| `PurgeSource.RecordTombstones` | src/ops/purge_source.ts:114-126 | one tombstone per collected entity, with its type, supplier and the time, and exactly those stop being live |
| `PurgeSource.PurgeSource` | src/ops/purge_source.ts:57-128 | an applied purge leaves no live entity and counts one tombstone for each, none and no change when nothing was live; a dry run changes nothing |
| `PurgeSource.PurgeTwice` | src/ops/purge_source.ts:57-128 | purged twice, the second purge appends nothing and leaves state, history and numbering alone |
| `SearchGrouping.DedupeLatestIndexedHits` | web/search_api.ts:877-895 | an entity survives if and only if its latest row, the first on ties, is not a delete, and that row represents it |
| `SearchGrouping.PreferIsNotAtLeast` | web/search_api.ts:1048-1097 | between two rows that are both recordings or both not, a candidate is preferred exactly when the representative is not at least as recent, a page, with a snippet and early |
| `SearchGrouping.MatchStands` | web/search_api.ts:1048-1072 | of a recording and another row the one whose content matched stands for the result, the recording if both or neither did, whichever came first |
| `SearchGrouping.MeetingOrRecording` | web/search_api.ts:1048-1072 | among rows of one result of which one is a recording and one is not, in any order, the same holds |
| `SearchGrouping.MatchesCanBeLost` | web/search_api.ts:1048-1072 | among three the order decides, and a recording that did not match may stand for a result two of whose rows did |
| `SearchGrouping.GroupIndexedHits` | web/search_api.ts:1099-1114 | the groups are the rows that are parts of one thing, that thing and its parts, or one entity, in order of first appearance; the representative is the one the preference leaves after going through them in order, and without a recording a maximum under time, page, snippet and page number |
| `SearchWindow.CollapseBatch` | web/search_api.ts:1248-1252 | collapsing a batch gives one row for each of its results, in order of first appearance |
| `SearchWindow.ScanRows` | web/search_api.ts:1202-1302 | the scan stops with the page full or with every row within the budget read, having collected the distinct results of the rows it saw |
| `SearchWindow.SortedIs` | web/search_api.ts:595-627 | sorting by date, either way, gives the same results in order, undated ones last, those of one date as they came; relevance leaves them alone |
| `SearchWindow.SortedStays` | web/search_api.ts:595-627 | the stable sort leaves results already in order as they are |
| `SearchWindow.CollectSearchWindow` | web/search_api.ts:1132-1381 | whatever the batch sizes, a page is the requested slice of the results of the first 6000 rows: no two of its rows are parts of one thing, a part and that thing, or one entity, every result whose turn falls on it is there, an unmarked count is the number of such classes, and hasMore is exactly characterised |
| `SearchWindow.PageIsOfAllResultsIff` | web/search_api.ts:1180-1181 | the page of a window is the slice of all distinct results if and only if no row past the budget is the first to show a result that belongs on it |
| `SearchWindow.PagesTile` | web/search_api.ts:1312-1380 | windows asked for one after the other show together, each result once, what one window of their total size shows |
| `SearchWindow.PagesApart` | web/search_api.ts:1312-1380 | no result stands on two pages that do not overlap |
| `SearchWindow.LastPage` | web/search_api.ts:1312-1380 | a page says there is more exactly when the next one shows something or the budget cut rows off, and pages up to one without more show every result |
| `RateLimiter.RateLimiter.Consume` | web/rate_limit.ts:127-157 | every verdict, logging included, is the one of a limiter that never evicts a bucket; a request is admitted exactly within the budget of the row below, and told to retry exactly if not |
| `RateLimiter.AdmittedIff` | web/rate_limit.ts:117-141 | a request is admitted if and only if its cost is within the capacity and, for every earlier request, what its key spent since then and its cost are within the capacity and a sixtieth of it for each second since |
| `RateLimiter.MinuteFills` | web/rate_limit.ts:117-138 | a minute without use fills any bucket, and half a minute from empty gives exactly half |
| `RateLimiter.LoggedIff` | web/rate_limit.ts:142-147 | a denial is logged exactly when no denial of its key was logged in the last minute |
| `RateLimiter.RateLimiter.Sweep` | web/rate_limit.ts:161-171 | a minute after the last sweep it drops exactly the buckets idle for more than two minutes and keeps the others as they are, and before that none |
| `RateLimiter.IdleIsFresh` | web/rate_limit.ts:159-171 | a bucket idle that long judges as a fresh one and leaves the same |
| `RateLimiter.AdmittedIsBounded` | web/rate_limit.ts:117-141 | the cost admitted for a key in any interval is at most the capacity and a sixtieth of it for each second of the interval |
| `RateLimiter.RetryAfterIsRight` | web/rate_limit.ts:148-154 | a denied request that waits retryAfterSeconds is admitted if and only if its cost is within the capacity, and a second less is not enough |
| `RateLimiter.RemainingIsRight` | web/rate_limit.ts:152-152 | straight after a request, whole units fit exactly up to the remaining count reported |
| `RateLimiter.ResetIsRight` | web/rate_limit.ts:153-153 | after resetSeconds without use the bucket is full, and a second less is not enough |
| `IbabsRateLimiter.GrantsAreSpaced` | src/ibabs/rate_limit.ts:113-134 | in every schedule of acquires, sleeps and throttles, requests are at least the minimum interval apart |
| `IbabsRateLimiter.FleetStaysInBudget` | src/ibabs/rate_limit.ts:61-64 | W workers sharing a budget B, each with any schedule of acquires, sleeps and throttles, make at most 0.8 B + W requests in any minute |
| `IbabsRateLimiter.PaceIsExact` | src/ibabs/rate_limit.ts:55-64 | at the interval chosen the workers together make exactly four fifths of the budget |
| `IbabsRateLimiter.BreakerNeverRetreats` | src/ibabs/rate_limit.ts:137-140 | blockedUntil never decreases |
| `IbabsRateLimiter.ThrottleHoldsBack` | src/ibabs/rate_limit.ts:121-140 | after a throttle at most one request, the one whose acquire had already looked, is let through before the breaker ends |
| `IbabsRateLimiter.OneGetsThrough` | src/ibabs/rate_limit.ts:121-134 | that one request there can be: an acquire that sleeps until the breaker it saw ends is let through then, though a throttle meanwhile moved the end |
| `IbabsRateLimiter.CooldownDoubles` | src/ibabs/rate_limit.ts:75-81 | k further throttles in a row double the cooldown k times, up to its cap |
| `IbabsRateLimiter.BreakerIs` | src/ibabs/rate_limit.ts:75-81 | after any schedule a throttle opens the breaker for the base cooldown doubled for each throttle since the last success, up to the cap, and never closes it earlier |
| `IbabsRateLimiter.LetThroughWhenDue` | src/ibabs/rate_limit.ts:113-134 | an acquire served alone is let through at the latest of now, the end of the breaker, own or shared, and the slot, and the next slot is an interval later |
| `IbabsRateLimiter.Limiter.AfterRefresh` | src/ibabs/rate_limit.ts:121-134 | the code between two waits is the step of the schedule |
| `IbabsRateLimiter.Limiter.AfterWait` | src/ibabs/rate_limit.ts:124-134 | the code after a wait is the step of the schedule |
| `IbabsRateLimiter.Limiter.RecordThrottle` | src/ibabs/rate_limit.ts:137-146 | a throttle is the step of the schedule |
| `IbabsRateLimiter.Limiter.RecordSuccess` | src/ibabs/rate_limit.ts:149-151 | a success is the step of the schedule |
| `AdaptiveWindows.LeavesTile` | src/ibabs/extractor.ts:89-115 | the windows answered tile the range day by day, with one call per leaf and one per split |
| `AdaptiveWindows.EachDayOnce` | src/ibabs/extractor.ts:103-109 | every day of the range is in exactly one leaf |
| `AdaptiveWindows.SplittingChangesNothing` | src/ibabs/extractor.ts:89-115 | against a supplier additive over windows the result is the single-call answer |
| `AdaptiveWindows.AllTimedOutStopsEarly` | src/ibabs/extractor.ts:61-66 | when every call times out it gives up after exactly l + 2 calls, where 2 to the l is at most the number of days and 2 to the l + 1 is more |
| `AdaptiveWindows.FailureEndsTheListing` | src/ibabs/extractor.ts:98-102 | the first call that fails for good, and only such a call, ends the listing |
| `DateChunks.AddMonthsIs` | src/gemeenteoplossingen/extractor.ts:42-43 | moving by months keeps the day of the month exactly when the target month has it and otherwise overflows into the next |
| `DateChunks.CalendarIs` | src/gemeenteoplossingen/extractor.ts:42-43 | the months begin where the Gregorian calendar has them, in closed form, for every year before or after 0 |
| `DateChunks.CursorMovesIff` | src/gemeenteoplossingen/extractor.ts:41-43 | a positive number of months moves the cursor on if and only if it is at least one, and otherwise leaves it where it is |
| `DateChunks.EndsIff` | src/gemeenteoplossingen/extractor.ts:28-52 | the call returns if and only if the number of months is not positive or at least one, or the range is empty |
| `DateChunks.HalfAMonthNeverEnds` | src/gemeenteoplossingen/extractor.ts:203-206 | half a month per chunk over a single day never returns |
| `DateChunks.SplitDateRange` | src/gemeenteoplossingen/extractor.ts:28-52 | for any real number of months: each chunk is its whole months long or ends with the range; once the loop ended the chunks partition the range; it ends within as many turns as days unless the number is a fraction below one; no positive number gives the range back |
| `DateChunks.PartitionHolds` | src/gemeenteoplossingen/extractor.ts:41-49 | every day of the range is in exactly one chunk and no other day is in any |
| `DateChunks.WholeMonthsBack` | scripts/enqueue_full_history.ts:58-70 | going back, a fraction counts as a whole month within the year and is dropped past January; a number of at least one moves by at least a month |
| `DateChunks.SplitBackwards` | scripts/enqueue_full_history.ts:58-70 | for any real number of months of at least one the chunks run from the end back to the start, each starting where the next ends and reaching back exactly those months or to the start |

## Left out

- ExportSystem.AlwaysConsistent: one object holds one source's rows; several sources in one set of tables only meet in the shared database.
- ExportReads.ReadChangesIsASlice: cursor strings, the NDJSON text of a segment and the digits of an object key are not modelled, nor is a segment object that cannot be fetched.
- ExportConsumer.SnapshotThenFollowConverges: an entity with an empty id is never listed by a snapshot, so it is excluded; reads are assumed undisturbed as said above.
- EntityCommit.StringifyCanonical: `localeCompare` is replaced by code-point order; it can tie keys that differ only in canonical equivalence, and undefined members are not modelled.
- ExportLog.ExportChangesLog.FindReferencedEntityIds: a mention is the quoted id in the payload's text or an equal string field of the record; a match against the JSON text of field names, operation, time, commit id or schema version is not modelled.
- CommitEvent.HashIgnoresRawAndOrder: commit ids, schema version and the envelope of the event are not modelled.
- CommitEvent.CompactKeeps: the order of the fields of a compacted payload is the entity's, not the literal's; absent fields stay absent.
- SourceRemovalRuns.RetractionNeedsTwoSightings: removal steps of one source are taken one after the other, as the import queue runs them; the supplier's answers are arbitrary, whatever address the log gives when it is asked; run issues and log lines are left out.
- SourceRemovalWorld.OnlyTwiceSeenIsTakenDown: one source's log; a process that dies inside a retraction counts as that retraction's step having failed; another source's run does not clean up the table of suspects while a step is under way.
- DeleteDocument.RetractOne: a call that failed may have had part of its effect, which the model does not describe; the text of the delete query is left out.
- DocumentStorage.RetractionTakesItsOwn: a failed delete may have taken any of the keys under its prefix; the parts of a stored key are those of the id, so an entity stored without an organization type is not covered; retries are left out.
- SearchWindow.CollectSearchWindow: assumes an index that does not change, an exact row count, no delete rows, the result of an entity and the date of a result the same in all its rows, rows delivered in sort order, and no date filter in the application; `title_asc`, the estimate itself, time-outs, snippets and previews are left out.
- SearchGrouping.GroupIndexedHits: for three or more rows with a recording among them the representative is given by going through them in order, not as a maximum; there is none, see `MatchesCanBeLost`.
- Reindex.EveryRecordOnce: assumes no ingest call fails; projection and rehydration are a parameter, document and rehydration counters are left out.
- RepairIbabsTimes.RepairIbabsTimes: correcting a wall clock is a parameter; an entity with an empty id is never listed, so it is excluded; samples and per-type counts are left out.
- PurgeSource.PurgeSource: emptying object storage with retries and the index delete task are left out.
- RateLimiter.RateLimiter.Consume: the price of a request is a parameter, at least zero; time is real and does not go back; the budget is positive, as the server requires before it asks.
- IbabsRateLimiter.CooldownDoubles: a negative base or cap, which only a misconfigured environment gives, is excluded.
- IbabsRateLimiter.ThrottleHoldsBack: the shared breaker file is best effort; what it holds when read is a parameter, writing it is left out. Sleeps never end early.
- AdaptiveWindows.LeavesTile: dates are day numbers; telling a time-out from other errors is left to the supplier parameter.
- DateChunks.SplitDateRange: a number of months that is not a number or infinite, and dates out of the range a Date can hold, are not modelled.
- Normalisers, extraction, thumbnails, user interface, status endpoints, catalog and configuration: mostly one branch or I/O.
