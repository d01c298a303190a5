# A verified model of the repository's stateful cores

This project models, in Dafny, the parts of the digital repository back end that keep state across
steps, and proves what they are for. `dafny verify dfyconfig.toml` checks all of it.

| module | what it models |
|---|---|
| `PipelineStates`, `IngestGates`, `GateInvariants`, `GateTheorems`, `ApprovedWindow`, `ClaimForms`, `IngestWorker` | the ingest worker: its claim loop, its gates and what they overlook, its in-memory sets, staff requests, crashes and boots |
| `IngestQueue`, `BatchActions`, `FolderRecovery` | the queue table with its append-only event log, the batch-wide staff actions, and the recovery action that reads the log back |
| `SearchIndex`, `IndexerWorker` | the object table's dirty flags, the batches in flight and the Elasticsearch index |
| `CollectionForest` | the collection tree: the bounded walk up, the search down, and every way the links change |
| `PartsManifest`, `Projection` | the merged parts manifest, the stored envelope and the indexed document |
| `HandleBatch`, `HandleCuts`, `HandleMint` | the handle helper's streaming protocol on both sides, a helper that dies midway, and the mint that reconciles with it |
| `ConvertQueue` | the serial TIFF conversion worker with its delayed verification |
| `AipBackfill` | chunked enqueueing of missing preservation copies beside the stage that makes them |
| `SessionPacing` | paced fetches, the shared login, and the bounded retry |
| `Basics`, `TextUtil` | small shared values and string functions |

## How to read it

A stateful core is given twice. A transition system on values says what each atomic step does: one
database statement or transaction, one answer from outside, one staff request, a crash, a boot. A
class with the source's own fields and loops does the same thing in place, and its methods are
proved equal to those steps. Theorems are about the transition system: what every enabled step
keeps, and what holds at every point of every run.

Where a property fails for some step, the lemma is an if-and-only-if that names the condition, and a
second lemma gives the failing input.

## Assumptions

- Every database transaction and every staff request is one atomic step. The exception is the
  cancel in `FolderRecovery`: it reads the row and writes later (`ingester/model.js`, 330-357), so
  the `from` it records may be out of date. Elsewhere a cancel that another write overtakes halts
  the row all the same, whatever it read. Claim phases of the ingest worker do not overlap: the
  in-memory sets are read before the awaits (`ingester/worker.js`, 377-401) and filled after them
  (272-277).
- A stage may write any of the states it ever writes to its own row, in any order.
- A row of the gate model has one state: the claim queries filter on status, the dispatch goes by
  pipeline_state, and `LogReplays` shows that the two agree for rows changed through the model.
- Elasticsearch applies exactly the items of a bulk call that it does not reject, and a bulk call
  that threw may have applied any subset of its items by the time it throws.
- One process runs the workers. Rows of a table are numbered in id order, and where no row is ever
  removed an index stands for the id or pid.
- A sleep lasts at least as long as asked, or throws.
- Trimming and lower-casing are those of ASCII. A locale's collation is a parameter.
- JSON encoding is a parameter that decodes what it encodes and writes no newline; where output may
  be cut short, no strict prefix of an encoded object is taken for JSON.

## Where the code and its documentation differ

The model follows the code.

- Stage 3 writes TRANSFER_APPROVED between two polls (`ingester/stages/transfer.js`, 336-340), a state
  in none of the worker's sets. A crash there leaves a row that no tick claims and that neither the
  serial gate, which is the default (`config/app.js`, 630), nor the Archivematica gate sees
  (`ApprovedRowIsStranded`, `ApprovedWindowIff`, `CrashAtApprovedAdmitsIff`).
- `ingester/worker.js`, 20-23, says that UPLOADING is not reset at boot; `ingester/model.js`, 305-312, resets it.
- Stage 2 writes UPLOADING (`ingester/stages/upload.js`, 103-110) before it asks for the folder move
  (121), so in between a row says that its folder has left 001-ready when it has not
  (`EarlyReturnStrands`). It does not look at the answer either (112-122): the client returns a 4xx
  or 5xx like any other (`ingester/libs/qa_service.js`, 393-402), so a move that never happened
  leaves the same row as one that did (`MissedMoveIsAskedFor`). Stage 5 archives the folder, which
  gives it a third place to be.
- An orphan reset makes the state before a later cancel read PENDING, so Return to Packaging does not
  ask for a folder that stage 2 has moved or is about to move (`SweepHidesMove`, `SweepHidesOwedMove`); neither does it after a cancel that
  read the row just before stage 2 wrote it (`StaleCancelHidesMove`).
- `_prev_state_from_event` orders by `created_at` alone, so two cancels within one tick of that column
  may be read either way (`TieReadsEither`).
- The backfill writes the queue table directly, without events, and `queue_packages` accepts a
  pipeline_state that differs from the status (`PerformSyncedIff`).
- `claim_dirty` clears `is_updated` before the Elasticsearch write, so a crash does lose the mark,
  despite `indexer/model.js`, 18-21 (`CrashLosesMark`). A failed `requeue_bulk` or `record_failures`
  write loses it too, and so does, for its whole batch, one row whose op cannot be shaped: that runs
  outside the try (`indexer/worker.js`, 74; `UnshapedRowLosesBatch`).
- The lifecycle of `indexer/model.js`, 6-13, holds of a clean row only while every write of is_indexed
  takes: one that fails, or a crash before it, leaves the column wrong under a row that nothing will
  pick up again, and the reset after a drop (197-202) passes over an ineligible row whose earlier mark
  was lost (`StepKeepsFlagsIff`, `UnsavedMarkMisflags`).
- Indexer ticks may overlap (`indexer/worker.js`, 232); with two batches holding one row the index can
  stay stale for good (`OverlapBreaks`).
- The retry on the preservation page reopens the newest row of a package, whatever an older one is
  doing (`dashboard/aip_controller.js`, 387-402; `StepKeepsHeldIff`).
- `bulk_write` reads an op without a response entry as a success (`BulkItems`).
- `_is_descendant_of` stops after 100 links, so a deeper move can close a cycle (`DeepMoveMakesCycle`).
- The object delete (`repository/model.js`, 280-310) has no emptiness guard: used on a collection it
  strands the contents (`StepKeepsForestIff`).
- An awaited conversion whose verdict is retryable is overwritten when the next post is acknowledged,
  and stays IN_PROGRESS until the next boot (`OverwrittenIsOrphan`).
- A helper killed for going quiet may have created handles, so FAILED does not mean that nothing was
  minted, despite `handles/model.js`, 254-258. A helper that dies after its first result even
  resolves the batch (`libs/handle_writer.js`, 302-313), and `mint` does not look for the summary
  that would show it (`StatusTellsIff`, `CutBatchHidesHandles`).
- Start promises never to enqueue a package twice (`ingester/aip_backfill.js`, 194-200), and names
  cancel and Start as the way to run a batch again (124-126). Cancel does not stop a dispatched copy,
  whose stage goes on writing the row whatever it holds, so that flow can put one package in the
  queue twice (`StartKeepsHeldIff`, `CancelThenStartDoubles`).
- The backfill's five counters do not add up to the total when a batch holds a row in another state,
  such as the COMPLETE that stage 6 writes when it is switched off (`AipBackfill.Backfill.GetStatus`).
- A holder forgets a login when it ends, a turn before the first caller stores its token
  (`libs/aspace_session.js`, 86-90), so a call in between starts a second login of the same burst,
  despite 80-81 (`WindowStartsAnother`).
- After a 401 the record is fetched a second time without waiting for a paced slot
  (`libs/aspace_session.js`, 152-160).

## Model

| member | source | states |
|---|---|---|
| GateTheorems.SerialPipeline | ingester/worker.js:88-110 | On every run, crashes and boots included, open mid-pipeline rows and dispatched stage 1-5 rows together number at most one, if no access copy is retried and no row is enqueued mid-pipeline |
| GateTheorems.OneDispatchAtATime | ingester/worker.js:420-424 | On every run whatever, retries included, at most one stage 1-5 row is dispatched in serial mode |
| GateTheorems.OnePackageInArchivematica | ingester/worker.js:129-166 | Without parallel transfers, in serial and in interleaved mode, open rows inside Archivematica and rows dispatched from its states number at most one on every run, retries of access copies included |
| GateTheorems.OneCopyAtATime | ingester/worker.js:384-419 | Open rows being copied to the store and dispatched stage 6 rows number at most one on every run, through stops, retries, backfills and restarts |
| GateTheorems.NewPackageWaits | ingester/worker.js:363-377 | A PENDING row is claimed only when nothing is dispatched and no open row is mid-pipeline |
| GateTheorems.RetryKeepsSerialIff | ingester/controller.js:632-654 | A retry of an access copy is always allowed on its state, and keeps the pipeline serial exactly when no other package is in it |
| GateTheorems.RunKeepsGate | ingester/worker.js:326-499 | Every gate keeps its window at one occupant on every run without a step that bypasses it |
| ApprovedWindow.ApprovedRowIsStranded | ingester/worker.js:55-71 | No tick ever claims an open TRANSFER_APPROVED row |
| ApprovedWindow.ApprovedWindowIff | ingester/worker.js:404-487 | In serial and in interleaved mode, with TRANSFER_APPROVED counted as inside, a step keeps the window at one package exactly when it is neither a tick with such a row open, the gate's sets and states empty and a free package on the page that the room allows, nor a bypass with another package inside |
| ApprovedWindow.RunKeepsApproved | ingester/worker.js:404-487 | On every run without such a tick and without a bypass the window holds one package, TRANSFER_APPROVED counted in |
| ApprovedWindow.CrashAtApprovedAdmitsIff | ingester/worker.js:88-166 | With the package in the window at TRANSFER_APPROVED, a crash and a tick put a second one in exactly when one waits: in serial mode a pending one, in interleaved mode an uploaded one with fewer open rows before it than `concurrency` |
| GateTheorems.SerialTickDrainsLatestFirst | ingester/worker.js:112-128 | Progress: in every reachable world with a free serial pipeline and an open row, the tick dispatches, and first the newest row at the latest stage |
| ApprovedWindow.EntryAdmittedIff | ingester/worker.js:425-444 | In interleaved mode a tick admits an upload to Archivematica exactly when nothing is dispatched there, no open row rests inside, and a free upload is on the page that the four earlier states leave room for |
| ApprovedWindow.PendingAdmittedIff | ingester/worker.js:420-424 | In serial mode a tick admits a pending package exactly when nothing of stages 1-5 is dispatched, no open row is mid-pipeline, and one of the newest `concurrency` pending rows is free |
| ClaimForms.ClaimIs | ingester/worker.js:404-487 | Whatever the table, the memory and the configuration, a tick claims exactly: in stages 1 to 5 one row (serial), every free row within the room (parallel transfers), or every free row with at most one in Archivematica (interleaved), the package under way before a new one; and then in stage 6 one copy, the one under way before a new one, or every free one |
| ClaimForms.CopyResumedIff | ingester/worker.js:384-419 | With one copy at a time, in both claim orders: a tick claims an AIP_STORE_IN_PROGRESS row exactly when no copy is dispatched and a free such row is on the page that the room left by stages 1-5 allows |
| ClaimForms.NewCopyAdmittedIff | ingester/worker.js:384-419 | With one copy at a time, in both claim orders: a tick claims an AIP_STORE_PENDING row exactly when no copy is dispatched, no open row is at AIP_STORE_IN_PROGRESS, and a free row outside backoff is within the room |
| ClaimForms.NewestCopyResumes | ingester/worker.js:384-419 | Stage 6 does not stall: with room left and no copy dispatched, the newest open AIP_STORE_IN_PROGRESS row is resumed whatever else the table holds |
| ClaimForms.MidResumedIff | ingester/worker.js:112-128 | In serial mode a tick claims a row of a mid-pipeline state exactly when nothing of stages 1-5 is dispatched, one of the newest `concurrency` rows of the state is free, and no later state has such a row |
| ClaimForms.InsideResumedIff | ingester/worker.js:425-447 | In interleaved mode a tick claims a row of an inside state exactly when nothing is dispatched in Archivematica, a free row of the state is on the page that the four uploading states leave room for, and no earlier inside state has one |
| GateInvariants.StepKeepsGate | ingester/worker.js:373-487 | Every step keeps a gate's window at one package exactly when it is not a bypassing step with another package in the window, nor, where the gate overlooks a state, a tick that admits past a row in it |
| GateInvariants.ClaimIsWellFormed | ingester/worker.js:404-487 | A claim phase dispatches at most `concurrency` rows, no row twice, each open, ready and not in flight |
| GateInvariants.GateOpen | ingester/worker.js:414-444 | What an open gate implies about the table and the memory together |
| GateInvariants.StepKeepsValid | ingester/worker.js:260-324 | The three dispatched sets are always the dispatched rows of their state class |
| GateInvariants.StepAddsNoOccupant | ingester/worker.js:260-324 | No step other than a tick or a bypass brings a package into a window |
| IngestGates.Newest | ingester/model.js:243-257 | The page of a queue query: the newest ids, in order, none passed over |
| IngestGates.Runnable | ingester/worker.js:231-258 | The backoff filter keeps exactly the candidates whose package is not in backoff |
| IngestGates.Candidates | ingester/worker.js:453-459 | A claim query returns distinct open rows of the state, within the limit, pending copies only outside backoff |
| IngestGates.CopyPassedOver | ingester/worker.js:231-258 | An open pending copy that a claim query does not return is not among the newest 50, is in backoff, or is older than all the rows that filled the limit |
| IngestGates.CandidatesDescend | ingester/worker.js:448-459 | A claim query returns its rows newest first, the backoff filter included |
| PipelineStates.SerialOrderLists | ingester/worker.js:112-128 | The serial claim order lists every ready state and no other |
| PipelineStates.SweptStates | ingester/model.js:305-328 | Of the ready states, the boot sweep takes exactly UPLOADING and CREATING_REPOSITORY_RECORD |
| IngestWorker.Worker.Tick | ingester/worker.js:326-499 | One tick, with its counters and loops, is the transition system's tick: it enters exactly the rows of `ClaimForms.Claims`, not aborted, each into the sets of its state, and changes nothing else; stopping, disabled or with a failed query it changes nothing |
| IngestWorker.Worker.ClaimRows | ingester/worker.js:410-487 | The claim loop's counters admit exactly what the gates allow, state by state |
| IngestWorker.Worker.ClaimState | ingester/worker.js:465-486 | One state's batch adds the rows not in flight, or just the first of them |
| IngestWorker.Worker.GateShut | ingester/worker.js:414-444 | The `continue` checks agree with the gates on the table and the rows claimed so far |
| IngestWorker.Worker.DispatchOneRow | ingester/worker.js:260-280 | A dispatch enters the row into the sets of its state |
| IngestWorker.Worker.Settle | ingester/worker.js:278-324 | A settled dispatch leaves all four sets and halts the row if its stage threw and the write took |
| IngestWorker.Worker.CancelRow | ingester/worker.js:614-623 | A staff cancel aborts the row exactly when it is dispatched |
| IngestWorker.Worker.Boot | ingester/worker.js:501-559 | The boot sweep is the reset of the orphans and then the finalisation: every open actively running row ends PENDING, every COMPLETE row closed, and no other row changes |
| IngestWorker.SettledIsAStep | ingester/worker.js:278-324 | Settling is the settle or the halt step of the transition system |
| IngestQueue.LogReplays | ingester/model.js:87-222 | On every run of operations that keep their side, each row's transition events are an unbroken chain from nothing to its pipeline_state, and status equals it |
| IngestQueue.PerformSyncedIff | ingester/model.js:56-222 | One operation keeps table and log in step exactly when it sets no differing pipeline_state, inserts no event posing as a transition and does not write around the model |
| IngestQueue.UpdateSyncedIff | ingester/model.js:138-197 | The same for update_queue alone |
| IngestQueue.UpdateReplays | ingester/model.js:160-197 | update_queue keeps the log replaying to pipeline_state whatever columns it is given, and adds nothing for a row already in the state |
| IngestQueue.ReplayIsChain | ingester/model.js:199-222 | A log replays to a state exactly when its transitions form an unbroken chain to it without self-loops |
| IngestQueue.QueueModel.QueuePackages | ingester/model.js:87-121 | Refuses an empty list; otherwise inserts every row with its creation event and returns the ids in order |
| IngestQueue.InsertedAllAre | ingester/model.js:56-121 | Each row queued is PENDING unless the caller says otherwise, its pipeline_state its status unless given, and has one creation event, in order |
| IngestQueue.QueueModel.UpdateQueue | ingester/model.js:138-197 | Changes exactly the matched rows and appends one event for each that changes state |
| IngestQueue.TransitionsAre | ingester/model.js:160-222 | Every event of an update is a change of one matched row from the state it had to the one given, of the kind and with the payload the caller named |
| IngestQueue.QueueModel.ResetOrphaned | ingester/model.js:429-454 | Returns exactly the orphans to PENDING and keeps the log in step |
| BatchActions.CancelBatch | ingester/controller.js:445-503 | Every listed row in a cancellable state ends CANCELLED_BY_USER in both columns and no other row changes; the log grows by one staff event for each, from the state the row had; the summary counts each class of listed rows exactly |
| BatchActions.ReturnBatch | ingester/controller.js:361-438 | Every listed row that was cancelled or rolled back ends RETURNED_TO_PACKAGING and every listed row halted before Archivematica ROLLED_BACK_TO_READY, closed, and no other row changes; the log grows by one staff event for each; the summary counts each class exactly |
| BatchActions.HaltClasses | ingester/state_metadata.js:275-458 | Which states count as cancellable and which as already halted, state by state |
| BatchActions.ReturnClasses | ingester/state_metadata.js:275-458 | Which states the batch return takes back and which it leaves to an Archivematica rollback, state by state |
| BatchActions.HaltThenReturnClears | ingester/controller.js:361-503 | The two actions in a row close every open row of the batch except those that need their own decision, which they leave untouched, and change no other batch |
| FolderRecovery.ReturnAsksExactlyIff | ingester/controller.js:817-912 | On every run with sound cancels, through missed moves, failed halts, sweeps and crashes: Return to Packaging asks for the move exactly when the folder has left 001-ready if and only if 'the upload was announced and not taken back' and 'a move landed and none brought it back' agree; which of the two errors it makes, and where a successful answer leaves the folder, follow from the two |
| FolderRecovery.AsksMoveIs | ingester/controller.js:824-845 | The move is asked for after an Archivematica rollback and after exactly the sixteen prior states from UPLOADING on, and never without a prior state |
| FolderRecovery.SaysIffDeclared | ingester/model.js:160-222 | On every such run the log says that the folder has left exactly when a stage announced it and nothing has taken the row back since |
| FolderRecovery.LeftIffLanded | ingester/stages/upload.js:103-122 | On every run the folder is away from 001-ready exactly when a move of stage 2 landed and none has brought it back |
| FolderRecovery.StepKeepsLog | ingester/model.js:160-222 | Every step keeps what the log holds of the row: its last event led to its state, and a cancel can be read back |
| FolderRecovery.SparedReturnAsks | ingester/controller.js:817-912 | On every sound run, moves missed or late, stages still running and crashes included: unless a sweep has taken the row with its folder away or its move owed, the return asks for every folder that has left 001-ready, and a successful answer leaves it there |
| FolderRecovery.LandingReturnFinds | ingester/controller.js:817-871 | On sound runs where stage 2's moves land, no crash or halt comes between its UPLOADING write and its move, and rows are returned only once their stage has settled, the return asks only for folders that have left, whatever is cancelled or swept |
| FolderRecovery.PromptReturnAsks | ingester/controller.js:817-871 | Under both conditions, with cancels at any moment, also between the UPLOADING write and the move, the return asks exactly when the folder has left 001-ready, and a successful answer leaves it there |
| FolderRecovery.MissedMoveIsAskedFor | ingester/stages/upload.js:112-122 | A move answered with an error, never asked for, or thrown with the halt unwritten leaves the row at UPLOADING with its folder in 001-ready; cancelled and returned, it asks for a move that is not there |
| FolderRecovery.StaleCancelHidesMove | ingester/model.js:330-357 | A cancel that read the row before its stage's UPLOADING write is read back as one from before the upload |
| FolderRecovery.SharpAnswer | ingester/model.js:369-387 | With distinct timestamps the read-back answers with the last matching event, and nothing else |
| FolderRecovery.TieReadsEither | ingester/model.js:369-379 | With a tie both answers are possible |
| FolderRecovery.EarlyReturnStrands | ingester/controller.js:817-871 | A return while stage 2 still owes its move asks for a folder that is in 001-ready, and strands it afterwards |
| FolderRecovery.SweepHidesMove | ingester/model.js:429-454 | After an orphan reset and a cancel the return does not ask, and the folder stays where it is |
| FolderRecovery.SweepHidesOwedMove | ingester/model.js:429-454 | A sweep between the UPLOADING write and the move hides the folder in the same way |
| FolderRecovery.WriteIsUpdate | ingester/model.js:160-197 | The one-package writes are update_queue seen through the row's own events |
| SearchIndex.IndexAgrees | indexer/model.js:76-94 | On every run without overlapping claims each row is dirty, in a batch, dead-lettered, lost with a batch, or in sync, and a mark is lost only with a batch that held the row |
| SearchIndex.StepKeepsInv | indexer/model.js:76-296 | Every step keeps that accounting, whatever the batches in flight |
| SearchIndex.QuietIsExact | indexer/model.js:6-13 | Once nothing is dirty or in flight the index holds exactly the projections of the eligible rows, dead letters apart |
| SearchIndex.RebuildIsExact | indexer/controller.js:133-149 | Whatever the index held and whatever was in flight at the drop, resetting and draining ends with an exact index |
| SearchIndex.DropHeals | indexer/controller.js:133-149 | Dropping the index accounts for every row, however wrong the index was |
| SearchIndex.DrainIsExact | indexer/worker.js:71-130 | As many answered ticks as the dirty rows have attempts left empty the queue, however the items fare, and leave an exact index |
| SearchIndex.TickFalls | indexer/model.js:254-281 | Every answered tick on a non-empty queue takes from the sum of the attempts left |
| SearchIndex.TickRows | indexer/worker.js:71-130 | One tick row by row; a tick whose bulk call threw leaves the table as it was, so an outage costs no attempt and dead-letters nothing |
| SearchIndex.TickKeepsInv | indexer/worker.js:71-130 | A whole tick keeps the accounting and loses nothing |
| SearchIndex.LostWith | indexer/worker.js:71-126 | A step loses a mark only by destroying a batch that held it |
| SearchIndex.DirtyIdsAre | indexer/model.js:76-85 | The claim takes the lowest dirty ids and passes over none |
| SearchIndex.WrittenLookup | libs/elasticsearch.js:390-434 | A bulk write indexes the eligible snapshots it accepts, deletes the others, and touches nothing else |
| SearchIndex.OverlapBreaks | indexer/worker.js:230-235 | Two batches holding one row, answered in the other order, leave the old document under a clean row that nothing will repair |
| SearchIndex.CrashLosesMark | indexer/model.js:86-93 | A crash after the claim leaves a clean row that the index does not hold |
| SearchIndex.UnshapedRowLosesBatch | indexer/worker.js:71-75 | One row whose op cannot be shaped leaves every claimed row of its batch clean, unheld and unwritten, with no crash and no failed write |
| SearchIndex.TickFields | indexer/model.js:211-281 | A tick field by field: an accepted row ends clean, its attempts and error cleared, is_indexed set exactly if it is published and active; a rejected one has spent one attempt, and is dirty again below the cap and parked with its reason at the cap; no other row changes |
| SearchIndex.StepKeepsFlagsIff | indexer/model.js:6-13 | One step: is_indexed of every row at rest goes on telling whether the index has the row, exactly unless the step is a failed write of a column that differs, a crash before it, or a drop under an ineligible row whose mark was lost |
| SearchIndex.FlagsHold | indexer/model.js:6-13 | On every run without such a step, is_indexed of every row at rest tells whether the index has the row |
| SearchIndex.QuietFlags | indexer/model.js:6-13 | Once nothing is dirty or in flight, is_indexed of every row that is not dead-lettered says both whether the index has it and whether it should |
| SearchIndex.DrainSetsFlags | indexer/worker.js:71-130 | Uninterrupted ticks keep is_indexed right, so a drained queue leaves every column as the index has it |
| SearchIndex.UnsavedMarkMisflags | indexer/model.js:211-217 | A row that the index took and whose column could not be written stays clean and in the index under is_indexed = 0 |
| SearchIndex.StepOnIndex | libs/elasticsearch.js:390-434 | What each step does to the index entry of a row and to the lost marks: an answered or thrown bulk call writes the documents that landed, a drop empties the index, and nothing else touches it |
| SearchIndex.CapsAre | indexer/model.js:76-82 | A limit or maximum that is missing, not a number or zero counts as five; a claim takes between one and a hundred rows |
| IndexerWorker.BulkItems | libs/elasticsearch.js:416-434 | Items align with the ops; an item fails exactly when its entry has an error that is not a missing delete, and an op without an entry reads as a success |
| IndexerWorker.SortItems | indexer/worker.js:85-97 | The three lists are the successes by op and the failures by reason |
| IndexerWorker.SortedOut | indexer/worker.js:44-97 | Every eligible row is indexed or failed, every other deindexed or failed, and no row is in two lists |
| IndexerWorker.Indexer.ClaimDirty | indexer/model.js:76-94 | Clears the flag of exactly the claimed rows and snapshots them |
| IndexerWorker.Indexer.RecordFailures | indexer/model.js:254-281 | Each failed row has spent one attempt; below the cap it is dirty again with its error as it was, at the cap it is clean with its reason; no other row changes |
| IndexerWorker.Indexer.ProcessBatch | indexer/worker.js:71-130 | Every row the answer took ends with its attempts and error cleared and is_indexed set exactly if its snapshot is published and active, and its document in or out of the index accordingly; every other row of the batch has spent an attempt; a bulk call that threw requeues them all without penalty; an op that cannot be shaped touches nothing |
| IndexerWorker.Indexer.Probe | indexer/worker.js:159-198 | The index is probed at most once per cooldown, and a failed probe starts the next cooldown |
| IndexerWorker.Indexer.Tick | indexer/worker.js:159-214 | The worker's tick is the protocol's tick, field by field: each claimed row that the answer took ends clean and marked by its eligibility, each other one has spent an attempt, an outage leaves the table as it was; stopped, unconfigured or without an index it changes nothing, and where an op cannot be shaped it only clears the claimed flags |
| IndexerWorker.DelayIs | indexer/worker.js:141-187 | Cooldowns double from five seconds and settle at a minute from the fifth failure on |
| CollectionForest.OfferedIsAccepted | collections/model.js:389-462 | Over properly nested collections every offered parent is accepted, and no other is, exactly when pid has no descendant more than 100 links down |
| CollectionForest.MoveKeepsAcyclicIff | collections/model.js:389-422 | An accepted move makes a cycle exactly when pid is an ancestor of the target, which then lies beyond the walk's bound |
| CollectionForest.DeepMoveMakesCycle | collections/model.js:364-377 | On a chain of 102 collections the top one is accepted under the bottom one |
| CollectionForest.ShallowMoveIsRefused | collections/model.js:364-377 | On a chain of 101 collections it is refused |
| CollectionForest.StepKeepsForestIff | collections/model.js:273-422 | A step keeps the tree acyclic and its active rows housed, except a move under a deep descendant and an object delete of an occupied collection |
| CollectionForest.ForestKept | collections/model.js:273-422 | The same on every run in which chains stay within 100 links |
| CollectionForest.IsDescendantOf | collections/model.js:364-377 | The bounded walk finds exactly the ancestors within its bound, cyclic data included |
| CollectionForest.Collections.EligibleParents | collections/model.js:432-462 | The search terminates on any data and excludes exactly pid and what lies below it |
| CollectionForest.Collections.Move | collections/model.js:389-422 | Accepts exactly the allowed moves, says whether anything changed; the moved row has the new parent and is_updated set, its other fields kept, and no other row changes; each refusal has its reason |
| CollectionForest.Collections.Delete | collections/model.js:315-354 | Succeeds exactly on an active collection without active rows under it, which ends inactive and is_updated, its other fields kept, and no other row changes |
| CollectionForest.Collections.AddMembers | collections/model.js:273-292 | Every listed active row that is not a collection ends filed under the collection and is_updated, its other fields kept; every other row is unchanged |
| CollectionForest.Collections.SubCollections | collections/model.js:226-260 | is_empty holds exactly where the delete would be accepted |
| CollectionForest.WalksAgree | collections/model.js:364-462 | Over nested collections the walk up and the search down reach each other in the same number of links |
| PartsManifest.MergeIdempotent | libs/display_envelope.js:162-225 | Merging again with the same files changes nothing, for any parts, when the files have distinct names |
| PartsManifest.MergeIdempotentIff | libs/display_envelope.js:162-225 | For every file list: a second merge changes nothing, whatever the parts, if and only if each file's name is null or not empty and no two names are alike |
| PartsManifest.SameNameGrows | libs/display_envelope.js:168-177 | The failing input: of two files with one name, the second merge lists one again |
| PartsManifest.PairedByFile | libs/display_envelope.js:162-206 | A part whose title is a file's name is paired with the first such file: its entry carries that file's path, and nothing is appended for it |
| PartsManifest.PairedByStem | libs/display_envelope.js:125-206 | A part titled stem.ext, where no file has that name, is paired with the first file whose file id is the stem: its entry carries that file's path, and nothing is appended for it |
| PartsManifest.PairedInTurn | libs/display_envelope.js:162-206 | A part that neither a name nor a stem finds is paired with nothing if it has a title, and with the first file not yet claimed if it has none |
| PartsManifest.EntryIs | libs/display_envelope.js:162-206 | Where each field of an entry comes from: the part's own value first, then that of the file it is paired with, and the place in the list where a part has no order |
| PartsManifest.UnclaimedAre | libs/display_envelope.js:208-224 | The files appended are exactly those that no part claimed, in order |
| PartsManifest.FileKeyIs | libs/display_envelope.js:120-123 | Names are compared without the blanks at their ends and without regard to case |
| PartsManifest.MergeKeepsInner | libs/display_envelope.js:182-206 | One entry for each part, in order and with its own title, MIME, caption, order and video id, and one for each unclaimed file |
| PartsManifest.MergeKeepsFiles | libs/display_envelope.js:139-225 | The manifest's paths are exactly the normalised paths of the files that are not sidecars |
| PartsManifest.ObjectPathIdempotentIff | libs/display_envelope.js:139-146 | Normalising a path again changes nothing exactly when there is nothing to normalise or the uuid holds no slash |
| PartsManifest.PrefixedIs | libs/display_envelope.js:139-149 | A normalised path keeps its directory, and its file name gets the uuid and a dash in front unless it has them already |
| PartsManifest.MergeParts | libs/display_envelope.js:162-225 | The loops over the two indexes and the claimed set compute the merge |
| PartsManifest.PairParts | libs/display_envelope.js:179-206 | The first loop pairs each part by name, by stem, or with the next free file |
| PartsManifest.AppendRest | libs/display_envelope.js:208-222 | The second loop appends the unclaimed files in order |
| PartsManifest.IndexFiles | libs/display_envelope.js:168-177 | Each index holds the first file with each key |
| PartsManifest.Rematch | libs/display_envelope.js:182-206 | A merged entry finds its own file again and is its own merge |
| Projection.ProjectionAgrees | libs/elasticsearch.js:190-248 | For a row written from the envelope the document repeats its creator, subjects, type, object, entry id and parts, and its title, abstract, handle and collection up to empty and null; is_compound agrees exactly unless only the record claims it |
| Projection.ThinProjectsTheSame | libs/elasticsearch.js:146-160 | A thin envelope projects the parts and the entry id that the built envelope stores |
| Projection.PartsAgree | libs/elasticsearch.js:146-160 | The projection of a built envelope carries its merged manifest, once |
| Projection.ObjectAgrees | libs/elasticsearch.js:167-178 | The projected master path is the envelope's, also when there is none |
| Projection.MasterIsFirst | libs/display_envelope.js:234-242 | The master has a path, nothing sorts before it, and ties stand after it, for any collation |
| Projection.PartsChosen | libs/elasticsearch.js:146-160 | A list with a path or a thumbnail is taken before one without, the envelope's parts before its compound list before the record's; an untitled file among the envelope's parts has them merged with the record's |
| Projection.MasterObjectIs | libs/elasticsearch.js:167-178 | The master path is the envelope's, then that of the first part of type object, then of the first with a path, then the row's file |
| Projection.CreatorIs | libs/display_envelope.js:57-64 | The creator is the title of the first name in that role, and the envelope's without one |
| Projection.EntryIdIs | libs/display_envelope.js:81-94 | The entry id is the first part's that has one, then the envelope's, then the record's, each before its Kaltura id |
| HandleBatch.ChunksDoNotMatter | libs/handle_writer.js:251-297 | However the output is cut into chunks, the lines consumed by the close are those of the whole output, in order |
| HandleBatch.BatchAnswersEach | libs/handle_writer.js:191-318 | Through both sides and any chunking: one result for each operation, in order, and a summary whose total is its two counts together |
| HandleBatch.SplitAppend | libs/handle_writer.js:276-281 | Splitting the leftover with the next chunk continues the split of the whole |
| HandleBatch.BatchReader.Data | libs/handle_writer.js:276-281 | A chunk is folded into what earlier chunks left |
| HandleBatch.BatchReader.Close | libs/handle_writer.js:292-314 | The promise settles once, on the whole output's lines |
| HandleBatch.VerdictIs | libs/handle_writer.js:299-314 | A fatal line rejects, and so does an output with neither a result nor a summary; anything else resolves with exactly what was seen |
| HandleCuts.AnyPrefixAnswersInOrder | libs/handle_writer.js:251-314 | Whatever part of the helper's output arrives, cut at any character and in any chunks, a batch that resolves holds the results of its first operations, in order and no more than were executed, and a summary only with all of them |
| HandleCuts.CutConsumes | libs/handle_writer.js:251-297 | Output cut at any character is consumed as some number of its whole lines |
| HandleBatch.RunBatch | java/DuHandleTool.java:131-204 | Prints one result per meaningful line and the summary, and exits with 0 exactly when every operation succeeded |
| HandleBatch.RunEntries | java/DuHandleTool.java:163-192 | The counters agree with the results printed, malformed entries included |
| HandleBatch.ResultIs | java/DuHandleTool.java:163-192 | An entry succeeds exactly if its operation is one of the four and executes; a line that is no entry, and an unknown operation, are refused with their message |
| HandleBatch.SplitRendered | java/DuHandleTool.java:355-362 | Lines written one after the other are read back as they were |
| HandleMint.MintedIffCreated | handles/model.js:248-290 | When the helper runs to its end a row is MINTED exactly when its handle was created |
| HandleMint.StatusTellsIff | handles/model.js:248-290 | Whatever becomes of the helper, killed when quiet (libs/handle_writer.js, 236-247) or dead at any point of its output: MINTED is never wrong, a row's status tells whether its handle was created exactly when its result arrived or it was not created, and a summary vouches for every row |
| HandleMint.CutBatchHidesHandles | handles/model.js:264-280 | A helper that dies after n results resolves the batch, and a handle created beyond them is recorded as FAILED |
| HandleMint.Mint | handles/model.js:232-290 | Every row leaves PENDING: MINTED exactly if the last result for its suffix is ok, and otherwise FAILED with the first 500 characters of its message, of "no result", or of the batch's error |
| HandleMint.Remove | handles/model.js:304-350 | A handle is DELETED exactly when it was neither deleted nor linked and the server no longer has it; otherwise the row keeps the status it had, with the refusal or the error as its message where the helper was asked |
| ConvertQueue.CountsAndCaps | convert/model.js:308-345 | On every run each batch's four counts add up to its total, and a row has FAILED exactly when it has used all its attempts |
| ConvertQueue.CompletedBy | convert/worker.js:60-205 | Behind every COMPLETE row of a run stands one step that completed it: an ok or unavailable verdict on that row, or an acknowledgement with verification off; it never changes afterwards |
| ConvertQueue.OrphanWaits | convert/worker.js:184-205 | On every run an orphaned row waits, attempts unchanged, for as long as no boot resets it |
| ConvertQueue.CompleteOnlyWhen | convert/worker.js:60-150 | A row becomes COMPLETE only on an ok or unavailable verdict on that row, or unverified on its acknowledgement |
| ConvertQueue.AttemptsOnlyRise | convert/model.js:308-325 | Attempts rise by one and only with a failure, and a settled row never changes again |
| ConvertQueue.StepOnRow | convert/worker.js:60-256 | What each step makes of a row, field by field: a refused post whose write took, a counted catch, an empty verdict and an exhausted retryable one each spend an attempt, FAILED exactly at the maximum; a claim, a release, a verdict and an acknowledgement move the status and nothing else |
| ConvertQueue.AttemptsAreFailures | convert/model.js:308-325 | On every run the attempts of a row are the failures recorded on it |
| ConvertQueue.SettledForGood | convert/model.js:268-325 | On every run a COMPLETE or FAILED row stays as it is and is never the next to be claimed |
| ConvertQueue.OverwrittenIsOrphan | convert/worker.js:165-205 | An awaited row with a retryable verdict is orphaned when the next post is acknowledged |
| ConvertQueue.OrphanUntilBoot | convert/worker.js:277-311 | An orphan stays IN_PROGRESS, attempts unchanged, through every step but the reset at boot |
| ConvertQueue.BootReturnsAll | convert/model.js:340-345 | Boot returns every IN_PROGRESS row to PENDING with its attempts, and leaves the rest alone |
| ConvertQueue.StepKeepsInv | convert/worker.js:60-341 | What the worker remembers of a row stays true until it settles it |
| ConvertQueue.NextPending | convert/model.js:268-283 | The claimed row is the first pending one by attempts and id |
| ConvertQueue.Worker.TickOnce | convert/worker.js:153-256 | A tick verifies, claims, posts and settles as the steps say, throws exactly when the verification's write does, and otherwise reports work exactly when there was some |
| ConvertQueue.Worker.VerifyAwaiting | convert/worker.js:60-150 | Each verdict settles or keeps the awaited row |
| ConvertQueue.Worker.SettlePost | convert/worker.js:184-254 | Each answer settles, awaits or releases the posted row; a first write that fails lands in the catch, which counts an attempt or releases |
| ConvertQueue.Worker.Start | convert/worker.js:277-311 | Start resets the orphans once; a running, disabled or unconfigured worker is left alone |
| ConvertQueue.Worker.Stop | convert/worker.js:313-341 | Stop releases the awaited row without spending an attempt |
| ConvertQueue.ExpandRow | convert/model.js:112-138 | Every eligible path of the parts, or the eligible master where no part names a file, is enqueued once, and no other |
| AipBackfill.NeverQueuedTwice | ingester/aip_backfill.js:112-151 | On every run of Start, Cancel, stage 6, staff, crashes and the rest of the system in any order, no package is live twice until a step doubles one that is held: live, or still dispatched whatever its row says |
| AipBackfill.StepKeepsHeldIff | ingester/stages/aip_store.js:51-238 | One step keeps the held packages distinct exactly when it is not a Start, a retry, an insert or an arrival for a package already held |
| AipBackfill.StartKeepsHeldIff | ingester/aip_backfill.js:202-242 | Start keeps the held packages distinct exactly when its candidates are distinct by package and none of them is still dispatched for a row that is no longer live |
| AipBackfill.FailedCopyComesBack | ingester/stages/aip_store.js:700-724 | Whenever a Start takes a package that is still dispatched, the next failure of that copy makes it live twice |
| AipBackfill.CancelThenStartDoubles | ingester/aip_backfill.js:354-377 | A run of one dispatch, Cancel, the stage's start, Start and the stage's failure, for any object and batch, ends with the package live twice |
| AipBackfill.SharedPackageIsQueuedTwice | ingester/aip_backfill.js:205-231 | Two objects with one package are queued twice by one Start |
| AipBackfill.RoundsReachZeroIff | ingester/aip_backfill.js:161-242 | Nothing is missing after n Start-and-drain rounds exactly when n chunks cover what was missing |
| AipBackfill.CandidatesCount | ingester/aip_backfill.js:202-210 | Start takes as many as it may, in id order |
| AipBackfill.NonePassedOver | ingester/aip_backfill.js:202-210 | No missing object is passed over for a later one |
| AipBackfill.ChunkSizeIs | ingester/aip_backfill.js:384-388 | A size given wins over the configured one and that over 1000, a zero counting as nothing given; the size taken is the nearest one between 1 and 10000 |
| AipBackfill.Backfill.Start | ingester/aip_backfill.js:202-242 | Appends one open AIP_STORE_PENDING row of a new batch for each candidate, in order, with its package, and reports how many; the rows there are stay as they are, and without candidates nothing changes |
| AipBackfill.Backfill.Cancel | ingester/aip_backfill.js:362-377 | Exactly the batch's pending rows end CANCELLED_BY_USER and closed, no other row changes, and their number is reported |
| AipBackfill.Backfill.GetStatus | ingester/aip_backfill.js:273-324 | Each counter is the number of rows in its state, and the five add up to the total exactly when every row of the batch is in one of their states |
| AipBackfill.StageWritesAgree | ingester/stages/aip_store.js:51-238 | The states stage 6 writes here are those the ingest worker's stage 6 may write, and none that closes the row is one the worker takes up |
| SessionPacing.SlotsKeepApart | libs/aspace_session.js:52-72 | Whatever the clocks and the sleeps, slots stand at least the sum of their intervals apart, and a sleep that throws costs the queue nothing |
| SessionPacing.Pacer.Pace | libs/aspace_session.js:54-72 | A paced call takes its slot at once if its interval has passed since the last one, and otherwise when its sleep wakes; a sleep that throws takes no slot |
| SessionPacing.SessionHolder.GetToken | libs/aspace_session.js:83-92 | A call answers from the cache at once, and starts a login only when there is neither a token nor a login under way |
| SessionPacing.OneLogin | libs/aspace_session.js:74-97 | However callers, stores and invalidations interleave, at most one login is outstanding, and a new one starts only for a failed login, an invalidated token, or a call between the end of a login and the first store of its token |
| SessionPacing.BurstSharesOne | libs/aspace_session.js:79-92 | Without failures, invalidations and calls in that window there is never a second login |
| SessionPacing.WindowStartsAnother | libs/aspace_session.js:83-92 | A call in that window starts a second login although the first succeeded |
| SessionPacing.LateStoreRevives | libs/aspace_session.js:91-96 | Of two calls that shared a login, the later may store the token again after the earlier has invalidated it |
| SessionPacing.SleptBetween | libs/aspace_session.js:172-184 | The sleeps together lie between half and one and a half times the geometric sum, up to rounding |
| SessionPacing.FetchRecord | libs/aspace_session.js:123-186 | At most two record calls an attempt; the first definitive status is returned at once, otherwise every attempt is used unless a backoff sleep throws; total backoff within the geometric bound |
| SessionPacing.EndingIs | libs/aspace_session.js:141-170 | An attempt ends with its response's status, or after a 401 or 403 and a new login with the second one's, provided it is below 500 and not 429 |

## Left out

- Stage bodies, ArchivesSpace transforms, metadata refresh and the user model: a stage is the set of
  states it may write, and any content change of an object is one step that dirties its row.
- HTTP, S3, SFTP, Elasticsearch and database transport, JSON and SQL parsing, UTF-8 characters split
  across chunks: outcomes are parameters of the steps.
- Routes, rendering, permissions, sessions, thumbnails, search queries and paging: single-branch code
  around the cores.
- Wall-clock timers, log lines, configuration loading and the per-row prose of error texts and history records.
- Graceful stop of the ingest worker: the abort signal is recorded, its effect on a stage is not.
- IndexerWorker.Indexer.Tick: the tick runs without other steps in between; the interleavings are those of `SearchIndex.Step`.
- IndexerWorker.Indexer.ProcessBatch: takes an op without a response entry as applied, as the assumption about Elasticsearch has it; database writes that fail after the bulk call are steps of `SearchIndex.Step`, not of the method.
- IngestWorker.Worker.Boot: takes the sweep's rows in no particular order; each row is one transaction in the source.
- IngestQueue.QueueModel.UpdateQueue: the where clause is represented by the rows it matched; the retry after a concurrent-modification error is not modelled.
- FolderRecovery.ReturnAsksExactlyIff: asks of every cancel a timestamp of its own and a `from` that is still the row's state when it is written; `TieReadsEither` and `StaleCancelHidesMove` show what happens otherwise.
- BatchActions.CancelBatch: runs without other steps in between, so no row is raced into a terminal state; the was_running counter is not modelled.
- BatchActions.ReturnBatch: the folder moves, and with them the counters qa_errors and am_cleanup_needed, are not modelled; `FolderRecovery` has the move of one row.
- PartsManifest.MergeParts: fields that hold a number or an object where a string is expected, and null list entries, are not modelled.
- Projection.ProjectionAgrees: transcripts and the stripped document of collections are not modelled.
- HandleBatch.RunBatch: a header line that is not JSON, and carriage returns that end a line on their own, are not modelled.
- HandleMint.Mint: the validation of target URLs and notes before anything is written is not modelled.
- ConvertQueue.Worker.Stop: a post that outlives the shutdown timeout is not modelled.
- ConvertQueue.Worker.TickOnce: begins on a worker that is not stopping, and runs without other steps in between; the interleavings are those of `ConvertQueue.Step`.
- AipBackfill.Backfill.Start: its three queries are one step, so two Starts at the same moment are not modelled.
- AipBackfill.Backfill.GetStatus: the choice of the latest batch and the buckets of failure reasons are not modelled.
- Objects that an ingest files under a collection id that names no active collection; `ForestKept` starts from a table without them.
- Two processes running the workers at once.
