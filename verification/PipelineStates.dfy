/** The states an ingest queue row can be in, and the sets of them that the worker,
    the queue model and the staff actions consult. */
module PipelineStates {

  datatype State =
    // stages 1 and 2
    | Pending | Starting | ProcessingMetadata | QaComplete | Uploading | UploadComplete
    | ReplicatingPackage
    // stage 3
    | TransferStarted | TransferInProgress | TransferApproved | TransferComplete
    // stage 4
    | IngestInProgress | IngestComplete | ConstructedObjectPaths | MasterObjectDataSaved
    | WaitingForDuracloud
    // stage 5
    | MetadataProcessed | MetadataRecordPartsUpdated | CreatingRepositoryRecord
    | RepositoryRecordCreated | RepositoryRecordIndexed | Complete
    // stage 6
    | AipStorePending | AipStoreInProgress | AipStoreComplete | AipStoreFailed
    // halts
    | UploadTimeout | ApproveTimeout | TransferStatusTimeout | IngestStatusTimeout
    | DuracloudTimeout | Failed | IngestHalted | CollectionRecordNotIndexed
    | AsMetadataDrift | AsMetadataInvalid
    // staff actions
    | RolledBackToReady | ReturnedToPackaging | AmDeletionRequested | CancelledByUser

  // --- ingester/worker.js ---------------------------------------------------

  predicate IsStage6(s: State) {
    s.AipStorePending? || s.AipStoreInProgress?
  }

  predicate IsCopying(s: State) {
    s.AipStoreInProgress?
  }

  /** PIPELINE_MID_STATES: a package already in flight in stages 1 to 5. */
  predicate IsMid(s: State) {
    s.ProcessingMetadata? || s.QaComplete? || s.Uploading? || s.UploadComplete?
    || s.TransferStarted? || s.TransferInProgress? || s.TransferComplete?
    || s.IngestInProgress? || s.IngestComplete? || s.WaitingForDuracloud?
    || s.MetadataProcessed? || s.CreatingRepositoryRecord?
  }

  predicate IsPipeline(s: State) {
    s.Pending? || IsMid(s)
  }

  /** The keys of STAGE_BY_STATE. */
  predicate IsReady(s: State) {
    IsPipeline(s) || IsStage6(s)
  }

  predicate IsAmEntry(s: State) {
    s.UploadComplete?
  }

  predicate IsAmInside(s: State) {
    s.TransferStarted? || s.TransferInProgress? || s.TransferComplete? || s.IngestInProgress?
  }

  predicate IsAmActive(s: State) {
    IsAmEntry(s) || IsAmInside(s)
  }

  const SERIAL_CLAIM_ORDER: seq<State> := [
    CreatingRepositoryRecord, MetadataProcessed, WaitingForDuracloud, IngestComplete,
    IngestInProgress, TransferComplete, TransferInProgress, TransferStarted, UploadComplete,
    Uploading, QaComplete, ProcessingMetadata, Pending, AipStoreInProgress, AipStorePending
  ]

  /** Object.keys(STAGE_BY_STATE), in insertion order. */
  const READY_STATES: seq<State> := [
    Pending, ProcessingMetadata, QaComplete, Uploading, UploadComplete, TransferStarted,
    TransferInProgress, TransferComplete, IngestInProgress, IngestComplete, WaitingForDuracloud,
    MetadataProcessed, CreatingRepositoryRecord, AipStorePending, AipStoreInProgress
  ]

  // --- ingester/model.js ----------------------------------------------------

  /** ACTIVELY_RUNNING_STATES: swept back to Pending at boot. */
  predicate IsActivelyRunning(s: State) {
    s.Starting? || s.Uploading? || s.ReplicatingPackage? || s.ConstructedObjectPaths?
    || s.MetadataRecordPartsUpdated? || s.CreatingRepositoryRecord?
  }

  // --- ingester/state_metadata.js --------------------------------------------

  predicate IsPreAmFailure(s: State) {
    s.IngestHalted? || s.UploadTimeout? || s.ApproveTimeout? || s.TransferStatusTimeout?
  }

  predicate IsAmFailure(s: State) {
    s.IngestStatusTimeout? || s.Failed? || s.AsMetadataDrift? || s.DuracloudTimeout?
  }

  predicate IsPreUploadPrior(s: State) {
    s.Pending? || s.Starting? || s.ProcessingMetadata? || s.QaComplete?
  }

  predicate IsPostUploadPrior(s: State) {
    s.Uploading? || s.UploadComplete? || s.TransferStarted? || s.TransferInProgress?
    || s.TransferApproved? || s.TransferComplete?
  }

  predicate IsAmPrior(s: State) {
    s.IngestInProgress? || s.IngestComplete? || s.ConstructedObjectPaths?
    || s.MasterObjectDataSaved? || s.WaitingForDuracloud? || s.MetadataProcessed?
    || s.MetadataRecordPartsUpdated? || s.CreatingRepositoryRecord?
    || s.RepositoryRecordCreated? || s.RepositoryRecordIndexed?
  }

  predicate IsCancellable(s: State) {
    IsPreUploadPrior(s) || IsPostUploadPrior(s) || IsAmPrior(s)
  }

  datatype Action =
    | Timeline | StopAipCopy | DismissAipRow | RollbackToPackaging | RetryAccessCopy
    | RollbackArchivematica | RollbackPreIngest | Reset | Cancel

  /** available_actions(state): the staff actions offered on a row in state s. */
  function AvailableActions(s: State): set<Action> {
    {Timeline} +
    if IsStage6(s) then {StopAipCopy}
    else if s.AipStoreFailed? then {DismissAipRow}
    else if s.CancelledByUser? || s.AmDeletionRequested? then {RollbackToPackaging}
    else if s.DuracloudTimeout? then {RetryAccessCopy, RollbackArchivematica}
    else if IsPreAmFailure(s) then {RollbackPreIngest}
    else if IsAmFailure(s) then {RollbackArchivematica}
    else if s.AsMetadataInvalid? then {Reset}
    else if IsCancellable(s) then {Cancel}
    else {}
  }

  predicate Offers(s: State, a: Action) {
    a in AvailableActions(s)
  }

  /** Both claim orders list every ready state, and no other. */
  lemma InsertionOrderLists(s: State)
    ensures s in READY_STATES <==> IsReady(s)
    ensures |READY_STATES| == 15
  {
  }

  lemma SerialOrderLists(s: State)
    ensures s in SERIAL_CLAIM_ORDER <==> IsReady(s)
    ensures |SERIAL_CLAIM_ORDER| == 15
  {
  }

  /** What the boot sweep takes: of the ready states, only the two that a stage writes before it acts. */
  lemma SweptStates(s: State)
    ensures IsActivelyRunning(s) && IsReady(s) <==> s in [Uploading, CreatingRepositoryRecord]
    ensures IsActivelyRunning(s) && !IsReady(s) <==>
            s in [Starting, ReplicatingPackage, ConstructedObjectPaths, MetadataRecordPartsUpdated]
  {
  }
}
