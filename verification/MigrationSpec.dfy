/** What each row operation of MigrationProjection.ts does to the row it addresses.
    A conditional UPDATE and a SELECT FOR UPDATE transaction are one step. The owner's
    mutations and the rescan read the row first and update it conditionally later, so they
    are split into a plan made on the row that was read and a commit on the row found later. */
module MigrationSpec {
  import opened Wrappers
  import opened JiraConfiguration
  import opened MigrationRow
  import Sorting

  const RETENTION: Time := 30 * 86_400_000

  datatype Error =
    | NotFound | RevisionConflict | RequestConflict
    | NotConfigurable | ScanIncomplete | RunNotAllowed | CancelNotAllowed | RescanNotAllowed

  datatype Failure = Failure(reason: string, retryable: bool, reconnect: bool)

  // ---------- remote-write marker ----------

  function BeginRemoteWrites(row: Row, fence: Fence, now: Time): (Row, bool) {
    if !FenceHolds(row, fence) || row.cleanupExecutionId.Some? || row.status in {Cancelling, Cancelled} then
      (row, false)
    else if row.checkpoint.remoteWrites.Some? then
      (row, row.checkpoint.remoteWrites.value == WriteIntent(fence.executionId, fence.attempt))
    else if (row.status in {NeedsConfiguration, Ready} && row.scanAt.Some?
             && row.checkpoint.scan.Some? && row.checkpoint.scan.value.manifest.Some?)
            || (row.status == Succeeded && row.checkpoint.publishedPlan.Some?) then
      (row, true)
    else if row.status in {Scanning, Migrating}
            || (row.scanAt.None? && row.status in {Failed, ReconnectRequired}) then
      (row.(checkpoint := row.checkpoint.(remoteWrites := Some(WriteIntent(fence.executionId, fence.attempt))),
            updatedAt := now), true)
    else
      (row, false)
  }

  function SettleRemoteWrites(row: Row, fence: Fence, now: Time): (Row, bool) {
    if !FenceHolds(row, fence) then (row, false)
    else if row.checkpoint.remoteWrites.None? then (row, true)
    else if row.checkpoint.remoteWrites.value != WriteIntent(fence.executionId, fence.attempt) then (row, false)
    else (row.(checkpoint := row.checkpoint.(remoteWrites := None), updatedAt := now), true)
  }

  // ---------- attachments ----------

  function Without(xs: seq<string>, id: string): seq<string> {
    if xs == [] then []
    else (if xs[0] == id then [] else [xs[0]]) + Without(xs[1..], id)
  }

  function RecordAttachment(row: Row, fence: Fence, configurationRevision: int, id: string, failed: bool, now: Time)
    : (Row, bool)
  {
    var c := row.checkpoint;
    if !FenceHolds(row, fence) || row.status != Migrating || row.cleanupExecutionId.Some?
       || row.destinationProjectId.None? then (row, false)
    else if c.accepted.None? || c.accepted.value.configurationRevision != configurationRevision then (row, false)
    else
      var known := c.failedAttachments.Some?
                   && c.failedAttachments.value.configurationRevision == configurationRevision;
      var previous := if known then c.failedAttachments.value.ids else [];
      var ids := if failed then Sorting.SortBy(FirstOccurrences(previous + [id]), Sorting.Utf16)
                 else Without(previous, id);
      if known && |ids| == |previous| then (row, true)
      else (row.(checkpoint := c.(failedAttachments := Some(FailedAttachments(configurationRevision, ids))),
                 updatedAt := now, revision := row.revision + 1), true)
  }

  // ---------- creation and rescan ----------

  datatype CreateInput = CreateInput(owner: Owner, requestId: string, source: string, executionId: string)

  function CreatedRow(input: CreateInput, now: Time): Row {
    Row(input.executionId, input.requestId, input.owner, input.source, Scanning, "queued_scan", 0, 1,
        None, EMPTY_CHECKPOINT, 0, None, Some(input.executionId), 1, 1, 0, None, None, None, None, None,
        None, None, None, now, None)
  }

  datatype RescanInput = RescanInput(
    supersededExecutionId: string, migrationId: string, expectedRevision: int,
    workflowAttempt: int, scanRevision: int, executionId: string)

  predicate IsRescanTarget(row: Row, input: RescanInput) {
    && row.workflowExecutionId == Some(input.executionId)
    && row.workflowAttempt == input.workflowAttempt
    && row.scanRevision == input.scanRevision
  }

  datatype RescanPlan = Replayed | Refused(error: Error) | Proceed

  function PlanRescan(row: Row, input: RescanInput): RescanPlan {
    if row.id != input.migrationId then Refused(RevisionConflict)
    else if IsRescanTarget(row, input) then Replayed
    else if row.workflowExecutionId != Some(input.supersededExecutionId)
            || row.revision != input.expectedRevision
            || input.workflowAttempt != row.workflowAttempt + 1
            || input.scanRevision != row.scanRevision + 1 then Refused(RevisionConflict)
    else if row.checkpoint.remoteWrites.Some? then Refused(RevisionConflict)
    else if !CanRescan(row) then Refused(RescanNotAllowed)
    else Proceed
  }

  /** The conditional UPDATE of a rescan that was planned on `read`. */
  function CommitRescan(current: Row, read: Row, input: RescanInput, now: Time): Option<Row> {
    if FenceFor(read).Some? && FenceHolds(current, FenceFor(read).value)
       && current.revision == input.expectedRevision
       && current.status == read.status && current.cleanupExecutionId.None?
    then
      Some(current.(
        workflowExecutionId := Some(input.executionId), workflowAttempt := input.workflowAttempt,
        scanRevision := input.scanRevision, revision := input.expectedRevision + 1, updatedAt := now,
        status := Scanning, phase := "queued_scan", configuration := None, checkpoint := EMPTY_CHECKPOINT,
        progressDone := 0, progressTotal := None, scanAt := None, failureReason := None,
        failureRetryable := None, finishedAt := None, retainedUntil := None))
    else None
  }

  function BeginRescan(row: Row, input: RescanInput, now: Time): (Row, Result<Row, Error>) {
    match PlanRescan(row, input)
    case Replayed => (row, Ok(row))
    case Refused(error) => (row, Err(error))
    case Proceed =>
      match CommitRescan(row, row, input, now)
      case Some(updated) => (updated, Ok(updated))
      case None => (row, Err(RevisionConflict))
  }

  // ---------- owner mutations ----------

  datatype OwnerCommand =
    | SaveConfiguration(configuration: Configuration, unresolved: seq<string>)
    | Run
    | Cancel

  /** The columns an owner mutation sets; None leaves a column alone. */
  datatype OwnerPatch = OwnerPatch(
    status: Status, phase: string, configuration: Option<Configuration>, accepted: Option<Accepted>,
    clearsFailure: bool, finishedAt: Option<Time>, retainedUntil: Option<Time>)

  predicate IsScanRetry(row: Row) {
    if row.checkpoint.currentGate.Some? && row.checkpoint.currentGate.value.Retry?
    then row.checkpoint.currentGate.value.phase.ScanPhase?
    else row.scanAt.None?
  }

  function AcceptedBy(row: Row, expectedRevision: int, configuration: Configuration): Accepted {
    if row.checkpoint.accepted.Some? && row.checkpoint.accepted.value.configuration == configuration
    then row.checkpoint.accepted.value
    else Accepted(expectedRevision + 1, configuration)
  }

  function PlanSave(row: Row, configuration: Configuration, unresolved: seq<string>): Result<OwnerPatch, Error> {
    var c := row.checkpoint;
    if !CanConfigure(row) then Err(NotConfigurable)
    else if c.scan.None? then Err(ScanIncomplete)
    else if row.destinationProjectId.Some?
            && (c.accepted.None? || !IsAllowedCorrection(c.accepted.value.configuration, configuration, unresolved))
    then Err(NotConfigurable)
    else
      var complete := IsComplete(configuration, c.scan.value.requirements);
      Ok(OwnerPatch(if complete then Ready else NeedsConfiguration,
                    if complete then "ready" else "configuration", Some(configuration), None, true, None, None))
  }

  function PlanRun(row: Row, expectedRevision: int): Result<OwnerPatch, Error> {
    var c := row.checkpoint;
    if !CanRun(row) then Err(RunNotAllowed)
    else if IsScanRetry(row) then
      Ok(OwnerPatch(Scanning, "queued_scan", None, None, true, None, None))
    else if row.configuration.None? || c.scan.None?
            || !IsComplete(row.configuration.value, c.scan.value.requirements) then Err(RunNotAllowed)
    else
      Ok(OwnerPatch(Migrating, "migrate", None, Some(AcceptedBy(row, expectedRevision, row.configuration.value)),
                    true, None, None))
  }

  function PlanCancel(row: Row, now: Time): Result<OwnerPatch, Error> {
    if !CanCancel(row) then Err(CancelNotAllowed)
    else if row.status in {Scanning, Migrating, Cancelling} then
      Ok(OwnerPatch(Cancelling, "cancelling", None, None, false, None, None))
    else
      Ok(OwnerPatch(Cancelled, "cancelled", None, None, false, Some(now), Some(now + RETENTION)))
  }

  function PlanOwner(row: Row, owner: Owner, expectedRevision: int, command: OwnerCommand, now: Time)
    : Result<OwnerPatch, Error>
  {
    if row.owner != owner then Err(NotFound)
    else if row.revision != expectedRevision then Err(RevisionConflict)
    else match command
         case SaveConfiguration(configuration, unresolved) => PlanSave(row, configuration, unresolved)
         case Run => PlanRun(row, expectedRevision)
         case Cancel => PlanCancel(row, now)
  }

  function Patched(row: Row, expectedRevision: int, patch: OwnerPatch, now: Time): Row {
    row.(status := patch.status, phase := patch.phase,
         configuration := if patch.configuration.Some? then patch.configuration else row.configuration,
         checkpoint := if patch.accepted.Some? then row.checkpoint.(accepted := patch.accepted) else row.checkpoint,
         failureReason := if patch.clearsFailure then None else row.failureReason,
         failureRetryable := if patch.clearsFailure then None else row.failureRetryable,
         finishedAt := patch.finishedAt, retainedUntil := patch.retainedUntil,
         revision := expectedRevision + 1, updatedAt := now)
  }

  /** updateRevision: the conditional UPDATE of a mutation that was planned on `read`. */
  function CommitOwner(current: Row, read: Row, expectedRevision: int, patch: OwnerPatch, now: Time): Option<Row> {
    if FenceFor(read).Some? && read.revision == expectedRevision
       && FenceHolds(current, FenceFor(read).value) && current.revision == expectedRevision
       && current.status == read.status && current.cleanupExecutionId.None?
    then Some(Patched(current, expectedRevision, patch, now))
    else None
  }

  function OwnerMutation(row: Row, owner: Owner, expectedRevision: int, command: OwnerCommand, now: Time)
    : (Row, Result<Row, Error>)
  {
    match PlanOwner(row, owner, expectedRevision, command, now)
    case Err(error) => (row, Err(error))
    case Ok(patch) =>
      match CommitOwner(row, row, expectedRevision, patch, now)
      case Some(updated) => (updated, Ok(updated))
      case None => (row, Err(RevisionConflict))
  }

  // ---------- the workflow's own updates ----------

  datatype Nullable<+T> = Keep | Set(value: Option<T>)

  function Over<T>(old_: Option<T>, patch: Nullable<T>): Option<T> {
    if patch.Keep? then old_ else patch.value
  }

  /** The checkpoint keys a patch can reach: the other six are removed from it first. */
  datatype CheckpointPatch = CheckpointPatch(
    importFailureReceipts: Option<map<string, int>>, failedAttachments: Option<FailedAttachments>,
    postSuccessCleanupCompleted: bool, scan: Option<Scan>)

  datatype ProjectionPatch = ProjectionPatch(
    status: Option<Status>, phase: Option<string>, progressDone: Option<int>, progressTotal: Nullable<int>,
    checkpoint: Option<CheckpointPatch>, scanAt: Nullable<Time>, manifestVersion: Option<int>,
    destinationProjectId: Nullable<string>, destinationProjectSlug: Nullable<string>,
    reportPath: Nullable<string>, finishedAt: Nullable<Time>)

  function Merged(c: Checkpoint, p: CheckpointPatch): Checkpoint {
    c.(importFailureReceipts :=
         if p.importFailureReceipts.Some? then p.importFailureReceipts.value else c.importFailureReceipts,
       failedAttachments := if p.failedAttachments.Some? then p.failedAttachments else c.failedAttachments,
       postSuccessCleanupCompleted := c.postSuccessCleanupCompleted || p.postSuccessCleanupCompleted,
       scan := if p.scan.Some? then p.scan else c.scan)
  }

  function Advance(row: Row, fence: Fence, patch: ProjectionPatch, now: Time): (Row, bool) {
    if !FenceHolds(row, fence) || row.cleanupExecutionId.Some?
       || row.status in {Succeeded, Cancelled, Cancelling} then (row, false)
    else
      (row.(status := if patch.status.Some? then patch.status.value else row.status,
            phase := if patch.phase.Some? then patch.phase.value else row.phase,
            progressDone := if patch.progressDone.Some? then patch.progressDone.value else row.progressDone,
            progressTotal := Over(row.progressTotal, patch.progressTotal),
            checkpoint := if patch.checkpoint.Some? then Merged(row.checkpoint, patch.checkpoint.value)
                          else row.checkpoint,
            scanAt := Over(row.scanAt, patch.scanAt),
            manifestVersion := if patch.manifestVersion.Some? then patch.manifestVersion.value
                               else row.manifestVersion,
            destinationProjectId := Over(row.destinationProjectId, patch.destinationProjectId),
            destinationProjectSlug := Over(row.destinationProjectSlug, patch.destinationProjectSlug),
            reportPath := Over(row.reportPath, patch.reportPath),
            finishedAt := Over(row.finishedAt, patch.finishedAt),
            updatedAt := now, revision := row.revision + 1), true)
  }

  function FailedRow(row: Row, sequence: int, status: Status, failure: Failure, checkpoint: Checkpoint, now: Time): Row {
    row.(status := status, failureReason := Some(failure.reason), failureRetryable := Some(failure.retryable),
         failureSequence := sequence, checkpoint := checkpoint, finishedAt := Some(now),
         retainedUntil := Some(now + RETENTION), updatedAt := now, revision := row.revision + 1)
  }

  function FailureStatus(failure: Failure): Status {
    if failure.reconnect then ReconnectRequired else Failed
  }

  function RecordFailure(row: Row, fence: Fence, failure: Failure, now: Time): (Row, bool) {
    if !FenceHolds(row, fence) || row.cleanupExecutionId.Some?
       || row.status in {Succeeded, Cancelled, Cancelling, Failed, ReconnectRequired} then (row, false)
    else
      var sequence := row.failureSequence + 1;
      var checkpoint :=
        if row.scanAt.Some? && row.checkpoint.accepted.None? then row.checkpoint
        else row.checkpoint.(currentGate :=
               Some(Retry(sequence, if row.scanAt.None? then ScanPhase else ImportPhase)));
      (FailedRow(row, sequence, FailureStatus(failure), failure, checkpoint, now), true)
  }

  function RecordScanFailure(row: Row, fence: Fence, key: string, failure: Failure, now: Time): (Row, Option<int>) {
    var c := row.checkpoint;
    if !FenceHolds(row, fence) || row.cleanupExecutionId.Some?
       || row.status in {Succeeded, Cancelled, Cancelling} then (row, None)
    else if key in c.scanFailureReceipts then (row, Some(c.scanFailureReceipts[key]))
    else if row.status in {Failed, ReconnectRequired} then
      (row.(checkpoint := c.(scanFailureReceipts := c.scanFailureReceipts[key := row.failureSequence]),
            updatedAt := now, revision := row.revision + 1), Some(row.failureSequence))
    else
      var sequence := row.failureSequence + 1;
      (FailedRow(row, sequence, FailureStatus(failure), failure,
                 c.(currentGate := Some(Retry(sequence, ScanPhase)),
                    scanFailureReceipts := c.scanFailureReceipts[key := sequence]), now), Some(sequence))
  }

  function RecordImportFailure(row: Row, fence: Fence, key: string, failure: Failure, now: Time): (Row, Option<int>) {
    var c := row.checkpoint;
    if !FenceHolds(row, fence) || row.cleanupExecutionId.Some? || row.scanAt.None?
       || row.status in {Succeeded, Cancelled, Cancelling} then (row, None)
    else if key in c.importFailureReceipts then (row, Some(c.importFailureReceipts[key]))
    else if row.status != Migrating then (row, None)
    else
      var sequence := row.failureSequence + 1;
      (FailedRow(row, sequence, FailureStatus(failure), failure,
                 c.(currentGate := Some(Retry(sequence, ImportPhase)),
                    importFailureReceipts := c.importFailureReceipts[key := sequence]), now), Some(sequence))
  }

  datatype ResumeResult = Resumed | AwaitRetry(failureSequence: int) | Rejected

  function ResumeImport(row: Row, fence: Fence, sequence: int): ResumeResult {
    if !FenceHolds(row, fence) || row.cleanupExecutionId.Some? || row.scanAt.None?
       || row.status !in {Failed, Migrating, ReconnectRequired} then Rejected
    else if row.failureSequence > sequence then AwaitRetry(row.failureSequence)
    else if row.failureSequence != sequence then Rejected
    else if row.status == Migrating then Resumed
    else Rejected
  }

  function ResumeScan(row: Row, fence: Fence, sequence: int, now: Time): (Row, ResumeResult) {
    var scanned := row.scanAt.Some? && row.status in {NeedsConfiguration, Ready, Migrating};
    var retryable := row.scanAt.None? && row.failureRetryable == Some(true)
                     && row.status in {Failed, ReconnectRequired};
    if !FenceHolds(row, fence) || row.cleanupExecutionId.Some? then (row, Rejected)
    else if !scanned && !retryable && row.status != Scanning then (row, Rejected)
    else if row.failureSequence > sequence then (row, AwaitRetry(row.failureSequence))
    else if row.failureSequence != sequence then (row, Rejected)
    else if scanned || row.status == Scanning then (row, Resumed)
    else
      (row.(status := Scanning, failureReason := None, failureRetryable := None, finishedAt := None,
            retainedUntil := None, updatedAt := now, revision := row.revision + 1), Resumed)
  }

  ghost function RecordScanProgress(row: Row, fence: Fence, page: string, count: int, now: Time): (Row, bool) {
    var c := row.checkpoint;
    if !FenceHolds(row, fence) || row.cleanupExecutionId.Some?
       || row.status !in {Scanning, Failed, ReconnectRequired} then (row, false)
    else if page in c.scanPages then (row, true)
    else
      var pages := c.scanPages[page := count];
      (row.(checkpoint := c.(scanPages := pages), progressDone := PageTotal(pages),
            updatedAt := now, revision := row.revision + 1), true)
  }

  function CompleteScan(row: Row, fence: Fence, manifest: ArtifactRef, scannedAt: Time, requirements: Requirements, now: Time)
    : (Row, bool)
  {
    var c := row.checkpoint;
    if !FenceHolds(row, fence) || row.cleanupExecutionId.Some? then (row, false)
    else if row.status in {NeedsConfiguration, Ready, Migrating} && row.scanAt.Some? then
      (row, c.scan.Some? && c.scan.value.manifest == Some(manifest))
    else if row.status != Scanning then (row, false)
    else
      (row.(checkpoint := c.(scan := Some(Scan(Some(manifest), scannedAt, requirements)),
                             currentGate := Some(StartImport(row.scanRevision))),
            status := NeedsConfiguration, phase := "configuration", scanAt := Some(scannedAt),
            manifestVersion := 2, progressTotal := Some(row.progressDone), updatedAt := now,
            revision := row.revision + 1), true)
  }

  function FinalizeInterrupted(row: Row, fence: Fence, now: Time): (Row, bool) {
    if !FenceHolds(row, fence) || row.status != Cancelling || row.cleanupExecutionId.Some? then (row, false)
    else
      (row.(status := Cancelled, phase := "cancelled", finishedAt := Some(now),
            retainedUntil := Some(now + RETENTION), updatedAt := now, revision := row.revision + 1), true)
  }

  // ---------- the import's own writes (PublicationLive.ts) ----------

  /** ensureHiddenJiraProject: `indexed` says that the project index has the project, hidden and
      as the import describes it. Neither the revision nor the time of the last update moves. */
  function EnsureHidden(row: Row, fence: Fence, organizationId: string, projectId: string, slug: string, indexed: bool)
    : (Row, bool)
  {
    if !FenceHolds(row, fence) || row.status != Migrating || row.cleanupExecutionId.Some?
       || row.owner.organizationId != organizationId
       || (row.destinationProjectId.Some? && row.destinationProjectId.value != projectId)
       || (row.destinationProjectSlug.Some? && row.destinationProjectSlug.value != slug)
       || !indexed then (row, false)
    else (row.(destinationProjectId := Some(projectId), destinationProjectSlug := Some(slug)), true)
  }

  datatype Publication = Publication(plan: string, projectId: string, projectSlug: string, reportPath: string)

  /** publishJiraMigrationAtomically: `hidden` and `published` say what the plan and the project
      index agree on: the project is there to be published, or has been. */
  function Publish(row: Row, fence: Fence, p: Publication, hidden: bool, published: bool, now: Time): (Row, bool) {
    if !FenceHolds(row, fence) then (row, false)
    else if row.status == Succeeded then
      (row, published && row.destinationProjectId == Some(p.projectId) && row.destinationProjectSlug == Some(p.projectSlug)
            && row.reportPath == Some(p.reportPath) && row.checkpoint.publishedPlan == Some(p.plan))
    else if row.status != Migrating || row.cleanupExecutionId.Some? || row.checkpoint.remoteWrites.Some? || !hidden then
      (row, false)
    else
      (row.(status := Succeeded, phase := "succeeded", destinationProjectId := Some(p.projectId),
            destinationProjectSlug := Some(p.projectSlug), reportPath := Some(p.reportPath),
            checkpoint := row.checkpoint.(publishedPlan := Some(p.plan)), finishedAt := Some(now),
            retainedUntil := None, failureReason := None, failureRetryable := None,
            revision := row.revision + 1, updatedAt := now), true)
  }

  // ---------- cleanup lock ----------

  function ClaimCleanup(row: Row, fence: Fence, expectedRevision: int, executionId: string, mode: CleanupMode, now: Time)
    : (Row, bool)
  {
    if FenceHolds(row, fence) && row.revision == expectedRevision && row.cleanupExecutionId.None?
       && row.checkpoint.remoteWrites.None? && (mode.ResetImport? ==> row.destinationProjectId.Some?)
       && row.status in CleanupStatusesFor(mode) then
      (row.(cleanupExecutionId := Some(executionId), updatedAt := now, revision := expectedRevision + 1), true)
    else
      (row, FenceHolds(row, fence) && row.cleanupExecutionId == Some(executionId)
            && row.status in CleanupStatusesFor(mode))
  }

  function ReleaseCleanup(row: Row, fence: Fence, executionId: string, mode: CleanupMode, now: Time): (Row, bool) {
    if FenceHolds(row, fence) && row.cleanupExecutionId == Some(executionId)
       && row.status in CleanupStatusesFor(mode) then
      (row.(cleanupExecutionId := None, updatedAt := now, revision := row.revision + 1), true)
    else (row, false)
  }

  function CompletePostSuccess(row: Row, fence: Fence, executionId: string, now: Time): (Row, bool) {
    var c := row.checkpoint;
    if !FenceHolds(row, fence) || row.status != Succeeded then (row, false)
    else if row.cleanupExecutionId.None? && c.postSuccessCleanupCompleted then (row, true)
    else if row.cleanupExecutionId != Some(executionId) then (row, false)
    else
      (row.(cleanupExecutionId := None, checkpoint := c.(postSuccessCleanupCompleted := true),
            updatedAt := now, revision := row.revision + 1), true)
  }

  function CompleteReset(row: Row, fence: Fence, executionId: string, destinationExists: bool, now: Time): (Row, bool) {
    if FenceHolds(row, fence) && row.cleanupExecutionId == Some(executionId)
       && row.status in CleanupStatusesFor(ResetImport) && row.checkpoint.remoteWrites.None?
       && !(row.destinationProjectId.Some? && destinationExists) then
      (row.(destinationProjectId := None, destinationProjectSlug := None, reportPath := None,
            cleanupExecutionId := None, updatedAt := now, revision := row.revision + 1), true)
    else (row, false)
  }

  /** Whether deleteAfterCleanup deletes the row. */
  predicate DeletesAfterCleanup(row: Row, fence: Fence, executionId: string) {
    && FenceHolds(row, fence) && row.cleanupExecutionId == Some(executionId)
    && row.checkpoint.remoteWrites.None? && row.status in {Failed, Cancelled}
  }
}
