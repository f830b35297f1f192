/** One row of the jira_migration table, its checkpoint, and what the row allows its owner to do. */
module MigrationRow {
  import opened Wrappers
  import opened JiraConfiguration

  type Time = int

  datatype Status =
    | Scanning | NeedsConfiguration | Ready | Migrating | Cancelling
    | ReconnectRequired | Failed | Cancelled | Succeeded

  datatype RetryPhase = ScanPhase | ImportPhase
  datatype Gate = StartImport(scanRevision: int) | Retry(failureSequence: int, phase: RetryPhase)

  datatype WriteIntent = WriteIntent(executionId: string, attempt: int)
  datatype Accepted = Accepted(configurationRevision: int, configuration: Configuration)
  datatype FailedAttachments = FailedAttachments(configurationRevision: int, ids: seq<string>)
  datatype ArtifactRef = ArtifactRef(key: string, sha256: string, byteSize: int, contentType: string)
  datatype Scan = Scan(manifest: Option<ArtifactRef>, scannedAt: Time, requirements: Requirements)

  datatype Checkpoint = Checkpoint(
    publishedPlan: Option<string>,
    remoteWrites: Option<WriteIntent>,
    currentGate: Option<Gate>,
    accepted: Option<Accepted>,
    scanFailureReceipts: map<string, int>,
    importFailureReceipts: map<string, int>,
    scanPages: map<string, int>,
    failedAttachments: Option<FailedAttachments>,
    postSuccessCleanupCompleted: bool,
    scan: Option<Scan>)

  const EMPTY_CHECKPOINT := Checkpoint(None, None, None, None, map[], map[], map[], None, false, None)

  datatype Owner = Owner(organizationId: string, userId: string)

  datatype Row = Row(
    id: string,
    requestId: string,
    owner: Owner,
    source: string,
    status: Status,
    phase: string,
    revision: int,
    manifestVersion: int,
    configuration: Option<Configuration>,
    checkpoint: Checkpoint,
    progressDone: int,
    progressTotal: Option<int>,
    workflowExecutionId: Option<string>,
    workflowAttempt: int,
    scanRevision: int,
    failureSequence: int,
    cleanupExecutionId: Option<string>,
    scanAt: Option<Time>,
    destinationProjectId: Option<string>,
    destinationProjectSlug: Option<string>,
    reportPath: Option<string>,
    failureReason: Option<string>,
    failureRetryable: Option<bool>,
    retainedUntil: Option<Time>,
    updatedAt: Time,
    finishedAt: Option<Time>)

  datatype Fence = Fence(migrationId: string, executionId: string, attempt: int)

  predicate FenceHolds(row: Row, fence: Fence) {
    && row.id == fence.migrationId
    && row.workflowExecutionId == Some(fence.executionId)
    && row.workflowAttempt == fence.attempt
  }

  function FenceFor(row: Row): Option<Fence> {
    if row.workflowExecutionId.None? then None
    else Some(Fence(row.id, row.workflowExecutionId.value, row.workflowAttempt))
  }

  predicate CanConfigure(row: Row) {
    && row.cleanupExecutionId.None?
    && (row.status == NeedsConfiguration || row.status == Ready || (row.status == Failed && row.scanAt.Some?))
  }

  predicate CanRun(row: Row) {
    && row.cleanupExecutionId.None?
    && (row.status == Ready
        || (row.status == Failed && row.failureRetryable == Some(true))
        || row.status == ReconnectRequired)
  }

  predicate CanRescan(row: Row) {
    && row.cleanupExecutionId.None?
    && row.checkpoint.remoteWrites.None?
    && row.status in {NeedsConfiguration, Ready, Failed, ReconnectRequired, Cancelled}
  }

  predicate CanCancel(row: Row) {
    row.cleanupExecutionId.None? && row.status != Cancelled && row.status != Succeeded
  }

  predicate CanDiscard(row: Row) {
    && row.cleanupExecutionId.None?
    && row.checkpoint.remoteWrites.None?
    && (row.status == Failed || row.status == Cancelled)
  }

  datatype CleanupMode = ResetImport | Discard | Expire | PostSuccess

  function CleanupStatusesFor(mode: CleanupMode): set<Status> {
    match mode
    case ResetImport => {NeedsConfiguration, Ready, Failed, ReconnectRequired, Cancelled}
    case PostSuccess => {Succeeded}
    case _ => {Failed, Cancelled}
  }

  /** What the unresolved-attachment query answers for a row. */
  function UnresolvedIn(row: Row): seq<string> {
    if row.checkpoint.failedAttachments.Some? && row.checkpoint.accepted.Some?
       && row.checkpoint.failedAttachments.value.configurationRevision
          == row.checkpoint.accepted.value.configurationRevision
    then row.checkpoint.failedAttachments.value.ids
    else []
  }

  /** The sum the progress column caches. */
  ghost function PageTotal(pages: map<string, int>): int
    decreases |pages|
  {
    if pages == map[] then 0
    else
      var k :| k in pages;
      assert |pages - {k}| < |pages| by { Smaller(pages, k); }
      pages[k] + PageTotal(pages - {k})
  }

  lemma Smaller(pages: map<string, int>, k: string)
    requires k in pages
    ensures |pages - {k}| == |pages| - 1
  {
    assert (pages - {k}).Keys == pages.Keys - {k};
  }

  /** The sum does not depend on the order in which the pages are taken. */
  lemma {:induction false} PageTotalRemove(pages: map<string, int>, k: string)
    requires k in pages
    ensures PageTotal(pages) == pages[k] + PageTotal(pages - {k})
    decreases |pages|
  {
    var j :| j in pages && PageTotal(pages) == pages[j] + PageTotal(pages - {j});
    if j != k {
      Smaller(pages, j);
      Smaller(pages, k);
      PageTotalRemove(pages - {j}, k);
      PageTotalRemove(pages - {k}, j);
      assert pages - {j} - {k} == pages - {k} - {j};
    }
  }
}
