/** Runs of the row: any interleaving of the operations of workflow executions, their units,
    the owner and cleanup executions. What holds over every run, for any arguments and any
    patch given to `advance`. */
module MigrationRuns {
  import opened Wrappers
  import opened JiraConfiguration
  import opened MigrationRow
  import opened MigrationSpec

  datatype Op =
    | BeginWrites(fence: Fence)
    | SettleWrites(fence: Fence)
    | AttachmentOutcome(fence: Fence, configurationRevision: int, attachmentId: string, failed: bool)
    | Rescan(input: RescanInput)
    | Mutate(owner: Owner, expectedRevision: int, command: OwnerCommand)
    | AdvanceRow(fence: Fence, patch: ProjectionPatch)
    | Fail(fence: Fence, failure: Failure)
    | ScanFailure(fence: Fence, key: string, failure: Failure)
    | ImportFailure(fence: Fence, key: string, failure: Failure)
    | Resume(fence: Fence, sequence: int)
    | Progress(fence: Fence, page: string, count: int)
    | Scanned(fence: Fence, manifest: ArtifactRef, scannedAt: Time, requirements: Requirements)
    | HideProject(fence: Fence, organizationId: string, projectId: string, slug: string, indexed: bool)
    | Published(fence: Fence, publication: Publication, hidden: bool, published: bool)
    | Interrupted(fence: Fence)
    | Claim(fence: Fence, expectedRevision: int, executionId: string, mode: CleanupMode)
    | Release(fence: Fence, executionId: string, mode: CleanupMode)
    | FinishPostSuccess(fence: Fence, executionId: string)
    | FinishReset(fence: Fence, executionId: string, destinationExists: bool)
    | Delete(fence: Fence, executionId: string)

  datatype Event = Event(op: Op, now: Time)

  /** How the database call of an activity ends: with its answer on record, with the answer
      lost and the activity to be repeated, or with an error. */
  datatype Call = Recorded | Lost | Errored(applied: bool)

  ghost function ApplyToRow(row: Row, op: Op, now: Time): Row {
    match op
    case BeginWrites(f) => BeginRemoteWrites(row, f, now).0
    case SettleWrites(f) => SettleRemoteWrites(row, f, now).0
    case AttachmentOutcome(f, rev, id, failed) => RecordAttachment(row, f, rev, id, failed, now).0
    case Rescan(input) => BeginRescan(row, input, now).0
    case Mutate(owner, rev, command) => OwnerMutation(row, owner, rev, command, now).0
    case AdvanceRow(f, patch) => Advance(row, f, patch, now).0
    case Fail(f, failure) => RecordFailure(row, f, failure, now).0
    case ScanFailure(f, key, failure) => RecordScanFailure(row, f, key, failure, now).0
    case ImportFailure(f, key, failure) => RecordImportFailure(row, f, key, failure, now).0
    case Resume(f, sequence) => ResumeScan(row, f, sequence, now).0
    case Progress(f, page, count) => RecordScanProgress(row, f, page, count, now).0
    case Scanned(f, m, t, reqs) => CompleteScan(row, f, m, t, reqs, now).0
    case HideProject(f, org, id, slug, indexed) => EnsureHidden(row, f, org, id, slug, indexed).0
    case Published(f, p, hidden, published) => Publish(row, f, p, hidden, published, now).0
    case Interrupted(f) => FinalizeInterrupted(row, f, now).0
    case Claim(f, rev, id, mode) => ClaimCleanup(row, f, rev, id, mode, now).0
    case Release(f, id, mode) => ReleaseCleanup(row, f, id, mode, now).0
    case FinishPostSuccess(f, id) => CompletePostSuccess(row, f, id, now).0
    case FinishReset(f, id, exists_) => CompleteReset(row, f, id, exists_, now).0
    case Delete(f, id) => row
  }

  /** One event. A deleted row stays deleted: the engine never repeats the start of an
      execution that has finished. */
  ghost function Apply(row: Option<Row>, e: Event): Option<Row> {
    if row.None? then None
    else if e.op.Delete? && DeletesAfterCleanup(row.value, e.op.fence, e.op.executionId) then None
    else Some(ApplyToRow(row.value, e.op, e.now))
  }

  ghost function After(row: Option<Row>, events: seq<Event>): Option<Row>
    decreases |events|
  {
    if events == [] then row else After(Apply(row, events[0]), events[1..])
  }

  /** Every event of the run is allowed in the state it finds. */
  ghost predicate Follows(row: Option<Row>, events: seq<Event>, allowed: (Option<Row>, Event) -> bool)
    decreases |events|
  {
    events == [] || (allowed(row, events[0]) && Follows(Apply(row, events[0]), events[1..], allowed))
  }

  ghost predicate Any(row: Option<Row>, e: Event) { true }

  /** Induction over runs: what every allowed event keeps holds at the end. */
  lemma {:induction false} KeptOverRuns(
      row: Option<Row>, events: seq<Event>, allowed: (Option<Row>, Event) -> bool, inv: Option<Row> -> bool)
    requires Follows(row, events, allowed)
    requires inv(row)
    requires forall r: Option<Row>, e: Event :: inv(r) && allowed(r, e) ==> inv(Apply(r, e))
    ensures inv(After(row, events))
    decreases |events|
  {
    if events != [] {
      KeptOverRuns(Apply(row, events[0]), events[1..], allowed, inv);
    }
  }

  lemma {:induction false} EveryRunFollows(row: Option<Row>, events: seq<Event>, allowed: (Option<Row>, Event) -> bool)
    requires forall r: Option<Row>, e: Event :: e in events ==> allowed(r, e)
    ensures Follows(row, events, allowed)
    decreases |events|
  {
    if events != [] {
      EveryRunFollows(Apply(row, events[0]), events[1..], allowed);
    }
  }

  /** Which operations write which column. */
  ghost predicate OnlyWrittenBy(op: Op, a: Row, b: Row) {
    && (op.Rescan? || (b.workflowAttempt == a.workflowAttempt && b.scanRevision == a.scanRevision
                       && b.workflowExecutionId == a.workflowExecutionId))
    && (op.BeginWrites? || op.SettleWrites? || op.Rescan? || b.checkpoint.remoteWrites == a.checkpoint.remoteWrites)
    && (op.Mutate? || op.Rescan?
        || (b.configuration == a.configuration && b.checkpoint.accepted == a.checkpoint.accepted))
    && (op.ScanFailure? || op.Rescan? || b.checkpoint.scanFailureReceipts == a.checkpoint.scanFailureReceipts)
    && (op.ImportFailure? || op.AdvanceRow? || op.Rescan?
        || b.checkpoint.importFailureReceipts == a.checkpoint.importFailureReceipts)
    && (op.Progress? || op.Rescan? || b.checkpoint.scanPages == a.checkpoint.scanPages)
    && (op.Progress? || op.AdvanceRow? || op.Rescan? || b.progressDone == a.progressDone)
    && (op.Fail? || op.ScanFailure? || op.ImportFailure? || b.failureSequence == a.failureSequence)
    && (op.Fail? || op.ScanFailure? || op.ImportFailure? || op.Scanned? || op.Rescan?
        || b.checkpoint.currentGate == a.checkpoint.currentGate)
    && (op.Scanned? || op.AdvanceRow? || op.Rescan?
        || (b.scanAt == a.scanAt && b.checkpoint.scan == a.checkpoint.scan))
    && (op.AdvanceRow? || op.HideProject? || op.Published? || op.FinishReset?
        || (b.destinationProjectId == a.destinationProjectId && b.destinationProjectSlug == a.destinationProjectSlug))
    && (op.Published? || op.Rescan? || b.checkpoint.publishedPlan == a.checkpoint.publishedPlan)
    && (b.revision > a.revision || op.BeginWrites? || op.SettleWrites? || op.HideProject? || b == a)
    && (op.AttachmentOutcome? || op.AdvanceRow? || op.Rescan?
        || b.checkpoint.failedAttachments == a.checkpoint.failedAttachments)
    && (op.Claim? || op.Release? || op.FinishPostSuccess? || op.FinishReset?
        || b.cleanupExecutionId == a.cleanupExecutionId)
    && b.failureSequence >= a.failureSequence
  }

  predicate IsFailure(op: Op) { op.Fail? || op.ScanFailure? || op.ImportFailure? }

  predicate IsCleanup(op: Op) {
    op.Claim? || op.Release? || op.FinishPostSuccess? || op.FinishReset? || op.Delete? || op.Interrupted?
  }

  lemma FailColumns(row: Row, e: Event)
    requires e.op.Fail?
    ensures OnlyWrittenBy(e.op, row, ApplyToRow(row, e.op, e.now))
  {
    hide RecordScanFailure, RecordImportFailure, ClaimCleanup, ReleaseCleanup, CompletePostSuccess, CompleteReset, FinalizeInterrupted, BeginRescan, ResumeScan, RecordScanProgress,
         CompleteScan, BeginRemoteWrites, SettleRemoteWrites, RecordAttachment, Advance, EnsureHidden, Publish, OwnerMutation;
  }

  lemma ScanFailureColumns(row: Row, e: Event)
    requires e.op.ScanFailure?
    ensures OnlyWrittenBy(e.op, row, ApplyToRow(row, e.op, e.now))
  {
    hide RecordFailure, RecordImportFailure, ClaimCleanup, ReleaseCleanup, CompletePostSuccess, CompleteReset, FinalizeInterrupted, BeginRescan, ResumeScan, RecordScanProgress,
         CompleteScan, BeginRemoteWrites, SettleRemoteWrites, RecordAttachment, Advance, EnsureHidden, Publish, OwnerMutation;
  }

  lemma ImportFailureColumns(row: Row, e: Event)
    requires e.op.ImportFailure?
    ensures OnlyWrittenBy(e.op, row, ApplyToRow(row, e.op, e.now))
  {
    hide RecordFailure, RecordScanFailure, ClaimCleanup, ReleaseCleanup, CompletePostSuccess, CompleteReset, FinalizeInterrupted, BeginRescan, ResumeScan, RecordScanProgress,
         CompleteScan, BeginRemoteWrites, SettleRemoteWrites, RecordAttachment, Advance, EnsureHidden, Publish, OwnerMutation;
  }

  lemma CleanupColumns(row: Row, e: Event)
    requires IsCleanup(e.op)
    ensures OnlyWrittenBy(e.op, row, ApplyToRow(row, e.op, e.now))
  {
    hide RecordFailure, RecordScanFailure, RecordImportFailure, BeginRescan, ResumeScan, RecordScanProgress, CompleteScan, BeginRemoteWrites, SettleRemoteWrites, RecordAttachment, Advance, EnsureHidden, Publish, OwnerMutation;
    match e.op
    case Interrupted(_) =>
    case Claim(_, _, _, _) =>
    case Release(_, _, _) =>
    case FinishPostSuccess(_, _) =>
    case FinishReset(_, _, _) =>
    case Delete(_, _) =>
  }

  predicate IsScanStep(op: Op) { op.Rescan? || op.Resume? || op.Progress? || op.Scanned? }

  lemma ScanColumns(row: Row, e: Event)
    requires IsScanStep(e.op)
    ensures OnlyWrittenBy(e.op, row, ApplyToRow(row, e.op, e.now))
  {
    hide RecordFailure, RecordScanFailure, RecordImportFailure, ClaimCleanup, ReleaseCleanup, CompletePostSuccess, CompleteReset, FinalizeInterrupted, BeginRemoteWrites, SettleRemoteWrites, RecordAttachment, Advance, EnsureHidden, Publish, OwnerMutation;
    hide PageTotal;
    match e.op
    case Rescan(_) =>
    case Resume(_, _) =>
    case Progress(_, _, _) =>
    case Scanned(_, _, _, _) =>
  }

  lemma MarkerColumns(row: Row, e: Event)
    requires e.op.BeginWrites? || e.op.SettleWrites?
    ensures OnlyWrittenBy(e.op, row, ApplyToRow(row, e.op, e.now))
  {
    hide RecordFailure, RecordScanFailure, RecordImportFailure, ClaimCleanup, ReleaseCleanup, CompletePostSuccess, CompleteReset, FinalizeInterrupted, BeginRescan, ResumeScan, RecordScanProgress, CompleteScan, RecordAttachment, Advance, EnsureHidden, Publish, OwnerMutation;
    match e.op
    case BeginWrites(_) =>
    case SettleWrites(_) =>
  }

  lemma ImportColumns(row: Row, e: Event)
    requires e.op.AttachmentOutcome? || e.op.AdvanceRow? || e.op.HideProject? || e.op.Published?
    ensures OnlyWrittenBy(e.op, row, ApplyToRow(row, e.op, e.now))
  {
    hide RecordFailure, RecordScanFailure, RecordImportFailure, ClaimCleanup, ReleaseCleanup, CompletePostSuccess, CompleteReset, FinalizeInterrupted, BeginRescan, ResumeScan, RecordScanProgress, CompleteScan, BeginRemoteWrites, SettleRemoteWrites, OwnerMutation;
    match e.op
    case AttachmentOutcome(_, _, _, _) =>
    case AdvanceRow(_, _) =>
    case HideProject(_, _, _, _, _) =>
    case Published(_, _, _, _) =>
  }

  lemma OwnerColumns(row: Row, e: Event)
    requires e.op.Mutate?
    ensures OnlyWrittenBy(e.op, row, ApplyToRow(row, e.op, e.now))
  {
    hide RecordFailure, RecordScanFailure, RecordImportFailure, ClaimCleanup, ReleaseCleanup, CompletePostSuccess, CompleteReset, FinalizeInterrupted, BeginRescan, ResumeScan, RecordScanProgress, CompleteScan, BeginRemoteWrites, SettleRemoteWrites, RecordAttachment, Advance, EnsureHidden, Publish;
    hide IsComplete, IsAllowedCorrection;
  }

  lemma ColumnWriters(row: Row, e: Event)
    ensures OnlyWrittenBy(e.op, row, ApplyToRow(row, e.op, e.now))
  {
    hide ApplyToRow, OnlyWrittenBy;
    if e.op.Fail? {
      FailColumns(row, e);
    } else if e.op.ScanFailure? {
      ScanFailureColumns(row, e);
    } else if e.op.ImportFailure? {
      ImportFailureColumns(row, e);
    } else if IsCleanup(e.op) {
      CleanupColumns(row, e);
    } else if IsScanStep(e.op) {
      ScanColumns(row, e);
    } else if e.op.BeginWrites? || e.op.SettleWrites? {
      MarkerColumns(row, e);
    } else if e.op.Mutate? {
      OwnerColumns(row, e);
    } else {
      ImportColumns(row, e);
    }
  }

  // ---------- the basic row invariant ----------

  ghost predicate RowInv(row: Row) {
    && row.workflowExecutionId.Some?
    && row.workflowAttempt == row.scanRevision
    && (row.checkpoint.remoteWrites.Some? ==>
          row.checkpoint.remoteWrites.value == WriteIntent(row.workflowExecutionId.value, row.workflowAttempt))
    && !(row.cleanupExecutionId.Some? && row.checkpoint.remoteWrites.Some?)
  }

  ghost predicate Inv(row: Option<Row>) { row.Some? ==> RowInv(row.value) }

  lemma {:induction false} InvHolds(input: CreateInput, created: Time, events: seq<Event>)
    ensures Inv(After(Some(CreatedRow(input, created)), events))
  {
    var row := Some(CreatedRow(input, created));
    EveryRunFollows(row, events, Any);
    forall r: Option<Row>, e: Event | Inv(r) ensures Inv(Apply(r, e)) {
      InvStep(r, e);
    }
    KeptOverRuns(row, events, Any, Inv);
  }

  lemma InvStep(r: Option<Row>, e: Event)
    requires Inv(r)
    ensures Inv(Apply(r, e))
  {
    hide IsComplete, IsAllowedCorrection;
    match e.op
    case BeginWrites(_) =>
    case SettleWrites(_) =>
    case AttachmentOutcome(_, _, _, _) =>
    case Rescan(_) =>
    case Mutate(_, _, command) =>
    case AdvanceRow(_, _) =>
    case Fail(_, _) =>
    case ScanFailure(_, _, _) =>
    case ImportFailure(_, _, _) =>
    case Resume(_, _) =>
    case Progress(_, _, _) =>
    case Scanned(_, _, _, _) =>
    case HideProject(_, _, _, _, _) =>
    case Published(_, _, _, _) =>
    case Interrupted(_) =>
    case Claim(_, _, _, _) =>
    case Release(_, _, _) =>
    case FinishPostSuccess(_, _) =>
    case FinishReset(_, _, _) =>
    case Delete(_, _) =>
  }

  // ---------- revisions ----------

  /** Equal in every column that is versioned. Three are not: the write marker, the time of the
      last update and, while the row migrates, a destination that is set for the first time. */
  ghost predicate SameVersion(a: Row, b: Row) {
    && b == a.(updatedAt := b.updatedAt, checkpoint := a.checkpoint.(remoteWrites := b.checkpoint.remoteWrites),
               destinationProjectId := b.destinationProjectId, destinationProjectSlug := b.destinationProjectSlug)
    && (b.destinationProjectId == a.destinationProjectId || (a.status == Migrating && a.destinationProjectId.None?))
    && (b.destinationProjectSlug == a.destinationProjectSlug || (a.status == Migrating && a.destinationProjectSlug.None?))
  }

  ghost predicate NoEarlier(a: Row, r: Option<Row>) {
    r.Some? ==> r.value.revision > a.revision || SameVersion(a, r.value)
  }

  /** Two states of a run with the same revision are the same row, up to the marker and, while
      it migrates, the destination: every other change moves the revision forward. */
  lemma {:induction false} SameRevisionSameRow(row: Row, events: seq<Event>)
    requires RowInv(row)
    ensures NoEarlier(row, After(Some(row), events))
  {
    var inv := (r: Option<Row>) => Inv(r) && NoEarlier(row, r);
    EveryRunFollows(Some(row), events, Any);
    forall r: Option<Row>, e: Event | inv(r) ensures inv(Apply(r, e)) {
      InvStep(r, e);
      RevisionStep(row, r, e);
    }
    KeptOverRuns(Some(row), events, Any, inv);
  }

  lemma HiddenProjectVersion(row: Row, e: Event)
    requires e.op.HideProject? || e.op.BeginWrites? || e.op.SettleWrites?
    ensures SameVersion(row, ApplyToRow(row, e.op, e.now))
  {
    hide RecordFailure, RecordScanFailure, RecordImportFailure, ClaimCleanup, ReleaseCleanup, CompletePostSuccess, CompleteReset, FinalizeInterrupted, BeginRescan, ResumeScan, RecordScanProgress, CompleteScan, RecordAttachment, Advance, Publish, OwnerMutation;
    match e.op
    case HideProject(_, _, _, _, _) =>
    case BeginWrites(_) =>
    case SettleWrites(_) =>
  }

  lemma RevisionMoves(row: Row, e: Event)
    ensures Apply(Some(row), e).Some? ==>
              Apply(Some(row), e).value.revision > row.revision || SameVersion(row, Apply(Some(row), e).value)
  {
    ColumnWriters(row, e);
    hide ApplyToRow;
    if e.op.HideProject? || e.op.BeginWrites? || e.op.SettleWrites? {
      HiddenProjectVersion(row, e);
    }
  }

  lemma RevisionStep(row: Row, r: Option<Row>, e: Event)
    requires Inv(r) && NoEarlier(row, r)
    ensures NoEarlier(row, Apply(r, e))
  {
    if r.Some? {
      RevisionMoves(r.value, e);
      hide *;
    }
  }

  function ExpectedRevision(op: Op): Option<int> {
    match op
    case Rescan(input) => Some(input.expectedRevision)
    case Mutate(_, rev, _) => Some(rev)
    case Claim(_, rev, _, _) => Some(rev)
    case _ => None
  }

  /** A revision is spent by the first mutation that names it and changes the row: whatever
      happens next, no other mutation naming it changes anything. */
  lemma {:induction false} OneMutationPerRevision(row: Row, first: Event, events: seq<Event>, second: Event)
    requires RowInv(row)
    requires ExpectedRevision(first.op).Some? && ExpectedRevision(second.op) == ExpectedRevision(first.op)
    requires Apply(Some(row), first) != Some(row)
    ensures var later := After(Apply(Some(row), first), events); Apply(later, second) == later
  {
    hide IsComplete, IsAllowedCorrection;
    InvStep(Some(row), first);
    var next := Apply(Some(row), first).value;
    assert next.revision == ExpectedRevision(first.op).value + 1;
    SameRevisionSameRow(next, events);
  }

  // ---------- fencing ----------

  function FenceOf(op: Op): Option<Fence> {
    match op
    case Rescan(_) => None
    case Mutate(_, _, _) => None
    case _ => Some(op.fence)
  }

  /** The attempt never goes back, and one attempt belongs to one execution. */
  ghost predicate LaterAttempt(a: Row, r: Option<Row>) {
    r.Some? ==>
      && r.value.id == a.id && r.value.owner == a.owner
      && r.value.workflowAttempt >= a.workflowAttempt
      && (r.value.workflowAttempt == a.workflowAttempt ==> r.value.workflowExecutionId == a.workflowExecutionId)
  }

  lemma {:induction false} AttemptsNeverDecrease(row: Row, events: seq<Event>)
    ensures LaterAttempt(row, After(Some(row), events))
  {
    var inv := (r: Option<Row>) => LaterAttempt(row, r);
    EveryRunFollows(Some(row), events, Any);
    forall r: Option<Row>, e: Event | inv(r) ensures inv(Apply(r, e)) {
      AttemptStep(row, r, e);
    }
    KeptOverRuns(Some(row), events, Any, inv);
  }

  lemma AttemptStep(row: Row, r: Option<Row>, e: Event)
    requires LaterAttempt(row, r)
    ensures LaterAttempt(row, Apply(r, e))
  {
    hide IsComplete, IsAllowedCorrection;
  }

  lemma WrongFenceChangesNothing(r: Option<Row>, e: Event)
    requires r.Some? && FenceOf(e.op).Some? && !FenceHolds(r.value, FenceOf(e.op).value)
    ensures Apply(r, e) == r
  {
    hide IsComplete, IsAllowedCorrection;
  }

  /** Once the row has moved past an attempt, whatever still arrives under a fence of that
      attempt or an earlier one leaves the row alone, for the rest of every run. */
  lemma {:induction false} EarlierFencesAreDead(row: Row, events: seq<Event>, stale: Event)
    requires FenceOf(stale.op).Some? && FenceOf(stale.op).value.attempt < row.workflowAttempt
    ensures var later := After(Some(row), events); Apply(later, stale) == later
  {
    AttemptsNeverDecrease(row, events);
    var later := After(Some(row), events);
    if later.Some? {
      WrongFenceChangesNothing(later, stale);
    }
  }

  /** Every attempt is a scan: attempt and scan revision stay equal from creation on. */
  lemma {:induction false} AttemptIsScanRevision(input: CreateInput, created: Time, events: seq<Event>)
    ensures var r := After(Some(CreatedRow(input, created)), events);
            r.Some? ==> r.value.workflowAttempt == r.value.scanRevision >= 1
  {
    InvHolds(input, created, events);
    AttemptsNeverDecrease(CreatedRow(input, created), events);
  }

  /** The service and the start of the new execution issue the same rescan. Whichever comes
      first advances the row; the other one, whatever happened in between, changes nothing,
      and right away it still succeeds. */
  lemma {:induction false} RescanAdvancesOnce(row: Row, input: RescanInput, t: Time, events: seq<Event>, again: Time)
    requires RowInv(row)
    requires Apply(Some(row), Event(Rescan(input), t)) != Some(row)
    ensures var next := Apply(Some(row), Event(Rescan(input), t));
            && next.Some? && next.value.workflowAttempt == row.workflowAttempt + 1
            && BeginRescan(next.value, input, again) == (next.value, Ok(next.value))
    ensures var later := After(Apply(Some(row), Event(Rescan(input), t)), events);
            Apply(later, Event(Rescan(input), again)) == later
  {
    hide IsComplete, IsAllowedCorrection;
    var next := Apply(Some(row), Event(Rescan(input), t)).value;
    AttemptsNeverDecrease(next, events);
  }

  // ---------- the cleanup lock ----------

  ghost predicate LocksOut(op: Op, executionId: string) {
    !((op.Release? || op.FinishPostSuccess? || op.FinishReset? || op.Delete?) && op.executionId == executionId)
  }

  /** While a cleanup execution holds the lock, only that execution changes the row. */
  lemma {:induction false} LockFreezesRow(row: Row, executionId: string, events: seq<Event>)
    requires RowInv(row) && row.cleanupExecutionId == Some(executionId)
    requires forall e :: e in events ==> LocksOut(e.op, executionId)
    ensures After(Some(row), events) == Some(row)
  {
    var others := (r: Option<Row>, e: Event) => LocksOut(e.op, executionId);
    var inv := (r: Option<Row>) => r == Some(row);
    EveryRunFollows(Some(row), events, others);
    forall r: Option<Row>, e: Event | inv(r) && others(r, e) ensures inv(Apply(r, e)) {
      LockStep(row, executionId, e);
    }
    KeptOverRuns(Some(row), events, others, inv);
  }

  lemma LockStep(row: Row, executionId: string, e: Event)
    requires RowInv(row) && row.cleanupExecutionId == Some(executionId) && LocksOut(e.op, executionId)
    ensures Apply(Some(row), e) == Some(row)
  {
    hide IsComplete, IsAllowedCorrection;
  }

  /** A claim that was granted can always be given back by its holder, in the mode it was
      claimed in, and gives back the row as it was before the claim. */
  lemma {:induction false} ClaimThenRelease(row: Row, f: Fence, revision: int, executionId: string, mode: CleanupMode, t: Time,
                         events: seq<Event>, u: Time)
    requires RowInv(row)
    requires ClaimCleanup(row, f, revision, executionId, mode, t).0 != row
    requires forall e :: e in events ==> LocksOut(e.op, executionId)
    ensures var locked := After(Some(ClaimCleanup(row, f, revision, executionId, mode, t).0), events);
            && locked.Some?
            && ReleaseCleanup(locked.value, f, executionId, mode, u)
               == (row.(revision := row.revision + 2, updatedAt := u), true)
  {
    var claimed := ClaimCleanup(row, f, revision, executionId, mode, t).0;
    InvStep(Some(row), Event(Claim(f, revision, executionId, mode), t));
    LockFreezesRow(claimed, executionId, events);
  }

  // ---------- cancelling and succeeding ----------

  ghost predicate CancelledSince(a: Row, r: Option<Row>) {
    r.Some? ==> r.value.workflowAttempt > a.workflowAttempt || r.value.status in {Cancelling, Cancelled}
  }

  /** After an accepted cancel the row stays cancelling or cancelled, until a rescan with a
      larger attempt, or until cleanup deletes it. */
  lemma {:induction false} CancelSticks(row: Row, owner: Owner, revision: int, t: Time, events: seq<Event>)
    requires OwnerMutation(row, owner, revision, Cancel, t).1.Ok?
    ensures CancelledSince(row, After(Some(OwnerMutation(row, owner, revision, Cancel, t).0), events))
  {
    var cancelled := OwnerMutation(row, owner, revision, Cancel, t).0;
    assert cancelled.status in {Cancelling, Cancelled};
    var inv := (r: Option<Row>) => LaterAttempt(row, r) && CancelledSince(row, r);
    EveryRunFollows(Some(cancelled), events, Any);
    forall r: Option<Row>, e: Event | inv(r) ensures inv(Apply(r, e)) {
      AttemptStep(row, r, e);
      CancelStep(row, r, e);
    }
    KeptOverRuns(Some(cancelled), events, Any, inv);
  }

  lemma CancelStep(row: Row, r: Option<Row>, e: Event)
    requires LaterAttempt(row, r) && CancelledSince(row, r)
    ensures CancelledSince(row, Apply(r, e))
  {
    hide IsComplete, IsAllowedCorrection;
  }

  /** What may still change on a succeeded row: the cleanup lock and its outcome, the removal
      of the marker, and the bookkeeping columns. */
  ghost predicate SucceededLike(a: Row, r: Option<Row>) {
    && r.Some? && a.status == Succeeded
    && r.value == a.(cleanupExecutionId := r.value.cleanupExecutionId, revision := r.value.revision,
                     updatedAt := r.value.updatedAt,
                     checkpoint := a.checkpoint.(
                       remoteWrites := r.value.checkpoint.remoteWrites,
                       postSuccessCleanupCompleted := r.value.checkpoint.postSuccessCleanupCompleted))
    && (r.value.checkpoint.remoteWrites.Some? ==> r.value.checkpoint.remoteWrites == a.checkpoint.remoteWrites)
    && (a.checkpoint.postSuccessCleanupCompleted ==> r.value.checkpoint.postSuccessCleanupCompleted)
  }

  lemma {:induction false} SuccessIsFinal(row: Row, events: seq<Event>)
    requires row.status == Succeeded
    ensures SucceededLike(row, After(Some(row), events))
  {
    var inv := (r: Option<Row>) => SucceededLike(row, r);
    EveryRunFollows(Some(row), events, Any);
    forall r: Option<Row>, e: Event | inv(r) ensures inv(Apply(r, e)) {
      SuccessStep(r.value, e);
    }
    KeptOverRuns(Some(row), events, Any, inv);
  }

  /** On a succeeded row only the cleanup operations and the settling of a write do anything. */
  lemma SucceededRowIgnores(row: Row, e: Event)
    requires row.status == Succeeded
    requires !e.op.SettleWrites? && !e.op.Claim? && !e.op.Release? && !e.op.FinishPostSuccess?
    ensures Apply(Some(row), e) == Some(row)
  {
    hide IsComplete, IsAllowedCorrection;
  }

  lemma SuccessStep(row: Row, e: Event)
    requires row.status == Succeeded
    ensures SucceededLike(row, Apply(Some(row), e))
  {
    if !e.op.SettleWrites? && !e.op.Claim? && !e.op.Release? && !e.op.FinishPostSuccess? {
      SucceededRowIgnores(row, e);
    }
  }

  // ---------- the write marker ----------

  ghost predicate Unsettled(a: Row, r: Option<Row>) {
    && r.Some? && RowInv(r.value)
    && r.value.checkpoint.remoteWrites == a.checkpoint.remoteWrites
    && r.value.workflowAttempt == a.workflowAttempt && r.value.workflowExecutionId == a.workflowExecutionId
    && r.value.id == a.id
  }

  /** A marker names the row's own attempt. Until that attempt settles it, no event removes
      it, and rescan, discard and every cleanup claim stay refused. */
  lemma {:induction false} MarkerHoldsUntilSettled(row: Row, events: seq<Event>)
    requires RowInv(row) && row.checkpoint.remoteWrites.Some?
    requires forall e :: e in events ==> e.op != SettleWrites(FenceFor(row).value)
    ensures Unsettled(row, After(Some(row), events))
    ensures var later := After(Some(row), events).value;
            && !CanRescan(later) && !CanDiscard(later) && later.cleanupExecutionId.None?
            && (forall input, t :: BeginRescan(later, input, t).0 == later)
            && (forall f, rev, id, mode, t :: ClaimCleanup(later, f, rev, id, mode, t) == (later, false))
  {
    var unsettling := (r: Option<Row>, e: Event) => e.op != SettleWrites(FenceFor(row).value);
    var inv := (r: Option<Row>) => Unsettled(row, r);
    EveryRunFollows(Some(row), events, unsettling);
    forall r: Option<Row>, e: Event | inv(r) && unsettling(r, e) ensures inv(Apply(r, e)) {
      InvStep(r, e);
      MarkerStep(row, r, e);
    }
    KeptOverRuns(Some(row), events, unsettling, inv);
  }

  lemma MarkerStep(row: Row, r: Option<Row>, e: Event)
    requires row.checkpoint.remoteWrites.Some? && RowInv(row) && Unsettled(row, r)
    requires e.op != SettleWrites(FenceFor(row).value)
    requires Inv(Apply(r, e))
    ensures Unsettled(row, Apply(r, e))
  {
    hide IsComplete, IsAllowedCorrection;
  }
}
