/** The row operations as the service runs them: select the row, test it, update its columns.
    Every method takes one event of MigrationRuns on the row it addresses, keeps the table sound,
    and its other clauses say what the answer tells the caller. */
module MigrationProjection {
  import opened Wrappers
  import opened JiraConfiguration
  import opened MigrationRow
  import opened MigrationSpec
  import opened MigrationTable
  import opened RetryRuns
  import MigrationRuns
  import Sorting

  ghost predicate Marked(row: Row, fence: Fence) {
    row.checkpoint.remoteWrites == Some(WriteIntent(fence.executionId, fence.attempt))
  }

  /** Rows on which a write is allowed without a marker: a finished scan whose answers are
      being given, and a published import. */
  predicate NeedsNoMarker(row: Row) {
    || (row.status in {NeedsConfiguration, Ready} && row.scanAt.Some?
        && row.checkpoint.scan.Some? && row.checkpoint.scan.value.manifest.Some?)
    || (row.status == Succeeded && row.checkpoint.publishedPlan.Some?)
  }

  /** The six keys of the checkpoint that only their own operations write. */
  ghost predicate SameProtocolKeys(a: Checkpoint, b: Checkpoint) {
    && b.publishedPlan == a.publishedPlan && b.remoteWrites == a.remoteWrites && b.currentGate == a.currentGate
    && b.accepted == a.accepted && b.scanFailureReceipts == a.scanFailureReceipts && b.scanPages == a.scanPages
  }

  predicate RecordsFailures(row: Row) {
    row.cleanupExecutionId.None? && row.status !in {Succeeded, Cancelled, Cancelling}
  }

  /** The failure is the row's: its kind decides the status, and the sequence moved on by one. */
  ghost predicate FailedBy(a: Row, b: Row, failure: Failure, now: Time) {
    && b.status == (if failure.reconnect then ReconnectRequired else Failed)
    && b.failureReason == Some(failure.reason) && b.failureRetryable == Some(failure.retryable)
    && b.failureSequence == a.failureSequence + 1 && b.revision == a.revision + 1
    && b.finishedAt == Some(now) && b.retainedUntil == Some(now + 30 * 24 * 3_600_000)
  }

  predicate ResumesScan(row: Row) {
    && row.cleanupExecutionId.None?
    && (row.status == Scanning
        || (row.scanAt.Some? && row.status in {NeedsConfiguration, Ready, Migrating})
        || (row.scanAt.None? && row.failureRetryable == Some(true) && row.status in {Failed, ReconnectRequired}))
  }

  predicate ResumesImport(row: Row) {
    row.cleanupExecutionId.None? && row.scanAt.Some? && row.status in {Failed, Migrating, ReconnectRequired}
  }

  predicate ScannedWith(row: Row, manifest: ArtifactRef) {
    && row.cleanupExecutionId.None? && row.scanAt.Some? && row.status in {NeedsConfiguration, Ready, Migrating}
    && row.checkpoint.scan.Some? && row.checkpoint.scan.value.manifest == Some(manifest)
  }

  /** The execution holds the lock, in a status that its cleanup is for. */
  predicate Holds(row: Row, executionId: string, mode: CleanupMode) {
    && row.cleanupExecutionId == Some(executionId)
    && match mode
       case ResetImport => row.status in {NeedsConfiguration, Ready, Failed, ReconnectRequired, Cancelled}
       case PostSuccess => row.status == Succeeded
       case _ => row.status == Failed || row.status == Cancelled
  }

  /** The rescan continues this row and nothing else has moved it. */
  predicate Supersedes(row: Row, input: RescanInput) {
    && row.workflowExecutionId == Some(input.supersededExecutionId) && row.revision == input.expectedRevision
    && input.workflowAttempt == row.workflowAttempt + 1 && input.scanRevision == row.scanRevision + 1
    && row.checkpoint.remoteWrites.None?
  }

  /** The row has a saved configuration, and it answers everything its scan asked. */
  ghost predicate Answered(row: Row) {
    row.configuration.Some? && row.checkpoint.scan.Some?
    && AnswersAll(row.configuration.value, row.checkpoint.scan.value.requirements)
  }

  /** The row's latest failure was one of the scan. */
  predicate StoppedInScan(row: Row) {
    match row.checkpoint.currentGate
    case Some(Retry(_, phase)) => phase.ScanPhase?
    case _ => row.scanAt.None?
  }

  /** Answers can be given from the end of the scan until the import, and again after it failed. */
  predicate TakesAnswers(row: Row) {
    row.cleanupExecutionId.None?
    && (row.status in {NeedsConfiguration, Ready} || (row.status == Failed && row.scanAt.Some?))
  }

  ghost predicate Allows(row: Row, command: OwnerCommand) {
    match command
    case SaveConfiguration(configuration, unresolved) =>
      && TakesAnswers(row) && row.checkpoint.scan.Some?
      && (row.destinationProjectId.Some? ==>
            row.checkpoint.accepted.Some? && OnlySkips(row.checkpoint.accepted.value.configuration, configuration, unresolved))
    case Run =>
      && row.cleanupExecutionId.None?
      && (row.status in {Ready, ReconnectRequired} || (row.status == Failed && row.failureRetryable == Some(true)))
      && (StoppedInScan(row) || Answered(row))
    case Cancel => row.cleanupExecutionId.None? && row.status !in {Cancelled, Succeeded}
  }

  function Refusal(row: Row, command: OwnerCommand): Error {
    match command
    case SaveConfiguration(_, _) =>
      if TakesAnswers(row) && row.checkpoint.scan.None? then ScanIncomplete else NotConfigurable
    case Run => RunNotAllowed
    case Cancel => CancelNotAllowed
  }

  /** The mutation as a whole, planned and committed on one row, answers by the same rule. */
  lemma MutationAnswers(row: Row, owner: Owner, expectedRevision: int, command: OwnerCommand, now: Time)
    requires FenceFor(row).Some? && row.owner == owner && row.revision == expectedRevision
    ensures var (next, outcome) := OwnerMutation(row, owner, expectedRevision, command, now);
            outcome == if Allows(row, command) then Ok(next) else Err(Refusal(row, command))
  {
    hide IsComplete, IsAllowedCorrection, AnswersAll, OnlySkips;
    AnsweredIff(row);
    if command.SaveConfiguration? && row.checkpoint.accepted.Some? {
      CorrectionIff(row.checkpoint.accepted.value.configuration, command.configuration, command.unresolved);
    }
  }

  lemma AnsweredIff(row: Row)
    ensures Answered(row) <==> row.configuration.Some? && row.checkpoint.scan.Some?
                               && IsComplete(row.configuration.value, row.checkpoint.scan.value.requirements)
  {
    if row.configuration.Some? && row.checkpoint.scan.Some? {
      CompleteIff(row.configuration.value, row.checkpoint.scan.value.requirements);
    }
    hide IsComplete, AnswersAll;
  }

  /** Where an accepted command leaves the row. Saving and running forget the last failure. */
  ghost predicate Obeys(a: Row, b: Row, command: OwnerCommand, now: Time) {
    && (!command.Cancel? ==>
          b.failureReason.None? && b.failureRetryable.None? && b.finishedAt.None? && b.retainedUntil.None?)
    && match command
       case SaveConfiguration(configuration, _) =>
         && b.configuration == Some(configuration) && b.checkpoint == a.checkpoint
         && b.status == (if Answered(b) then Ready else NeedsConfiguration)
       case Run =>
         && b.configuration == a.configuration
         && (if StoppedInScan(a) then b.status == Scanning && b.checkpoint == a.checkpoint
             else && b.status == Migrating && Answered(b)
                  && b.checkpoint == a.checkpoint.(accepted := b.checkpoint.accepted)
                  && b.checkpoint.accepted.Some? && Some(b.checkpoint.accepted.value.configuration) == b.configuration
                  && (b.checkpoint.accepted == a.checkpoint.accepted
                      || b.checkpoint.accepted.value.configurationRevision == b.revision)
                  && (a.checkpoint.accepted.Some? && Some(a.checkpoint.accepted.value.configuration) == a.configuration ==>
                        b.checkpoint.accepted == a.checkpoint.accepted))
       case Cancel =>
         && b.configuration == a.configuration && b.checkpoint == a.checkpoint
         && (if a.status in {Scanning, Migrating, Cancelling}
             then b.status == Cancelling && b.finishedAt.None? && b.retainedUntil.None?
             else b.status == Cancelled && b.finishedAt == Some(now) && b.retainedUntil == Some(now + 30 * 24 * 3_600_000))
  }

  /** The command is obeyed, and nothing else moves that its caller could rely on. */
  ghost predicate ObeyedBy(row: Row, owner: Owner, expectedRevision: int, command: OwnerCommand, now: Time) {
    var next := OwnerMutation(row, owner, expectedRevision, command, now).0;
    && Obeys(row, next, command, now) && next.revision == expectedRevision + 1
    && next.cleanupExecutionId.None? && FenceFor(next) == FenceFor(row)
    && next.failureSequence == row.failureSequence
  }

  lemma SaveObeys(row: Row, owner: Owner, expectedRevision: int, command: OwnerCommand, now: Time)
    requires FenceFor(row).Some? && row.owner == owner && row.revision == expectedRevision && Allows(row, command)
    requires command.SaveConfiguration?
    ensures ObeyedBy(row, owner, expectedRevision, command, now)
  {
    hide IsComplete, IsAllowedCorrection, AnswersAll, OnlySkips, PlanRun, PlanCancel, Answered;
    MutationAnswers(row, owner, expectedRevision, command, now);
    AnsweredIff(row);
    AnsweredIff(OwnerMutation(row, owner, expectedRevision, command, now).0);
    hide Allows;
  }

  lemma RunObeys(row: Row, owner: Owner, expectedRevision: int, command: OwnerCommand, now: Time)
    requires FenceFor(row).Some? && row.owner == owner && row.revision == expectedRevision && Allows(row, command)
    requires command.Run?
    ensures ObeyedBy(row, owner, expectedRevision, command, now)
  {
    hide IsComplete, IsAllowedCorrection, AnswersAll, OnlySkips, PlanSave, PlanCancel, Answered;
    MutationAnswers(row, owner, expectedRevision, command, now);
    AnsweredIff(row);
    AnsweredIff(OwnerMutation(row, owner, expectedRevision, command, now).0);
    hide Allows;
  }

  lemma CancelObeys(row: Row, owner: Owner, expectedRevision: int, command: OwnerCommand, now: Time)
    requires FenceFor(row).Some? && row.owner == owner && row.revision == expectedRevision && Allows(row, command)
    requires command.Cancel?
    ensures ObeyedBy(row, owner, expectedRevision, command, now)
  {
    hide IsComplete, IsAllowedCorrection, AnswersAll, OnlySkips, PlanSave, PlanRun, Answered;
    MutationAnswers(row, owner, expectedRevision, command, now);
    AnsweredIff(row);
    AnsweredIff(OwnerMutation(row, owner, expectedRevision, command, now).0);
    hide Allows;
  }

  lemma MutationObeys(row: Row, owner: Owner, expectedRevision: int, command: OwnerCommand, now: Time)
    requires FenceFor(row).Some? && row.owner == owner && row.revision == expectedRevision && Allows(row, command)
    ensures ObeyedBy(row, owner, expectedRevision, command, now)
  {
    hide *;
    match command
    case SaveConfiguration(_, _) => SaveObeys(row, owner, expectedRevision, command, now);
    case Run => RunObeys(row, owner, expectedRevision, command, now);
    case Cancel => CancelObeys(row, owner, expectedRevision, command, now);
  }

  predicate RecordsAttachments(row: Row, configurationRevision: int) {
    && row.status == Migrating && row.cleanupExecutionId.None? && row.destinationProjectId.Some?
    && row.checkpoint.accepted.Some? && row.checkpoint.accepted.value.configurationRevision == configurationRevision
  }

  lemma {:induction false} DistinctAlready(xs: seq<string>)
    requires Distinct(xs)
    ensures FirstOccurrences(xs) == xs
  {
    if xs != [] {
      DistinctAlready(xs[..|xs| - 1]);
      assert xs == xs[..|xs| - 1] + [xs[|xs| - 1]];
    }
  }

  lemma {:induction false} WithoutElements(xs: seq<string>, id: string)
    requires Distinct(xs)
    ensures Distinct(Without(xs, id)) && forall x :: x in Without(xs, id) <==> x in xs && x != id
    ensures |Without(xs, id)| <= |xs| && (|Without(xs, id)| == |xs| <==> id !in xs)
  {
    if xs != [] {
      WithoutElements(xs[1..], id);
      assert xs == [xs[0]] + xs[1..];
      assert xs[0] !in xs[1..];
      assert xs[0] !in Without(xs[1..], id);
    }
  }

  lemma {:induction false} DistinctCountsOnce(xs: seq<string>)
    ensures Distinct(xs) <==> forall x :: multiset(xs)[x] <= 1
  {
    if xs != [] {
      DistinctCountsOnce(xs[1..]);
      assert xs == [xs[0]] + xs[1..];
      if Distinct(xs) {
        assert xs[0] !in xs[1..];
        assert forall x :: multiset(xs[1..])[x] <= 1;
      } else if Distinct(xs[1..]) {
        assert xs[0] in xs[1..];
        assert multiset(xs)[xs[0]] == 1 + multiset(xs[1..])[xs[0]];
      } else {
        var x :| multiset(xs[1..])[x] > 1;
        assert multiset(xs)[x] > 1;
      }
    }
  }

  /** The ids after one outcome: the ids before it with the new one, or without it, each once. */
  ghost predicate Tells(ids: seq<string>, previous: seq<string>, id: string, failed: bool) {
    Distinct(ids) && forall x :: x in ids <==> if x == id then failed else x in previous
  }

  /** The list as it is computed tells the outcome, and one of unchanged length told it already. */
  lemma OutcomeElements(previous: seq<string>, id: string, failed: bool)
    requires Distinct(previous)
    ensures var ids := if failed then Sorting.SortBy(FirstOccurrences(previous + [id]), Sorting.Utf16)
                       else Without(previous, id);
            && Tells(ids, previous, id, failed)
            && (|ids| == |previous| ==> Tells(previous, previous, id, failed))
  {
    if failed {
      var once := FirstOccurrences(previous + [id]);
      var ids := Sorting.SortBy(once, Sorting.Utf16);
      Sorting.SortByIsStableSort(once, Sorting.Utf16);
      DistinctCountsOnce(once);
      DistinctCountsOnce(ids);
      assert forall x :: x in ids <==> x in multiset(ids);
      assert forall x :: x in once <==> x in multiset(once);
      DistinctAlready(previous);
      assert (previous + [id])[..|previous|] == previous;
      assert |multiset(ids)| == |ids| && |multiset(once)| == |once|;
    } else {
      WithoutElements(previous, id);
    }
  }

  function Given<T>(patch: Option<T>, old_: T): T {
    if patch.Some? then patch.value else old_
  }

  /** The sum that `reduce` computes over the recorded pages, in whatever order. */
  method SumPages(pages: map<string, int>) returns (sum: int)
    ensures sum == PageTotal(pages)
  {
    sum := 0;
    var rest := pages;
    while rest != map[]
      invariant sum + PageTotal(rest) == PageTotal(pages)
      decreases |rest|
    {
      var k :| k in rest;
      PageTotalRemove(rest, k);
      Smaller(rest, k);
      sum := sum + rest[k];
      rest := rest - {k};
    }
  }

  /** A column after a patch that may set it. */
  ghost predicate Sets<T>(was: T, now: T, patch: Option<T>) { now == if patch == None then was else patch.value }

  /** The same for a column that a patch may also clear. */
  ghost predicate SetsOrClears<T>(was: Option<T>, now: Option<T>, patch: Nullable<T>) {
    match patch
    case Keep => now == was
    case Set(value) => now == value
  }

  /** A patch applied, column by column. */
  ghost predicate Applies(was: Row, row: Row, patch: ProjectionPatch, now: Time) {
    && Sets(was.status, row.status, patch.status) && Sets(was.phase, row.phase, patch.phase)
    && Sets(was.progressDone, row.progressDone, patch.progressDone)
    && SetsOrClears(was.progressTotal, row.progressTotal, patch.progressTotal)
    && SetsOrClears(was.scanAt, row.scanAt, patch.scanAt)
    && Sets(was.manifestVersion, row.manifestVersion, patch.manifestVersion)
    && SetsOrClears(was.destinationProjectId, row.destinationProjectId, patch.destinationProjectId)
    && SetsOrClears(was.destinationProjectSlug, row.destinationProjectSlug, patch.destinationProjectSlug)
    && SetsOrClears(was.reportPath, row.reportPath, patch.reportPath)
    && SetsOrClears(was.finishedAt, row.finishedAt, patch.finishedAt)
    && row.revision == was.revision + 1 && row.updatedAt == now
    && if patch.checkpoint == None then row.checkpoint == was.checkpoint
       else
         var (c, d, p) := (was.checkpoint, row.checkpoint, patch.checkpoint.value);
         && Sets(c.importFailureReceipts, d.importFailureReceipts, p.importFailureReceipts)
         && d.failedAttachments == (if p.failedAttachments == None then c.failedAttachments else p.failedAttachments)
         && d.scan == (if p.scan == None then c.scan else p.scan)
         && (d.postSuccessCleanupCompleted <==> c.postSuccessCleanupCompleted || p.postSuccessCleanupCompleted)
  }

  class JiraMigrationProjection {
    var table: Table

    constructor ()
      ensures table == map[] && Valid()
    {
      table := map[];
    }

    ghost predicate Valid()
      reads this
    {
      Sound(table)
    }

    function Select(fence: Fence): Option<Row>
      reads this
    {
      if fence.migrationId in table && FenceHolds(table[fence.migrationId], fence)
      then Some(table[fence.migrationId]) else None
    }

    method BeginWrites(fence: Fence, now: Time) returns (accepted: bool)
      requires Valid()
      modifies this
      ensures Valid()
      ensures Takes(old(table), table, fence.migrationId, MigrationRuns.BeginWrites(fence), now)
      ensures accepted <==> Select(fence).Some? && Select(fence).value.cleanupExecutionId.None?
                            && Select(fence).value.status !in {Cancelling, Cancelled}
                            && (Marked(Select(fence).value, fence) || NeedsNoMarker(Select(fence).value))
      ensures !accepted ==> table == old(table)
    {
      hide Sound, ValidTable;
      TakingKeepsSound(table, fence.migrationId, MigrationRuns.BeginWrites(fence), now);
      SoundRow(table, fence.migrationId);
      var selected := Select(fence);
      if selected.None? || selected.value.cleanupExecutionId.Some? || selected.value.status in {Cancelling, Cancelled} {
        return false;
      }
      var row := selected.value;
      var checkpoint := row.checkpoint;
      if checkpoint.remoteWrites.Some? {
        return checkpoint.remoteWrites.value.executionId == fence.executionId
               && checkpoint.remoteWrites.value.attempt == fence.attempt;
      }
      var scanned := row.status in {NeedsConfiguration, Ready} && row.scanAt.Some?
                     && checkpoint.scan.Some? && checkpoint.scan.value.manifest.Some?;
      if scanned || (row.status == Succeeded && checkpoint.publishedPlan.Some?) {
        return true;
      }
      if row.status !in {Scanning, Migrating} && !(row.scanAt.None? && row.status in {Failed, ReconnectRequired}) {
        return false;
      }
      checkpoint := checkpoint.(remoteWrites := Some(WriteIntent(fence.executionId, fence.attempt)));
      table := table[row.id := row.(checkpoint := checkpoint, updatedAt := now)];
      return true;
    }

    method SettleWrites(fence: Fence, now: Time) returns (settled: bool)
      requires Valid()
      modifies this
      ensures Valid()
      ensures Takes(old(table), table, fence.migrationId, MigrationRuns.SettleWrites(fence), now)
      ensures settled <==> Select(fence).Some?
      ensures settled ==> Select(fence).value.checkpoint.remoteWrites.None?
      ensures !settled ==> table == old(table)
    {
      hide Sound, ValidTable;
      TakingKeepsSound(table, fence.migrationId, MigrationRuns.SettleWrites(fence), now);
      SoundRow(table, fence.migrationId);
      var selected := Select(fence);
      if selected.None? {
        return false;
      }
      var row := selected.value;
      if row.checkpoint.remoteWrites.None? {
        return true;
      }
      var pending := row.checkpoint.remoteWrites.value;
      if pending.executionId != fence.executionId || pending.attempt != fence.attempt {
        return false;
      }
      table := table[row.id := row.(checkpoint := row.checkpoint.(remoteWrites := None), updatedAt := now)];
      return true;
    }

    method RecordAttachmentOutcome(fence: Fence, configurationRevision: int, id: string, failed: bool, now: Time)
      returns (recorded: bool)
      requires Valid()
      modifies this
      ensures Valid()
      ensures Takes(old(table), table, fence.migrationId, MigrationRuns.AttachmentOutcome(fence, configurationRevision, id, failed), now)
      ensures recorded <==> old(Select(fence)).Some? && RecordsAttachments(old(Select(fence)).value, configurationRevision)
      ensures recorded && Distinct(UnresolvedIn(old(Select(fence)).value)) ==>
                Tells(UnresolvedIn(Select(fence).value), UnresolvedIn(old(Select(fence)).value), id, failed)
      ensures !recorded ==> table == old(table)
    {
      hide Tells, Distinct, FirstOccurrences, Without, Sorting.SortBy;
      hide Sound, ValidTable, MigrationRuns.RowInv;
      TakingKeepsSound(table, fence.migrationId, MigrationRuns.AttachmentOutcome(fence, configurationRevision, id, failed), now);
      SoundRow(table, fence.migrationId);
      var selected := Select(fence);
      if selected.None? || selected.value.status != Migrating || selected.value.cleanupExecutionId.Some?
         || selected.value.destinationProjectId.None? {
        return false;
      }
      var row := selected.value;
      var checkpoint := row.checkpoint;
      if checkpoint.accepted.None? || checkpoint.accepted.value.configurationRevision != configurationRevision {
        return false;
      }
      var previous: seq<string> := [];
      var known := checkpoint.failedAttachments.Some?
                   && checkpoint.failedAttachments.value.configurationRevision == configurationRevision;
      if known {
        previous := checkpoint.failedAttachments.value.ids;
      }
      if Distinct(previous) {
        OutcomeElements(previous, id, failed);
      }
      var ids;
      if failed {
        ids := Sorting.SortBy(FirstOccurrences(previous + [id]), Sorting.Utf16);
      } else {
        ids := Without(previous, id);
      }
      if known && |ids| == |previous| {
        return true;
      }
      checkpoint := checkpoint.(failedAttachments := Some(FailedAttachments(configurationRevision, ids)));
      table := table[row.id := row.(checkpoint := checkpoint, updatedAt := now, revision := row.revision + 1)];
      return true;
    }

    method UnresolvedFailedAttachments(fence: Fence, expectedRevision: int) returns (ids: Result<seq<string>, Error>)
      ensures ids.Ok? <==> Select(fence).Some? && Select(fence).value.revision == expectedRevision
                           && Select(fence).value.destinationProjectId.Some? && Select(fence).value.cleanupExecutionId.None?
      ensures ids.Ok? ==> ids.value == UnresolvedIn(Select(fence).value)
      ensures ids.Err? ==> ids.error == RevisionConflict
    {
      var selected := Select(fence);
      if selected.None? || selected.value.revision != expectedRevision
         || selected.value.destinationProjectId.None? || selected.value.cleanupExecutionId.Some? {
        return Err(RevisionConflict);
      }
      var checkpoint := selected.value.checkpoint;
      if checkpoint.failedAttachments.Some? && checkpoint.accepted.Some?
         && checkpoint.failedAttachments.value.configurationRevision == checkpoint.accepted.value.configurationRevision {
        return Ok(checkpoint.failedAttachments.value.ids);
      }
      return Ok([]);
    }

    /** Creation is idempotent: the row exists afterwards, is never overwritten, and the call
        succeeds exactly when the request's row is this execution's, for this source. */
    method EnsureCreated(input: CreateInput, now: Time) returns (created: Result<Row, Error>)
      requires Valid()
      modifies this
      ensures Valid() && table == Created(old(table), input, now)
      ensures forall id :: id in old(table) ==> id in table && table[id] == old(table)[id]
      ensures created.Ok? ==>
                input.executionId in table && created.value == table[input.executionId]
                && Requested(created.value, input) && created.value.source == input.source
      ensures created.Err? <==>
                !(input.executionId in table && Requested(table[input.executionId], input)
                  && table[input.executionId].workflowExecutionId.Some?
                  && table[input.executionId].source == input.source)
      ensures (input.executionId !in old(table) && forall id | id in old(table) :: !Requested(old(table)[id], input))
              ==> created.Ok?
    {
      CreatedStaysSound(table, input, now);
      if input.executionId !in table
         && forall id | id in table :: !(table[id].owner == input.owner && table[id].requestId == input.requestId) {
        table := table[input.executionId := CreatedRow(input, now)];
      }
      if id :| id in table && table[id].owner == input.owner && table[id].requestId == input.requestId {
        var row := table[id];
        if row.id == input.executionId && row.workflowExecutionId.Some? && row.source == input.source {
          return Ok(row);
        }
      }
      return Err(RequestConflict);
    }

    /** A rescan succeeds exactly when the row afterwards is the new attempt's. It moves the
        row only from an attempt it supersedes, to a fresh scan under which nothing of that
        attempt is heard any more. */
    method Rescan(input: RescanInput, now: Time) returns (outcome: Result<Row, Error>)
      requires Valid()
      modifies this
      ensures Valid()
      ensures Takes(old(table), table, input.migrationId, MigrationRuns.Rescan(input), now)
      ensures outcome.Ok? <==> input.migrationId in table && IsRescanTarget(table[input.migrationId], input)
      ensures outcome.Ok? ==> outcome.value == table[input.migrationId]
      ensures table != old(table) ==>
                && input.migrationId in old(table) && input.migrationId in table
                && var (was, row) := (old(table)[input.migrationId], table[input.migrationId]);
                && Supersedes(was, input) && was.cleanupExecutionId.None?
                && was.status in {NeedsConfiguration, Ready, Failed, ReconnectRequired, Cancelled}
                && row.status == Scanning && row.checkpoint == EMPTY_CHECKPOINT && row.configuration.None?
                && row.scanAt.None? && row.progressDone == 0 && row.failureReason.None?
                && row.failureSequence == was.failureSequence && row.destinationProjectId == was.destinationProjectId
                && forall f: Fence :: FenceHolds(was, f) ==> !FenceHolds(row, f) && f.attempt < row.workflowAttempt
      ensures outcome.Err? ==>
                && table == old(table)
                && outcome.error == if input.migrationId in table && Supersedes(table[input.migrationId], input)
                                    then RescanNotAllowed else RevisionConflict
    {
      hide Sound, ValidTable, MigrationRuns.RowInv;
      TakingKeepsSound(table, input.migrationId, MigrationRuns.Rescan(input), now);
      SoundRow(table, input.migrationId);
      if input.migrationId !in table {
        return Err(RevisionConflict);
      }
      var row := table[input.migrationId];
      if IsRescanTarget(row, input) {
        return Ok(row);
      }
      if row.workflowExecutionId != Some(input.supersededExecutionId) || row.revision != input.expectedRevision
         || input.workflowAttempt != row.workflowAttempt + 1 || input.scanRevision != row.scanRevision + 1 {
        return Err(RevisionConflict);
      }
      if row.checkpoint.remoteWrites.Some? {
        return Err(RevisionConflict);
      }
      if !CanRescan(row) {
        return Err(RescanNotAllowed);
      }
      row := row.(workflowExecutionId := Some(input.executionId), workflowAttempt := input.workflowAttempt,
                  scanRevision := input.scanRevision, revision := input.expectedRevision + 1, updatedAt := now,
                  status := Scanning, phase := "queued_scan", configuration := None, checkpoint := EMPTY_CHECKPOINT,
                  progressDone := 0, progressTotal := None, scanAt := None, failureReason := None,
                  failureRetryable := None, finishedAt := None, retainedUntil := None);
      table := table[input.migrationId := row];
      return Ok(row);
    }

    method AdvanceRow(fence: Fence, patch: ProjectionPatch, now: Time) returns (updated: bool)
      requires Valid()
      modifies this
      ensures Valid()
      ensures Takes(old(table), table, fence.migrationId, MigrationRuns.AdvanceRow(fence, patch), now)
      ensures updated <==> old(Select(fence)).Some? && RecordsFailures(old(Select(fence)).value)
      ensures updated ==>
                && fence.migrationId in table && Applies(old(Select(fence)).value, table[fence.migrationId], patch, now)
                && Select(fence).Some? && SameProtocolKeys(old(Select(fence)).value.checkpoint, Select(fence).value.checkpoint)
                && Select(fence).value.failureSequence == old(Select(fence)).value.failureSequence
                && Select(fence).value.configuration == old(Select(fence)).value.configuration
      ensures !updated ==> table == old(table)
    {
      hide Sound, ValidTable, MigrationRuns.RowInv;
      TakingKeepsSound(table, fence.migrationId, MigrationRuns.AdvanceRow(fence, patch), now);
      SoundRow(table, fence.migrationId);
      var selected := Select(fence);
      if selected.None? || selected.value.cleanupExecutionId.Some?
         || selected.value.status in {Succeeded, Cancelled, Cancelling} {
        return false;
      }
      var row := selected.value;
      var checkpoint := row.checkpoint;
      if patch.checkpoint.Some? {
        checkpoint := Merged(checkpoint, patch.checkpoint.value);
      }
      table := table[fence.migrationId := row.(
        status := Given(patch.status, row.status), phase := Given(patch.phase, row.phase),
        progressDone := Given(patch.progressDone, row.progressDone),
        progressTotal := Over(row.progressTotal, patch.progressTotal), checkpoint := checkpoint,
        scanAt := Over(row.scanAt, patch.scanAt), manifestVersion := Given(patch.manifestVersion, row.manifestVersion),
        destinationProjectId := Over(row.destinationProjectId, patch.destinationProjectId),
        destinationProjectSlug := Over(row.destinationProjectSlug, patch.destinationProjectSlug),
        reportPath := Over(row.reportPath, patch.reportPath), finishedAt := Over(row.finishedAt, patch.finishedAt),
        updatedAt := now, revision := row.revision + 1)];
      return true;
    }

    method Fail(fence: Fence, failure: Failure, now: Time) returns (recorded: bool)
      requires Valid()
      modifies this
      ensures Valid()
      ensures Takes(old(table), table, fence.migrationId, MigrationRuns.Fail(fence, failure), now)
      ensures recorded <==> old(Select(fence)).Some? && RecordsFailures(old(Select(fence)).value)
                            && old(Select(fence)).value.status !in {Failed, ReconnectRequired}
      ensures recorded ==>
                && Select(fence).Some?
                && var (was, row) := (old(Select(fence)).value, Select(fence).value);
                && FailedBy(was, row, failure, now)
                && row.checkpoint.currentGate ==
                   (if was.scanAt.None? then Some(Retry(row.failureSequence, ScanPhase))
                    else if was.checkpoint.accepted.Some? then Some(Retry(row.failureSequence, ImportPhase))
                    else was.checkpoint.currentGate)
      ensures !recorded ==> table == old(table)
    {
      hide Sound, ValidTable, MigrationRuns.RowInv;
      TakingKeepsSound(table, fence.migrationId, MigrationRuns.Fail(fence, failure), now);
      SoundRow(table, fence.migrationId);
      var selected := Select(fence);
      if selected.None? || selected.value.cleanupExecutionId.Some?
         || selected.value.status in {Succeeded, Cancelled, Cancelling, Failed, ReconnectRequired} {
        return false;
      }
      var row := selected.value;
      var sequence := row.failureSequence + 1;
      var checkpoint := row.checkpoint;
      if row.scanAt.None? {
        checkpoint := checkpoint.(currentGate := Some(Retry(sequence, ScanPhase)));
      } else if checkpoint.accepted.Some? {
        checkpoint := checkpoint.(currentGate := Some(Retry(sequence, ImportPhase)));
      }
      table := table[row.id := FailedRow(row, sequence, FailureStatus(failure), failure, checkpoint, now)];
      return true;
    }

    method RecordScanUnitFailure(fence: Fence, key: string, failure: Failure, now: Time) returns (receipt: Option<int>)
      requires Valid()
      modifies this
      ensures Valid()
      ensures Takes(old(table), table, fence.migrationId, MigrationRuns.ScanFailure(fence, key, failure), now)
      ensures receipt.Some? <==> old(Select(fence)).Some? && RecordsFailures(old(Select(fence)).value)
      ensures receipt.Some? ==>
                && Select(fence).Some?
                && var (was, row) := (old(Select(fence)).value, Select(fence).value);
                && key in row.checkpoint.scanFailureReceipts && row.checkpoint.scanFailureReceipts[key] == receipt.value
                && (if key in was.checkpoint.scanFailureReceipts then row == was
                    else if was.status in {Failed, ReconnectRequired} then
                      receipt.value == was.failureSequence == row.failureSequence
                      && row.checkpoint.currentGate == was.checkpoint.currentGate
                    else
                      receipt.value == row.failureSequence && FailedBy(was, row, failure, now)
                      && row.checkpoint.currentGate == Some(Retry(receipt.value, ScanPhase)))
      ensures receipt.None? ==> table == old(table)
    {
      hide Sound, ValidTable, MigrationRuns.RowInv;
      TakingKeepsSound(table, fence.migrationId, MigrationRuns.ScanFailure(fence, key, failure), now);
      SoundRow(table, fence.migrationId);
      var selected := Select(fence);
      if selected.None? || selected.value.cleanupExecutionId.Some?
         || selected.value.status in {Succeeded, Cancelled, Cancelling} {
        return None;
      }
      var row := selected.value;
      var checkpoint := row.checkpoint;
      if key in checkpoint.scanFailureReceipts {
        return Some(checkpoint.scanFailureReceipts[key]);
      }
      var alreadyFailed := row.status == Failed || row.status == ReconnectRequired;
      var sequence := row.failureSequence;
      if !alreadyFailed {
        sequence := sequence + 1;
        checkpoint := checkpoint.(currentGate := Some(Retry(sequence, ScanPhase)));
        row := row.(status := FailureStatus(failure), failureReason := Some(failure.reason),
                    failureRetryable := Some(failure.retryable), failureSequence := sequence,
                    finishedAt := Some(now), retainedUntil := Some(now + RETENTION));
      }
      checkpoint := checkpoint.(scanFailureReceipts := checkpoint.scanFailureReceipts[key := sequence]);
      table := table[row.id := row.(checkpoint := checkpoint, updatedAt := now, revision := row.revision + 1)];
      return Some(sequence);
    }

    method RecordImportUnitFailure(fence: Fence, key: string, failure: Failure, now: Time) returns (receipt: Option<int>)
      requires Valid()
      modifies this
      ensures Valid()
      ensures Takes(old(table), table, fence.migrationId, MigrationRuns.ImportFailure(fence, key, failure), now)
      ensures receipt.Some? <==> old(Select(fence)).Some? && RecordsFailures(old(Select(fence)).value)
                                 && old(Select(fence)).value.scanAt.Some?
                                 && (key in old(Select(fence)).value.checkpoint.importFailureReceipts
                                     || old(Select(fence)).value.status == Migrating)
      ensures receipt.Some? ==>
                && Select(fence).Some?
                && var (was, row) := (old(Select(fence)).value, Select(fence).value);
                && key in row.checkpoint.importFailureReceipts && row.checkpoint.importFailureReceipts[key] == receipt.value
                && (if key in was.checkpoint.importFailureReceipts then row == was
                    else receipt.value == row.failureSequence && FailedBy(was, row, failure, now)
                         && row.checkpoint.currentGate == Some(Retry(receipt.value, ImportPhase)))
      ensures receipt.None? ==> table == old(table)
    {
      hide Sound, ValidTable, MigrationRuns.RowInv;
      TakingKeepsSound(table, fence.migrationId, MigrationRuns.ImportFailure(fence, key, failure), now);
      SoundRow(table, fence.migrationId);
      var selected := Select(fence);
      if selected.None? || selected.value.cleanupExecutionId.Some? || selected.value.scanAt.None?
         || selected.value.status in {Succeeded, Cancelled, Cancelling} {
        return None;
      }
      var row := selected.value;
      var checkpoint := row.checkpoint;
      if key in checkpoint.importFailureReceipts {
        return Some(checkpoint.importFailureReceipts[key]);
      }
      if row.status != Migrating {
        return None;
      }
      var sequence := row.failureSequence + 1;
      checkpoint := checkpoint.(currentGate := Some(Retry(sequence, ImportPhase)),
                                importFailureReceipts := checkpoint.importFailureReceipts[key := sequence]);
      table := table[row.id := FailedRow(row, sequence, FailureStatus(failure), failure, checkpoint, now)];
      return Some(sequence);
    }

    method ResumeImportUnit(fence: Fence, sequence: int) returns (result: ResumeResult)
      ensures result.Resumed? <==> Select(fence).Some? && ResumesImport(Select(fence).value)
                                   && Select(fence).value.status == Migrating
                                   && Select(fence).value.failureSequence == sequence
      ensures result.AwaitRetry? <==> Select(fence).Some? && ResumesImport(Select(fence).value)
                                      && Select(fence).value.failureSequence > sequence
      ensures result.AwaitRetry? ==> result.failureSequence == Select(fence).value.failureSequence
      ensures fence.migrationId in table ==> result == ResumeImport(table[fence.migrationId], fence, sequence)
    {
      var selected := Select(fence);
      if selected.None? || selected.value.cleanupExecutionId.Some? || selected.value.scanAt.None?
         || selected.value.status !in {Failed, Migrating, ReconnectRequired} {
        return Rejected;
      }
      if selected.value.failureSequence > sequence {
        return AwaitRetry(selected.value.failureSequence);
      }
      if selected.value.failureSequence != sequence || selected.value.status != Migrating {
        return Rejected;
      }
      return Resumed;
    }

    method ResumeScanUnit(fence: Fence, sequence: int, now: Time) returns (result: ResumeResult)
      requires Valid()
      modifies this
      ensures Valid()
      ensures Takes(old(table), table, fence.migrationId, MigrationRuns.Resume(fence, sequence), now)
      ensures result.Rejected? <==> old(Select(fence)).None? || !ResumesScan(old(Select(fence)).value)
                                    || old(Select(fence)).value.failureSequence < sequence
      ensures result.Resumed? ==>
                && Select(fence).Some? && Select(fence).value.failureSequence == sequence
                && (Select(fence).value.status == Scanning
                    || (Select(fence).value.scanAt.Some? && Select(fence).value.status in {NeedsConfiguration, Ready, Migrating}))
                && (table != old(table) ==>
                      && old(Select(fence)).value.status in {Failed, ReconnectRequired}
                      && Select(fence).value.failureReason == None && Select(fence).value.failureRetryable == None
                      && Select(fence).value.finishedAt == None && Select(fence).value.retainedUntil == None)
      ensures result.AwaitRetry? ==> result.failureSequence == old(Select(fence)).value.failureSequence > sequence
      ensures !result.Resumed? ==> table == old(table)
    {
      hide Sound, ValidTable, MigrationRuns.RowInv;
      TakingKeepsSound(table, fence.migrationId, MigrationRuns.Resume(fence, sequence), now);
      SoundRow(table, fence.migrationId);
      var selected := Select(fence);
      if selected.None? || selected.value.cleanupExecutionId.Some? {
        return Rejected;
      }
      var row := selected.value;
      var scanned := row.scanAt.Some? && row.status in {NeedsConfiguration, Ready, Migrating};
      var retryable := row.scanAt.None? && row.failureRetryable == Some(true) && row.status in {Failed, ReconnectRequired};
      if !scanned && !retryable && row.status != Scanning {
        return Rejected;
      }
      if row.failureSequence > sequence {
        return AwaitRetry(row.failureSequence);
      }
      if row.failureSequence != sequence {
        return Rejected;
      }
      if retryable {
        table := table[row.id := row.(status := Scanning, failureReason := None, failureRetryable := None,
                                      finishedAt := None, retainedUntil := None, updatedAt := now,
                                      revision := row.revision + 1)];
      }
      return Resumed;
    }

    method RecordPage(fence: Fence, page: string, count: int, now: Time) returns (recorded: bool)
      requires Valid()
      modifies this
      ensures Valid()
      ensures Takes(old(table), table, fence.migrationId, MigrationRuns.Progress(fence, page, count), now)
      ensures recorded <==> old(Select(fence)).Some? && old(Select(fence)).value.cleanupExecutionId.None?
                            && old(Select(fence)).value.status in {Scanning, Failed, ReconnectRequired}
      ensures recorded ==>
                && Select(fence).Some?
                && var (was, row) := (old(Select(fence)).value, Select(fence).value);
                && page in row.checkpoint.scanPages
                && (if page in was.checkpoint.scanPages then row == was
                    else && row.checkpoint.scanPages == was.checkpoint.scanPages[page := count]
                         && row.progressDone == PageTotal(was.checkpoint.scanPages) + count)
      ensures !recorded ==> table == old(table)
    {
      hide Sound, ValidTable, MigrationRuns.RowInv;
      TakingKeepsSound(table, fence.migrationId, MigrationRuns.Progress(fence, page, count), now);
      SoundRow(table, fence.migrationId);
      var selected := Select(fence);
      if selected.None? || selected.value.cleanupExecutionId.Some?
         || selected.value.status !in {Scanning, Failed, ReconnectRequired} {
        return false;
      }
      var row := selected.value;
      if page in row.checkpoint.scanPages {
        return true;
      }
      var pages := row.checkpoint.scanPages[page := count];
      var done := SumPages(pages);
      PageTotalRemove(pages, page);
      assert pages - {page} == row.checkpoint.scanPages;
      table := table[row.id := row.(checkpoint := row.checkpoint.(scanPages := pages), progressDone := done,
                                    updatedAt := now, revision := row.revision + 1)];
      return true;
    }

    method FinishScan(fence: Fence, manifest: ArtifactRef, scannedAt: Time, requirements: Requirements, now: Time)
      returns (completed: bool)
      requires Valid()
      modifies this
      ensures Valid()
      ensures Takes(old(table), table, fence.migrationId, MigrationRuns.Scanned(fence, manifest, scannedAt, requirements), now)
      ensures completed <==> Select(fence).Some? && ScannedWith(Select(fence).value, manifest)
      ensures table != old(table) ==>
                && completed && old(Select(fence)).Some? && old(Select(fence)).value.status == Scanning
                && Select(fence).value.status == NeedsConfiguration
                && Select(fence).value.checkpoint.scan == Some(Scan(Some(manifest), scannedAt, requirements))
                && Select(fence).value.scanAt == Some(scannedAt) && Select(fence).value.manifestVersion == 2
                && Select(fence).value.revision == old(Select(fence)).value.revision + 1
                && Select(fence).value.checkpoint.currentGate == Some(StartImport(Select(fence).value.scanRevision))
                && Select(fence).value.progressTotal == Some(Select(fence).value.progressDone)
    {
      hide Sound, ValidTable;
      TakingKeepsSound(table, fence.migrationId, MigrationRuns.Scanned(fence, manifest, scannedAt, requirements), now);
      SoundRow(table, fence.migrationId);
      var selected := Select(fence);
      if selected.None? || selected.value.cleanupExecutionId.Some? {
        return false;
      }
      var row := selected.value;
      if row.status in {NeedsConfiguration, Ready, Migrating} && row.scanAt.Some? {
        return row.checkpoint.scan.Some? && row.checkpoint.scan.value.manifest == Some(manifest);
      }
      if row.status != Scanning {
        return false;
      }
      var checkpoint := row.checkpoint.(scan := Some(Scan(Some(manifest), scannedAt, requirements)),
                                        currentGate := Some(StartImport(row.scanRevision)));
      table := table[row.id := row.(checkpoint := checkpoint, status := NeedsConfiguration, phase := "configuration",
                                    scanAt := Some(scannedAt), manifestVersion := 2,
                                    progressTotal := Some(row.progressDone), updatedAt := now,
                                    revision := row.revision + 1)];
      return true;
    }

    /** saveConfiguration and transition: the owner's command is obeyed exactly when the row is
        the owner's, at the revision named, and allows it; the row then moves to the next
        revision. A refusal changes nothing and names the first of these that failed. */
    method Mutate(owner: Owner, migrationId: string, expectedRevision: int, command: OwnerCommand, now: Time)
      returns (outcome: Result<Row, Error>)
      requires Valid()
      modifies this
      ensures Valid()
      ensures Takes(old(table), table, migrationId, MigrationRuns.Mutate(owner, expectedRevision, command), now)
      ensures outcome.Ok? <==>
                migrationId in old(table) && old(table)[migrationId].owner == owner
                && old(table)[migrationId].revision == expectedRevision && Allows(old(table)[migrationId], command)
      ensures outcome.Ok? ==>
                && migrationId in table && outcome.value == table[migrationId]
                && outcome.value.revision == expectedRevision + 1 && outcome.value.cleanupExecutionId.None?
                && Obeys(old(table)[migrationId], outcome.value, command, now)
                && FenceFor(outcome.value) == FenceFor(old(table)[migrationId])
                && outcome.value.failureSequence == old(table)[migrationId].failureSequence
      ensures outcome.Err? ==>
                && table == old(table)
                && outcome.error == (if migrationId !in table || table[migrationId].owner != owner then NotFound
                                     else if table[migrationId].revision != expectedRevision then RevisionConflict
                                     else Refusal(table[migrationId], command))
    {
      hide Sound, ValidTable, MigrationRuns.RowInv, IsComplete, IsAllowedCorrection, Allows, Obeys, Refusal;
      TakingKeepsSound(table, migrationId, MigrationRuns.Mutate(owner, expectedRevision, command), now);
      SoundRow(table, migrationId);
      if migrationId !in table || table[migrationId].owner != owner {
        return Err(NotFound);
      }
      var row := table[migrationId];
      if row.revision != expectedRevision {
        return Err(RevisionConflict);
      }
      MutationAnswers(row, owner, expectedRevision, command, now);
      if Allows(row, command) {
        MutationObeys(row, owner, expectedRevision, command, now);
      }
      match command {
        case SaveConfiguration(configuration, unresolved) =>
          if !CanConfigure(row) {
            return Err(NotConfigurable);
          }
          if row.checkpoint.scan.None? {
            return Err(ScanIncomplete);
          }
          if row.destinationProjectId.Some?
             && (row.checkpoint.accepted.None?
                 || !IsAllowedCorrection(row.checkpoint.accepted.value.configuration, configuration, unresolved)) {
            return Err(NotConfigurable);
          }
          var complete := IsComplete(configuration, row.checkpoint.scan.value.requirements);
          row := row.(configuration := Some(configuration), status := if complete then Ready else NeedsConfiguration,
                      phase := if complete then "ready" else "configuration", failureReason := None,
                      failureRetryable := None, finishedAt := None, retainedUntil := None);
        case Run =>
          if !CanRun(row) {
            return Err(RunNotAllowed);
          }
          var scanRetry := IsScanRetry(row);
          if !scanRetry
             && (row.configuration.None? || row.checkpoint.scan.None?
                 || !IsComplete(row.configuration.value, row.checkpoint.scan.value.requirements)) {
            return Err(RunNotAllowed);
          }
          var accepted := row.checkpoint.accepted;
          if !scanRetry && (accepted.None? || accepted.value.configuration != row.configuration.value) {
            accepted := Some(Accepted(expectedRevision + 1, row.configuration.value));
          }
          row := row.(status := if scanRetry then Scanning else Migrating,
                      phase := if scanRetry then "queued_scan" else "migrate",
                      checkpoint := row.checkpoint.(accepted := accepted), failureReason := None,
                      failureRetryable := None, finishedAt := None, retainedUntil := None);
        case Cancel =>
          if !CanCancel(row) {
            return Err(CancelNotAllowed);
          }
          var active := row.status in {Scanning, Migrating, Cancelling};
          row := row.(status := if active then Cancelling else Cancelled,
                      phase := if active then "cancelling" else "cancelled",
                      finishedAt := if active then None else Some(now),
                      retainedUntil := if active then None else Some(now + RETENTION));
      }
      row := row.(revision := expectedRevision + 1, updatedAt := now);
      table := table[migrationId := row];
      return Ok(row);
    }

    method Interrupted(fence: Fence, now: Time) returns (finalized: bool)
      requires Valid()
      modifies this
      ensures Valid()
      ensures Takes(old(table), table, fence.migrationId, MigrationRuns.Interrupted(fence), now)
      ensures finalized <==> old(Select(fence)).Some? && old(Select(fence)).value.cleanupExecutionId.None?
                             && old(Select(fence)).value.status == Cancelling
      ensures finalized ==> Select(fence).Some? && Select(fence).value.status == Cancelled
                            && Select(fence).value.finishedAt == Some(now)
                            && Select(fence).value.retainedUntil == Some(now + 30 * 24 * 3_600_000)
      ensures !finalized ==> table == old(table)
    {
      hide Sound, ValidTable, MigrationRuns.RowInv;
      TakingKeepsSound(table, fence.migrationId, MigrationRuns.Interrupted(fence), now);
      SoundRow(table, fence.migrationId);
      var selected := Select(fence);
      if selected.None? || selected.value.status != Cancelling || selected.value.cleanupExecutionId.Some? {
        return false;
      }
      var row := selected.value;
      table := table[row.id := row.(status := Cancelled, phase := "cancelled", finishedAt := Some(now),
                                    retainedUntil := Some(now + RETENTION), updatedAt := now,
                                    revision := row.revision + 1)];
      return true;
    }

    method Claim(fence: Fence, expectedRevision: int, executionId: string, mode: CleanupMode, now: Time)
      returns (claimed: bool)
      requires Valid()
      modifies this
      ensures Valid()
      ensures Takes(old(table), table, fence.migrationId, MigrationRuns.Claim(fence, expectedRevision, executionId, mode), now)
      ensures claimed <==> Select(fence).Some? && Holds(Select(fence).value, executionId, mode)
      ensures table != old(table) ==>
                && claimed && old(Select(fence)).Some?
                && var was := old(Select(fence)).value;
                && was.revision == expectedRevision && was.cleanupExecutionId.None? && was.checkpoint.remoteWrites.None?
                && Select(fence).value.status == was.status && Select(fence).value.revision == expectedRevision + 1
                && Select(fence).value.checkpoint == was.checkpoint && (mode.ResetImport? ==> was.destinationProjectId.Some?)
    {
      hide Sound, ValidTable, MigrationRuns.RowInv;
      TakingKeepsSound(table, fence.migrationId, MigrationRuns.Claim(fence, expectedRevision, executionId, mode), now);
      SoundRow(table, fence.migrationId);
      var selected := Select(fence);
      if selected.None? || selected.value.status !in CleanupStatusesFor(mode) {
        return false;
      }
      var row := selected.value;
      if row.revision == expectedRevision && row.cleanupExecutionId.None? && row.checkpoint.remoteWrites.None?
         && !(mode == ResetImport && row.destinationProjectId.None?) {
        table := table[row.id := row.(cleanupExecutionId := Some(executionId), updatedAt := now,
                                      revision := expectedRevision + 1)];
        return true;
      }
      return row.cleanupExecutionId == Some(executionId);
    }

    method Release(fence: Fence, executionId: string, mode: CleanupMode, now: Time) returns (released: bool)
      requires Valid()
      modifies this
      ensures Valid()
      ensures Takes(old(table), table, fence.migrationId, MigrationRuns.Release(fence, executionId, mode), now)
      ensures released <==> old(Select(fence)).Some? && Holds(old(Select(fence)).value, executionId, mode)
      ensures released ==>
                && Select(fence).Some? && Select(fence).value.cleanupExecutionId.None?
                && Select(fence).value.status == old(Select(fence)).value.status
                && Select(fence).value.checkpoint == old(Select(fence)).value.checkpoint
                && Select(fence).value.revision == old(Select(fence)).value.revision + 1
      ensures !released ==> table == old(table)
    {
      hide Sound, ValidTable, MigrationRuns.RowInv;
      TakingKeepsSound(table, fence.migrationId, MigrationRuns.Release(fence, executionId, mode), now);
      SoundRow(table, fence.migrationId);
      var selected := Select(fence);
      if selected.None? || selected.value.cleanupExecutionId != Some(executionId)
         || selected.value.status !in CleanupStatusesFor(mode) {
        return false;
      }
      var row := selected.value;
      table := table[row.id := row.(cleanupExecutionId := None, updatedAt := now, revision := row.revision + 1)];
      return true;
    }

    method FinishPostSuccess(fence: Fence, executionId: string, now: Time) returns (completed: bool)
      requires Valid()
      modifies this
      ensures Valid()
      ensures Takes(old(table), table, fence.migrationId, MigrationRuns.FinishPostSuccess(fence, executionId), now)
      ensures completed <==> Select(fence).Some? && Select(fence).value.status == Succeeded
                             && Select(fence).value.cleanupExecutionId.None?
                             && Select(fence).value.checkpoint.postSuccessCleanupCompleted
      ensures table != old(table) ==> completed && old(Select(fence)).Some?
                                      && Holds(old(Select(fence)).value, executionId, PostSuccess)
    {
      hide Sound, ValidTable, MigrationRuns.RowInv;
      TakingKeepsSound(table, fence.migrationId, MigrationRuns.FinishPostSuccess(fence, executionId), now);
      SoundRow(table, fence.migrationId);
      var selected := Select(fence);
      if selected.None? || selected.value.status != Succeeded {
        return false;
      }
      var row := selected.value;
      if row.cleanupExecutionId.None? && row.checkpoint.postSuccessCleanupCompleted {
        return true;
      }
      if row.cleanupExecutionId != Some(executionId) {
        return false;
      }
      table := table[row.id := row.(cleanupExecutionId := None,
                                    checkpoint := row.checkpoint.(postSuccessCleanupCompleted := true),
                                    updatedAt := now, revision := row.revision + 1)];
      return true;
    }

    method FinishReset(fence: Fence, executionId: string, destinationExists: bool, now: Time) returns (completed: bool)
      requires Valid()
      modifies this
      ensures Valid()
      ensures Takes(old(table), table, fence.migrationId, MigrationRuns.FinishReset(fence, executionId, destinationExists), now)
      ensures completed <==> old(Select(fence)).Some? && Holds(old(Select(fence)).value, executionId, ResetImport)
                             && (destinationExists ==> old(Select(fence)).value.destinationProjectId.None?)
      ensures completed ==>
                && Select(fence).Some? && Select(fence).value.destinationProjectId.None?
                && Select(fence).value.destinationProjectSlug.None? && Select(fence).value.reportPath.None?
                && Select(fence).value.cleanupExecutionId.None?
                && Select(fence).value.revision == old(Select(fence)).value.revision + 1
                && Select(fence).value.status == old(Select(fence)).value.status
      ensures !completed ==> table == old(table)
    {
      hide Sound, ValidTable;
      TakingKeepsSound(table, fence.migrationId, MigrationRuns.FinishReset(fence, executionId, destinationExists), now);
      SoundRow(table, fence.migrationId);
      var selected := Select(fence);
      if selected.None? || selected.value.cleanupExecutionId != Some(executionId)
         || selected.value.status !in CleanupStatusesFor(ResetImport)
         || selected.value.checkpoint.remoteWrites.Some? {
        return false;
      }
      var row := selected.value;
      if row.destinationProjectId.Some? && destinationExists {
        return false;
      }
      table := table[row.id := row.(destinationProjectId := None, destinationProjectSlug := None, reportPath := None,
                                    cleanupExecutionId := None, updatedAt := now, revision := row.revision + 1)];
      return true;
    }

    /** The marker needs no test of its own: no marker stands while a lock does. */
    method DeleteRow(fence: Fence, executionId: string) returns (deleted: bool)
      requires Valid()
      modifies this
      ensures Valid()
      ensures forall now :: table == Stepped(old(table), fence.migrationId, MigrationRuns.Event(MigrationRuns.Delete(fence, executionId), now))
      ensures deleted <==> old(Select(fence)).Some? && Holds(old(Select(fence)).value, executionId, Discard)
      ensures table == if deleted then old(table) - {fence.migrationId} else old(table)
    {
      hide Sound, ValidTable;
      SteppedStaysSound(table, fence.migrationId, MigrationRuns.Event(MigrationRuns.Delete(fence, executionId), 0));
      SoundRow(table, fence.migrationId);
      var selected := Select(fence);
      if selected.None? || selected.value.cleanupExecutionId != Some(executionId)
         || selected.value.checkpoint.remoteWrites.Some? || selected.value.status !in {Failed, Cancelled} {
        return false;
      }
      table := table - {fence.migrationId};
      return true;
    }
  }

  /** The import's own writes to the row. What else their transactions read and write, the
      project index and the plan, comes in as what it says of the project. */
  class JiraPublication {
    const projection: JiraMigrationProjection

    constructor (projection: JiraMigrationProjection)
      ensures this.projection == projection
    {
      this.projection := projection;
    }

    /** The hidden project is there and is the row's destination: succeeds exactly on a
        migrating, unlocked row of that organization that has no other destination. Nothing a
        reader could compare moves with it, neither the revision nor the time of the update. */
    method EnsureHiddenProject(fence: Fence, organizationId: string, projectId: string, slug: string, indexed: bool, now: Time)
      returns (ensured: bool)
      requires projection.Valid()
      modifies projection
      ensures projection.Valid()
      ensures Takes(old(projection.table), projection.table, fence.migrationId,
                    MigrationRuns.HideProject(fence, organizationId, projectId, slug, indexed), now)
      ensures ensured <==>
                indexed && projection.Select(fence).Some?
                && var row := projection.Select(fence).value;
                   && row.status == Migrating && row.cleanupExecutionId.None? && row.owner.organizationId == organizationId
                   && row.destinationProjectId == Some(projectId) && row.destinationProjectSlug == Some(slug)
      ensures ensured ==>
                && old(projection.Select(fence)).Some?
                && MigrationRuns.SameVersion(old(projection.Select(fence)).value, projection.Select(fence).value)
                && projection.Select(fence).value.updatedAt == old(projection.Select(fence)).value.updatedAt
      ensures !ensured ==> projection.table == old(projection.table)
    {
      hide Sound, ValidTable, MigrationRuns.RowInv;
      TakingKeepsSound(projection.table, fence.migrationId,
                       MigrationRuns.HideProject(fence, organizationId, projectId, slug, indexed), now);
      SoundRow(projection.table, fence.migrationId);
      var selected := projection.Select(fence);
      if selected.None? || selected.value.status != Migrating || selected.value.cleanupExecutionId.Some?
         || selected.value.owner.organizationId != organizationId {
        return false;
      }
      var row := selected.value;
      if row.destinationProjectId.Some? && row.destinationProjectId.value != projectId {
        return false;
      }
      if row.destinationProjectSlug.Some? && row.destinationProjectSlug.value != slug {
        return false;
      }
      if !indexed {
        return false;
      }
      row := row.(destinationProjectId := Some(projectId), destinationProjectSlug := Some(slug));
      projection.table := projection.table[row.id := row];
      return true;
    }

    /** Publishing succeeds exactly when the row afterwards is succeeded with this publication
        and the project stood ready or had been published. Only a migrating row without a lock
        and without an unsettled write is moved, once. */
    method PublishAtomically(fence: Fence, publication: Publication, hidden: bool, published: bool, now: Time)
      returns (succeeded: bool)
      requires projection.Valid()
      modifies projection
      ensures projection.Valid()
      ensures Takes(old(projection.table), projection.table, fence.migrationId,
                    MigrationRuns.Published(fence, publication, hidden, published), now)
      ensures succeeded ==>
                projection.Select(fence).Some?
                && var row := projection.Select(fence).value;
                   && row.status == Succeeded && row.checkpoint.publishedPlan == Some(publication.plan)
                   && row.destinationProjectId == Some(publication.projectId)
                   && row.destinationProjectSlug == Some(publication.projectSlug)
                   && row.reportPath == Some(publication.reportPath)
      ensures projection.table != old(projection.table) ==>
                && succeeded && hidden && old(projection.Select(fence)).Some?
                && var was := old(projection.Select(fence)).value;
                   && was.status == Migrating && was.cleanupExecutionId.None? && was.checkpoint.remoteWrites.None?
                   && var row := projection.Select(fence).value;
                      && row.finishedAt == Some(now) && row.retainedUntil == None && row.failureReason == None
                      && row.failureRetryable == None && row.revision == was.revision + 1
      ensures succeeded && projection.table == old(projection.table) ==> published
      ensures !succeeded ==>
                && projection.table == old(projection.table)
                && (projection.Select(fence).Some? ==>
                      var row := projection.Select(fence).value;
                      && (row.status == Migrating ==>
                            !hidden || row.cleanupExecutionId.Some? || row.checkpoint.remoteWrites.Some?)
                      && (row.status == Succeeded && published ==>
                            !(row.destinationProjectId == Some(publication.projectId)
                              && row.destinationProjectSlug == Some(publication.projectSlug)
                              && row.reportPath == Some(publication.reportPath)
                              && row.checkpoint.publishedPlan == Some(publication.plan))))
    {
      hide Sound, ValidTable, MigrationRuns.RowInv;
      TakingKeepsSound(projection.table, fence.migrationId,
                       MigrationRuns.Published(fence, publication, hidden, published), now);
      SoundRow(projection.table, fence.migrationId);
      var selected := projection.Select(fence);
      if selected.None? {
        return false;
      }
      var row := selected.value;
      if row.status == Succeeded {
        return published && row.destinationProjectId == Some(publication.projectId)
               && row.destinationProjectSlug == Some(publication.projectSlug)
               && row.reportPath == Some(publication.reportPath)
               && row.checkpoint.publishedPlan == Some(publication.plan);
      }
      if row.status != Migrating || row.cleanupExecutionId.Some? || row.checkpoint.remoteWrites.Some? || !hidden {
        return false;
      }
      row := row.(status := Succeeded, phase := "succeeded", destinationProjectId := Some(publication.projectId),
                  destinationProjectSlug := Some(publication.projectSlug), reportPath := Some(publication.reportPath),
                  checkpoint := row.checkpoint.(publishedPlan := Some(publication.plan)), finishedAt := Some(now),
                  retainedUntil := None, failureReason := None, failureRetryable := None,
                  revision := row.revision + 1, updatedAt := now);
      projection.table := projection.table[row.id := row];
      return true;
    }
  }

  /** The part of the migrations service that signals: one transaction moves the row and opens
      its gate in the row's execution. */
  class JiraMigrations {
    const projection: JiraMigrationProjection
    var signalled: set<(string, Gate)>

    constructor (projection: JiraMigrationProjection)
      ensures this.projection == projection && signalled == {}
    {
      this.projection := projection;
      signalled := {};
    }

    method Submit(owner: Owner, migrationId: string, expectedRevision: int, now: Time) returns (outcome: Result<Row, Error>)
      requires projection.Valid()
      modifies this, projection
      ensures projection.Valid()
      ensures var before := old(projection.table);
              if migrationId !in before then
                outcome == Err(NotFound) && projection.table == before && signalled == old(signalled)
              else match SubmitRun(before[migrationId], owner, expectedRevision, now)
                   case Err(error) => outcome == Err(error) && projection.table == before && signalled == old(signalled)
                   case Ok((next, gate)) =>
                     && outcome == Ok(next) && projection.table == before[migrationId := next]
                     && signalled == old(signalled) + {(before[migrationId].workflowExecutionId.value, gate)}
    {
      if migrationId !in projection.table || projection.table[migrationId].owner != owner {
        return Err(NotFound);
      }
      var row := projection.table[migrationId];
      if row.revision != expectedRevision || FenceFor(row).None? {
        return Err(RevisionConflict);
      }
      var gate := row.checkpoint.currentGate;
      if gate.None?
         || (if gate.value.StartImport? then gate.value.scanRevision != row.scanRevision
             else gate.value.failureSequence != row.failureSequence) {
        return Err(RunNotAllowed);
      }
      hide Allows, Refusal, OwnerMutation, Sound;
      MutationAnswers(row, owner, expectedRevision, Run, now);
      outcome := projection.Mutate(owner, migrationId, expectedRevision, Run, now);
      if outcome.Ok? {
        signalled := signalled + {(row.workflowExecutionId.value, gate.value)};
      }
    }
  }
}
