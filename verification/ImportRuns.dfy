/** The import of one workflow execution (MigrationWorkflow.ts, runImportUnit): it waits for
    StartImport, materializes and then publishes; a stage that fails records the failure, parks
    on Retry(n) and goes on when Retry(n) is signalled. */
module ImportRuns {
  import opened Wrappers
  import opened JiraConfiguration
  import opened MigrationRow
  import opened MigrationSpec
  import opened MigrationRuns
  import opened ConfigurationRuns
  import RetryRuns

  datatype Stage = Materialize | Publish

  /** How the execution ended, which its finalizer is told. */
  datatype Exit = Done | Interrupted | FailedWith(failure: Failure)

  /** Over is an execution that has ended; `reported` once its finalizer is done. */
  datatype Import =
    | Waiting
    | Running(stage: Stage, operationTry: nat)
    | Recording(stage: Stage, operationTry: nat, failure: Failure)
    | Parked(stage: Stage, operationTry: nat, awaited: int)
    | Over(exit: Exit, reported: bool)

  const DATABASE_FAILED := Failure("jira_migration_database_failed", true, false)
  const SUPERSEDED := Failure("jira_migration_superseded", false, false)

  /** `started` and `retries` are the gates signalled in this execution; `finalized` is the
      failure sequence its finalizer has recorded, if it has recorded one. */
  datatype System = System(row: Option<Row>, unit: Import, started: bool, retries: set<int>, finalized: Option<int>)

  datatype Step =
    | Start
    | Succeed
    | RateLimited
    | End(exit: Exit)
    | FailTransiently(failure: Failure)
    | Record(now: Time, call: Call)
    | TryResume(failed: bool)
    | Finalize(now: Time, call: Call)
    | Submit(owner: Owner, revision: int, now: Time)
    | Other(event: Event)

  function StageName(stage: Stage): string { if stage.Materialize? then "materialize" else "publish" }

  /** What others may do: this execution's failures are its own, runs go through Submit, and
      patches are polite. */
  ghost predicate Foreign(s: System, fence: Fence, event: Event) {
    && !(event.op.Mutate? && event.op.command.Run?)
    && !(IsFailure(event.op) && event.op.fence == fence)
    && (s.row.Some? && event.op.AdvanceRow? ==> Polite(s.row.value, event.op.patch))
  }

  function Ended(exit: Exit): Import { Over(exit, false) }

  function KeyOf(stage: Stage, operationTry: nat): string { StageName(stage) + "/" + RetryRuns.Digits(operationTry) }

  function Moved(s: System, unit: Import): System { s.(unit := unit) }

  function Resuming(unit: Import, result: ResumeResult): Import
    requires unit.Parked?
  {
    match result
    case Resumed => Running(unit.stage, unit.operationTry + 1)
    case AwaitRetry(n) => Parked(unit.stage, unit.operationTry, n)
    case Rejected => Ended(FailedWith(SUPERSEDED))
  }

  /** What the finalizer does to the row, and the sequence it records. A failure that it meets
      itself is only logged. */
  function Finalized(row: Row, fence: Fence, exit: Exit, now: Time): (Row, Option<int>) {
    if exit.Done? then (row, None)
    else
      var (cancelled, done) := FinalizeInterrupted(row, fence, now);
      if done || exit.Interrupted? then (cancelled, None)
      else
        var (failed, recorded) := RecordFailure(row, fence, exit.failure, now);
        (failed, if recorded then Some(failed.failureSequence) else None)
  }

  /** One step; a step that does not apply leaves the system alone. An activity may be repeated
      before its answer is kept, and one whose database call fails ends the execution; resuming
      only reads. An execution can end anywhere, and its finalizer runs afterwards. */
  ghost function Next(s: System, fence: Fence, step: Step): System {
    match step
    case Start => if s.unit.Waiting? && s.started then Moved(s, Running(Materialize, 0)) else s
    case Succeed =>
      if !s.unit.Running? then s
      else Moved(s, if s.unit.stage.Materialize? then Running(Publish, 0) else Ended(Done))
    case RateLimited => if s.unit.Running? then Moved(s, Running(s.unit.stage, s.unit.operationTry + 1)) else s
    case End(exit) => if s.unit.Over? then s else Moved(s, Ended(exit))
    case FailTransiently(failure) =>
      if s.unit.Running? then Moved(s, Recording(s.unit.stage, s.unit.operationTry, failure)) else s
    case Record(now, call) =>
      if !s.unit.Recording? || s.row.None? then s
      else if call == Errored(false) then Moved(s, Ended(FailedWith(DATABASE_FAILED)))
      else
        var (row, receipt) :=
          RecordImportFailure(s.row.value, fence, KeyOf(s.unit.stage, s.unit.operationTry), s.unit.failure, now);
        var t := s.(row := Some(row));
        if call.Lost? then t
        else if call.Errored? then Moved(t, Ended(FailedWith(DATABASE_FAILED)))
        else if receipt.None? then Moved(t, Ended(FailedWith(SUPERSEDED)))
        else Moved(t, Parked(s.unit.stage, s.unit.operationTry, receipt.value))
    case TryResume(failed) =>
      if !s.unit.Parked? || s.unit.awaited !in s.retries || s.row.None? then s
      else if failed then Moved(s, Ended(FailedWith(DATABASE_FAILED)))
      else
        Moved(s, Resuming(s.unit, ResumeImport(s.row.value, fence, s.unit.awaited)))
    case Finalize(now, call) =>
      if !s.unit.Over? || s.unit.reported || s.row.None? then s
      else if call == Errored(false) then Moved(s, Over(s.unit.exit, true))
      else
        var (row, sequence) := Finalized(s.row.value, fence, s.unit.exit, now);
        s.(row := Some(row), unit := Over(s.unit.exit, !call.Lost?),
           finalized := if sequence.Some? then sequence else s.finalized)
    case Submit(owner, revision, now) =>
      if s.row.None? || RetryRuns.SubmitRun(s.row.value, owner, revision, now).Err? then s
      else
        var (row, gate) := RetryRuns.SubmitRun(s.row.value, owner, revision, now).value;
        var mine := s.row.value.workflowExecutionId == Some(fence.executionId);
        s.(row := Some(row), started := s.started || (mine && gate.StartImport?),
           retries := if mine && gate.Retry? then s.retries + {gate.failureSequence} else s.retries)
    case Other(event) =>
      if Foreign(s, fence, event) then s.(row := Apply(s.row, event)) else s
  }

  // ---------- the invariant ----------

  ghost predicate Current(s: System, fence: Fence) { s.row.Some? && FenceHolds(s.row.value, fence) }

  predicate Stopped(row: Row) { row.status in {NeedsConfiguration, Ready, Failed, ReconnectRequired} }

  /** A sequence the import waits for, or may be told to wait for: signalled already, unless it
      is the latest; and that one is named by the gate while the row has stopped. */
  ghost predicate Answered(row: Row, retries: set<int>, n: int) {
    && n <= row.failureSequence
    && (n < row.failureSequence || row.status == Migrating ==> n in retries)
    && (n == row.failureSequence && Stopped(row) ==> row.checkpoint.currentGate == Some(Retry(n, ImportPhase)))
  }

  ghost predicate ImportPhaseInv(row: Row, started: bool, retries: set<int>) {
    && row.scanAt.Some? && row.status != Scanning
    && (row.checkpoint.currentGate == Some(StartImport(row.scanRevision))
        || (row.checkpoint.currentGate.Some? && row.checkpoint.currentGate.value.Retry?
            && row.checkpoint.currentGate.value.phase.ImportPhase?))
    && (!started ==>
          && row.status != Migrating && row.checkpoint.currentGate == Some(StartImport(row.scanRevision))
          && row.checkpoint.importFailureReceipts == map[])
    && (forall k :: k in row.checkpoint.importFailureReceipts ==>
          Answered(row, retries, row.checkpoint.importFailureReceipts[k]))
    && (row.checkpoint.importFailureReceipts != map[] ==> Answered(row, retries, row.failureSequence))
    && (Stopped(row) && row.checkpoint.currentGate.value.Retry? ==>
          row.checkpoint.currentGate.value.failureSequence == row.failureSequence)
  }

  ghost predicate ImportInv(s: System, fence: Fence) {
    && (s.row.Some? ==>
          && s.row.value.id == fence.migrationId && s.row.value.workflowAttempt >= fence.attempt
          && (s.row.value.workflowAttempt == fence.attempt ==> FenceHolds(s.row.value, fence)))
    && (Current(s, fence) && !s.unit.Over? ==>
          && ImportPhaseInv(s.row.value, s.started, s.retries)
          && (s.unit.Parked? ==>
                && Answered(s.row.value, s.retries, s.unit.awaited)
                && s.row.value.checkpoint.importFailureReceipts != map[]))
  }

  /** What nobody else's step moves. */
  ghost predicate SameImport(a: Row, b: Row) {
    && b.scanAt == a.scanAt && b.failureSequence == a.failureSequence && b.scanRevision == a.scanRevision
    && b.checkpoint.currentGate == a.checkpoint.currentGate
    && b.checkpoint.importFailureReceipts == a.checkpoint.importFailureReceipts
    && b.status != Scanning && (b.status == Migrating ==> a.status == Migrating)
    && (Stopped(b) ==> Stopped(a))
  }

  lemma OthersKeep(row: Row, fence: Fence, e: Event)
    requires FenceHolds(row, fence) && row.scanAt.Some? && row.status != Scanning
    requires !(e.op.Mutate? && e.op.command.Run?) && !IsFailure(e.op) && !e.op.Rescan?
    requires e.op.AdvanceRow? ==> Polite(row, e.op.patch)
    ensures Apply(Some(row), e).Some? ==> SameImport(row, Apply(Some(row), e).value)
  {
    hide PageTotal, IsComplete, IsAllowedCorrection, RecordFailure, RecordScanFailure, RecordImportFailure, BeginRescan;
    ColumnWriters(row, e);
    match e.op
    case Scanned(_, _, _, _) =>
    case AdvanceRow(_, _) =>
    case Mutate(_, _, _) =>
    case Resume(_, _) =>
    case BeginWrites(_) =>
    case SettleWrites(_) =>
    case AttachmentOutcome(_, _, _, _) =>
    case Progress(_, _, _) =>
    case HideProject(_, _, _, _, _) =>
    case Published(_, _, _, _) =>
    case Interrupted(_) =>
    case Claim(_, _, _, _) =>
    case Release(_, _, _) =>
    case FinishPostSuccess(_, _) =>
    case FinishReset(_, _, _) =>
    case Delete(_, _) =>
  }

  lemma SameKeepsInv(a: Row, b: Row, started: bool, retries: set<int>)
    requires ImportPhaseInv(a, started, retries) && SameImport(a, b)
    ensures ImportPhaseInv(b, started, retries)
    ensures forall n :: Answered(a, retries, n) ==> Answered(b, retries, n)
  {
  }

  /** The stage's own failure: the next sequence, which the gate then names. */
  lemma RecordStep(row: Row, fence: Fence, key: string, failure: Failure, now: Time, started: bool, retries: set<int>)
    requires ImportPhaseInv(row, started, retries)
    ensures var (next, receipt) := RecordImportFailure(row, fence, key, failure, now);
            && ImportPhaseInv(next, started, retries)
            && (receipt.Some? ==> Answered(next, retries, receipt.value) && next.checkpoint.importFailureReceipts != map[])
  {
    var (next, receipt) := RecordImportFailure(row, fence, key, failure, now);
    assert receipt.Some? ==> key in next.checkpoint.importFailureReceipts;
  }

  /** A stopped import starts again only by the run that signals what its gate names. */
  lemma SubmitStep(row: Row, owner: Owner, revision: int, now: Time, started: bool, retries: set<int>)
    requires ImportPhaseInv(row, started, retries) && RetryRuns.SubmitRun(row, owner, revision, now).Ok?
    ensures var (next, gate) := RetryRuns.SubmitRun(row, owner, revision, now).value;
            var signalled := if gate.Retry? then retries + {gate.failureSequence} else retries;
            && next.workflowExecutionId == row.workflowExecutionId && next.workflowAttempt == row.workflowAttempt
            && next.id == row.id && next.status == Migrating
            && next.checkpoint.importFailureReceipts == row.checkpoint.importFailureReceipts
            && ImportPhaseInv(next, started || gate.StartImport?, signalled)
            && forall n :: Answered(row, retries, n) ==> Answered(next, signalled, n)
  {
    hide IsComplete, IsAllowedCorrection;
  }

  lemma ImportStep(s: System, fence: Fence, step: Step)
    requires ImportInv(s, fence)
    ensures ImportInv(Next(s, fence, step), fence)
  {
    hide PageTotal, IsComplete, IsAllowedCorrection, ImportPhaseInv, Answered;
    match step
    case Record(now, _) =>
      if s.unit.Recording? && s.row.Some? {
        var key := KeyOf(s.unit.stage, s.unit.operationTry);
        AttemptStep(s.row.value, s.row, Event(ImportFailure(fence, key, s.unit.failure), now));
        if Current(s, fence) {
          RecordStep(s.row.value, fence, key, s.unit.failure, now, s.started, s.retries);
        }
      }
    case Submit(owner, revision, now) => SubmitKeeps(s, fence, owner, revision, now);
    case Other(event) => OtherKeeps(s, fence, event);
    case Finalize(now, _) =>
      if s.unit.Over? && s.row.Some? {
        FinalizedAttempt(s.row.value, fence, s.unit.exit, now);
      }
    case TryResume(failed) => ResumeKeeps(s, fence, failed);
    case _ =>
  }

  lemma FinalizedAttempt(row: Row, fence: Fence, exit: Exit, now: Time)
    ensures var next := Finalized(row, fence, exit, now).0;
            && next.id == row.id && next.workflowAttempt == row.workflowAttempt
            && next.workflowExecutionId == row.workflowExecutionId
  {
  }

  lemma ResumeKeeps(s: System, fence: Fence, failed: bool)
    requires ImportInv(s, fence)
    ensures ImportInv(Next(s, fence, TryResume(failed)), fence)
  {
    hide Answered;
  }

  lemma SubmitKeeps(s: System, fence: Fence, owner: Owner, revision: int, now: Time)
    requires ImportInv(s, fence)
    ensures ImportInv(Next(s, fence, Submit(owner, revision, now)), fence)
  {
    hide IsComplete, IsAllowedCorrection, ImportPhaseInv, Answered;
    if s.row.Some? && RetryRuns.SubmitRun(s.row.value, owner, revision, now).Ok? {
      AttemptStep(s.row.value, s.row, Event(MigrationRuns.Mutate(owner, revision, Run), now));
      if Current(s, fence) && !s.unit.Over? {
        SubmitStep(s.row.value, owner, revision, now, s.started, s.retries);
      }
    }
  }

  lemma RescanMoves(row: Row, e: Event)
    requires e.op.Rescan?
    ensures Apply(Some(row), e) == Some(row) || Apply(Some(row), e).value.workflowAttempt > row.workflowAttempt
  {
  }

  lemma OtherKeeps(s: System, fence: Fence, event: Event)
    requires ImportInv(s, fence)
    ensures ImportInv(Next(s, fence, Other(event)), fence)
  {
    if s.row.None? {
      assert Apply(s.row, event) == s.row;
      assert Next(s, fence, Other(event)) == s;
      return;
    }
    hide Apply, Answered;
    if s.row.Some? && Foreign(s, fence, event) {
      AttemptStep(s.row.value, s.row, event);
      if event.op.Rescan? {
        RescanMoves(s.row.value, event);
        assert Apply(s.row, event) == s.row ==> Next(s, fence, Other(event)) == s;
      } else if Current(s, fence) && !s.unit.Over? {
        if IsFailure(event.op) {
          WrongFenceChangesNothing(s.row, event);
          assert Next(s, fence, Other(event)) == s;
        } else {
          OthersKeep(s.row.value, fence, event);
          if Apply(s.row, event).Some? {
            SameKeepsInv(s.row.value, Apply(s.row, event).value, s.started, s.retries);
          }
        }
      }
    }
  }

  // ---------- over every run ----------

  ghost function Ran(s: System, fence: Fence, steps: seq<Step>): System
    decreases |steps|
  {
    if steps == [] then s else Ran(Next(s, fence, steps[0]), fence, steps[1..])
  }

  /** The scan has just been completed under this fence. */
  ghost predicate Begins(s: System, fence: Fence) {
    && Current(s, fence) && s.unit.Waiting? && !s.started && s.finalized.None?
    && s.row.value.scanAt.Some? && s.row.value.status == NeedsConfiguration
    && s.row.value.checkpoint.currentGate == Some(StartImport(s.row.value.scanRevision))
    && s.row.value.checkpoint.importFailureReceipts == map[]
  }

  lemma {:induction false} ImportRun(s: System, fence: Fence, steps: seq<Step>)
    requires ImportInv(s, fence)
    ensures ImportInv(Ran(s, fence, steps), fence)
    decreases |steps|
  {
    if steps != [] {
      ImportStep(s, fence, steps[0]);
      ImportRun(Next(s, fence, steps[0]), fence, steps[1..]);
    }
  }

  /** The import waits for nothing that cannot come: before its first run, the gate of the row
      is StartImport; parked on Retry(n), n is at most the failure sequence, has been signalled
      if it is smaller or the row migrates, and is what the gate names if the row has stopped. */
  lemma {:induction false} NoLostImportWakeUp(s: System, fence: Fence, steps: seq<Step>)
    requires Begins(s, fence) && Current(Ran(s, fence, steps), fence)
    ensures var t := Ran(s, fence, steps);
            && (t.unit.Waiting? && !t.started ==>
                  t.row.value.status != Migrating
                  && t.row.value.checkpoint.currentGate == Some(StartImport(t.row.value.scanRevision)))
            && (t.unit.Parked? ==> Answered(t.row.value, t.retries, t.unit.awaited))
  {
    ImportRun(s, fence, steps);
  }

  /** So the next run the row accepts lets the import go on, wherever it waits. */
  lemma {:induction false} AcceptedRunMovesImport(
      s: System, fence: Fence, steps: seq<Step>, owner: Owner, revision: int, now: Time)
    requires Begins(s, fence) && Current(Ran(s, fence, steps), fence)
    requires RetryRuns.SubmitRun(Ran(s, fence, steps).row.value, owner, revision, now).Ok?
    ensures var t := Next(Ran(s, fence, steps), fence, Submit(owner, revision, now));
            && (t.unit.Waiting? ==> t.started && Next(t, fence, Start).unit == Running(Materialize, 0))
            && (t.unit.Parked? ==>
                  t.unit.awaited in t.retries
                  && (t.unit.awaited == t.row.value.failureSequence && t.row.value.cleanupExecutionId.None? ==>
                        Next(t, fence, TryResume(false)).unit == Running(t.unit.stage, t.unit.operationTry + 1)))
  {
    hide ImportPhaseInv, Ran, IsComplete, IsAllowedCorrection;
    ImportRun(s, fence, steps);
    var r := Ran(s, fence, steps);
    if !r.unit.Over? {
      SubmitStep(r.row.value, owner, revision, now, r.started, r.retries);
      GateAtFirst(r.row.value, r.started, r.retries);
    }
  }

  lemma GateAtFirst(row: Row, started: bool, retries: set<int>)
    requires ImportPhaseInv(row, started, retries)
    ensures row.scanAt.Some?
    ensures !started ==> row.checkpoint.currentGate == Some(StartImport(row.scanRevision))
  {
  }

  /** Completing the scan of an attempt that has not imported yet begins its import. */
  lemma ScanBeginsImport(row: Row, fence: Fence, manifest: ArtifactRef, scannedAt: Time, requirements: Requirements,
                         now: Time, retries: set<int>)
    requires row.status == Scanning && row.checkpoint.importFailureReceipts == map[]
    requires CompleteScan(row, fence, manifest, scannedAt, requirements, now).1
    ensures Begins(System(Some(CompleteScan(row, fence, manifest, scannedAt, requirements, now).0), Waiting, false, retries, None), fence)
  {
  }

  /** An import that has ended never goes on. */
  lemma {:induction false} EndedImportStays(s: System, fence: Fence, steps: seq<Step>)
    requires s.unit.Over?
    ensures Ran(s, fence, steps).unit.Over?
    decreases |steps|
  {
    if steps != [] {
      EndedImportStays(Next(s, fence, steps[0]), fence, steps[1..]);
    }
  }
}
