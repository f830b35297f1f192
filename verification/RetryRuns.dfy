/** The scan units of one workflow execution (MigrationWorkflow.ts, runScanUnit) over the
    migration row, the deferreds signalled in that execution, and everybody else. A unit that
    fails records the failure, parks on Retry(n) and resumes when Retry(n) is signalled. */
module RetryRuns {
  import opened Wrappers
  import opened JiraConfiguration
  import opened MigrationRow
  import opened MigrationSpec
  import opened MigrationRuns
  import opened ConfigurationRuns

  // ---------- submitting a run ----------

  /** The gate a submitted run opens; the run is refused when the row has no current gate. */
  function GateToOpen(row: Row): Option<Gate> {
    if row.checkpoint.currentGate.None? then None
    else
      match row.checkpoint.currentGate.value
      case StartImport(scanRevision) =>
        if scanRevision == row.scanRevision then row.checkpoint.currentGate else None
      case Retry(sequence, _) =>
        if sequence == row.failureSequence then row.checkpoint.currentGate else None
  }

  /** submitJiraMigrationRun: one transaction that moves the row and signals the gate. */
  function SubmitRun(row: Row, owner: Owner, expectedRevision: int, now: Time): Result<(Row, Gate), Error> {
    if row.owner != owner then Err(NotFound)
    else if row.revision != expectedRevision || FenceFor(row).None? then Err(RevisionConflict)
    else if GateToOpen(row).None? then Err(RunNotAllowed)
    else
      var (next, outcome) := OwnerMutation(row, owner, expectedRevision, Run, now);
      match outcome
      case Err(error) => Err(error)
      case Ok(_) => Ok((next, GateToOpen(row).value))
  }

  // ---------- the units ----------

  datatype Unit =
    | Running(operationTry: nat)
    | Recording(operationTry: nat, failure: Failure)
    | Parked(operationTry: nat, awaited: int)
    | Finished
    | Superseded

  /** `retries` are the sequences n for which Retry(n) was signalled in this execution;
      `base` is the failure sequence its attempt started with. */
  datatype System = System(row: Option<Row>, units: map<string, Unit>, retries: set<int>, base: int)

  datatype Step =
    | Spawn(u: string)
    | Succeed(u: string)
    | RateLimited(u: string)
    | FailPermanently(u: string)
    | FailTransiently(u: string, reason: string, reconnect: bool)
    | Record(u: string, now: Time, recorded: bool)
    | ResumeUnit(u: string, now: Time, recorded: bool)
    | Submit(owner: Owner, revision: int, now: Time)
    | Other(event: Event)

  function Digits(n: nat): string
  {
    (if n < 10 then "" else Digits(n / 10)) + ["0123456789"[n % 10]]
  }

  function OperationKey(u: string, operationTry: nat): string { u + "/" + Digits(operationTry) }

  function Resuming(unit: Unit, result: ResumeResult): Unit
    requires unit.Parked?
  {
    match result
    case Resumed => Running(unit.operationTry + 1)
    case AwaitRetry(n) => Parked(unit.operationTry, n)
    case Rejected => Superseded
  }

  /** What others may do: runs go through Submit, only units resume, patches are polite. */
  ghost predicate Foreign(s: System, fence: Fence, event: Event) {
    && !(event.op.Mutate? && event.op.command.Run?)
    && !(event.op.Resume? && event.op.fence == fence)
    && (s.row.Some? && event.op.AdvanceRow? ==> Polite(s.row.value, event.op.patch))
  }

  /** One step; a step that does not apply leaves the system alone. An activity whose result
      is not recorded has changed the row and will be executed again. */
  ghost function Next(s: System, fence: Fence, step: Step): System {
    match step
    case Spawn(u) => if u in s.units then s else s.(units := s.units[u := Running(0)])
    case Succeed(u) => if u in s.units && s.units[u].Running? then s.(units := s.units[u := Finished]) else s
    case RateLimited(u) =>
      if u in s.units && s.units[u].Running?
      then s.(units := s.units[u := Running(s.units[u].operationTry + 1)]) else s
    case FailPermanently(u) =>
      if u in s.units && s.units[u].Running? then s.(units := s.units[u := Superseded]) else s
    case FailTransiently(u, reason, reconnect) =>
      if u in s.units && s.units[u].Running?
      then s.(units := s.units[u := Recording(s.units[u].operationTry, Failure(reason, true, reconnect))]) else s
    case Record(u, now, recorded) =>
      if !(u in s.units && s.units[u].Recording? && s.row.Some?) then s
      else
        var unit := s.units[u];
        var (row, sequence) := RecordScanFailure(s.row.value, fence, OperationKey(u, unit.operationTry), unit.failure, now);
        var t := s.(row := Some(row));
        if !recorded then t
        else if sequence.None? then t.(units := s.units[u := Superseded])
        else t.(units := s.units[u := Parked(unit.operationTry, sequence.value)])
    case ResumeUnit(u, now, recorded) =>
      if !(u in s.units && s.units[u].Parked? && s.units[u].awaited in s.retries && s.row.Some?) then s
      else
        var unit := s.units[u];
        var (row, result) := ResumeScan(s.row.value, fence, unit.awaited, now);
        var t := s.(row := Some(row));
        if !recorded then t
        else t.(units := s.units[u := Resuming(unit, result)])
    case Submit(owner, revision, now) =>
      if s.row.None? then s
      else
        var submitted := SubmitRun(s.row.value, owner, revision, now);
        if submitted.Err? then s
        else
          var (row, gate) := submitted.value;
          s.(row := Some(row),
             retries := if gate.Retry? && s.row.value.workflowExecutionId == Some(fence.executionId)
                        then s.retries + {gate.failureSequence} else s.retries)
    case Other(event) =>
      if Foreign(s, fence, event) then s.(row := Apply(s.row, event)) else s
  }

  // ---------- the invariant ----------

  ghost predicate Current(s: System, fence: Fence) { s.row.Some? && FenceHolds(s.row.value, fence) }

  /** Every failure of this attempt but the latest has been retried; the latest has been
      retried when the scan runs, and is the one the gate names when the scan has stopped. */
  ghost predicate SequencesRetried(row: Row, retries: set<int>, base: int) {
    && row.failureSequence >= base
    && (row.status in {Failed, ReconnectRequired} ==> row.failureSequence > base)
    && (row.scanAt.None? ==>
          && row.status !in {NeedsConfiguration, Ready, Migrating}
          && (forall m :: base < m < row.failureSequence ==> m in retries)
          && (row.status == Scanning && row.failureSequence > base ==> row.failureSequence in retries)
          && (row.status in {Failed, ReconnectRequired} ==>
                row.checkpoint.currentGate == Some(Retry(row.failureSequence, ScanPhase))))
    && (forall k :: k in row.checkpoint.scanFailureReceipts ==>
          base < row.checkpoint.scanFailureReceipts[k] <= row.failureSequence)
  }

  ghost predicate Awaits(s: System, u: string, n: int) {
    u in s.units && s.units[u].Parked? && s.units[u].awaited == n
  }

  ghost predicate RetryInv(s: System, fence: Fence) {
    && (s.row.Some? ==>
          && s.row.value.id == fence.migrationId && s.row.value.workflowAttempt >= fence.attempt
          && (s.row.value.workflowAttempt == fence.attempt ==> FenceHolds(s.row.value, fence)))
    && (Current(s, fence) ==>
          && SequencesRetried(s.row.value, s.retries, s.base)
          && (forall u :: u in s.units && s.units[u].Parked? ==>
                s.base < s.units[u].awaited <= s.row.value.failureSequence))
  }

  lemma FailureSequenceStep(row: Row, e: Event, retries: set<int>, base: int)
    requires SequencesRetried(row, retries, base) && IsFailure(e.op)
    ensures SequencesRetried(ApplyToRow(row, e.op, e.now), retries, base)
  {
    match e.op
    case Fail(_, _) =>
    case ScanFailure(_, _, _) =>
    case ImportFailure(_, _, _) =>
  }

  lemma SequenceStep(row: Row, e: Event, retries: set<int>, base: int)
    requires SequencesRetried(row, retries, base)
    requires !(e.op.Mutate? && e.op.command.Run?) && !e.op.Resume? && !e.op.Rescan?
    requires e.op.AdvanceRow? ==> Polite(row, e.op.patch)
    ensures Apply(Some(row), e).Some? ==> SequencesRetried(Apply(Some(row), e).value, retries, base)
  {
    hide PageTotal, IsComplete, IsAllowedCorrection;
    match e.op
    case Fail(_, _) => FailureSequenceStep(row, e, retries, base);
    case ScanFailure(_, _, _) => FailureSequenceStep(row, e, retries, base);
    case ImportFailure(_, _, _) => FailureSequenceStep(row, e, retries, base);
    case Scanned(_, _, _, _) =>
    case AdvanceRow(_, _) =>
    case Mutate(_, _, _) =>
    case BeginWrites(_) =>
    case SettleWrites(_) =>
    case AttachmentOutcome(_, _, _, _) =>
    case Progress(_, _, _) =>
    case HideProject(_, _, _, _, _) =>
    case Published(_, _, _, _) =>
    case Interrupted(_) =>
    case Claim(_, _, _, _) =>
    case Release(_, _, _) =>
    case FinishPostSuccess(_, _) =>
    case FinishReset(_, _, _) =>
    case Delete(_, _) =>
  }

  /** A stopped scan starts again only by the run that signals its sequence. */
  lemma SubmitStep(row: Row, owner: Owner, revision: int, now: Time, retries: set<int>, base: int)
    requires SequencesRetried(row, retries, base) && SubmitRun(row, owner, revision, now).Ok?
    ensures var (next, gate) := SubmitRun(row, owner, revision, now).value;
            && next.workflowExecutionId == row.workflowExecutionId && next.workflowAttempt == row.workflowAttempt
            && next.failureSequence == row.failureSequence && next.id == row.id
            && SequencesRetried(next, if gate.Retry? then retries + {gate.failureSequence} else retries, base)
  {
    hide IsComplete, IsAllowedCorrection;
  }

  lemma RecordKeeps(s: System, fence: Fence, u: string, now: Time, recorded: bool)
    requires RetryInv(s, fence)
    ensures RetryInv(Next(s, fence, Record(u, now, recorded)), fence)
  {
    hide PageTotal, IsComplete, IsAllowedCorrection, OwnerMutation, BeginRescan, Advance, CompleteScan, RecordImportFailure;
    if u in s.units && s.units[u].Recording? && s.row.Some? {
      var e := Event(ScanFailure(fence, OperationKey(u, s.units[u].operationTry), s.units[u].failure), now);
      AttemptStep(s.row.value, s.row, e);
      if Current(s, fence) {
        FailureSequenceStep(s.row.value, e, s.retries, s.base);
      }
    }
  }

  lemma ResumeKeeps(s: System, fence: Fence, u: string, now: Time, recorded: bool)
    requires RetryInv(s, fence)
    ensures RetryInv(Next(s, fence, ResumeUnit(u, now, recorded)), fence)
  {
  }

  lemma RetryStep(s: System, fence: Fence, step: Step)
    requires RetryInv(s, fence)
    ensures RetryInv(Next(s, fence, step), fence)
  {
    hide PageTotal, IsComplete, IsAllowedCorrection;
    match step
    case Record(u, now, recorded) => RecordKeeps(s, fence, u, now, recorded);
    case ResumeUnit(u, now, recorded) => ResumeKeeps(s, fence, u, now, recorded);
    case Submit(owner, revision, now) =>
      if s.row.Some? && SubmitRun(s.row.value, owner, revision, now).Ok? {
        AttemptStep(s.row.value, s.row, Event(MigrationRuns.Mutate(owner, revision, Run), now));
        if Current(s, fence) {
          SubmitStep(s.row.value, owner, revision, now, s.retries, s.base);
        }
      }
    case Other(event) =>
      if s.row.Some? && Foreign(s, fence, event) {
        AttemptStep(s.row.value, s.row, event);
        if Current(s, fence) {
          if event.op.Resume? {
            WrongFenceChangesNothing(s.row, event);
          } else if !event.op.Rescan? {
            SequenceStep(s.row.value, event, s.retries, s.base);
            ColumnWriters(s.row.value, event);
          }
        }
      }
    case _ =>
  }

  // ---------- over every run ----------

  ghost function Ran(s: System, fence: Fence, steps: seq<Step>): System
    decreases |steps|
  {
    if steps == [] then s else Ran(Next(s, fence, steps[0]), fence, steps[1..])
  }

  /** The attempt has just begun: created, or rescanned, under this fence. */
  ghost predicate Begins(s: System, fence: Fence) {
    && Current(s, fence) && s.units == map[] && s.retries == {}
    && s.row.value.status == Scanning && s.row.value.scanAt.None? && s.row.value.failureSequence == s.base
    && s.row.value.checkpoint == EMPTY_CHECKPOINT
  }

  lemma {:induction false} RetryRun(s: System, fence: Fence, steps: seq<Step>)
    requires RetryInv(s, fence)
    ensures RetryInv(Ran(s, fence, steps), fence)
    decreases |steps|
  {
    if steps != [] {
      RetryStep(s, fence, steps[0]);
      RetryRun(Next(s, fence, steps[0]), fence, steps[1..]);
    }
  }

  /** No wake-up is lost: in every reachable state of the scan, a unit parked on Retry(n) has
      n at most the row's failure sequence. If it is smaller, or the scan is running, Retry(n)
      has been signalled; if the scan has stopped at n, n is what the row's gate names. */
  lemma {:induction false} NoLostWakeUp(s: System, fence: Fence, steps: seq<Step>, u: string, n: int)
    requires Begins(s, fence)
    requires Current(Ran(s, fence, steps), fence) && Ran(s, fence, steps).row.value.scanAt.None?
    requires Awaits(Ran(s, fence, steps), u, n)
    ensures var t := Ran(s, fence, steps);
            var row := t.row.value;
            && s.base < n <= row.failureSequence
            && (n < row.failureSequence || row.status == Scanning ==> n in t.retries)
            && (n == row.failureSequence && row.status in {Failed, ReconnectRequired} ==>
                  row.checkpoint.currentGate == Some(Retry(n, ScanPhase)))
  {
    RanKeepsBase(s, fence, steps);
    RetryRun(s, fence, steps);
  }

  /** The next run the row accepts wakes every parked unit at once. */
  lemma {:induction false} AcceptedRunWakesEveryUnit(
      s: System, fence: Fence, steps: seq<Step>, owner: Owner, revision: int, now: Time)
    requires Begins(s, fence)
    requires Current(Ran(s, fence, steps), fence) && Ran(s, fence, steps).row.value.scanAt.None?
    requires SubmitRun(Ran(s, fence, steps).row.value, owner, revision, now).Ok?
    ensures var t := Next(Ran(s, fence, steps), fence, Submit(owner, revision, now));
            forall u, n :: Awaits(t, u, n) ==> n in t.retries
  {
    RetryRun(s, fence, steps);
    RetryStep(Ran(s, fence, steps), fence, Submit(owner, revision, now));
    RanKeepsBase(s, fence, steps);
    SubmitStep(Ran(s, fence, steps).row.value, owner, revision, now, Ran(s, fence, steps).retries, s.base);
  }

  lemma {:induction false} RanKeepsBase(s: System, fence: Fence, steps: seq<Step>)
    ensures Ran(s, fence, steps).base == s.base
    decreases |steps|
  {
    if steps != [] {
      RanKeepsBase(Next(s, fence, steps[0]), fence, steps[1..]);
    }
  }

  /** And such a run is there to be accepted: a stopped scan whose failure may be retried, not
      being cleaned up, takes its owner's run. */
  lemma {:induction false} StoppedScanAcceptsRun(s: System, fence: Fence, steps: seq<Step>, now: Time)
    requires Begins(s, fence) && Current(Ran(s, fence, steps), fence)
    requires var row := Ran(s, fence, steps).row.value;
             && row.scanAt.None? && row.cleanupExecutionId.None?
             && (row.status == ReconnectRequired || (row.status == Failed && row.failureRetryable == Some(true)))
    ensures var row := Ran(s, fence, steps).row.value;
            && SubmitRun(row, row.owner, row.revision, now).Ok?
            && SubmitRun(row, row.owner, row.revision, now).value.0.status == Scanning
  {
    RetryRun(s, fence, steps);
  }

  /** A unit that is sent back to wait waits for a larger sequence than before. */
  lemma ReparkedUnitAwaitsMore(s: System, fence: Fence, u: string, now: Time, n: int, m: int)
    requires s.row.Some? && n in s.retries
    requires Awaits(s, u, n) && Awaits(Next(s, fence, ResumeUnit(u, now, true)), u, m)
    ensures m > n
  {
  }

  /** Creation and every accepted rescan begin an attempt. */
  lemma AttemptsBegin(input: CreateInput, row: Row, rescan: RescanInput, t: Time)
    ensures Begins(System(Some(CreatedRow(input, t)), map[], {}, 0), Fence(input.executionId, input.executionId, 1))
    ensures var (next, outcome) := BeginRescan(row, rescan, t);
            next != row ==>
              Begins(System(Some(next), map[], {}, row.failureSequence),
                     Fence(row.id, rescan.executionId, rescan.workflowAttempt))
  {
  }
}
