/** What a stopped row tells about the execution behind it: whether the run it would accept
    finds an import that waits for it, or only an execution that has ended. */
module ImportEnds {
  import opened Wrappers
  import opened JiraConfiguration
  import opened MigrationRow
  import opened MigrationSpec
  import opened MigrationRuns
  import opened ConfigurationRuns
  import opened ImportRuns
  import RetryRuns

  // ---------- operation keys ----------

  lemma {:induction false} DigitsInjective(m: nat, n: nat)
    requires RetryRuns.Digits(m) == RetryRuns.Digits(n)
    ensures m == n
  {
    var a, b := RetryRuns.Digits(m), RetryRuns.Digits(n);
    assert a[|a| - 1] == "0123456789"[m % 10] && b[|b| - 1] == "0123456789"[n % 10];
    assert m % 10 == n % 10;
    assert a[..|a| - 1] == (if m < 10 then "" else RetryRuns.Digits(m / 10));
    assert b[..|b| - 1] == (if n < 10 then "" else RetryRuns.Digits(n / 10));
    if m >= 10 && n >= 10 {
      DigitsInjective(m / 10, n / 10);
    }
  }

  lemma KeysDiffer(a: Stage, i: nat, b: Stage, j: nat)
    requires KeyOf(a, i) == KeyOf(b, j)
    ensures a == b && i == j
  {
    assert KeyOf(a, i)[0] == StageName(a)[0] && KeyOf(b, j)[0] == StageName(b)[0];
    var k := |StageName(a) + "/"|;
    assert KeyOf(a, i)[k..] == RetryRuns.Digits(i) && KeyOf(b, j)[k..] == RetryRuns.Digits(j);
    DigitsInjective(i, j);
  }

  predicate Earlier(a: Stage, i: nat, b: Stage, j: nat) { (a == b && i < j) || (a.Materialize? && b.Publish?) }

  ghost predicate OfEarlier(key: string, stage: Stage, operationTry: nat) {
    exists a, i :: key == KeyOf(a, i) && Earlier(a, i, stage, operationTry)
  }

  lemma NotItsOwn(stage: Stage, operationTry: nat)
    ensures !OfEarlier(KeyOf(stage, operationTry), stage, operationTry)
  {
    if OfEarlier(KeyOf(stage, operationTry), stage, operationTry) {
      var a, i :| KeyOf(stage, operationTry) == KeyOf(a, i) && Earlier(a, i, stage, operationTry);
      KeysDiffer(a, i, stage, operationTry);
    }
  }

  lemma LaterThan(key: string, a: Stage, i: nat, b: Stage, j: nat)
    requires OfEarlier(key, a, i) || key == KeyOf(a, i)
    requires Earlier(a, i, b, j)
    ensures OfEarlier(key, b, j)
  {
    if OfEarlier(key, a, i) {
      var c, k :| key == KeyOf(c, k) && Earlier(c, k, a, i);
      assert Earlier(c, k, b, j);
    }
  }

  // ---------- the invariant ----------

  predicate HasReceipt(row: Row, n: int) {
    exists k | k in row.checkpoint.importFailureReceipts :: row.checkpoint.importFailureReceipts[k] == n
  }

  ghost predicate ReceiptsBelow(row: Row, bound: int) {
    forall k :: k in row.checkpoint.importFailureReceipts ==> row.checkpoint.importFailureReceipts[k] < bound
  }

  /** The gate names the latest failure, and that is either a stage's, which has its receipt,
      or the finalizer's, which has none. */
  ghost predicate GateInv(row: Row, finalized: Option<int>) {
    && row.scanAt.Some? && row.status != Scanning && row.checkpoint.currentGate.Some?
    && ReceiptsBelow(row, row.failureSequence + 1)
    && (row.status == Migrating ==> row.checkpoint.accepted.Some?)
    && (row.checkpoint.currentGate.value.StartImport? ==>
          row.checkpoint.currentGate.value.scanRevision == row.scanRevision)
    && (row.checkpoint.currentGate.value.Retry? ==>
          && row.checkpoint.currentGate.value == Retry(row.failureSequence, ImportPhase)
          && row.checkpoint.accepted.Some?
          && (HasReceipt(row, row.failureSequence) <==> finalized != Some(row.failureSequence)))
    && (finalized.Some? ==> finalized.value == row.failureSequence && ReceiptsBelow(row, finalized.value))
  }

  /** Where the import is, told by the receipts on the row. */
  ghost predicate UnitInv(row: Row, unit: Import, started: bool) {
    var receipts := row.checkpoint.importFailureReceipts;
    match unit
    case Waiting =>
      receipts == map[] && row.checkpoint.currentGate.Some? && row.checkpoint.currentGate.value.StartImport?
      && (started ==> !Stopped(row))
    case Running(stage, n) => !Stopped(row) && forall k :: k in receipts ==> OfEarlier(k, stage, n)
    case Recording(stage, n, _) =>
      && (forall k :: k in receipts ==> OfEarlier(k, stage, n) || (k == KeyOf(stage, n) && receipts[k] == row.failureSequence))
      && (Stopped(row) ==> KeyOf(stage, n) in receipts)
    case Parked(stage, n, awaited) =>
      && (forall k :: k in receipts ==> OfEarlier(k, stage, n) || (k == KeyOf(stage, n) && receipts[k] == awaited))
      && KeyOf(stage, n) in receipts && awaited == row.failureSequence
    case Over(_, _) => true
  }

  ghost predicate EndsInv(s: System, fence: Fence) {
    && (s.row.Some? ==>
          && s.row.value.id == fence.migrationId && s.row.value.workflowAttempt >= fence.attempt
          && (s.row.value.workflowAttempt == fence.attempt ==> FenceHolds(s.row.value, fence)))
    && (s.finalized.Some? ==> s.unit.Over?)
    && (Current(s, fence) ==> GateInv(s.row.value, s.finalized) && UnitInv(s.row.value, s.unit, s.started))
  }

  lemma SameKeepsEnds(a: Row, b: Row, unit: Import, started: bool, finalized: Option<int>)
    requires GateInv(a, finalized) && UnitInv(a, unit, started) && SameImport(a, b)
    requires b.checkpoint.accepted == a.checkpoint.accepted
    ensures GateInv(b, finalized) && UnitInv(b, unit, started)
  {
    hide OfEarlier;
  }

  lemma RecordKeepsEnds(row: Row, fence: Fence, stage: Stage, n: nat, failure: Failure, now: Time, started: bool)
    requires GateInv(row, None) && UnitInv(row, Recording(stage, n, failure), started)
    ensures var (next, receipt) := RecordImportFailure(row, fence, KeyOf(stage, n), failure, now);
            && GateInv(next, None) && UnitInv(next, Recording(stage, n, failure), started)
            && (receipt.Some? ==> UnitInv(next, Parked(stage, n, receipt.value), started))
  {
    NotItsOwn(stage, n);
    hide OfEarlier, KeyOf;
    var (next, receipt) := RecordImportFailure(row, fence, KeyOf(stage, n), failure, now);
    if next != row {
      assert next.checkpoint.importFailureReceipts[KeyOf(stage, n)] == next.failureSequence;
      assert HasReceipt(next, next.failureSequence);
    }
  }

  lemma FinalizedKeepsEnds(row: Row, fence: Fence, exit: Exit, now: Time, finalized: Option<int>)
    requires GateInv(row, finalized)
    ensures var (next, sequence) := Finalized(row, fence, exit, now);
            GateInv(next, if sequence.Some? then sequence else finalized)
  {
  }

  lemma SubmitKeepsEnds(row: Row, unit: Import, started: bool, finalized: Option<int>, owner: Owner, revision: int, now: Time)
    requires GateInv(row, finalized) && UnitInv(row, unit, started)
    requires RetryRuns.SubmitRun(row, owner, revision, now).Ok?
    ensures var (next, gate) := RetryRuns.SubmitRun(row, owner, revision, now).value;
            GateInv(next, finalized) && UnitInv(next, unit, started || gate.StartImport?)
  {
    hide IsComplete, IsAllowedCorrection, OfEarlier, KeyOf;
    var (next, gate) := RetryRuns.SubmitRun(row, owner, revision, now).value;
    assert next.status == Migrating && next.checkpoint.accepted.Some?;
    assert HasReceipt(next, next.failureSequence) == HasReceipt(row, row.failureSequence);
  }

  lemma OthersKeepAccepted(row: Row, e: Event)
    requires !(e.op.Mutate? && e.op.command.Run?) && !e.op.Rescan?
    ensures Apply(Some(row), e).Some? ==> Apply(Some(row), e).value.checkpoint.accepted == row.checkpoint.accepted
  {
    hide IsComplete, IsAllowedCorrection;
    ColumnWriters(row, e);
    if !e.op.Mutate? {
      hide ApplyToRow;
    }
  }

  lemma OtherKeepsEnds(s: System, fence: Fence, event: Event)
    requires EndsInv(s, fence)
    ensures EndsInv(Next(s, fence, Other(event)), fence)
  {
    if s.row.None? || !Foreign(s, fence, event) {
      assert Next(s, fence, Other(event)) == s;
      return;
    }
    hide Apply, GateInv, UnitInv;
    AttemptStep(s.row.value, s.row, event);
    if event.op.Rescan? {
      RescanMoves(s.row.value, event);
      assert Apply(s.row, event) == s.row ==> Next(s, fence, Other(event)) == s;
    } else if Current(s, fence) {
      if IsFailure(event.op) {
        WrongFenceChangesNothing(s.row, event);
        assert Next(s, fence, Other(event)) == s;
      } else {
        PhaseOf(s, fence);
        OthersKeep(s.row.value, fence, event);
        OthersKeepAccepted(s.row.value, event);
        if Apply(s.row, event).Some? {
          SameKeepsEnds(s.row.value, Apply(s.row, event).value, s.unit, s.started, s.finalized);
        }
      }
    }
  }

  lemma PhaseOf(s: System, fence: Fence)
    requires EndsInv(s, fence) && Current(s, fence)
    ensures s.row.value.scanAt.Some? && s.row.value.status != Scanning
  {
  }

  lemma RecordStepKeepsEnds(s: System, fence: Fence, now: Time, call: Call)
    requires EndsInv(s, fence)
    ensures EndsInv(Next(s, fence, Record(now, call)), fence)
  {
    hide GateInv, UnitInv;
    if s.unit.Recording? && s.row.Some? {
      var key := KeyOf(s.unit.stage, s.unit.operationTry);
      AttemptStep(s.row.value, s.row, Event(ImportFailure(fence, key, s.unit.failure), now));
      if Current(s, fence) {
        RecordKeepsEnds(s.row.value, fence, s.unit.stage, s.unit.operationTry, s.unit.failure, now, s.started);
        EndedFits(Next(s, fence, Record(now, call)).row.value, Next(s, fence, Record(now, call)).unit, s.started);
      }
    }
  }

  lemma EndedFits(row: Row, unit: Import, started: bool)
    ensures unit.Over? ==> UnitInv(row, unit, started)
  {
  }

  lemma MovedFits(row: Row, stage: Stage, n: nat, started: bool)
    requires UnitInv(row, Running(stage, n), started)
    ensures UnitInv(row, Running(stage, n + 1), started)
    ensures stage.Materialize? ==> UnitInv(row, Running(Publish, 0), started)
    ensures forall failure :: UnitInv(row, Recording(stage, n, failure), started)
  {
    forall k | k in row.checkpoint.importFailureReceipts
      ensures OfEarlier(k, stage, n + 1) && (stage.Materialize? ==> OfEarlier(k, Publish, 0))
    {
      LaterThan(k, stage, n, stage, n + 1);
      if stage.Materialize? {
        LaterThan(k, stage, n, Publish, 0);
      }
    }
    hide OfEarlier, KeyOf;
  }

  /** Whoever resumes is running again under a later key; the latest failure is the one awaited. */
  lemma ResumedFits(row: Row, fence: Fence, unit: Import, started: bool)
    requires unit.Parked? && UnitInv(row, unit, started)
    ensures UnitInv(row, Resuming(unit, ResumeImport(row, fence, unit.awaited)), started)
  {
    forall k | k in row.checkpoint.importFailureReceipts ensures OfEarlier(k, unit.stage, unit.operationTry + 1) {
      LaterThan(k, unit.stage, unit.operationTry, unit.stage, unit.operationTry + 1);
    }
    hide OfEarlier, KeyOf;
  }

  lemma EndsStep(s: System, fence: Fence, step: Step)
    requires EndsInv(s, fence)
    ensures EndsInv(Next(s, fence, step), fence)
  {
    hide GateInv, UnitInv, IsComplete, IsAllowedCorrection, Finalized;
    match step
    case Other(event) => OtherKeepsEnds(s, fence, event);
    case Record(now, call) => RecordStepKeepsEnds(s, fence, now, call);
    case Submit(owner, revision, now) =>
      if s.row.Some? && RetryRuns.SubmitRun(s.row.value, owner, revision, now).Ok? {
        AttemptStep(s.row.value, s.row, Event(MigrationRuns.Mutate(owner, revision, Run), now));
        SubmitFence(s.row.value, owner, revision, now);
        if Current(s, fence) {
          SubmitKeepsEnds(s.row.value, s.unit, s.started, s.finalized, owner, revision, now);
        }
      }
    case Finalize(now, call) =>
      if s.unit.Over? && s.row.Some? {
        FinalizedAttempt(s.row.value, fence, s.unit.exit, now);
        if Current(s, fence) {
          FinalizedKeepsEnds(s.row.value, fence, s.unit.exit, now, s.finalized);
          EndedFits(Next(s, fence, step).row.value, Next(s, fence, step).unit, s.started);
        }
      }
    case TryResume(failed) =>
      if s.unit.Parked? && Current(s, fence) {
        ResumedFits(s.row.value, fence, s.unit, s.started);
        EndedFits(s.row.value, Next(s, fence, step).unit, s.started);
      }
    case Start =>
      if s.unit.Waiting? && s.started && Current(s, fence) {
        StartFits(s.row.value, s.started);
      }
    case _ =>
      if Current(s, fence) {
        if s.unit.Running? {
          MovedFits(s.row.value, s.unit.stage, s.unit.operationTry, s.started);
        }
        EndedFits(s.row.value, Next(s, fence, step).unit, s.started);
      }
  }

  lemma StartFits(row: Row, started: bool)
    requires UnitInv(row, Waiting, started) && started
    ensures UnitInv(row, Running(Materialize, 0), started)
  {
  }

  lemma SubmitFence(row: Row, owner: Owner, revision: int, now: Time)
    requires RetryRuns.SubmitRun(row, owner, revision, now).Ok?
    ensures var next := RetryRuns.SubmitRun(row, owner, revision, now).value.0;
            next.id == row.id && next.workflowAttempt == row.workflowAttempt
            && next.workflowExecutionId == row.workflowExecutionId
  {
    hide IsComplete, IsAllowedCorrection;
  }

  lemma {:induction false} EndsRun(s: System, fence: Fence, steps: seq<Step>)
    requires EndsInv(s, fence)
    ensures EndsInv(Ran(s, fence, steps), fence)
    decreases |steps|
  {
    hide EndsInv, Next;
    if steps != [] {
      EndsStep(s, fence, steps[0]);
      EndsRun(Next(s, fence, steps[0]), fence, steps[1..]);
    }
  }

  // ---------- what the row tells ----------

  /** The import waits for Retry(n), or will as soon as the answer of its recording is kept. */
  ghost predicate Awaits(row: Row, unit: Import, n: int) {
    || (unit.Parked? && unit.awaited == n)
    || (unit.Recording? && KeyOf(unit.stage, unit.operationTry) in row.checkpoint.importFailureReceipts
        && row.checkpoint.importFailureReceipts[KeyOf(unit.stage, unit.operationTry)] == n)
  }

  /** A stopped row whose gate is Retry(n) tells by its receipts who waits for n. Without a
      receipt n the failure is the finalizer's: the execution has ended and nobody waits. With
      one it is a stage's: the import waits for n, or its execution has ended without its
      finalizer recording anything. */
  lemma {:induction false} GateTellsWhoWaits(s: System, fence: Fence, steps: seq<Step>, n: int, phase: RetryPhase)
    requires Begins(s, fence) && Current(Ran(s, fence, steps), fence)
    requires var row := Ran(s, fence, steps).row.value;
             Stopped(row) && row.checkpoint.currentGate == Some(Retry(n, phase))
    ensures var t := Ran(s, fence, steps);
            && phase.ImportPhase? && n == t.row.value.failureSequence
            && (HasReceipt(t.row.value, n) <==> t.finalized != Some(n))
            && (!HasReceipt(t.row.value, n) ==> t.unit.Over?)
            && (HasReceipt(t.row.value, n) ==> Awaits(t.row.value, t.unit, n) || (t.unit.Over? && t.finalized.None?))
  {
    EndsRun(s, fence, steps);
    hide OfEarlier, KeyOf, Ran;
    var unit := Ran(s, fence, steps).unit;
    if unit.Recording? {
      NotItsOwn(unit.stage, unit.operationTry);
    }
  }

  /** So a run that such a row accepts is heard exactly when the row has the receipt and its
      execution has not ended unreported. */
  lemma {:induction false} AcceptedRunIsHeardIff(
      s: System, fence: Fence, steps: seq<Step>, owner: Owner, revision: int, now: Time)
    requires Begins(s, fence) && Current(Ran(s, fence, steps), fence)
    requires var row := Ran(s, fence, steps).row.value;
             && row.checkpoint.currentGate.Some? && row.checkpoint.currentGate.value.Retry?
             && RetryRuns.SubmitRun(row, owner, revision, now).Ok?
    ensures var t := Ran(s, fence, steps);
            var n := t.row.value.failureSequence;
            Awaits(t.row.value, t.unit, n) <==>
              HasReceipt(t.row.value, n) && !(t.unit.Over? && t.finalized.None?)
  {
    StoppedWhenAccepted(Ran(s, fence, steps).row.value, owner, revision, now);
    EndsRun(s, fence, steps);
    var row := Ran(s, fence, steps).row.value;
    GateTellsWhoWaits(s, fence, steps, row.failureSequence, ImportPhase);
  }

  lemma StoppedWhenAccepted(row: Row, owner: Owner, revision: int, now: Time)
    requires RetryRuns.SubmitRun(row, owner, revision, now).Ok?
    ensures Stopped(row)
  {
    hide IsComplete, IsAllowedCorrection;
  }

  // ---------- a run that nobody hears ----------

  /** The owner saves complete answers and runs the import; a stage fails, and so does the query
      that records its failure. The execution ends, and its finalizer records a failure that may
      be retried. */
  function UnheardRun(row: Row, c: Configuration, t: Time): seq<Step> {
    [Other(Event(MigrationRuns.Mutate(row.owner, row.revision, SaveConfiguration(c, [])), t)),
     Submit(row.owner, row.revision + 1, t), Start, FailTransiently(DATABASE_FAILED),
     Record(t, Errored(false)), Finalize(t, Recorded)]
  }

  predicate CanImport(row: Row, c: Configuration) {
    && row.cleanupExecutionId.None? && row.destinationProjectId.None? && row.checkpoint.scan.Some?
    && IsComplete(c, row.checkpoint.scan.value.requirements)
  }

  function Saved(row: Row, c: Configuration, t: Time): Row {
    row.(status := Ready, phase := "ready", configuration := Some(c), failureReason := None, failureRetryable := None,
         finishedAt := None, retainedUntil := None, revision := row.revision + 1, updatedAt := t)
  }

  lemma SaveStep(s: System, fence: Fence, c: Configuration, t: Time)
    requires Begins(s, fence) && CanImport(s.row.value, c)
    ensures Next(s, fence, UnheardRun(s.row.value, c, t)[0]) == s.(row := Some(Saved(s.row.value, c, t)))
  {
    hide IsComplete, IsAllowedCorrection;
  }

  lemma SubmitSaved(row: Row, c: Configuration, t: Time)
    requires CanImport(row, c) && FenceFor(row).Some?
    requires row.scanAt.Some? && row.checkpoint.currentGate == Some(StartImport(row.scanRevision))
    ensures var submitted := RetryRuns.SubmitRun(Saved(row, c, t), row.owner, row.revision + 1, t);
            && submitted.Ok? && submitted.value.1 == StartImport(row.scanRevision)
            && var next := submitted.value.0;
            && next.status == Migrating && next.configuration == Some(c) && next.checkpoint.accepted.Some?
            && next.checkpoint.accepted.value.configuration == c
            && next.checkpoint == row.checkpoint.(accepted := next.checkpoint.accepted)
            && next == Saved(row, c, t).(status := Migrating, phase := "migrate", checkpoint := next.checkpoint,
                                         revision := row.revision + 2, updatedAt := t)
  {
    hide IsComplete, IsAllowedCorrection;
  }

  /** What the finalizer leaves accepts the owner's next run. */
  lemma FinalizedAccepts(row: Row, fence: Fence, c: Configuration, t: Time)
    requires FenceHolds(row, fence) && row.cleanupExecutionId.None? && row.scanAt.Some? && row.status == Migrating
    requires row.configuration == Some(c) && row.checkpoint.accepted.Some? && row.checkpoint.scan.Some?
    requires IsComplete(c, row.checkpoint.scan.value.requirements)
    ensures var (next, sequence) := Finalized(row, fence, FailedWith(DATABASE_FAILED), t);
            && sequence == Some(row.failureSequence + 1) && next.failureSequence == row.failureSequence + 1
            && FenceHolds(next, fence) && next.owner == row.owner
            && next.checkpoint == row.checkpoint.(currentGate := Some(Retry(row.failureSequence + 1, ImportPhase)))
            && RetryRuns.SubmitRun(next, next.owner, next.revision, t).Ok?
  {
    hide IsComplete, IsAllowedCorrection;
  }

  lemma RanSix(s: System, fence: Fence, steps: seq<Step>)
    requires |steps| == 6
    ensures Ran(s, fence, steps) ==
            Next(Next(Next(Next(Next(Next(s, fence, steps[0]), fence, steps[1]), fence, steps[2]), fence, steps[3]),
                      fence, steps[4]), fence, steps[5])
  {
    hide Next;
    assert steps[1..][1..] == steps[2..] && steps[2..][1..] == steps[3..] && steps[3..][1..] == steps[4..];
    assert steps[4..][1..] == steps[5..] && steps[5..][1..] == [];
    var s1 := Next(s, fence, steps[0]);
    var s2 := Next(s1, fence, steps[1]);
    var s3 := Next(s2, fence, steps[2]);
    var s4 := Next(s3, fence, steps[3]);
    var s5 := Next(s4, fence, steps[4]);
    var s6 := Next(s5, fence, steps[5]);
    assert Ran(s5, fence, steps[5..]) == s6;
    assert Ran(s4, fence, steps[4..]) == s6;
    assert Ran(s3, fence, steps[3..]) == s6;
    assert Ran(s2, fence, steps[2..]) == s6;
    assert Ran(s1, fence, steps[1..]) == s6;
  }

  /** The row when the import has started. */
  function Migrated(row: Row, c: Configuration, t: Time): Row
    requires RetryRuns.SubmitRun(Saved(row, c, t), row.owner, row.revision + 1, t).Ok?
  {
    RetryRuns.SubmitRun(Saved(row, c, t), row.owner, row.revision + 1, t).value.0
  }

  lemma UnheardRunEnds(s: System, fence: Fence, c: Configuration, t: Time)
    requires Begins(s, fence) && CanImport(s.row.value, c)
    requires RetryRuns.SubmitRun(Saved(s.row.value, c, t), s.row.value.owner, s.row.value.revision + 1, t).Ok?
    ensures var (row, sequence) := Finalized(Migrated(s.row.value, c, t), fence, FailedWith(DATABASE_FAILED), t);
            Ran(s, fence, UnheardRun(s.row.value, c, t)) == System(Some(row), Over(FailedWith(DATABASE_FAILED), true), true, s.retries, sequence)
  {
    var row, steps := s.row.value, UnheardRun(s.row.value, c, t);
    RanSix(s, fence, steps);
    SaveStep(s, fence, c, t);
    SubmitSaved(row, c, t);
    hide IsComplete, IsAllowedCorrection, RetryRuns.SubmitRun, Finalized, Apply, Foreign, RecordImportFailure, Saved, CanImport;
    var s2 := System(Some(Migrated(row, c, t)), Waiting, true, s.retries, None);
    assert Next(s.(row := Some(Saved(row, c, t))), fence, steps[1]) == s2;
    StageEnds(s2, fence, t);
    FinalizeStep(s2.(unit := Ended(FailedWith(DATABASE_FAILED))), fence, t);
  }

  /** After it the row accepts a run, and its execution has ended: nobody hears that run. */
  lemma EndedExecutionAcceptsRun(s: System, fence: Fence, c: Configuration, t: Time)
    requires Begins(s, fence) && CanImport(s.row.value, c)
    ensures var end := Ran(s, fence, UnheardRun(s.row.value, c, t));
            && Current(end, fence) && end.unit.Over? && end.finalized == Some(end.row.value.failureSequence)
            && end.row.value.checkpoint.currentGate == Some(Retry(end.row.value.failureSequence, ImportPhase))
            && !HasReceipt(end.row.value, end.row.value.failureSequence)
            && RetryRuns.SubmitRun(end.row.value, end.row.value.owner, end.row.value.revision, t).Ok?
  {
    SubmitSaved(s.row.value, c, t);
    UnheardRunEnds(s, fence, c, t);
    FinalizedAccepts(Migrated(s.row.value, c, t), fence, c, t);
    hide IsComplete, RetryRuns.SubmitRun, Finalized, Ran, UnheardRun, Migrated;
  }

  /** A stage that starts and fails, and whose failure cannot be recorded, ends the execution. */
  lemma StageEnds(s: System, fence: Fence, t: Time)
    requires s.row.Some? && s.unit.Waiting? && s.started
    ensures Next(Next(Next(s, fence, Start), fence, FailTransiently(DATABASE_FAILED)), fence, Record(t, Errored(false)))
            == s.(unit := Ended(FailedWith(DATABASE_FAILED)))
  {
    hide RecordImportFailure, Apply, RetryRuns.SubmitRun, Finalized, Foreign, ResumeImport;
  }

  lemma FinalizeStep(s: System, fence: Fence, t: Time)
    requires s.row.Some? && s.unit == Ended(FailedWith(DATABASE_FAILED))
    ensures var (row, sequence) := Finalized(s.row.value, fence, FailedWith(DATABASE_FAILED), t);
            Next(s, fence, Finalize(t, Recorded))
            == System(Some(row), Over(FailedWith(DATABASE_FAILED), true), s.started, s.retries,
                      if sequence.Some? then sequence else s.finalized)
  {
    hide RecordImportFailure, Apply, RetryRuns.SubmitRun, Finalized, Foreign, ResumeImport;
  }

  const NO_QUESTIONS := Requirements([], [], [], [], [], [], [], [], [])
  const NO_ANSWERS := Configuration("", [], [], [], [], [], [], Some(Exclude), [], false)

  lemma NothingAsked()
    ensures IsComplete(NO_ANSWERS, NO_QUESTIONS)
  {
    assert |set k: string | k in []| == 0;
  }

  /** There is such a start: the scan of a project in which nothing is asked. */
  lemma ImportCanBegin()
    ensures exists s, fence :: Begins(s, fence) && CanImport(s.row.value, NO_ANSWERS)
  {
    NothingAsked();
    var created := CreatedRow(CreateInput(Owner("org", "user"), "request", "source", "execution"), 0);
    var fence := Fence("execution", "execution", 1);
    var manifest := ArtifactRef("key", "sha", 1, "application/json");
    var row := CompleteScan(created, fence, manifest, 1, NO_QUESTIONS, 1).0;
    var s := System(Some(row), Waiting, false, {}, None);
    assert Begins(s, fence) && CanImport(s.row.value, NO_ANSWERS);
  }
}
