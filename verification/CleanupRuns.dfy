/** A cleanup execution (CleanupWorkflow.ts) interleaved with everybody else: it claims the
    row's cleanup lock, deletes external state stage by stage, and completes or, on any
    failure, tries to release. Activities may be executed again before their result is
    recorded, and a database call may fail, before or after it took effect. */
module CleanupRuns {
  import opened Wrappers
  import opened JiraConfiguration
  import opened MigrationRow
  import opened MigrationSpec
  import opened MigrationRuns

  datatype Stage =
    | VerifyArchive | CopiedObjects | PendingAttachments | HiddenDocuments | HiddenProject | PrivateStaging

  function StagesOf(mode: CleanupMode): seq<Stage> {
    if mode.PostSuccess? then [VerifyArchive, PrivateStaging]
    else [CopiedObjects, PendingAttachments, HiddenDocuments, HiddenProject]
         + (if mode.ResetImport? then [] else [PrivateStaging])
  }

  datatype Pc = Claiming | Working(stage: nat) | Completed | Failing | Released

  /** `log` records every external stage that was started, with the row it started on;
      `projectExists` is whether the hidden project is still indexed; `claimed` is the row as
      the claim left it; `completed` and `released` say that the update of the completion, or
      the one of the release, went through. */
  datatype System = System(
    row: Option<Row>, pc: Pc, finished: seq<Stage>, log: seq<(Stage, Option<Row>)>, projectExists: bool,
    claimed: Option<Row>, completed: bool, released: bool)

  datatype Payload = Payload(mode: CleanupMode, generation: int, executionId: string)

  datatype Step =
    | ClaimStep(now: Time, call: Call)
    | StageStep(ok: bool, recorded: bool)
    | CompleteStep(now: Time, call: Call)
    | ReleaseStep(now: Time, call: Call)
    | OtherStep(event: Event)

  ghost function ClaimOf(s: System, p: Payload, now: Time): (Option<Row>, bool) {
    if s.row.None? || FenceFor(s.row.value).None? then (s.row, false)
    else
      var (row, ok) := ClaimCleanup(s.row.value, FenceFor(s.row.value).value, p.generation - 1, p.executionId, p.mode, now);
      (Some(row), ok)
  }

  /** The complete stage: a discarded row that is gone counts as completed; otherwise the lock
      must still be held and no write be unsettled before the mode's completion is tried. */
  ghost function CompleteOf(s: System, p: Payload, now: Time): (Option<Row>, bool) {
    if s.row.None? then (None, p.mode.Discard? || p.mode.Expire?)
    else
      var row := s.row.value;
      if FenceFor(row).None? || row.cleanupExecutionId != Some(p.executionId) || row.checkpoint.remoteWrites.Some?
      then (s.row, false)
      else
        var fence := FenceFor(row).value;
        match p.mode
        case ResetImport => var (next, ok) := CompleteReset(row, fence, p.executionId, s.projectExists, now); (Some(next), ok)
        case PostSuccess => var (next, ok) := CompletePostSuccess(row, fence, p.executionId, now); (Some(next), ok)
        case _ => if DeletesAfterCleanup(row, fence, p.executionId) then (None, true) else (s.row, false)
  }

  ghost function ReleaseOf(s: System, p: Payload, now: Time): Option<Row> {
    if s.row.None? || FenceFor(s.row.value).None? then s.row
    else Some(ReleaseCleanup(s.row.value, FenceFor(s.row.value).value, p.executionId, p.mode, now).0)
  }

  /** A step that does not apply in the current state leaves the system alone. A failed release
      is only logged: the execution ends all the same. */
  ghost function Next(s: System, p: Payload, step: Step): System {
    match step
    case ClaimStep(now, call) =>
      if !s.pc.Claiming? then s
      else
        var (row, ok) := if call == Errored(false) then (s.row, false) else ClaimOf(s, p, now);
        s.(row := row,
           claimed := if ok && s.claimed.None? then row else s.claimed,
           pc := if call.Lost? then Claiming else if call.Recorded? && ok then Working(0) else Failing)
    case StageStep(ok, recorded) =>
      if !s.pc.Working? || s.pc.stage >= |StagesOf(p.mode)| then s
      else
        var stage := StagesOf(p.mode)[s.pc.stage];
        var t := s.(log := s.log + [(stage, s.row)],
                    projectExists := s.projectExists && !(ok && stage.HiddenProject?));
        if !recorded then t
        else if ok then t.(pc := Working(s.pc.stage + 1), finished := s.finished + [stage])
        else t.(pc := Failing)
    case CompleteStep(now, call) =>
      if !s.pc.Working? || s.pc.stage != |StagesOf(p.mode)| then s
      else
        var (row, ok) := if call == Errored(false) then (s.row, false) else CompleteOf(s, p, now);
        s.(row := row, completed := s.completed || ok,
           pc := if call.Lost? then s.pc else if call.Recorded? && ok then Completed else Failing)
    case ReleaseStep(now, call) =>
      if !s.pc.Failing? then s
      else
        s.(row := if call == Errored(false) then s.row else ReleaseOf(s, p, now),
           released := s.released || call != Errored(false),
           pc := if call.Lost? then Failing else Released)
    case OtherStep(event) =>
      if LocksOut(event.op, p.executionId) && ForeignClaim(event.op, p.executionId)
      then s.(row := Apply(s.row, event)) else s
  }

  /** Execution ids are unique: nobody else claims under this one. */
  ghost predicate ForeignClaim(op: Op, executionId: string) {
    op.Claim? ==> op.executionId != executionId
  }

  ghost predicate Claimable(row: Row, mode: CleanupMode) {
    row.status in CleanupStatusesFor(mode) && row.checkpoint.remoteWrites.None?
  }

  ghost predicate HoldsLock(s: System, p: Payload) {
    && s.claimed.Some? && s.row == s.claimed && RowInv(s.row.value)
    && s.row.value.cleanupExecutionId == Some(p.executionId) && Claimable(s.row.value, p.mode)
  }

  /** The lock was taken and neither completion nor release has given it back. */
  predicate Keeps(s: System) { s.claimed.Some? && !s.completed && !s.released }

  ghost predicate CleanupInv(s: System, p: Payload) {
    && Inv(s.row)
    && (if Keeps(s) then HoldsLock(s, p) else s.row.Some? ==> s.row.value.cleanupExecutionId != Some(p.executionId))
    && (s.claimed.Some? ==>
          s.claimed.value.cleanupExecutionId == Some(p.executionId) && Claimable(s.claimed.value, p.mode))
    && (s.pc.Claiming? ==> s.finished == [] && s.log == [] && !s.completed && !s.released)
    && (s.pc.Working? ==>
          && s.claimed.Some? && !s.released && (s.pc.stage < |StagesOf(p.mode)| ==> !s.completed)
          && s.pc.stage <= |StagesOf(p.mode)| && s.finished == StagesOf(p.mode)[..s.pc.stage])
    && (s.pc.Working? && HiddenProject in s.finished ==> !s.projectExists)
    && (s.pc.Completed? ==> s.completed)
    && (s.log != [] ==> s.claimed.Some?)
    && (forall i :: 0 <= i < |s.log| ==> s.log[i].1 == s.claimed)
  }

  lemma ClaimKeeps(s: System, p: Payload, now: Time, call: Call)
    requires CleanupInv(s, p)
    ensures CleanupInv(Next(s, p, ClaimStep(now, call)), p)
  {
    hide Apply, StagesOf, CompleteOf, ReleaseOf;
    if s.row.Some? && FenceFor(s.row.value).Some? {
      ClaimedRow(s.row.value, FenceFor(s.row.value).value, p, now);
    }
  }

  lemma ClaimedRow(row: Row, fence: Fence, p: Payload, now: Time)
    requires RowInv(row)
    ensures RowInv(ClaimCleanup(row, fence, p.generation - 1, p.executionId, p.mode, now).0)
  {
  }

  lemma CleanupStep(s: System, p: Payload, step: Step)
    requires CleanupInv(s, p)
    ensures CleanupInv(Next(s, p, step), p)
  {
    hide IsComplete, IsAllowedCorrection, Apply, ClaimCleanup;
    match step
    case ClaimStep(now, call) => ClaimKeeps(s, p, now, call);
    case StageStep(_, _) =>
    case CompleteStep(now, _) =>
    case ReleaseStep(now, _) =>
    case OtherStep(event) => OtherKeeps(s, p, event);
  }

  lemma OtherKeeps(s: System, p: Payload, event: Event)
    requires CleanupInv(s, p)
    ensures CleanupInv(Next(s, p, OtherStep(event)), p)
  {
    InvStep(s.row, event);
    if s.row.Some? && LocksOut(event.op, p.executionId) && ForeignClaim(event.op, p.executionId) {
      if s.row.value.cleanupExecutionId == Some(p.executionId) {
        LockStep(s.row.value, p.executionId, event);
      } else {
        NobodyElseClaims(s.row, p.executionId, event);
      }
    }
    hide ApplyToRow, StagesOf;
  }

  lemma NobodyElseClaims(r: Option<Row>, executionId: string, e: Event)
    requires Inv(r) && r.Some? && r.value.cleanupExecutionId != Some(executionId)
    requires ForeignClaim(e.op, executionId)
    ensures Apply(r, e).Some? ==> Apply(r, e).value.cleanupExecutionId != Some(executionId)
  {
    hide IsComplete, IsAllowedCorrection;
  }

  ghost function Ran(s: System, p: Payload, steps: seq<Step>): System
    decreases |steps|
  {
    if steps == [] then s else Ran(Next(s, p, steps[0]), p, steps[1..])
  }

  ghost predicate Initial(s: System, p: Payload) {
    && Inv(s.row) && s.pc.Claiming? && s.finished == [] && s.log == [] && s.claimed.None? && !s.completed && !s.released
    && (s.row.Some? ==> s.row.value.cleanupExecutionId != Some(p.executionId))
  }

  lemma {:induction false} CleanupRun(s: System, p: Payload, steps: seq<Step>)
    requires CleanupInv(s, p)
    ensures CleanupInv(Ran(s, p, steps), p)
    decreases |steps|
  {
    if steps != [] {
      CleanupStep(s, p, steps[0]);
      CleanupRun(Next(s, p, steps[0]), p, steps[1..]);
    }
  }

  /** Whatever else runs: every external deletion starts on exactly the row that was claimed,
      locked by this execution, with a status its mode may clean up and no remote write
      unsettled. */
  lemma DeletionsRunUnderTheLock(s: System, p: Payload, steps: seq<Step>, i: nat)
    requires Initial(s, p)
    requires i < |Ran(s, p, steps).log|
    ensures var t := Ran(s, p, steps);
            && t.claimed.Some? && t.log[i].1 == t.claimed
            && t.claimed.value.cleanupExecutionId == Some(p.executionId)
            && Claimable(t.claimed.value, p.mode)
  {
    CleanupRun(s, p, steps);
  }

  /** The last stage of a cleanup that still holds its lock is never refused: completing gives
      the lock back or deletes the row, and for a reset the hidden destination is gone. */
  lemma CompletionSucceeds(s: System, p: Payload, now: Time)
    requires CleanupInv(s, p) && s.pc == Working(|StagesOf(p.mode)|)
    requires s.row.Some? && s.row.value.cleanupExecutionId == Some(p.executionId)
    requires Claimable(s.row.value, p.mode)
    ensures Next(s, p, CompleteStep(now, Recorded)).pc.Completed?
    ensures var row := Next(s, p, CompleteStep(now, Recorded)).row;
            match p.mode
            case ResetImport => row.Some? && row.value.destinationProjectId.None? && row.value.cleanupExecutionId.None?
            case PostSuccess => row.Some? && row.value.checkpoint.postSuccessCleanupCompleted
                                && row.value.cleanupExecutionId.None?
            case _ => row.None?
  {
    if p.mode.ResetImport? {
      assert s.finished == StagesOf(p.mode);
      assert StagesOf(p.mode)[3] == HiddenProject;
    }
  }

  ghost predicate Locked(r: Option<Row>, executionId: string) {
    r.Some? && r.value.cleanupExecutionId == Some(executionId)
  }

  /** A cleanup that has ended, completed or failed, leaves no lock behind if and only if it
      never took the lock, or its completion or its release went through. */
  lemma {:induction false} EndedCleanupHoldsNoLockIff(s: System, p: Payload, steps: seq<Step>)
    requires Initial(s, p)
    requires Ran(s, p, steps).pc.Completed? || Ran(s, p, steps).pc.Released?
    ensures var t := Ran(s, p, steps);
            !Locked(t.row, p.executionId) <==> t.claimed.None? || t.completed || t.released
  {
    CleanupRun(s, p, steps);
  }

  /** Otherwise the row stays exactly as it was claimed, through whatever anybody does after
      the end, and no other cleanup ever gets the lock. */
  lemma {:induction false} SwallowedReleaseFreezesRow(s: System, p: Payload, steps: seq<Step>, more: seq<Step>)
    requires Initial(s, p) && Ran(s, p, steps).pc.Released? && Keeps(Ran(s, p, steps))
    ensures var t := Ran(s, p, steps);
            && Ran(t, p, more).row == t.claimed && Locked(t.claimed, p.executionId)
            && forall f, rev, id, mode, now | id != p.executionId ::
                 ClaimCleanup(t.claimed.value, f, rev, id, mode, now) == (t.claimed.value, false)
  {
    CleanupRun(s, p, steps);
    EndedStays(Ran(s, p, steps), p, more);
    CleanupRun(Ran(s, p, steps), p, more);
  }

  lemma {:induction false} EndedStays(s: System, p: Payload, steps: seq<Step>)
    requires s.pc.Released?
    ensures Ran(s, p, steps) == s.(row := Ran(s, p, steps).row)
    decreases |steps|
  {
    if steps != [] {
      hide Apply, ClaimOf, CompleteOf, ReleaseOf;
      EndedStays(Next(s, p, steps[0]), p, steps[1..]);
    }
  }

  lemma RanThree(s: System, p: Payload, a: Step, b: Step, c: Step)
    ensures Ran(s, p, [a, b, c]) == Next(Next(Next(s, p, a), p, b), p, c)
  {
    hide Next;
    assert [a, b, c][1..] == [b, c] && [b, c][1..] == [c] && [c][1..] == [];
    assert Ran(Next(Next(s, p, a), p, b), p, [c]) == Next(Next(Next(s, p, a), p, b), p, c);
    assert Ran(Next(s, p, a), p, [b, c]) == Ran(Next(Next(s, p, a), p, b), p, [c]);
  }

  /** It takes one failing stage and one failing release: on every row a cleanup can claim. */
  lemma SwallowedRelease(s: System, p: Payload, now: Time)
    requires Initial(s, p) && ClaimOf(s, p, now).1
    ensures var t := Ran(s, p, [ClaimStep(now, Recorded), StageStep(false, true), ReleaseStep(now, Errored(false))]);
            t.pc.Released? && Keeps(t) && Locked(t.row, p.executionId)
  {
    hide IsComplete, IsAllowedCorrection;
    var claim, stage, release := ClaimStep(now, Recorded), StageStep(false, true), ReleaseStep(now, Errored(false));
    RanThree(s, p, claim, stage, release);
    CleanupStep(s, p, claim);
    assert Next(s, p, claim).pc == Working(0) && |StagesOf(p.mode)| > 0;
    assert Next(Next(s, p, claim), p, stage).pc.Failing?;
  }

  /** Such a row exists: a first scan that failed for good, being discarded. */
  lemma SwallowedReleaseHappens()
    ensures exists s, p :: Initial(s, p) && ClaimOf(s, p, 2).1
  {
    var created := CreatedRow(CreateInput(Owner("org", "user"), "request", "source", "execution"), 0);
    var failed := RecordFailure(created, Fence("execution", "execution", 1), Failure("jira_forbidden", false, false), 1).0;
    var s := System(Some(failed), Claiming, [], [], false, None, false, false);
    var p := Payload(Discard, failed.revision + 1, "cleanup");
    assert Initial(s, p) && ClaimOf(s, p, 2).1;
  }

  /** The claim spent its generation, and the locked row is the claimed one. */
  ghost predicate GenerationInv(s: System, p: Payload) {
    && (s.claimed.Some? ==> s.claimed.value.revision == p.generation)
    && (s.row.Some? && s.row.value.cleanupExecutionId == Some(p.executionId) ==> s.row == s.claimed)
  }

  lemma GenerationStep(s: System, p: Payload, step: Step)
    requires CleanupInv(s, p) && GenerationInv(s, p)
    ensures GenerationInv(Next(s, p, step), p)
  {
    hide IsComplete, IsAllowedCorrection, Claimable, PageTotal;
    match step
    case ClaimStep(now, _) =>
    case StageStep(_, _) =>
    case CompleteStep(now, _) =>
    case ReleaseStep(now, _) =>
    case OtherStep(event) =>
      if s.row.Some? && LocksOut(event.op, p.executionId) && ForeignClaim(event.op, p.executionId) {
        if s.row.value.cleanupExecutionId == Some(p.executionId) {
          LockStep(s.row.value, p.executionId, event);
        } else {
          NobodyElseClaims(s.row, p.executionId, event);
        }
        hide ApplyToRow;
      }
  }

  lemma {:induction false} GenerationRun(s: System, p: Payload, steps: seq<Step>)
    requires CleanupInv(s, p) && GenerationInv(s, p)
    ensures CleanupInv(Ran(s, p, steps), p) && GenerationInv(Ran(s, p, steps), p)
    decreases |steps|
  {
    if steps != [] {
      CleanupStep(s, p, steps[0]);
      GenerationStep(s, p, steps[0]);
      hide CleanupInv, GenerationInv, Next;
      GenerationRun(Next(s, p, steps[0]), p, steps[1..]);
    }
  }

  /** What awaitReset checks on the row before it lets a rescan go on. */
  predicate AcceptsReset(row: Option<Row>, fence: Fence, generation: int) {
    && row.Some? && FenceFor(row.value) == Some(fence)
    && row.value.cleanupExecutionId.None? && row.value.destinationProjectId.None?
    && row.value.revision >= generation + 1
  }

  /** A reset that completes with its lock is accepted under the fence it was claimed with. */
  lemma AwaitedResetIsAccepted(s: System, p: Payload, steps: seq<Step>, now: Time)
    requires Initial(s, p) && p.mode.ResetImport?
    requires Ran(s, p, steps).pc == Working(|StagesOf(p.mode)|)
    requires Ran(s, p, steps).row.Some? && Ran(s, p, steps).row.value.cleanupExecutionId == Some(p.executionId)
    ensures var t := Ran(s, p, steps);
            && t.claimed.Some? && FenceFor(t.claimed.value).Some?
            && AcceptsReset(Next(t, p, CompleteStep(now, Recorded)).row, FenceFor(t.claimed.value).value, p.generation)
  {
    GenerationRun(s, p, steps);
    hide Ran;
    CompletionSucceeds(Ran(s, p, steps), p, now);
  }
}
