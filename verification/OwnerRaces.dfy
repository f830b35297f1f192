/** The owner's mutations read the row, decide, and update it conditionally later. Between
    the two the row may go through any run. When is the pair as good as one atomic step? */
module OwnerRaces {
  import opened Wrappers
  import opened JiraConfiguration
  import opened MigrationRow
  import opened MigrationSpec
  import opened MigrationRuns

  /** A saved configuration, a run or a cancel commits exactly when the revision it was
      planned on is still current, and then it does what the whole mutation would do if it
      were planned and committed at that later moment. */
  lemma OwnerMutationsAreAtomic(
      read: Row, owner: Owner, revision: int, command: OwnerCommand, patch: OwnerPatch, planned: Time,
      events: seq<Event>, committed: Time)
    requires RowInv(read)
    requires PlanOwner(read, owner, revision, command, planned) == Ok(patch)
    requires After(Some(read), events).Some?
    ensures var later := After(Some(read), events).value;
            && (CommitOwner(later, read, revision, patch, committed).Some? <==> later.revision == revision)
            && (later.revision == revision ==>
                  PlanOwner(later, owner, revision, command, planned) == Ok(patch))
  {
    SameRevisionSameRow(read, events);
    AttemptsNeverDecrease(read, events);
  }

  /** The unresolved attachments a configuration is checked against, read in a step of their
      own, are still the row's when the configuration that names that revision is saved. */
  lemma UnresolvedListIsCurrent(read: Row, events: seq<Event>)
    requires RowInv(read)
    ensures var later := After(Some(read), events);
            later.Some? && later.value.revision == read.revision ==> UnresolvedIn(later.value) == UnresolvedIn(read)
  {
    SameRevisionSameRow(read, events);
  }

  /** A rescan prepared on a row without a hidden destination project never advances a row
      that has one. */
  lemma RescanFindsNoHiddenProject(prepared: Row, input: RescanInput, events: seq<Event>, t: Time)
    requires RowInv(prepared) && prepared.destinationProjectId.None?
    requires input.expectedRevision == prepared.revision
    ensures var later := After(Some(prepared), events);
            later.Some? && BeginRescan(later.value, input, t).0 != later.value
            ==> later.value.destinationProjectId.None? && SameVersion(prepared, later.value)
  {
    SameRevisionSameRow(prepared, events);
  }

  // ---------- the rescan ----------

  /** The two-step rescan ends as the atomic one would at the moment of its commit. */
  ghost predicate RescanAsAtomic(read: Row, input: RescanInput, events: seq<Event>, t: Time) {
    var later := After(Some(read), events);
    later.Some? && CommitRescan(later.value, read, input, t).Some? ==>
      BeginRescan(later.value, input, t).0 == CommitRescan(later.value, read, input, t).value
  }

  /** The guard that decides it: in a failed first scan a write may still set the marker,
      which moves no revision. */
  predicate WritesMayStart(row: Row) {
    row.scanAt.None? && row.status in {Failed, ReconnectRequired}
  }

  ghost predicate NoMarkerYet(read: Row, r: Option<Row>) {
    NoEarlier(read, r) && Inv(r) && (r.Some? && r.value.revision == read.revision ==> r.value.checkpoint.remoteWrites.None?)
  }

  lemma NoMarkerStep(read: Row, input: RescanInput, r: Option<Row>, e: Event)
    requires PlanRescan(read, input) == Proceed && !WritesMayStart(read)
    requires NoMarkerYet(read, r)
    ensures NoMarkerYet(read, Apply(r, e))
  {
    hide IsComplete, IsAllowedCorrection;
    InvStep(r, e);
    RevisionStep(read, r, e);
    if r.Some? && !e.op.BeginWrites? {
      RevisionMoves(r.value, e);
      ColumnWriters(r.value, e);
    }
  }

  lemma SafeRescanIsAtomic(read: Row, input: RescanInput, events: seq<Event>, t: Time)
    requires RowInv(read) && PlanRescan(read, input) == Proceed && !WritesMayStart(read)
    ensures RescanAsAtomic(read, input, events, t)
  {
    var inv := (r: Option<Row>) => NoMarkerYet(read, r);
    EveryRunFollows(Some(read), events, Any);
    forall r: Option<Row>, e: Event | inv(r) ensures inv(Apply(r, e)) {
      NoMarkerStep(read, input, r, e);
    }
    KeptOverRuns(Some(read), events, Any, inv);
  }

  /** Otherwise one accepted remote write between the read and the update is enough: the
      update goes through and throws the marker of that write away. */
  lemma RescanDropsMarker(read: Row, input: RescanInput, t: Time)
    requires RowInv(read) && PlanRescan(read, input) == Proceed && WritesMayStart(read)
    ensures var write := Event(BeginWrites(FenceFor(read).value), t);
            && !RescanAsAtomic(read, input, [write], t)
            && Apply(Some(read), write).value.checkpoint.remoteWrites.Some?
            && CommitRescan(Apply(Some(read), write).value, read, input, t).Some?
            && CommitRescan(Apply(Some(read), write).value, read, input, t).value.checkpoint.remoteWrites.None?
  {
    var write := Event(BeginWrites(FenceFor(read).value), t);
    assert After(Some(read), [write]) == After(Apply(Some(read), write), []);
  }

  /** So a planned rescan is atomic, whatever happens before its update, if and only if no
      write may start on the row it read. */
  lemma RescanAtomicIff(read: Row, input: RescanInput)
    requires RowInv(read) && PlanRescan(read, input) == Proceed
    ensures (forall events: seq<Event>, t: Time :: RescanAsAtomic(read, input, events, t)) <==> !WritesMayStart(read)
  {
    if WritesMayStart(read) {
      RescanDropsMarker(read, input, 0);
    } else {
      forall events: seq<Event>, t: Time ensures RescanAsAtomic(read, input, events, t) {
        SafeRescanIsAtomic(read, input, events, t);
      }
    }
  }

  /** A planned rescan as it ends: its update, or, when that finds nothing to update, what a
      second look at the row says. */
  function FinishRescan(current: Row, read: Row, input: RescanInput, now: Time): (Row, Result<Row, Error>) {
    match CommitRescan(current, read, input, now)
    case Some(updated) => (updated, Ok(updated))
    case None => (current, if IsRescanTarget(current, input) then Ok(current) else Err(RevisionConflict))
  }

  /** The service and the new execution may both plan a rescan before either updates. Once one
      of them has updated, the other never moves the row again, whatever happens in between, and
      succeeds by its second look exactly while the row is still in the new attempt. */
  lemma RacingRescansAgree(read: Row, other: Row, input: RescanInput, before: seq<Event>, committed: Time,
                           between: seq<Event>, t: Time)
    requires RowInv(read) && PlanRescan(read, input) == Proceed && PlanRescan(other, input) == Proceed
    requires After(Some(read), before).Some?
    requires CommitRescan(After(Some(read), before).value, read, input, committed).Some?
    ensures var next := CommitRescan(After(Some(read), before).value, read, input, committed).value;
            var later := After(Some(next), between);
            later.Some? ==>
              var (row, outcome) := FinishRescan(later.value, other, input, t);
              && row == later.value
              && outcome == if later.value.workflowAttempt == input.workflowAttempt then Ok(row) else Err(RevisionConflict)
  {
    var next := CommitRescan(After(Some(read), before).value, read, input, committed).value;
    SameRevisionSameRow(read, before);
    AttemptsNeverDecrease(next, between);
    KeepsRowInv(next, between);
  }

  lemma KeepsRowInv(row: Row, events: seq<Event>)
    requires RowInv(row)
    ensures Inv(After(Some(row), events))
  {
    EveryRunFollows(Some(row), events, Any);
    forall r: Option<Row>, e: Event | Inv(r) ensures Inv(Apply(r, e)) {
      InvStep(r, e);
    }
    KeptOverRuns(Some(row), events, Any, Inv);
  }

  /** Such a row exists: a first scan that failed and may be retried. */
  lemma UnsafeRescanExists()
    ensures exists read: Row, input: RescanInput ::
              RowInv(read) && PlanRescan(read, input) == Proceed && WritesMayStart(read)
  {
    var created := CreatedRow(CreateInput(Owner("org", "user"), "request", "source", "execution"), 0);
    var fence := Fence("execution", "execution", 1);
    var read := RecordScanFailure(created, fence, "account/0", Failure("jira_server_error", true, false), 1).0;
    var input := RescanInput("execution", "execution", read.revision, 2, 2, "next");
    assert "next"[0] != "execution"[0];
    assert RowInv(read) && PlanRescan(read, input) == Proceed && WritesMayStart(read);
  }
}
