/** The configuration a migration runs with, over every run in which patches leave the row's
    protocol columns alone. The unresolved list given to a save is the one the row has at the
    revision it names (OwnerRaces.UnresolvedListIsCurrent), and no rescan starts over a hidden
    destination project (OwnerRaces.RescanFindsNoHiddenProject). */
module ConfigurationRuns {
  import opened Wrappers
  import opened JiraConfiguration
  import opened MigrationRow
  import opened MigrationSpec
  import opened MigrationRuns

  /** A patch that leaves status (except for success), scan, progress and receipts alone and
      touches the destination only while the import runs. */
  predicate Polite(row: Row, p: ProjectionPatch) {
    && (p.status.None? || p.status == Some(Succeeded))
    && p.scanAt.Keep? && p.progressDone.None?
    && (p.checkpoint.Some? ==>
          && p.checkpoint.value.importFailureReceipts.None? && p.checkpoint.value.failedAttachments.None?
          && p.checkpoint.value.scan.None?)
    && (p.destinationProjectId.Keep? || row.status == Migrating)
  }

  ghost predicate Allowed(r: Option<Row>, e: Event) {
    r.Some? ==>
      && (e.op.AdvanceRow? ==> Polite(r.value, e.op.patch))
      && (e.op.Rescan? ==> r.value.destinationProjectId.None?)
      && (e.op.Mutate? && e.op.command.SaveConfiguration? ==> e.op.command.unresolved == UnresolvedIn(r.value))
  }

  ghost predicate RunsAccepted(row: Row) {
    row.status == Migrating ==>
      && row.checkpoint.accepted.Some? && row.checkpoint.scan.Some?
      && row.configuration == Some(row.checkpoint.accepted.value.configuration)
      && IsComplete(row.configuration.value, row.checkpoint.scan.value.requirements)
  }

  ghost predicate CorrectsAccepted(row: Row) {
    row.destinationProjectId.Some? ==>
      && row.checkpoint.accepted.Some? && row.configuration.Some?
      && (row.configuration.value == row.checkpoint.accepted.value.configuration
          || IsAllowedCorrection(row.checkpoint.accepted.value.configuration, row.configuration.value, UnresolvedIn(row)))
  }

  ghost predicate ConfigInv(r: Option<Row>) {
    r.Some? ==> RunsAccepted(r.value) && CorrectsAccepted(r.value)
  }

  lemma SavedConfigurationStep(row: Row, e: Event)
    requires RunsAccepted(row) && CorrectsAccepted(row) && Allowed(Some(row), e) && e.op.Mutate?
    ensures ConfigInv(Apply(Some(row), e))
  {
    match e.op.command
    case SaveConfiguration(_, _) =>
    case Run =>
    case Cancel =>
  }

  /** What every event but an owner mutation and a rescan leaves of the configuration. */
  ghost predicate SameAnswers(a: Row, b: Row) {
    && b.configuration == a.configuration && b.checkpoint.accepted == a.checkpoint.accepted
    && (b.status == Migrating ==> a.status == Migrating && b.checkpoint.scan == a.checkpoint.scan)
    && (b.destinationProjectId.Some? ==> a.destinationProjectId.Some? || a.status == Migrating)
    && (a.status == Migrating || b.checkpoint.failedAttachments == a.checkpoint.failedAttachments)
  }

  lemma AnswersStep(row: Row, e: Event)
    requires Allowed(Some(row), e) && !e.op.Mutate? && !e.op.Rescan?
    ensures Apply(Some(row), e).Some? ==> SameAnswers(row, Apply(Some(row), e).value)
  {
    hide IsComplete, IsAllowedCorrection;
    match e.op
    case BeginWrites(_) =>
    case SettleWrites(_) =>
    case AttachmentOutcome(_, _, _, _) =>
    case AdvanceRow(_, _) =>
    case Fail(_, _) =>
    case ScanFailure(_, _, _) =>
    case ImportFailure(_, _, _) =>
    case Resume(_, _) =>
    case Progress(_, _, _) =>
    case Scanned(_, _, _, _) =>
    case _ =>
  }

  lemma ConfigStep(r: Option<Row>, e: Event)
    requires ConfigInv(r) && Allowed(r, e)
    ensures ConfigInv(Apply(r, e))
  {
    if r.Some? && e.op.Mutate? {
      SavedConfigurationStep(r.value, e);
    } else if r.Some? && !e.op.Rescan? {
      AnswersStep(r.value, e);
    }
  }

  /** A row that is migrating runs exactly the configuration the owner saved, and that
      configuration is complete for the scan it answers. */
  lemma MigratingRunsTheSavedConfiguration(input: CreateInput, created: Time, events: seq<Event>)
    requires Follows(Some(CreatedRow(input, created)), events, Allowed)
    ensures ConfigInv(After(Some(CreatedRow(input, created)), events))
    ensures var r := After(Some(CreatedRow(input, created)), events);
            r.Some? && r.value.status == Migrating ==>
              r.value.configuration.Some? && r.value.checkpoint.scan.Some?
              && AnswersAll(r.value.configuration.value, r.value.checkpoint.scan.value.requirements)
  {
    var row := Some(CreatedRow(input, created));
    var end := After(row, events);
    forall r: Option<Row>, e: Event | ConfigInv(r) && Allowed(r, e) ensures ConfigInv(Apply(r, e)) {
      ConfigStep(r, e);
    }
    KeptOverRuns(row, events, Allowed, ConfigInv);
    hide AnswersAll, IsComplete;
    if end.Some? && end.value.status == Migrating {
      CompleteIff(end.value.configuration.value, end.value.checkpoint.scan.value.requirements);
    }
  }

  // ---------- while the hidden destination project exists ----------

  ghost predicate KeepsDestination(r: Option<Row>, e: Event) {
    Allowed(r, e) && Apply(r, e).Some? && Apply(r, e).value.destinationProjectId.Some?
  }

  function AcceptedOf(r: Option<Row>): Option<Configuration> {
    if r.None? || r.value.checkpoint.accepted.None? then None
    else Some(r.value.checkpoint.accepted.value.configuration)
  }

  /** One event changes the accepted configuration, if at all, by an allowed correction for
      the attachments the row lists as unresolved. */
  lemma AcceptedStep(r: Option<Row>, e: Event)
    requires ConfigInv(r) && r.Some? && r.value.destinationProjectId.Some? && KeepsDestination(r, e)
    ensures AcceptedOf(r).Some? && AcceptedOf(Apply(r, e)).Some?
    ensures AcceptedOf(Apply(r, e)) == AcceptedOf(r)
            || IsAllowedCorrection(AcceptedOf(r).value, AcceptedOf(Apply(r, e)).value, UnresolvedIn(r.value))
  {
    ConfigStep(r, e);
    if !e.op.Mutate? && !e.op.Rescan? {
      AnswersStep(r.value, e);
    }
  }

  /** Successive accepted configurations differ only by a growing set of skipped attachments. */
  ghost predicate OnlySkipsGrow(a: Configuration, b: Configuration) {
    && a == b.(skippedAttachmentIds := a.skippedAttachmentIds, attachmentSkipsAccepted := a.attachmentSkipsAccepted)
    && (forall id :: id in a.skippedAttachmentIds ==> id in b.skippedAttachmentIds)
  }

  lemma {:induction false} AcceptedOnlyGrows(r: Option<Row>, events: seq<Event>)
    requires ConfigInv(r) && r.Some? && r.value.destinationProjectId.Some?
    requires Follows(r, events, KeepsDestination)
    ensures AcceptedOf(r).Some? && AcceptedOf(After(r, events)).Some?
    ensures OnlySkipsGrow(AcceptedOf(r).value, AcceptedOf(After(r, events)).value)
    decreases |events|
  {
    if events != [] {
      AcceptedStep(r, events[0]);
      ConfigStep(r, events[0]);
      AcceptedOnlyGrows(Apply(r, events[0]), events[1..]);
    }
  }

  ghost predicate UnresolvedAt(r: Option<Row>, id: string) {
    r.Some? && id in UnresolvedIn(r.value)
  }

  /** Every attachment that became skipped was, at some state of the run, recorded as failed
      and unresolved. */
  lemma {:induction false} NewSkipsWereUnresolved(r: Option<Row>, events: seq<Event>, id: string)
    requires ConfigInv(r) && r.Some? && r.value.destinationProjectId.Some?
    requires Follows(r, events, KeepsDestination)
    requires AcceptedOf(r).Some? && AcceptedOf(After(r, events)).Some?
    requires id in AcceptedOf(After(r, events)).value.skippedAttachmentIds
    requires id !in AcceptedOf(r).value.skippedAttachmentIds
    ensures exists k: nat :: k <= |events| && UnresolvedAt(After(r, events[..k]), id)
    decreases |events|
  {
    var next := Apply(r, events[0]);
    AcceptedStep(r, events[0]);
    ConfigStep(r, events[0]);
    if id in AcceptedOf(next).value.skippedAttachmentIds {
      assert UnresolvedAt(After(r, events[..0]), id);
    } else {
      NewSkipsWereUnresolved(next, events[1..], id);
      var rest: nat :| rest <= |events[1..]| && UnresolvedAt(After(next, events[1..][..rest]), id);
      assert events[..rest + 1][0] == events[0] && events[..rest + 1][1..] == events[1..][..rest];
      assert UnresolvedAt(After(r, events[..rest + 1]), id);
    }
  }
}
