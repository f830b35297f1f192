/** At-least-once delivery: failure receipts and page reports count once, over every run in
    which patches leave the row's protocol columns alone. */
module ReceiptRuns {
  import opened Wrappers
  import opened JiraConfiguration
  import opened MigrationRow
  import opened MigrationSpec
  import opened MigrationRuns
  import opened ConfigurationRuns

  ghost predicate PolitePatches(r: Option<Row>, e: Event) {
    r.Some? && e.op.AdvanceRow? ==> Polite(r.value, e.op.patch)
  }

  ghost predicate CountsOnce(row: Row) {
    && row.progressDone == PageTotal(row.checkpoint.scanPages)
    && (forall k :: k in row.checkpoint.scanFailureReceipts ==>
          row.checkpoint.scanFailureReceipts[k] <= row.failureSequence)
    && (forall k :: k in row.checkpoint.importFailureReceipts ==>
          row.checkpoint.importFailureReceipts[k] <= row.failureSequence)
  }

  ghost predicate CountInv(r: Option<Row>) { r.Some? ==> CountsOnce(r.value) }

  /** What an event can do to the counters: record one page or issue one receipt. */
  ghost predicate CountersMove(a: Row, b: Row) {
    || (b.workflowAttempt > a.workflowAttempt && b.checkpoint == EMPTY_CHECKPOINT && b.progressDone == 0)
    || (&& b.failureSequence >= a.failureSequence
        && (b.checkpoint.scanPages == a.checkpoint.scanPages ==> b.progressDone == a.progressDone)
        && (b.checkpoint.scanPages != a.checkpoint.scanPages ==> b.progressDone == PageTotal(b.checkpoint.scanPages))
        && Extended(a.checkpoint.scanPages, b.checkpoint.scanPages)
        && Extended(a.checkpoint.scanFailureReceipts, b.checkpoint.scanFailureReceipts)
        && Extended(a.checkpoint.importFailureReceipts, b.checkpoint.importFailureReceipts)
        && NewAtMost(a.checkpoint.scanFailureReceipts, b.checkpoint.scanFailureReceipts, b.failureSequence)
        && NewAtMost(a.checkpoint.importFailureReceipts, b.checkpoint.importFailureReceipts, b.failureSequence))
  }

  ghost predicate Extended(a: map<string, int>, b: map<string, int>) {
    forall k :: k in a ==> k in b && b[k] == a[k]
  }

  ghost predicate NewAtMost(a: map<string, int>, b: map<string, int>, bound: int) {
    forall k :: k in b && k !in a ==> b[k] <= bound
  }

  lemma ScanReceiptStep(row: Row, e: Event)
    requires e.op.ScanFailure?
    ensures CountersMove(row, ApplyToRow(row, e.op, e.now))
  {
    hide PageTotal, RecordImportFailure, BeginRescan, OwnerMutation, Advance, EnsureHidden, Publish, RecordFailure, ResumeScan, RecordScanProgress, CompleteScan,
         FinalizeInterrupted, ClaimCleanup, ReleaseCleanup, CompletePostSuccess, CompleteReset, RecordAttachment,
         BeginRemoteWrites, SettleRemoteWrites;
  }

  lemma ImportReceiptStep(row: Row, e: Event)
    requires e.op.ImportFailure?
    ensures CountersMove(row, ApplyToRow(row, e.op, e.now))
  {
    hide PageTotal, RecordScanFailure, BeginRescan, OwnerMutation, Advance, EnsureHidden, Publish, RecordFailure, ResumeScan, RecordScanProgress, CompleteScan,
         FinalizeInterrupted, ClaimCleanup, ReleaseCleanup, CompletePostSuccess, CompleteReset, RecordAttachment,
         BeginRemoteWrites, SettleRemoteWrites;
  }

  lemma CountersStep(row: Row, e: Event)
    requires PolitePatches(Some(row), e)
    ensures Apply(Some(row), e).Some? ==> CountersMove(row, Apply(Some(row), e).value)
  {
    hide PageTotal, IsComplete, IsAllowedCorrection;
    match e.op
    case ScanFailure(_, _, _) => ScanReceiptStep(row, e);
    case ImportFailure(_, _, _) => ImportReceiptStep(row, e);
    case Progress(_, _, _) =>
    case Rescan(_) =>
    case AdvanceRow(_, _) =>
    case _ =>
      ColumnWriters(row, e);
      hide ApplyToRow;
  }

  lemma CountStep(r: Option<Row>, e: Event)
    requires CountInv(r) && PolitePatches(r, e)
    ensures CountInv(Apply(r, e))
  {
    hide IsComplete, IsAllowedCorrection;
    if r.Some? {
      CountersStep(r.value, e);
      var empty: map<string, int> := map[];
      assert PageTotal(empty) == 0;
    }
  }

  /** The progress column is the sum over the distinct recorded pages, and no receipt is
      larger than the failure sequence. */
  lemma CountersAreExact(input: CreateInput, created: Time, events: seq<Event>)
    requires Follows(Some(CreatedRow(input, created)), events, PolitePatches)
    ensures CountInv(After(Some(CreatedRow(input, created)), events))
  {
    var row := CreatedRow(input, created);
    var empty: map<string, int> := map[];
    assert PageTotal(empty) == 0;
    forall r: Option<Row>, e: Event | CountInv(r) && PolitePatches(r, e) ensures CountInv(Apply(r, e)) {
      CountStep(r, e);
    }
    KeptOverRuns(Some(row), events, PolitePatches, CountInv);
  }

  ghost predicate KeepsReceipts(a: Row, r: Option<Row>) {
    && LaterAttempt(a, r)
    && (r.Some? && r.value.workflowAttempt == a.workflowAttempt ==>
          && Extended(a.checkpoint.scanPages, r.value.checkpoint.scanPages)
          && Extended(a.checkpoint.scanFailureReceipts, r.value.checkpoint.scanFailureReceipts)
          && Extended(a.checkpoint.importFailureReceipts, r.value.checkpoint.importFailureReceipts))
  }

  lemma ReceiptsKept(row: Row, events: seq<Event>)
    requires Follows(Some(row), events, PolitePatches)
    ensures KeepsReceipts(row, After(Some(row), events))
  {
    hide IsComplete, IsAllowedCorrection;
    var inv := (r: Option<Row>) => KeepsReceipts(row, r);
    forall r: Option<Row>, e: Event | inv(r) && PolitePatches(r, e) ensures inv(Apply(r, e)) {
      AttemptStep(row, r, e);
      if r.Some? {
        CountersStep(r.value, e);
        AttemptStep(r.value, r, e);
      }
    }
    KeptOverRuns(Some(row), events, PolitePatches, inv);
  }

  /** A scan failure recorded again, at any later time and with any failure, gets the receipt
      it was given, or null when the row no longer takes failures; it changes nothing. */
  lemma ReceiptIsReplayed(row: Row, f: Fence, key: string, failure: Failure, t: Time, events: seq<Event>,
                          again: Failure, u: Time)
    requires RecordScanFailure(row, f, key, failure, t).1.Some?
    requires Follows(Some(RecordScanFailure(row, f, key, failure, t).0), events, PolitePatches)
    ensures var (next, receipt) := RecordScanFailure(row, f, key, failure, t);
            var later := After(Some(next), events);
            later.Some? ==>
              && RecordScanFailure(later.value, f, key, again, u).0 == later.value
              && (RecordScanFailure(later.value, f, key, again, u).1 == receipt
                  || RecordScanFailure(later.value, f, key, again, u).1.None?)
  {
    ReceiptsKept(RecordScanFailure(row, f, key, failure, t).0, events);
  }

  lemma ImportReceiptIsReplayed(row: Row, f: Fence, key: string, failure: Failure, t: Time, events: seq<Event>,
                                again: Failure, u: Time)
    requires RecordImportFailure(row, f, key, failure, t).1.Some?
    requires Follows(Some(RecordImportFailure(row, f, key, failure, t).0), events, PolitePatches)
    ensures var (next, receipt) := RecordImportFailure(row, f, key, failure, t);
            var later := After(Some(next), events);
            later.Some? ==>
              && RecordImportFailure(later.value, f, key, again, u).0 == later.value
              && (RecordImportFailure(later.value, f, key, again, u).1 == receipt
                  || RecordImportFailure(later.value, f, key, again, u).1.None?)
  {
    ReceiptsKept(RecordImportFailure(row, f, key, failure, t).0, events);
  }

  // ---------- repetition and order of page reports ----------

  /** Every page is always reported with the same count. */
  ghost predicate Consistent(events: seq<Event>, countOf: string -> int) {
    forall e :: e in events && e.op.Progress? ==> e.op.count == countOf(e.op.page)
  }

  ghost predicate PagesAgree(r: Option<Row>, countOf: string -> int) {
    r.Some? ==> forall p :: p in r.value.checkpoint.scanPages ==> r.value.checkpoint.scanPages[p] == countOf(p)
  }

  lemma {:induction false} PagesAgreeRun(r: Option<Row>, events: seq<Event>, countOf: string -> int)
    requires PagesAgree(r, countOf) && Consistent(events, countOf)
    ensures PagesAgree(After(r, events), countOf)
    decreases |events|
  {
    if events != [] {
      if r.Some? {
        PagesStep(r.value, events[0], countOf);
      }
      PagesAgreeRun(Apply(r, events[0]), events[1..], countOf);
    }
  }

  lemma PagesStep(row: Row, e: Event, countOf: string -> int)
    requires PagesAgree(Some(row), countOf) && (e.op.Progress? ==> e.op.count == countOf(e.op.page))
    ensures PagesAgree(Apply(Some(row), e), countOf)
  {
    hide IsComplete, IsAllowedCorrection;
    match e.op
    case Progress(_, _, _) =>
    case Rescan(_) =>
    case AdvanceRow(_, _) =>
    case _ =>
  }

  /** Whatever the repetition and the order of the page reports, and whatever else happened in
      the two runs: once the same pages are recorded, progress is the same. */
  lemma DeliveryOrderDoesNotMatter(row: Row, one: seq<Event>, two: seq<Event>, countOf: string -> int)
    requires CountsOnce(row) && PagesAgree(Some(row), countOf)
    requires Consistent(one, countOf) && Consistent(two, countOf)
    requires Follows(Some(row), one, PolitePatches) && Follows(Some(row), two, PolitePatches)
    requires After(Some(row), one).Some? && After(Some(row), two).Some?
    requires After(Some(row), one).value.checkpoint.scanPages.Keys == After(Some(row), two).value.checkpoint.scanPages.Keys
    ensures After(Some(row), one).value.progressDone == After(Some(row), two).value.progressDone
  {
    hide IsComplete, IsAllowedCorrection;
    forall r: Option<Row>, e: Event | CountInv(r) && PolitePatches(r, e) ensures CountInv(Apply(r, e)) {
      CountStep(r, e);
    }
    KeptOverRuns(Some(row), one, PolitePatches, CountInv);
    KeptOverRuns(Some(row), two, PolitePatches, CountInv);
    PagesAgreeRun(Some(row), one, countOf);
    PagesAgreeRun(Some(row), two, countOf);
    assert After(Some(row), one).value.checkpoint.scanPages == After(Some(row), two).value.checkpoint.scanPages;
  }
}
