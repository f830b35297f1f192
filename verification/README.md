# Migration, credential and integration protocols

A Dafny model of the parts of this repository in which several parties share one row, one cache
or one text, and the proofs of what they keep.

- **Jira migrations.** One row per migration is shared by workflow executions, their units, the
  owner's calls and cleanup executions. `MigrationRow` is the row, `MigrationSpec` what each
  operation does to it, `MigrationTable` a table of rows, `MigrationProjection` the service that
  runs the operations on it. `MigrationRuns` reasons about every interleaving of them;
  `OwnerRaces`, `CleanupRuns`, `ConfigurationRuns`, `ReceiptRuns`, `RetryRuns`, `ImportRuns`,
  `ImportEnds` and `RemoteWriteLock` about owners who read first and update later, cleanup
  executions, accepted configurations, receipts and pages, parked scan units, the import and its
  end, and the one-permit write lock. `JiraConfiguration` says when answers are complete.
- **Jira credentials.** `CredentialRow` is the stored connection and its atomic updates,
  `LeaseRuns` any number of refreshing workers, reconnects and disconnects over it.
- **GitHub project states.** `ProjectState` is the batched fetch, proved against paging each
  branch alone; `ProjectStateCache` and `ProjectStateCacheKey` the cache in front of it.
- **GitHub connections.** `GitHubConnections` holds integrations, installations, links,
  repositories and sessions and the transactions on them, `GitHubRuns` their runs, and
  `GitHubRaces` the runs that go wrong.
- **Canonical texts.** `CanonicalJson` and `Manifest` (over `Sorting`) for the canonical form of
  JSON values and manifests. `Adf` converts Jira documents to Markdown, over `AdfText` and
  `AdfReferences`; `AdfOutline` reads off the nodes of a document what it says, `AdfShows` what it
  means that Markdown shows that, and `AdfRewritten` the same with references rewritten; `AdfLines`
  is about layout, `AdfConversion` about placeholders, `AdfPattern`, `AdfMarkers` and
  `AdfUnmarked` about reserved markers.
- **Everhour.** `EverhourSync` is the request and claim protocol of a link, `TimeAttribution` who
  a time entry belongs to.

A conditional update or a locked transaction is one step; what reads without a lock and updates
later is two (`OwnerRaces`, `GitHubRuns`, `LeaseRuns`, the edits of `TimeAttribution`). A remote
call succeeds or fails as it likes, before or after it took effect, an activity may be executed
again before its result is recorded, and a worker may stop for good. Identifiers that the system
draws at random are fresh, seals and hashes are injective, and time is a parameter.

Some promises do not hold as they stand. Each of these comes with a case or a run that breaks it
and with the condition under which it holds: "exactly one" as a permutation, the rescan as one
step, the marker of a failed write, the lock of an ended cleanup, a run after the end of its
execution, the refresh with the stored token, equal request times, order of changes in a
changelog, webhook before the first write, late edits of a zeroed record, late repository
deliveries, overlapping reconnects, project links made while an installation goes away, active
links on active integrations, inline code of spaces only, documents without reserved markers,
marks of a reference beyond the millionth, and repository keys of owners with a NUL character.

Verify with `dafny verify dfyconfig.toml`.

## Model

| member | source | states |
|---|---|---|
| JiraConfiguration.ExactlyOne | packages/integration-jira/src/MigrationProjection.ts:242-256 | The counting loop accepts exactly when there are as many different answers as required ids and each required id is answered once, for every list, with or without repetitions |
| JiraConfiguration.ExactlyOneIsPermutation | packages/integration-jira/src/MigrationProjection.ts:242-256 | For required ids without repetition, acceptance means that the answers are a permutation of them |
| JiraConfiguration.RepeatedRequirementBreaksExactlyOne | packages/integration-jira/src/MigrationProjection.ts:242-256 | With a repeated required id, acceptance and being a permutation exclude each other: an accepted list then holds an answer nobody asked for |
| JiraConfiguration.RepeatedRequirementWitness | packages/integration-jira/src/MigrationProjection.ts:242-256 | Such a list is accepted: two answers, one of them never asked for |
| JiraConfiguration.TagKeyInjective | packages/integration-jira/src/MigrationProjection.ts:258-349 | Two tag sources share a key only when they are the same source |
| JiraConfiguration.CompleteAnswersEveryRequirement | packages/integration-jira/src/MigrationProjection.ts:258-349 | In particular, when the scan repeats no question, each of the six lists of a complete configuration is a permutation of what was asked |
| JiraConfiguration.CompleteIff | packages/integration-jira/src/MigrationProjection.ts:258-349 | A configuration is complete if and only if each of the six lists answers each question once, every chosen user is one offered, every status is an offered option or its own create option, every sprint is absent or an option of its issue, restricted content has a policy, and the skipped attachments are distinct, known, include every forced skip and are accepted when there are any |
| JiraConfiguration.CorrectionIff | packages/integration-jira/src/MigrationProjection.ts:351-372 | A configuration corrects an accepted one if and only if only its skips and their acceptance differ, no skip is dropped, and each added one is unresolved |
| JiraConfiguration.CorrectionsCompose | packages/integration-jira/src/MigrationProjection.ts:351-372 | Allowed corrections chain: skips only grow, nothing else moves, and each addition was in one of the unresolved lists |
| MigrationProjection.SumPages | packages/integration-jira/src/MigrationProjection.ts:1370-1418 | Summing recorded pages gives the same total in whatever order they come |
| MigrationProjection.JiraMigrationProjection.BeginWrites | packages/integration-jira/src/MigrationProjection.ts:699-758 | A remote write is accepted exactly when afterwards, on an unlocked row that is not being cancelled, the marker names this execution and attempt or the row needs none; a refusal changes nothing |
| MigrationProjection.JiraMigrationProjection.SettleWrites | packages/integration-jira/src/MigrationProjection.ts:759-792 | On a table that meets the row invariant, settling succeeds exactly for the current fence, and then no marker is left; a refusal changes nothing |
| MigrationProjection.JiraMigrationProjection.RecordAttachmentOutcome | packages/integration-jira/src/MigrationProjection.ts:793-871 | An outcome is recorded exactly for the accepted configuration revision of a migrating row; the unresolved ids are then the earlier ones with the id or without it, each once |
| MigrationProjection.JiraMigrationProjection.UnresolvedFailedAttachments | packages/integration-jira/src/MigrationProjection.ts:872-897 | The unresolved ids are answered exactly for the row, revision and hidden project asked about, and refused otherwise |
| MigrationProjection.JiraMigrationProjection.EnsureCreated | packages/integration-jira/src/MigrationProjection.ts:917-964 | Creation is idempotent, never overwrites and keeps the table sound: it succeeds exactly when the request's row is this execution's, for this source |
| MigrationProjection.JiraMigrationProjection.Rescan | packages/integration-jira/src/MigrationProjection.ts:965-1047 | A rescan succeeds exactly when the row afterwards belongs to the new execution and attempt; it moves only a row whose attempt it supersedes, leaves a fresh scan under which no fence of the old attempt holds, and a refusal changes nothing and says why |
| MigrationProjection.JiraMigrationProjection.AdvanceRow | packages/integration-jira/src/MigrationProjection.ts:1074-1109 | A patch is applied exactly under its fence, without a cleanup lock and before an end state: each column it sets has the value it gives, and the six protocol keys, the failure sequence and the configuration are as they were |
| MigrationProjection.JiraMigrationProjection.Fail | packages/integration-jira/src/MigrationProjection.ts:1110-1142 | A failure is recorded once per stop, moves the failure sequence on by one, and the gate names the new sequence and its phase, except after a scan that was never accepted |
| MigrationProjection.JiraMigrationProjection.RecordScanUnitFailure | packages/integration-jira/src/MigrationProjection.ts:1143-1216 | The receipt stands on the row afterwards: the one already there, the sequence of a row that has failed, or the next sequence, which the gate then names |
| MigrationProjection.JiraMigrationProjection.RecordImportUnitFailure | packages/integration-jira/src/MigrationProjection.ts:1217-1273 | The receipt stands on the row afterwards: the one already there, or, only while the row migrates, the next sequence, which the gate then names |
| MigrationProjection.JiraMigrationProjection.ResumeImportUnit | packages/integration-jira/src/MigrationProjection.ts:1274-1307 | An import unit resumes exactly at the current sequence of a migrating row, waits exactly for a later sequence, and is rejected otherwise |
| MigrationProjection.JiraMigrationProjection.ResumeScanUnit | packages/integration-jira/src/MigrationProjection.ts:1308-1369 | A scan unit that resumes finds the row scanning, or scanned, at its sequence; it waits exactly for a later one and is rejected exactly when the row does not resume or has fallen behind |
| MigrationProjection.JiraMigrationProjection.RecordPage | packages/integration-jira/src/MigrationProjection.ts:1370-1418 | A page is on the row afterwards and counts once: progress is the old sum plus the count of a new page |
| MigrationProjection.JiraMigrationProjection.FinishScan | packages/integration-jira/src/MigrationProjection.ts:1419-1476 | Completing a scan succeeds exactly when the row afterwards is scanned with that manifest; only a scanning row is moved, and its gate then is StartImport of its scan |
| MigrationProjection.JiraMigrationProjection.Mutate | packages/integration-jira/src/MigrationProjection.ts:1477-1588 | A command is obeyed exactly on the owner's row, at the revision it names, in a status that takes it, when the answers it needs are all there (the conditions are written out in row and configuration fields); the row then is where the command sends it, ready exactly when everything is answered, at the next revision and under the same fence; a refusal changes nothing and names the first test that failed |
| MigrationProjection.JiraMigrationProjection.Interrupted | packages/integration-jira/src/MigrationProjection.ts:1589-1612 | Only a cancelling row without a cleanup lock is finalised as cancelled |
| MigrationProjection.JiraMigrationProjection.Claim | packages/integration-jira/src/MigrationProjection.ts:1613-1651 | A cleanup claim succeeds exactly when its execution holds the lock afterwards; it takes the lock only at its revision, in a status of its mode, without lock or unsettled write |
| MigrationProjection.JiraMigrationProjection.Release | packages/integration-jira/src/MigrationProjection.ts:1652-1674 | A release succeeds exactly for the holder in a status of its mode, and leaves status and checkpoint as they were, unlocked |
| MigrationProjection.JiraMigrationProjection.FinishPostSuccess | packages/integration-jira/src/MigrationProjection.ts:1675-1712 | Post-success cleanup succeeds exactly when the succeeded row afterwards is unlocked and marked as cleaned; only the holder changes it |
| MigrationProjection.JiraMigrationProjection.DeleteRow | packages/integration-jira/src/MigrationProjection.ts:1713-1730 | The row is deleted exactly when the holder's lock stands on a failed or cancelled row: the row invariant makes the source's test of the marker redundant |
| MigrationProjection.JiraMigrationProjection.FinishReset | packages/integration-jira/src/MigrationProjection.ts:1731-1758 | A reset completes exactly for the holder once the hidden destination is gone from the index, and leaves neither destination nor lock |
| MigrationProjection.JiraPublication.EnsureHiddenProject | apps/backend/src/jira/PublicationLive.ts:804-888 | The hidden project becomes the destination exactly on a migrating, unlocked row of its organization without another destination, and neither the revision nor the time of the update moves |
| MigrationProjection.JiraPublication.PublishAtomically | apps/backend/src/jira/PublicationLive.ts:511-780 | Publishing moves only a migrating row without lock and unsettled write, leaves it succeeded with this publication, is confirmed when repeated, and a refusal says why and changes nothing |
| MigrationProjection.JiraMigrations.Submit | packages/integration-jira/src/Migrations.ts:361-423 | One transaction moves the row and signals the gate that stood on it; a refused run signals nothing |
| MigrationProjection.MutationAnswers | packages/integration-jira/src/MigrationProjection.ts:1477-1588 | The two-step mutation, planned and committed on one row, answers by the row's own rules: obeyed exactly when allowed, else with the command's refusal |
| MigrationProjection.MutationObeys | packages/integration-jira/src/MigrationProjection.ts:1477-1588 | And the row it leaves obeys the command, column by column |
| MigrationProjection.OutcomeElements | packages/integration-jira/src/MigrationProjection.ts:793-871 | Sorting the first occurrences, or filtering, tells exactly the outcome; a list of unchanged length already told it |
| MigrationTable.TableStaysSound | packages/integration-jira/src/MigrationProjection.ts:917-1758 | Over every sequence of calls on any rows, ids and requests stay unique and every row keeps its invariant |
| MigrationTable.RowsRunAlone | packages/integration-jira/src/MigrationProjection.ts:533-546 | Calls on other rows do not matter: each row of the table goes through exactly the run of the calls that name it |
| MigrationRuns.ColumnWriters | packages/integration-jira/src/MigrationProjection.ts:699-1758 | Which operations can write which column, over all operations including the import's own two, and that all but three of them move the revision whenever they change anything |
| MigrationRuns.InvHolds | packages/integration-jira/src/MigrationProjection.ts:699-1758 | Over every run: the marker names the row's own execution and attempt, attempt and scan revision are equal, and lock and marker never stand together |
| MigrationRuns.SameRevisionSameRow | packages/integration-jira/src/MigrationProjection.ts:1048-1073 | In a run, two states with the same revision are the same row up to the write marker, the update time and, while it migrates, a destination set for the first time |
| MigrationRuns.OneMutationPerRevision | packages/integration-jira/src/MigrationProjection.ts:1048-1073 | Each revision admits at most one row-changing mutation, whatever happens between the two attempts at it, unversioned writes included |
| MigrationRuns.AttemptsNeverDecrease | packages/integration-jira/src/MigrationProjection.ts:1001-1018 | The attempt never decreases over a run |
| MigrationRuns.WrongFenceChangesNothing | packages/integration-jira/src/MigrationProjection.ts:533-546 | An operation whose fence does not hold leaves the row alone |
| MigrationRuns.EarlierFencesAreDead | packages/integration-jira/src/MigrationProjection.ts:533-546 | After a rescan, everything that still arrives under an earlier attempt changes nothing for the rest of every run |
| MigrationRuns.AttemptIsScanRevision | packages/integration-jira/src/MigrationProjection.ts:1001-1018 | Attempt and scan revision stay equal and at least one from creation on |
| MigrationRuns.RescanAdvancesOnce | packages/integration-jira/src/MigrationWorkflow.ts:338-349 | The service and the new execution issue the same rescan; it advances the row once, in either order, and the repetition still succeeds |
| MigrationRuns.LockFreezesRow | packages/integration-jira/src/MigrationProjection.ts:1613-1758 | While a cleanup execution holds the lock, no other operation changes the row |
| MigrationRuns.ClaimThenRelease | packages/integration-jira/src/MigrationProjection.ts:1613-1674 | A granted claim can be given back whatever happened meanwhile, and gives back the row as it was |
| MigrationRuns.CancelSticks | packages/integration-jira/src/MigrationProjection.ts:1519-1612 | After an accepted cancel the row stays cancelling or cancelled until a rescan with a larger attempt or deletion by cleanup |
| MigrationRuns.SuccessIsFinal | packages/integration-jira/src/MigrationProjection.ts:1519-1612 | A succeeded row keeps its status and is never deleted |
| MigrationRuns.MarkerHoldsUntilSettled | packages/integration-jira/src/MigrationProjection.ts:699-792 | Until its attempt settles, nothing removes the marker, and rescan, discard and every cleanup claim stay refused |
| OwnerRaces.OwnerMutationsAreAtomic | packages/integration-jira/src/MigrationProjection.ts:1477-1588 | Read first and updated later, an owner mutation commits exactly when its revision is still current, and then does what it would do in one step |
| OwnerRaces.UnresolvedListIsCurrent | packages/integration-jira/src/Migrations.ts:567-599 | The unresolved list read in a step of its own is still the row's when the configuration naming that revision is saved |
| OwnerRaces.RescanFindsNoHiddenProject | packages/integration-jira/src/Migrations.ts:532-566 | A rescan prepared on a row without a hidden project never resets a row that has one |
| OwnerRaces.SafeRescanIsAtomic | packages/integration-jira/src/MigrationProjection.ts:965-1047 | A rescan planned on a row on which no write may start does what one atomic step would do |
| OwnerRaces.RescanDropsMarker | packages/integration-jira/src/MigrationProjection.ts:1029-1046 | Otherwise a write accepted between the read and the update makes the rescan throw its marker away |
| OwnerRaces.RescanAtomicIff | packages/integration-jira/src/MigrationProjection.ts:965-1047 | A planned rescan is atomic in every run if and only if no remote write may start on the row it read |
| OwnerRaces.RacingRescansAgree | packages/integration-jira/src/MigrationProjection.ts:1029-1064 | Two issuers that planned one rescan: after the first update the other never moves the row, and its second look succeeds exactly while the row is in the new attempt |
| OwnerRaces.UnsafeRescanExists | packages/integration-jira/src/MigrationProjection.ts:965-1047 | Such a row exists: a first scan that failed and may be retried |
| CleanupRuns.DeletionsRunUnderTheLock | packages/integration-jira/src/CleanupWorkflow.ts:71-142 | Every external deletion starts on exactly the claimed row, locked by this execution, with a status of its mode and no unsettled write |
| CleanupRuns.CompletionSucceeds | apps/backend/src/jira/CleanupLive.ts:245-278 | The last stage of a cleanup that holds its lock is never refused and leaves what its mode promises |
| CleanupRuns.EndedCleanupHoldsNoLockIff | apps/backend/src/jira/CleanupLive.ts:280-294 | Over every run with failing database calls, an ended cleanup leaves no lock if and only if it never took it, or its completion or its release went through |
| CleanupRuns.SwallowedReleaseFreezesRow | apps/backend/src/jira/CleanupLive.ts:280-294 | Otherwise the row stays exactly as it was claimed through whatever anybody does later, and no other cleanup gets the lock |
| CleanupRuns.SwallowedRelease | apps/backend/src/jira/CleanupLive.ts:280-294 | It takes one failing stage and one failing release, on every row a cleanup can claim |
| CleanupRuns.SwallowedReleaseHappens | apps/backend/src/jira/CleanupLive.ts:280-294 | Such a row exists: a first scan that failed for good, being discarded |
| CleanupRuns.AwaitedResetIsAccepted | packages/integration-jira/src/CleanupWorkflow.ts:161-196 | A reset that completes with its lock passes every check made before the rescan goes on, under the fence it was claimed with |
| ConfigurationRuns.MigratingRunsTheSavedConfiguration | packages/integration-jira/src/MigrationProjection.ts:1519-1573 | A migrating row runs the saved configuration, and that configuration answers everything the scan asked |
| ConfigurationRuns.AcceptedStep | packages/integration-jira/src/MigrationProjection.ts:1477-1518 | While the hidden project exists, one event changes the accepted configuration at most by an allowed correction for the row's unresolved attachments |
| ConfigurationRuns.AcceptedOnlyGrows | packages/integration-jira/src/MigrationProjection.ts:351-372 | Over such a run, the accepted configurations differ only by growing skips |
| ConfigurationRuns.NewSkipsWereUnresolved | packages/integration-jira/src/MigrationProjection.ts:351-372 | Every skip that was added was recorded as failed and unresolved at some state of the run |
| ReceiptRuns.CountersAreExact | packages/integration-jira/src/MigrationProjection.ts:1370-1418 | Over every run, progress is the sum over the distinct pages and no receipt exceeds the failure sequence |
| ReceiptRuns.ReceiptsKept | packages/integration-jira/src/MigrationProjection.ts:1143-1273 | Within an attempt no page and no receipt is changed or lost |
| ReceiptRuns.ReceiptIsReplayed | packages/integration-jira/src/MigrationProjection.ts:1143-1216 | A scan failure recorded again gets the same receipt or null, and changes nothing |
| ReceiptRuns.ImportReceiptIsReplayed | packages/integration-jira/src/MigrationProjection.ts:1217-1273 | The same for an import failure |
| ReceiptRuns.DeliveryOrderDoesNotMatter | packages/integration-jira/src/MigrationWorkflow.ts:650-655 | Runs that record the same pages, however often and in whatever order, end with the same progress |
| RetryRuns.NoLostWakeUp | packages/integration-jira/src/MigrationWorkflow.ts:384-447 | In every reachable scan state, a unit parked on Retry(n) has been signalled, or n is what the stopped row's gate names |
| RetryRuns.AcceptedRunWakesEveryUnit | packages/integration-jira/src/Migrations.ts:361-423 | The next accepted run has every parked unit's retry signalled |
| RetryRuns.StoppedScanAcceptsRun | packages/integration-jira/src/MigrationProjection.ts:130-164 | A stopped retryable scan without a cleanup lock accepts its owner's run |
| RetryRuns.ReparkedUnitAwaitsMore | packages/integration-jira/src/MigrationWorkflow.ts:384-447 | A unit sent back to wait waits for a larger sequence |
| RetryRuns.AttemptsBegin | packages/integration-jira/src/MigrationProjection.ts:1001-1018 | Creation and every accepted rescan are starting points of the wake-up results |
| ImportRuns.NoLostImportWakeUp | packages/integration-jira/src/MigrationWorkflow.ts:153-226 | In every reachable import state, an import that waits to start finds StartImport as the gate of the row, and one parked on Retry(n) has been signalled or n is what the stopped row's gate names |
| ImportRuns.AcceptedRunMovesImport | packages/integration-jira/src/Migrations.ts:361-423 | The next accepted run lets a waiting or parked import go on |
| ImportRuns.ScanBeginsImport | packages/integration-jira/src/MigrationProjection.ts:1419-1476 | Completing a scan is the starting point of the import results |
| ImportEnds.GateTellsWhoWaits | packages/integration-jira/src/MigrationProjection.ts:1217-1273 | Over every run, a stopped row whose gate is Retry(n) tells by its receipts who waits: without a receipt n the execution has ended and nobody does; with one the import waits for n, or its execution has ended without its finalizer recording anything |
| ImportEnds.AcceptedRunIsHeardIff | packages/integration-jira/src/Migrations.ts:361-423 | A run that such a row accepts is heard exactly when the row has the receipt and the execution has not ended unreported |
| ImportEnds.EndedExecutionAcceptsRun | packages/integration-jira/src/MigrationWorkflow.ts:294-313 | A run from a completed scan: an import whose failure could not be recorded ends, its finalizer records a retryable failure, and the row accepts a run that nobody hears |
| ImportEnds.ImportCanBegin | packages/integration-jira/src/MigrationProjection.ts:1419-1476 | Such a start exists: the scan of a project in which nothing is asked |
| ImportRuns.EndedImportStays | packages/integration-jira/src/MigrationWorkflow.ts:294-313 | An execution that has ended is moved by no run |
| RemoteWriteLock.MarkedWriteRunsUnderMarker | packages/integration-jira/src/MigrationWorkflow.ts:612-660 | Under the one-permit lock, a scan write that set the marker never runs without it, over every interleaving with failures and restarts |
| RemoteWriteLock.StrayWritesCoveredIff | packages/integration-jira/src/MigrationWorkflow.ts:258-292 | A write that was given up keeps the marker for as long as it may land, over every interleaving, if and only if no later writer of the attempt settles meanwhile |
| RemoteWriteLock.GivingUpDecides | packages/integration-jira/src/MigrationWorkflow.ts:258-292 | In what the attempt knows of itself: never settling after giving a write up keeps every such write marked, and as long as none has landed only that does |
| RemoteWriteLock.LaterSettleForgetsStray | packages/integration-jira/src/MigrationWorkflow.ts:258-292 | A run in which one write fails and the next one's settle removes the marker both share |
| RemoteWriteLock.WithoutPermitMarkerIsLost | packages/integration-jira/src/MigrationWorkflow.ts:258-292 | Without the permit, the first of two writers to settle takes the marker from the other |
| CredentialRow.JiraCredentials.TryClaim | packages/integration-jira/src/Credentials.ts:371-389 | The lease is claimed exactly on an active row whose lease is absent or over |
| CredentialRow.JiraCredentials.ClearLease | packages/integration-jira/src/Credentials.ts:307-321 | Afterwards no lease of this id stands and every other one does; tokens and standing are kept, and an active row whose lease was cleared can be claimed at once |
| CredentialRow.JiraCredentials.RequireReconnect | packages/integration-jira/src/Credentials.ts:415-436 | Under its own lease, every later call asks the user to reconnect and no lease is given out; without it nothing changes |
| CredentialRow.ServedIff | packages/integration-jira/src/Credentials.ts:336-369 | A call is answered from the row exactly when the row is active and, unforced, its token is not about to expire or, forced, its token is not the one the call saw first and no lease stands; it stops exactly when there is no row or it asks to reconnect |
| CredentialRow.JiraCredentials.StoreRefresh | packages/integration-jira/src/Credentials.ts:470-493 | A refresh is stored, and says so, exactly when its lease still stands: the row then has the grant's tokens, expiry and scopes, its old standing and no lease, and serves unforced calls exactly until the new token is about to expire |
| CredentialRow.JiraCredentials.PersistGrant | packages/integration-jira/src/Credentials.ts:177-233 | A reconnect ends every lease, so no refresh begun before it can store anything; calls are served from it until it is about to expire |
| CredentialRow.JiraCredentials.MarkReconnectRequired | packages/integration-jira/src/Credentials.ts:160-175 | Every later call asks the user to reconnect, the tokens stay, and no refresh begun before can undo it |
| CredentialRow.JiraCredentials.Disconnect | packages/integration-jira/src/Credentials.ts:501-509 | Every later call is told that nothing is connected, and no refresh begun before writes anything |
| CredentialRow.JiraCredentials.AccessTokenFor | packages/integration-jira/src/Credentials.ts:323-499 | A call nobody interferes with answers from the row or refreshes exactly once, whatever lease a stopped worker left, and ends by what it was answered: the new token with the grant stored, missing_scopes or the refusal with the old tokens kept and a reconnect asked for, or a failure with the row active and free to be claimed |
| LeaseRuns.LeaseInvHolds | packages/integration-jira/src/Credentials.ts:371-389 | Over every interleaving: leases are used once, a standing lease means the row is as its holder claimed it, and no lease lasts longer than 30 seconds |
| LeaseRuns.LostLeaseStaysLost | packages/integration-jira/src/Credentials.ts:371-389 | A lease that was taken over or cleared never comes back |
| LeaseRuns.LostWorkerChangesNothing | packages/integration-jira/src/Credentials.ts:404-493 | A worker that lost its lease changes neither row nor tokens, however long it lives on |
| LeaseRuns.RefreshReplacesWhatItClaimed | packages/integration-jira/src/Credentials.ts:470-493 | A worker that gets to write replaces exactly the tokens that were stored when it claimed |
| LeaseRuns.TokenInvHolds | packages/integration-jira/src/Credentials.ts:371-493 | The row always holds the tokens written last, and every seal is stored at most once |
| LeaseRuns.SentTokenIsStoredIff | packages/integration-jira/src/Credentials.ts:336-404 | Over every run, when a worker that has read the row claims it, the refresh token it sends is the stored one if and only if the access token of the row it claimed is the one it read |
| LeaseRuns.SeenTokenIsStoredIff | packages/integration-jira/src/Credentials.ts:336-404 | In terms of the run: the refresh token a worker sends is the stored one if and only if no tokens were stored between its look and its claim |
| LeaseRuns.StaleRefreshHappens | packages/integration-jira/src/Credentials.ts:336-404 | A run in which a worker refreshes with a token that is no longer stored |
| LeaseRuns.ForcedCallReturnsNewToken | packages/integration-jira/src/Credentials.ts:345-369 | A forced call returns only a token stored after its first look at the row |
| LeaseRuns.BaselineIsFirst | packages/integration-jira/src/Credentials.ts:345-350 | What a forced call compares with is what it saw first |
| LeaseRuns.StartIsSafe | packages/integration-jira/src/Credentials.ts:323-334 | The invariants hold before anything has happened |
| ProjectState.OwnConcat | packages/integration-github/src/projectState.ts:654-660 | Filtering pages one by one is filtering the whole list |
| ProjectState.OwnPage | packages/integration-github/src/projectState.ts:654-660 | One page and the rest, filtered separately, are the filtered whole |
| ProjectState.BuildQuery | packages/integration-github/src/projectState.ts:326-408 | The query has one field per pending branch, in order, each with that branch's own cursor |
| ProjectState.TakePage | packages/integration-github/src/projectState.ts:641-680 | One page keeps a branch on the way to what paging it alone finds, or ends it in the same way |
| ProjectState.TakeRound | packages/integration-github/src/projectState.ts:641-681 | One round does this for every pending branch and touches no other |
| ProjectState.ExistingBranches | packages/integration-github/src/projectState.ts:632-639 | The existing branches are those whose ref the first page found |
| ProjectState.FetchBatch | packages/integration-github/src/projectState.ts:588-687 | A batch that succeeds has, for each branch, the filtered list of paging it alone; it fails only for a failed request or a branch that fails alone; and it ends when cursors are finite |
| ProjectState.BranchChunks | packages/integration-github/src/projectState.ts:410-420 | Chunks are consecutive slices of twenty, and one empty chunk for no branches |
| ProjectState.ChunksPartition | packages/integration-github/src/projectState.ts:410-420 | Every branch lies in exactly one chunk, once |
| ProjectState.Unique | packages/integration-github/src/projectState.ts:454 | Requested branches are asked for once |
| ProjectState.LatestIsFirstOpen | packages/integration-github/src/projectState.ts:699-700 | The shown pull request is the first open one, or else the first |
| ProjectState.AddBranch | packages/integration-github/src/projectState.ts:697-709 | One branch's results are added without touching another's |
| ProjectState.FoundOnce | packages/integration-github/src/projectState.ts:654-660 | The pages of a branch leave one list of found pull requests: those whose head branch is the branch and whose head repository is known and is their base repository, in page order |
| ProjectState.FetchProjectStates | packages/integration-github/src/projectState.ts:588-718 | The whole fetch reports for each requested branch, in the fields of the pull requests on its pages: the first open one found or else the first, exactly the merged ones in order, and nothing for any other branch; it fails only for a failed request or a branch that fails alone |
| ProjectState.FetchWithoutOutage | packages/integration-github/src/projectState.ts:588-718 | Without a failing request, it succeeds exactly when every branch can be paged alone |
| ProjectStateCacheKey.KeysAgreeIff | packages/integration-github/src/projectStateCache.ts:129-146 | Two requests share a key exactly when installation, repository key, query and set of branches agree |
| ProjectStateCacheKey.FoldedKeysAgreeIff | packages/integration-github/src/projectStateCache.ts:136 | For every case folding that neither makes nor removes a NUL, and owners without one, keys agree exactly when folded owners and folded names do |
| ProjectStateCacheKey.NulOwnersCollide | packages/integration-github/src/projectStateCache.ts:136 | With a NUL in an owner, two repositories share a key |
| ProjectStateCache.Entries.Open | packages/integration-github/src/projectStateCache.ts:48-58 | A request gets its present entry, or a new one for which the oldest makes room at 128 |
| ProjectStateCache.Entries.Invalidate | packages/integration-github/src/projectStateCache.ts:106-118 | An invalidation removes exactly the entries it names and keeps the order of the others |
| ProjectStateCache.AtMost128Entries | packages/integration-github/src/projectStateCache.ts:48-58 | Over every run there are at most 128 entries, no two of one key |
| ProjectStateCache.AttachShares | packages/integration-github/src/projectStateCache.ts:59-63 | A call joins the run of its entry, which becomes one if there is none; nothing else about the entries changes |
| ProjectStateCache.LandAnswersAll | packages/integration-github/src/projectStateCache.ts:60 | When a fetch ends, everyone who waits for it gets what it brought, and only they do |
| ProjectStateCache.ServedWhileFreshIff | packages/integration-github/src/projectStateCache.ts:60 | Over every run, a call is answered without a fetch exactly when none runs and one of its run ended less than fifteen seconds ago, and it gets what such a fetch brought; otherwise it waits for one |
| ProjectStateCache.ReplyLeaves | packages/integration-github/src/projectStateCache.ts:64-83 | A reply is fresh exactly when it has data and its entry still stands, and the data then is the entry's snapshot; a repository that is gone takes run and snapshot with it |
| ProjectStateCache.OutcomeSince | packages/integration-github/src/projectStateCache.ts:64-103 | What a call answers and leaves behind is no older than its entry: fresh, marked or failed by the result, the entry and its snapshot, with the failure's own mark |
| ProjectStateCache.FreshInvHolds | packages/integration-github/src/projectStateCache.ts:41-118 | Entries, runs, calls and data keep their order in time over every interleaving |
| ProjectStateCache.UnstaleReplyIsFresh | packages/integration-github/src/projectStateCache.ts:64-71 | Every reply that is not marked stale, a snapshot under a rate limit included, and the stale snapshot served while GitHub fails, carries data whose fetch began after the last matching invalidation before the reply |
| ProjectStateCache.NoDataFromBeforeTheCall | packages/integration-github/src/projectStateCache.ts:64-118 | A call begun after an invalidation never returns data fetched before it, marked or not |
| CanonicalJson.EscapedReadable | packages/integration-jira/src/Manifest.ts:6 | A quoted string can be read back from any text it begins: no two strings are quoted alike, lone surrogates included |
| CanonicalJson.PrintReadable | packages/integration-jira/src/Manifest.ts:2-10 | A printed value can be read back from any text it begins |
| CanonicalJson.CanonicalPrintsNormal | packages/integration-jira/src/Manifest.ts:3-8 | Sorting keys while printing is printing the value with its keys sorted throughout |
| CanonicalJson.NormalDecidesSame | packages/integration-jira/src/Manifest.ts:2-10 | Two values have the same sorted form exactly when they are equal up to the order of object keys |
| CanonicalJson.CanonicalDecidesSame | packages/integration-jira/src/Manifest.ts:2-10 | Two values have the same canonical text exactly when they are equal up to the order of object keys |
| CanonicalJson.StringifyInjective | packages/integration-github/src/projectStateCache.ts:138-143 | Printing without sorting is injective |
| Sorting.SortByIsStableSort | packages/integration-jira/src/Manifest.ts:587-592 | Sorting by a key gives a permutation in key order that keeps the order of equal keys |
| Sorting.StableSortUnique | packages/integration-jira/src/Manifest.ts:587-592 | There is only one such result |
| Sorting.OrderIndependentIff | packages/integration-jira/src/Manifest.ts:587-592 | The sorted list is the same for every order of the input exactly when elements that share a key are equal |
| Sorting.LessAtFirstDifference | packages/integration-jira/src/Manifest.ts:569-571 | A key is less than another exactly when, at their first difference, it has ended or has the smaller code unit |
| Manifest.SortThenMap | packages/integration-jira/src/Manifest.ts:462-523 | Sorting items and normalising inside them can be done in either order |
| Manifest.NormalizeIdempotent | packages/integration-jira/src/Manifest.ts:462-523 | Normalising twice is normalising once |
| Manifest.NormalizePermutes | packages/integration-jira/src/Manifest.ts:462-523 | Normalising only reorders, inside items and among them, and leaves the items of a section in the order of their keys |
| Manifest.ChangesOrderedByParts | packages/integration-jira/src/Manifest.ts:483-492 | Changes are ordered by field, then by what it was, then by what it became, as long as no field id and no old value contains the separator |
| Manifest.NormalizeIgnoresOrder | packages/integration-jira/src/Manifest.ts:462-523 | Manifests that differ only in the order of their lists normalise alike, provided keys identify |
| Manifest.NormalizeIgnoresOrderIff | packages/integration-jira/src/Manifest.ts:462-523 | A manifest normalises alike for every order of its lists if and only if, in every section, changes that share a key are equal and items that share a key have one normal form |
| Manifest.TiedChangesKeepTheirOrder | packages/integration-jira/src/Manifest.ts:483-492 | A change from nothing and one from the empty string share a key, and keep whatever order they came in |
| AdfText.EscapeTextIsOnePass | packages/integration-jira/src/Adf.ts:427-435 | The six passes are one escape per character: none touches what an earlier one wrote |
| AdfText.EscapeRoundTrip | packages/integration-jira/src/Adf.ts:427-435 | Escaping is undone exactly by reading backslash escapes |
| AdfText.LongestRunOf | packages/integration-jira/src/Adf.ts:400-408 | The loop computes the longest run |
| AdfText.LongestRunIsLongest | packages/integration-jira/src/Adf.ts:400-408 | A run of that length occurs and no run is longer |
| AdfText.FenceIsLonger | packages/integration-jira/src/Adf.ts:379-392 | A code fence is longer than every backtick run in its text |
| AdfText.CodeBlockRoundTripIff | packages/integration-jira/src/Adf.ts:379-392 | A code block reads back, by section 4.5 of CommonMark 0.31.2, as its text with one line ending, and with its language as the info string if and only if the language is on one line, has no backtick and no space or tab around it |
| AdfText.InlineCodeRoundTripIff | packages/integration-jira/src/Adf.ts:394-398 | Inline code reads back, by section 6.1 of CommonMark 0.31.2, as a text without line endings exactly when the text has a character other than a space |
| AdfText.SpaceIsLost | packages/integration-jira/src/Adf.ts:394-398 | Inline code of a single space reads back as another text |
| AdfPattern.MarkerIsSpelledIff | packages/integration-jira/src/Adf.ts:508-525 | A marker is found exactly where the pattern matches: an opening, white space, one of the two fixed words or comment: and an id of letters, digits, hyphens and underscores, white space, and a closing, also when the hyphens of the id run into the closing |
| AdfMarkers.NoMarkerSurvives | packages/integration-jira/src/Adf.ts:508-525 | A neutralised text contains no reserved comment marker anywhere |
| AdfMarkers.SafeTextReadsTheSame | packages/integration-jira/src/Adf.ts:508-525 | Once entities are read, a neutralised text is the text it was |
| AdfMarkers.OnlyMarkersChange | packages/integration-jira/src/Adf.ts:508-525 | A text is changed exactly when it has a reserved marker |
| AdfUnmarked.ConvertedHasNoMarker | packages/integration-jira/src/Adf.ts:64-80 | A converted document has no reserved marker anywhere if, in every string of it, something other than an exclamation mark stands behind every opening bracket |
| AdfUnmarked.CardPrintsMarker | packages/integration-jira/src/Adf.ts:168-178 | Without that it may have one: an inline card is printed as it is |
| AdfOutline.ConvertShowsOutline | packages/integration-jira/src/Adf.ts:64-80 | The Markdown of every document shows its outline: the text of every node, with its marks and links, the hashes, bullets, numbers, boxes, bars, rules and fences of its blocks and its references, all in document order, and between them nothing but white space, escapes and line breaks of cells; the references recorded are the outline's, each with its source, address and text |
| AdfOutline.LineShowsExactly | packages/integration-jira/src/Adf.ts:157-237 | A line of text shows its outline with every space and line break of it |
| AdfOutline.CodeNodeReadsBack | packages/integration-jira/src/Adf.ts:379-392 | A code block reads back, by section 4.5 of CommonMark 0.31.2, as its language, when that fits an info line, and the whole text of its children with one line ending |
| AdfRewritten.RewrittenShowsLinks | packages/integration-jira/src/Adf.ts:82-105 | Once its references are rewritten, the Markdown of a document shows its outline with the link to its destination, the link to Jira or the text alone in the place of each reference, for documents and destinations without the delimiters |
| AdfLines.BlocksStandApart | packages/integration-jira/src/Adf.ts:107-117 | A document is its blocks that are not empty, in order, parted by exactly one blank line, without the white space around it |
| AdfLines.HeadingBegins | packages/integration-jira/src/Adf.ts:126-129 | A heading begins with as many hashes as its level, kept between one and six, and a space |
| AdfLines.ItemsOnLines | packages/integration-jira/src/Adf.ts:276-319 | Every item of a list begins on a line of its own with its indentation and its bullet, item k of an ordered list with the first number plus k |
| AdfLines.BelowItemIsIndented | packages/integration-jira/src/Adf.ts:293-315 | What stands below the first line of an item begins on lines of its own, indented by two more than the item |
| AdfLines.EveryLineIndented | packages/integration-jira/src/Adf.ts:565-571 | Indenting puts the spaces before every line and keeps the lines |
| AdfLines.TasksOnLines | packages/integration-jira/src/Adf.ts:321-345 | Every task begins on a line of its own with its box, which is ticked exactly when it is done |
| AdfLines.TableIsRectangular | packages/integration-jira/src/Adf.ts:347-377 | A table has one line per row and the rule behind the first, all with as many cells as the longest row: no content of a cell ends the cell or the line |
| AdfLines.JiraIssueIdIsFirst | packages/integration-jira/src/Adf.ts:452-455 | An address leads to the issue named behind the first /browse/ that something follows, up to the next delimiter |
| AdfLines.IssueLinkIsFirst | packages/integration-jira/src/Adf.ts:457-468 | A text refers to the issue of its first link that leads to one, and to none without such a link |
| AdfLines.FirstLinkIsFirst | packages/integration-jira/src/Adf.ts:234-236 | Any other linked text has the address of its first link |
| AdfLines.SupportedInOrder | packages/integration-jira/src/Adf.ts:527-536 | The supported marks are kept one for one, in their order |
| AdfReferences.DestinationReadsBackIff | packages/integration-jira/src/Adf.ts:437-441 | A link destination reads back, by sections 2.4 and 6.3 of CommonMark 0.31.2 and with its spaces as %20, exactly when it has no other white space; otherwise no destination is read |
| AdfReferences.RenderMarkedText | packages/integration-jira/src/Adf.ts:552-563 | The loop wraps the text in its marks, in their order |
| AdfReferences.MarksSurviveIff | packages/integration-jira/src/Adf.ts:470-550 | A placeholder gives back its marks exactly while its number has six digits, or when it has none |
| AdfReferences.MillionthLosesMarks | packages/integration-jira/src/Adf.ts:470-550 | The reference with number 1000000 loses its mark |
| AdfReferences.PlaceholderInjective | packages/integration-jira/src/Adf.ts:470-479 | Placeholders of different numbers differ |
| AdfReferences.ReplaceIsSubstitute | packages/integration-jira/src/Adf.ts:103 | Replacing one placeholder by splitting and joining is substituting it wherever it stands |
| AdfReferences.RewriteIsSubstitution | packages/integration-jira/src/Adf.ts:82-105 | Rewriting references one after the other is one simultaneous substitution, for sources and destinations without the delimiters |
| AdfConversion.PerCharCarries | packages/integration-jira/src/Adf.ts:356-363 | Rewriting cells and indenting touch no placeholder |
| AdfConversion.TrimmedGood | packages/integration-jira/src/Adf.ts:107-117 | Trimming loses no placeholder |
| AdfConversion.BlockGood | packages/integration-jira/src/Adf.ts:119-377 | Every block carries exactly the references it records, in order, numbered from where it began |
| AdfConversion.ReferencesAppearOnceInOrder | packages/integration-jira/src/Adf.ts:64-80 | Every reference recorded in a conversion appears in the Markdown exactly once, in recording order |
| AdfConversion.RewrittenDocument | packages/integration-jira/src/Adf.ts:82-105 | Rewriting a converted document is one substitution and leaves no placeholder behind |
| EverhourSync.EverhourLink.ClaimSync | packages/integration-everhour/src/Integrations.ts:1037-1066 | A link is claimed exactly when unclaimed or past its lease, and the claim sees the request time |
| EverhourSync.EverhourLink.RenewClaim | packages/integration-everhour/src/Integrations.ts:1024-1027 | After a renewal nobody can claim until the lease has passed, and the request stays |
| EverhourSync.EverhourLink.CompleteSync | packages/integration-everhour/src/Integrations.ts:997-1017 | Completing clears the request exactly when it is no later than the one seen, and always the claim and the retry; a later request stands |
| EverhourSync.EverhourLink.DeferSync | packages/integration-everhour/src/Integrations.ts:1029-1035 | Giving up loses no request: it still stands and can be claimed at once |
| EverhourSync.NoRequestIsLost | packages/integration-everhour/src/Events.ts:30-77 | While request times strictly increase, every consumed event still has a request at or after its own, or a sync claimed after it has completed, however leases expire and syncs overlap |
| EverhourSync.ClearServes | packages/integration-everhour/src/Integrations.ts:997-1017 | What a completing sync clears, it has seen |
| EverhourSync.StartIsServed | packages/integration-everhour/src/Events.ts:30-77 | Nothing is lost at the start |
| EverhourSync.StepMovesRow | packages/integration-everhour/src/Integrations.ts:997-1085 | What each step of a run does to the row of the link, field by field |
| EverhourSync.NoneLostIff | packages/integration-everhour/src/Integrations.ts:997-1085 | Whatever the request times, every consumed event stays in sight of a sync throughout a run if and only if every completing sync clears only a request written before its claim, or one for no event |
| EverhourSync.LaterTimesClearTheirOwn | packages/integration-everhour/src/Events.ts:30-77 | Strictly increasing request times are enough for that |
| EverhourSync.EqualTimesLoseARequest | packages/integration-everhour/src/Events.ts:50-58 | With two equal request times a request is lost |
| TimeAttribution.LatestIsFirstLargest | packages/integration-everhour/src/TimeTracking.ts:137-144 | The latest entry has the largest id, and of several it is the first |
| TimeAttribution.TimeTracking.WriteAttribution | packages/integration-everhour/src/TimeTracking.ts:285-315 | Afterwards the latest entry is the app's: new in this context, handed over from Everhour with the seconds it had, or left alone if it was the app's; no other entry is touched |
| TimeAttribution.TimeTracking.RecordEverhourEdits | packages/integration-everhour/src/TimeTracking.ts:317-359 | Without a row of the record nothing happens; a zeroed record loses exactly its rows; otherwise every row stays and each entry of the history without one gets a row of the record and its date, from Everhour, without a ticket, with its first listed seconds and the other columns of one known row of the record |
| TimeAttribution.TimeTracking.ApplyWebhookTimeEvent | packages/integration-everhour/src/TimeTracking.ts:735-775 | A matching timer claims the record and is cleared; otherwise its edits are recorded |
| TimeAttribution.InsertedAt | packages/integration-everhour/src/TimeTracking.ts:336-358 | Known entries stay as they are; each unknown one gets its first listed seconds |
| TimeAttribution.LateEditAt | packages/integration-everhour/src/TimeTracking.ts:317-359 | Edits whose rows were read earlier: a zeroed record loses the rows it has now; otherwise every row stays and exactly the entries that were not read and have no row get one |
| TimeAttribution.StepRecords | packages/integration-everhour/src/TimeTracking.ts:285-359 | Every step of a run writes or edits as the two methods do |
| TimeAttribution.NeverReassigned | packages/integration-everhour/src/TimeTracking.ts:285-359 | An entry attributed by the app keeps its row until its record is zeroed, over every run, by edits that read their rows earlier as well |
| TimeAttribution.EitherOrder | packages/integration-everhour/src/TimeTracking.ts:735-775 | For a record that is not zeroed and has a row, webhook and direct write in either order give the same latest row up to its update time and the same seconds for every entry |
| TimeAttribution.OrdersAgreeIff | packages/integration-everhour/src/TimeTracking.ts:735-775 | In general the two orders agree exactly when a row of the record exists, its latest entry is known, or it brings no other unknown entry |
| TimeAttribution.WebhookBeforeFirstWrite | packages/integration-everhour/src/TimeTracking.ts:735-775 | A record with two new entries and no row: the two orders leave different seconds |
| TimeAttribution.EditsMatchHistory | packages/integration-everhour/src/TimeTracking.ts:317-359 | After edits the record's rows are exactly its history, when earlier rows came from it |
| TimeAttribution.EitherOrderGivesHistory | packages/integration-everhour/src/TimeTracking.ts:735-775 | Webhook and direct write, in either order, leave exactly the history of a record whose earlier rows came from it |
| TimeAttribution.ZeroedRecordIsGone | packages/integration-everhour/src/TimeTracking.ts:327-332 | A zeroed record leaves nothing and touches no other record |
| TimeAttribution.CurrentEditIsAtomic | packages/integration-everhour/src/TimeTracking.ts:317-359 | Edits whose rows are still the record's do what they would do in one step |
| TimeAttribution.LateEditRevivesIff | packages/integration-everhour/src/TimeTracking.ts:317-359 | Edits that were read before their record was zeroed bring it back exactly when its history has an entry that was not among the rows read and belongs to nobody |
| TimeAttribution.ZeroedRecordComesBack | packages/integration-everhour/src/TimeTracking.ts:317-359 | A run in which they do |
| TimeAttribution.SummariseAttribution | packages/integration-everhour/src/TimeTracking.ts:117-135 | The two totals are the sums over all rows and over the user's rows |
| GitHubConnections.GitHubStore.ChangeInstallation | packages/integration-github/src/GitHubWebhooks.ts:780-844 | The statements of an installation change set the status of its integration, of its links and of their repositories where they had one of the statuses asked for, remove the installation on a disconnection and touch no other row; or nothing happens when it is unknown or an index would break |
| GitHubConnections.GitHubStore.ReadLinks | packages/integration-github/src/GitHubWebhooks.ts:865-947 | The unlocked read returns exactly the links of the integration's repositories with the statuses asked for |
| GitHubConnections.GitHubStore.WriteRepositories | packages/integration-github/src/GitHubWebhooks.ts:895-1014 | The update by id, going through, keeps every invariant exactly when it disconnects or none of the links it was given is disconnected by now |
| GitHubConnections.GitHubStore.ChangeRepositories | packages/integration-github/src/GitHubWebhooks.ts:846-1018 | Read and update with nothing in between set the status of exactly the installation's links to these repositories with the statuses asked for, or nothing when the installation is unknown or an index would break |
| GitHubConnections.GitHubStore.Install | packages/integration-github/src/GitHubIntegrations.ts:269-414 | An open session, in time and not bound to another installation, disconnects every integration of the organization, installs a new active one in their place, leads the live links of the installed ones to it and completes the session, all or nothing; any other session changes nothing |
| GitHubConnections.Installed | packages/integration-github/src/GitHubIntegrations.ts:269-414 | The reconnect of the runs does exactly this |
| GitHubConnections.DeliveryHasEffect | packages/integration-github/src/GitHubWebhooks.ts:725-1120 | What each of the eight deliveries does to the rows, one by one: which links it is about, the status it gives them, and from which |
| GitHubConnections.ProjectIsRelinked | packages/server-core/src/github/ProjectGithub.ts:193-312 | Connecting a repository disconnects the project's active links with their repositories, adds the new link and repository, and changes nothing else |
| GitHubConnections.WebhookKeeps | packages/integration-github/src/GitHubWebhooks.ts:725-1120 | The serial case: no webhook breaks an invariant when nothing commits between its read and its update, even on an integration looked up before it was replaced |
| GitHubConnections.LateWriteKeepsIff | packages/integration-github/src/GitHubWebhooks.ts:897-1112 | The late update of a repository delivery keeps every invariant exactly when it disconnects or none of the links it has read is disconnected by now |
| GitHubConnections.LateWriteRevivesIff | packages/integration-github/src/GitHubWebhooks.ts:897-1112 | It revives a disconnected link exactly when it has read that link and does not disconnect |
| GitHubConnections.ReconnectKeeps | packages/integration-github/src/GitHubIntegrations.ts:269-414 | A reconnect with nothing in between breaks no invariant |
| GitHubConnections.ReconnectKeepsIff | packages/integration-github/src/GitHubIntegrations.ts:300-414 | A reconnect keeps every invariant exactly when the integration it replaces is one it has read |
| GitHubConnections.LinkKeepsIff | packages/server-core/src/github/ProjectGithub.ts:193-312 | Connecting a repository keeps the invariants exactly when the integration looked up before is still live |
| GitHubConnections.ActiveLinkToBrokenIntegration | packages/integration-github/src/GitHubWebhooks.ts:1183-1194 | An active link may point at a suspended integration: its repository was unarchived during the suspension |
| GitHubRuns.ConnectionsStaySoundIff | packages/integration-github/src/GitHubWebhooks.ts:725-1120 | One live integration per organization, live exactly when installed, live links only to live integrations, link and repository statuses equal: this holds throughout a run if and only if every transaction of the run is in time or has no effect |
| GitHubRuns.KeysAlwaysHold | packages/integration-github/src/GitHubIntegrations.ts:269-414 | Over every run, however its transactions interleave, a project has at most one active link, a repository of an organization at most one active connection and an organization at most one active integration |
| GitHubRuns.DisconnectedLinkStaysIff | packages/integration-github/src/GitHubWebhooks.ts:846-1120 | A disconnected link stays disconnected throughout a run if and only if no late repository delivery that read it before writes it |
| GitHubRuns.UpdateActivatesIff | packages/integration-github/src/GitHubWebhooks.ts:949-1018 | A repository update keeps active links on active integrations exactly when it activates nothing or all its links are on active integrations |
| GitHubRuns.ActiveStepIff | packages/integration-github/src/GitHubWebhooks.ts:725-1120 | A step keeps every active link on an active integration exactly when what it activates lies on one; of the webhooks only an unarchival can fail, reconnects never do, connecting a repository when the integration is not active |
| GitHubRuns.ActiveLinksIff | packages/integration-github/src/GitHubWebhooks.ts:1183-1194 | Throughout a run whose transactions are in time, every active link is on an active integration if and only if nothing is activated on another one |
| GitHubRuns.SessionIsWriteOnce | packages/integration-github/src/GitHubIntegrations.ts:234-267 | A session's installation id is written once, over every run |
| GitHubRuns.StartIsSound | packages/integration-github/src/GitHubWebhooks.ts:725-1120 | The empty tables meet every invariant |
| GitHubRaces.LateUnarchiveRevives | packages/integration-github/src/GitHubWebhooks.ts:949-1018 | A run from the empty tables: a link unarchived while its installation is removed is active again, on a disconnected integration, its repository disconnected |
| GitHubRaces.LinkedWhileRemoved | packages/server-core/src/github/ProjectGithub.ts:193-312 | A run from the empty tables: a project linked while its installation is removed is actively linked to a disconnected integration |
| GitHubRaces.OverlappingReconnects | packages/integration-github/src/GitHubIntegrations.ts:269-414 | A run from the empty tables: of two overlapping install sessions the one that read first disconnects the other's integration and leaves it installed |

## Left out

- MigrationProjection.JiraMigrationProjection.Rescan: read and update are one step here; `OwnerRaces` splits them and says exactly when that makes a difference.
- MigrationProjection.JiraMigrationProjection.Mutate: one step as well; `OwnerRaces` proves that the split changes nothing.
- MigrationProjection.JiraMigrationProjection.AdvanceRow: the checkpoint keys a patch may carry are the four the service lets through that the model has; `advance` has no caller in this repository outside its tests; the two writers of the import are operations of their own (`HideProject`, `Published`). The results on configurations, receipts and wake-ups assume a patch that leaves status (except for success), scan time, progress, scan, receipts and failed attachments alone and sets the destination only while migrating.
- MigrationRuns.InvHolds: a deleted row stays deleted; the creation of a new migration under an old id is not part of a run.
- CleanupRuns.DeletionsRunUnderTheLock: the bodies of the deletion stages are external calls that succeed or fail.
- RetryRuns.NoLostWakeUp: deferreds of an execution are a growing set of signalled gates. An accepted run need not find its execution alive, as `ImportEnds.EndedExecutionAcceptsRun` shows.
- ImportRuns.NoLostImportWakeUp: one import per execution, whose failures only it and, after its end, its finalizer record; the bodies of its stages are external.
- CredentialRow.JiraCredentials.AccessTokenFor: the two lease columns are one optional lease, because they are only written together; connection and update times are not modelled.
- ProjectState.FetchProjectStates: batches run one after the other, where the source runs two at a time; they share nothing, so only the choice of the reported failure can differ. The discovery of branches and the renaming of pull request fields are not modelled.
- ProjectStateCache.UnstaleReplyIsFresh: data whose entry was dropped while its fetch ran is marked stale and may be older. The fifteen seconds count from the end of the fetch. A fetch whose caller is interrupted is not modelled.
- ProjectStateCacheKey.KeysAgreeIff: the folding inside the repository key covers the letters A to Z, the ones GitHub allows in these names; `FoldedKeysAgreeIff` holds for any folding.
- Manifest.NormalizeIgnoresOrder: the sections are a list and an item is its key, its lists and the rest; the version 1 manifest is not modelled.
- Manifest.NormalizePermutes: strings here are sequences of Unicode characters, so a lone surrogate cannot occur; `CanonicalJson` works on code units and includes them.
- AdfText.CodeBlockRoundTripIff: the info string is read as it is written, before backslash escapes and entities in it are resolved (sections 2.4 and 2.5 of CommonMark 0.31.2).
- AdfConversion.ReferencesAppearOnceInOrder: for documents whose strings contain neither private-use delimiter. The references are threaded as a value instead of being pushed to a shared array; warnings and paths are not modelled, heading levels and list numbers are integers, and decoding has already happened.
- AdfOutline.ConvertShowsOutline: up to white space, of which some is trimmed around blocks and cells; `AdfOutline.LineShowsExactly` says that a line loses none, and `AdfLines` how blocks and lines are laid out.
- AdfReferences.DestinationReadsBackIff: a destination that begins with an opening angle bracket, or is empty, is read by the same rule; line endings count as white space.
- Manifest.ChangesOrderedByParts: with a separator inside a field id or an old value the concatenated key is compared as it is.
- EverhourSync.NoRequestIsLost: one link at a time; links do not share a request.
- TimeAttribution.EitherOrder: the two writers of an order do not interleave. A webhook's read of the timer and the clearing of it afterwards are one step. Entry ids are integers, which is what Everhour assigns; a row removed with its project link is not modelled.
- AdfUnmarked.ConvertedHasNoMarker: one way. A string may break the condition without a marker being printed.
- MigrationProjection.JiraPublication.PublishAtomically: the project, its members, statuses, tickets and attachments, which the same transaction checks and writes, come in as whether they allow the publication.
- GitHubRuns.ConnectionsStaySoundIff: once a transaction has done its unlocked reads, its updates are one step; row locks do this for all but a reconnect that is overtaken between two of its own updates. Check times and error texts, repository renames and pull request events change none of the modelled columns; permissions of the installing user are checked outside the model.
- Integer widths: columns and counters are unbounded integers; none of the modelled values comes near 32 bits in use.
- The durable workflow engine, HTTP routes, GraphQL text, SQL, telemetry, sealing and hashing are represented by steps, parameters and fresh identifiers.
- Legacy checkpoint enrichment and schema decoding: upgrades of data shapes, not protocol.
- Section synchronisation with Everhour: it compares the status "active" with "open", so repeating it is not a no-op, and nothing is claimed about it.
- Two-phase rendering of table cells: pipes are escaped before references are rewritten, so it differs from rendering cells directly, and no such equality is claimed.
- Access statements, mappings and OAuth helpers: each is a table or a composition of strings without state of its own.
