# Verified models of the ambient workers, governed replay, admission anchors and text kernels

A Dafny 4.11 project that models the parts of the repository whose promises span
many operations, and proves those promises over every input and every run.

`dafny verify dfyconfig.toml` checks the whole project.

## What is modelled

**Ambient workers** (`AmbientLog`, `AmbientContinuity`, `AmbientBudget`, `AmbientCursor`,
`AmbientSpend`, `AmbientForgetting`, `AmbientBlindStart`, `AmbientWorker`, `FirstRunAnchor`, `NudgeHandshake`).
A worker consumes an append-only log in windows. Its position is the maximum of a durable baseline and of
all artifact cursors; a sidecar records the held window before a provider is called. `AmbientCursor` is the
protocol as a state machine: append, begin a pass, read its window, land, settle, fail (hold or poison),
crash and restart, where every durable write may succeed, fail with the old file intact, or fail after the
new file is in place. `AmbientWorker` is the same protocol as the object that runs it, loops and
updated fields included, each method proved to be one step of the machine. `AmbientSpend` bounds the
calls one head can cost and `AmbientForgetting` says when that bound fails; `AmbientBlindStart` says what a
start replays that cannot read the sidecar. `FirstRunAnchor` and `NudgeHandshake` are the two smaller
protocols beside it.

**Governed replay** (`ReplayStore`, `ReplayDatabase`, `ReplayExecutor`, `ReplayPromotion`,
`ReplayPromotionRuns`, `ReplayRecovery`, `ReplayScenarios`, `ReplayPromoter`). Each store transaction is one
atomic step with its errors; `ReplayDatabase` updates the tables in place: every method keeps the table
constraints, moves rows only along the state machine and has exactly the effect of the transaction of the
same name. The executor runs stages against an environment that may answer anything. Promotion is
journal, receipt, digest, completion, each durable on its own, in any interleaving with other promoters,
live and closing digest writers, transactions, reclaims and recoveries. `ReplayPromotion` is recovery as
one walk over the journals; `ReplayRecovery` is the same recovery as it runs, step by step with anything in
between, and `ReplayScenarios` are runs that end badly.

**Admission anchors** (`AdmissionOrder`, `AdmissionAnchors`, `AdmissionRollover`, `AdmissionStore`).
A shared file of first admissions kept by any number of processes, with a two-phase rollover whose
steps interleave with everybody else's.

**Text kernels** (`Text`, `EvidenceLedger`, `CitationReceipt`, `ReceiptBody`, `ExtractiveClaim`,
`VersionArchive`, `ForgedHeading`, `StoredText`, `StoredArchive`, `FollowUpRuns`, `SharedRun`). Printer and
parser pairs, the extractive check, the version archive over whole runs of merging and storing, and the
two-row longest-common-run table with the citations drawn from it.

## Where the code promises more than it keeps

Each with an input that shows it and the exact condition under which the code does keep it.

- A recovery that fails has failed for good, for every sitting (`FailedRecoveriesStayFailed`), and what makes
  it fail is one step of the run (`RunsRecoverExactly`, both directions). There are three kinds:
  - A committed promotion is stranded when its owner gives the execution up, or when its lease elapses and
    a reclaim finds it so, as when planning reclaims without recovering first (`StrandingIsReachable`, `ReclaimStrandsExactly`). Recovering first is enough when no
    commit falls in between (`RecoverThenReclaimIsSafe`, `DisciplinedMovesRecoverExactly`) and otherwise not
    (`CommitBetweenStrands`; as one engine recovers, plans and promotes under one lock, that needs a second
    engine on the same journals).
  - Closing a meeting pins its digest, and the promoter neither sets the key that pins nor looks for it: a
    promotion into a closed meeting commits its receipt and cannot show its digest
    (`PromotingAClosedMeetingJams`), and one that was carried through cannot be replayed once the meeting is
    closed (`ClosingAPromotedMeetingJams`). `RecoverableWhileClear` is the condition on the world.
  - The receipt table keeps microseconds and the journal nanoseconds, so a receipt whose time is not a whole
    number of microseconds matches its journal no more (`FractionIsDrift`).
- Recovery replays finished journals too and overwrites a newer unpinned digest of the same sitting
  (`LiveDigestIsOverwritten`; `RecoveryOverwritesOtherWriters`, both directions).
- A start that cannot read its checkpoint puts an empty baseline over the durable one when no window is
  held; it skips nothing, and given-up inputs come back (`BlindStartReplaysExactly`,
  `BlindStartRevivesDeadLetter`).
- At most four failing calls fall on one head, unless a pass drops the head's retry record because it
  finds less than its own minimum. Wake-ups ask for one row and the ticker for the batch minimum, so on
  a short queue they alternate and spend without end (`AlternatingMinimumsSpendWithoutEnd`, on a queue
  that exists by `StarvedQueueExists`). A run that drops no record keeps the bound
  (`BoundedSpendPerHead`), every run that drops one can be continued past it
  (`ForgottenHeadExceedsTheBound`, `ForgettingRunsExceedTheBound`), and passes with a common minimum
  drop none (`CommonMinimumRemembers`).
- Validating a checkpoint twice relabels a contract mismatch (`CoveredWindowRelabels`;
  `ValidateIsIdempotentUnlessMismatched`, with `MismatchLabelExactly` for when the label arises).
- Aborting a staged rollover can remove an admission that was there before
  (`AbortRemovesAnAdmission`; `StageThenAbortRestores`, exactly when it does not).
- The loader's duplicate check compares neighbours only, which is enough on sorted files and not
  otherwise (`NeighboursFindEveryRepeat`, `UnsortedRepeatPasses`).
- A worker's output can smuggle a version boundary past the filter, because the trim after it pulls an
  indented one to the margin (`SanitizedIsCleanUnlessForged`, exactly when; `IndentedBoundaryIsForged`;
  `ForgedOutputLosesTheBody` for the consequence).
- One that is indented further down passes filter and trim and is pulled to the margin by the store
  (`IndentedLaterBoundary`). Throughout a run of follow-ups every version reads back exactly when no line
  that survives the filter is a boundary once stored (`EveryVersionReadsBackExactly`; `BoundaryIsLost`:
  an output with such a line never does).
- A receipt that cites every provider URL in another order does not verify
  (`SwappedCitationsAreRejected`; `OnlyReorderedFullCitationIsRejected`, exactly when).
- A cited title that contains the receipt heading moves the place the verifier reads from
  (`HeadingTitleIsMisread`; `BodyReadsBackExactly`, exactly when a receipt reads back from a body). The first
  printing can fail so; a receipt that was read from a body can not (`ReprintedReadsBack`).
- A message with three shared content words in a row can go uncited, because only the longest run is
  looked at (`LongerStopwordRunHidesEvidence`; `EvidenceExactly`, exactly when it is cited;
  `WithoutStopwordsNothingIsMissed`).

## Model

| member | source | states |
|---|---|---|
| AmbientLog.EffectiveStart | agent_runner.go:2287-2306 | the scan over all artifacts computes the maximum of the baseline's position and every counting artifact's cursor, hidden targets included |
| AmbientLog.UnconsumedEntries | agent_runner.go:2260-2326 | the loop returns exactly the first `limit` pending rows, in order |
| AmbientLog.AppendStart | agent_runner.go:2287-2306 | appending a row leaves the effective start alone or moves it to that row's own floor |
| AmbientWorker.CutCompatiblePrefix | agent_runner.go:2328-2347 | the loop returns the longest prefix that does not mix two sittings |
| AmbientBudget.BatchCeiling | agent_runner.go:1960-1971 | the halving loop with its early exit grants max(minBatch, ceil(maxBatch / 2^attempts)) |
| AmbientBudget.HoldBackoff | agent_runner.go:1593-1599 | the doubling loop yields min(cap, base * 2^(attempt-1)) |
| AmbientBudget.BackoffFormsAgree | agent_runner.go:1979-2002 | the shifted delay of a poison failure is the same schedule |
| AmbientBudget.CeilingShrinks | agent_runner.go:1932-1972 | every retry is granted at least one row and no more than the retry before it |
| AmbientContinuity.ResolveContinuity | agent_runner.go:835-928 | the resolver's walk over artifacts computes the furthest proven position, or says clean or unprovable |
| AmbientContinuity.ResolvedBaselineIsAccepted | agent_runner.go:934-994 | an unambiguous resolver baseline passes the reference normaliser unchanged |
| AmbientContinuity.ResolvedBaselineNeverSkips | agent_runner.go:835-928 | an eligible input behind the resolved baseline is covered by some artifact of the scope |
| AmbientContinuity.ValidatedCheckpointIsOrdered | agent_runner.go:612-664 | an unblocked validated checkpoint has a resolvable baseline strictly before its held window |
| AmbientContinuity.ValidateIsIdempotentUnlessMismatched | agent_runner.go:612-664 | validating twice equals validating once if and only if the block is not the contract-mismatch label, which degrades to checkpoint_invalid |
| AmbientContinuity.MismatchLabelExactly | agent_runner.go:612-664 | exactly when the mismatch label is what validation leaves |
| AmbientContinuity.CoveredWindowRelabels | agent_runner.go:612-664 | a window held under an old contract whose row an artifact has covered is labelled contract_mismatch by the first validation and checkpoint_invalid by the second |
| AmbientContinuity.SoundCheckpointSurvives | agent_runner.go:325-372 | a sound checkpoint is neither rewritten nor superseded by a start |
| AmbientCursor.RunConserves | agent_runner.go:1361-1440 | over any run with faults, crashes and restarts, the eligible inputs after the starting position are, in order, those consumed and dead-lettered followed by those still pending |
| AmbientCursor.NothingTwice | agent_runner.go:1663-1705 | no input is disposed of twice, and nothing disposed of is still pending |
| AmbientCursor.StepConserves | agent_runner.go:1428-1440 | the account of a single step: pending plus appended equals disposed plus still pending |
| AmbientCursor.RunKeepsInv | agent_runner.go:222-323 | memory and sidecar stay consistent in every run: sound checkpoint, anchored baselines, the window being called is the head of what is pending |
| AmbientCursor.DurableBeforeCall | agent_runner.go:1420-1427 | whenever the provider is being called the sidecar holds the head and a baseline before it, and a crash there followed by a restart resumes with the same rows pending |
| AmbientCursor.CrashResumesInPlace | agent_runner.go:325-372 | a crash anywhere followed by a restart resumes in place, or past exactly the one input whose dead letter is already on disk |
| AmbientCursor.HoldNeverAdvances | agent_runner.go:1573-1614 | a hold moves no baseline, in memory or on disk, and disposes of nothing |
| AmbientCursor.RestartEstablishesInv | agent_runner.go:325-402 | whatever checkpoint is found, or none, a start whose writes succeed and that opens no circuit establishes the invariant |
| AmbientCursor.FirstStartSkipsNothing | agent_runner.go:374-402 | a scope's first start, whatever becomes of its writes, resumes past an eligible row only if an artifact covers it, or as pre-boot history behind the first-run anchor of a scope that never produced |
| AmbientSpend.BoundedSpendPerHead | agent_runner.go:1979-2023 | in a run that never drops the retry record of a head it has called, at most four failing calls fall on one head between two starts; after four it is dead-lettered or still the head behind an open circuit |
| AmbientForgetting.ForgottenHeadExceedsTheBound | agent_runner.go:1398-1410 | once a pass drops the record of a head that has cost n calls, n + 4 can be spent on it without a start, and it is still pending and not dead-lettered |
| AmbientForgetting.ForgettingRunsExceedTheBound | agent_runner.go:1398-1410 | every run that drops such a record has a beginning that some continuation takes past four calls on one head |
| AmbientForgetting.AlternatingMinimumsSpendWithoutEnd | agent_runner.go:1276-1291 | for every n, wake-ups and ticks alternating on a queue shorter than the batch minimum spend n failing calls on one head after one start and dispose of nothing |
| AmbientForgetting.StarvedQueueExists | agent_runner.go:1274-1278 | such a queue exists |
| AmbientForgetting.CommonMinimumRemembers | agent_runner.go:1394-1410 | when every pass asks for the same minimum no pass drops the record of a head it has called |
| AmbientBlindStart.BlindStartReplaysExactly | agent_runner.go:252-284 | a start whose checkpoint read fails skips nothing and lets no pass run; what comes back is exactly the eligible rows that only the lost baseline had passed, none if a window is held or the write is lost |
| AmbientBlindStart.BlindStartRevivesDeadLetter | agent_runner.go:1099-1116 | an input that was given up is no longer pending on disk, and is again after a crash and such a start |
| AmbientWorker.AmbientWorker.AttemptBudget | agent_runner.go:1932-1972 | admits a pass exactly when the protocol's budget does, with the same ceiling |
| AmbientWorker.AmbientWorker.Begin | agent_runner.go:1394-1427 | the guarded pass up to the durable hold is the protocol's begin step, faults included |
| AmbientWorker.AmbientWorker.Read | agent_runner.go:1663-1705 | reading the window of an admitted pass, after the log may have grown, is the protocol's read step |
| AmbientWorker.AmbientWorker.Settle | agent_runner.go:1436-1440 | settling a landed pass is the protocol's settle step |
| AmbientWorker.AmbientWorker.RecordHold | agent_runner.go:1573-1614 | recording a hold is the protocol's hold step |
| AmbientWorker.AmbientWorker.RecordPoison | agent_runner.go:1979-2023 | recording a poison failure is the protocol's poison step: back off, or publish the dead letter and only then advance |
| AmbientWorker.AmbientWorker.ClearFailure | agent_runner.go:2072-2088 | the durable marker is cleared first, the record only if that succeeded |
| AmbientWorker.AmbientWorker.PersistHeldWindow | agent_runner.go:222-248 | however the write ends memory and sidecar stay consistent and nothing pending moves; acknowledged, a restart finds the head held, behind a baseline before it |
| AmbientWorker.AmbientWorker.PersistBaseline | agent_runner.go:303-323 | however the write ends memory and sidecar stay consistent; a restart then finds exactly the head gone, or, if the write was lost, what it would have found before |
| AmbientWorker.AmbientWorker.Register | agent_runner.go:252-284 | making the resolved checkpoint durable and registering it is the protocol's registration |
| AmbientWorker.AmbientWorker.Restart | agent_runner.go:1053-1144 | a worker start, on a stored checkpoint or the first of its scope, is the protocol's restart step |
| FirstRunAnchor.AnchorIsFixedPoint | agent_runner.go:475-572 | an anchor's own baseline resolves, so it is not superseded again while its row stays visible |
| FirstRunAnchor.ReanchorMovesBack | agent_runner.go:405-442 | re-anchoring a marked scope strictly lowers its position |
| FirstRunAnchor.EveryReanchorMovesBack | agent_runner.go:511-577 | the same for every reconciliation of every run of starts, passes, holds, clears, dead letters, appends and hidden rows with a fixed boot head |
| FirstRunAnchor.SupersessionsAreBounded | agent_runner.go:475-577 | over any such run supersessions number at most one plus the visible rows hidden |
| FirstRunAnchor.MarkedBaselineStands | agent_runner.go:303-323 | throughout any such run a marked scope that has produced nothing stands on an anchor with no visible input up to the boot head, or on an input past the boot head |
| NudgeHandshake.NeverLosesAWake | agent_runner.go:1860-1901 | in every interleaving, a non-empty pending set implies a token, a nudger between its two steps, or the loop between receive and drain |
| NudgeHandshake.EveryNudgedRoomIsDelivered | agent_runner.go:1293-1297 | the loop's next wake hands over exactly the rooms nudged since the last drain |
| ReplayStore.RunKeepsValid | ambient_intelligence_replay_postgres.go:143-264 | over any serial order of transactions: unique digests and keys, at most one active manifest per sitting, well-shaped rows, and rows that only move along the status machine |
| ReplayStore.EveryReachableStoreIsValid | ambient_intelligence_replay_postgres.go:286-356 | the same from the empty store |
| ReplayStore.RetriedSaveReturnsFirst | ambient_intelligence_replay_postgres.go:143-264 | a retried save, after any transactions, returns the first stored manifest and changes nothing |
| ReplayStore.TerminalIsFenced | ambient_intelligence_replay_postgres.go:342-443 | after any transactions a terminal row is unchanged and refuses every late write of any execution |
| ReplayDatabase.ReplayDatabase.SaveManifest | ambient_intelligence_replay_postgres.go:143-264 | in place: the whole effect and result of the save transaction; the table constraints stay, rows only move along the state machine, and an error changes nothing |
| ReplayDatabase.ReplayDatabase.InsertCursors | ambient_intelligence_replay_postgres.go:248-259 | one cursor per stage, standing at the start of the range |
| ReplayDatabase.ReplayDatabase.BeginExecution | ambient_intelligence_replay_postgres.go:286-340 | a new execution starts exactly on a planned, unexpired manifest with stages whose first receipt is absent; it then owns the row under a live lease, only that row and the prepared receipt are written, and anything else changes nothing |
| ReplayDatabase.ReplayDatabase.RenewExecutionLease | ambient_intelligence_replay_postgres.go:342-356 | succeeds exactly for the owner of a live lease; only that row's lease changes, and the execution owns the row until the new expiry |
| ReplayDatabase.ReplayDatabase.RecordStageReceipt | ambient_intelligence_replay_postgres.go:358-419 | in place: receipt upsert and cursor advance together or not at all |
| ReplayDatabase.ReplayDatabase.CompleteExecution | ambient_intelligence_replay_postgres.go:421-443 | succeeds exactly for the owner of a live lease and a terminal status; only that row changes, it ends with that status and no lease, and nobody owns it at any time after |
| ReplayDatabase.ReplayDatabase.ReclaimExpired | ambient_intelligence_replay_postgres.go:445-503 | the candidate loop equals reclaiming every elapsed row at once, counts them, and keeps the table constraints |
| ReplayDatabase.ReplayDatabase.CommitPromotion | ambient_intelligence_replay_postgres.go:87-141 | no existing receipt is ever replaced or removed and no other added; success means that the table holds this receipt with its time cut to microseconds, and a new one only for a running or completed execution of that manifest; a retry succeeds exactly when the time had no fraction of a microsecond; otherwise nothing is written |
| ReplayDatabase.ReplayDatabase.FinalizePromoted | ambient_intelligence_replay_postgres.go:47-85 | succeeds exactly for an execution its own receipt covers that runs or has completed, lease or not; its row is completed, a completed one and every other row untouched |
| ReplayExecutor.ValidateCanonicalStages | ambient_intelligence_replay.go:254-266 | accepts exactly non-empty, duplicate-free lists of compiled routes that start with the brain stage |
| ReplayExecutor.SelectStages | ambient_intelligence_replay.go:369-393 | succeeds exactly on selectable requests, depends on the set of names only, and selects what validation accepts |
| ReplayExecutor.AttemptStage | ambient_intelligence_replay.go:512-574 | one pass of the stage loop: the calls made, the usage charged, the receipt and the verdict, on every branch |
| ReplayExecutor.Execute | ambient_intelligence_replay.go:506-591 | the executor's loop is the stage-by-stage walk, failures and stops included |
| ReplayExecutor.CompletedExecutionIsAccountedFor | ambient_intelligence_replay.go:506-591 | a completed execution has one receipt per stage in order, chained by digest from the sources, each within its stage caps, summing to a usage within the manifest caps |
| ReplayExecutor.CompletedCallsArePaidStages | ambient_intelligence_replay.go:548-561 | its calls are the non-deterministic stages, so a manifest allowing fewer can never complete |
| ReplayExecutor.RefusedStageEndsTheRun | ambient_intelligence_replay.go:593-610 | nothing runs or is promoted after a stage that is not accepted; the execution ends failed or drifted, or is left running when the store refused |
| ReplayExecutor.PromoterRunsLast | ambient_intelligence_replay.go:575-590 | provider calls are in order and one per stage; the promoter is called once, after all of them, with exactly what they produced; a failed end follows it only when it refused |
| ReplayPromotion.RecoverExactly | ambient_intelligence_replay_promotion.go:79-108 | recovery succeeds exactly when every receipt-bearing manifest is running or completed, its receipt's time is a whole number of microseconds and its sitting's digest is not pinned, and then completes exactly those and shows each sitting its newest receipt-bearing digest |
| ReplayPromotionRuns.RecoverableWhileClear | memory.go:3250-3266 | the same as a condition on what is durable: recovery succeeds exactly while no committed receipt's manifest has failed, none lost a fraction of a microsecond and none is for a pinned sitting |
| ReplayPromotionRuns.FailedRecoveriesStayFailed | ambient_intelligence_replay_runtime.go:77-87 | after a recovery that fails no later one succeeds, whatever happens in between |
| ReplayPromotionRuns.RunKeepsInv | ambient_intelligence_replay_promotion.go:56-77 | every interleaving of promoters, live and closing writers, transactions and completions keeps the invariant and undoes no journal, receipt or terminal row |
| ReplayPromotionRuns.PromotedDigestHasReceipt | ambient_intelligence_replay_promotion.go:56-77 | wherever promoters stopped, a promoted digest exists only if a receipt for that manifest, sitting and body committed, as the table keeps it, and its journal is durable |
| ReplayPromotionRuns.RecoveryFinishesEveryReceipt | ambient_intelligence_replay_promotion.go:79-108 | after a successful recovery every receipt's manifest is completed and its sitting shows the newest receipt-bearing digest |
| ReplayPromotionRuns.RecoveringTwiceIsRecoveringOnce | ambient_intelligence_replay_promotion.go:79-108 | a second recovery succeeds and changes nothing |
| ReplayPromotionRuns.RecoveryOverwritesOtherWriters | ambient_intelligence_replay_promotion.go:250-278 | a sitting keeps its digest exactly when it has no receipt-bearing journal or already shows the newest one |
| ReplayScenarios.LiveDigestIsOverwritten | ambient_intelligence_replay_promotion.go:250-278 | a run whose live writer's digest the next recovery puts back to the promoted text |
| ReplayPromotionRuns.StrandedReceiptBlocksRecovery | ambient_intelligence_replay_postgres.go:47-85 | a receipt whose manifest ended any way but completed makes every later recovery fail |
| ReplayPromotionRuns.RunsRecoverExactly | ambient_intelligence_replay_promotion.go:79-108 | after any run from the empty store a recovery succeeds exactly when no step of the run blocked it: no reclaim found a committed receipt's lease elapsed, no owner gave up a promoted execution, no promoted meeting was closed, and no receipt committed for a closed one or with a fraction of a microsecond; and then every receipt is completed |
| ReplayPromotionRuns.ReclaimStrandsExactly | ambient_intelligence_replay.go:283-285 | a reclaim leaves recovery possible exactly when it was and no committed receipt's lease has elapsed; otherwise no later recovery succeeds, whatever happens |
| ReplayRecovery.RecoveryCompletesWhatItFound | ambient_intelligence_replay_promotion.go:79-108 | whatever promoters, writers, transactions and other recoveries do between its steps, a recovery that ends well has completed every receipt committed before it began |
| ReplayRecovery.FailureIsForGood | ambient_intelligence_replay_promotion.go:79-108 | a recovery that fails among all that has failed for good: none begun later ends well |
| ReplayRecovery.AloneIsRecover | ambient_intelligence_replay_promotion.go:79-108 | its steps, undisturbed, are the walk over the journals |
| ReplayRecovery.RecoverThenReclaimIsSafe | ambient_intelligence_replay.go:453-460 | after a recovery that ended well, whatever else happened since it began short of a new commit, every receipt is completed and a reclaim at any clock reading strands nothing |
| ReplayScenarios.CommitBetweenStrands | ambient_intelligence_replay.go:453-460 | moves with another engine's commit between a successful recovery and the reclaim, after which no recovery succeeds |
| ReplayScenarios.StrandingIsReachable | ambient_intelligence_replay.go:283-285 | a run from the empty store whose receipt can be recovered until planning's reclaim, and never after |
| ReplayScenarios.PromotingAClosedMeetingJams | memory.go:3250-3266 | a run that promotes into a closed meeting: the receipt commits, its digest is refused, its execution runs under a live lease, and no recovery ever succeeds again |
| ReplayScenarios.ClosingAPromotedMeetingJams | meeting_digest.go:1269-1273 | a run that closes a meeting after a promotion that was carried through, recoverable before the close and never after |
| ReplayScenarios.FractionIsDrift | ambient_intelligence_replay_promotion.go:280-299 | a receipt with any fraction of a microsecond: committing it again is drift, and no recovery succeeds |
| ReplayRecovery.DisciplinedMovesRecoverExactly | ambient_intelligence_replay.go:453-460 | when every reclaim follows a recovery with no commit since it began and no promoted execution is given up, recovery succeeds after any such moves exactly while no promoted sitting is pinned and no receipt lost a fraction of its time, and completes every receipt |
| ReplayPromoter.ReplayPromoter.PersistJournal | ambient_intelligence_replay_promotion.go:225-248 | no entry is ever changed or removed and no other added; success means exactly that this entry is durable, and it is refused exactly when another stands under its digest; the invariant stays |
| ReplayPromoter.ReplayPromoter.UpsertDigest | memory.go:3250-3266 | what is returned is what is current afterwards: the new digest, unless the current one is pinned and the new one is not |
| ReplayPromoter.ReplayPromoter.FinalizeJournal | ambient_intelligence_replay_promotion.go:250-278 | success means the sitting shows this manifest's body and no other sitting changes; once the journal's receipt has committed it is refused exactly when the sitting's digest is pinned, and then nothing is written |
| ReplayPromoter.ReplayPromoter.Promote | ambient_intelligence_replay_promotion.go:56-77 | what is durable after a promotion that may die anywhere is a run of its first steps, which keeps the invariant and undoes nothing; ended before the second it has left no receipt, from there on its receipt has committed; success means all are done |
| ReplayPromoter.ReplayPromoter.Recover | ambient_intelligence_replay_promotion.go:79-108 | the walk over the journals, stopping at the first error: it succeeds exactly while no committed receipt's manifest has failed, lost a fraction of its time or is for a pinned sitting, and then every one is completed |
| AdmissionOrder.KeyOrder | admission_anchor.go:911-928 | the key order of the file is total and strict |
| AdmissionOrder.SameRowsSameFile | admission_anchor.go:911-928 | a strictly sorted file is determined by its rows, so an unstable sort has nothing to choose |
| AdmissionAnchors.Load | admission_anchor.go:834-873 | accepts exactly valid files without two equal neighbours |
| AdmissionAnchors.NeighboursFindEveryRepeat | admission_anchor.go:856-864 | on a sorted file comparing neighbours finds every repeated key |
| AdmissionAnchors.UnsortedRepeatPasses | admission_anchor.go:861-863 | an unsorted file with a repeated key that the check accepts |
| AdmissionAnchors.FirstAdmissionIsMinimum | admission_anchor.go:147-196 | over any offers from any processes the file stays strictly sorted and keeps, per key, the minimum with the cutoff, watermark and marker of the first offer attaining it |
| AdmissionAnchors.FileAlwaysLoads | admission_anchor.go:874-897 | whatever processes do and whichever replaces fail, the file is sorted, valid and loadable |
| AdmissionAnchors.ResolvedAt | admission_anchor.go:343-389 | resolution acts row by row and touches matching rows only |
| AdmissionAnchors.ResolutionIsIdempotent | admission_anchor.go:343-389 | resolving twice, either way, is resolving once |
| AdmissionAnchors.StageThenAbortRestores | admission_anchor.go:483-533 | staging any prefix and aborting restores the exact file if and only if no row was staged for that successor and no existing row is later than an offer for its key; for a fresh successor always |
| AdmissionAnchors.StageThenCommitAddsAnchors | admission_anchor.go:483-533 | commit adds exactly one unmarked row per distinct carried principal and leaves the rest alone |
| AdmissionAnchors.StagingIsInvisible | admission_anchor.go:237-283 | whichever replace of the staging a crash follows, every sitting's start is unchanged and the staged sitting has none |
| AdmissionRollover.InterleavedStageThenAbort | admission_anchor.go:483-533 | with other processes admitting and resolving other sittings between the offers of a staging, an abort leaves the file they alone would have left |
| AdmissionRollover.InterleavedStagingIsInvisible | admission_anchor.go:237-283 | until it commits, such a staging moves no sitting's start |
| AdmissionRollover.AbortRemovesAnAdmission | admission_anchor.go:343-389 | a reachable file in which the abort of a staging removes a principal already admitted to the successor |
| AdmissionRollover.ReportedStartIsTheStart | admission_anchor.go:511-533 | the start a staging reports is the start its successor has once the rollover commits |
| AdmissionAnchors.StartIsEarliest | admission_anchor.go:258-268 | a sitting's start is its earliest unmarked admission, and exists exactly if there is one |
| AdmissionStore.AdmissionAnchorStore.RecordFirst | admission_anchor.go:147-196 | under the lock: the new file, and the returned row is what the file holds for the key |
| AdmissionStore.AdmissionAnchorStore.Lookup | admission_anchor.go:198-230 | reloads and returns the key's row |
| AdmissionStore.AdmissionAnchorStore.ResolvePendingRollover | admission_anchor.go:343-389 | under the lock: one replace, or none when nothing matches |
| AdmissionStore.AdmissionAnchorStore.SittingStarts | admission_anchor.go:237-283 | lists exactly the earliest unmarked admission of every sitting, once each, by time, room and sitting |
| AdmissionStore.AdmissionAnchorStore.StageRollover | admission_anchor.go:483-533 | success stages every occupant and reports the least admission time offered and the carried names in order; a failure reports nobody and, where its abort is durable, leaves a fresh successor's file as it was |
| EvidenceLedger.MarkdownCells | agent_thread_quality.go:2930-2963 | the character loop over one table line, escapes included |
| EvidenceLedger.LedgerRows | agent_thread_quality.go:2864-2928 | the line scanner; every row it accepts has the eight columns |
| EvidenceLedger.ReplacementsEscape | agent_thread_quality.go:1578-1583 | the printer's three replacements, in their order, are one escape of the shown text |
| EvidenceLedger.ScanEscaped | agent_thread_quality.go:2930-2963 | scanning an escaped text gives the text back, whatever it contains |
| EvidenceLedger.RowReadsBack | agent_thread_quality.go:1591-1597 | a printed table line reads back as its cells |
| EvidenceLedger.PrintedLedgerReadsBack | agent_thread_quality.go:1585-1607 | parsing a printed envelope gives exactly its rows in order, cells trimmed and newlines as breaks, for arbitrary text |
| CitationReceipt.CompactReceipt | agent_thread_quality.go:3064-3103 | the printing loop: distinct cited URLs, provider titles, counts and digest, or rejection |
| CitationReceipt.VerifyReceipt | agent_thread_quality.go:2979-3057 | the verifying loop over rows and marker |
| CitationReceipt.LineReadsBack | agent_thread_quality.go:2999-3022 | a printed row reads back as its URL and title, even when the title contains the separator |
| CitationReceipt.CompactReceiptVerifies | agent_thread_quality.go:2979-3057 | the verifier recovers URL set, titles, counts and digests of every compact receipt, except exactly when as many URLs are cited as the provider returned under another digest |
| CitationReceipt.OnlyReorderedFullCitationIsRejected | agent_thread_quality.go:3046-3048 | that happens exactly when every provider URL is cited, in another order |
| CitationReceipt.SwappedCitationsAreRejected | agent_thread_quality.go:3046-3048 | two URLs cited in the provider's order verify; the other way round they are printed and then rejected |
| ReceiptBody.BodyVerifiesAsPrinted | agent_thread_quality.go:2979-2989 | a printed receipt none of whose cited titles contains the heading verifies in any body with its one marker as it does alone |
| ReceiptBody.BodyReadsBackExactly | agent_thread_quality.go:2979-3057 | in a body the verifier recovers what a compact receipt says exactly when no cited title contains the heading and the provider's own URLs are not cited in another order |
| ReceiptBody.HeadingTitleIsMisread | agent_thread_quality.go:2984-2989 | a receipt that verifies alone and does not read back from a body, because its title is the heading |
| ReceiptBody.HeadingFound | agent_thread_quality.go:2984-2988 | the last heading before the marker is the printed one exactly when no cited title contains it |
| ReceiptBody.ReadTitlesHaveNoHeading | agent_thread_quality.go:2979-3057 | no title of a receipt read from a body contains the heading, when its titles were printed clean |
| ReceiptBody.ReprintedReadsBack | agent_thread_quality.go:1642-1666 | verify, compact, verify: a receipt read from such a body and printed again into any body reads back to what it says, exactly unless the provider's own URLs are cited in another order |
| ExtractiveClaim.TokenSubsequence | agent_thread_quality.go:1922-1934 | the greedy scan succeeds if and only if the display is a subsequence of the candidate |
| ExtractiveClaim.SameContentIsOnlyOmissions | agent_thread_quality.go:1899-1909 | subsequence with equal content tokens is exactly the candidate with only omittable tokens deleted |
| ExtractiveClaim.DisplayClaimAllowed | agent_thread_quality.go:1964-2031 | an allowed display is the candidate itself, or, where the tokenizers agree, the candidate with only omittable tokens deleted |
| VersionArchive.StripRunMarkers | agent_thread_followup.go:833-843 | the filtering loop over a worker's output |
| StoredText.NormalizeEntryText | memory.go:4291-4310 | the store's loop: lines trimmed, returns made breaks, runs of blank lines collapsed |
| StoredText.StoredIsKept | memory.go:4291-4310 | the stored text's lines are the text's trimmed lines with single blanks between them, and nothing is left to trim |
| StoredText.KeptIsInk | memory.go:4291-4310 | what is stored stays as it is when it is stored again |
| StoredText.InkGlue | memory.go:4291-4310 | storing two texts with a blank line between them is storing each |
| StoredArchive.SplitGivesBack | agent_thread_followup.go:820-829 | splitting a stored body gives back the latest version and the archive |
| StoredArchive.MergeStores | agent_thread_followup.go:848-861 | a merge into a stored body, stored again: the new version as stored on top, the old one under its heading in front of the archive, the newest four kept |
| StoredArchive.CappedBlock | agent_thread_followup.go:863-869 | capping keeps the newest sections whole, up to what storing tidies |
| FollowUpRuns.ArchiveAfterFollowUps | agent_thread_followup.go:596-661 | after any number of follow-ups, each merged into what the store made of the one before, splitting gives the last output as stored and the at most four versions before it, newest first under their own numbers |
| ForgedHeading.SanitizedIsCleanUnlessForged | agent_thread_followup.go:833-843 | sanitized output contains a version boundary if and only if the first inked line that survives the filter is one once pulled to the margin |
| ForgedHeading.IndentedBoundaryIsForged | agent_thread_followup.go:842-842 | a concrete output that does |
| ForgedHeading.ForgedOutputLosesTheBody | agent_thread_followup.go:820-861 | after merging one, the latest version reads as empty |
| FollowUpRuns.EveryVersionReadsBackExactly | agent_thread_followup.go:596-661 | the latest version reads back after each follow-up of a run exactly when no output has a line that survives the filter and is a boundary once stored |
| FollowUpRuns.StoredOutputIsGood | memory.go:4291-4310 | one output: what is stored of it can be told from the versions below exactly then |
| FollowUpRuns.BoundaryIsLost | agent_thread_followup.go:820-861 | an output with such a line does not read back, whatever body it is merged into |
| FollowUpRuns.IndentedLaterBoundary | agent_thread_followup.go:833-843 | for every version and stamp, an output that is not forged, that the filter leaves alone, and that has such a line |
| SharedRun.FillRow | answer_sources.go:97-108 | one row of the table from the row above, with the best run so far |
| SharedRun.LongestSharedRun | answer_sources.go:88-119 | the swap-and-clear table finds the best run and its content words |
| SharedRun.BestRunIs | answer_sources.go:88-119 | the run found is the one that is shared, longest, and earliest in the answer among the longest |
| SharedRun.BestRunIsLongest | answer_sources.go:82-87 | it is contiguous in both lists and no run contiguous in both is longer |
| SharedRun.GroundAnswer | answer_sources.go:125-184 | the cited sources are the strongest of the candidates, up to the limit |
| SharedRun.CitationsAreEvidence | answer_sources.go:144-170 | every citation quotes a longest shared run of a message not written by the assistant, with at least three content words |
| SharedRun.NothingStrongerIsLeftOut | answer_sources.go:172-183 | candidates split into cited and left out, and none left out is stronger than one cited |
| SharedRun.SortIsStable | answer_sources.go:174-176 | equally strong candidates keep the order of their messages |
| SharedRun.EvidenceExactly | answer_sources.go:144-170 | a message is evidence exactly when it shares a run with three content words that no shared run with fewer hides, by being longer or as long and earlier in the answer |
| SharedRun.WithoutStopwordsNothingIsMissed | answer_sources.go:156-159 | for a message without stopwords, having evidence is exactly sharing a run of three content words |
| SharedRun.LongerStopwordRunHidesEvidence | answer_sources.go:156-159 | in general it is not: a longer run of stopwords hides three shared content words |

## Left out

- Provider HTTP, prompts, web handlers, broadcasts, notifications and logging: input and output without provable content here.
- SHA-256 and JSON encoding: a digest is modelled as the digested value, the simplest injective function; artifact digests are an arbitrary function.
- SQL: transactions are serial and their outcome is known to the caller; connection failures around a commit are not modelled. Only a receipt's time is modelled finer than the tables keep it; other clock readings are whole microseconds.
- Normalisation of ids, rooms, emails and titles is idempotent trimming in the program; the models take normalised values, and Unicode case folding is limited to ASCII.
- FirstRunAnchor.SupersessionsAreBounded: for a fixed boot head and acknowledged writes; how it is computed, and its moving across process restarts, is not modelled.
- Visibility, readability and ownership of a log row are fields of the row: access control, consent and tenant checks behind them are left out.
- AmbientCursor.RunConserves: assumes unique ids, fixed visibility during the run, and that a produced window appends one visible artifact whose cursor is its last id; foreign artifacts of the same scope may not have a cursor ahead of the worker.
- The repairs and first baselines from the current meeting, backfill starts, sparse digest recovery, tombstone entries, the breaker pause and the work run on a drained window are not part of the worker model; the first-run anchor repair inside a live pass is modelled in FirstRunAnchor only.
- AmbientCursor.RunConserves: a restart is enabled when the worker is idle; the program waits for its old loop only, and a pass started outside that loop can overlap a restart. A start that cannot read its checkpoint is not a step of these runs; AmbientBlindStart says what one does.
- Per-room timers, age-based nudges and the close-time flush chain: scheduling, which decides when a pass runs and not what it does.
- Replay authority planning and revalidation against external stores: an arbitrary answer of the environment.
- The canonical body and metadata of a promoted digest are inputs; the metadata map that travels with a journal is not compared. The body is one line of JSON, which the store's normalisation keeps, so a digest is stored as it is given.
- A digest, once pinned, stays current until another pinned one replaces it: hiding a digest from recall, which would unpin it, is not modelled.
- A recovery reads its journals at once and in the order they were appended; an unreadable journal entry is not modelled.
- Anchor ids are a function of the key and are not stored separately; the file checksum is left out, a replace being atomic.
- ReceiptBody.ReprintedReadsBack: that the receipt it starts from was printed with clean titles is assumed, as the source formatter prints it; the formatter itself is not modelled.
- FollowUpRuns.EveryVersionReadsBackExactly: the first body is assumed to have text and no boundary line, and stamps to be one line; manual edits between follow-ups are not modelled.
- ReceiptBody.BodyReadsBackExactly: matching the marker's pattern is the environment's, which is assumed to find the printed marker and no other; the older marker without audit facts is read but never printed.
- ExtractiveClaim.DisplayClaimAllowed: the pattern gates, the role skeleton, the material values and the topic overlap enter as two truth values; they can only refuse.
- SharedRun.GroundAnswer: messages carry their normalised words and roles; splitting text into words is left out.
- Vocabulary tables and regular-expression gates of the quality checks: heuristics without a statable law.
