# A model of the VPN manager's three agreeing worlds

The program keeps three stateful worlds in agreement while any call may fail:
the PostgreSQL tables, the local traffic spool file, and the configuration the
sing-box core runs. This project models the machinery that does so, in Dafny,
and proves what holds over every run of it. The whole project is one
`dafny verify dfyconfig.toml`.

## How it is modelled

* An object whose methods update its fields is a class with those fields. Every
  method is proved against a function of the old state (`StepOf`, `DeployOf`,
  `RecordBatch`, `InstallOf`, ...), and the results about whole runs are lemmas
  about those functions.
* A transaction is one atomic step on `Database.Tables`. It commits, fails, or
  commits without the caller hearing of it (`Outcome`).
* A call that leaves the process has a nondeterministic outcome: it succeeds,
  fails before its effect, or fails after it. A crash is one of the two failures
  followed by the loss of memory.
* An instant is a number of nanoseconds since the year 1; 0 is the zero time.
  The database's columns keep microseconds. A stored period start, activity or
  streak start is the instant cut to a microsecond, so a boundary such as the
  one of `RollOver.RestartDecides` is off by less than that.
  Machine integers are written out where they matter: the wrapping `uint64`
  generation, the `int64` byte counts, and the saturating `time.Duration`.
* SHA-256 is treated as injective: a batch id is the bytes that are hashed. The
  migrations' unique index on waiting outbox rows and the `blocked` column are
  used as constraints.

| module | models |
|---|---|
| `Access`, `Quota` | the account life cycle and the quota window |
| `BatchId`, `Collector`, `Spool` | batch ids, folding counters into samples, the spool file |
| `Database`, `BulkUpdates`, `Store` | the transactions, as functions on the tables and as methods |
| `Issuing`, `Deciding` | what issuances, qualification decisions and revocations do to a user |
| `Ledger`, `LedgerRuns`, `LedgerAnswers` | the collect, spool, record, delete pipeline, its runs and its answers |
| `TrafficHealth`, `Service` | fail-closed health and the service driving it |
| `Recording`, `RollOver`, `Usage` | when a batch can be recorded, what stands in its way, and what the stored usage is made of |
| `CoreActions`, `Worker`, `WorkerRuns` | the outbox rows, their worker and its runs |
| `WorkerUrgency`, `WorkerTiming`, `WorkerLives` | when the worker deploys, its clocks in one life and across crashes |
| `Drift`, `WorkerDrift` | the drift between the tables and the installed configuration, over transactions and over the worker's own runs |
| `Install` | installing a configuration with rollback |
| `LoginLimiter`, `Reservoir`, `RealitySearch` | the login limiter, the domain sampling, the parallel search |
| `Scheduler`, `Pacer`, `Rechecker`, `TelegramRunner` | the recheck scheduler, request pacing, paged rechecks, the update loop |
| `Basics`, `Ordering` | shared vocabulary |

## Where the code keeps less than one might expect

Where a property fails for some inputs, one lemma names an input and another says
exactly when the property holds; the batch without traffic and the scheduler's
wait behave as described on every input, and one lemma each says so.

* The generation of an account in memory is a `uint64` that wraps at 2^64; a
  snapshot taken then is refused on restore (`Access.RestoreAcceptsReachable`).
  The tables never hold one: their columns refuse generations above 2^63 - 1.
* `time.Duration` saturates at about 292 years. A record that far beyond the
  window then open is counted into a period that is not its own, and one more
  advance loses it (`Quota.OvershootLosesUsage`, `Quota.SaturationLosesUsage`);
  exactly the runs without such a record keep the sum
  (`Quota.SumsIffNeverOvershoots`, `Quota.AdvanceComposes`, `Quota.SweepAgrees`).
* `Save` writes spool files that `Load` refuses, past one mebibyte
  (`Spool.SaveLoadRoundTrip`, `Spool.OversizeBatchesAreSaved`).
* A valid batch can be recorded exactly when its id is known or, for every
  active user with traffic in it, the account and the quota are in one period,
  nothing stored is later than the batch, and the bytes fit
  (`Recording.RowIsRecorded`, `Recording.BatchIsRecorded`). It cannot after a
  roll-over, which moves the quota row's period and not the account's, until the
  period is restarted at or before the batch's instant; and it cannot after a
  restart later than the batch, with or without a roll-over
  (`RollOver.RollOverEndsRecording`, `RollOver.RestartDecides`). Such a batch
  stays in the spool and keeps every later collection from starting; after five
  minutes the health row closes the service for everybody
  (`Service.StepReachesWedge`, `Service.WedgeClosesService`).
* Two collections at one instant with equal counters have one batch id, and the
  second is dropped as a replay (`Service.SameInstantLosesBytes`). Exactly the
  bytes of such repeats are ever missing (`LedgerRuns.ExactlyOnce`,
  `LedgerRuns.ConservedIffNeverRepeats`).
* A batch of samples without traffic leaves no ingested id; it changes nothing
  and its spool file is deleted all the same (`LedgerRuns.CountlessLeavesNoId`).
* A change committed between an installation and the completion of its rows can
  be absorbed by a row that is then completed (`Drift.RotationIsAbsorbed`),
  exactly when the changed user's needed row is among those being completed
  (`Drift.InterleavedCoverage`, `WorkerDrift.WritingKeepsCover`,
  `WorkerDrift.CompletionCoversExactly`).
* The scheduler cancels its wait's context before it looks at the wait's error,
  so that an error of the wait itself is never returned: the next cycle starts
  at once (`Scheduler.OnlyShutdownStops`).
* The worker keeps the time of its last planned restart in memory only. After a
  crash two planned deployments can be half a minute apart
  (`WorkerLives.CrashForgetsSpacing`); they are a minute apart unless it crashed
  in between, and never less than the notice
  (`WorkerLives.DeploymentsAreSpacedAcrossLives`).
* An update with a callback and a membership change has its callback handled
  again when the membership handler fails (`TelegramRunner.CallbackCanRepeat`).
  What happens once is its completion and its message (`TelegramRunner.Run`).
* At 3, 6, 7, 9 and the other rates that do not divide a second, a one-second
  window can hold one request slot more than the rate
  (`Pacer.WindowLimit`, `Pacer.WindowLimitIsReached`).

## Model

| member | source | states |
|---|---|---|
| LedgerRuns.ExactlyOnce | internal/trafficrunner/runner.go:66-113 | over every run, whatever its clock, with failures, crashes and power losses: no batch enters the tables twice, a spooled batch has entered them or still has its file, and drained bytes are entered, spooled, never durable, or those of a collection whose id was known |
| LedgerRuns.ConservedIffNeverRepeats | internal/trafficrunner/runner.go:66-113 | no byte goes missing exactly when no collection spools the instant and samples of an ingested batch with traffic |
| LedgerRuns.OrderedRunsConserve | internal/trafficrunner/runner.go:66-113 | with strictly increasing collection times no byte ever goes missing |
| LedgerRuns.CountlessLeavesNoId | internal/postgres/traffic_store.go:287-303 | committing a batch without traffic changes no table, leaves no id and removes the file |
| Ledger.Runner.Step | internal/trafficrunner/runner.go:66-97 | one step replays the spool or collects, spools and commits, for every outcome of each call |
| LedgerAnswers.StepSucceedsExactly | internal/trafficrunner/runner.go:66-113 | a step succeeds exactly when its clock is set, the spool can be read and the rest of its path works, and leaves no file then; every failure stage is that of the call that failed |
| LedgerAnswers.CollectedIsBatch | internal/trafficstats/file_spool.go:41-56 | what the collector accepts always makes a batch |
| Ledger.Runner.SpoolCollected | internal/trafficrunner/runner.go:76-97 | what is drained is spooled before it is recorded, or given up with a collect or spool failure |
| Ledger.Runner.CommitBatch | internal/trafficrunner/runner.go:99-113 | record first, delete the spool only after the record succeeded |
| LedgerRuns.NewIdIsFresh | internal/trafficstats/file_spool.go:246-262 | a batch stamped later than everything ingested has an id that was never ingested |
| BatchId.PreimageInjective | internal/trafficstats/file_spool.go:246-262 | the bytes hashed into a batch id determine the instant and the samples |
| BatchId.StampInjective | internal/trafficstats/file_spool.go:248-250 | RFC 3339 text with trimmed nanoseconds (section 5.6 of RFC 3339) determines the instant |
| BatchId.RecordsInjective | internal/trafficstats/file_spool.go:251-261 | the count and the fixed 24-byte records determine the samples |
| Spool.Validate | internal/trafficstats/file_spool.go:229-244 | accepts exactly the strictly ascending, non-negative, non-overflowing samples of a set instant |
| Spool.FileSpool.Save | internal/trafficstats/file_spool.go:65-130 | refuses an invalid batch or an existing file, else the file holds the batch, durable or not as the failure has it |
| Spool.FileSpool.Load | internal/trafficstats/file_spool.go:132-181 | no file is no batch; an oversize file is an error; otherwise the saved batch |
| Spool.FileSpool.Delete | internal/trafficstats/file_spool.go:183-210 | the file is gone unless the call failed before its effect; a missing file is not an error |
| Spool.SaveLoadRoundTrip | internal/trafficstats/file_spool.go:65-181 | a saved batch is loaded back exactly when its envelope is at most one mebibyte |
| Spool.OversizeBatchesAreSaved | internal/trafficstats/file_spool.go:151-153 | enough users make a valid batch that can be saved and not loaded |
| Spool.IdIdentifiesBatch | internal/trafficstats/file_spool.go:41-56 | valid batches with one id are one batch |
| Collector.Collect | internal/trafficstats/collector.go:49-116 | refuses exactly the malformed, negative, duplicated or overflowing responses, else every mentioned user once, ascending, with both counters |
| Collector.CollectConserves | internal/trafficstats/collector.go:49-116 | the samples carry exactly the bytes of the counters |
| Collector.CollectedIsStorable | internal/trafficstats/collector.go:83-115 | the samples of an accepted response always make a valid batch |
| Store.Store.RecordBatch | internal/postgres/traffic_store.go:274-386 | the transaction ingests a new batch as a whole or changes nothing, and reports a known id as already recorded |
| Store.RecordEach | internal/postgres/traffic_store.go:325-386 | the loop over the samples is the fold of the per-user update, stopping at the first refusal |
| Recording.RowIsRecorded | internal/postgres/traffic_store.go:388-445 | traffic of an active user is recorded exactly when the two stored periods are equal, nothing stored is later than the batch, and the bytes fit the period it falls in |
| Recording.BatchIsRecorded | internal/postgres/traffic_store.go:274-386 | a valid batch is accepted exactly when its id is known or the traffic of each active user in it fits that user's stored row |
| Recording.WriteKeepsStored | internal/postgres/traffic_store.go:388-445 | the constraints that condition rests on are kept by every transaction |
| Database.BatchAcceptance | internal/postgres/traffic_store.go:325-386 | a batch is accepted exactly when each sample alone would be on its own user's row as it was before: no cross-talk |
| Database.BatchIsPerUser | internal/postgres/traffic_store.go:325-386 | each user's row after a batch is that row after that user's own sample, whatever else the batch holds |
| Recording.RecordedExactly | internal/postgres/traffic_store.go:305-386 | a known or empty batch changes and reports nothing; any other is ingested, and applied, revoked, restored and the outbox rows are the truth about its traffic |
| Recording.TrafficIsActivity | internal/domain/access.go:170-182 | counted traffic makes its instant the last activity, so that inactivity removal passes the user by |
| Store.Store.AdvanceDueQuotaPeriods | internal/postgres/traffic_store.go:43-94 | the sweep is one transaction: all of it or nothing |
| BulkUpdates.SweepPerUser | internal/postgres/traffic_store.go:53-85 | exactly the taken users' ended periods move, whole periods on to the one the clock is in, unused and unblocked; exactly the blocked active ones get a reconcile row while the service is open |
| Store.Store.ObserveFailure | internal/postgres/traffic_store.go:96-141 | the streak, its notifications and, when it closes, a revoke row for every active user |
| Store.Store.ObserveRecovery | internal/postgres/traffic_store.go:143-183 | the streak is cleared and, if it had closed, a reconcile row for every active user is queued |
| Store.Store.ApplyQualification | internal/postgres/access_store.go:25-102 | the eligibility change and, when it revokes, the revoke row, in one transaction |
| Deciding.DecisionIsApplied | internal/postgres/access_store.go:63-95 | the decision is stored as made; ineligible unserves the user, moves exactly active and self-service accounts to approval and revokes exactly the active; eligible and indeterminate move no status |
| Deciding.IneligibleIsNotServed | internal/domain/access.go:103-113 | over every run a user whose last decision was ineligible is not served |
| Store.Store.Provision | internal/postgres/provisioning_store.go:45-176 | issuance, quota reset and the outbox row in one transaction |
| Issuing.ProvisionSucceeds | internal/postgres/provisioning_store.go:45-112 | an issuance is accepted exactly when the account may have it and its generation fits |
| Issuing.IssuanceLeaves | internal/postgres/provisioning_store.go:108-161 | the user is active with credentials one generation on, and, unless the period is kept, a fresh period with the settings' limit and length; nobody else changes |
| Issuing.IssuanceServes | internal/postgres/credential_store.go:69-87 | while the service is open, whoever is issued credentials is served exactly those |
| Issuing.CredentialsAreCurrent | internal/postgres/provisioning_store.go:122-134 | over every run a user has credentials exactly when some were issued, those of the last generation, and is never served others |
| Store.Store.Manage | internal/postgres/user_management_store.go:155-216 | revocation and rejection with their outbox row in one transaction |
| Deciding.ManagementIsApplied | internal/postgres/user_management_store.go:155-216 | accepted exactly for a known active user and mode, or one awaiting approval; only that user's status changes, to the one asked for, and a revocation queues its row |
| Deciding.BlockedForGood | internal/domain/access.go:139-146 | after a permanent block nothing ever written serves the user or issues anything |
| Deciding.ApprovalDecides | internal/domain/access.go:139-146 | after a revocation that requires approval the user is served and issued something only by an approval, which is accepted |
| Deciding.SelfServiceClaims | internal/domain/access.go:139-146 | after a revocation to self-service the user can claim at once |
| Store.Store.UpdateSettings | internal/postgres/management_settings_store.go:99-199 | the change is one transaction: all of it or nothing |
| BulkUpdates.SettingsPerUser | internal/postgres/management_settings_store.go:138-180 | the limit blocks exactly who has used it up, a shorter threshold removes exactly the long inactive, and exactly the users so changed get their outbox row |
| BulkUpdates.SettingsAreStored | internal/postgres/management_settings_store.go:99-137 | accepted exactly for sensible values and, if it removes the inactive, when confirmed; the new limit and threshold are stored |
| BulkUpdates.ObservationsPerUser | internal/postgres/traffic_store.go:194-207 | exactly the active users with a quota get a revoke row when the service closes, exactly the unblocked of them a reconcile row when it opens |
| TrafficHealth.ClosedIffStreakIsLong | internal/postgres/traffic_store.go:106-183 | the service is closed exactly when the current unbroken failure streak spans five minutes |
| TrafficHealth.ClosesOncePerStreak | internal/postgres/traffic_store.go:106-141 | exactly the first failure five minutes into a streak queues the revoke wave |
| TrafficHealth.NotificationsAreSpaced | internal/postgres/traffic_store.go:106-141 | notifications of one streak are at least fifteen minutes apart |
| TrafficHealth.FirstFailureNotifies | internal/postgres/traffic_store.go:106-141 | the first failure of every streak notifies |
| TrafficHealth.NotifiesExactly | internal/postgres/traffic_store.go:106-141 | a later failure notifies exactly when the last notification of its streak is fifteen minutes old |
| TrafficHealth.RecoveryReopensClosedStreak | internal/postgres/traffic_store.go:143-183 | recovery reports a reopening exactly for the streaks that closed |
| Service.Service.Step | internal/trafficrunner/service.go:53-84 | the step's outcome is observed as failure or recovery in its own transaction |
| LedgerAnswers.ClosedIffPollsFail | internal/trafficrunner/service.go:53-84 | over every row of polls the service is closed, and serves nobody, exactly when the last of them have failed without a break for five minutes |
| LedgerAnswers.UnreachableCoreCloses | internal/trafficrunner/runner.go:82-85 | five minutes of failed statistics queries close the service |
| Service.StepReachesWedge | internal/trafficrunner/runner.go:76-113 | a step that collects traffic of a rolled-over active user leaves its batch in the spool, unrecordable |
| Service.WedgedStepFails | internal/postgres/traffic_store.go:325-345 | a spooled batch with traffic of a user it is too early for, or whose periods differ, fails every step and changes nothing |
| Service.WedgeClosesService | internal/trafficrunner/service.go:53-84 | once such polls have gone on for five minutes nobody is served |
| Service.SameInstantLosesBytes | internal/trafficstats/file_spool.go:246-262 | two equal collections at one instant: the second one's bytes are drained and in no account |
| RollOver.BehindRefusesBatch | internal/postgres/traffic_store.go:425-431 | a batch with traffic of an active user whose periods differ, or began after it, is refused as a whole |
| RollOver.SweepMakesStale | internal/postgres/traffic_store.go:53-85 | the sweep of an ended period makes the two periods differ |
| RollOver.RecordingMakesStale | internal/postgres/traffic_store.go:340-376 | so does the first traffic recorded after the period ended |
| RollOver.RestartDecides | internal/postgres/provisioning_store.go:108-140 | a restart of the period makes exactly the traffic from its instant on recordable, and what was collected before it unrecordable |
| RollOver.RollOverEndsRecording | internal/postgres/traffic_store.go:429-431 | after a roll-over every transaction but a restart at or before the batch's instant leaves its recording refused |
| Drift.WriteQueuesItsDrift | internal/postgres/credential_store.go:63-108 | every transaction queues the needed row of every user whose served status or generation it changes |
| Drift.OutboxCoversDrift | internal/postgres/credential_store.go:69-87 | in every reachable state the outbox covers the drift; when it is empty the core serves exactly the active list |
| Drift.InterleavedCoverage | internal/coreworker/worker.go:160-186 | with writes between build and completion the drift stays covered exactly when no completed row is the needed row of a changed user |
| Drift.RotationIsAbsorbed | internal/coreworker/worker.go:160-186 | a run where it does not |
| CoreActions.CoreActionStore.ClaimDue | internal/postgres/core_action_store.go:41-89 | leases the first due rows, revocations first, and counts an attempt for each |
| CoreActions.CoreActionStore.Complete | internal/postgres/core_action_store.go:91-103 | completes exactly the rows named, or refuses bad or repeated ids |
| CoreActions.CoreActionStore.Retry | internal/postgres/core_action_store.go:105-117 | postpones one uncompleted row |
| CoreActions.ValidUniqueIds | internal/postgres/core_action_store.go:132-147 | accepts exactly non-empty lists of distinct positive ids |
| CoreActions.SelectionIsUnique | internal/postgres/core_action_store.go:51-68 | the claim's order is total: the table determines what is claimed |
| CoreActions.RevocationsComeFirst | internal/postgres/core_action_store.go:51-68 | no planned row is claimed before a due revocation, nor of one kind one before another due longer |
| CoreActions.EnqueuedIsDue | internal/postgres/access_store.go:83-95 | an enqueued row can be claimed from its instant on and was not tried yet |
| CoreActions.EnqueueIsUnion | internal/postgres/access_store.go:83-95 | enqueueing with conflicts ignored is a union on the waiting pairs and keeps the unique index |
| CoreActions.CompleteIsDifference | internal/postgres/core_action_store.go:91-103 | completing removes exactly the pairs of the rows |
| CoreActions.LeasesKeepPairs | internal/postgres/core_action_store.go:41-117 | leases and retries never change what is waiting |
| WorkerDrift.WorkerRunsCoverDrift | internal/coreworker/worker.go:87-201 | over every run of transactions, polls and crashes, with failed and repeated completions, the waiting rows cover the drift while no installation under way is disturbed; when none waits the core serves exactly the active list |
| WorkerDrift.WritingKeepsCover | internal/coreworker/worker.go:160-186 | a transaction keeps that cover exactly when it moves no user whose needed row the coming completion removes |
| WorkerDrift.CompletionCoversExactly | internal/coreworker/worker.go:173-186 | a completion leaves the drift covered exactly when it removes no drifted user's needed row |
| Worker.Worker.Step | internal/coreworker/worker.go:87-127 | one poll finishes an installed deployment, or claims, waits out the notice and the restart limit, and deploys |
| Worker.Worker.AppendClaimed | internal/coreworker/worker.go:129-146 | takes a claim exactly when every action is well formed and none is held already, else nothing of it |
| Worker.Worker.Act | internal/coreworker/worker.go:97-127 | revocations deploy at once; planned work is announced and waits for the later of its two deadlines |
| WorkerUrgency.PollBuildsExactly | internal/coreworker/worker.go:97-127 | a poll that holds a revocation builds for it at once, one with planned work only exactly when both deadlines have passed, any other not; an installation is planned exactly when planned work is held |
| WorkerUrgency.NoRevocationWaits | internal/coreworker/worker.go:108-111 | in every run no poll leaves a revocation held with nothing installed |
| WorkerUrgency.RevocationIsDoneAtOnce | internal/coreworker/worker.go:97-186 | when every call succeeds, what is claimed with a revocation is completed in the same poll |
| WorkerUrgency.WaitingKeepsAll | internal/coreworker/worker.go:112-127 | a poll that waits keeps everything it holds and its first announcement |
| Worker.Worker.Deploy | internal/coreworker/worker.go:160-171 | builds, installs, remembers the installation, completes; or retries every held row |
| Worker.Worker.CompleteInstalled | internal/coreworker/worker.go:173-186 | memory is cleared only when the completion is known to have succeeded |
| WorkerUrgency.PollCompletesInstalled | internal/coreworker/worker.go:88-96 | after an installation a poll only repeats the completion until it succeeds |
| Worker.Worker.Fail | internal/coreworker/worker.go:188-201 | every held row is postponed by its own delay, whichever of the calls are lost, and memory is cleared |
| WorkerUrgency.FailedRowsWait | internal/coreworker/worker.go:188-201 | after a failed deployment each held row whose retry arrives waits exactly its delay, and no other row moves |
| WorkerUrgency.RetriesBackOff | internal/coreworker/worker.go:211-224 | the delays are 5 and 15 seconds, 1, 5 and then 15 minutes |
| WorkerUrgency.LeaseLasts | internal/coreworker/worker.go:13-18 | what is claimed cannot be claimed again for exactly two minutes |
| WorkerUrgency.AttemptsCountClaims | internal/postgres/core_action_store.go:69-77 | over every run a row's attempts are the claims that reached the table with it |
| WorkerRuns.CompletedMeansDeployed | internal/coreworker/worker.go:87-186 | over every run with crashes and store failures a row is completed only after its claim, a later build and the install of that build, in one life |
| WorkerTiming.DeploymentsAreSpaced | internal/coreworker/worker.go:13-18 | a deployment without a revocation comes 30 s after its notice and a minute after the last planned one of the same life |
| WorkerLives.DeploymentsAreSpacedAcrossLives | internal/coreworker/worker.go:97-127 | across lives it comes a minute after the last planned one unless the worker crashed since, and 30 s after it all the same |
| WorkerLives.CrashForgetsSpacing | internal/coreworker/worker.go:36-52 | a run with a crash in which the next planned build comes exactly 30 s later |
| WorkerTiming.PromptClaimsNeverOverlap | internal/coreworker/worker.go:129-146 | while claims are under a minute apart every claim can be appended: it holds no row held already |
| WorkerTiming.NoRowIsLost | internal/coreworker/worker.go:188-224 | no row disappears, and an uncompleted one is claimable within fifteen minutes of the last event even if its retry was lost |
| Install.Installer.Install | internal/singbox/installer.go:62-97 | the stages in order, with discard, rollback and finalize, and the stage reported for each failure |
| Install.FileDeployment.Stage | internal/singbox/file_deployment.go:45-80 | the candidate holds the configuration, or is removed again as far as possible |
| Install.FileDeployment.Promote | internal/singbox/file_deployment.go:99-137 | the active file moves to a fresh backup and the candidate takes its place, or the backup is put back |
| Install.FileDeployment.Rollback | internal/singbox/file_deployment.go:146-162 | the failed file is removed and the backup put back |
| Install.FileDeployment.Finalize | internal/singbox/file_deployment.go:164-176 | the backup is removed; one that is gone is no error |
| Install.StageTellsTheTruth | internal/singbox/installer.go:62-97 | for every stage returned, failed rollbacks included, what the directory then holds and what the core was restarted on |
| Install.StageNamesTheCall | internal/singbox/installer.go:62-97 | the stage reported is exactly that of the first call that failed; a restart failure only when the old configuration runs again |
| Install.PreviousConfigurationSurvives | internal/singbox/installer.go:62-97 | at every point, whatever fails or crashes, the previous bytes are active or backed up until a restart on the new ones succeeded |
| Install.LastGoodConfigurationIsNeverLost | internal/singbox/file_deployment.go:99-176 | over every run of installs and crashes the configuration of the last successful restart is active or in a backup |
| Install.InstallIsAllOrNothing | internal/singbox/installer.go:62-97 | with a working disk an install succeeds exactly when the core checks and restarts, and otherwise leaves the directory as it was |
| Access.AccessAccount.SetEligibility | internal/domain/access.go:103-113 | losing eligibility revokes an active account and reports it |
| Access.AccessAccount.Claim | internal/domain/access.go:115-132 | the first issuance, refused for each reason in order |
| Access.IssuanceDecides | internal/domain/access.go:115-225 | who can claim, rotate or be approved, and the reason each other is refused for |
| Access.AccessAccount.Revoke | internal/domain/access.go:134-150 | removal, with or without the permanent block |
| Access.RevocationModes | internal/domain/access.go:134-150 | a block ends all issuance, a required approval leaves exactly an accepted approval, self-service leaves the claim |
| Access.AccessAccount.Rotate | internal/domain/access.go:152-168 | a new generation for an active account, restarting the period on request |
| Access.AccessAccount.Approve | internal/domain/access.go:214-225 | reissue of an account that awaits approval |
| Access.AccessAccount.Restore | internal/domain/access.go:71-101 | accepts exactly the restorable snapshots and gives the same account |
| Access.RestoreAcceptsReachable | internal/domain/access.go:71-101 | a reachable snapshot is accepted exactly when its generation has not wrapped to 0 |
| Access.GenerationCountsIssuances | internal/domain/access.go:238-247 | the generation is the number of issuances and rotations, modulo 2^64 |
| Access.BlockIsPermanent | internal/domain/access.go:115-150 | a permanent block is never left and nothing is issued under it |
| Access.LostEligibilityNeedsApproval | internal/domain/access.go:103-225 | an issued account that lost eligibility is issued anything again exactly when an approval is accepted, and without one stays inactive |
| Quota.QuotaWindow.RecordCounters | internal/domain/quota.go:90-111 | a record is refused without any change, or advances the window and adds its bytes |
| Quota.QuotaWindow.Advance | internal/domain/quota.go:113-119 | refuses a clock before the window, else advances it |
| Quota.QuotaWindow.AdvanceInPlace | internal/domain/quota.go:137-143 | moves by the whole periods of the saturated elapsed time |
| Quota.AddNonNegative | internal/domain/quota.go:158-163 | adds exactly when the sum fits an int64 |
| Quota.JumpIsSteps | internal/domain/quota.go:137-143 | one jump over k periods is k single steps |
| Quota.AdvanceCatchesUp | internal/domain/quota.go:137-143 | the window reaches the clock exactly in the Duration's range |
| Quota.AdvanceComposes | internal/domain/quota.go:137-143 | advancing through any intermediate instant changes nothing, exactly in that range |
| Quota.SweepAgrees | internal/postgres/traffic_store.go:61-70 | the SQL sweep and the in-process window agree exactly in that range |
| Quota.SumsIffNeverOvershoots | internal/domain/quota.go:90-143 | throughout a run the window is whole periods on and its usage the accepted bytes since its start, exactly while no accepted record of traffic is out of reach of the window then open |
| Quota.UsageIsWindowSum | internal/domain/quota.go:90-143 | so after any such run, however long, the start is whole periods on and the usage is the accepted bytes since it |
| Quota.OvershootLosesUsage | internal/domain/quota.go:90-143 | a record out of reach is lost by one more advance to its own instant |
| Quota.SaturationLosesUsage | internal/domain/quota.go:137-143 | an input beyond the range that loses accepted bytes |
| Quota.RecordAccountTraffic | internal/domain/traffic_accounting.go:32-74 | both objects change together or not at all, and the revoke and restore edges are reported |
| Usage.UsageIsEnteredTraffic | internal/postgres/traffic_store.go:325-386 | after any run of transactions a user's stored usage is that user's traffic in the batches entered since the last restart or roll-over |
| Usage.BatchCountsOnce | internal/postgres/traffic_store.go:305-324 | an accepted batch counts nothing the next time, whatever was written in between |
| LoginLimiter.LoginRateLimiter.Begin | internal/httpapi/login_rate_limiter.go:69-88 | admits exactly when the three counts over the whole history are under their limits |
| LoginLimiter.LoginRateLimiter.Complete | internal/httpapi/login_rate_limiter.go:99-115 | the stored lists stay the recent part of what the history says |
| LoginLimiter.LoginRateLimiter.Prune | internal/httpapi/login_rate_limiter.go:117-135 | pruning prefixes keeps exactly the recent events of every key |
| LoginLimiter.LoginAttempt.Complete | internal/httpapi/login_rate_limiter.go:90-97 | only the first report of an attempt counts |
| LoginLimiter.KeptFollows | internal/httpapi/login_rate_limiter.go:99-170 | appending, in-place retaining and marking follow the declarative forgiveness of the history |
| LoginLimiter.KeptCounts | internal/httpapi/login_rate_limiter.go:69-88 | the stored length is the number of attempts of the history that count against the key |
| LoginLimiter.NoWindowExceedsTheLimit | internal/httpapi/login_rate_limiter.go:69-88 | no window of the configured length ever holds more admitted attempts than the global limit |
| LoginLimiter.PruneEvents | internal/httpapi/login_rate_limiter.go:145-151 | dropping the old prefix of ascending events is filtering them |
| LoginLimiter.MarkCompleted | internal/httpapi/login_rate_limiter.go:163-170 | marking the first match is marking every match of a unique id |
| Reservoir.SampleDomains | internal/reality/searcher.go:190-206 | the in-place loop computes the reservoir for the drawn positions; a short list is returned whole |
| Reservoir.SampleIsDistinct | internal/reality/searcher.go:190-206 | every sample holds `limit` distinct domains of the list |
| Reservoir.EveryDomainIsEquallyLikely | internal/reality/searcher.go:190-206 | each of n domains is in the sample of exactly limit/n of all outcomes of the draws |
| Reservoir.EverySampleIsEquallyLikely | internal/reality/searcher.go:190-206 | every set of `limit` domains is the sample of the same number of outcomes, k! for k draws |
| Reservoir.OutcomesAreAll | internal/reality/searcher.go:199-201 | the outcomes counted are exactly the draws the generator can make |
| RealitySearch.UniqueDomains | internal/reality/searcher.go:107-119 | the valid normalized domains, each where it first occurs |
| RealitySearch.SendersNeverBlock | internal/reality/searcher.go:125-143 | in every interleaving a worker with a result has room to send it |
| RealitySearch.NeverStuck | internal/reality/searcher.go:125-157 | an unfinished search always has a possible move |
| RealitySearch.SearchTerminates | internal/reality/searcher.go:125-157 | no run of the search has more than 3n + workers + 1 moves |
| RealitySearch.SearchListsTheConfirmed | internal/reality/searcher.go:154-188 | a finished search lists exactly the confirmed sampled domains, strictly by latency then name |
| RealitySearch.SearchIsDeterministic | internal/reality/searcher.go:120-188 | any two finished interleavings, with any numbers of workers, return the same list |
| RealitySearch.SelectDomains | internal/reality/searcher.go:107-120 | the probed domains are the sample of the unique valid names |
| RealitySearch.SearchOfDataset | internal/reality/searcher.go:90-158 | a search of any dataset, draw, worker count and interleaving lists exactly the confirmed domains of its sample, at most the limit, all valid, strictly ranked |
| Scheduler.RecheckScheduler.Trigger | internal/qualification/scheduler.go:27-38 | cancels the registered wait or leaves a note |
| Scheduler.RecheckScheduler.Settle | internal/qualification/scheduler.go:65-73 | uses up the note or registers a new wait |
| Scheduler.RecheckScheduler.Unregister | internal/qualification/scheduler.go:76-79 | cancels the wait's context and unregisters it |
| Scheduler.NoLostWakeUp | internal/qualification/scheduler.go:27-90 | under every interleaving an owed cycle is never kept waiting by an uncancelled wait |
| Scheduler.OwedCycleStarts | internal/qualification/scheduler.go:50-90 | an owed cycle starts within five steps of the loop, whatever triggers fall between |
| Scheduler.SkipsAreTriggered | internal/qualification/scheduler.go:65-70 | the loop starts over without waiting at most once for each trigger |
| Scheduler.OnlyShutdownStops | internal/qualification/scheduler.go:75-88 | the loop stops only for a shutdown and never with an error |
| Pacer.RetryingMemberLookup.GetChatMember | internal/qualification/retrying_member_lookup.go:61-90 | at most five calls, each in its reserved slot, each but the last temporary and followed by its delay |
| Pacer.LookupAnswers | internal/qualification/retrying_member_lookup.go:61-90 | a lookup finds a member exactly when an attempt does after only temporary failures, and otherwise answers with its last failure or interruption |
| Pacer.ServerDelayIsObeyed | internal/qualification/retrying_member_lookup.go:76-84 | a delay the server asks for is waited exactly; the jitter is all or nothing otherwise |
| Pacer.RetryingMemberLookup.ReserveSlot | internal/qualification/retrying_member_lookup.go:92-105 | the slot is the later of now and the next free one, and moves that by the interval |
| Pacer.SlotsAreSpaced | internal/qualification/retrying_member_lookup.go:92-105 | for any clock and any callers slots are an interval apart and no later than needed |
| Pacer.WindowLimit | internal/qualification/retrying_member_lookup.go:54 | a one-second window holds at most r slots when r divides a second, else r + 1 |
| Pacer.WindowLimitIsReached | internal/qualification/retrying_member_lookup.go:54 | callers that come at once fill that bound |
| Pacer.BackoffBounds | internal/qualification/retrying_member_lookup.go:76-84 | the k-th delay is at least 2^k seconds and less than half as much again |
| TelegramRunner.Run | internal/telegram/runner.go:67-153 | over any script of polls exactly what is tried, done and completed, and how the loop ends; each update is completed once, in order, its message is handled once, and nothing of an update is even tried before all lower updates are completed, however often handlers fail |
| TelegramRunner.HandleAll | internal/telegram/runner.go:87-151 | a batch is left at the first update with a failing handler: exactly those before it are completed, nothing behind it is touched, and the loop waits and polls again, or ends, as that failure says |
| TelegramRunner.HandleUpdate | internal/telegram/runner.go:88-150 | callback, membership, message and completion in order, each attempt logged, up to the first failure |
| TelegramRunner.PartsOfAnUpdate | internal/telegram/runner.go:88-150 | every part an update has is tried unless one before it failed, and it is completed exactly when none did |
| TelegramRunner.PartsInOrder | internal/telegram/runner.go:88-150 | the parts come once each, in order |
| TelegramRunner.PollAdvancesIffHeadSucceeds | internal/telegram/runner.go:74-151 | a poll completes anything exactly when it brings the next update and its handlers work |
| TelegramRunner.HeadSuccessesComplete | internal/telegram/runner.go:67-153 | at least as many updates are completed as polls find the next one's handlers working, whatever else fails: once per update completes the queue |
| TelegramRunner.PollEndsExactly | internal/telegram/runner.go:71-129 | the loop ends without an error exactly for a shutdown, with one exactly when a pause breaks, and never for a failure alone |
| TelegramRunner.CallbackCanRepeat | internal/telegram/runner.go:88-125 | a run in which a failing membership handler makes the same callback be handled twice |
| Rechecker.Rechecker.RunOnce | internal/qualification/rechecker.go:63-120 | a recheck of a fixed user set succeeds exactly when every call works, and has then evaluated every user once, ascending, and written the decided ones; otherwise exactly the users before the first not working are done |
| Rechecker.ValidateKnownUserPage | internal/qualification/rechecker.go:142-154 | accepts exactly the strictly increasing pages above the cursor within the limit |
| Rechecker.Rechecker.CheckPage | internal/qualification/rechecker.go:77-110 | exactly the page's users before the first whose calls do not work are evaluated, written and counted, and that one is evaluated and counted if it could be |
| Rechecker.Rechecker.CheckUser | internal/qualification/rechecker.go:78-109 | one user's evaluation, count and write, and whether all of it worked |
| Rechecker.ListedPage | internal/postgres/qualification_store.go:78-110 | pages follow one another without gap, also when the last one is exactly full |
| Rechecker.SummaryPartitions | internal/qualification/rechecker.go:81-109 | the counters partition the users checked |
| Rechecker.SummaryCounts | internal/qualification/rechecker.go:81-109 | each counter is the number of users it is named after |
| Rechecker.DecidedExactly | internal/qualification/rechecker.go:81-103 | written are exactly the users found eligible or ineligible, each with that decision |

## Left out

- HTTP routes, cookies, the web application, message texts, QR codes and audit rows: input, output and user interface.
- The Telegram client, ACME and TLS probing, gRPC and the process control of the core: only their outcomes appear.
- Sealing and random generation of credentials: a credential is its generation.
- SQL text, JSON and protobuf strings: the row updates and filters they express are modelled; the size of a spool file is counted.
- The expiry of certificates inside `ListActive`: it changes who is served without a transaction. Issuing one is a transaction of the model.
- Failed rollbacks in `Drift` and `WorkerDrift`: `Install` covers them.
- The checks of the search's options and the length of the scheduler's waits: they bound parameters.
- Overlapping installs: one worker runs them one after another.
- Deployments that interleave with writers in `Drift.OutboxCoversDrift`: the property fails there; `Drift.InterleavedCoverage` and `WorkerDrift` say exactly when.
- `SetFailClosed` in the traffic store: nothing outside its file calls it.
- `IsInactiveAt`, `PreviewInactivity`, `Statistics` and the other reads: they change nothing. The inactivity test is part of `Database.UpdateSettings`.
- The validation of the other settings fields, the failure codes stored with a retry, role checks, configuration loading, backup and the generators: they would add only easy members.
- The budget-exceeded branch of `Search`: it always ends in an error. The sorting routine of `rank` is library code and appears as its contract, `RealitySearch.Sorts`.
- The file permissions and symbolic-link checks of the spool and the deployment, and the path checks of `managedPath` and `decodePromotion`: paths are values of a datatype, so they cannot be malformed.
- Instants before the year 1, and ids of login attempts beyond 2^64.
- Sharing of backing arrays between slices: a slice is a sequence in a field.
- WorkerDrift.WorkerRunsCoverDrift: a poll builds, installs and completes at one moment; a completion that fails is a later moment, with other transactions in between.
- RealitySearch.SearchIsDeterministic: the outcome of a probe is a function of the domain, since a search probes each domain once.
- Pacer.RetryingMemberLookup.GetChatMember: runs one caller's lookup; callers that interleave appear as the order of reservations in `Pacer.SlotsAreSpaced`.
- LoginLimiter.LoginRateLimiter.Begin: takes the times read before the lock to be non-decreasing in the order the lock is taken.
