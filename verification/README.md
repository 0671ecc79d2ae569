# Blessing AI: verified models of its stateful core

Dafny models of four parts of the system, with proofs over every run:

1. **The durable job queue** (`apps/agy_queue`): a lease protocol for many workers with two storage back ends, a
   SQLite table and an append-only JSONL log that is replayed on every read. Each store method is one atomic step; a
   run is any sequence of such steps by any workers. `QueueModel`, `SqliteQueue`, `QueueRuns`, `JsonlQueue`,
   `LogRuns`, `QueueClaims`, `QueueAnswers`, `QueueRefinement`, `ResultArtifacts`; text order and time in `Common` and
   `UtcIso`.
2. **Fenced execution leases** (`execution_lease.py`): the in-memory store and the PostgreSQL table, many handles, a
   clock that only moves forward, and acquisitions that may work with an arbitrarily stale reading. `ExecutionLease`.
3. **The trading worker's safety logic** (`apps/trading_worker/main.py`): control flags, kill switch, launch fence and
   execution gate (`WorkerControl`, `WorkerRuns`, `ExecutionGate`), the durable launch sessions behind them
   (`LaunchSessions`), the version-keyed grid-depth cache (`GridDepthCache`, `GridDepthReplacement`, `GridDepthMeaning`)
   and the order-notional clamp (`NotionalClamp`).
4. **Accounting** over trade lists (`WealthMetrics`, `WealthGrouping`) and the 8D containment index (`EightD`).

What changes state in the program is a class here, each of whose methods is proved equal to a step of a specification
function; what the program promises is then proved of that function over all runs. The worker's whole operations are
also proved to be runs of the finer acts whose interleavings `WorkerRuns` studies.

## Where the code does not keep its promise

Each has a run or an input that shows it, and the exact condition under which the promise holds.

- The ledger's version does not move on `upsert_order` and `replace_positions`, contrary to its own comment
  (`apps/trading_worker/venues/binance/ledger.py`, lines 66-68, 93-94, 338), so the depth cache can serve a stale depth:
  `GridDepthCache.VersionedIff`, `StaleAfterReplaceIff`, `StaleAfterOrderIff` (any order, new or changed),
  `StaleAfterClosedOrderIff`; shown by `NewOrderGoesUnseen`.
- The depth cache survives a change of adapter, and scans in flight still fill it from the old ledger:
  `GridDepthReplacement.ReplacementIsSafeIff` (any ledger at a given version), `EmptyReplacementIsSafeIff` (a new
  in-memory ledger); shown by `LoadedLedgerGoesUnseen`.
- Engaging the kill switch can leave an autonomous session in the worker if the worker did not know that it was
  autonomous: `WorkerControl.EngageLeavesAutonomyIff`; shown by `WorkerRuns.UnknownAutonomyRun`.
- A read begun before the fence can bring the worker's copy back: `WorkerRuns.FenceEndsAutonomyIff` (any interleaving);
  shown by `StaleReadRevivesCopy`. SQL still refuses every order slot then.
- A switch engaged again can be taken down by a release that was already waiting: `WorkerRuns.EngagementHoldsIff`;
  shown by `OlderReleaseClears`.
- A pause does not outlast every confirmation: an order of an autonomous session that is confirmed after the switch was
  engaged lifts the pause while the switch is up: `WorkerRuns.PauseLiftsIff`; shown by `PauseLiftedRun`.
- Redaction is not idempotent on every text: `token='abc'def'` becomes `token='<REDACTED>def'` and then
  `token='<REDACTED>`. The log redacts once more than SQLite, so it refuses a repeated success report that SQLite accepts
  (`QueueRefinement.RepeatedSuccessAgreesIff`, shown by `RepeatedSuccessRun`), and would run two jobs on such a scope
  (`LogRuns.LogExclusionIff`, shown by `TwiceRewrittenScopeRunsTwice`). The service refuses that text as a scope key, but
  accepts `token='***'def'`, whose secret is a placeholder; it is rewritten twice in the same way. In a stored result such
  a text changes when a `cancel` that comes too late writes the succeeded job again (`LogRuns.LogResultIsFinalIff`, shown
  by `CancelRewrites`).
- Redaction can make two scopes one: the service accepts `token=***` and `token=example`, and both become
  `token=<REDACTED>`. SQLite then runs both jobs and the log one: `QueueAnswers.AnswersAgreeIff`, shown by
  `MergedScopesRun`.
- The two queue back ends also part on worker names that redaction rewrites (`QueueRefinement.OwnerRecognizedIff`, shown
  by `LockedOutRun`), on an empty conversation id or head (`EmptyReportAgreesIff`, shown by `EmptyConversationRun`) and on
  an empty lease text (`SweepAgreesIff`, shown by `EmptyLeaseRun`).
- A retried job can only report what its first stored result said: `QueueRuns.OwnerSucceedsIff`, shown by
  `RetriedJobRun`; and since reports name their attempt, a later attempt never commits at all:
  `ResultArtifacts.LaterAttemptsNeverCommit`.
- PostgreSQL and memory differ on an acquisition whose reading is older than the release:
  `ExecutionLease.StaleAcquireAgreesIff`, over runs `LeasesAgreeIff`; shown by `StaleAcquireRun`.
- A statement that waited can revive an expired lease, which then is still the only valid one:
  `ExecutionLease.StaleRenewRevivesIff`, over runs `DeadUntilRevivedIff`; shown by `StaleRenewRun`.
- Once equity is negative a pair can drop further than the running drawdown at its end
  (`WealthMetrics.PairDropWithinIff`) and than the maximum drawdown (`WorstPairIff`); shown by
  `NegativeEquityBreaksPairReading`.
- A reused incident id can leave a containment behind: `EightD.CreateKeepsExactIff`, shown by
  `ReusedIdStrandsContainment`.
- A lineage that is corrected after it closed keeps counting as it first was: `WealthGrouping.CountedAsFiledIff`, shown
  by `CorrectionIsNotCounted`.

## Model

| member | source | states |
|---|---|---|
| `UtcIso.TextOrderIsTimeOrder` | apps/agy_queue/models.py:74-82 | comparing two rendered instants as text is comparing them as times, for every millisecond of the years 1 to 9999 (section 5.1 of RFC 3339) |
| `UtcIso.FourDigitYears` | apps/agy_queue/models.py:74-82 | exactly the modelled instants have a four-digit year, so no rendering is out of range |
| `UtcIso.ParseOfIso` | apps/agy_queue/storage.py:42-53 | reading back a rendered instant gives that instant |
| `UtcIso.IsoOfParse` | apps/agy_queue/storage.py:42-53 | the reader accepts nothing but the rendering of what it returns |
| `UtcIso.LeaseRunsOutExactlyAfterTtl` | apps/agy_queue/storage.py:42-53 | a lease taken at an instant is textually before a later one exactly when more than the ttl has passed |
| `UtcIso.DateTextSpells` | apps/agy_queue/models.py:74-82 | a day is written as the year, month and day of the calendar: leap years by the rule of 4, 100 and 400, months from March by the integer part of (153 k + 2) / 5 |
| `UtcIso.TimeTextSpells` | apps/agy_queue/models.py:74-82 | a time of day is written as its hour, minute, second and millisecond |
| `UtcIso.IsoJoins` | apps/agy_queue/models.py:80-82 | date and time are joined by a T and make up the whole text |
| `TextOrder.LessIff` | apps/agy_queue/storage.py:590-593 | text order is that of the first differing character, a proper prefix coming first |
| `QueueModel.Earliest` | apps/agy_queue/storage.py:1074-1090 | the loop finds the candidate that precedes all others by creation time, then id |
| `QueueModel.EarliestIsNext` | apps/agy_queue/storage.py:571-595 | that candidate is the one next eligible job, which is unique |
| `QueueModel.NextIff` | apps/agy_queue/storage.py:571-595 | a job is next iff it is pending, READY, within its attempts, due, of a kind asked for and alone in its scope, and every other such job was created later, or at the same time with a larger id; there is none iff something holds back every job |
| `QueueModel.AcceptedIff` | apps/agy_queue/service.py:63-139 | a request is accepted iff it is well formed, not an order or emergency control, asks for 1 to 3 attempts within the configured limit and 1 to 3600 seconds, and each reference given is a short single line with something on it and no credentials |
| `QueueModel.StripKeepsMiddle` | apps/agy_queue/service.py:65-77 | stripping removes blanks at the two ends and nothing else |
| `QueueModel.SubmittedJobs` | apps/agy_queue/service.py:63-189 | an accepted job is what was asked for and of its time, has 1 to 3 attempts, carries only stripped, short, non-blank references without credentials, is scoped to the stripped scope key or else the repository, has an unsafe effect iff it is a cloud write, and waits for exactly the authorization or verification that its kind needs and it lacks |
| `SqliteQueue.SqliteQueueStore.CreateJob` | apps/agy_queue/storage.py:458-518 | the new table is the specified step; raises iff the id is taken |
| `SqliteQueue.SqliteQueueStore.SelectNext` | apps/agy_queue/storage.py:571-595 | the query returns the next eligible job, if there is one |
| `SqliteQueue.SqliteQueueStore.ClaimNext` | apps/agy_queue/storage.py:560-616 | claims with a lease of the given ttl; the whole new table and the answer |
| `SqliteQueue.SqliteQueueStore.Heartbeat` | apps/agy_queue/storage.py:618-631 | the whole new table and the answer |
| `SqliteQueue.SqliteQueueStore.RecoverExpired` | apps/agy_queue/storage.py:633-685 | the loop over expired rows performs one step and reports exactly those rows |
| `SqliteQueue.SqliteQueueStore.UpdateConversationId` | apps/agy_queue/storage.py:718-727 | the whole new table |
| `SqliteQueue.SqliteQueueStore.MarkSuccess` | apps/agy_queue/storage.py:729-801 | the whole new table, the stored result and the answer, conflicts included |
| `SqliteQueue.SqliteQueueStore.MarkFailure` | apps/agy_queue/storage.py:803-852 | the whole new table, the stored result and the answer |
| `SqliteQueue.SqliteQueueStore.ScheduleRetry` | apps/agy_queue/storage.py:854-899 | the whole new table; no worker id is asked for |
| `SqliteQueue.SqliteQueueStore.RetryFailed` | apps/agy_queue/storage.py:901-939 | the whole new table and the answer; an earlier result stays |
| `SqliteQueue.SqliteQueueStore.Cancel` | apps/agy_queue/storage.py:941-955 | the whole new table and the answer |
| `QueueClaims.ClaimIff` | apps/agy_queue/storage.py:571-616 | a claim answers a job iff nothing holds it back and every other job of which that is true was created later, and answers none iff there is none |
| `QueueClaims.LogClaimIff` | apps/agy_queue/storage.py:1074-1101 | so does a claim from the log |
| `QueueClaims.OlderFirstRun` | apps/agy_queue/storage.py:590-593 | of two READY jobs the one created earlier is handed out, though filed second |
| `QueueClaims.LogOlderFirstRun` | apps/agy_queue/storage.py:1089-1091 | so it is from the log |
| `QueueClaims.NewYearRun` | apps/agy_queue/storage.py:590-593 | both for one job of New Year's Day and one of the day after |
| `QueueRuns.Reachable` | apps/agy_queue/storage.py:458-955 | in every reachable table a job runs iff worker and lease are both set, attempts are bounded, results agree with rows, and running scopes are distinct |
| `QueueRuns.OneRunnerPerScope` | apps/agy_queue/storage.py:571-613 | no two running jobs share a scope, unfenced `schedule_retry` included |
| `QueueRuns.RunnerIsLatestClaimant` | apps/agy_queue/storage.py:603-631 | a running job belongs to the worker of its latest claim |
| `QueueRuns.AttemptIsClaimCount` | apps/agy_queue/storage.py:596-613 | `attempt` is the number of claims so far and never exceeds `max_attempts` |
| `QueueRuns.UnsafeEffectsClaimedOnce` | apps/agy_queue/storage.py:645-681 | a cloud write, exchange order or emergency control is claimed at most once in any run |
| `QueueClaims.CloudWriteClaimedOnce` | apps/agy_queue/models.py:48-57 | a cloud write that the service accepts is claimed at most once in any run, whatever its limit |
| `QueueClaims.LogCloudWriteClaimedOnce` | apps/agy_queue/models.py:48-57 | nor more often from the log, in runs whose ids redaction leaves alone |
| `QueueClaims.SweptByKind` | apps/agy_queue/storage.py:645-681 | in any run a submitted job whose lease is over fails as uncertain iff it is a cloud write; any other goes back to the queue, due at once, while it was claimed less often than it was submitted for, and fails as exhausted after that |
| `QueueClaims.LogSweptByKind` | apps/agy_queue/storage.py:1112-1144 | the log sweeps by kind in the same way |
| `QueueClaims.ClaimableAgainIff` | apps/agy_queue/storage.py:560-955 | after any run some continuation claims a job again iff it has attempts left, is not succeeded or cancelled, is not an unsafe effect already begun, and does not wait behind a gate |
| `QueueClaims.NotBeforeItsTime` | apps/agy_queue/storage.py:854-939 | a job put off to some time, by a retry or a sweep, is claimed by no earlier claim of any continuation |
| `QueueClaims.StartedAtFirstClaim` | apps/agy_queue/storage.py:603-613 | `started_at` never changes once it is set |
| `QueueClaims.AcceptedCallsIff` | apps/agy_queue/storage.py:618-955 | exactly which heartbeats, reports, retries and cancellations are accepted; a refused one changes nothing |
| `QueueRuns.StaleCallsChangeNothing` | apps/agy_queue/storage.py:752-782 | heartbeat, success and failure by anyone but the owner leave a running job as it is |
| `QueueRuns.SuccessIsFinal` | apps/agy_queue/storage.py:752-796 | status and result of a succeeded job survive every continuation |
| `QueueRuns.UnauthorizedNeverRuns` | apps/agy_queue/service.py:140-148 | a job submitted without what its kind needs is never claimed in any continuation, although three transitions reset gates |
| `QueueRuns.BudgetStep` | apps/agy_queue/storage.py:596-613 | the sum of remaining attempts falls with every claim and rises only with a creation |
| `QueueRuns.ClaimsAreBounded` | apps/agy_queue/service.py:102-103 | a run with n creations has at most 3n claims |
| `QueueRuns.SweepRecoversExactlyLateJobs` | apps/agy_queue/storage.py:633-681 | a job held on a lease, claimed or renewed, stays with its owner through every run of calls that neither renew nor finish it (conversation updates, stale calls, other jobs, sweeps up to the end of the lease), and then a sweep recovers it iff the lease is over |
| `QueueRuns.EarlySweepIsHarmless` | apps/agy_queue/storage.py:633-644 | a sweep takes no part in that iff it is not later than the end of the lease |
| `QueueRuns.ClaimHolds` | apps/agy_queue/storage.py:560-616 | a claim in any run holds the job until exactly ttl seconds after its time |
| `QueueRuns.RenewalHolds` | apps/agy_queue/storage.py:618-631 | the owner's heartbeat moves the end of the lease and the timestamp and nothing else; anybody else's changes nothing |
| `QueueRuns.OwnerSucceedsIff` | apps/agy_queue/storage.py:752-796 | the owner's success is accepted iff no result is stored or it is the same one; otherwise it raises and changes nothing |
| `QueueRuns.RetriedJobRun` | apps/agy_queue/storage.py:901-939 | a run in which a job that failed with a result is retried and claimed again, and a different success is refused |
| `QueueClaims.ConversationIsStored` | apps/agy_queue/storage.py:718-727 | a conversation id is stored whatever the state of the job |
| `QueueClaims.EndsInSuccess` | apps/agy_queue/storage.py:729-801 | what filing, claiming, a conversation and a success leave, field by field, of the job as it was submitted |
| `QueueClaims.EndsInFailure` | apps/agy_queue/storage.py:803-939 | the same of a failure, and of a manual retry after it |
| `QueueClaims.EndsWithoutOwner` | apps/agy_queue/storage.py:854-955 | the same of a scheduled retry and of a cancellation |
| `JsonlQueue.CreationsFirstIsChronological` | apps/agy_queue/storage.py:1003-1018 | replaying all creations and then all updates gives the map of replaying them in the order they were written |
| `JsonlQueue.ReplayAround` | apps/agy_queue/storage.py:1003-1018 | a job put in before other lines is overwritten if they mention it, and otherwise as good as put in after them |
| `JsonlQueue.ReadAfterCreate` | apps/agy_queue/storage.py:1037-1042 | appending a job to the inbox adds exactly that job to the view, unless the log already speaks of its id |
| `JsonlQueue.JsonlQueueStore.ReadJobs` | apps/agy_queue/storage.py:1003-1018 | the two loops compute the replay of inbox and log, which is the state in the order the lines were written |
| `JsonlQueue.JsonlQueueStore.AppendUpdate` | apps/agy_queue/storage.py:1020-1021 | the view changes at that job only, to its redacted image |
| `JsonlQueue.JsonlQueueStore.AppendEvent` | apps/agy_queue/storage.py:1146-1158 | an event line never changes the view |
| `JsonlQueue.JsonlQueueStore.CreateJob` | apps/agy_queue/storage.py:1037-1042 | raises iff the id is in the view; otherwise one inbox line, and the view gains the redacted image unless the log already speaks of the redacted id |
| `JsonlQueue.JsonlQueueStore.SelectNext` | apps/agy_queue/storage.py:1074-1090 | filtering and sorting find the next eligible job of the SQL query |
| `JsonlQueue.JsonlQueueStore.ClaimNext` | apps/agy_queue/storage.py:1063-1101 | the new view and the answer |
| `JsonlQueue.JsonlQueueStore.Mutate` | apps/agy_queue/storage.py:1023-1315 | for each operation on one job, the new view and the answer; the timestamp moves even when nothing else does |
| `JsonlQueue.JsonlQueueStore.RecoverExpired` | apps/agy_queue/storage.py:1112-1144 | the loop over expired jobs performs one step and reports exactly those jobs |
| `QueueAnswers.NextAgrees` | apps/agy_queue/storage.py:1074-1101 | tables that agree on the fields answers depend on, with scopes that redaction keeps apart, choose the same job |
| `QueueAnswers.StepStaysPaired` | apps/agy_queue/storage.py:1037-1315 | one step keeps that agreement |
| `QueueAnswers.ControlAgrees` | apps/agy_queue/storage.py:958-1315 | after every run the back ends agree on every field an answer can depend on, whatever redaction does to prompts, errors, conversations, heads and wall clock readings |
| `QueueAnswers.AnswersAgree` | apps/agy_queue/storage.py:958-1315 | every call of every such run gets the same answer from both, claims and errors included |
| `QueueAnswers.AnswersAgreeIff` | apps/agy_queue/security.py:48-60 | over scopes that redaction settles at once, all runs answer alike iff redaction keeps the scopes apart |
| `QueueAnswers.MergedScopesRun` | apps/agy_queue/security.py:22-36 | the run on two scopes made one: SQLite claims the second job, the log claims none |
| `QueueRefinement.StepAgrees` | apps/agy_queue/storage.py:1037-1315 | one step keeps it so |
| `QueueRefinement.BackendsAgree` | apps/agy_queue/storage.py:958-1315 | after every run the log is the redacted image of the table, text by text, `updated_at` aside |
| `LogRuns.LogOneRunnerPerScope` | apps/agy_queue/storage.py:1074-1101 | no two running jobs of the log share a scope, in every run whose created scopes redaction settles at once |
| `LogRuns.LogAttemptIsClaimCount` | apps/agy_queue/storage.py:1063-1101 | in the log a job runs iff worker and lease are set, and `attempt` is the number of its claims, at most `max_attempts` |
| `LogRuns.LogUnsafeEffectsClaimedOnce` | apps/agy_queue/storage.py:1112-1144 | in the log an unsafe effect is claimed at most once in any run |
| `LogRuns.LogUnauthorizedNeverRuns` | apps/agy_queue/storage.py:1249-1299 | in the log a job submitted without what its kind needs is never claimed in any continuation |
| `LogRuns.LogSuccessIsFinal` | apps/agy_queue/storage.py:1163-1204 | in the log a succeeded job stays succeeded in every continuation, whatever redaction does to its result, and keeps its result if redaction leaves that alone |
| `LogRuns.LogResultIsFinalIff` | apps/agy_queue/storage.py:1163-1315 | the stored result survives every continuation iff redaction leaves it alone: a late `cancel` writes it again |
| `LogRuns.LoggedResultsSettled` | apps/agy_queue/storage.py:1163-1237 | in every run whose reports redaction settles at once it leaves every stored result alone |
| `LogRuns.LogRunnerIsLatestClaimant` | apps/agy_queue/storage.py:1063-1110 | a running job of the log belongs to the worker of its latest claim, if redaction leaves the names of claiming workers alone |
| `LogRuns.LogStaleCallsChangeNothing` | apps/agy_queue/storage.py:1103-1237 | heartbeat, success and failure by anyone but the owner are refused; they append the same record with a new timestamp, redacted once more |
| `LogRuns.LogSweepRecoversExactlyLateJobs` | apps/agy_queue/storage.py:1112-1144 | as in the table: held through every run of harmless calls, then swept iff the lease is over |
| `LogRuns.LogHoldsNothingUnredacted` | apps/agy_queue/security.py:62-87 | over every run every text of every record in the log has passed through redaction, and the authorization is masked |
| `LogRuns.PlainImage` | apps/agy_queue/security.py:62-87 | where redaction does nothing, a record is written as it is, the authorization aside |
| `LogRuns.LogExclusionIff` | apps/agy_queue/storage.py:1020-1032 | the log keeps scopes apart in all runs iff redaction is idempotent |
| `LogRuns.TwiceRewrittenScopeRunsTwice` | apps/agy_queue/security.py:48-60 | two jobs on one scope that redaction rewrites twice both run |
| `QueueRefinement.OwnerRecognizedIff` | apps/agy_queue/security.py:62-87 | the log recognises an owner iff redaction leaves its name alone |
| `QueueRefinement.EmptyReportAgreesIff` | apps/agy_queue/storage.py:1163-1237 | reporting success or failure with an empty conversation id or head: the back ends stay equal iff the row's own is empty once redacted |
| `QueueRefinement.RepeatedSuccessAgreesIff` | apps/agy_queue/storage.py:1163-1204 | reporting the same success again is accepted by SQLite, and by the log iff a third redaction restores the first |
| `QueueRefinement.RepeatedSuccessRun` | apps/agy_queue/security.py:48-60 | the run from an empty store that gets there |
| `QueueRefinement.LockedOutRun` | apps/agy_queue/storage.py:1103-1110 | a run in which SQLite accepts the owner's heartbeat, and the log iff redaction keeps the name |
| `QueueRefinement.EmptyLeaseRun` | apps/agy_queue/storage.py:1112-1144 | a run in which only SQLite sweeps a job whose lease text is empty |
| `QueueRefinement.EmptyConversationRun` | apps/agy_queue/storage.py:1163-1204 | a run that parts the back ends iff the job's conversation is not empty once redacted |
| `QueueRefinement.SweepAgreesIff` | apps/agy_queue/storage.py:1112-1144 | a sweep keeps the back ends equal iff no running job has an empty lease text (or the time of the sweep is itself empty) |
| `ResultArtifacts.ResultArtifactStore.WriteResult` | apps/agy_queue/storage.py:137-153 | write once: raises iff different content is there, and never changes an existing artifact |
| `ResultArtifacts.StoredResultsHaveArtifacts` | apps/agy_queue/worker.py:273-283 | in every run of workers every stored result equals the artifact on disk, and a succeeded job has one |
| `ResultArtifacts.CommitNeverConflicts` | apps/agy_queue/worker.py:340-349 | a worker whose artifact was accepted is never refused by the table as conflicting |
| `ResultArtifacts.LogCommitNeverConflicts` | apps/agy_queue/storage.py:1163-1237 | nor by the log, in every run whose reports redaction settles at once |
| `ResultArtifacts.WriteAcceptedIff` | apps/agy_queue/storage.py:137-153 | a report gets past the artifact check iff it is the first on its job or says the same |
| `ResultArtifacts.CommitStoresTheArtifact` | apps/agy_queue/worker.py:340-349 | the owner's commit ends the job as reported, and what it stores is the artifact on disk |
| `ResultArtifacts.ArtifactIsFinal` | apps/agy_queue/worker.py:409-419 | an artifact never changes, and any result stored later equals it |
| `ResultArtifacts.LaterAttemptsNeverCommit` | apps/agy_queue/worker.py:197-230 | reports name their attempt, so once an attempt's artifact is on disk uncommitted, no other attempt ever succeeds or stores a result |
| `ResultArtifacts.LoggedResultsHaveArtifacts` | apps/agy_queue/storage.py:1163-1237 | with the log as the store, in every run whose reports redaction settles at once, every stored result equals the artifact on disk and a succeeded job has one |
| `ExecutionLease.InMemoryExecutionLeaseStore.Acquire` | apps/trading_worker/execution_lease.py:63-75 | grants iff the scope is free at the reading; the token is the next one; the whole new table |
| `ExecutionLease.InMemoryExecutionLeaseStore.Renew` | apps/trading_worker/execution_lease.py:77-90 | succeeds iff the token is live at its first clock reading; only that expiry moves, counted from the second |
| `ExecutionLease.InMemoryExecutionLeaseStore.AssertValid` | apps/trading_worker/execution_lease.py:92-101 | raises iff the token is not live |
| `ExecutionLease.InMemoryExecutionLeaseStore.Release` | apps/trading_worker/execution_lease.py:103-114 | only the matching record ends |
| `ExecutionLease.InMemoryExecutionLease.Acquire` | apps/trading_worker/execution_lease.py:146-151 | the handle holds the granted token |
| `ExecutionLease.InMemoryExecutionLease.Renew` | apps/trading_worker/execution_lease.py:153-158 | false without a token, else the store's answer |
| `ExecutionLease.InMemoryExecutionLease.AssertValid` | apps/trading_worker/execution_lease.py:160-163 | lost without a token, else the store's answer |
| `ExecutionLease.InMemoryExecutionLease.Release` | apps/trading_worker/execution_lease.py:165-168 | the record ends and the handle holds nothing |
| `ExecutionLease.PostgresExecutionLease.Acquire` | apps/trading_worker/execution_lease.py:192-212 | the upsert grants the next token iff the row is absent or expired |
| `ExecutionLease.PostgresExecutionLease.Renew` | apps/trading_worker/execution_lease.py:214-233 | the update hits iff the token is live |
| `ExecutionLease.PostgresExecutionLease.AssertValid` | apps/trading_worker/execution_lease.py:235-252 | raises iff the token is not live |
| `ExecutionLease.PostgresExecutionLease.Release` | apps/trading_worker/execution_lease.py:254-268 | writes the present time into the matching row only |
| `ExecutionLease.NeverEvictsLiveLease` | apps/trading_worker/execution_lease.py:63-75 | a grant, however stale its reading, never takes a scope from a live holder |
| `ExecutionLease.TokensGrow` | apps/trading_worker/execution_lease.py:63-75 | tokens of a scope never fall and every grant is the next one |
| `ExecutionLease.LaterGrantsLarger` | apps/trading_worker/execution_lease.py:63-114 | in either store, with any clock readings, a later grant of a scope carries a larger token, also after releases |
| `ExecutionLease.OneValidHolder` | apps/trading_worker/execution_lease.py:235-252 | in either store, with any clock readings, at most one handle per scope is valid at any instant |
| `ExecutionLease.DeadForever` | apps/trading_worker/execution_lease.py:63-114 | in either store, acquisitions as stale as they like, a token once expired, released or superseded is never valid again |
| `ExecutionLease.ReleaseKills` | apps/trading_worker/execution_lease.py:254-268 | a released token is dead, in either store and with any reading |
| `ExecutionLease.LeaseLastsItsTtl` | apps/trading_worker/execution_lease.py:63-90 | in either store, after a granted acquisition or an accepted renewal, through all calls that neither renew nor release that handle, the token is valid exactly before ttl seconds from its reading |
| `ExecutionLease.ScopeIsFreeFromTtlOn` | apps/trading_worker/execution_lease.py:192-233 | and the next acquisition of the scope is granted iff its reading is not before then |
| `ExecutionLease.TenSecondRun` | apps/trading_worker/execution_lease.py:63-101 | ten seconds from 0: held at 9.9, free at 10, and then token 2 for another worker |
| `ExecutionLease.BisimulationStep` | apps/trading_worker/execution_lease.py:192-268 | one call on both leases: same answer, and the tables stay alike although release writes different times |
| `ExecutionLease.LeasesAgreeIff` | apps/trading_worker/execution_lease.py:63-268 | over every run, acquisitions as stale as they like: up to any call memory and SQL give the same outcomes and tokens iff no acquisition meets a release that its reading precedes; and then the tables are alike |
| `ExecutionLease.LeasesAgree` | apps/trading_worker/execution_lease.py:192-268 | so on fresh readings they always do |
| `ExecutionLease.StaleRenewRevivesIff` | apps/trading_worker/execution_lease.py:214-233 | in SQL a dead token comes back iff a renewal by its holder began before the expiry and still reaches beyond now |
| `ExecutionLease.DeadUntilRevivedIff` | apps/trading_worker/execution_lease.py:192-268 | over every run of statements that waited as long as they like, a dead token stays dead throughout iff there is no such renewal among them |
| `ExecutionLease.StaleRenewRun` | apps/trading_worker/execution_lease.py:214-233 | the run in which it does |
| `ExecutionLease.StaleAcquireAgreesIff` | apps/trading_worker/execution_lease.py:192-212 | with a stale reading the two answer alike iff the expiries are equal or the reading is not older than the release |
| `ExecutionLease.StaleAcquireStaysBisimilar` | apps/trading_worker/execution_lease.py:63-75 | after a stale acquisition that got the same answer from both the tables are alike again |
| `ExecutionLease.StaleAcquireRun` | apps/trading_worker/execution_lease.py:254-268 | the run in which only the in-memory store grants |
| `LaunchSessions.RunsAreOk` | apps/trading_worker/persistence/postgres/repositories.py:363-646 | in every reachable table submitted never exceeds reserved, a staged session has at most one slot and is never autonomous, and an autonomous one has a submitted order and a continuation approval |
| `LaunchSessions.CountersAreHistory` | apps/trading_worker/persistence/postgres/repositories.py:459-527 | the counters of a session are the number of orders marked and of reservations held |
| `LaunchSessions.OneOrderBeforeReview` | apps/trading_worker/persistence/postgres/repositories.py:504-527 | without an activation a launch submits at most one risk-increasing order in any run |
| `LaunchSessions.AutonomyComesFromActivation` | apps/trading_worker/persistence/postgres/repositories.py:541-646 | a session is autonomous iff it was activated and neither fenced nor suspended since |
| `LaunchSessions.SlotNeedsAuthority` | apps/trading_worker/persistence/postgres/repositories.py:459-486 | a slot is granted only to an unused launch or under a live activation |
| `LaunchSessions.HitsOfReachable` | apps/trading_worker/persistence/postgres/repositories.py:459-646 | for the sessions there can be, exactly when each statement finds its row, in fewer conditions than the WHERE clauses state |
| `LaunchSessions.AutonomousImageWasLaunched` | apps/trading_worker/persistence/postgres/repositories.py:566-626 | over every run a session becomes autonomous only under the image it was launched with |
| `LaunchSessions.LaunchLife` | apps/trading_worker/persistence/postgres/repositories.py:363-646 | the rows that a launch goes through from its filing to its fence |
| `WorkerControl.TradingWorker.RefreshEngineState` | apps/trading_worker/main.py:1658-1687 | the engine state is the derived one and nothing else changes |
| `WorkerControl.TradingWorker.SyncAdapterState` | apps/trading_worker/main.py:1633-1649 | the worker's health becomes the adapter's, after an authentication failure is dropped |
| `WorkerControl.TradingWorker.SetPauseNewRisk` | apps/trading_worker/main.py:2368-2390 | the new state; lifting the pause is refused, and the pause set, in LIVE without an autonomous or a pending staged session |
| `WorkerControl.TradingWorker.SetRecoveryOnly` | apps/trading_worker/main.py:2392-2394 | the new state |
| `WorkerControl.TradingWorker.SetLaunchSession` | apps/trading_worker/main.py:883-891 | session and launch id change together |
| `WorkerControl.TradingWorker.FenceAutonomousLaunch` | apps/trading_worker/main.py:898-934 | new state, durable rows and verdict of the fence, whether its calls fail, land unread, or are read back |
| `WorkerControl.TradingWorker.TriggerReconciliation` | apps/trading_worker/main.py:2520-2562 | new state, durable rows and how it ends, exceptions of the exchange included |
| `WorkerControl.TradingWorker.ReconcileGuarded` | apps/trading_worker/main.py:2498-2506 | the same with exceptions caught; an authentication error drops the adapter's authentication |
| `WorkerControl.TradingWorker.VoidAdapter` | apps/trading_worker/main.py:2484-2488 | the adapter counts as out of sync, nothing else changes |
| `WorkerControl.TradingWorker.EngageKillSwitch` | apps/trading_worker/main.py:2457-2518 | new state and durable rows of the whole workflow, whatever exchange and database answer |
| `WorkerControl.TradingWorker.ReleaseKillSwitch` | apps/trading_worker/main.py:2397-2455 | new state and durable rows; confirmed iff the switch is down |
| `WorkerControl.TradingWorker.Disarm` | apps/trading_worker/main.py:3352-3381 | new state and durable rows |
| `WorkerControl.EngageLeavesAutonomyIff` | apps/trading_worker/main.py:2457-2518 | engaging always ends killed, paused and in EMERGENCY, whatever raises, and leaves an autonomous LIVE session iff the worker did not know of it and reconciliation reads it back |
| `WorkerControl.ReleaseClearsIff` | apps/trading_worker/main.py:2397-2455 | the switch goes down iff PAPER has no adapter or the exchange shows no open orders, sync, stream and authentication; the pause is kept and the engine is not ARMED under it |
| `WorkerRuns.KillClearsIff` | apps/trading_worker/main.py:2396-2455 | of all acts only a verified release end, or PAPER without an adapter, takes the switch down |
| `WorkerRuns.SwitchClearsOnlyVerified` | apps/trading_worker/main.py:2412-2440 | over every interleaving the clearing release began while the switch was up, then saw no open orders, then saw the adapter it had reconciled come back in sync, and now finds its own streaming and authenticated |
| `WorkerRuns.EngagementHoldsIff` | apps/trading_worker/main.py:2397-2463 | an engaged switch stays up in every run without a release begun later, iff no release that may still clear it was waiting |
| `WorkerRuns.OlderReleaseClears` | apps/trading_worker/main.py:2427-2439 | such a release, at whichever of its three awaits, can always go on to take it down |
| `WorkerRuns.NoStartUntilRelease` | apps/trading_worker/main.py:3839-3884 | from an engaged switch, until a verified release, no autonomous execution starts |
| `WorkerRuns.StartsOnlyUnblocked` | apps/trading_worker/main.py:2000-2051 | a start implies no kill switch, no pause in LIVE or for new risk, and under the autonomous policy a session reported autonomous |
| `ExecutionGate.LiveStartsIff` | apps/trading_worker/main.py:2000-2051 | against the main network an execution starts iff engine, configuration, flags, adapter, session and every piece of evidence allow it: the whole list |
| `ExecutionGate.TestnetStartsIff` | apps/trading_worker/main.py:2000-2026 | the same for the test network, where a pause or recovery bars only what increases risk |
| `ExecutionGate.PaperNeverStarts` | apps/trading_worker/venues/binance/gates.py:216-219 | in PAPER nothing starts |
| `ExecutionGate.SyncedIs` | apps/trading_worker/main.py:1658-1690 | what the engine shows after its adapter was read |
| `ExecutionGate.StagedStartRun` | apps/trading_worker/main.py:3295-3330 | a run from the start that may send its first order |
| `ExecutionGate.AutonomousStartRun` | apps/trading_worker/main.py:3068-3098 | a run from the start that may send orders on its own |
| `ExecutionGate.LiveArmIff` | apps/trading_worker/main.py:3295-3330 | arming in LIVE takes exactly an unused launch |
| `ExecutionGate.ContinuationTakenOver` | apps/trading_worker/main.py:3068-3098 | an activated continuation is taken over with its session, and fenced if the worker is not ready for it |
| `ExecutionGate.UnmarkedOrderStops` | apps/trading_worker/main.py:1074-1084 | an order that could not be marked sets the switch, and nothing starts until a verified release |
| `ExecutionGate.FaultPauses` | apps/trading_worker/main.py:1006-1058 | a fault on the way to an order pauses new risk until one of the acts that lift a pause |
| `ExecutionGate.NothingStartsDetached` | apps/trading_worker/main.py:3352-3381 | once disarmed or reset, nothing starts in any run until an adapter is attached again |
| `ExecutionGate.TakenDown` | apps/trading_worker/main.py:2592-2648 | what disarming, a failed arm and a failed continuation leave |
| `ExecutionGate.ResumesIff` | apps/trading_worker/main.py:2368-2390 | a request to resume new risk succeeds in LIVE iff the session is an unused staged launch or a live activation |
| `ExecutionGate.FenceShowsReauth` | apps/trading_worker/main.py:913-926 | a fence that lands and reads back shows the worker its own session waiting for a new approval |
| `ExecutionGate.ReconcileMovesSession` | apps/trading_worker/main.py:2520-2562 | a reconciliation in sync moves a suspended session on, and one that is not leaves the rows alone |
| `ExecutionGate.SwitchFallsIff` | apps/trading_worker/main.py:2396-2455 | exactly which act takes a set switch down and in which state of the adapter; the pause stays |
| `WorkerRuns.PauseLiftsIff` | apps/trading_worker/main.py:1099-1100 | exactly which acts lift a pause, and when |
| `WorkerRuns.PauseOutlivesRelease` | apps/trading_worker/main.py:2459-2462 | after engaging, releases notwithstanding, neither a LIVE nor a risk-increasing execution starts before one of these acts |
| `WorkerRuns.ConfirmationLiftsPause` | apps/trading_worker/main.py:1085-1105 | an autonomous order confirmed after the switch was engaged lifts the pause under it |
| `WorkerRuns.PauseLiftedRun` | apps/trading_worker/main.py:1074-1105 | a run from the start that gets there: the order is reserved, the switch engaged, the order marked and confirmed |
| `WorkerRuns.NoAutonomyUntilActivation` | apps/trading_worker/main.py:898-934 | once no session is autonomous, no run without a fresh activation makes one so, starts under that policy, or gets an order slot under it |
| `WorkerRuns.FenceEndsAutonomyIff` | apps/trading_worker/main.py:913-926 | once a fence has ended, whatever other coroutines did during its awaits, no continuation without a fresh activation makes either copy autonomous, iff no other coroutine was waiting with an autonomous session when its update ran |
| `WorkerRuns.FailedFenceBlocksAutonomy` | apps/trading_worker/main.py:927-934 | after a failed fence the worker has no session, and LIVE can start only as a staged launch |
| `WorkerRuns.EngagedAfterRead` | apps/trading_worker/main.py:2525-2534 | engaging while a session read is under way leads to the state of the next row |
| `WorkerRuns.StaleReadRevivesCopy` | apps/trading_worker/main.py:2525-2534 | the late answer makes the worker's copy autonomous while the switch is up; SQL refuses the slot |
| `WorkerRuns.UnknownAutonomyRun` | apps/trading_worker/main.py:3066-3085 | a run from the start after which engaging leaves an autonomous session |
| `WorkerRuns.FenceIsRun` | apps/trading_worker/main.py:898-934 | the undisturbed fence is a run of acts |
| `WorkerRuns.ReconcileIsRun` | apps/trading_worker/main.py:2520-2562 | so is reconciliation |
| `WorkerRuns.EngageIsRun` | apps/trading_worker/main.py:2457-2518 | so is engaging the switch |
| `WorkerRuns.ReleaseIsRun` | apps/trading_worker/main.py:2397-2455 | so is releasing it |
| `WorkerRuns.DisarmIsRun` | apps/trading_worker/main.py:3352-3381 | so is disarming |
| `GridDepthCache.InMemoryLedger.UpsertOrder` | apps/trading_worker/venues/binance/ledger.py:93-94 | the whole new ledger; the version stays |
| `GridDepthCache.InMemoryLedger.UpsertRawOrder` | apps/trading_worker/venues/binance/ledger.py:96-149 | the whole new ledger; lineage is inherited, the version rises |
| `GridDepthCache.InMemoryLedger.AppendFill` | apps/trading_worker/venues/binance/ledger.py:168-177 | the whole new ledger; a known fill changes nothing |
| `GridDepthCache.InMemoryLedger.UpsertPosition` | apps/trading_worker/venues/binance/ledger.py:350-365 | the loop replaces the position in its place or appends it; the version rises |
| `GridDepthCache.InMemoryLedger.ReplacePositions` | apps/trading_worker/venues/binance/ledger.py:327-345 | the whole new ledger; the version stays |
| `GridDepthCache.InMemoryLedger.ClearPositionsForSymbol` | apps/trading_worker/venues/binance/ledger.py:379-385 | the whole new ledger; the version rises |
| `GridDepthCache.GridDepthObserver.BeginScan` | apps/trading_worker/main.py:1227-1246 | answers at once in PAPER, without an adapter and on a hit, else opens a scan at the present version |
| `GridDepthCache.GridDepthObserver.ReadPositionsOf` | apps/trading_worker/main.py:1246-1255 | the scan holds the symbol's absolute quantity |
| `GridDepthCache.GridDepthObserver.ReadOrdersOf` | apps/trading_worker/main.py:1256-1271 | the scan holds the symbol's grid orders |
| `GridDepthCache.GridDepthObserver.FinishScan` | apps/trading_worker/main.py:1272-1290 | caches the depth under the version of the scan's start and answers it |
| `GridDepthCache.GridDepthObserver.FailScan` | apps/trading_worker/main.py:1291-1297 | caches nothing and answers the maximum |
| `GridDepthCache.GridDepthObserver.ReplaceAdapter` | apps/trading_worker/main.py:3209-3232 | the new ledger is read from now on; the cache stays, and so does the ledger of scans in flight |
| `GridDepthMeaning.DepthMeans` | apps/trading_worker/main.py:1246-1290 | the depth is 0 iff nothing is held and no grid order works; else it is the number of working and filled grid orders, or all levels if that is none or too many |
| `GridDepthMeaning.GridOrderIff` | apps/trading_worker/main.py:1211-1222 | an order is the grid's by its strategy, by an intent, or by how its id begins, case aside |
| `GridDepthMeaning.QuietScan` | apps/trading_worker/main.py:1238-1290 | a scan that nothing interrupts answers that depth, and the next call is served it |
| `GridDepthMeaning.AnswersAreBounded` | apps/trading_worker/main.py:1227-1297 | over every run no answer exceeds the number of levels; PAPER answers 0, and no adapter or a failed read all levels |
| `GridDepthMeaning.ClearingFlattens` | apps/trading_worker/venues/binance/ledger.py:379-385 | clearing a symbol leaves it flat and every other as it was |
| `GridDepthMeaning.UpsertReplaces` | apps/trading_worker/venues/binance/ledger.py:350-365 | a position replaces the one in its place and no other |
| `GridDepthMeaning.RawOrderKeepsLineage` | apps/trading_worker/venues/binance/ledger.py:96-149 | the exchange's record of an order keeps whose order it is |
| `GridDepthMeaning.FillCountsOnce` | apps/trading_worker/venues/binance/ledger.py:168-177 | a fill reported twice counts once |
| `GridDepthCache.StepKeepsCoherence` | apps/trading_worker/main.py:1238-1290 | every step under a version that grows, a new adapter above all known versions included, keeps cache and scans coherent with the ledger |
| `GridDepthCache.HitsAreFresh` | apps/trading_worker/main.py:1238-1290 | over every interleaving of scans, such changes and such adapters a hit equals a fresh scan of the present ledger |
| `GridDepthReplacement.CountedRunsAreFresh` | apps/trading_worker/venues/binance/ledger.py:146-385 | the ledger's four counted changes suffice for that |
| `GridDepthCache.VersionedIff` | apps/trading_worker/venues/binance/ledger.py:66-68 | a change keeps the version contract iff it is not a differing `upsert_order` or `replace_positions` |
| `GridDepthCache.StaleAfterReplaceIff` | apps/trading_worker/venues/binance/ledger.py:327-345 | after positions are replaced a hit is still right iff a grid order is open or flatness is unchanged |
| `GridDepthCache.StaleAfterOrderIff` | apps/trading_worker/venues/binance/ledger.py:93-94 | after any order is stored, new or changed, a hit is still right iff the symbol stays inactive, or stays active with as many levels or a full grid before and after |
| `GridDepthCache.StaleAfterClosedOrderIff` | apps/trading_worker/venues/binance/execution.py:1680-1682 | the case of a working grid order that is filled or cancelled, in the counts before the call |
| `GridDepthCache.NewOrderGoesUnseen` | apps/trading_worker/main.py:1238-1290 | the run in which depth 0 is served where a scan would find 1 |
| `GridDepthReplacement.RunsAreSane` | apps/trading_worker/main.py:1227-1290 | from an empty cache every run keeps symbols in upper case, quantities non-negative and every scan on a known ledger, as the two exact conditions below ask |
| `GridDepthReplacement.ReplacementIsSafeIff` | apps/trading_worker/main.py:3209-3232 | after an adapter change at any moment all later hits in all runs are right, whatever ledger at that version comes with it, iff everything cached or being scanned has a lower version |
| `GridDepthReplacement.ReplacementSuffices` | apps/trading_worker/main.py:2679-2692 | for one ledger it suffices that every entry and every scan in flight is older or right about it |
| `GridDepthReplacement.LoadedLedgerGoesUnseen` | apps/trading_worker/persistence/postgres/ledger.py:175-191 | a flat entry at version 0 hides the open order of a ledger loaded from SQL |
| `GridDepthReplacement.EmptyReplacementIsSafeIff` | apps/trading_worker/main.py:748-749 | with an empty new ledger: iff the cache holds only version 0, depth 0 and every scan in flight is bound to report just that |
| `NotionalClamp.ClampOrderNotional` | apps/trading_worker/main.py:3383-3471 | the loop computes the specified decision |
| `NotionalClamp.ClampTouchesOnlyQuantities` | apps/trading_worker/main.py:3399-3471 | count, sequence and every reduce-only order are kept; only quantities differ |
| `NotionalClamp.ChangedOrdersLandInBand` | apps/trading_worker/main.py:3399-3460 | a changed order lands between minimum and cap and moves strictly towards them |
| `NotionalClamp.DeltaIsSignedSum` | apps/trading_worker/main.py:3460-3471 | a rewritten delta is the signed sum of the quantities; without an out-of-bounds order nothing changes |
| `NotionalClamp.ClampIsIdempotent` | apps/trading_worker/main.py:3399-3471 | clamping twice is clamping once |
| `NotionalClamp.OversizedOrderIff` | apps/trading_worker/main.py:3411-3435 | an order above the cap changes iff nine tenths of the cap, or 45 if less, normalise to a quantity the venue takes, and then has exactly that quantity |
| `NotionalClamp.UndersizedOrderIff` | apps/trading_worker/main.py:3436-3459 | the same for an order below the minimum, with five quarters of it within the same bounds |
| `NotionalClamp.OtherOrdersStay` | apps/trading_worker/main.py:3389-3460 | every other order stays, and all of them without adapter, rules, price or cap |
| `NotionalClamp.ChangedDelta` | apps/trading_worker/main.py:3460-3471 | if an order changes the delta is what is bought less what is sold; otherwise the decision is untouched |
| `NotionalClamp.ClampRun` | apps/trading_worker/main.py:3411-3471 | a cap of 50 at a price of 100: buying 2 becomes buying 0.45, selling 0.01 selling 0.0625 |
| `WealthMetrics.CountTrades` | domain/wealth_metrics.py:144-161 | the one-pass loop computes the tally and the list of nets |
| `WealthMetrics.TallyBalances` | domain/wealth_metrics.py:144-161 | wins, losses and break-evens add up to all trades; profit minus loss is the net; violations are zero iff no trade has one |
| `WealthMetrics.TallySumsUp` | domain/wealth_metrics.py:144-161 | net is realized results less commissions plus funding, and every other figure is its own sum or count over the trades |
| `WealthMetrics.EquityIsCapitalAndEarnings` | domain/wealth_metrics.py:195-206 | the equity after some trades is the capital and what they earned |
| `WealthMetrics.ExpectancyIsMeanNet` | domain/wealth_metrics.py:163-184 | win rate times average win minus loss rate times average loss is the mean net |
| `WealthMetrics.RoundingBounds` | domain/wealth_metrics.py:86-87 | half-up rounding stays within half a cent, and exactly which values pass the two thresholds |
| `WealthMetrics.ToCentsRounds` | domain/wealth_metrics.py:86-87 | rounding gives the nearest whole cent, half a cent going away from zero |
| `WealthMetrics.MeasureDrawdown` | domain/wealth_metrics.py:195-219 | the one-pass loop computes the specified maximum drawdown |
| `WealthMetrics.PeakIsHighest` | domain/wealth_metrics.py:203-208 | the running peak is the highest equity so far, and attained |
| `WealthMetrics.DrawdownIsMaximum` | domain/wealth_metrics.py:195-219 | the maximum drawdown bounds the drawdown at every position and is attained |
| `WealthMetrics.DrawdownNeverFalls` | domain/wealth_metrics.py:195-219 | appending trades never lowers it |
| `WealthMetrics.DrawdownIsScaleFree` | domain/wealth_metrics.py:195-219 | scaling capital and results by one positive factor leaves it unchanged |
| `WealthMetrics.DrawdownIsWorstPairDrop` | domain/wealth_metrics.py:195-219 | while equity stays non-negative it bounds the drop of every earlier and later pair |
| `WealthMetrics.DrawdownIsSomePairDrop` | domain/wealth_metrics.py:195-219 | unless zero it is the drop of such a pair |
| `WealthMetrics.PairDropWithinIff` | domain/wealth_metrics.py:195-219 | the drop from an earlier positive value to a later one is within the running drawdown there iff the later one is not negative or the earlier one is the peak |
| `WealthMetrics.WorstPairIff` | domain/wealth_metrics.py:195-219 | the maximum drawdown bounds every pair drop iff it bounds, at each point below zero, the drop from the lowest positive equity so far |
| `WealthMetrics.NegativeEquityBreaksPairReading` | domain/wealth_metrics.py:195-219 | the example with negative equity where a pair drops further |
| `WealthMetrics.CapitalSafeMeans` | domain/wealth_metrics.py:306-310 | the rounded verdict holds iff there are trades, none of unknown risk, exact drawdown is below 10.005 percent and net exceeds -0.005 per trade |
| `WealthMetrics.CalculateWealthMetrics` | domain/wealth_metrics.py:90-219 | the report of any trade list, the empty one included, each figure in terms of the trades and the capital |
| `WealthMetrics.FeesMakeALoss` | domain/wealth_metrics.py:144-161 | a profit of 1 with a commission of 2 is reported as a loss of 1 and not capital-safe |
| `WealthGrouping.WealthEvaluator.RecordTrade` | apps/learning_engine/wealth_evaluator.py:38-44 | the new book |
| `WealthGrouping.WealthEvaluator.IsTracked` | apps/learning_engine/wealth_evaluator.py:66-67 | the scan finds the id iff it is in the book |
| `WealthGrouping.WealthEvaluator.RecordLineage` | apps/learning_engine/wealth_evaluator.py:46-67 | the new book |
| `WealthGrouping.WealthEvaluator.GetStrategyMetrics` | apps/learning_engine/wealth_evaluator.py:76-87 | one report per strategy present, over exactly its trades in order |
| `WealthGrouping.WealthEvaluator.GetSymbolMetrics` | apps/learning_engine/wealth_evaluator.py:89-100 | one report per symbol present, over exactly its trades in order |
| `WealthGrouping.Group` | apps/learning_engine/wealth_evaluator.py:77-79 | the loop builds exactly the selections by key |
| `WealthGrouping.SelectsByKey` | apps/learning_engine/wealth_evaluator.py:77-79 | a group holds the trades with its key and no others |
| `WealthGrouping.GroupingConserves` | apps/learning_engine/wealth_evaluator.py:76-100 | all counts and exact sums over the groups add up to those of the whole book |
| `WealthGrouping.RecordedCount` | apps/learning_engine/wealth_evaluator.py:46-67 | over every run an id is in the book once per direct recording, plus one iff a closed lineage came first |
| `WealthGrouping.LineagesEnterOnce` | apps/learning_engine/wealth_evaluator.py:65-67 | lineages alone enter an id at most once, and exactly once iff one of them was closed |
| `WealthGrouping.FirstClosedVersionStands` | apps/learning_engine/wealth_evaluator.py:46-67 | the trade that counts is the first closed version of its lineage, figure by figure |
| `WealthGrouping.CountedAsFiledIff` | apps/learning_engine/wealth_evaluator.py:46-67 | the counted trade is the lineage on file iff the first closed and the latest version give the same trade |
| `WealthGrouping.CorrectionIsNotCounted` | apps/learning_engine/wealth_evaluator.py:46-67 | the run in which a correction is filed and not counted |
| `EightD.EightDIncident.CloseIncident` | domain/eight_d.py:190-198 | the incident is closed with its summary |
| `EightD.EightDManager.CreateIncidentFromLineage` | apps/learning_engine/eight_d_manager.py:39-136 | a fresh incident at D5 is filed and its symbol contained |
| `EightD.EightDManager.AdvanceAndClose` | apps/learning_engine/eight_d_manager.py:138-174 | closes iff the incident is open and each of the four texts has something on it; lifts the containment iff none is left open |
| `EightD.EightDManager.StillOpen` | apps/learning_engine/eight_d_manager.py:166-170 | true iff the symbol has an open incident |
| `EightD.CloseKeepsExact` | apps/learning_engine/eight_d_manager.py:149-171 | closing keeps the containment index exact |
| `EightD.CreateKeepsExactIff` | apps/learning_engine/eight_d_manager.py:94-128 | creating keeps it exact iff it does not overwrite the last open incident of another symbol |
| `EightD.ReusedIdStrandsContainment` | apps/learning_engine/eight_d_manager.py:94-128 | the run that leaves a symbol contained with no open incident |
| `EightD.ContainmentIsExact` | apps/learning_engine/eight_d_manager.py:94-171 | over every run with fresh ids the contained symbols are those with an open incident |
| `EightD.ClosedForGood` | apps/learning_engine/eight_d_manager.py:149-161 | a closed incident is never reopened nor closed again |

## Left out

- Queue atomicity: each store method and `write_result` is one step; the lock file, fsync, WAL set-up and the fact that
  the artifact lock is per process are not modelled.
- Redaction is an arbitrary function on text, plus the rewriting of `authorization_ref`; its patterns are not modelled.
- QueueAnswers.AnswersAgree: asks that redaction leave ids, creation and retry times, claiming workers, leases and sweep
  times alone, settle results and scopes at once and keep scopes apart, and that no lease is empty; the back ends differ
  otherwise. Names, leases, results and scopes have their exact conditions; rewritten ids and times do not.
- QueueRefinement.BackendsAgree: compares every text, so it also asks that redaction settle the other texts at once and
  that no conversation id or head is empty. A claim at an empty time is left out: the program cannot read such a time and
  raises.
- JsonlQueue.JsonlQueueStore.CreateJob: promises to keep ids filed as they are only for an id that redaction settles at
  once.
- UtcIso.IsoOfParse: the reader accepts only the form the program writes, not every spelling Python's parser takes.
- ExecutionLease.LeasesAgreeIff: is about stale acquisitions; a stale renewal or validity test in SQL has no counterpart in
  memory, where both read the clock under the lock. DeadUntilRevivedIff says what such a renewal can do.
- WorkerRuns.KillClearsIff: is about one process; a restart begins with the switch down, after fencing all sessions.
- Order submission itself, credential and role checks, preflight evidence, build evidence, market data and the gate's
  account checks are inputs of the worker model.
- Upper-casing of symbols is that of ASCII letters.
- WealthMetrics.CountTrades: Decimals are exact; rounding to 28 digits is not modelled.
- Sharpe, Sortino, CAGR, Calmar, value at risk, the growth score, promotion stages: floating point or threshold tables.
- `get`, `list`, `watch`, HTTP routes, user interface, release gate and cloud plumbing: only easy members.
