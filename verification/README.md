# Binnacle: alerting, notification, limiting and history, in Dafny

Binnacle watches a server and its containers, raises alerts, groups them into incidents, notifies channels and keeps
a metric history in SQLite. This project models the parts of it whose correctness depends on many steps taken
together, and proves what they keep.

A table is a map from row id to row, a nullable column an `Option`, a time an integer (nanoseconds, or the unit of
the column) and a transaction a step that commits whole or changes nothing. Clocks, transports and whatever happens
in another goroutine are parameters, so each theorem holds for all of them.

| module | what it holds |
|---|---|
| `Lifecycle` | the alert lifecycle over whole sequences of observations, with the rounding of stored times |
| `Alerting` | `evaluate`, incident membership, reconciliation and cleanup over the alert and incident tables |
| `Backoff`, `Outbox` | retry delays; delivery rows: enqueueing, coalescing, claiming, finishing, cancelling |
| `Pipeline` | all of these as steps of one state machine, and the invariant of every interleaving |
| `Guarantees`, `DeliveryGuarantees`, `RowHistory`, `ResolutionGuarantees`, `NotificationGuarantees`, `OperatorGuarantees` | theorems over every run of `Pipeline` |
| `Database`, `Repository`, `DeliveryWorker`, `Evaluator` | the same operations as programs that change tables in place, each proved to do what `Alerting`, `Outbox` and `Pipeline` say |
| `Dispatch` | the dispatcher, its workers and the set of queued ids |
| `RateLimiter`, `LimiterBounds` | the token-bucket limiter as a mutable list, and what it promises over any calls |
| `History` | gap detection, relabelling and merging |
| `Rollups` | three tiers of aggregates, and what retention does to them |
| `Deletion`, `DeletionControl`, `DeletionInterference`, `DeletionWorker` | history deletion jobs as a state machine, under cancellation, with other writers, and as nested loops that refine it |
| `Options`, `Runs` | optional values and rounding; runs of a step function |
| `PersistenceQueue` | the bounded queue between collector and writer |

## Where the code does not do what one would expect

Each of these is stated as a lemma, with the exact condition under which the code does meet the expectation.

- The two events of an alert have the same primary key, so resolving an alert commits exactly when the event of its
  triggering has been purged (`Alerting.ResolutionCommitsIffEventWasPurged`, `Guarantees.NothingResolvesBeforeAPurge`,
  `Guarantees.ResolutionsAreRolledBack`).
- A Retry-After of more than about 292 years overflows (`Backoff.SecondsAreHonouredIff`); `retryDelay` alone would
  shorten long steps of the schedule (`Backoff.RawRetryDelayShortensIff`).
- `finish` does not look at the status of the row (`RowHistory.FinishSparesFinalRowsIff`).
- The wait the limiter advises is rounded down (`LimiterBounds.AdvisedWaitSufficesIffWhole`), an evicted key comes
  back with a full bucket (`LimiterBounds.NewcomersStartFull`), and calls that race can overdraw one
  (`LimiterBounds.OverdrawnIff`).
- A retention cutoff inside a bucket makes the next rollup replace the bucket's row with an aggregate of what is left
  (`Rollups.RowSurvivesRetentionIff`), although the comment on `RollupOnce` promises repair.
- A health check on a resource in scope makes a deletion job impossible to complete
  (`Deletion.WatchedJobsNeverComplete`, `DeletionWorker.Manager.RunDeletion`).
- A deletion job that is cancelled after the worker loaded it is marked running all the same
  (`DeletionControl.StoppedStaysUnlessLoaded`, `DeletionControl.CancelCanBeLost`).
- The writer queue can drop a batch although there is room (`PersistenceQueue.DropIsNeedlessIff`).

## Model

| member | source | states |
|---|---|---|
| Lifecycle.StateIsExplained | internal/alerts/state.go:19-57 | after any observations the stored phase, its start, the cooldown and the last notification are those of identifiable earlier observations, each rounded once and not cumulatively |
| Lifecycle.TriggerIsEarned | internal/alerts/state.go:24-37 | a trigger ends an unbroken run of at least two failing observations spanning the trigger duration, is not suppressed, follows no unresolved trigger and respects the last cooldown, each bound missed by less than one unit of rounding |
| Lifecycle.ResolutionIsEarned | internal/alerts/state.go:38-55 | a resolution follows a recovered observation by the recovery duration with no failing one in between, and an unresolved trigger |
| Lifecycle.RepeatIsEarned | internal/alerts/state.go:38-45 | a repeat follows the previous notification of the same firing by the repeat interval less one unit of rounding |
| Lifecycle.TriggersAreSeparated | internal/alerts/state.go:19-57 | between two triggers of one alert lies a resolution |
| Lifecycle.ResolutionsAreSeparated | internal/alerts/state.go:19-57 | before a resolution, and since the previous one, lies a trigger: triggers and resolutions strictly alternate |
| Lifecycle.TriggerIsNotLate | internal/alerts/state.go:24-37 | the other direction: an inactive alert that fails without a break for its trigger duration, past its cooldown and not suppressed, has triggered by then |
| Lifecycle.ResolutionIsNotLate | internal/alerts/state.go:38-55 | an active alert that recovered, has not failed since and is recovered after its recovery duration has resolved by then |
| Lifecycle.RepeatIsNotLate | internal/alerts/state.go:38-45 | a firing alert that is neither recovered nor suppressed repeats once its interval has passed |
| Lifecycle.BeforePrefix | internal/alerts/state.go:19-57 | what an observation does depends on no later one |
| Alerting.GroupsAreTargets | internal/notifications/repository.go:44-59 | alerts share a group exactly when both are about the host, or both about the same subsystem, filesystem or resource (a check stands for its resource), and that is the target the incident shows |
| Alerting.KeysNameTheirTarget | internal/alerts/repository.go:208-208 | two evaluations share a dedup key exactly when they share family and target, for families without a colon |
| Alerting.JoinKeepsGrouping | internal/notifications/repository.go:65-91 | adding a firing alert keeps every incident row exact and one open incident per group, puts the alert into the open incident of its group and reports that incident's severity |
| Alerting.LeaveKeepsGrouping | internal/notifications/repository.go:102-127 | resolving an alert keeps every incident row exact, closing its incident exactly when no firing member is left |
| Alerting.TriggerKeepsCoherence | internal/alerts/evaluator.go:377-385 | a triggering evaluation that commits adds exactly one alert, firing, with the family, severity, target type and target of the evaluation, and makes it a member of the open incident of its group; a new incident shows the same and is opened now, an old one keeps all but its severity; a critical alert makes the incident, and what is announced, critical; the tables stay coherent |
| Alerting.ResolveKeepsCoherence | internal/alerts/evaluator.go:388-401 | a resolving evaluation resolves exactly the firing alert of the key, now, and, if it closes an incident, one that was open before, resolved now; the tables stay coherent |
| Alerting.EvaluateKeepsCoherence | internal/alerts/evaluator.go:340-409 | every committed evaluation keeps the alert and incident tables coherent, changes no resolved incident, and what it asks to be notified is true of the tables it leaves |
| Alerting.ResolutionCommitsIffEventWasPurged | internal/alerts/evaluator.go:388-427 | an evaluation that resolves commits exactly when the event row its triggering inserted is gone |
| Alerting.TriggerCommitsIffStartIsFree | internal/alerts/evaluator.go:377-385 | an evaluation that triggers commits exactly when no alert of the key started in the same second |
| Alerting.ReconcileKeepsCoherence | internal/notifications/repository.go:295-327 | joining alerts one by one keeps the tables coherent after each, without touching alerts, phases or events |
| Alerting.ReconcileJoinsEverything | internal/notifications/repository.go:295-327 | afterwards every firing alert belongs to an incident |
| Alerting.ForgettingAlertsKeepsCoherence | internal/alerts/repository.go:191-207 | removing old resolved alerts with their memberships keeps the tables coherent and every firing alert in its incident |
| Alerting.ForgettingIncidentsKeepsCoherence | internal/notifications/repository.go:767-774 | removing old resolved incidents with their memberships keeps them coherent too |
| Alerting.PurgingEventsKeepsCoherence | internal/storage/retention.go:102-149 | purging event rows disturbs neither alerts nor incidents |
| Backoff.ParseRetryAfter | internal/notifications/worker.go:289-297 | whatever the header says, the wait read from it is at most an hour |
| Backoff.HeaderNeverShortensBackoff | internal/notifications/worker.go:289-297 | for every header and attempt the delay is the longer of schedule and header, never below the schedule |
| Backoff.RawRetryDelayShortensIff | internal/notifications/worker.go:460-469 | without the cap of the parser a delay is shortened exactly for waits beyond a step that is itself beyond an hour |
| Backoff.RawRetryDelayCanShorten | internal/notifications/worker.go:460-469 | an attempt and a wait for which it is |
| Backoff.SecondsAreHonouredIff | internal/notifications/worker.go:289-297 | delta-seconds are honoured up to an hour exactly when their 64-bit product with a second does not wrap below an hour |
| Backoff.OtherHeaders | internal/notifications/worker.go:289-297 | a date is honoured up to an hour ahead; a date that has passed, no header and no positive number ask for nothing |
| Backoff.LongestWaitsOverflow | internal/notifications/worker.go:289-297 | the smallest such value that is read as no wait at all |
| Outbox.UpsertKeepsSoundness | internal/notifications/repository.go:222-253 | coalescing or inserting keeps at most one delivery in progress and at most two live opened/updated rows per incident and channel, and every other invariant of the rows |
| Outbox.EnqueueIncidentKeepsSoundness | internal/notifications/repository.go:177-220 | so does the loop over channels |
| Outbox.EnqueueResolutionKeepsSoundness | internal/notifications/repository.go:132-175 | announcing a resolution to channels that have not heard of it keeps them, and announces it once |
| Outbox.EnqueueResolutionSettles | internal/notifications/repository.go:153-174 | on each channel served the opened/updated rows of the incident that are pending are cancelled, no other row changes, and one resolution row due now is added exactly where an earlier delivery was tried; other channels are untouched |
| Outbox.ClaimKeepsSoundness | internal/notifications/worker.go:203-212 | the claiming statement keeps deliveries of an incident to a channel exclusive |
| Outbox.RetryKeepsSoundness | internal/notifications/repository.go:742-753 | a manual retry keeps them exclusive and adds at most the retried row to the live ones |
| Outbox.CalmerKeepsSoundness | internal/notifications/worker.go:444-459 | a change that starts, revives and attempts nothing keeps all invariants |
| Outbox.FinishIsCalm | internal/notifications/worker.go:444-459 | finishing a row in progress is such a change, and leaves it well formed |
| Outbox.RecoverIsCalm | internal/notifications/worker.go:99-102 | so is recovery, after which nothing is in progress |
| Outbox.PatchingIsCalm | internal/notifications/repository.go:628-642 | so is changing a channel, which cancels what is pending when it is disabled |
| Outbox.DeletingIsCalm | internal/notifications/repository.go:683-702 | so is deleting one |
| Outbox.CreatingIsCalm | internal/notifications/repository.go:517-556 | so is creating one |
| Outbox.DetachKeepsSoundness | internal/notifications/repository.go:767-774 | deleting incidents detaches their deliveries and keeps the rest sound |
| Outbox.OldestWaiting | internal/notifications/repository.go:224-224 | the row that coalescing refreshes is a waiting one created no later than any other, and is missing exactly when none waits |
| Pipeline.EvaluationKeepsInv | internal/alerts/evaluator.go:340-409 | evaluation, grouping and enqueueing as one transaction keep the invariant of all tables |
| Pipeline.RemindKeepsInv | internal/notifications/repository.go:776-809 | so does the reminder loop over incidents and channels |
| Pipeline.StartKeepsInv | internal/notifications/worker.go:95-115 | so does a start, whether or not it gets through reconciliation |
| Pipeline.WorkerStepKeepsInv | internal/notifications/worker.go:201-249 | so do claiming, finishing, abandoning, retrying and stopping |
| Pipeline.StepKeepsInv | internal/notifications/worker.go:123-153 | every step of any component keeps it |
| Pipeline.EveryReachableWorldIsGood | internal/notifications/repository.go:61-253 | it holds in every world that any interleaving of any length reaches from a database without incidents |
| Pipeline.EmptyDatabaseIsInitial | migrations/017_incidents_notifications.sql:1-66 | the empty database is such a beginning |
| Guarantees.TablesAreExact | internal/notifications/repository.go:65-128 | in every reachable world a key has exactly one firing alert while its stored phase is firing or recovering and none otherwise; an incident is open exactly when it has a firing member, critical exactly when one of them is, has a reminder exactly while open, and is the only open one of its group |
| Guarantees.FiringAlertsAreInTheirOpenIncident | internal/notifications/repository.go:44-100 | from an empty database, or once a start has reconciled, each firing alert is in exactly one incident, which is open and carries its group key |
| Guarantees.EveryAlertWasEarned | internal/alerts/evaluator.go:371-385 | every alert ever inserted ends an unbroken run of failing observations of its key longer than the trigger duration less one second |
| Guarantees.NothingResolvesBeforeAPurge | internal/alerts/evaluator.go:384-427 | no alert and no incident resolves in any run from an empty database before an event row is purged |
| Guarantees.ResolutionsAreRolledBack | internal/alerts/evaluator.go:384-427 | runs do come to that: four looks at an empty database, the last of which resolves and is rolled back |
| DeliveryGuarantees.DeliveriesAreExclusive | internal/notifications/worker.go:201-211 | in every interleaving an incident has at most one delivery in progress per channel, and at most two live opened/updated rows not retried by hand |
| DeliveryGuarantees.RetriesNothing | internal/notifications/repository.go:742-753 | without manual retries there are no such exceptions |
| DeliveryGuarantees.RowsAreWellFormed | internal/notifications/worker.go:444-459 | in every interleaving pending rows have a next attempt, finished ones a completion time, and none more than seven attempts |
| RowHistory.EveryStepIsABoxStep | internal/notifications/worker.go:201-211 | all the ways in which any step may change a delivery row: a claim only of one that is pending and due; which steps may insert one, and that only cleanup removes one, if it is finished |
| RowHistory.SucceededAndCancelledAreFinal | internal/notifications/worker.go:444-459 | from any reachable world on such a row is there and unchanged as long as nothing is cleaned up; cleanup may detach its incident or remove it, and nothing else can |
| RowHistory.FinishSparesFinalRowsIff | internal/notifications/worker.go:444-459 | `finish` on its own leaves every final row alone exactly when the row it is called for is not final; a final one it can revive |
| RowHistory.AtMostSevenAttempts | internal/notifications/worker.go:56-56 | between manual retries at most seven attempts of a delivery finish, whatever else happens |
| RowHistory.FailureSchedulesTheNextAttempt | internal/notifications/worker.go:444-469 | the n-th retryable failure schedules the next attempt after 1, 5 or 15 minutes, 1, 4 or 12 hours, or Retry-After if longer; the seventh failure or a permanent one ends the delivery, and a success does |
| ResolutionGuarantees.ResolvedIsForever | internal/notifications/repository.go:102-128 | an incident resolves at most once: from then on its row is the same or removed |
| ResolutionGuarantees.AnnouncementsComeFromClosing | internal/notifications/repository.go:124-128 | a resolution row appears only in the step that closes its incident, for a pair claimed before |
| ResolutionGuarantees.ResolutionIsAnnouncedOnce | internal/notifications/repository.go:132-175 | over a whole run a channel gets at most one resolution of an incident, even after cleanup, and only if a worker claimed another delivery of the pair before |
| ResolutionGuarantees.ClaimedMeansClaimed | internal/notifications/worker.go:203-212 | a pair counted as claimed was claimed by an identifiable earlier step |
| ResolutionGuarantees.ClosingLeavesNothingPending | internal/notifications/repository.go:132-175 | after the closing transaction each enabled, undeleted channel that wants resolutions has nothing pending about the incident but one resolution, due now, exactly if an earlier delivery was tried; no row of any other channel changes |
| ResolutionGuarantees.CriticalChannelsHearOnlyOfCriticalIncidents | internal/notifications/repository.go:177-220 | each opened, updated or reminder row written for a critical-only channel belongs to an incident with a firing critical alert in that transaction |
| NotificationGuarantees.FiringsReachEveryChannel | internal/notifications/repository.go:93-99 | after a committed trigger each channel in use that wants the incident's severity, each one at all if the alert is critical, hears of it fifteen seconds later: the oldest pending opened/updated row is put off, or one row is added, opened for a new incident and updated for an old one; no other row of any channel changes |
| NotificationGuarantees.RemindersReachEveryChannel | internal/notifications/repository.go:776-809 | a reminder round reminds of exactly the open incidents whose time has come: the next reminder is an interval away, two hours if none is set, and each channel in use that wants it gets one row due now |
| NotificationGuarantees.RemindersAreSpaced | internal/notifications/repository.go:776-809 | over every run successive reminders of an incident are more than the interval less one second apart, whatever happens in between |
| NotificationGuarantees.FirstReminderWaits | internal/notifications/repository.go:65-91 | the first one comes more than the interval less one second after the incident was opened, by an evaluation or by the reconciliation of a start |
| NotificationGuarantees.AdoptedIncidentsAreBackdated | internal/notifications/repository.go:317-325 | after reconciliation each adopted alert is in an incident that opened no later than the alert |
| NotificationGuarantees.BackdatingIsExplained | internal/notifications/repository.go:317-325 | and backdates nothing further: each incident opened when it said before, at the start, or when an alert began that was adopted into it |
| OperatorGuarantees.ChannelsAreLimited | internal/notifications/repository.go:517-556 | a channel is created, with its settings, exactly when fewer than 32 are not deleted |
| OperatorGuarantees.TestsAreQueued | internal/notifications/repository.go:754-765 | a test adds one row to a channel that is not deleted, due now and about no incident, and changes nothing else |
| OperatorGuarantees.OldDeliveriesGo | internal/notifications/repository.go:767-771 | cleanup removes exactly the finished deliveries that ended before the cutoff |
| OperatorGuarantees.OldIncidentsGo | internal/notifications/repository.go:772-773 | cleanup removes exactly the incidents resolved before the cutoff, with their memberships; their deliveries stay and lose the reference |
| OperatorGuarantees.OldAlertsGo | internal/alerts/repository.go:191-199 | cleanup removes exactly the alerts resolved before the cutoff, with their memberships |
| Database.Smallest | internal/notifications/repository.go:224-224 | the row that a query with LIMIT 1 picks |
| Database.List | internal/notifications/repository.go:182-197 | a loop over a query's rows lists each of them once |
| Repository.Repository.UpsertDelivery | internal/notifications/repository.go:222-253 | changes the rows as `Outbox.Upsert` says and nothing else |
| Repository.Repository.EnqueueIncident | internal/notifications/repository.go:177-220 | the loop over live channels does what `Outbox.EnqueueIncident` says of them |
| Repository.Repository.EnqueueResolution | internal/notifications/repository.go:132-175 | the loop over channels that want resolutions does what `Outbox.EnqueueResolution` says: those channels are settled, the rows of all others are untouched |
| Repository.Repository.JoinIncident | internal/notifications/repository.go:65-91 | opens or updates the incident as `Alerting.Join` says, or is refused because the alert already has a membership |
| Repository.Repository.AlertFired | internal/notifications/repository.go:61-100 | joins the incident and announces it as `Pipeline.Announce` says |
| Repository.Repository.AlertResolved | internal/notifications/repository.go:102-128 | leaves the incident as `Alerting.Leave` says and announces a resolution exactly when it closed |
| Repository.Repository.Reconcile | internal/notifications/repository.go:295-327 | the loop adopts all firing alerts without an incident as `Alerting.Reconcile` says |
| Repository.Repository.ScheduleReminders | internal/notifications/repository.go:776-809 | the loop reminds of all open incidents that are due as `Pipeline.Remind` says |
| Repository.Repository.Retry | internal/notifications/repository.go:742-753 | accepts exactly a permanently failed delivery, which starts counting again and can be claimed at once exactly when no other delivery of its pair is in progress |
| Repository.Repository.PatchChannel | internal/notifications/repository.go:571-647 | refuses a deleted channel; afterwards the channel has the settings given and is a target exactly if enabled; disabling it cancels exactly its pending rows, and no other row changes |
| Repository.Repository.DeleteChannel | internal/notifications/repository.go:683-702 | refuses a deleted channel; afterwards the channel is no target, exactly its pending rows are cancelled, and no other row changes |
| Repository.MembersAreCounted | internal/notifications/repository.go:113-120 | the counts in the queries are positive exactly when a firing, or firing critical, member exists |
| Repository.DeliveriesAreCounted | internal/notifications/repository.go:155-158 | likewise for attempted and for uncancelled deliveries |
| DeliveryWorker.Worker.RecoverDeliveries | internal/notifications/worker.go:99-102 | afterwards nothing is in progress; what was is pending, due and has the attempts it had; nothing else changed, so the rows stay well formed |
| DeliveryWorker.Worker.ClaimDelivery | internal/notifications/worker.go:201-212 | claims a row exactly when it is pending and due and no row in progress has its incident and channel |
| DeliveryWorker.Worker.FinishDelivery | internal/notifications/worker.go:444-459 | a well-formed row in progress gets one attempt more and is well formed again, succeeded exactly when the delivery did and pending, for later, exactly when it may be tried again; no other row changes |
| DeliveryWorker.Worker.Deliver | internal/notifications/worker.go:201-249 | leaves a row that cannot be claimed alone and ends a claimed one with one attempt more, failed for good at once if its channel is no longer in use |
| Evaluator.EffectiveRule | internal/alerts/evaluator.go:223-237 | the first enabled rule of the family for the target itself, else the last enabled global one, else none |
| Evaluator.Evaluator.Evaluate | internal/alerts/evaluator.go:340-409 | commits exactly what `Alerting.Evaluate` and `Pipeline.Announce` say, or changes nothing |
| Evaluator.Evaluator.Fire | internal/alerts/evaluator.go:377-385 | inserts an alert that says what the evaluation saw, with membership, notifications and event, or reports exactly the conflicts of `Alerting.Trigger`; what it announces of a critical alert is critical |
| Evaluator.Evaluator.Clear | internal/alerts/evaluator.go:388-401 | resolves the latest firing alert of the key, or reports exactly the conflict of `Alerting.Resolve` |
| Dispatch.EligibleMeansClaimable | internal/notifications/worker.go:138-138 | the dispatcher's query asks for exactly what the claiming statement checks again |
| Dispatch.NothingIsMissed | internal/notifications/worker.go:138-138 | the query misses a row that could be claimed only when it returns more rows than the queue can hold |
| Dispatch.MarkedIdsAreSomewhereOnce | internal/notifications/worker.go:154-194 | in every interleaving an id is marked exactly while it is in the queue, with a worker or in the dispatcher's hand; it is in only one of these, and there only once |
| Dispatch.RefusedIdsComeBack | internal/notifications/worker.go:166-174 | after a refusal, for as long as the queue does not accept the id, no worker has it, neither workers nor dispatcher change its row, and the dispatcher sends it whenever it reaches it |
| Dispatch.Worker.EnqueueDue | internal/notifications/worker.go:154-176 | with workers interfering before each critical section, an execution is a run of the dispatcher's steps through all the ids, counting at most one drop per id |
| Dispatch.Worker.EnqueueOne | internal/notifications/worker.go:156-174 | so is each round of its loop |
| Dispatch.Worker.Others | internal/notifications/worker.go:181-194 | what the workers do meanwhile is a run of their own steps |
| RateLimiter.Limiter.Allow | internal/auth/protection.go:172-205 | on the mutable list and map, the answer, the advised wait and the new entries are those of `Admit` on the sequence of entries in order of recency, which the rows of `LimiterBounds` are about |
| RateLimiter.Limiter.MakeRoom | internal/auth/protection.go:181-185 | the eviction loop leaves the most recently used entries, with room for one more |
| RateLimiter.Limiter.Locate | internal/auth/protection.go:179-188 | the entry found or inserted is that of the key, and the others are untouched |
| RateLimiter.Limiter.MoveToFront | internal/auth/protection.go:196-204 | only the order changes |
| RateLimiter.Limiter.constructor | internal/auth/protection.go:164-169 | a limit below one means 4096 |
| LimiterBounds.ResidentsAreTheMostRecent | internal/auth/protection.go:180-189 | after any calls the limiter holds exactly the most recently used keys, in that order, and never more than its limit |
| LimiterBounds.UseBounds | internal/auth/protection.go:190-204 | a use leaves between none and `capacity` tokens, adds at most what accrued and charges exactly the call it lets through |
| LimiterBounds.UseChargesExactly | internal/auth/protection.go:190-204 | what is left plus the token charged is the lesser of the capacity and what the bucket held plus what accrued; a call is let through exactly when that is at least one |
| LimiterBounds.RestFillsTheBucket | internal/auth/protection.go:190-195 | resting for a part of the refill period gains that part of the capacity, and for all of it fills the bucket |
| LimiterBounds.TokensNeverNegative | internal/auth/protection.go:172-205 | after any calls served in the order of their clock readings no bucket is overdrawn |
| LimiterBounds.OverdrawnIff | internal/auth/protection.go:176-195 | the clock is read before the lock is taken: a use overdraws a bucket exactly when what a stepped-back clock takes is more than the bucket holds |
| LimiterBounds.RacingCallsOverdraw | internal/auth/protection.go:176-195 | two racing calls that do |
| LimiterBounds.TokensNeverAboveCapacity | internal/auth/protection.go:190-195 | whatever the clock does, no bucket of a key with one policy ever holds more than its capacity |
| LimiterBounds.RateIsBounded | internal/auth/protection.go:172-205 | for a key that stays resident, the calls let through between any two of its calls are at most the capacity plus what accrued in between, whatever the clock does if the last of them is let through, and in any case if it never steps back |
| LimiterBounds.NewcomersStartFull | internal/auth/protection.go:180-188 | residency is needed: a key not among the most recently used is let through exactly when the capacity is at least one, however much it used before |
| LimiterBounds.BurstsGetTheCapacity | internal/auth/protection.go:172-205 | of the calls that a newcomer makes at one instant, call `m`, from 0, is let through exactly when `m + 1` is at most the capacity |
| LimiterBounds.EvictionForgetsDebt | internal/auth/protection.go:182-188 | so in a limiter of size one no call of any sequence in which neighbours have different keys is refused |
| LimiterBounds.ServedOnceATokenAccrued | internal/auth/protection.go:190-204 | a bucket is served exactly when the missing fraction of a token has accrued |
| LimiterBounds.AdvisedWaitSufficesIffWhole | internal/auth/protection.go:196-199 | waiting as advised suffices exactly when the missing time is a whole number of seconds; one second more always does |
| LimiterBounds.AdvisedWaitCanBeTooShort | internal/auth/protection.go:196-199 | a call that waits as advised and is refused again |
| History.SeriesAreBounded | internal/storage/history.go:123-134 | a query of up to thirty days never spans more than a thousand steps; up to two hours its step is ten seconds, beyond it the finest of a minute, a quarter and an hour that keeps to the thousand |
| History.FindGaps | internal/storage/history.go:302-322 | the loop with its moving cursor finds exactly the gaps of `Scan`: the pauses longer than two steps and the cells of points without a value; none without a step |
| History.GapsAreExact | internal/storage/history.go:302-322 | for any points a gap is found exactly when it is a pause, between the end of one cell and the next point, that is longer than two steps, or the cell of a point without a value |
| History.SilenceIsShort | internal/storage/history.go:302-322 | for any points, a stretch of the range in no gap and in no known sample's cell is at most two steps long |
| History.GapsAreOrdered | internal/storage/history.go:302-322 | for sorted points, gaps come with non-decreasing starts and ends |
| History.KnownSampleInGapIff | internal/storage/history.go:302-322 | a known sample lies inside a gap exactly when it lies in the cell of a point without a value |
| History.SpacedSamplesAreNotInGaps | internal/storage/history.go:302-322 | with points a step apart none does |
| History.MergeGaps | internal/storage/history.go:324-340 | the loop that extends its last gap in place computes `Merge` |
| History.MergeIsExact | internal/storage/history.go:324-340 | ordered gaps cover the same instants for the same reasons after merging, neighbours with one reason are apart, and merging again changes nothing |
| History.UnorderedGapsAreLost | internal/storage/history.go:324-340 | order is needed |
| History.ReportGaps | internal/storage/history.go:149-169 | finding, relabelling and merging, composed |
| History.ReportIsExact | internal/storage/history.go:149-169 | an instant is reported with a reason exactly when some gap found there is classified so |
| History.ReportIsGenuine | internal/storage/history.go:149-169 | in the final report an instant is in a gap exactly when it lies in such a pause or such a cell |
| History.ReportIsComplete | internal/storage/history.go:149-169 | what the report leaves out between known samples is at most two steps long |
| Rollups.ExtremesAreSampled | internal/storage/rollups.go:41-59 | minimum and maximum bound every value in range and each is one of them |
| Rollups.RowIsTheMean | internal/storage/rollups.go:41-59 | a row counts the values of its bucket, its average times the count is their sum, and it lies between minimum and maximum |
| Rollups.SummaryOfParts | internal/storage/rollups.go:41-59 | the aggregate of a range is the combination of those of its parts |
| Rollups.RolledUpIsExact | internal/storage/rollups.go:20-63 | one statement writes exactly the closed buckets that hold samples, and each row aggregates its whole bucket |
| Rollups.WrittenIsClosed | internal/storage/rollups.go:20-22 | nothing is written for a bucket that has not ended |
| Rollups.TiersAgree | internal/storage/rollups.go:12-68 | for each closed coarse bucket whose samples are still there, the coarse row is the sum of counts, the minimum, the maximum and the count-weighted mean of the finer rows in its span, nulls excluded |
| Rollups.StoredTiersAgree | internal/storage/rollups.go:16-19 | so it is for the tiers in use: each quarter-hour row is that of its fifteen minutes, each hourly row that of its four quarters |
| Rollups.RowsAreStable | internal/storage/rollups.go:10-12 | the same samples, now or later, give the same rows; at the same time nothing changes |
| Rollups.RowSurvivesRetentionIff | internal/storage/retention.go:102-149 | a closed bucket's row survives retention and the next rollup exactly when retention took no value out of the bucket, or took everything |
| Rollups.AlignedRetentionIsHarmless | internal/storage/retention.go:130-137 | a cutoff on a bucket boundary harms no row of the tier |
| Rollups.RetentionCanHarmRollups | internal/storage/retention.go:130-137 | another cutoff can turn an average of 15 into 20 |
| Rollups.Manager.RollupOnce | internal/storage/rollups.go:12-68 | the loop over the tiers of a minute, a quarter and an hour replaces or adds the rows of every tier, and leaves the samples alone |
| Deletion.ScopeShrinks | internal/storage/deletion.go:255-280 | wherever a job was interrupted, what its statements still match is what is left of the original scope, because samples go before the containers they are joined through |
| Deletion.BatchKeepsPlace | internal/storage/deletion.go:255-364 | a batch of any matching rows keeps that so |
| Deletion.DeletingKeepsReferences | internal/storage/deletion.go:348-364 | a batch that the foreign keys admit leaves no dangling reference |
| Deletion.OnlyTheScopeIsDeleted | internal/storage/deletion.go:161-247 | however a job is cancelled, fails, crashes and is retried, while history is appended after the fence and nothing else is written, at every moment only rows of its scope are missing, and once completed exactly these, which `Leaves` says table by table |
| Deletion.BeforeLeavesTheNewer | internal/storage/deletion.go:255-261 | a completed deletion up to a limit leaves of the history exactly what is not older, and everything else |
| Deletion.OneResourceLeavesTheOthers | internal/storage/deletion.go:262-280 | a completed deletion for a resource leaves of its history exactly what is after the fence, all history of other resources and of the host, and all other rows except, if archived, the resource itself, its containers and its grace periods |
| Deletion.AllLeavesTheNewer | internal/storage/deletion.go:248-280 | a completed reset leaves exactly the history after the fence, the health checks and grace periods of no resource |
| Deletion.CompletedRunsAgree | internal/storage/deletion.go:161-247 | two runs that complete, however interrupted, end in the same database: the original without the scope |
| DeletionInterference.LostRowsWereInScope | internal/storage/writer.go:47-64 | whatever else is stored or removed meanwhile, at or before the fence too, a row missing because of the job was in its scope, or a grace period of a resource in its scope, in the step that took it away |
| DeletionInterference.SurvivorsWereStoredMeanwhile | internal/storage/writer.go:47-64 | whatever else is stored or removed meanwhile, a row still in scope once the job is completed, or the container through which it is in scope, was stored by others since the job last began |
| Deletion.WatchedJobsNeverComplete | internal/storage/deletion.go:348-364 | no run completes a job while a health check refers to a resource it has to delete |
| Deletion.WatchedJobsExist | migrations/015_checks_alerts.sql:1-2 | a reset of all history on a database with one such check |
| Deletion.OnlyChecksBlock | internal/storage/deletion.go:248-254 | nothing else makes a batch fail on a foreign key, because children are deleted before parents |
| Deletion.RunKeepsInv | internal/storage/deletion.go:139-247 | the invariant behind these holds along every run |
| DeletionControl.NewRowsStay | internal/storage/deletion.go:255-261 | no job ever deletes a history row after its fence |
| DeletionControl.StoppedStaysUnlessLoaded | internal/storage/deletion.go:139-173 | a cancelled or failed job stays as it is until it is retried exactly when the worker has not loaded it |
| DeletionControl.CancelCanBeLost | internal/storage/deletion.go:166-173 | a job cancelled after it was loaded runs all the same |
| DeletionControl.InterruptedJobsResume | internal/storage/deletion.go:150-247 | a restart keeps the rows; afterwards the worker loads the job exactly if it was queued or running, and after a retry whatever its state unless completed |
| DeletionControl.CancellingDeletesOneBatchMore | internal/storage/deletion.go:175-193 | a job that is being cancelled deletes nothing more, or one batch of at most 500 rows if the worker had already read its state |
| DeletionWorker.Previewed | internal/storage/deletion.go:69-73 | a job's limit is never beyond its fence |
| DeletionWorker.Manager.CountRows | internal/storage/deletion.go:289-335 | the number a preview promises is the size of the scope |
| DeletionWorker.Manager.DeleteBatch | internal/storage/deletion.go:255-364 | deletes 500 of the matching rows, or all if there are fewer, with what cascades, or is refused by a foreign key and deletes none |
| DeletionWorker.Manager.Turn | internal/storage/deletion.go:175-194 | one turn of the inner loop, with a collector's append, a cancellation, a failure or a stop around it, is a run of the job's steps, and accounts for the rows it removed |
| DeletionWorker.Manager.RunDeletion | internal/storage/deletion.go:161-219 | the nested loops end; whatever collectors append, users cancel or statements fail meanwhile, an execution is a run of the job's steps; if only collectors write it completes exactly when no health check refers to a resource in scope; whenever it completes exactly the rows are left that `Leaves` says, table by table, and as many are deleted as were in scope |
| PersistenceQueue.EveryBatchIsAccountedFor | internal/storage/persistence.go:42-100 | in every interleaving each batch produced is exactly one of taken, queued, in hand and dropped, the counter says how many are dropped, the writer takes batches in order of production, and the queue holds at most its limit, sixty if none is set |
| PersistenceQueue.OverflowKeepsTheNewest | internal/storage/persistence.go:56-71 | the second offer always succeeds, so the innermost drop is unreachable and overflow never loses the newest batch |
| PersistenceQueue.OverflowDropsTheOldest | internal/storage/persistence.go:58-63 | what overflow loses is older than everything still queued and newer than everything taken |
| PersistenceQueue.DropIsNeedlessIff | internal/storage/persistence.go:53-63 | in any run, after a batch is offered to a full queue and the writer takes `n` times, the drop loses a batch although there is room exactly when `n` is positive and below the limit |
| PersistenceQueue.DropsCanBeNeedless | internal/storage/persistence.go:56-63 | such a run from the start |
| PersistenceQueue.Persistence.Enqueue | internal/storage/persistence.go:42-71 | with the writer taking batches between its selects, an execution is a run of the producer's steps; unless paused, the new batch ends at the end of the queue |

## Left out

- Transports, payloads, templates, secrets, TLS, HTTP handlers, the collectors, the frontend and the command line: input and output, or thin wrappers.
- SQL text, indexes and column types: a statement is the set of rows its condition describes and what it does to them.
- Display columns (titles, messages, observed values, versions of the payload, `updated_at`): no rule reads them.
- Random identifiers: modelled as never repeating.
- Choice among equal rows: where a query orders by a time and takes one row, rows with equal times are taken in id order.
- Silences, deployment grace and thresholds: an observation says whether it is failing, recovered and suppressed.
- Checks of one resource: they share a dedup key in the code and are therefore one alert here too.
- The worker's storage errors: `finish` after a failed claiming statement, and a claim stranded by a read error, are not steps; `RowHistory.FinishSparesFinalRowsIff` says what the former can do.
- Liveness: that an alert resolves, a delivery is eventually sent or a job eventually runs is not stated; only that `RunDeletion` ends.
- Saturation and monotonic readings of Go's times and durations, and floating-point rounding in the limiter and in averages: times are unbounded integers and amounts are reals.
- Several rows of a metric: one column of one samples table stands for each, and a statement of `RollupOnce` that fails midway is not a step.
- Batches of retention: `Rollups.Retained` is their joint effect.
- Other writers beside a deletion job: `Deletion` and `DeletionWorker` have only collectors that append history after the fence; `DeletionInterference` has all others, but does not say that a job completes beside them.
- Cancellation of a deletion job is not promised to win: a cancel that comes after the last state is read is overwritten by completion, here as in the code.
- Other deletion jobs: the unique index allows one active job, and one is modelled; previews, tokens and confirmations are not.
- QueueDepth and write latency: gauges that nothing reads back.
- Dispatch.Worker.EnqueueDue: the workers' interference is a parameter and covers the queue; their claims and reports are steps of `Dispatch` and of `Pipeline`, not of this method.
- Repository.Repository.PatchChannel: starts where the channel's secrets have been stored; validation and defaults of empty fields are left out.
- PersistenceQueue.Persistence.Enqueue: a snapshot with sequence zero is not a batch and is not modelled.
