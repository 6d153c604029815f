# Durable-work protocols of the lead-to-CRM service

The service turns sales messages into leads and submits them to a CRM system. Its hard part is work that
survives crashes: rows are frozen, claimed under a lease, handed to an outside system without a transaction, and
settled by a fenced finish. This project models those protocols in Dafny and proves what they keep in every
reachable state, together with the sequential algorithms that feed them.

| files | what they model |
|---|---|
| `Failures.dfy` | the failure classifier and the two handlers that dispatch on it |
| `CrmRecords.dfy`, `CrmTransactions.dfy` | the CRM tables; each database transaction as a function on them |
| `CrmService.dfy` | the same transactions as methods that change rows in place, proved equal to the functions |
| `CrmInvariants.dfy`, `CrmPreservation.dfy` | the table invariant, and that every transaction keeps it |
| `CrmWorld.dfy`, `CrmWorldPreservation.dfy` | tables, submissions between their two phases, workers in flight, requests sent and the remote ledger, with all interleavings of readings, claims, sends, remote effects, lost replies, errors, crashes and takeovers |
| `CrmSubmission.dfy` | the reading phase of a submission, before the lead is locked |
| `CrmTheorems.dfy`, `CrmSettlement.dfy`, `CrmReopening.dfy` | the guarantees of the submission protocol |
| `CrmLeases.dfy`, `CrmFrozenFacts.dfy`, `CrmEffects.dfy` | how long claims protect, that CRM is sent what was submitted, and what each settlement means |
| `MockCrm.dfy` | the in-memory CRM, as one of the remotes the protocol allows |
| `LeadOutbox.dfy`, `LeadOutboxRuns.dfy` | the per-salesperson dispatcher: one scan, and whole runs |
| `AuditMirror.dfy`, `AuditMirrorRuns.dfy` | the audit-mirror queue: its transactions, and whole runs |
| `Resubmission.dfy`, `ResubmissionRuns.dfy` | the replayable command "resubmit incomplete leads" |
| `MaskedText.dfy` | masking of sensitive numbers and recovery of source spans |
| `FieldMerge.dfy` | conservative merging of company data |
| `ConflictPages.dfy` | keyset pagination of the conflict list |
| `CalendarDates.dfy` | dates without a year in submission commands |

A run is a list of steps applied to an initial world. In `CrmWorld` and `AuditMirrorRuns` a step that cannot happen
changes nothing, so the theorems quantify over all lists of steps. Between the claim and the finish of a record
anything may happen: the remote may apply a request at any later time, a worker may die, a lease may expire and be
taken over, and the reply of an overtaken worker may still arrive.

Assumptions, each stated as a precondition or built into a step:

- The number of create attempts is at least 1, as the configuration demands (app/core/config.py:276-289).
  `CrmSettlement.ZeroRetryLimitKeepsOldTarget` shows what goes wrong with 0.
- Initially the CRM tables hold at most legacy creates: abandoned ones, or ones waiting for a duplicate decision,
  with no attempt made. They satisfy the invariant that all later states satisfy.
- The dispatcher's clock never shows one value twice, and a worker stops when the connection that holds its
  salesperson's lock is lost.
- The queue order of the dispatcher also needs the batch writer (app/leads/service.py:4064-4109) to behave: it settles
  events without the salesperson's lock and can put a completed one back to processing. Its step is part of the model;
  `LeadOutboxRuns.ReconcilingKeepsQueueIff` gives the check that decides, both ways, whether such a step keeps the order,
  and `LeadOutboxRuns.QueueOrder` holds for all runs whose steps meet it. The theorems on claims and locks hold for all runs.
- Audit claim tokens are never drawn twice.
- Replays of one command do not overlap. `LeadOutboxRuns.OneConsumerAtATime` and `LeadOutboxRuns.OneWorkerPerEvent` show
  that the session lock and the one-shot claims ensure this; `ResubmissionRuns.OverlapIsHarmlessIff` says what an overlap
  would need to be harmless.
- Conflicts have distinct (updated_at, conflict_id) keys. `ConflictPages.BoundaryLosesNothingIff` says exactly which
  conflicts are lost otherwise.

Where code and intent part, the model follows the code:

- "unchanged" does not mean equal to the last CRM snapshot: `CrmTheorems.UnchangedIff` gives the exact condition and
  `CrmTheorems.UnchangedNeedNotMatchLastSnapshot` a lead on which the two differ.
- The locked phase of a submission has a branch that would reopen an abandoned lead for an ordinary command. No run takes
  it (`CrmReopening.OrdinarySubmissionFreezesIff`).
- Legacy tables may hold a pending discard beside a create that waits for a duplicate decision. Stopping that create leaves
  the discard waiting for nothing (`CrmSettlement.LegacyDiscardCanBeStranded`); from tables without a pending discard this
  cannot happen, and only then (`CrmSettlement.DiscardsWaitForFlightsIff`).
- Merging is not idempotent for diverted values of several lines (`FieldMerge.MergeIdempotentIff`).
- A span that overlaps itself counts as unique (`MaskedText.OverlapsCountOnce`).
- The cap on messages in flight binds the scan alone (`LeadOutboxRuns.ScanAloneKeepsCap`): taking over an expired claim
  refreshes its lease, and `LeadOutbox.TakeRefreshesExpiredLease` says exactly when that exceeds the cap.

## Model

| member | source | states |
|---|---|---|
| `CrmTheorems.ReachableIsOk` | app/crm/service.py:2291-2525 | every world reachable by any interleaving satisfies the table, traffic and budget invariants |
| `CrmTheorems.OneRemoteCreatePerLead` | app/crm/service.py:1928-2000 | the remote never holds results under two create generations of one lead |
| `CrmTheorems.OneRequestPerKey` | app/crm/service.py:2303-2366 | all requests ever sent under one idempotency key carry the same record, payload and CRM user |
| `CrmFrozenFacts.RequestsCarrySubmissions` | app/crm/service.py:2364-2384 | every request ever sent carries payload and CRM user of a submission of the run for the lead and snapshot of its key, or of a legacy row |
| `CrmFrozenFacts.RecordsComeFromSubmissions` | app/crm/service.py:1958-1985 | every record that is no legacy row was frozen by a step of the run with that step's data |
| `CrmFrozenFacts.FrozenUpdateCarriesRequest` | app/crm/service.py:1588-1619 | a frozen update is the only new row, carries the request, aims at CRM lead and owner of the last success and waits for its first call |
| `CrmFrozenFacts.FrozenCreateCarriesRequest` | app/crm/service.py:1958-1985 | a frozen create is the only new row, carries the request and has no CRM identity yet |
| `CrmTheorems.KeyDeterminesRecord` | app/leads/models.py:340-506 | no two callable records share an idempotency key |
| `CrmTheorems.GenerationsContiguous` | app/crm/service.py:1928-2000 | below any create stand creates of all lower generations of the lead |
| `CrmTheorems.SupersededNeverSent` | app/crm/service.py:2131-2147 | every create but the lead's latest is abandoned and was never sent |
| `CrmTheorems.SuccessIsWhatCrmStored` | app/crm/service.py:2422-2452 | a succeeded create stores exactly the CRM lead and owner the remote keeps under its key |
| `CrmTheorems.OpenCreatesShareOnlyActiveNames` | app/crm/service.py:1863-1877 | two unsettled creates with one company name exist only for an active company |
| `CrmTheorems.ReservationNamesItsCreate` | app/crm/service.py:1959-2010 | a reserving identity points at the one unsettled create of its name, and at its lead |
| `CrmTheorems.ActiveIdentityIsWhatCrmStored` | app/crm/service.py:2454-2475 | an active identity repeats what CRM stored for the succeeded record that activated it |
| `CrmTheorems.IdentitiesAreAbsorbing` | app/crm/service.py:2809-2822 | an active or failed company never changes again |
| `CrmTheorems.AtMostOneCurrentCall` | app/crm/service.py:2976-2994 | of all workers holding a claim on a record at most one is current |
| `CrmTheorems.StaleFinishChangesNothing` | app/crm/service.py:2439-2441 | success or failure reported by a stale worker leaves every table as it was |
| `CrmTheorems.StaleStaysStale` | app/crm/service.py:2976-2994 | a claim that is stale once is stale in every later world |
| `CrmTheorems.ClaimFencesEarlierCalls` | app/crm/service.py:2359-2363 | a granted claim raises the attempt number by one and makes all earlier calls stale for ever |
| `CrmLeases.ClaimProtectsHolder` | app/crm/service.py:2359-2363 | whatever else happens, until the worker finishes or someone claims at the end of the lease, the record stays as claimed and every earlier claim is refused as still processing |
| `CrmLeases.ReachableLeasesRun` | app/crm/service.py:2362-2363 | in every reachable state a lease ends exactly the configured time after its claim |
| `CrmLeases.ProcessingCreateIsResumableIff` | app/crm/service.py:2317-2330 | a create with a worker is granted to another exactly from the end of its lease on, whatever its attempts |
| `CrmLeases.ProcessingUpdateIsParkedIff` | app/crm/service.py:2340-2343 | an update with a worker is never granted to another, and parked exactly from the end of its lease on |
| `CrmTheorems.RecordsOnlyAdvance` | app/crm/service.py:2317-2330 | frozen facts never change, attempts never fall, final records never change at all |
| `CrmTheorems.NoOpenCreateBesideUpdate` | app/crm/service.py:1576-1617 | a lead with an update has no create that is still open |
| `CrmTheorems.OneUnfinishedUpdatePerLead` | app/crm/service.py:2264-2289 | at most one unfinished update per lead, and none scheduled for retry |
| `CrmTheorems.OneProcessingRecordPerLead` | app/crm/service.py:2334-2343 | at most one record of a lead, create or update, is with a worker |
| `CrmTheorems.UnfinishedUpdateBlocksClaims` | app/crm/service.py:2334-2343 | no other record of the lead is claimed beside an unfinished update |
| `CrmTheorems.ExpiredUpdateIsNotReplayed` | app/crm/service.py:2331-2357 | claiming an update with an expired lease only parks it as unknown |
| `CrmTheorems.OneCompanyNamePerLead` | app/crm/service.py:1501-1551 | all succeeded records and all updates of a lead carry one company name |
| `CrmTheorems.UnchangedIff` | app/crm/service.py:1501-1597 | an update is answered "unchanged" if and only if its payload is the last snapshot, or nothing stops it before the comparison and an older succeeded update has its hash |
| `CrmTheorems.UnchangedNeedNotMatchLastSnapshot` | app/crm/service.py:1588-1597 | valid tables of a lead that went A, B, A, on which a new B is answered "unchanged" |
| `CrmEffects.FailureLeavesDoubtIff` | app/crm/service.py:2861-2886 | the failure of an update leaves it unfinished exactly for unclassified, malformed or server errors, that of a create exactly for unclassified ones; all others are final |
| `CrmEffects.UpdateErrorBlocksLeadIff` | app/crm/service.py:2861-2974 | after an error of its update a lead stays blocked if and only if the write is in doubt |
| `CrmEffects.UnfinishedUpdateFreezesNothing` | app/crm/service.py:1576-1582 | nothing else is frozen for a lead while one of its updates is unfinished |
| `CrmEffects.TransportFailureRetriesIff` | app/crm/service.py:2929-2974 | a transport failure schedules a retry exactly for creates whose attempts are not used up before a notified worker; else the outcome is unknown |
| `CrmEffects.BackoffDoubles` | app/crm/service.py:2960-2962 | the first wait is the configured delay and each further attempt waits twice as long |
| `CrmEffects.RetryIsDueAfterWait` | app/crm/service.py:470-490 | the retry scan picks such a create exactly when its wait is over |
| `CrmEffects.SuccessSettlesLead` | app/crm/service.py:2442-2477 | a success syncs the lead, stores the CRM identity, and activates or frees the reserved name; nothing else changes |
| `CrmEffects.OutcomeIsRepeatedIff` | app/crm/service.py:2524-2534 | later readers are told the worker's outcome if and only if summary or missing lead say FOLLOW_UP exactly when the action did |
| `CrmEffects.FailureSpoilsNameIff` | app/crm/service.py:2809-2822 | a name is spoiled exactly by the confirmed failure of the create that reserved it |
| `CrmEffects.MissingSubmitterFailsForCertain` | app/crm/service.py:2368-2377 | a record without a frozen CRM user is failed for good without a call |
| `CrmEffects.StopFreesReservation` | app/crm/service.py:2131-2147 | a stop abandons the create and frees exactly the name it reserved |
| `CrmEffects.DiscardTakesEffectIff` | app/leads/discard.py:120-192 | a first discard waits exactly for a create in flight, is rejected exactly after a success, and otherwise discards the lead at once |
| `CrmEffects.RepeatedDiscardEchoes` | app/leads/discard.py:73-118 | a repeated discard changes nothing and is told how the first stands |
| `CrmEffects.RenamedUpdateIsDiverted` | app/crm/service.py:1501-1551 | an update is diverted to review exactly when its company name differs, before anything is frozen |
| `CrmEffects.EqualUpdateSettlesLead` | app/crm/service.py:1552-1561 | an update equal to the last snapshot only ends a pending update |
| `CrmEffects.MappingMissingIsRecordedOnce` | app/crm/service.py:2211-2262 | a missing mapping is recorded once per lead, operation and message, and marks a synced lead |
| `CrmEffects.ReadingResumesIff` | app/crm/service.py:1727-1768 | a submission continues a frozen create exactly when that is neither done nor abandoned and nothing blocks the lead |
| `CrmEffects.RefusedClaimReports` | app/crm/service.py:2317-2357 | a refused claim changes nothing and reports the stored outcome or the blocking update, or parks its record with lease and retry time gone |
| `CrmEffects.LockedRefusalSays` | app/crm/service.py:1916-1957 | which outcome the locked phase gives for each reason not to freeze |
| `CrmEffects.LegacyCreateIsTakenOver` | app/crm/service.py:1934-1942 | a legacy create is taken over under its own key, without its old CRM identity |
| `CrmSettlement.SuccessEndsDiscards` | app/crm/service.py:2478-2501 | a lead with any CRM success has no pending and no effective discard |
| `CrmSettlement.DiscardWaitsForTheFact` | app/crm/service.py:2875-2886 | a pending discard becomes void exactly by a current success, effective exactly by a confirmed create failure, and waits otherwise |
| `CrmSettlement.DiscardsWaitForFlightsIff` | app/leads/discard.py:136-168 | in every run every pending discard has a create in flight, if and only if the initial tables hold no pending discard |
| `CrmSettlement.StepMovesFlight` | app/crm/service.py:2291-2525 | a create in flight stays so until it succeeds or its failure is confirmed |
| `CrmSettlement.PendingDiscardHasItsCreate` | app/leads/discard.py:55-192 | from any legacy tables, a pending discard has a create that is still open or was stopped |
| `CrmSettlement.StoppedCreateLeavesDiscardWaiting` | app/crm/service.py:2131-2147 | stopping a create leaves a pending discard of its lead pending |
| `CrmSettlement.LegacyDiscardCanBeStranded` | app/crm/service.py:2131-2147 | a run from valid legacy tables that ends with a pending discard and no create in flight |
| `CrmSettlement.CallsStayWithinBudget` | app/crm/service.py:2331-2363 | calls for a create are at most the retry count, for an update one, plus the counted recoveries |
| `CrmSettlement.RecoveriesAreCounted` | app/crm/service.py:2303-2366 | a claim counts as recovery exactly when it resumes an expired create lease or an unknown outcome |
| `CrmSettlement.ExhaustedCreateIsParked` | app/crm/service.py:2344-2357 | a claim on a create without attempts left is refused and parks it for review |
| `CrmSettlement.RetriesTerminate` | app/crm/service.py:2898-2974 | without recovery every sequence of answers settles or parks a create within its remaining attempts |
| `CrmSettlement.DueCreateIsActedOn` | app/crm/service.py:455-560 | every record the retry scan picks is called again or, its attempts used up, parked |
| `CrmSettlement.ZeroRetryLimitKeepsOldTarget` | app/core/config.py:276-289 | with a retry count of 0 a success could keep an outdated CRM target |
| `CrmReopening.OrdinarySubmissionFreezesIff` | app/crm/service.py:1705-2012 | however long after the reading phase, an ordinary submission freezes a create if and only if its lead has none, the rechecks pass and the name is free |
| `CrmReopening.DedicatedSubmissionFreezesIff` | app/crm/service.py:1705-2012 | the dedicated command freezes the next generation if and only if the latest create is abandoned by then, the rechecks pass and the name is free |
| `CrmReopening.OnlyDedicatedCommandReopens` | app/crm/service.py:1928-1957 | in every reachable state only the dedicated command gives an abandoned lead another create |
| `CrmReopening.StepKeepsReadings` | app/crm/service.py:1705-1877 | whatever happens after the reading phase, no create of the lead comes to wait for a decision, and without the dedicated command none is abandoned |
| `CrmPreservation.ClaimKeepsValid` | app/crm/service.py:2303-2366 | the claim transaction keeps the table invariant and only advances records |
| `CrmPreservation.SuccessKeepsValid` | app/crm/service.py:2422-2509 | so does the success transaction |
| `CrmPreservation.FailureKeepsValid` | app/crm/service.py:2824-2896 | so does a confirmed failure |
| `CrmPreservation.TransportFailureKeepsValid` | app/crm/service.py:2898-2974 | so does a transport failure |
| `CrmPreservation.StopKeepsValid` | app/crm/service.py:2131-2147 | so does stopping any list of duplicate submissions |
| `CrmPreservation.DiscardKeepsValid` | app/leads/discard.py:55-219 | so does requesting a discard |
| `CrmPreservation.FreezeCreateKeepsValid` | app/crm/service.py:1879-2012 | so does freezing a first create, a next generation or a legacy record |
| `CrmPreservation.FreezeUpdateKeepsValid` | app/crm/service.py:1501-1624 | so does freezing an update |
| `CrmPreservation.MappingMissingKeepsValid` | app/crm/service.py:2211-2262 | so does recording a missing CRM user mapping |
| `CrmPreservation.IdentityFollowsName` | app/crm/service.py:2809-2822 | the identity found through the creating record is the one under that record's own name |
| `CrmPreservation.ReleaseFindsNothing` | app/leads/discard.py:202-219 | when a discard takes effect at once, the lead holds no reservation to release |
| `CrmPreservation.LatestDecides` | app/leads/models.py:409-427 | every create but the latest of its lead is abandoned, so the latest alone decides |
| `CrmWorldPreservation.StepKeepsWorld` | app/crm/service.py:2291-2525 | every step of tables, workers, wire and remote keeps the world invariant |
| `CrmService.CrmSubmissionService.ClaimSync` | app/crm/service.py:2303-2366 | the claim's row updates give exactly the specified tables, claim and refusal |
| `CrmService.CrmSubmissionService.FinishClaim` | app/crm/service.py:2422-2509 | the success's row updates give exactly the specified tables, and none for a stale worker |
| `CrmService.CrmSubmissionService.RecordCrmFailure` | app/crm/service.py:2824-2896 | likewise for a confirmed or unknown failure |
| `CrmService.CrmSubmissionService.RecordCrmTransportFailure` | app/crm/service.py:2898-2974 | likewise for a transport failure with its back-off |
| `CrmService.CrmSubmissionService.FailCompanyIdentity` | app/crm/service.py:2809-2822 | a failed create spoils only the reservation that points at it |
| `CrmService.CrmSubmissionService.FinalizePendingDiscard` | app/crm/service.py:3076-3100 | a waiting discard takes effect and the lead is discarded |
| `CrmService.CrmSubmissionService.FreezeNewCreate` | app/crm/service.py:1879-2012 | the locked create transaction gives exactly the specified tables and outcome |
| `CrmService.CrmSubmissionService.FreezeNewUpdate` | app/crm/service.py:1501-1624 | the locked update transaction gives exactly the specified tables and outcome |
| `CrmService.CrmSubmissionService.SaveMappingMissing` | app/crm/service.py:2211-2262 | the missing mapping is recorded once per message |
| `CrmService.CrmSubmissionService.StopDuplicateSubmissions` | app/crm/service.py:2131-2147 | the loop over rows equals stopping them one after the other |
| `CrmService.CrmSubmissionService.Discard` | app/leads/discard.py:55-192 | the discard request gives exactly the specified tables and outcome |
| `Failures.DispatchFollowsCategory` | app/crm/service.py:2382-2420 | whichever handler catches an error, it is retried exactly when it is transient |
| `Failures.TransientIff` | app/core/failures.py:25-80 | exactly which errors are retried, independent of the order of the branches |
| `Failures.UnknownIff` | app/core/failures.py:25-80 | exactly which errors stay unclassified |
| `Failures.GatewayErrorsIgnoreRaisedClass` | app/core/failures.py:28-84 | a known adapter category decides alone and is never unknown |
| `Failures.PaddedCodeClassifiesAlike` | app/core/failures.py:56-72 | leading zeros of an embedded gateway code do not change the category |
| `MockCrm.MockCrmAdapter.SubmitLead` | app/crm/mock.py:34-56 | a known key returns its stored result, a new one creates a lead and stores it |
| `MockCrm.MockCrmAdapter.CreateLead` | app/crm/mock.py:67-97 | a payload above the minimum is recorded once with its key and user and found under its company name; one below is refused without trace |
| `MockCrm.EveryFactIsNeeded` | app/crm/mock.py:71-81 | blanking any one fact of an acceptable payload makes it unacceptable, and either name of the business line suffices |
| `MockCrm.OneCreationPerKey` | app/crm/mock.py:34-56 | however often a key is submitted, at most one lead is created for it |
| `MockCrm.FirstSubmissionDecides` | app/crm/mock.py:34-56 | the first acceptable submission under a key fixes its result for ever |
| `MockCrm.AdapterIsARemote` | app/crm/mock.py:34-56 | the adapter is one of the remotes the protocol is proved against |
| `LeadOutbox.LeadOutboxDispatcher.ClaimDispatchable` | workers/tasks.py:1109-1172 | a scan claims allowed queue heads, one per salesperson, stays within the cap, and skips an eligible head only when full or refused; an unregistered salesperson aborts it |
| `LeadOutbox.LeadOutboxDispatcher.ClaimEvent` | workers/tasks.py:1175-1225 | a claim succeeds exactly for an eligible queue head of a registered salesperson whose lock is free |
| `LeadOutbox.LeadOutboxDispatcher.TakeClaim` | workers/tasks.py:1252-1277 | taking over is a compare-and-set on the claim time |
| `LeadOutbox.OneHeadPerSeller` | workers/tasks.py:1139-1162 | a salesperson has at most one queue head |
| `LeadOutbox.OldestFirst` | workers/tasks.py:1159-1162 | when slots run out the events received earlier were served |
| `LeadOutbox.ClaimHoldsForLease` | workers/tasks.py:1228-1238 | a claimed event can be claimed again exactly once more than the lease has passed |
| `LeadOutbox.LeaseIsFreshOrExpired` | workers/tasks.py:1123-1149 | the count of leases in flight and the recovery of expired ones divide the processing events without gap or overlap |
| `LeadOutbox.FreshCountAfterClaim` | workers/tasks.py:1123-1137 | a claim adds exactly one fresh lease |
| `LeadOutbox.TakeRefreshesExpiredLease` | workers/tasks.py:1264-1276 | taking a claim over adds a fresh lease exactly when it had expired, and exceeds the cap exactly when no slot was free then |
| `LeadOutboxRuns.QueueOrder` | workers/tasks.py:1189-1225 | a processing or completed event has all its predecessors completed and at most one event per salesperson is processing, in every run whose batch-writer steps meet the check |
| `LeadOutboxRuns.ReconcilingKeepsQueueIff` | app/leads/service.py:4064-4109 | a step of the batch writer keeps queue order and lock holders consistent if and only if the check holds |
| `LeadOutboxRuns.ReopeningKeepsOrderIff` | app/leads/service.py:4088-4094 | reopening a completed event keeps the queue order if and only if all later events of the salesperson still wait |
| `LeadOutboxRuns.NextReconcileKeepsOrderIff` | app/leads/service.py:4064-4109 | after any orderly run the check decides about the batch writer's next step, both ways |
| `LeadOutboxRuns.ClaimTakenAtMostOnce` | workers/tasks.py:663-675 | each dispatch claim is taken over at most once, however often its task is delivered |
| `LeadOutboxRuns.SupersededTicketNeverTaken` | workers/tasks.py:1252-1277 | a task whose claim was superseded or used never takes its event again |
| `LeadOutboxRuns.LaterClaimSupersedes` | workers/tasks.py:1194-1221 | a later claim of an event kills every ticket issued for it before |
| `LeadOutboxRuns.NoTicketUnderLock` | workers/tasks.py:1091-1106 | while a worker holds a salesperson's lock no scan issues a ticket for any of that salesperson's events |
| `LeadOutboxRuns.OneConsumerAtATime` | workers/tasks.py:660-675 | while a worker is on an event, no claim on any event of the salesperson is taken over |
| `LeadOutboxRuns.OneWorkerPerEvent` | workers/tasks.py:660-675 | two workers on one event are one worker |
| `LeadOutboxRuns.ScanAloneKeepsCap` | workers/tasks.py:1109-1172 | with workers acting between a scan's transactions, any excess over the cap is due to as many of their steps |
| `LeadOutboxRuns.StepKeepsQueue` | workers/tasks.py:642-810 | every step of scan, task, crash and recovery keeps the queue order |
| `LeadOutboxRuns.ReopeningBreaksTheOrder` | app/leads/service.py:4088-4090 | a run of a scan and the batch writer, failing the check, after which two events of a salesperson are processing |
| `AuditMirror.RetryDueIsTheBackoff` | workers/tasks.py:74-120 | the four-way SQL condition is the back-off function applied to the row's attempts |
| `AuditMirror.ScanIsBoundedAndFair` | workers/tasks.py:546-619 | a due row is passed over only while a batch is active or for a full batch of earlier rows |
| `AuditMirror.ScanBlocksNextScan` | workers/tasks.py:546-619 | after a scan that dispatched something no scan dispatches until the lease ends |
| `AuditMirror.RunningRowBlocksScan` | workers/tasks.py:559-577 | no scan dispatches while a worker is within its time on any row |
| `AuditMirror.NewRowsFirst` | workers/tasks.py:600-607 | a full batch serves new rows before repeated ones and, within each kind, those that waited longest |
| `AuditMirror.AuditMirrorQueue.Claim` | workers/tasks.py:154-204 | a claim succeeds exactly for a claimable row and puts its token on it |
| `AuditMirror.AuditMirrorQueue.Finish` | workers/tasks.py:207-260 | only the token's holder settles a row; any other call changes nothing |
| `AuditMirror.AuditMirrorQueue.Defer` | workers/tasks.py:340-371 | only the token's holder defers a row and gives its attempt back |
| `AuditMirror.AuditMirrorQueue.Scan` | workers/tasks.py:546-619 | the loop dispatches exactly the selected rows and waiting ones become pending |
| `AuditMirrorRuns.AttemptsAreClaimsLessDeferrals` | workers/tasks.py:350-371 | attempts are claims less deferrals, so the clamp at zero never acts |
| `AuditMirrorRuns.OnlyLatestClaimantActs` | workers/tasks.py:223-260 | a lapsed token settles and defers nothing in any later world |
| `AuditMirrorRuns.FinishSettlesRow` | workers/tasks.py:223-260 | mirrored rows are done; a failure is final exactly when its error is missing or not transient, and otherwise claimable exactly after 30, 60, 120 or 300 seconds |
| `AuditMirrorRuns.ClaimProtectsHolder` | workers/tasks.py:168-204 | a claimed row is open to a takeover exactly after the timeout |
| `AuditMirrorRuns.DeferReturnsAttempt` | workers/tasks.py:350-371 | a deferral hands the attempt back and leaves the row waiting |
| `AuditMirrorRuns.DueByStatus` | workers/tasks.py:582-599 | when each kind of row is picked up again once its source is done |
| `AuditMirrorRuns.DispatchedRowIsDueAgain` | workers/tasks.py:614-619 | a dispatched row that nobody takes is due again exactly when its dispatch lease is over |
| `AuditMirrorRuns.EverySettlementLapsesItsToken` | workers/tasks.py:168-204 | a takeover, finish or deferral lapses the token on the row |
| `AuditMirrorRuns.SettledRowsAreFinal` | workers/tasks.py:223-260 | succeeded and failed rows never change again |
| `AuditMirrorRuns.DeferredWaitsForSource` | workers/tasks.py:546-619 | a deferred row is unclaimable until a scan found its source message completed |
| `MaskedText.MaskSensitiveSourceText` | app/ai/gateway.py:444-471 | the masked text equals the reference masking, and a boundary maps to p exactly when p cuts no interval and the masked prefix up to p has that length |
| `MaskedText.BoundaryMapIncreases` | app/ai/gateway.py:444-471 | the map has one entry more than the text, runs from 0 to the source length, and increases strictly where defined |
| `MaskedText.MaskedConcatenates` | app/ai/gateway.py:444-471 | masking a text is masking its parts, if they meet at cuts |
| `MaskedText.SourceForMaskedSpan` | app/ai/gateway.py:473-494 | a source is returned if and only if the text matches and the unique match has whole boundaries; masking that slice gives the span |
| `MaskedText.SourceMasksToSpan` | app/ai/gateway.py:473-494 | a span has at most one source slice, which cuts no interval and masks to exactly the span |
| `MaskedText.OneMatchMeansOnlyMatch` | app/ai/gateway.py:486-488 | one match means: a first occurrence, and none from its end on |
| `MaskedText.OverlapsCountOnce` | app/ai/gateway.py:486-488 | an overlapping second occurrence does not make a span ambiguous |
| `MaskedText.SegmentSources` | app/ai/gateway.py:496-523 | a split is accepted whole, exactly when indexes are distinct and every segment is traceable |
| `FieldMerge.LeadRecord.MergePatch` | app/companies/service.py:824-887 | the loop's field, supplement and provenance updates equal the merge entry by entry, with its patch |
| `FieldMerge.EachFieldOnItsOwn` | app/companies/service.py:840-883 | the outcome of a field depends only on the lead before the merge and the field's own entry |
| `FieldMerge.ProtectedAndFilledFieldsStay` | app/companies/service.py:840-883 | protected fields and filled fields that are no pure default never change |
| `FieldMerge.DefaultsAreReplaced` | app/companies/service.py:856-867 | a default that no person touched is replaced by the first other value |
| `FieldMerge.EmptyFieldsAreFilled` | app/companies/service.py:868-878 | an empty field that no person touched is filled |
| `FieldMerge.PersonalFieldsGetLines` | app/companies/service.py:843-846 | a value for a field a person touched becomes a supplementary line |
| `FieldMerge.RejectedValuesDoNothing` | app/companies/service.py:840-841 | empty values and the two excluded fields change nothing |
| `FieldMerge.NewSourcesNameTheMessage` | app/companies/service.py:871-878 | every added source names the message it came from |
| `FieldMerge.PatchIsTheChange` | app/companies/service.py:835-887 | the patch holds exactly the changed fields with their new values |
| `FieldMerge.AcceptedValuesSurvive` | app/companies/service.py:840-883 | every accepted value is the field's value afterwards or text in its supplementary lines |
| `FieldMerge.WrittenFieldsAreSourced` | app/companies/service.py:862-878 | a written field has its new value as its newest source, which is no default and not a person's |
| `FieldMerge.SourcesAreKept` | app/companies/service.py:862-878 | sources are never removed and only pure defaults are rewritten, in value and default mark only |
| `FieldMerge.SupplementaryLinesStay` | app/companies/service.py:1132-1146 | no supplementary line is ever lost |
| `FieldMerge.MergeIdempotentIff` | app/companies/service.py:824-887 | merging again changes nothing if and only if no diverted value has a newline; fields and sources stay in any case |
| `FieldMerge.AppendIdempotentIff` | app/companies/service.py:1132-1146 | appending a value twice is appending it once exactly for values of one line |
| `FieldMerge.AppendKeepsEverything` | app/companies/service.py:1132-1146 | appending keeps all earlier text and lines and makes the value part of the text |
| `FieldMerge.OrderDoesNotMatter` | app/companies/service.py:840-883 | the order of the incoming mapping does not affect fields and supplementary lines |
| `FieldMerge.JoinUndoesLines` | app/companies/service.py:1132-1146 | joining the split lines gives the text back |
| `ConflictPages.ListConflicts` | app/console/queries.py:609-637 | a page is the top of what lies below the cursor, cut only when full, with a next cursor exactly when something is left |
| `ConflictPages.PageIsCut` | app/console/queries.py:632-637 | such a page is unique: the first entries of the sorted wanted list |
| `ConflictPages.PagesRunNewestFirst` | app/console/queries.py:613-616 | a page runs from the newest conflict to the oldest, by falling identifier within one time |
| `ConflictPages.TextLessIff` | app/console/queries.py:613-616 | identifiers compare by their first difference, a proper prefix first |
| `ConflictPages.TraversalDescends` | app/console/queries.py:618-637 | under any changes of the data a traversal lists strictly descending keys, so nothing twice |
| `ConflictPages.StableConflictsShownOnce` | app/console/queries.py:618-637 | a completed traversal shows every conflict that was there all along exactly once |
| `ConflictPages.FixedSetIsListedOnce` | app/console/queries.py:613-637 | on a fixed set a traversal is complete exactly after max(1, ceil(n / limit)) pages, which concatenate to the sorted list |
| `ConflictPages.BoundaryLosesNothingIff` | app/console/queries.py:618-637 | with repeated keys the next page continues with exactly the rest if and only if the page does not end between two conflicts of one key; else exactly the remaining conflicts of that key are lost |
| `ConflictPages.SharedKeyLosesConflict` | app/console/queries.py:618-637 | an instance: of two conflicts with one key on pages of one the second is lost |
| `CalendarDates.ResolveShortDate` | app/crm/commands.py:212-222 | the backward search finds the latest date up to today with that month and day, and fails only if there is none |
| `CalendarDates.EightYearsAreEnough` | app/crm/commands.py:218-222 | any eight consecutive years hold the day, across every century gap |
| `CalendarDates.LeapYearsClosedForm` | app/crm/commands.py:243-255 | the calendar has n/4 - n/100 + n/400 leap years up to the year n |
| `CalendarDates.MonthsFromMarch` | app/crm/commands.py:243-255 | from March on five months make 153 days, January and February 59 or 60 |
| `CalendarDates.CalendarEnds` | app/crm/commands.py:243-255 | the calendar runs from 1 January of the year 1 to 31 December 9999 |
| `CalendarDates.SevenYearsAreNotEnough` | app/crm/commands.py:218-222 | seven years can miss 29 February, so a shorter search would be wrong |
| `CalendarDates.FailsExactlyWhenDayNeverCame` | app/crm/commands.py:212-225 | the search fails if and only if no year has the day or its first occurrence lies after today; from the year 4 on only the former |
| `CalendarDates.ResolutionIsUnique` | app/crm/commands.py:212-225 | there is one answer |
| `CalendarDates.ResolveDatedRequest` | app/crm/commands.py:200-226 | an explicit year is taken as it is, a missing one resolved, an invalid date or empty owner refused |
| `Resubmission.IncompleteRetryCommand.FreezeOrResume` | app/crm/commands.py:362-406 | targets are frozen once; a finished command echoes its reply; otherwise the unresolved targets are selected in order |
| `Resubmission.IncompleteRetryCommand.Settle` | app/crm/commands.py:430-468 | event, queued messages and saved results after the second transaction, piece by piece |
| `Resubmission.IncompleteRetryCommand.RecordFailure` | app/crm/commands.py:1464-1508 | a failure is counted and retried, or ends the command with one terminal message |
| `Resubmission.CountOpen` | app/crm/commands.py:409-420 | the tally is positive exactly when some target's result is still open |
| `Resubmission.SubmitIncompleteRetry` | app/crm/service.py:818-911 | every selected lead gets one item, and a create is run once for exactly the uncreated leads whose rows are open and own |
| `Resubmission.ItemsTellTheTruth` | app/crm/service.py:838-910 | what a selected lead is told: own success, another's success, changed row, or the create that was run |
| `Resubmission.SortOut` | app/crm/service.py:833-853 | the database part keeps exactly the leads in the table that were never created, with the reason for each other |
| `Resubmission.ReadBack` | app/crm/service.py:854-880 | the table part keeps exactly the leads whose row is still open and own |
| `ResubmissionRuns.TargetsAreFrozen` | app/crm/commands.py:363-381 | later candidates never replace the frozen target list |
| `ResubmissionRuns.FirstStartFreezes` | app/crm/commands.py:364-388 | the first replay freezes exactly the targets and labels it found and sends nothing |
| `ResubmissionRuns.TerminalResultsStay` | app/crm/commands.py:401-408 | a saved terminal result of a lead is never overwritten |
| `ResubmissionRuns.OnlyUnresolvedAreCalled` | app/crm/commands.py:401-407 | the service gets exactly the targets not saved or saved as open, and is never called for nothing |
| `ResubmissionRuns.FinishedCommandIsQuiet` | app/crm/commands.py:382-385 | a finished command calls the service no more and its reply, results and messages are final |
| `ResubmissionRuns.SucceededMeansFinished` | app/crm/commands.py:430-468 | in every reachable state a succeeded event means a finished command, and one that owes a final reply stays open |
| `ResubmissionRuns.SettleEndsEventIff` | app/crm/commands.py:430-468 | the second transaction ends the event exactly when no target is open, and saves the reply and the results it was given |
| `ResubmissionRuns.FailureRetriesIff` | app/crm/commands.py:1479-1508 | a failure has the command retried exactly within the configured retries, and otherwise fails it with a terminal message |
| `ResubmissionRuns.NoticesRegisteredOnce` | app/crm/commands.py:440-468 | progress and final messages are registered at most once each, the final ones last |
| `ResubmissionRuns.ChunksAreQueuedOnce` | app/crm/commands.py:444-461 | a queued message is never reworded, and never queued again once taken |
| `ResubmissionRuns.NoticeIsQueuedOnce` | app/crm/commands.py:458-461 | nor is the frozen notice once it left preparation |
| `ResubmissionRuns.EveryPieceIsQueued` | app/crm/commands.py:440-461 | whenever a reachable state registers a reply, every piece of it is queued under its own key, the first one as the notice |
| `ResubmissionRuns.TerminalNoticeStays` | app/crm/commands.py:1494-1507 | the terminal message is written at most once |
| `ResubmissionRuns.FailsAfterItsRetries` | app/crm/commands.py:1479-1508 | the command fails for good exactly when more failures were recorded than retries configured |
| `ResubmissionRuns.OverlapIsHarmlessIff` | app/crm/commands.py:401-468 | a replay that settles on newer results keeps all terminal ones, whatever the service answered, if and only if none of its targets got a terminal result meanwhile |
| `ResubmissionRuns.OverlapLosesResults` | app/crm/commands.py:430-468 | an instance: two overlapping replays that lose a saved terminal result |

## Left out

- The continue branch of the duplicate decision, which turns a legacy create into an update and changes its key; only the stop branch is modelled.
- Key texts: idempotency keys are values of a datatype, so that hashing collisions and string formats are not modelled; lead and record ids are numbers.
- Snapshot hashes are opaque strings and nothing is assumed about collisions.
- CRM response summaries are reduced to whether they mention a follow-up; response codes are given stripped of blanks.
- The identity that belongs to a creating record is looked up under that record's own name; `CrmPreservation.IdentityFollowsName` shows that this is the same row.
- The order in which the retry scan works off due records; which records are due and what happens to them is modelled.
- Concurrency of the creates in one batch: each create is a step of the protocol, in any order.
- Smart-table write-back, notification wording, audit rows and logging: they do not feed back into the protocols.
- SQL, row locks, advisory locks, Celery and Redis: a transaction is one step, a session lock a map entry, and a task may be delivered any number of times.
- HTTP and CLI adapters, prompts and regular expressions: matches are given as intervals and regex groups, remote replies are arbitrary.
- The field checks of each segment after its source was found; only acceptance and tracing of the segments are modelled.
- Structured field values: values of merged fields are strings, for which serialisation is the identity.
- The text of a conflict cursor (Base64 over JSON): a cursor is its sort key, or malformed.
- Choosing the latest incomplete targets of a salesperson; the frozen list is given.
- `Resubmission.IncompleteRetryCommand.Settle`: reply wording and its split into pieces are given; that there is at least one piece is what the splitter guarantees.
- `LeadOutbox.LeadOutboxDispatcher.ClaimDispatchable`: the rows do not change between the scan's transactions; with workers in between, `LeadOutboxRuns` treats each claim as a step of its own.
- A reading phase that stops for missing or unmapped fields: such a submission goes no further.
- Console routes, authorisation, configuration, health checks, retention and migrations.
