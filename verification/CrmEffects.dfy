/** What the settling transactions of the CRM protocol mean for record, lead, company name and discard. */
module CrmEffects {
  import opened Common
  import opened Failures
  import opened CrmRecords
  import opened CrmTransactions
  import opened CrmInvariants
  import opened CrmPreservation
  import opened CrmSubmission
  import opened CrmWorld
  import opened CrmWorldPreservation
  import opened CrmTheorems
  import opened CrmSettlement

  // ---------- errors that leave the remote write in doubt ----------

  /** The error text CRM's answer could not be read from: by its adapter category, or by the name of its class. */
  predicate IsMalformed(e: TaskError) {
    if e.adapterCategory.Some? && e.adapterCategory.value in KNOWN_ADAPTER_CATEGORIES
    then e.adapterCategory.value == "malformed_response" else e.typeName == "malformed_response"
  }

  predicate IsServerError(e: TaskError) {
    e.httpStatus.Some? && e.httpStatus.value >= 500
  }

  /**
    The failed call of a current worker leaves an update unfinished, as an unknown outcome, if and only if the error
    is unclassified, its answer was malformed, or the server failed; a create if and only if it is unclassified.
    Every other failure is confirmed and final, with the error's own category.
  */
  lemma FailureLeavesDoubtIff(db: Db, c: Claim, e: TaskError)
    requires c.sync < |db.syncs| && ClaimIsCurrent(db.syncs[c.sync], c) && db.syncs[c.sync].op != Validation
    ensures var s := db.syncs[c.sync]; var t := RecordFailure(db, c, e).db.syncs[c.sync];
            && (s.op == Update ==>
                  (IsUnfinishedUpdate(t) <==> Classify(e) == Unknown || IsMalformed(e) || IsServerError(e)))
            && (s.op == Update ==> (IsUnfinishedUpdate(t) <==> IsUnknownCheckpoint(t)))
            && (s.op == Create ==> (IsUnknownCheckpoint(t) <==> Classify(e) == Unknown))
            && (!IsUnknownCheckpoint(t) ==> IsFinal(t) && t.category == Some(Classify(e)))
            && t.status == FailedPendingReview && t.nextRetryAt == None && t.startedAt == None && t.leaseExpiresAt == None
  {
  }

  /** Nothing else is frozen for a lead while one of its updates is unfinished. */
  lemma UnfinishedUpdateFreezesNothing(db: Db, i: SyncId, req: UpdateRequest)
    requires i < |db.syncs| && IsUnfinishedUpdate(db.syncs[i]) && db.syncs[i].lead == req.lead && req.base < |db.syncs|
    ensures FreezeUpdate(db, req).NotFrozen? && FreezeUpdate(db, req).db.syncs == db.syncs
  {
  }

  /** Which errors of an update keep its lead blocked. */
  predicate KeepsBlocking(e: TaskError) {
    Classify(e) in {Transient, Unknown} || IsMalformed(e) || IsServerError(e)
  }

  /** One finish with an error, as a transaction: the update is unfinished afterwards exactly for those errors. */
  lemma SettledUpdateIsUnfinishedIff(cfg: Config, db: Db, c: Claim, e: TaskError, now: int)
    requires c.sync < |db.syncs| && ClaimIsCurrent(db.syncs[c.sync], c) && db.syncs[c.sync].op == Update
    ensures var after := Settle(cfg, db, c, Raised(e), now).syncs;
            && |after| == |db.syncs|
            && (forall i :: 0 <= i < |after| && i != c.sync ==> after[i] == db.syncs[i])
            && after[c.sync].op == Update && after[c.sync].lead == db.syncs[c.sync].lead
            && (IsUnfinishedUpdate(after[c.sync]) <==> KeepsBlocking(e))
  {
    DispatchFollowsCategory(e);
    if Dispatch(e) == ConfirmedFailure {
      FailureLeavesDoubtIff(db, c, e);
    }
  }

  /** After an error of its update a lead stays blocked if and only if the write is in doubt. */
  lemma UpdateErrorBlocksLeadIff(cfg: Config, w0: World, steps: seq<Step>, k: nat, now: int)
    requires Init(w0) && cfg.retryLimit >= 1
    requires var w := Run(cfg, w0, steps);
             && Enabled(w, FinishStep(k, now)) && IsCurrentCall(w, k) && w.calls[k].phase.Raised?
             && w.db.syncs[w.calls[k].claim.sync].op == Update
    ensures var w := Run(cfg, w0, steps);
            UnfinishedUpdate(
              Apply(cfg, w, FinishStep(k, now)).db.syncs, w.db.syncs[w.calls[k].claim.sync].lead, None).Some?
            <==> KeepsBlocking(w.calls[k].phase.error)
  {
    ReachableIsOk(cfg, w0, steps);
    var w := Run(cfg, w0, steps);
    ErrorBlocksLeadIff(cfg, w.db, w.calls[k].claim, w.calls[k].phase.error, now);
  }

  lemma ErrorBlocksLeadIff(cfg: Config, db: Db, c: Claim, e: TaskError, now: int)
    requires UpdatesExclusive(db.syncs)
    requires c.sync < |db.syncs| && ClaimIsCurrent(db.syncs[c.sync], c) && db.syncs[c.sync].op == Update
    ensures UnfinishedUpdate(Settle(cfg, db, c, Raised(e), now).syncs, db.syncs[c.sync].lead, None).Some?
            <==> KeepsBlocking(e)
  {
    SettledUpdateIsUnfinishedIff(cfg, db, c, e, now);
    var after := Settle(cfg, db, c, Raised(e), now).syncs;
    var found := UnfinishedUpdate(after, db.syncs[c.sync].lead, None);
    if found.Some? && found.value != c.sync {
      UpdatesAreOne(db.syncs, found.value, c.sync);
    }
  }

  // ---------- transport failures of a create ----------

  /**
    A transport failure of a create schedules a retry, unless a notified worker used up the attempts; then, and for
    every update, the outcome is parked as unknown.
  */
  lemma TransportFailureRetriesIff(cfg: Config, db: Db, c: Claim, e: TaskError, now: int)
    requires c.sync < |db.syncs| && ClaimIsCurrent(db.syncs[c.sync], c)
    ensures var s := db.syncs[c.sync]; var r := RecordTransportFailure(cfg, db, c, e, now); var t := r.db.syncs[c.sync];
            && (t.status == Retrying <==> s.op != Update && !(c.notify && s.attempts >= cfg.retryLimit))
            && (t.status == Retrying ==> t.nextRetryAt.Some? && t.category == Some(Classify(e)))
            && (t.status != Retrying ==> IsUnknownCheckpoint(t))
            && r.outcome == StatusOutcome(t.status) && t.attempts == s.attempts
            && t.startedAt == None && t.leaseExpiresAt == None
            && r.db.identities == db.identities && r.db.discards == db.discards && r.db.lifecycles == db.lifecycles
  {
  }

  /** How long a create waits after a transport failure. */
  function Wait(cfg: Config, db: Db, c: Claim, e: TaskError, now: int): int
    requires c.sync < |db.syncs| && ClaimIsCurrent(db.syncs[c.sync], c)
    requires RecordTransportFailure(cfg, db, c, e, now).db.syncs[c.sync].status == Retrying
  {
    TransportFailureRetriesIff(cfg, db, c, e, now);
    RecordTransportFailure(cfg, db, c, e, now).db.syncs[c.sync].nextRetryAt.value - now
  }

  /** The first wait is the configured delay, and each further attempt waits twice as long as the one before. */
  lemma BackoffDoubles(
    cfg: Config, db: Db, c: Claim, e: TaskError, now: int, db': Db, c': Claim, e': TaskError, now': int)
    requires c.sync < |db.syncs| && ClaimIsCurrent(db.syncs[c.sync], c)
    requires RecordTransportFailure(cfg, db, c, e, now).db.syncs[c.sync].status == Retrying
    requires c'.sync < |db'.syncs| && ClaimIsCurrent(db'.syncs[c'.sync], c')
    requires RecordTransportFailure(cfg, db', c', e', now').db.syncs[c'.sync].status == Retrying
    requires db.syncs[c.sync].attempts >= 1
    ensures db.syncs[c.sync].attempts == 1 ==> Wait(cfg, db, c, e, now) == cfg.retryDelay
    ensures db'.syncs[c'.sync].attempts == db.syncs[c.sync].attempts + 1 ==>
              Wait(cfg, db', c', e', now') == 2 * Wait(cfg, db, c, e, now)
  {
    var n := db.syncs[c.sync].attempts;
    assert Wait(cfg, db, c, e, now) == cfg.retryDelay * Power2(n - 1);
    if db'.syncs[c'.sync].attempts == n + 1 {
      assert Wait(cfg, db', c', e', now') == cfg.retryDelay * Power2(n);
      assert Power2(n) == 2 * Power2(n - 1);
    }
  }

  /** The retry scan picks such a create exactly when its wait is over. */
  lemma RetryIsDueAfterWait(cfg: Config, db: Db, c: Claim, e: TaskError, now: int, t: int)
    requires c.sync < |db.syncs| && ClaimIsCurrent(db.syncs[c.sync], c) && db.syncs[c.sync].op == Create
    requires RecordTransportFailure(cfg, db, c, e, now).db.syncs[c.sync].status == Retrying && Classify(e) == Transient
    ensures IsDue(RecordTransportFailure(cfg, db, c, e, now).db.syncs[c.sync], t) <==>
              now + Wait(cfg, db, c, e, now) <= t
  {
    TransportFailureRetriesIff(cfg, db, c, e, now);
  }

  // ---------- success ----------

  /**
    The success of a current worker settles its record and its lead: the lead is synced and no other lead or record
    changes. The company name it reserved becomes active with the CRM identity of the record, or is free again when
    a create brought no new CRM lead; no other name changes.
  */
  lemma SuccessSettlesLead(db: Db, c: Claim, r: CrmResult, name: string)
    requires c.sync < |db.syncs| && ClaimIsCurrent(db.syncs[c.sync], c) && db.syncs[c.sync].lead in db.lifecycles
    ensures var after := FinishSuccess(db, c, r).db; var s, t := db.syncs[c.sync], after.syncs[c.sync];
            && t.status == Succeeded && t.startedAt == None && t.leaseExpiresAt == None && t.nextRetryAt == None
            && t.attempts == s.attempts
            && t.crmLead == (if r.crmLead.Some? then r.crmLead else s.crmLead)
            && t.crmOwner == (if r.crmOwner.Some? then r.crmOwner else s.crmOwner)
            && (forall i :: 0 <= i < |db.syncs| && i != c.sync ==> after.syncs[i] == db.syncs[i])
            && after.lifecycles.Keys == db.lifecycles.Keys
            && (forall l :: l in db.lifecycles ==>
                  after.lifecycles[l] == if l == s.lead then Synced else db.lifecycles[l])
            && (name != s.payload.name || !PointsAt(db, name, c.sync) ==>
                  (name in after.identities <==> name in db.identities)
                  && (name in db.identities ==> after.identities[name] == db.identities[name]))
            && (name == s.payload.name && PointsAt(db, name, c.sync) && t.crmLead.Some? ==>
                  && name in after.identities && after.identities[name].state == Active
                  && after.identities[name].crmLead == t.crmLead && after.identities[name].crmOwner == t.crmOwner)
            && (name == s.payload.name && PointsAt(db, name, c.sync) && t.crmLead.None? && s.op == Create ==>
                  name !in after.identities)
  {
  }

  /**
    A later reader of the record is told the same outcome as the worker itself if and only if the stored summary, or
    a missing CRM lead, says FOLLOW_UP exactly when the action did.
  */
  lemma OutcomeIsRepeatedIff(db: Db, c: Claim, r: CrmResult)
    requires c.sync < |db.syncs| && ClaimIsCurrent(db.syncs[c.sync], c) && db.syncs[c.sync].lead in db.lifecycles
    ensures var f := FinishSuccess(db, c, r); var t := f.db.syncs[c.sync];
            && f.outcome == (if r.action == FollowUpAction then FollowedUp else StatusOutcome(Succeeded))
            && (CompletedOutcome(t) == f.outcome <==>
                  (r.action == FollowUpAction <==>
                     r.summaryNotesFollowUp || (t.op == Create && t.crmLead.None?)))
  {
  }

  // ---------- confirmed failure ----------

  /** A confirmed failure of a create spoils the company name it reserved; doubt and updates leave all names alone. */
  lemma FailureSpoilsNameIff(db: Db, c: Claim, e: TaskError, name: string)
    requires c.sync < |db.syncs| && ClaimIsCurrent(db.syncs[c.sync], c) && name in db.identities
    ensures var after := RecordFailure(db, c, e).db; var s := db.syncs[c.sync];
            && name in after.identities
            && after.identities[name] ==
                 (if s.op == Create && Classify(e) != Unknown && name == s.payload.name && PointsAt(db, name, c.sync)
                  then db.identities[name].(state := IdentityFailed) else db.identities[name])
            && after.identities.Keys == db.identities.Keys
            && (forall i :: 0 <= i < |db.syncs| && i != c.sync ==> after.syncs[i] == db.syncs[i])
  {
  }

  // ---------- stop and discard ----------

  /** Stopping a create that waits for a decision abandons it and frees the name it reserved, and nothing else. */
  lemma StopFreesReservation(db: Db, id: SyncId, name: string)
    requires id < |db.syncs| && IsStoppable(db.syncs[id]) && name in db.identities
    ensures var after := StopOne(db, id); var s := db.syncs[id];
            && after.syncs[id].status == Abandoned && after.syncs[id].category == Some(UserAbandoned)
            && (name in after.identities <==>
                  !(name == s.payload.name && PointsAt(db, name, id) && db.identities[name].state == Reserving))
            && (name in after.identities ==> after.identities[name] == db.identities[name])
            && after.discards == db.discards && after.lifecycles == db.lifecycles
  {
  }

  /**
    The first discard request for a lead that is not yet in CRM waits exactly while its latest create is in flight,
    and is rejected exactly after a success. Otherwise the lead is discarded at once.
  */
  lemma DiscardTakesEffectIff(db: Db, lead: LeadId)
    requires lead in db.lifecycles && lead !in db.discards && db.lifecycles[lead] in {Temporary, PendingCreate}
    ensures var (after, outcome) := RequestDiscard(db, lead); var latest := LatestCreate(db.syncs, lead);
            && (outcome == WaitingForCrm <==> latest.Some? && IsInFlightCreate(db.syncs[latest.value]))
            && (outcome == DiscardRejected <==> latest.Some? && db.syncs[latest.value].status == Succeeded)
            && (outcome == WaitingForCrm ==>
                  after == db.(discards := db.discards[lead := DiscardPending]))
            && (outcome == DiscardRejected ==> after == db)
            && (outcome !in {WaitingForCrm, DiscardRejected} ==>
                  && outcome == DiscardedNow && after.syncs == db.syncs
                  && after.discards == db.discards[lead := DiscardEffective]
                  && after.lifecycles == db.lifecycles[lead := Discarded])
  {
  }

  // ---------- updates ----------

  /** An update with another company name is diverted to review before anything is frozen. */
  lemma RenamedUpdateIsDiverted(db: Db, req: UpdateRequest)
    requires req.base < |db.syncs| && req.lead in db.lifecycles
    ensures FreezeUpdate(db, req).NotFrozen? && FreezeUpdate(db, req).outcome == CompanyIdentityReview <==>
              req.payload.name != db.syncs[req.base].payload.name
    ensures req.payload.name != db.syncs[req.base].payload.name ==>
              FreezeUpdate(db, req).db == db.(lifecycles := db.lifecycles[req.lead := IdentityReview])
  {
  }

  // ---------- reading ----------

  /**
    A submission whose lead has a create that is neither done nor abandoned continues that frozen create, whatever
    the table says now; only then.
  */
  lemma ReadingResumesIff(db: Db, req: CreateRequest)
    ensures var latest := LatestCreate(db.syncs, req.lead);
            PlanCreate(db, req).Resume? <==>
              && req.scopeAuthorized && req.lead in db.lifecycles && UnfinishedUpdate(db.syncs, req.lead, None).None?
              && latest.Some? && db.syncs[latest.value].status !in {Succeeded, Abandoned}
    ensures PlanCreate(db, req).Resume? ==> Some(PlanCreate(db, req).sync) == LatestCreate(db.syncs, req.lead)
  {
  }

  /** An update that equals the last snapshot only ends a pending update of its lead. */
  lemma EqualUpdateSettlesLead(db: Db, req: UpdateRequest)
    requires req.base < |db.syncs| && req.payload == db.syncs[req.base].payload
    ensures FreezeUpdate(db, req).outcome == Unchanged
    ensures FreezeUpdate(db, req).db ==
            if req.lead in db.lifecycles && db.lifecycles[req.lead] == PendingUpdate
            then db.(lifecycles := db.lifecycles[req.lead := Synced]) else db
  {
  }

  /** A missing CRM user is recorded once for each lead, operation and message, and marks a synced lead as to be updated. */
  lemma MappingMissingIsRecordedOnce(
    db: Db, lead: LeadId, message: string, payload: Payload, hash: string, requested: Operation)
    ensures var after := RecordMappingMissing(db, lead, message, payload, hash, requested);
            && KeyTaken(after.syncs, ValidationKey(requested, lead, message))
            && RecordMappingMissing(after, lead, message, payload, hash, requested) == after
            && (requested == Update && lead in db.lifecycles && db.lifecycles[lead] == Synced ==>
                  after.lifecycles[lead] == PendingUpdate)
            && (forall l :: l in db.lifecycles && !(l == lead && requested == Update && db.lifecycles[l] == Synced) ==>
                  l in after.lifecycles && after.lifecycles[l] == db.lifecycles[l])
  {
    var key := ValidationKey(requested, lead, message);
    var after := RecordMappingMissing(db, lead, message, payload, hash, requested);
    if !KeyTaken(db.syncs, key) {
      assert after.syncs[|db.syncs|].key == key;
    }
  }

  /** A repeated discard request changes nothing and is told how the first one stands. */
  lemma RepeatedDiscardEchoes(db: Db, lead: LeadId)
    requires lead in db.lifecycles && lead in db.discards
    ensures RequestDiscard(db, lead).0 == db
    ensures RequestDiscard(db, lead).1 == WaitingForCrm <==> db.discards[lead] == DiscardPending
    ensures RequestDiscard(db, lead).1 == AlreadyDiscarded <==> db.discards[lead] == DiscardEffective
    ensures RequestDiscard(db, lead).1 == NotEffectiveAnyMore <==> db.discards[lead] == DiscardNotEffective
  {
  }

  // ---------- what a refusal says ----------

  /**
    A refused claim either changes nothing, and reports the stored outcome or the update that blocks the lead, or it
    parks its own record as unknown with its lease and its retry time gone.
  */
  lemma RefusedClaimReports(cfg: Config, db: Db, id: SyncId, now: int, notify: bool)
    requires id < |db.syncs| && ClaimRecord(cfg, db, id, now, notify).Refused?
    ensures var r := ClaimRecord(cfg, db, id, now, notify); var s := db.syncs[id];
            var blocking := UnfinishedUpdate(db.syncs, s.lead, Some(id));
            if r.db != db then
              && r.db == db.(syncs := db.syncs[id := r.db.syncs[id]]) && r.outcome == StatusOutcome(FailedPendingReview)
              && IsUnknownCheckpoint(r.db.syncs[id]) && r.db.syncs[id].attempts == s.attempts
              && r.db.syncs[id].nextRetryAt == None && r.db.syncs[id].startedAt == None
              && r.db.syncs[id].leaseExpiresAt == None
            else
              || IsUnknownCheckpoint(s)
              || (!Claimable(s, now) && (r.outcome == StatusOutcome(s.status) || (s.status == Succeeded && r.outcome == FollowedUp)))
              || (blocking.Some? &&
                  (r.outcome == StatusOutcome(FailedPendingReview) <==> db.syncs[blocking.value].status == FailedPendingReview) &&
                  (r.outcome == StatusOutcome(Processing) <==> db.syncs[blocking.value].status != FailedPendingReview))
  {
  }

  /** Why the locked phase does not freeze a create that its rechecks allow. */
  lemma LockedRefusalSays(db: Db, req: CreateRequest)
    requires req.scopeAuthorized && req.lead in db.lifecycles && req.table.recordMatches
    requires req.table.ownerAllowed && TableStatusAllowed(req) && req.table.dateMatches
    requires FreezeCreate(db, req).NotFrozen?
    ensures var latest := LatestCreate(db.syncs, req.lead); var outcome := FreezeCreate(db, req).outcome;
            var blocked := UnfinishedUpdate(db.syncs, req.lead, None).Some?;
            && (blocked ==> outcome == StatusOutcome(FailedPendingReview))
            && (outcome == MappingMissing <==> !blocked && req.crmUser.None?)
            && (outcome == NotSubmitted <==>
                  !blocked && req.crmUser.Some? && latest.Some? && db.syncs[latest.value].status == Succeeded)
            && (outcome == Incomplete <==> !blocked && req.crmUser.Some? && latest.None? && req.resubmitsAbandoned)
            && (!blocked && req.crmUser.Some? && latest.Some? && db.syncs[latest.value].status !in {Succeeded, Abandoned} ==>
                  outcome == StatusOutcome(db.syncs[latest.value].status))
            && (!blocked && req.crmUser.Some? && (if latest.Some? then db.syncs[latest.value].status == Abandoned
                                                  else !req.resubmitsAbandoned) ==>
                  && req.payload.name in db.identities
                  && (outcome == CompanyIdentityReview <==> db.identities[req.payload.name].state == IdentityFailed)
                  && (outcome == StatusOutcome(Processing) <==> db.identities[req.payload.name].state == Reserving))
            && (outcome != MappingMissing ==> FreezeCreate(db, req).db == db)
  {
  }

  /** Why the reading phase stops a submission; nothing is written. */
  lemma ReadingRefusalSays(db: Db, req: CreateRequest)
    requires PlanCreate(db, req).Stop?
    ensures var outcome := PlanCreate(db, req).outcome; var name := req.payload.name;
            var unfinished := UnfinishedUpdate(db.syncs, req.lead, None);
            && (!req.scopeAuthorized || req.lead !in db.lifecycles ==> outcome == NotSubmitted)
            && (outcome == CompanyIdentityReview ==>
                  name in db.identities && db.identities[name].state == IdentityFailed)
            && (outcome == StatusOutcome(Processing) ==>
                  || (unfinished.Some? && db.syncs[unfinished.value].status != FailedPendingReview)
                  || (name in db.identities && db.identities[name].state == Reserving
                      && db.identities[name].creatingLead != Some(req.lead)))
            && (outcome == StatusOutcome(FailedPendingReview) ==>
                  || (unfinished.Some? && db.syncs[unfinished.value].status == FailedPendingReview)
                  || !req.table.recordMatches)
            && outcome in {NotSubmitted, CompanyIdentityReview, StatusOutcome(Processing), StatusOutcome(FailedPendingReview)}
  {
  }

  /** A legacy create that waits for a decision is taken over by the next submission under its own key. */
  lemma LegacyCreateIsTakenOver(db: Db, req: CreateRequest)
    requires FreezeCreate(db, req).Frozen? && LatestCreate(db.syncs, req.lead).Some?
    requires db.syncs[LatestCreate(db.syncs, req.lead).value].status == AwaitingDuplicateConfirmation
    ensures var i := LatestCreate(db.syncs, req.lead).value; var r := FreezeCreate(db, req);
            && r.sync == i && |r.db.syncs| == |db.syncs|
            && r.db.syncs[i].status == Pending && CarriesNoCrmIdentity(r.db.syncs[i])
            && SameFrozenFacts(r.db.syncs[i], db.syncs[i]) && r.db.identities == db.identities
  {
  }

  /** A record without a frozen submitter fails for certain: no CRM call was made for it. */
  lemma MissingSubmitterFailsForCertain(db: Db, c: Claim)
    requires c.sync < |db.syncs| && ClaimIsCurrent(db.syncs[c.sync], c) && c.crmUser.None?
    ensures NewCall(c).phase.Raised? && Dispatch(NewCall(c).phase.error) == ConfirmedFailure
    ensures var t := RecordFailure(db, c, NewCall(c).phase.error).db.syncs[c.sync];
            IsFinal(t) && t.category == Some(Permanent)
  {
  }
}
