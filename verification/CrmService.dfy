/**
  The service that owns the tables and changes them one transaction at a time, column by column, in the order
  of the source. Each method is proved to carry out the corresponding function of `CrmTransactions`.
*/
module CrmService {
  import opened Common
  import opened Failures
  import opened CrmRecords
  import opened CrmTransactions

  class CrmSubmissionService {
    const cfg: Config
    var syncs: seq<Sync>
    var identities: map<string, Identity>
    var discards: map<LeadId, DiscardStatus>
    var lifecycles: map<LeadId, Lifecycle>

    constructor (cfg: Config)
      ensures this.cfg == cfg && Tables() == Db([], map[], map[], map[])
    {
      this.cfg := cfg;
      syncs, identities, discards, lifecycles := [], map[], map[], map[];
    }

    ghost function Tables(): Db
      reads this
    {
      Db(syncs, identities, discards, lifecycles)
    }

    /** `_mark_unknown_crm_outcome` */
    method MarkUnknownOutcome(id: SyncId)
      requires id < |syncs|
      modifies this`syncs
      ensures syncs == old(syncs)[id := MarkedUnknown(old(syncs)[id])]
    {
      var sync := syncs[id];
      sync := sync.(status := FailedPendingReview, nextRetryAt := None, category := Some(Unknown));
      sync := sync.(startedAt := None, leaseExpiresAt := None);
      sync := sync.(followUpNoted := false);
      syncs := syncs[id := sync];
    }

    /** First transaction of `_claim_and_call`. */
    method ClaimSync(id: SyncId, now: int, notify: bool)
      returns (granted: Option<Claim>, recovery: bool, outcome: Outcome)
      modifies this`syncs
      ensures match ClaimRecord(cfg, old(Tables()), id, now, notify)
        case Granted(db, claim, resumed) => Tables() == db && granted == Some(claim) && recovery == resumed
        case Refused(db, refused) => Tables() == db && granted == None && outcome == refused
    {
      granted, recovery, outcome := None, false, StatusOutcome(FailedPendingReview);
      if id >= |syncs| {
        return;
      }
      var sync := syncs[id];
      var leaseExpired := sync.status == Processing && sync.leaseExpiresAt.Some? && sync.leaseExpiresAt.value <= now;
      if sync.status !in {Pending, Retrying, AwaitingDuplicateConfirmation} && !leaseExpired {
        if !(sync.status == FailedPendingReview && sync.category == Some(Unknown)) {
          outcome := CompletedOutcome(sync);
          return;
        }
      }
      var unknownRecovery := leaseExpired || (sync.status == FailedPendingReview && sync.category == Some(Unknown));
      var unfinished := UnfinishedUpdate(syncs, sync.lead, Some(id));
      if unfinished.Some? {
        outcome := StatusOutcome(if syncs[unfinished.value].status == FailedPendingReview
                                 then FailedPendingReview else Processing);
        return;
      }
      if sync.op == Update && sync.attempts > 0 && leaseExpired {
        MarkUnknownOutcome(id);
        return;
      }
      if sync.attempts >= cfg.retryLimit && !unknownRecovery {
        MarkUnknownOutcome(id);
        return;
      }
      if sync.status == AwaitingDuplicateConfirmation {
        sync := sync.(crmLead := None, crmOwner := None, followUpNoted := false);
      }
      sync := sync.(status := Processing, nextRetryAt := None);
      sync := sync.(attempts := sync.attempts + 1);
      sync := sync.(startedAt := Some(now), leaseExpiresAt := Some(now + cfg.lease));
      syncs := syncs[id := sync];
      recovery := unknownRecovery;
      granted := Some(Claim(id, sync.attempts, now, sync.payload, sync.key, sync.crmUser, notify));
    }

    /** Last transaction of `_claim_and_call`, after CRM answered. */
    method FinishClaim(c: Claim, r: CrmResult) returns (outcome: Outcome)
      modifies this
      ensures FinishResult(Tables(), outcome) == FinishSuccess(old(Tables()), c, r)
    {
      if c.sync >= |syncs| || syncs[c.sync].lead !in lifecycles {
        return StatusOutcome(FailedPendingReview);
      }
      var sync := syncs[c.sync];
      if !ClaimIsCurrent(sync, c) {
        return CompletedOutcome(sync);
      }
      sync := sync.(status := Succeeded, nextRetryAt := None, startedAt := None, leaseExpiresAt := None);
      if r.crmLead != None {
        sync := sync.(crmLead := r.crmLead);
      }
      if r.crmOwner != None {
        sync := sync.(crmOwner := r.crmOwner);
      }
      sync := sync.(followUpNoted := r.summaryNotesFollowUp);
      SettleIdentity(c.sync, sync);
      syncs := syncs[c.sync := sync];
      lifecycles := lifecycles[sync.lead := Synced];
      VoidDiscard(sync.lead);
      outcome := if r.action == FollowUpAction then FollowedUp else StatusOutcome(Succeeded);
    }

    /** Activate the reservation of a succeeded record, or release it when CRM made no new lead. */
    method SettleIdentity(id: SyncId, sync: Sync)
      modifies this`identities
      ensures identities == IdentitiesAfterSuccess(old(Tables()), id, sync)
    {
      var name := sync.payload.name;
      if name in identities && identities[name].creatingSync == Some(id) {
        if sync.crmLead == None && sync.op == Create {
          identities := identities - {name};
        } else if sync.crmLead != None {
          var identity := identities[name];
          identity := identity.(state := Active);
          identity := identity.(crmLead := sync.crmLead, crmOwner := sync.crmOwner);
          identities := identities[name := identity];
        }
      }
    }

    method VoidDiscard(lead: LeadId)
      modifies this`discards
      ensures discards == DiscardsAfterSuccess(old(Tables()), lead)
    {
      if lead in discards && discards[lead] in {DiscardPending, DiscardEffective} {
        discards := discards[lead := DiscardNotEffective];
      }
    }

    /** `_record_crm_failure` with `_fail_company_identity` and `_finalize_pending_discard`. */
    method RecordCrmFailure(c: Claim, e: TaskError) returns (outcome: Outcome)
      modifies this
      ensures FinishResult(Tables(), outcome) == RecordFailure(old(Tables()), c, e)
    {
      outcome := StatusOutcome(FailedPendingReview);
      if c.sync >= |syncs| {
        return;
      }
      var sync := syncs[c.sync];
      if !ClaimIsCurrent(sync, c) {
        return StatusOutcome(sync.status);
      }
      var category := Classify(e);
      sync := sync.(status := FailedPendingReview, category := Some(category), kind := Some(FailureKind(e)));
      sync := sync.(nextRetryAt := None, startedAt := None, leaseExpiresAt := None);
      if category == Unknown
         || (sync.op == Update
             && (sync.kind == Some("malformed_response") || (e.httpStatus.Some? && e.httpStatus.value >= 500)))
      {
        syncs := syncs[c.sync := sync];
        MarkUnknownOutcome(c.sync);
        return;
      }
      sync := sync.(followUpNoted := false);
      syncs := syncs[c.sync := sync];
      FailCompanyIdentity(c.sync);
      FinalizePendingDiscard(c.sync);
    }

    method FailCompanyIdentity(id: SyncId)
      requires id < |syncs|
      modifies this`identities
      ensures identities == IdentitiesAfterFailure(old(Tables()), id, syncs[id])
    {
      var name := syncs[id].payload.name;
      if syncs[id].op != Create {
        return;
      }
      if name in identities && identities[name].creatingSync == Some(id) {
        identities := identities[name := identities[name].(state := IdentityFailed)];
      }
    }

    method FinalizePendingDiscard(id: SyncId)
      requires id < |syncs|
      modifies this`discards, this`lifecycles
      ensures
        if DiscardDue(old(Tables()), syncs[id])
        then discards == old(discards)[syncs[id].lead := DiscardEffective]
             && lifecycles == old(lifecycles)[syncs[id].lead := Discarded]
        else discards == old(discards) && lifecycles == old(lifecycles)
    {
      var sync := syncs[id];
      if sync.op != Create || sync.lead !in discards || discards[sync.lead] != DiscardPending {
        return;
      }
      if sync.lead !in lifecycles {
        return;
      }
      discards := discards[sync.lead := DiscardEffective];
      lifecycles := lifecycles[sync.lead := Discarded];
    }

    /** `_record_crm_transport_failure` */
    method RecordCrmTransportFailure(c: Claim, e: TaskError, now: int) returns (outcome: Outcome)
      modifies this`syncs
      ensures FinishResult(Tables(), outcome) == RecordTransportFailure(cfg, old(Tables()), c, e, now)
    {
      outcome := StatusOutcome(FailedPendingReview);
      if c.sync >= |syncs| {
        return;
      }
      var sync := syncs[c.sync];
      if !ClaimIsCurrent(sync, c) {
        return StatusOutcome(sync.status);
      }
      sync := sync.(category := Some(Classify(e)), kind := Some(FailureKind(e)));
      sync := sync.(startedAt := None, leaseExpiresAt := None, followUpNoted := false);
      syncs := syncs[c.sync := sync];
      if sync.op == Update {
        MarkUnknownOutcome(c.sync);
        return;
      }
      if c.notify && sync.attempts >= cfg.retryLimit {
        MarkUnknownOutcome(c.sync);
        return;
      }
      var delay := cfg.retryDelay * Power2(if sync.attempts == 0 then 0 else sync.attempts - 1);
      sync := sync.(status := Retrying, nextRetryAt := Some(now + delay));
      syncs := syncs[c.sync := sync];
      outcome := StatusOutcome(Retrying);
    }

    /** The locked transaction of `_submit_create_once`; a frozen record is then claimed by the caller. */
    method FreezeNewCreate(req: CreateRequest) returns (sync: Option<SyncId>, outcome: Outcome)
      modifies this
      ensures match FreezeCreate(old(Tables()), req)
        case Frozen(db, id) => Tables() == db && sync == Some(id)
        case NotFrozen(db, refused) => Tables() == db && sync == None && outcome == refused
    {
      sync, outcome := None, NotSubmitted;
      if !req.scopeAuthorized || req.lead !in lifecycles || !req.table.recordMatches {
        return;
      }
      if !req.table.ownerAllowed || !TableStatusAllowed(req) || !req.table.dateMatches {
        return;
      }
      if UnfinishedUpdate(syncs, req.lead, None).Some? {
        return None, StatusOutcome(FailedPendingReview);
      }
      if req.crmUser == None {
        SaveMappingMissing(req.lead, req.message, req.payload, req.snapshotHash, Create);
        return None, MappingMissing;
      }
      var generation, supersedes := 1, None;
      var latest := LatestCreate(syncs, req.lead);
      if latest.Some? {
        var existing := syncs[latest.value];
        if existing.status == Succeeded {
          return;
        }
        if existing.status == AwaitingDuplicateConfirmation {
          existing := existing.(status := Pending);
          existing := existing.(crmLead := None, crmOwner := None, followUpNoted := false);
          syncs := syncs[latest.value := existing];
          return latest, outcome;
        }
        if existing.status != Abandoned {
          return None, StatusOutcome(existing.status);
        }
        generation := (if existing.generation == 0 then 1 else existing.generation) + 1;
        supersedes := latest;
      } else if req.resubmitsAbandoned {
        return None, Incomplete;
      }
      sync, outcome := ReserveAndInsert(req, generation, supersedes);
    }

    method ReserveAndInsert(req: CreateRequest, generation: nat, supersedes: Option<SyncId>)
      returns (sync: Option<SyncId>, outcome: Outcome)
      modifies this
      ensures match InsertCreate(old(Tables()), req, generation, supersedes)
        case Frozen(db, id) => Tables() == db && sync == Some(id)
        case NotFrozen(db, refused) => Tables() == db && sync == None && outcome == refused
    {
      sync, outcome := None, NotSubmitted;
      var name := req.payload.name;
      if name in identities {
        if identities[name].state == Reserving && identities[name].creatingLead != Some(req.lead) {
          return None, StatusOutcome(Processing);
        } else if identities[name].state !in {Reserving, Active} {
          return None, CompanyIdentityReview;
        }
      }
      var id := |syncs|;
      syncs := syncs + [Sync(req.lead, Create, generation, supersedes, CreateKey(req.lead, generation), req.payload,
                             req.snapshotHash, req.crmUser, None, None, Pending, 0, None, None, None, None, None, false)];
      if name !in identities {
        identities := identities[name := Identity(Reserving, None, None, Some(req.lead), None)];
      }
      if identities[name].state == Reserving {
        identities := identities[name := identities[name].(creatingLead := Some(req.lead))];
        identities := identities[name := identities[name].(creatingSync := Some(id))];
      }
      sync := Some(id);
    }

    /** `_record_mapping_missing` */
    method SaveMappingMissing(lead: LeadId, message: string, payload: Payload, hash: string, requested: Operation)
      modifies this`syncs, this`lifecycles
      ensures Tables() == RecordMappingMissing(old(Tables()), lead, message, payload, hash, requested)
    {
      var key := ValidationKey(requested, lead, message);
      if !KeyTaken(syncs, key) {
        syncs := syncs + [Sync(lead, Validation, 0, None, key, payload, hash, None, None, None, FailedPendingReview, 0,
                               None, None, None, Some(Permanent), Some("validation_failed"), false)];
      }
      if requested == Update && lead in lifecycles && lifecycles[lead] == Synced {
        lifecycles := lifecycles[lead := PendingUpdate];
      }
    }

    /** The freezing transactions of `_submit_update`. */
    method FreezeNewUpdate(req: UpdateRequest) returns (sync: Option<SyncId>, outcome: Outcome)
      requires req.base < |syncs|
      modifies this
      ensures match FreezeUpdate(old(Tables()), req)
        case Frozen(db, id) => Tables() == db && sync == Some(id)
        case NotFrozen(db, refused) => Tables() == db && sync == None && outcome == refused
    {
      sync, outcome := None, Incomplete;
      var previous := syncs[req.base].payload;
      if req.payload.name != previous.name {
        if req.lead in lifecycles {
          lifecycles := lifecycles[req.lead := IdentityReview];
        }
        return None, CompanyIdentityReview;
      }
      if req.payload == previous {
        if req.lead in lifecycles && lifecycles[req.lead] == PendingUpdate {
          lifecycles := lifecycles[req.lead := Synced];
        }
        return None, Unchanged;
      }
      if req.lead !in lifecycles || !req.tableMatches {
        return;
      }
      var unfinished := UnfinishedUpdate(syncs, req.lead, None);
      if unfinished.Some? {
        return None, StatusOutcome(if syncs[unfinished.value].status == FailedPendingReview
                                   then FailedPendingReview else Processing);
      }
      if req.crmUser == None {
        SaveMappingMissing(req.lead, req.message, req.payload, req.snapshotHash, Update);
        return None, MappingMissing;
      }
      var existing := FindUpdate(syncs, req.lead, req.snapshotHash);
      if existing.Some? {
        if syncs[existing.value].status == Succeeded {
          return None, Unchanged;
        }
        return existing, outcome;
      }
      sync := Some(|syncs|);
      syncs := syncs + [Sync(req.lead, Update, 0, None, UpdateKey(req.lead, req.snapshotHash), req.payload,
                             req.snapshotHash, req.crmUser, syncs[req.base].crmLead, syncs[req.base].crmOwner,
                             Pending, 0, None, None, None, None, None, false)];
    }

    /** The stop branch of `resolve_duplicate_confirmation`: all selected rows in one transaction. */
    method StopDuplicateSubmissions(ids: seq<SyncId>)
      requires forall k :: 0 <= k < |ids| ==> ids[k] < |syncs|
      modifies this`syncs, this`identities
      ensures Tables() == StopDuplicates(old(Tables()), ids)
    {
      var k := 0;
      while k < |ids|
        invariant 0 <= k <= |ids|
        invariant |syncs| == |old(syncs)|
        invariant Tables() == StopDuplicates(old(Tables()), ids[..k])
      {
        assert ids[..k + 1][..k] == ids[..k];
        var id := ids[k];
        var sync := syncs[id];
        if sync.op == Create && sync.status == AwaitingDuplicateConfirmation {
          sync := sync.(status := Abandoned);
          sync := sync.(category := Some(UserAbandoned), followUpNoted := false);
          syncs := syncs[id := sync];
          var name := sync.payload.name;
          if name in identities && identities[name].creatingSync == Some(id) && identities[name].state == Reserving {
            identities := identities - {name};
          }
        }
        k := k + 1;
      }
      assert ids[..k] == ids;
    }

    /** `LeadDiscardService.discard` */
    method Discard(lead: LeadId) returns (outcome: DiscardOutcome)
      modifies this
      ensures (Tables(), outcome) == RequestDiscard(old(Tables()), lead)
    {
      if lead !in lifecycles {
        return DiscardRejected;
      }
      if lead in discards {
        match discards[lead]
        case DiscardNotEffective => return NotEffectiveAnyMore;
        case DiscardEffective => return AlreadyDiscarded;
        case DiscardPending => return WaitingForCrm;
      }
      if lifecycles[lead] == Discarded {
        return AlreadyDiscarded;
      }
      if lifecycles[lead] !in {Temporary, PendingCreate} {
        return DiscardRejected;
      }
      var latest := LatestCreate(syncs, lead);
      if latest.Some? {
        var sync := syncs[latest.value];
        if sync.status in {Pending, Processing, Retrying}
           || (sync.status == FailedPendingReview && sync.category == Some(Unknown))
        {
          discards := discards[lead := DiscardPending];
          return WaitingForCrm;
        }
        if sync.status == Succeeded {
          return DiscardRejected;
        }
      }
      if latest.None? || syncs[latest.value].status == FailedPendingReview {
        identities := ReleaseReservations(identities, lead);
      }
      lifecycles := lifecycles[lead := Discarded];
      discards := discards[lead := DiscardEffective];
      outcome := DiscardedNow;
    }
  }
}
