/** The reading phase of `_submit_create_once`, and what the locked phase reads again (app/crm/service.py:1686-2012). */
module CrmSubmission {
  import opened Common
  import opened CrmRecords
  import opened CrmTransactions

  /** `NoCrmUser` goes on to record the missing mapping, `Proceed` to the locked phase. */
  datatype CreatePlan = Stop(outcome: Outcome) | Resume(sync: SyncId) | NoCrmUser | Proceed

  /** Decisions taken before the lead is locked (app/crm/service.py:1705-1877). */
  function PlanCreate(db: Db, req: CreateRequest): CreatePlan {
    var unfinished := UnfinishedUpdate(db.syncs, req.lead, None);
    var latest := LatestCreate(db.syncs, req.lead);
    if !req.scopeAuthorized || req.lead !in db.lifecycles then Stop(NotSubmitted)
    else if unfinished.Some? then Stop(BlockedOutcome(db.syncs[unfinished.value]))
    else if latest.Some? && db.syncs[latest.value].status == Succeeded then Stop(NotSubmitted)
    else if latest.Some? && db.syncs[latest.value].status == Abandoned
            && !(req.resubmitsAbandoned && req.table.recordMatches && req.table.status == MarkedAbandoned)
    then Stop(NotSubmitted)
    else if latest.Some? && db.syncs[latest.value].status != Abandoned then Resume(latest.value)
    else if !req.table.recordMatches then Stop(StatusOutcome(FailedPendingReview))
    else if !req.table.ownerAllowed || !TableStatusAllowed(req) || !req.table.dateMatches then Stop(NotSubmitted)
    else if req.crmUser == None then NoCrmUser
    else if req.payload.name in db.identities && db.identities[req.payload.name].state == Reserving
            && db.identities[req.payload.name].creatingLead != Some(req.lead)
    then Stop(StatusOutcome(Processing))
    else if req.payload.name in db.identities && db.identities[req.payload.name].state == IdentityFailed
    then Stop(CompanyIdentityReview)
    else Proceed
  }

  /** The locked phase keeps the table snapshot and reads only authorisation, table record and CRM user again. */
  predicate SameSubmission(read: CreateRequest, req: CreateRequest) {
    req == read.(scopeAuthorized := req.scopeAuthorized, crmUser := req.crmUser,
                 table := read.table.(recordMatches := req.table.recordMatches))
  }
}
