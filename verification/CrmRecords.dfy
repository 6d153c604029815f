/**
  Rows of the CRM submission protocol: `CrmSyncRecord`, `CrmCompanyIdentity`, `LeadDiscardRequest`
  and the lifecycle column of `Lead` (app/leads/models.py:340-506), with the predicates the protocol reads.
*/
module CrmRecords {
  import opened Common
  import opened Failures

  type LeadId = nat
  type SyncId = nat  // position in the append-only table of sync records

  datatype Status =
    | Pending | Retrying | Processing | Succeeded | FailedPendingReview
    | AwaitingDuplicateConfirmation | Abandoned

  datatype Operation = Create | Update | Validation

  /** Idempotency keys: `crm:create:<lead>[:g<n>]`, `crm:update:<lead>:<hash>`, `crm:validation:...`. */
  datatype Key =
    | CreateKey(lead: LeadId, generation: nat)
    | UpdateKey(lead: LeadId, hash: string)
    | ValidationKey(operation: Operation, lead: LeadId, message: string)

  datatype Payload = Payload(name: string, fields: map<string, string>)

  /**
    `followUpNoted` stands for "FOLLOW_UP occurs in response_summary";
    `generation` is 0 for records that are not creates.
  */
  datatype Sync = Sync(
    lead: LeadId,
    op: Operation,
    generation: nat,
    supersedes: Option<SyncId>,
    key: Key,
    payload: Payload,
    snapshotHash: string,
    crmUser: Option<string>,
    crmLead: Option<string>,
    crmOwner: Option<string>,
    status: Status,
    attempts: nat,
    startedAt: Option<int>,
    leaseExpiresAt: Option<int>,
    nextRetryAt: Option<int>,
    category: Option<Category>,
    kind: Option<string>,
    followUpNoted: bool)

  datatype IdentityState = Reserving | Active | IdentityFailed

  datatype Identity = Identity(
    state: IdentityState,
    crmLead: Option<string>,
    crmOwner: Option<string>,
    creatingLead: Option<LeadId>,
    creatingSync: Option<SyncId>)

  datatype DiscardStatus = DiscardPending | DiscardEffective | DiscardNotEffective

  datatype Lifecycle =
    | Temporary | PendingCreate | Synced | PendingUpdate | IdentityReview | Discarded | Merged

  /** The keys of `lifecycles` are the leads that exist. */
  datatype Db = Db(
    syncs: seq<Sync>,
    identities: map<string, Identity>,
    discards: map<LeadId, DiscardStatus>,
    lifecycles: map<LeadId, Lifecycle>)

  /** `retryLimit` is crm_create_retry_count, `lease` the five-minute lease, `retryDelay` the first back-off. */
  datatype Config = Config(retryLimit: nat, lease: nat, retryDelay: nat)

  datatype Action = CreatedAction | FollowUpAction

  datatype CrmResult = CrmResult(
    crmLead: Option<string>, crmOwner: Option<string>, summaryNotesFollowUp: bool, action: Action)

  /** Result strings returned to the batch layer. */
  datatype Outcome =
    | StatusOutcome(status: Status)
    | FollowedUp | Unchanged | Incomplete | NotSubmitted | MappingMissing | CompanyIdentityReview

  predicate IsUnknownCheckpoint(s: Sync) {
    s.status == FailedPendingReview && s.category == Some(Unknown)
  }

  /** A frozen update that blocks every other submission of its lead (app/crm/service.py:2264-2289). */
  predicate IsUnfinishedUpdate(s: Sync) {
    && s.op == Update
    && (|| s.status in {Pending, Retrying, Processing}
        || (s.status == FailedPendingReview
            && (s.category == Some(Unknown) || (s.attempts > 0 && s.kind == None))))
  }

  /** A create whose external fact is still open. */
  predicate IsUnsettledCreate(s: Sync) {
    && s.op == Create
    && (s.status in {Pending, Retrying, Processing, AwaitingDuplicateConfirmation} || IsUnknownCheckpoint(s))
  }

  /** No step of the protocol may touch such a record again. */
  predicate IsFinal(s: Sync) {
    || s.status in {Succeeded, Abandoned}
    || (s.status == FailedPendingReview && s.category != Some(Unknown))
  }

  /** The columns frozen when the record is inserted. */
  predicate SameFrozenFacts(s: Sync, t: Sync) {
    && s.lead == t.lead && s.op == t.op && s.generation == t.generation && s.supersedes == t.supersedes
    && s.key == t.key && s.payload == t.payload && s.snapshotHash == t.snapshotHash && s.crmUser == t.crmUser
  }

  /** The identity row, if any, that names `id` as its creating record; it is filed under the record's name. */
  predicate PointsAt(db: Db, name: string, id: SyncId) {
    name in db.identities && db.identities[name].creatingSync == Some(id)
  }

  /** The lowest-numbered unfinished update of the lead, other than `exclude`, among records `from..`. */
  function FirstUnfinished(syncs: seq<Sync>, lead: LeadId, exclude: Option<SyncId>, from: nat): (r: Option<SyncId>)
    requires from <= |syncs|
    ensures r.Some? ==>
      && from <= r.value < |syncs| && syncs[r.value].lead == lead && IsUnfinishedUpdate(syncs[r.value])
      && exclude != r
    ensures forall i ::
              from <= i < |syncs| && syncs[i].lead == lead && IsUnfinishedUpdate(syncs[i]) && exclude != Some(i)
              ==> r.Some? && r.value <= i
    decreases |syncs| - from
  {
    if from == |syncs| then None
    else if syncs[from].lead == lead && IsUnfinishedUpdate(syncs[from]) && exclude != Some(from) then Some(from)
    else FirstUnfinished(syncs, lead, exclude, from + 1)
  }

  function UnfinishedUpdate(syncs: seq<Sync>, lead: LeadId, exclude: Option<SyncId>): Option<SyncId> {
    FirstUnfinished(syncs, lead, exclude, 0)
  }

  /** The create with the greatest generation, ties broken by id (app/leads/models.py:409-427). */
  function LatestCreateBefore(syncs: seq<Sync>, lead: LeadId, bound: nat): (r: Option<SyncId>)
    requires bound <= |syncs|
    ensures r.Some? ==> r.value < bound && syncs[r.value].lead == lead && syncs[r.value].op == Create
    ensures forall i :: 0 <= i < bound && syncs[i].lead == lead && syncs[i].op == Create ==>
      && r.Some?
      && (|| syncs[i].generation < syncs[r.value].generation
          || (syncs[i].generation == syncs[r.value].generation && i <= r.value))
  {
    if bound == 0 then None
    else
      var best := LatestCreateBefore(syncs, lead, bound - 1);
      var s := syncs[bound - 1];
      if s.lead == lead && s.op == Create && (best.None? || syncs[best.value].generation <= s.generation)
      then Some(bound - 1) else best
  }

  function LatestCreate(syncs: seq<Sync>, lead: LeadId): Option<SyncId> {
    LatestCreateBefore(syncs, lead, |syncs|)
  }
}
