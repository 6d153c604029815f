/**
  Every database transaction of the CRM submission protocol as a function from table contents to
  table contents. `CrmService.CrmSubmissionService` carries them out step by step.
*/
module CrmTransactions {
  import opened Common
  import opened Failures
  import opened CrmRecords

  // ---------- outcome of a record that is not claimed ----------

  /** app/crm/service.py:2526-2534 */
  function CompletedOutcome(s: Sync): Outcome {
    if s.status == Succeeded && (s.followUpNoted || (s.op == Create && s.crmLead == None))
    then FollowedUp
    else StatusOutcome(s.status)
  }

  function BlockedOutcome(unfinished: Sync): Outcome {
    StatusOutcome(if unfinished.status == FailedPendingReview then FailedPendingReview else Processing)
  }

  // ---------- claim ----------

  /** The frozen request a worker carries out of the claim transaction. */
  datatype Claim = Claim(
    sync: SyncId, attempt: nat, startedAt: int,
    payload: Payload, key: Key, crmUser: Option<string>, notify: bool)

  datatype ClaimResult =
    | Granted(db: Db, claim: Claim, recovery: bool)
    | Refused(db: Db, outcome: Outcome)

  predicate LeaseExpired(s: Sync, now: int) {
    s.status == Processing && s.leaseExpiresAt.Some? && s.leaseExpiresAt.value <= now
  }

  /** app/crm/service.py:2996-3013 */
  function MarkedUnknown(s: Sync): Sync {
    s.(status := FailedPendingReview, nextRetryAt := None, category := Some(Unknown),
       startedAt := None, leaseExpiresAt := None, followUpNoted := false)
  }

  function ClaimedRecord(cfg: Config, s: Sync, now: int): Sync {
    var cleared :=
      if s.status == AwaitingDuplicateConfirmation
      then s.(crmLead := None, crmOwner := None, followUpNoted := false) else s;
    cleared.(status := Processing, nextRetryAt := None, attempts := s.attempts + 1,
             startedAt := Some(now), leaseExpiresAt := Some(now + cfg.lease))
  }

  function WithSync(db: Db, id: SyncId, s: Sync): Db
    requires id < |db.syncs|
  {
    db.(syncs := db.syncs[id := s])
  }

  predicate Claimable(s: Sync, now: int) {
    || s.status in {Pending, Retrying, AwaitingDuplicateConfirmation}
    || LeaseExpired(s, now)
    || IsUnknownCheckpoint(s)
  }

  /** The claim transaction of `_claim_and_call` (app/crm/service.py:2303-2366). */
  function ClaimRecord(cfg: Config, db: Db, id: SyncId, now: int, notify: bool): ClaimResult {
    if id >= |db.syncs| then Refused(db, StatusOutcome(FailedPendingReview))
    else
      var s := db.syncs[id];
      if !Claimable(s, now) then Refused(db, CompletedOutcome(s))
      else
        var blocking := UnfinishedUpdate(db.syncs, s.lead, Some(id));
        var recovery := LeaseExpired(s, now) || IsUnknownCheckpoint(s);
        if blocking.Some? then Refused(db, BlockedOutcome(db.syncs[blocking.value]))
        else if || (s.op == Update && s.attempts > 0 && LeaseExpired(s, now))
                || (s.attempts >= cfg.retryLimit && !recovery)
        then Refused(WithSync(db, id, MarkedUnknown(s)), StatusOutcome(FailedPendingReview))
        else
          Granted(WithSync(db, id, ClaimedRecord(cfg, s, now)),
                  Claim(id, s.attempts + 1, now, s.payload, s.key, s.crmUser, notify),
                  recovery)
  }

  // ---------- finish ----------

  /** app/crm/service.py:2976-2994 */
  predicate ClaimIsCurrent(s: Sync, c: Claim) {
    s.status == Processing && s.attempts == c.attempt && s.startedAt == Some(c.startedAt)
  }

  function Settled(s: Sync): Sync {
    s.(nextRetryAt := None, startedAt := None, leaseExpiresAt := None)
  }

  function SucceededRecord(s: Sync, r: CrmResult): Sync {
    Settled(s).(
      status := Succeeded,
      crmLead := if r.crmLead.Some? then r.crmLead else s.crmLead,
      crmOwner := if r.crmOwner.Some? then r.crmOwner else s.crmOwner,
      followUpNoted := r.summaryNotesFollowUp)
  }

  /** The reservation of a succeeded record becomes active, or is released when CRM made no new lead. */
  function IdentitiesAfterSuccess(db: Db, id: SyncId, s: Sync): map<string, Identity> {
    var name := s.payload.name;
    if !PointsAt(db, name, id) then db.identities
    else if s.crmLead == None && s.op == Create then db.identities - {name}
    else if s.crmLead.Some? then
      db.identities[name := db.identities[name].(state := Active, crmLead := s.crmLead, crmOwner := s.crmOwner)]
    else db.identities
  }

  function DiscardsAfterSuccess(db: Db, lead: LeadId): map<LeadId, DiscardStatus> {
    if lead in db.discards && db.discards[lead] in {DiscardPending, DiscardEffective}
    then db.discards[lead := DiscardNotEffective] else db.discards
  }

  datatype FinishResult = FinishResult(db: Db, outcome: Outcome)

  /** The success transaction of `_claim_and_call` (app/crm/service.py:2422-2509). */
  function FinishSuccess(db: Db, c: Claim, r: CrmResult): FinishResult {
    if c.sync >= |db.syncs| || db.syncs[c.sync].lead !in db.lifecycles
    then FinishResult(db, StatusOutcome(FailedPendingReview))
    else
      var s := db.syncs[c.sync];
      if !ClaimIsCurrent(s, c) then FinishResult(db, CompletedOutcome(s))
      else
        var t := SucceededRecord(s, r);
        FinishResult(
          Db(db.syncs[c.sync := t],
             IdentitiesAfterSuccess(db, c.sync, t),
             DiscardsAfterSuccess(db, s.lead),
             db.lifecycles[s.lead := Synced]),
          if r.action == FollowUpAction then FollowedUp else StatusOutcome(Succeeded))
  }

  /** An update whose error leaves the remote write in doubt is not treated as a confirmed failure. */
  predicate OutcomeInDoubt(op: Operation, e: TaskError) {
    || Classify(e) == Unknown
    || (op == Update
        && (FailureKind(e) == "malformed_response" || (e.httpStatus.Some? && e.httpStatus.value >= 500)))
  }

  function FailedRecord(s: Sync, e: TaskError): Sync {
    Settled(s).(status := FailedPendingReview, category := Some(Classify(e)), kind := Some(FailureKind(e)),
                followUpNoted := false)
  }

  /** app/crm/service.py:2809-2822 */
  function IdentitiesAfterFailure(db: Db, id: SyncId, s: Sync): map<string, Identity> {
    var name := s.payload.name;
    if s.op == Create && PointsAt(db, name, id)
    then db.identities[name := db.identities[name].(state := IdentityFailed)]
    else db.identities
  }

  /** app/crm/service.py:3076-3100: the waiting discard of a failed create takes effect. */
  predicate DiscardDue(db: Db, s: Sync) {
    && s.op == Create && s.lead in db.discards && db.discards[s.lead] == DiscardPending
    && s.lead in db.lifecycles
  }

  /** `_record_crm_failure` (app/crm/service.py:2824-2896). */
  function RecordFailure(db: Db, c: Claim, e: TaskError): FinishResult {
    if c.sync >= |db.syncs| then FinishResult(db, StatusOutcome(FailedPendingReview))
    else
      var s := db.syncs[c.sync];
      if !ClaimIsCurrent(s, c) then FinishResult(db, StatusOutcome(s.status))
      else if OutcomeInDoubt(s.op, e) then
        FinishResult(WithSync(db, c.sync, MarkedUnknown(FailedRecord(s, e))), StatusOutcome(FailedPendingReview))
      else
        var due := DiscardDue(db, s);
        FinishResult(
          Db(db.syncs[c.sync := FailedRecord(s, e)],
             IdentitiesAfterFailure(db, c.sync, s),
             if due then db.discards[s.lead := DiscardEffective] else db.discards,
             if due then db.lifecycles[s.lead := Discarded] else db.lifecycles),
          StatusOutcome(FailedPendingReview))
  }

  function Power2(n: nat): (r: nat)
    ensures r >= 1
  {
    if n == 0 then 1 else 2 * Power2(n - 1)
  }

  /** `_record_crm_transport_failure` (app/crm/service.py:2898-2974). */
  function RecordTransportFailure(cfg: Config, db: Db, c: Claim, e: TaskError, now: int): FinishResult {
    if c.sync >= |db.syncs| then FinishResult(db, StatusOutcome(FailedPendingReview))
    else
      var s := db.syncs[c.sync];
      if !ClaimIsCurrent(s, c) then FinishResult(db, StatusOutcome(s.status))
      else
        var t := s.(category := Some(Classify(e)), kind := Some(FailureKind(e)), startedAt := None,
                    leaseExpiresAt := None, followUpNoted := false);
        if s.op == Update || (c.notify && s.attempts >= cfg.retryLimit)
        then FinishResult(WithSync(db, c.sync, MarkedUnknown(t)), StatusOutcome(FailedPendingReview))
        else
          var exponent: nat := if s.attempts == 0 then 0 else s.attempts - 1;
          FinishResult(
            WithSync(db, c.sync, t.(status := Retrying,
                                    nextRetryAt := Some(now + cfg.retryDelay * Power2(exponent)))),
            StatusOutcome(Retrying))
  }

  // ---------- freeze ----------

  /** Rechecks made on the Smart Table snapshot under the lead lock, and the command that asked. */
  datatype TableFacts = TableFacts(recordMatches: bool, ownerAllowed: bool, dateMatches: bool, status: TableStatus)
  datatype TableStatus = NotYetSubmitted | MarkedAbandoned | OtherTableStatus

  datatype CreateRequest = CreateRequest(
    lead: LeadId,
    resubmitsAbandoned: bool,
    scopeAuthorized: bool,
    table: TableFacts,
    payload: Payload,
    snapshotHash: string,
    crmUser: Option<string>,
    message: string)

  datatype FreezeResult =
    | Frozen(db: Db, sync: SyncId)
    | NotFrozen(db: Db, outcome: Outcome)

  predicate TableStatusAllowed(req: CreateRequest) {
    req.table.status == (if req.resubmitsAbandoned then MarkedAbandoned else NotYetSubmitted)
  }

  function NewCreate(req: CreateRequest, generation: nat, supersedes: Option<SyncId>): Sync {
    Sync(req.lead, Create, generation, supersedes, CreateKey(req.lead, generation), req.payload, req.snapshotHash,
         req.crmUser, None, None, Pending, 0, None, None, None, None, None, false)
  }

  function Reopened(s: Sync): Sync {
    s.(status := Pending, crmLead := None, crmOwner := None, followUpNoted := false)
  }

  predicate KeyTaken(syncs: seq<Sync>, key: Key) {
    exists i :: 0 <= i < |syncs| && syncs[i].key == key
  }

  /** `_record_mapping_missing` (app/crm/service.py:2211-2262). */
  function RecordMappingMissing(
    db: Db, lead: LeadId, message: string, payload: Payload, hash: string, requested: Operation): Db
  {
    var key := ValidationKey(requested, lead, message);
    var syncs :=
      if KeyTaken(db.syncs, key) then db.syncs
      else db.syncs + [Sync(lead, Validation, 0, None, key, payload, hash, None, None, None, FailedPendingReview, 0,
                            None, None, None, Some(Permanent), Some("validation_failed"), false)];
    db.(syncs := syncs,
        lifecycles := if requested == Update && lead in db.lifecycles && db.lifecycles[lead] == Synced
                      then db.lifecycles[lead := PendingUpdate] else db.lifecycles)
  }

  /** Insert a create and take, or keep, the company reservation (app/crm/service.py:1958-2009). */
  function InsertCreate(db: Db, req: CreateRequest, generation: nat, supersedes: Option<SyncId>): FreezeResult {
    var name := req.payload.name;
    var id := |db.syncs|;
    if name in db.identities && db.identities[name].state == Reserving
       && db.identities[name].creatingLead != Some(req.lead)
    then NotFrozen(db, StatusOutcome(Processing))
    else if name in db.identities && db.identities[name].state == IdentityFailed
    then NotFrozen(db, CompanyIdentityReview)
    else
      Frozen(db.(
        syncs := db.syncs + [NewCreate(req, generation, supersedes)],
        identities :=
          if name !in db.identities
          then db.identities[name := Identity(Reserving, None, None, Some(req.lead), Some(id))]
          else if db.identities[name].state == Reserving
          then db.identities[name := db.identities[name].(creatingLead := Some(req.lead), creatingSync := Some(id))]
          else db.identities), id)
  }

  /** The locked transaction of `_submit_create_once` (app/crm/service.py:1879-2012). */
  function FreezeCreate(db: Db, req: CreateRequest): FreezeResult {
    var latest := LatestCreate(db.syncs, req.lead);
    if !req.scopeAuthorized || req.lead !in db.lifecycles || !req.table.recordMatches
       || !req.table.ownerAllowed || !TableStatusAllowed(req) || !req.table.dateMatches
    then NotFrozen(db, NotSubmitted)
    else if UnfinishedUpdate(db.syncs, req.lead, None).Some?
    then NotFrozen(db, StatusOutcome(FailedPendingReview))
    else if req.crmUser == None then
      NotFrozen(RecordMappingMissing(db, req.lead, req.message, req.payload, req.snapshotHash, Create), MappingMissing)
    else if latest == None then
      if req.resubmitsAbandoned then NotFrozen(db, Incomplete) else InsertCreate(db, req, 1, None)
    else
      var existing := db.syncs[latest.value];
      if existing.status == Succeeded then NotFrozen(db, NotSubmitted)
      else if existing.status == AwaitingDuplicateConfirmation
      then Frozen(WithSync(db, latest.value, Reopened(existing)), latest.value)
      else if existing.status == Abandoned
      then InsertCreate(db, req, (if existing.generation == 0 then 1 else existing.generation) + 1, latest)
      else NotFrozen(db, StatusOutcome(existing.status))
  }

  datatype UpdateRequest = UpdateRequest(
    lead: LeadId,
    base: SyncId,
    tableMatches: bool,
    payload: Payload,
    snapshotHash: string,
    crmUser: Option<string>,
    message: string)

  function NewUpdate(db: Db, req: UpdateRequest): Sync
    requires req.base < |db.syncs|
  {
    Sync(req.lead, Update, 0, None, UpdateKey(req.lead, req.snapshotHash), req.payload, req.snapshotHash,
         req.crmUser, db.syncs[req.base].crmLead, db.syncs[req.base].crmOwner, Pending, 0,
         None, None, None, None, None, false)
  }

  predicate SameSnapshotUpdate(s: Sync, lead: LeadId, hash: string) {
    s.lead == lead && s.op == Update && s.snapshotHash == hash
  }

  /** The update of this lead with this snapshot hash, if one was ever frozen; the index makes it unique. */
  function FindUpdate(syncs: seq<Sync>, lead: LeadId, hash: string): (r: Option<SyncId>)
    ensures r.Some? ==> r.value < |syncs| && SameSnapshotUpdate(syncs[r.value], lead, hash)
    ensures r.None? ==> forall i :: 0 <= i < |syncs| ==> !SameSnapshotUpdate(syncs[i], lead, hash)
  {
    if |syncs| == 0 then None
    else if SameSnapshotUpdate(syncs[|syncs| - 1], lead, hash) then Some(|syncs| - 1)
    else FindUpdate(syncs[..|syncs| - 1], lead, hash)
  }

  function WithLifecycle(db: Db, lead: LeadId, from: Lifecycle, to: Lifecycle): Db {
    if lead in db.lifecycles && db.lifecycles[lead] == from
    then db.(lifecycles := db.lifecycles[lead := to]) else db
  }

  /**
    The freezing part of `_submit_update` (app/crm/service.py:1522-1624). `base` is the succeeded record the
    caller read earlier as the comparison snapshot.
  */
  function FreezeUpdate(db: Db, req: UpdateRequest): FreezeResult
    requires req.base < |db.syncs|
  {
    var previous := db.syncs[req.base].payload;
    if req.payload.name != previous.name then
      NotFrozen(if req.lead in db.lifecycles then db.(lifecycles := db.lifecycles[req.lead := IdentityReview]) else db,
                CompanyIdentityReview)
    else if req.payload == previous then NotFrozen(WithLifecycle(db, req.lead, PendingUpdate, Synced), Unchanged)
    else if req.lead !in db.lifecycles || !req.tableMatches then NotFrozen(db, Incomplete)
    else
      var unfinished := UnfinishedUpdate(db.syncs, req.lead, None);
      var existing := FindUpdate(db.syncs, req.lead, req.snapshotHash);
      if unfinished.Some? then NotFrozen(db, BlockedOutcome(db.syncs[unfinished.value]))
      else if req.crmUser == None then
        NotFrozen(RecordMappingMissing(db, req.lead, req.message, req.payload, req.snapshotHash, Update),
                  MappingMissing)
      else if existing.Some? then
        if db.syncs[existing.value].status == Succeeded then NotFrozen(db, Unchanged) else Frozen(db, existing.value)
      else Frozen(db.(syncs := db.syncs + [NewUpdate(db, req)]), |db.syncs|)
  }

  // ---------- stop branch of the duplicate confirmation ----------

  predicate IsStoppable(s: Sync) {
    s.op == Create && s.status == AwaitingDuplicateConfirmation
  }

  /** One row of the stop branch (app/crm/service.py:2131-2147). */
  function StopOne(db: Db, id: SyncId): Db
    requires id < |db.syncs|
  {
    var s := db.syncs[id];
    if !IsStoppable(s) then db
    else
      db.(syncs := db.syncs[id := s.(status := Abandoned, category := Some(UserAbandoned), followUpNoted := false)],
          identities :=
            if PointsAt(db, s.payload.name, id) && db.identities[s.payload.name].state == Reserving
            then db.identities - {s.payload.name} else db.identities)
  }

  /** All selected rows, in one transaction. */
  function StopDuplicates(db: Db, ids: seq<SyncId>): (r: Db)
    requires forall k :: 0 <= k < |ids| ==> ids[k] < |db.syncs|
    ensures |r.syncs| == |db.syncs|
  {
    if ids == [] then db else StopOne(StopDuplicates(db, ids[..|ids| - 1]), ids[|ids| - 1])
  }

  // ---------- discard request ----------

  datatype DiscardOutcome = DiscardedNow | WaitingForCrm | AlreadyDiscarded | NotEffectiveAnyMore | DiscardRejected

  /** The lead's own reservations are released (app/leads/discard.py:198-219). */
  function ReleaseReservations(identities: map<string, Identity>, lead: LeadId): map<string, Identity> {
    map n | n in identities && !(identities[n].state == Reserving && identities[n].creatingLead == Some(lead))
      :: identities[n]
  }

  predicate IsInFlightCreate(s: Sync) {
    s.status in {Pending, Processing, Retrying} || IsUnknownCheckpoint(s)
  }

  /** `LeadDiscardService.discard` for an authorised operator (app/leads/discard.py:73-192). */
  function RequestDiscard(db: Db, lead: LeadId): (Db, DiscardOutcome) {
    if lead !in db.lifecycles then (db, DiscardRejected)
    else if lead in db.discards then
      (db, match db.discards[lead]
        case DiscardNotEffective => NotEffectiveAnyMore
        case DiscardEffective => AlreadyDiscarded
        case DiscardPending => WaitingForCrm)
    else if db.lifecycles[lead] == Discarded then (db, AlreadyDiscarded)
    else if db.lifecycles[lead] !in {Temporary, PendingCreate} then (db, DiscardRejected)
    else
      var latest := LatestCreate(db.syncs, lead);
      if latest.Some? && IsInFlightCreate(db.syncs[latest.value])
      then (db.(discards := db.discards[lead := DiscardPending]), WaitingForCrm)
      else if latest.Some? && db.syncs[latest.value].status == Succeeded then (db, DiscardRejected)
      else
        (db.(discards := db.discards[lead := DiscardEffective],
             lifecycles := db.lifecycles[lead := Discarded],
             identities :=
               if latest == None || db.syncs[latest.value].status == FailedPendingReview
               then ReleaseReservations(db.identities, lead) else db.identities), DiscardedNow)
  }
}
