/**
  The CRM submission protocol as a transition system: database transactions of the service, remote calls
  between them, and an environment that may lose replies, crash workers and apply a request at any later time.
*/
module CrmWorld {
  import opened Common
  import opened Failures
  import opened CrmRecords
  import opened CrmTransactions
  import opened CrmInvariants
  import opened CrmSubmission

  /** A worker between its claim and its finish transaction. */
  datatype Phase = Ready | Sent | Replied(result: CrmResult) | Raised(error: TaskError)
  datatype Call = Call(claim: Claim, phase: Phase)

  /** One `submit_lead` call put on the wire. */
  datatype Request = Request(sync: SyncId, attempt: nat, key: Key, payload: Payload, user: string)

  /**
    `ledger` is what the idempotent remote stored under each key, `log` every request ever sent,
    `recovered` one entry for each claim that resumed an expired lease or an unknown outcome;
    `readings` are the submissions that the reading phase has let through.
  */
  datatype World = World(
    db: Db, ledger: map<Key, CrmResult>, calls: seq<Call>, log: seq<Request>, recovered: multiset<SyncId>,
    readings: set<CreateRequest>)

  datatype Step =
    | ReadCreateStep(create: CreateRequest)
    | FreezeCreateStep(read: CreateRequest, create: CreateRequest)
    | NoCrmUserStep(read: CreateRequest)
    | FreezeUpdateStep(update: UpdateRequest)
    | StopStep(ids: seq<SyncId>)
    | DiscardStep(lead: LeadId)
    | LifecycleStep(lead: LeadId, lifecycle: Lifecycle)
    | ClaimStep(id: SyncId, now: int, notify: bool)
    | SendStep(call: nat)
    | RemoteStep(request: nat, made: CrmResult)
    | ReplyStep(call: nat)
    | RaiseStep(call: nat, error: TaskError)
    | FinishStep(call: nat, now: int)
    | CrashStep(call: nat)

  function WithoutCall(calls: seq<Call>, k: nat): seq<Call>
    requires k < |calls|
  {
    calls[..k] + calls[k + 1..]
  }

  /** A record without a frozen submitter never reaches CRM (app/crm/service.py:2368-2377). */
  function MissingSubmitter(): TaskError {
    TaskError(NoMarker, None, None, "", ValueClass, "ValueError")
  }

  function NewCall(claim: Claim): Call {
    Call(claim, if claim.crmUser.Some? then Ready else Raised(MissingSubmitter()))
  }

  function RequestOf(claim: Claim): Request
    requires claim.crmUser.Some?
  {
    Request(claim.sync, claim.attempt, claim.key, claim.payload, claim.crmUser.value)
  }

  /** The settling transaction the worker runs for its reply or error. */
  function Settle(cfg: Config, db: Db, c: Claim, phase: Phase, now: int): Db
    requires phase.Replied? || phase.Raised?
  {
    if phase.Replied? then FinishSuccess(db, c, phase.result).db
    else match Dispatch(phase.error)
      case TransportFailure => RecordTransportFailure(cfg, db, c, phase.error, now).db
      case ConfirmedFailure => RecordFailure(db, c, phase.error).db
  }

  predicate Enabled(w: World, step: Step) {
    match step
    case FreezeCreateStep(read, req) => read in w.readings && read.crmUser.Some? && SameSubmission(read, req)
    case NoCrmUserStep(read) => read in w.readings && read.crmUser.None? && read.lead in w.db.lifecycles
    case FreezeUpdateStep(req) =>
      // the comparison snapshot was read from a succeeded record of this lead
      req.base < |w.db.syncs| && w.db.syncs[req.base].status == Succeeded && w.db.syncs[req.base].lead == req.lead
    case StopStep(ids) => forall k :: 0 <= k < |ids| ==> ids[k] < |w.db.syncs|
    case SendStep(k) => k < |w.calls| && w.calls[k].phase == Ready && w.calls[k].claim.crmUser.Some?
    case RemoteStep(q, _) => q < |w.log|
    case ReplyStep(k) => k < |w.calls| && w.calls[k].phase == Sent && w.calls[k].claim.key in w.ledger
    case RaiseStep(k, _) => k < |w.calls|
    case FinishStep(k, _) => k < |w.calls| && (w.calls[k].phase.Replied? || w.calls[k].phase.Raised?)
    case CrashStep(k) => k < |w.calls|
    case _ => true
  }

  /** A disabled step leaves the world as it is. */
  function Apply(cfg: Config, w: World, step: Step): World {
    if !Enabled(w, step) then w
    else match step
      case ReadCreateStep(req) =>
        if PlanCreate(w.db, req).Proceed? || PlanCreate(w.db, req).NoCrmUser?
        then w.(readings := w.readings + {req}) else w
      case FreezeCreateStep(_, req) => w.(db := FreezeCreate(w.db, req).db)
      case NoCrmUserStep(read) =>
        w.(db := RecordMappingMissing(w.db, read.lead, read.message, read.payload, read.snapshotHash, Create))
      case FreezeUpdateStep(req) => w.(db := FreezeUpdate(w.db, req).db)
      case StopStep(ids) => w.(db := StopDuplicates(w.db, ids))
      case DiscardStep(lead) => w.(db := RequestDiscard(w.db, lead).0)
      case LifecycleStep(lead, lifecycle) => w.(db := w.db.(lifecycles := w.db.lifecycles[lead := lifecycle]))
      case ClaimStep(id, now, notify) =>
        (match ClaimRecord(cfg, w.db, id, now, notify)
         case Refused(db, _) => w.(db := db)
         case Granted(db, claim, recovery) =>
           w.(db := db, calls := w.calls + [NewCall(claim)],
              recovered := if recovery then w.recovered + multiset{id} else w.recovered))
      case SendStep(k) =>
        w.(calls := w.calls[k := w.calls[k].(phase := Sent)], log := w.log + [RequestOf(w.calls[k].claim)])
      case RemoteStep(q, made) =>
        if w.log[q].key in w.ledger then w else w.(ledger := w.ledger[w.log[q].key := made])
      case ReplyStep(k) =>
        w.(calls := w.calls[k := w.calls[k].(phase := Replied(w.ledger[w.calls[k].claim.key]))])
      case RaiseStep(k, error) => w.(calls := w.calls[k := w.calls[k].(phase := Raised(error))])
      case FinishStep(k, now) =>
        w.(db := Settle(cfg, w.db, w.calls[k].claim, w.calls[k].phase, now), calls := WithoutCall(w.calls, k))
      case CrashStep(k) => w.(calls := WithoutCall(w.calls, k))
  }

  /** A run: the world after the given steps, whatever they are. */
  function Run(cfg: Config, w: World, steps: seq<Step>): World {
    if steps == [] then w else Apply(cfg, Run(cfg, w, steps[..|steps| - 1]), steps[|steps| - 1])
  }

  /**
    Initial worlds: nothing was sent yet; the only records are legacy creates that wait for a duplicate
    decision or were abandoned, and they already satisfy the table invariant.
  */
  ghost predicate Init(w: World) {
    && w.calls == [] && w.log == [] && w.ledger == map[] && w.recovered == multiset{} && w.readings == {}
    && Valid(w.db)
    && forall i :: 0 <= i < |w.db.syncs| ==>
         w.db.syncs[i].op == Create && w.db.syncs[i].status in {AwaitingDuplicateConfirmation, Abandoned}
  }

  // ---------- invariant of the traffic ----------

  predicate CallOk(db: Db, ledger: map<Key, CrmResult>, c: Call) {
    && c.claim.sync < |db.syncs|
    && var s := db.syncs[c.claim.sync];
    && 1 <= c.claim.attempt <= s.attempts
    && c.claim.payload == s.payload && c.claim.key == s.key && c.claim.crmUser == s.crmUser
    && (c.phase == Sent || c.phase.Replied? ==> c.claim.crmUser.Some?)
    && (c.phase.Replied? ==> c.claim.key in ledger && ledger[c.claim.key] == c.phase.result)
  }

  ghost predicate Calls(w: World) {
    forall k :: 0 <= k < |w.calls| ==> CallOk(w.db, w.ledger, w.calls[k])
  }

  predicate SameClaim(a: Claim, b: Claim) {
    a.sync == b.sync && a.attempt == b.attempt
  }

  ghost predicate CallsDistinct(calls: seq<Call>) {
    forall i, j :: 0 <= i < j < |calls| ==> !SameClaim(calls[i].claim, calls[j].claim)
  }

  predicate RequestOk(db: Db, q: Request) {
    && q.sync < |db.syncs|
    && var s := db.syncs[q.sync];
    && 1 <= q.attempt <= s.attempts
    && q.payload == s.payload && q.key == s.key && Some(q.user) == s.crmUser
  }

  ghost predicate Requests(w: World) {
    forall k :: 0 <= k < |w.log| ==> RequestOk(w.db, w.log[k])
  }

  ghost predicate RequestsDistinct(log: seq<Request>) {
    forall i, j :: 0 <= i < j < |log| ==> !(log[i].sync == log[j].sync && log[i].attempt == log[j].attempt)
  }

  predicate NotSent(log: seq<Request>, c: Claim) {
    forall q :: 0 <= q < |log| ==> !(log[q].sync == c.sync && log[q].attempt == c.attempt)
  }

  ghost predicate ReadyNotSent(w: World) {
    forall k :: 0 <= k < |w.calls| && w.calls[k].phase == Ready ==> NotSent(w.log, w.calls[k].claim)
  }

  /** The remote stored something only for a key it was sent. */
  ghost predicate LedgerSent(w: World) {
    forall key :: key in w.ledger ==> exists q :: 0 <= q < |w.log| && w.log[q].key == key
  }

  /** A succeeded record repeats what the remote stored under its key. */
  predicate SuccessMatches(s: Sync, ledger: map<Key, CrmResult>) {
    && s.key in ledger
    && (s.op == Create ==> s.crmLead == ledger[s.key].crmLead && s.crmOwner == ledger[s.key].crmOwner)
    && (ledger[s.key].crmLead.Some? ==> s.crmLead == ledger[s.key].crmLead)
  }

  ghost predicate SuccessesMatch(w: World) {
    forall i :: 0 <= i < |w.db.syncs| && w.db.syncs[i].status == Succeeded ==> SuccessMatches(w.db.syncs[i], w.ledger)
  }

  function AttemptLimit(cfg: Config, op: Operation): nat {
    if op == Update then 1 else cfg.retryLimit
  }

  ghost predicate WithinBudget(cfg: Config, w: World) {
    forall i :: 0 <= i < |w.db.syncs| ==>
      w.db.syncs[i].attempts <= AttemptLimit(cfg, w.db.syncs[i].op) + w.recovered[i]
  }

  ghost predicate Traffic(w: World) {
    && Calls(w) && CallsDistinct(w.calls)
    && Requests(w) && RequestsDistinct(w.log) && ReadyNotSent(w)
    && LedgerSent(w) && SuccessesMatch(w)
  }

  ghost predicate WorldOk(cfg: Config, w: World) {
    Valid(w.db) && Traffic(w) && WithinBudget(cfg, w)
  }
}
